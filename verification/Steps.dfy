/**
 A step with its success checks, as runStep of rollout/rollout.go makes it: the action first,
 and the checks of rollout/checks/checks.go if the action did not fail.
 */
module Steps {
  import opened Wrappers
  import opened Kube
  import opened Walk
  import opened Rollout
  import opened Checks
  import SuccessCheck

  /** What the paths of comparisons parse to, and the success checks of a step. */
  datatype Successes = Successes(checks: seq<Check>, parses: string -> bool)

  ghost predicate AllPass(s: Successes) {
    forall i :: 0 <= i < |s.checks| ==> Passes(s.checks[i], s.parses)
  }

  /** The error of a success check as the error of a step. */
  function Report(e: Option<SuccessCheck.Error>): Option<Error> {
    if e.Some? then Some(Rejected("success check failed")) else None
  }

  /**
   A step that is run with its checks.  It returns nil exactly if its object is known, its walk
   did not fail and every check passes; a failed check never undoes what the action did.
   */
  method RunStepWithChecks(runner: Runner, step: Step, s: Successes) returns (err: Option<Error>, ghost check: Option<Error>)
    requires Distinct(runner.leaves) && ValidObjects(runner.objects, |runner.leaves|)
    requires forall i :: 0 <= i < |s.checks| ==> Meets(s.checks[i])
    modifies runner.cluster, runner.leaves
    ensures check.None? <==> AllPass(s)
    ensures Outcome(err, Contents(runner.leaves), runner.cluster.store) ==
      RunStep(step.(check := check), runner.objects, old(Contents(runner.leaves)), old(runner.cluster.store),
        runner.cluster.faults)
    ensures step.objectName !in runner.objects ==>
      && err == Some(UnknownObject(step.objectName))
      && Contents(runner.leaves) == old(Contents(runner.leaves)) && runner.cluster.store == old(runner.cluster.store)
    ensures step.objectName in runner.objects ==>
      var walk := RunItems(step.action, Flatten(runner.objects[step.objectName]),
        old(Contents(runner.leaves)), old(runner.cluster.store), runner.cluster.faults);
      && Contents(runner.leaves) == walk.leaves && runner.cluster.store == walk.st
      && (walk.err.Some? ==> err == walk.err)
      && (walk.err.None? ==> (err.None? <==> AllPass(s)) && (err.Some? ==> err.value.Rejected?))
    ensures err.None? ==>
      && AllPass(s)
      && AllDone(step.action, runner.objects[step.objectName], old(Contents(runner.leaves)), runner.cluster.store)
  {
    if step.objectName !in runner.objects {
      check := CheckOf(s);
      return Some(UnknownObject(step.objectName)), check;
    }
    err := runner.ExecuteAction(step.action, runner.objects[step.objectName]);
    if err.Some? {
      check := CheckOf(s);
      return;
    }
    var e, ran := RunChecks(s.checks, s.parses);
    err := Report(e);
    check := err;
  }

  /** An outcome for checks that are not reached. */
  ghost method CheckOf(s: Successes) returns (check: Option<Error>)
    ensures check.None? <==> AllPass(s)
  {
    check := if AllPass(s) then None else Some(Rejected(""));
  }
}
