/**
 The executions of a rollout from freshly rendered objects, with every interleaving of a
 parallel group, when no call is refused for reasons of its own and nobody else writes.
 */
module Executions {
  import opened Wrappers
  import opened Kube
  import opened Actions
  import opened Rollout
  import opened Walk
  import Parallel

  function Results(threads: seq<Parallel.Status>): seq<Option<Error>> {
    seq(|threads|, i requires 0 <= i < |threads| =>
      if threads[i].Returned? then threads[i].err else None)
  }

  /**
   A parallel group whose steps work on different objects ends as some complete
   interleaving ends; any other group as the sequential code ends.
   */
  ghost predicate GroupRuns(g: Group, objects: map<string, Tree>, leaves: seq<Object>, st: Store, faults: Faults,
      e: Execution)
    requires ValidObjects(objects, |leaves|)
  {
    var jobs := Parallel.JobsOf(g.steps, objects);
    if g.parallel && Parallel.Disjoint(jobs, leaves) then
      exists schedule: seq<nat> ::
        var w := Parallel.Run(jobs, Parallel.Begin(jobs, leaves, st), schedule, faults);
        Parallel.Complete(w) && e == Execution(ParallelFailure(Results(w.threads)), w.leaves, w.st)
    else e == RunGroup(g, objects, leaves, st, faults)
  }

  ghost predicate RolloutRuns(groups: seq<Group>, objects: map<string, Tree>, leaves: seq<Object>, st: Store,
      faults: Faults, e: Execution)
    requires ValidObjects(objects, |leaves|)
  {
    if groups == [] then e == Execution(None, leaves, st)
    else
      exists first: Execution ::
        && |first.leaves| == |leaves|
        && GroupRuns(groups[0], objects, leaves, st, faults, first)
        && if first.failure.Some? then e == first
           else RolloutRuns(groups[1..], objects, first.leaves, first.st, faults, e)
  }

  /** Without parallel groups the one execution is what the group loop does. */
  lemma {:induction false} SequentialExecution(groups: seq<Group>, objects: map<string, Tree>, leaves: seq<Object>, st: Store,
      faults: Faults, e: Execution)
    requires ValidObjects(objects, |leaves|) && forall i :: 0 <= i < |groups| ==> !groups[i].parallel
    ensures RolloutRuns(groups, objects, leaves, st, faults, e) <==> e == Execute(groups, objects, leaves, st, faults)
  {
    if groups != [] {
      var first := RunGroup(groups[0], objects, leaves, st, faults);
      assert forall x :: GroupRuns(groups[0], objects, leaves, st, faults, x) <==> x == first;
      if first.failure.None? {
        SequentialExecution(groups[1..], objects, first.leaves, first.st, faults, e);
      }
    }
  }

  lemma SomeGroupRuns(g: Group, objects: map<string, Tree>, leaves: seq<Object>, st: Store, faults: Faults)
    returns (e: Execution)
    requires ValidObjects(objects, |leaves|)
    ensures GroupRuns(g, objects, leaves, st, faults, e) && |e.leaves| == |leaves|
  {
    var jobs := Parallel.JobsOf(g.steps, objects);
    if g.parallel && Parallel.Disjoint(jobs, leaves) {
      var schedule := Parallel.SomeRunCompletes(g.steps, objects, leaves, st, faults);
      var w := Parallel.Run(jobs, Parallel.Begin(jobs, leaves, st), schedule, faults);
      e := Execution(ParallelFailure(Results(w.threads)), w.leaves, w.st);
    } else {
      e := RunGroup(g, objects, leaves, st, faults);
    }
  }

  /** Every rollout has an execution. */
  lemma {:induction false} SomeExecution(groups: seq<Group>, objects: map<string, Tree>, leaves: seq<Object>, st: Store,
      faults: Faults)
    returns (e: Execution)
    requires ValidObjects(objects, |leaves|)
    ensures RolloutRuns(groups, objects, leaves, st, faults, e)
  {
    if groups == [] {
      e := Execution(None, leaves, st);
    } else {
      var first := SomeGroupRuns(groups[0], objects, leaves, st, faults);
      if first.failure.Some? {
        e := first;
      } else {
        e := SomeExecution(groups[1..], objects, first.leaves, first.st, faults);
      }
    }
  }
}
