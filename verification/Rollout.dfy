/**
 The rollout engine of rollout/rollout.go: groups in order, steps in a group, and the action
 and success checks of a step.
 */
module Rollout {
  import opened Wrappers
  import opened Kube
  import opened Client
  import opened Actions
  import opened Walk

  /** `check` is the outcome of the step's success checks, should they be reached. */
  datatype Step = Step(name: string, objectName: string, action: string, check: Option<Error>, continueOnError: bool)

  datatype Group = Group(name: string, parallel: bool, steps: seq<Step>)

  function GroupNames(groups: seq<Group>): (names: seq<string>)
    ensures |names| == |groups| && forall i :: 0 <= i < |groups| ==> names[i] == groups[i].name
  {
    seq(|groups|, i requires 0 <= i < |groups| => groups[i].name)
  }

  datatype Failure = StepFailed(error: Error) | StepsFailed(errors: seq<Error>)

  /** What a step does: its leaves, then its success checks. */
  datatype Job = Job(action: string, items: seq<Item>, end: Option<Error>)

  function JobOf(step: Step, objects: map<string, Tree>): Job {
    if step.objectName !in objects then Job(step.action, [], Some(UnknownObject(step.objectName)))
    else Job(step.action, Flatten(objects[step.objectName]), step.check)
  }

  function RunJob(job: Job, leaves: seq<Object>, st: Store, faults: Faults): (o: Outcome)
    requires Within(job.items, |leaves|)
    ensures |o.leaves| == |leaves|
  {
    var o := RunItems(job.action, job.items, leaves, st, faults);
    if o.err.Some? then o else o.(err := job.end)
  }

  function RunStep(step: Step, objects: map<string, Tree>, leaves: seq<Object>, st: Store, faults: Faults): (o: Outcome)
    requires ValidObjects(objects, |leaves|)
    ensures |o.leaves| == |leaves|
  {
    RunJob(JobOf(step, objects), leaves, st, faults)
  }

  /** The steps of a group, their results in order of attempt, and what they leave behind. */
  datatype Attempt = Attempt(results: seq<Option<Error>>, leaves: seq<Object>, st: Store)

  /** One step after another; a failing step ends the group unless it may be ignored. */
  function RunSequential(steps: seq<Step>, objects: map<string, Tree>, leaves: seq<Object>, st: Store,
      faults: Faults): (a: Attempt)
    requires ValidObjects(objects, |leaves|)
    ensures |a.leaves| == |leaves|
  {
    if steps == [] then Attempt([], leaves, st)
    else
      var o := RunStep(steps[0], objects, leaves, st, faults);
      if o.err.Some? && !steps[0].continueOnError then Attempt([o.err], o.leaves, o.st)
      else
        var rest := RunSequential(steps[1..], objects, o.leaves, o.st, faults);
        rest.(results := [o.err] + rest.results)
  }

  /** Every step, in listed order, whatever fails. */
  function RunAll(steps: seq<Step>, objects: map<string, Tree>, leaves: seq<Object>, st: Store,
      faults: Faults): (a: Attempt)
    requires ValidObjects(objects, |leaves|)
    ensures |a.leaves| == |leaves|
    ensures |a.results| == |steps|
  {
    if steps == [] then Attempt([], leaves, st)
    else
      var o := RunStep(steps[0], objects, leaves, st, faults);
      var rest := RunAll(steps[1..], objects, o.leaves, o.st, faults);
      rest.(results := [o.err] + rest.results)
  }

  function Errors(results: seq<Option<Error>>): seq<Error> {
    if results == [] then []
    else (if results[0].Some? then [results[0].value] else []) + Errors(results[1..])
  }

  /** What a sequential group returns with: the error of a last step that may not be ignored. */
  function SequentialFailure(steps: seq<Step>, results: seq<Option<Error>>): Option<Failure> {
    if 0 < |results| <= |steps| && results[|results| - 1].Some? && !steps[|results| - 1].continueOnError
    then Some(StepFailed(results[|results| - 1].value))
    else None
  }

  function ParallelFailure(results: seq<Option<Error>>): Option<Failure> {
    if Errors(results) != [] then Some(StepsFailed(Errors(results))) else None
  }

  datatype Execution = Execution(failure: Option<Failure>, leaves: seq<Object>, st: Store)

  function RunGroup(g: Group, objects: map<string, Tree>, leaves: seq<Object>, st: Store,
      faults: Faults): (e: Execution)
    requires ValidObjects(objects, |leaves|)
    ensures |e.leaves| == |leaves|
  {
    if g.parallel then
      var a := RunAll(g.steps, objects, leaves, st, faults);
      Execution(ParallelFailure(a.results), a.leaves, a.st)
    else
      var a := RunSequential(g.steps, objects, leaves, st, faults);
      Execution(SequentialFailure(g.steps, a.results), a.leaves, a.st)
  }

  function Execute(groups: seq<Group>, objects: map<string, Tree>, leaves: seq<Object>, st: Store,
      faults: Faults): (e: Execution)
    requires ValidObjects(objects, |leaves|)
    ensures |e.leaves| == |leaves|
  {
    if groups == [] then Execution(None, leaves, st)
    else
      var e := RunGroup(groups[0], objects, leaves, st, faults);
      if e.failure.Some? then e else Execute(groups[1..], objects, e.leaves, e.st, faults)
  }

  /** The results `results` are those of steps attempted one by one. */
  ghost predicate Attempted(steps: seq<Step>, results: seq<Option<Error>>) {
    && |results| <= |steps|
    && (forall k :: 0 <= k < |results| - 1 ==> results[k].None? || steps[k].continueOnError)
    && (SequentialFailure(steps, results).None? <==>
         |results| == |steps| && forall k :: 0 <= k < |steps| ==> results[k].None? || steps[k].continueOnError)
  }

  lemma OneMoreAttempt(steps: seq<Step>, err: Option<Error>, rest: seq<Option<Error>>)
    requires steps != [] && (err.None? || steps[0].continueOnError)
    requires Attempted(steps[1..], rest)
    ensures Attempted(steps, [err] + rest)
    ensures SequentialFailure(steps, [err] + rest) == SequentialFailure(steps[1..], rest)
  {
  }

  /**
   Which steps of a sequential group are attempted: all those up to the first failure that
   may not be ignored, and the group fails exactly if there is one, with its error.
   */
  lemma {:induction false} SequentialStops(steps: seq<Step>, objects: map<string, Tree>, leaves: seq<Object>,
      st: Store, faults: Faults)
    requires ValidObjects(objects, |leaves|)
    ensures Attempted(steps, RunSequential(steps, objects, leaves, st, faults).results)
  {
    if steps != [] {
      var o := RunStep(steps[0], objects, leaves, st, faults);
      if o.err.None? || steps[0].continueOnError {
        SequentialStops(steps[1..], objects, o.leaves, o.st, faults);
        OneMoreAttempt(steps, o.err, RunSequential(steps[1..], objects, o.leaves, o.st, faults).results);
      }
    }
  }

  /**
   The outcome of a step from its fields: it fails on an unknown object, or as its walk does,
   or else as its success checks do.
   */
  lemma StepOutcome(step: Step, objects: map<string, Tree>, leaves: seq<Object>, st: Store, faults: Faults)
    requires ValidObjects(objects, |leaves|)
    ensures var o := RunStep(step, objects, leaves, st, faults);
      if step.objectName !in objects then o == Outcome(Some(UnknownObject(step.objectName)), leaves, st)
      else
        var walk := RunItems(step.action, Flatten(objects[step.objectName]), leaves, st, faults);
        && o.leaves == walk.leaves && o.st == walk.st
        && (walk.err.Some? ==> o.err == walk.err)
        && (walk.err.None? ==> o.err == step.check)
  {
  }

  /** The outcomes of steps attempted one after another, each from where the last one ended. */
  ghost predicate AttemptedBy(steps: seq<Step>, objects: map<string, Tree>, leaves: seq<Object>, st: Store,
      faults: Faults, a: Attempt, outcomes: seq<Outcome>)
    requires ValidObjects(objects, |leaves|)
  {
    && |outcomes| == |a.results| + 1 <= |steps| + 1
    && outcomes[0] == Outcome(None, leaves, st)
    && (forall k :: 0 <= k < |outcomes| ==> |outcomes[k].leaves| == |leaves|)
    && (forall k :: 0 <= k < |a.results| ==>
         && outcomes[k + 1] == RunStep(steps[k], objects, outcomes[k].leaves, outcomes[k].st, faults)
         && a.results[k] == outcomes[k + 1].err)
    && a.leaves == outcomes[|outcomes| - 1].leaves && a.st == outcomes[|outcomes| - 1].st
  }

  lemma OneMoreOutcome(steps: seq<Step>, objects: map<string, Tree>, leaves: seq<Object>, st: Store, faults: Faults,
      rest: Attempt, outcomes: seq<Outcome>)
    requires ValidObjects(objects, |leaves|) && steps != []
    requires var o := RunStep(steps[0], objects, leaves, st, faults);
      AttemptedBy(steps[1..], objects, o.leaves, o.st, faults, rest, [o.(err := None)] + outcomes)
    ensures var o := RunStep(steps[0], objects, leaves, st, faults);
      AttemptedBy(steps, objects, leaves, st, faults, rest.(results := [o.err] + rest.results),
        [Outcome(None, leaves, st), o] + outcomes)
  {
    var o := RunStep(steps[0], objects, leaves, st, faults);
    var less, more := [o.(err := None)] + outcomes, [Outcome(None, leaves, st), o] + outcomes;
    var results := [o.err] + rest.results;
    forall k | 0 <= k < |more|
      ensures |more[k].leaves| == |leaves|
    {
      if k > 1 {
        assert more[k] == less[k - 1];
      }
    }
    forall k | 0 <= k < |results|
      ensures more[k + 1] == RunStep(steps[k], objects, more[k].leaves, more[k].st, faults) && results[k] == more[k + 1].err
    {
      if k > 0 {
        assert steps[1..][k - 1] == steps[k] && less[k] == more[k + 1] && results[k] == rest.results[k - 1];
        assert more[k].leaves == less[k - 1].leaves && more[k].st == less[k - 1].st;
      }
    }
    assert more[|more| - 1].leaves == less[|less| - 1].leaves && more[|more| - 1].st == less[|less| - 1].st;
  }

  /** A sequential group attempts its steps from the first on, each once. */
  lemma {:induction false} SequentialIsItsSteps(steps: seq<Step>, objects: map<string, Tree>, leaves: seq<Object>,
      st: Store, faults: Faults)
    returns (outcomes: seq<Outcome>)
    requires ValidObjects(objects, |leaves|)
    ensures AttemptedBy(steps, objects, leaves, st, faults, RunSequential(steps, objects, leaves, st, faults), outcomes)
  {
    outcomes := [Outcome(None, leaves, st)];
    if steps != [] {
      var o := RunStep(steps[0], objects, leaves, st, faults);
      if o.err.Some? && !steps[0].continueOnError {
        outcomes := outcomes + [o];
      } else {
        var rest := SequentialIsItsSteps(steps[1..], objects, o.leaves, o.st, faults);
        assert rest == [o.(err := None)] + rest[1..];
        OneMoreOutcome(steps, objects, leaves, st, faults, RunSequential(steps[1..], objects, o.leaves, o.st, faults), rest[1..]);
        outcomes := [Outcome(None, leaves, st), o] + rest[1..];
      }
    }
  }

  /** In listed order a parallel group attempts every step, each once. */
  lemma {:induction false} AllIsItsSteps(steps: seq<Step>, objects: map<string, Tree>, leaves: seq<Object>,
      st: Store, faults: Faults)
    returns (outcomes: seq<Outcome>)
    requires ValidObjects(objects, |leaves|)
    ensures |outcomes| == |steps| + 1
    ensures AttemptedBy(steps, objects, leaves, st, faults, RunAll(steps, objects, leaves, st, faults), outcomes)
  {
    outcomes := [Outcome(None, leaves, st)];
    if steps != [] {
      var o := RunStep(steps[0], objects, leaves, st, faults);
      var rest := AllIsItsSteps(steps[1..], objects, o.leaves, o.st, faults);
      assert rest == [o.(err := None)] + rest[1..];
      OneMoreOutcome(steps, objects, leaves, st, faults, RunAll(steps[1..], objects, o.leaves, o.st, faults), rest[1..]);
      outcomes := [Outcome(None, leaves, st), o] + rest[1..];
    }
  }

  /** A sequential group is its parts, one after the other, as long as they do not fail. */
  lemma {:induction false} SequentialConcat(a: seq<Step>, b: seq<Step>, objects: map<string, Tree>, leaves: seq<Object>,
      st: Store, faults: Faults)
    requires ValidObjects(objects, |leaves|)
    ensures var before := RunSequential(a, objects, leaves, st, faults);
      RunSequential(a + b, objects, leaves, st, faults) ==
        if SequentialFailure(a, before.results).Some? then before
        else Continue(before.results, RunSequential(b, objects, before.leaves, before.st, faults))
  {
    if a == [] {
      assert a + b == b;
    } else {
      var o := RunStep(a[0], objects, leaves, st, faults);
      SequentialHead(a[0], a[1..], objects, leaves, st, faults);
      SequentialHead(a[0], a[1..] + b, objects, leaves, st, faults);
      assert [a[0]] + a[1..] == a && [a[0]] + (a[1..] + b) == a + b;
      if o.err.None? || a[0].continueOnError {
        var rest := RunSequential(a[1..], objects, o.leaves, o.st, faults);
        SequentialStops(a[1..], objects, o.leaves, o.st, faults);
        OneMoreAttempt(a, o.err, rest.results);
        SequentialConcat(a[1..], b, objects, o.leaves, o.st, faults);
        ContinueFrom(o.err, rest.results, RunSequential(b, objects, rest.leaves, rest.st, faults));
      }
    }
  }

  lemma SequentialHead(step: Step, steps: seq<Step>, objects: map<string, Tree>, leaves: seq<Object>,
      st: Store, faults: Faults)
    requires ValidObjects(objects, |leaves|)
    ensures var o := RunStep(step, objects, leaves, st, faults);
      RunSequential([step] + steps, objects, leaves, st, faults) ==
        if o.err.Some? && !step.continueOnError then Attempt([o.err], o.leaves, o.st)
        else Continue([o.err], RunSequential(steps, objects, o.leaves, o.st, faults))
  {
    assert ([step] + steps)[1..] == steps;
  }

  lemma ContinueFrom(err: Option<Error>, results: seq<Option<Error>>, a: Attempt)
    ensures Continue([err], Continue(results, a)) == Continue([err] + results, a)
  {
    assert [err] + (results + a.results) == ([err] + results) + a.results;
  }

  /**
   A success check that fails ends a sequential group with its error, unless it may be ignored:
   no step after it is attempted, and nothing is done that was not done before it.
   */
  lemma FailedCheckEndsGroup(steps: seq<Step>, k: nat, objects: map<string, Tree>, leaves: seq<Object>,
      st: Store, faults: Faults)
    requires ValidObjects(objects, |leaves|) && k < |steps|
    requires var before := RunSequential(steps[..k], objects, leaves, st, faults);
      && SequentialFailure(steps[..k], before.results) == None
      && steps[k].objectName in objects && steps[k].check.Some? && !steps[k].continueOnError
      && RunItems(steps[k].action, Flatten(objects[steps[k].objectName]), before.leaves, before.st, faults).err == None
    ensures var before := RunSequential(steps[..k], objects, leaves, st, faults);
      var walk := RunItems(steps[k].action, Flatten(objects[steps[k].objectName]), before.leaves, before.st, faults);
      var a := RunSequential(steps, objects, leaves, st, faults);
      && a == Attempt(before.results + [steps[k].check], walk.leaves, walk.st)
      && |a.results| == k + 1
      && SequentialFailure(steps, a.results) == Some(StepFailed(steps[k].check.value))
  {
    var before := RunSequential(steps[..k], objects, leaves, st, faults);
    assert steps[..k] + steps[k..] == steps && steps[k..][0] == steps[k];
    SequentialStops(steps[..k], objects, leaves, st, faults);
    SequentialConcat(steps[..k], steps[k..], objects, leaves, st, faults);
    StepOutcome(steps[k], objects, before.leaves, before.st, faults);
    assert RunSequential(steps[k..], objects, before.leaves, before.st, faults).results == [steps[k].check];
  }

  /** And so it ends the rollout: the groups after it are not run. */
  lemma FailedCheckEndsRollout(g: Group, k: nat, rest: seq<Group>, objects: map<string, Tree>, leaves: seq<Object>,
      st: Store, faults: Faults)
    requires ValidObjects(objects, |leaves|) && !g.parallel && k < |g.steps|
    requires var before := RunSequential(g.steps[..k], objects, leaves, st, faults);
      && SequentialFailure(g.steps[..k], before.results) == None
      && g.steps[k].objectName in objects && g.steps[k].check.Some? && !g.steps[k].continueOnError
      && RunItems(g.steps[k].action, Flatten(objects[g.steps[k].objectName]), before.leaves, before.st, faults).err == None
    ensures var before := RunSequential(g.steps[..k], objects, leaves, st, faults);
      var walk := RunItems(g.steps[k].action, Flatten(objects[g.steps[k].objectName]), before.leaves, before.st, faults);
      Execute([g] + rest, objects, leaves, st, faults) ==
        Execution(Some(StepFailed(g.steps[k].check.value)), walk.leaves, walk.st)
  {
    FailedCheckEndsGroup(g.steps, k, objects, leaves, st, faults);
  }

  /** A step that must not fail: any step of a parallel group, or one whose failure is not ignored. */
  predicate MustPass(g: Group, k: nat)
    requires k < |g.steps|
  {
    g.parallel || !g.steps[k].continueOnError
  }

  /** A known object and success checks that pass. */
  predicate Passed(step: Step, objects: map<string, Tree>) {
    step.objectName in objects && step.check == None
  }

  /** A group that does not fail has passed every step that must not. */
  lemma GroupNeedsItsChecks(g: Group, objects: map<string, Tree>, leaves: seq<Object>, st: Store, faults: Faults)
    requires ValidObjects(objects, |leaves|) && RunGroup(g, objects, leaves, st, faults).failure.None?
    ensures forall k :: 0 <= k < |g.steps| && MustPass(g, k) ==> Passed(g.steps[k], objects)
  {
    var a := if g.parallel then RunAll(g.steps, objects, leaves, st, faults)
      else RunSequential(g.steps, objects, leaves, st, faults);
    var outcomes;
    if g.parallel {
      ErrorsOfFailures(a.results);
      outcomes := AllIsItsSteps(g.steps, objects, leaves, st, faults);
    } else {
      SequentialStops(g.steps, objects, leaves, st, faults);
      outcomes := SequentialIsItsSteps(g.steps, objects, leaves, st, faults);
    }
    forall k | 0 <= k < |g.steps| && MustPass(g, k)
      ensures Passed(g.steps[k], objects)
    {
      assert a.results[k].None? && outcomes[k + 1].err.None?;
      StepOutcome(g.steps[k], objects, outcomes[k].leaves, outcomes[k].st, faults);
    }
  }

  /** The groups of a rollout, each from where the last one ended, up to the first that fails. */
  ghost predicate RanBy(groups: seq<Group>, objects: map<string, Tree>, leaves: seq<Object>, st: Store, faults: Faults,
      ends: seq<Execution>)
    requires ValidObjects(objects, |leaves|)
  {
    && 0 < |ends| <= |groups| + 1 && ends[0] == Execution(None, leaves, st)
    && (forall k :: 0 <= k < |ends| ==> |ends[k].leaves| == |leaves|)
    && (forall k :: 0 <= k < |ends| - 1 ==>
         ends[k].failure.None? && ends[k + 1] == RunGroup(groups[k], objects, ends[k].leaves, ends[k].st, faults))
    && (|ends| == |groups| + 1 || ends[|ends| - 1].failure.Some?)
  }

  /** A rollout ends as its last group does: after all of them, or at the first that fails. */
  lemma {:induction false} ExecutionIsItsGroups(groups: seq<Group>, objects: map<string, Tree>, leaves: seq<Object>,
      st: Store, faults: Faults)
    returns (ends: seq<Execution>)
    requires ValidObjects(objects, |leaves|)
    ensures RanBy(groups, objects, leaves, st, faults, ends)
    ensures Execute(groups, objects, leaves, st, faults) == ends[|ends| - 1]
  {
    var start := Execution(None, leaves, st);
    if groups == [] {
      ends := [start];
    } else {
      var e := RunGroup(groups[0], objects, leaves, st, faults);
      if e.failure.Some? {
        ends := [start, e];
      } else {
        var rest := ExecutionIsItsGroups(groups[1..], objects, e.leaves, e.st, faults);
        ends := [start] + rest;
        forall k | 0 <= k < |ends| - 1
          ensures ends[k].failure.None? && |ends[k].leaves| == |leaves|
          ensures ends[k + 1] == RunGroup(groups[k], objects, ends[k].leaves, ends[k].st, faults)
        {
          assert ends[k + 1] == rest[k];
          if k > 0 {
            assert ends[k] == rest[k - 1] && groups[k] == groups[1..][k - 1];
          }
        }
        assert ends[|ends| - 1] == rest[|rest| - 1];
      }
    }
  }

  /** A rollout without a failure has passed every step of every group that must not fail. */
  lemma SuccessNeedsEveryCheck(groups: seq<Group>, objects: map<string, Tree>, leaves: seq<Object>, st: Store, faults: Faults)
    requires ValidObjects(objects, |leaves|) && Execute(groups, objects, leaves, st, faults).failure.None?
    ensures forall i, k :: 0 <= i < |groups| && 0 <= k < |groups[i].steps| && MustPass(groups[i], k) ==>
      Passed(groups[i].steps[k], objects)
  {
    var ends := ExecutionIsItsGroups(groups, objects, leaves, st, faults);
    forall i, k | 0 <= i < |groups| && 0 <= k < |groups[i].steps| && MustPass(groups[i], k)
      ensures Passed(groups[i].steps[k], objects)
    {
      assert ends[i + 1].failure.None?;
      GroupNeedsItsChecks(groups[i], objects, ends[i].leaves, ends[i].st, faults);
    }
  }

  lemma {:induction false} AllFlagsAreVoid(steps: seq<Step>, others: seq<Step>, objects: map<string, Tree>,
      leaves: seq<Object>, st: Store, faults: Faults)
    requires ValidObjects(objects, |leaves|) && |steps| == |others|
    requires forall k :: 0 <= k < |steps| ==> others[k] == steps[k].(continueOnError := others[k].continueOnError)
    ensures RunAll(others, objects, leaves, st, faults) == RunAll(steps, objects, leaves, st, faults)
  {
    if steps != [] {
      var o := RunStep(steps[0], objects, leaves, st, faults);
      assert JobOf(others[0], objects) == JobOf(steps[0], objects);
      AllFlagsAreVoid(steps[1..], others[1..], objects, o.leaves, o.st, faults);
    }
  }

  lemma {:induction false} ErrorsOfFailures(results: seq<Option<Error>>)
    ensures Errors(results) == [] <==> forall k :: 0 <= k < |results| ==> results[k].None?
  {
    if results != [] {
      ErrorsOfFailures(results[1..]);
      assert forall k :: 0 < k < |results| ==> results[k] == results[1..][k - 1];
    }
  }

  /**
   In a parallel group the flag of a step to continue on error is void: setting or clearing it
   anywhere changes nothing, and the group fails exactly if some step does.
   */
  lemma ContinueOnErrorIsVoid(g: Group, steps: seq<Step>, objects: map<string, Tree>,
      leaves: seq<Object>, st: Store, faults: Faults)
    requires ValidObjects(objects, |leaves|) && g.parallel && |steps| == |g.steps|
    requires forall k :: 0 <= k < |steps| ==> steps[k] == g.steps[k].(continueOnError := steps[k].continueOnError)
    ensures RunGroup(g.(steps := steps), objects, leaves, st, faults) == RunGroup(g, objects, leaves, st, faults)
    ensures RunGroup(g, objects, leaves, st, faults).failure.None? <==>
      var results := RunAll(g.steps, objects, leaves, st, faults).results;
      forall k :: 0 <= k < |results| ==> results[k].None?
  {
    AllFlagsAreVoid(g.steps, steps, objects, leaves, st, faults);
    ErrorsOfFailures(RunAll(g.steps, objects, leaves, st, faults).results);
  }

  /** A step whose failure may be ignored fails a parallel group and not a sequential one. */
  lemma IgnorableStepFailsParallelGroup(name: string, objects: map<string, Tree>, leaves: seq<Object>, st: Store, faults: Faults)
    requires ValidObjects(objects, |leaves|) && name !in objects
    ensures var step := Step("s", name, "CreateOrUpdate", None, true);
      && RunGroup(Group("g", false, [step, step]), objects, leaves, st, faults).failure.None?
      && RunGroup(Group("g", true, [step, step]), objects, leaves, st, faults).failure ==
           Some(StepsFailed([UnknownObject(name), UnknownObject(name)]))
  {
    var step := Step("s", name, "CreateOrUpdate", None, true);
    var error: Option<Error> := Some(UnknownObject(name));
    assert [step, step][1..] == [step] && [step][1..] == [];
    assert RunStep(step, objects, leaves, st, faults) == Outcome(error, leaves, st);
    assert RunSequential([], objects, leaves, st, faults) == Attempt([], leaves, st);
    assert RunSequential([step], objects, leaves, st, faults) == Attempt([error], leaves, st);
    assert RunAll([], objects, leaves, st, faults) == Attempt([], leaves, st);
    assert RunAll([step], objects, leaves, st, faults) == Attempt([error], leaves, st);
    var one, two: seq<Option<Error>> := [error], [error, error];
    assert two == [error] + one == one + [error] && one[1..] == [];
    ErrorsAppend(one, error);
    assert Errors(one) == [error.value] && Errors(two) == [error.value, error.value];
    assert RunAll([step, step], objects, leaves, st, faults) == Attempt([error] + one, leaves, st);
  }

  /** A rollout is its parts, one after the other, as long as they do not fail. */
  lemma {:induction false} ExecuteConcat(a: seq<Group>, b: seq<Group>, objects: map<string, Tree>,
      leaves: seq<Object>, st: Store, faults: Faults)
    requires ValidObjects(objects, |leaves|)
    ensures var e := Execute(a, objects, leaves, st, faults);
      Execute(a + b, objects, leaves, st, faults) ==
        if e.failure.Some? then e else Execute(b, objects, e.leaves, e.st, faults)
  {
    if a == [] {
      assert a + b == b;
    } else {
      assert (a + b)[0] == a[0] && (a + b)[1..] == a[1..] + b;
      var e := RunGroup(a[0], objects, leaves, st, faults);
      if e.failure.None? {
        ExecuteConcat(a[1..], b, objects, e.leaves, e.st, faults);
      }
    }
  }

  /** What a sequence of distinct rendered objects holds. */
  ghost function Contents(leaves: seq<Unstructured>): (s: seq<Object>)
    reads leaves
    ensures |s| == |leaves|
    ensures forall i :: 0 <= i < |leaves| ==> s[i] == leaves[i].content
  {
    seq(|leaves|, i requires 0 <= i < |leaves| reads leaves => leaves[i].content)
  }

  ghost predicate Distinct(leaves: seq<Unstructured>) {
    forall i, j :: 0 <= i < j < |leaves| ==> leaves[i] != leaves[j]
  }

  class Runner {
    const cluster: Cluster
    const objects: map<string, Tree>
    const leaves: seq<Unstructured>

    constructor (cluster: Cluster, objects: map<string, Tree>, leaves: seq<Unstructured>)
      ensures this.cluster == cluster && this.objects == objects && this.leaves == leaves
    {
      this.cluster := cluster;
      this.objects := objects;
      this.leaves := leaves;
    }

    method ExecuteSingleAction(actionName: string, ptr: nat) returns (err: Option<Error>)
      requires Distinct(leaves) && ptr < |leaves|
      modifies cluster, leaves
      ensures Outcome(err, Contents(leaves), cluster.store) ==
        RunItem(actionName, Pointer(ptr), old(Contents(leaves)), old(cluster.store), cluster.faults)
    {
      var u := leaves[ptr];
      ghost var was := Contents(leaves);
      match ActionNamed(actionName)
      case None =>
        err := Some(UnknownAction(actionName));
      case Some(CreateOrUpdate) =>
        err := ExecuteCreateOrUpdate(cluster, u);
        assert Contents(leaves) == was[ptr := u.content];
      case Some(CreateIfNotExist) =>
        err := ExecuteCreateIfNotExist(cluster, u);
        assert Contents(leaves) == was[ptr := u.content];
      case Some(DeleteIfExist) =>
        err := ExecuteDeleteIfExist(cluster, u);
        assert Contents(leaves) == was[ptr := u.content];
    }

    /** The recursive walk over a nested list does what the walk over its flattening does. */
    method ExecuteAction(actionName: string, t: Tree) returns (err: Option<Error>)
      requires Distinct(leaves) && Within(Flatten(t), |leaves|)
      modifies cluster, leaves
      ensures Outcome(err, Contents(leaves), cluster.store) ==
        RunItems(actionName, Flatten(t), old(Contents(leaves)), old(cluster.store), cluster.faults)
      ensures err.None? ==> AllDone(actionName, t, old(Contents(leaves)), cluster.store)
      decreases t
    {
      WalkDoesAll(actionName, t, Contents(leaves), cluster.store, cluster.faults);
      match t
      case NotObject =>
        err := Some(MalformedItem);
      case Leaf(ptr) =>
        assert Flatten(t)[0] == Pointer(ptr);
        err := ExecuteSingleAction(actionName, ptr);
      case List(items) =>
        ghost var was, st := Contents(leaves), cluster.store;
        err := None;
        for i := 0 to |items|
          invariant err.None?
          invariant Within(FlattenAll(items[..i]), |leaves|)
          invariant Outcome(None, Contents(leaves), cluster.store) ==
            RunItems(actionName, FlattenAll(items[..i]), was, st, cluster.faults)
        {
          FlattenSplit(items, i + 1);
          FlattenUpTo(items, i);
          ghost var before, here, after := FlattenAll(items[..i]), Flatten(items[i]), FlattenAll(items[i + 1..]);
          WithinParts(before, here, after, |leaves|);
          RunItemsConcat(actionName, before, here, was, st, cluster.faults);
          RunItemsConcat(actionName, before + here, after, was, st, cluster.faults);
          err := ExecuteAction(actionName, items[i]);
          if err.Some? {
            return;
          }
        }
        assert items[..|items|] == items;
    }

    method RunOneStep(step: Step) returns (err: Option<Error>)
      requires Distinct(leaves) && ValidObjects(objects, |leaves|)
      modifies cluster, leaves
      ensures Outcome(err, Contents(leaves), cluster.store) ==
        RunStep(step, objects, old(Contents(leaves)), old(cluster.store), cluster.faults)
      ensures step.objectName !in objects ==> err == Some(UnknownObject(step.objectName))
      ensures err.None? ==>
        && step.objectName in objects && step.check == None
        && AllDone(step.action, objects[step.objectName], old(Contents(leaves)), cluster.store)
    {
      if step.objectName !in objects {
        return Some(UnknownObject(step.objectName));
      }
      err := ExecuteAction(step.action, objects[step.objectName]);
      if err.None? {
        err := step.check;
      }
    }

    /**
     The group loop.  The goroutines of a parallel group are run in listed order here;
     module Parallel shows that every interleaving of their calls ends the same way.
     */
    method ExecuteRollout(groups: seq<Group>) returns (failure: Option<Failure>)
      requires Distinct(leaves) && ValidObjects(objects, |leaves|)
      modifies cluster, leaves
      ensures Execution(failure, Contents(leaves), cluster.store) ==
        Execute(groups, objects, old(Contents(leaves)), old(cluster.store), cluster.faults)
    {
      ghost var was, st := Contents(leaves), cluster.store;
      for i := 0 to |groups|
        invariant Execute(groups, objects, was, st, cluster.faults) ==
          Execute(groups[i..], objects, Contents(leaves), cluster.store, cluster.faults)
      {
        assert groups[i..][0] == groups[i] && groups[i..][1..] == groups[i + 1..];
        failure := ExecuteGroup(groups[i]);
        if failure.Some? {
          return;
        }
      }
      failure := None;
    }

    method ExecuteGroup(g: Group) returns (failure: Option<Failure>)
      requires Distinct(leaves) && ValidObjects(objects, |leaves|)
      modifies cluster, leaves
      ensures Execution(failure, Contents(leaves), cluster.store) ==
        RunGroup(g, objects, old(Contents(leaves)), old(cluster.store), cluster.faults)
    {
      if g.parallel {
        var errs := ExecuteParallel(g.steps);
        failure := if errs != [] then Some(StepsFailed(errs)) else None;
      } else {
        failure := ExecuteSequential(g.steps);
      }
    }

    method ExecuteParallel(steps: seq<Step>) returns (errs: seq<Error>)
      requires Distinct(leaves) && ValidObjects(objects, |leaves|)
      modifies cluster, leaves
      ensures var a := RunAll(steps, objects, old(Contents(leaves)), old(cluster.store), cluster.faults);
        errs == Errors(a.results) && Contents(leaves) == a.leaves && cluster.store == a.st
    {
      ghost var whole := RunAll(steps, objects, Contents(leaves), cluster.store, cluster.faults);
      ghost var results: seq<Option<Error>> := [];
      errs := [];
      for k := 0 to |steps|
        invariant errs == Errors(results)
        invariant whole == Continue(results, RunAll(steps[k..], objects, Contents(leaves), cluster.store, cluster.faults))
      {
        assert steps[k..][0] == steps[k] && steps[k..][1..] == steps[k + 1..];
        var err := RunOneStep(steps[k]);
        ErrorsAppend(results, err);
        ContinueMore(results, err, RunAll(steps[k + 1..], objects, Contents(leaves), cluster.store, cluster.faults));
        results := results + [err];
        if err.Some? {
          errs := errs + [err.value];
        }
      }
      assert results + [] == results;
    }

    method ExecuteSequential(steps: seq<Step>) returns (failure: Option<Failure>)
      requires Distinct(leaves) && ValidObjects(objects, |leaves|)
      modifies cluster, leaves
      ensures var a := RunSequential(steps, objects, old(Contents(leaves)), old(cluster.store), cluster.faults);
        failure == SequentialFailure(steps, a.results) && Contents(leaves) == a.leaves && cluster.store == a.st
    {
      ghost var whole := RunSequential(steps, objects, Contents(leaves), cluster.store, cluster.faults);
      ghost var results: seq<Option<Error>> := [];
      for k := 0 to |steps|
        invariant SoFar(steps, k, results, whole, objects, Contents(leaves), cluster.store, cluster.faults)
      {
        SequentialMore(steps, k, results, whole, objects, Contents(leaves), cluster.store, cluster.faults);
        var err := RunOneStep(steps[k]);
        if err.Some? && !steps[k].continueOnError {
          return Some(StepFailed(err.value));
        }
        results := results + [err];
      }
      SequentialEnd(steps, results, whole, objects, Contents(leaves), cluster.store, cluster.faults);
      failure := None;
    }
  }

  /** Results in front of what is still to be attempted. */
  function Continue(results: seq<Option<Error>>, a: Attempt): Attempt {
    a.(results := results + a.results)
  }

  lemma ContinueMore(results: seq<Option<Error>>, err: Option<Error>, a: Attempt)
    ensures Continue(results, a.(results := [err] + a.results)) == Continue(results + [err], a)
  {
  }

  /** The first k steps of a sequential group have been attempted, and none has ended it. */
  ghost predicate SoFar(steps: seq<Step>, k: nat, results: seq<Option<Error>>, whole: Attempt, objects: map<string, Tree>,
      leaves: seq<Object>, st: Store, faults: Faults)
    requires ValidObjects(objects, |leaves|)
  {
    && |results| == k <= |steps|
    && (k > 0 ==> results[k - 1].None? || steps[k - 1].continueOnError)
    && whole == Continue(results, RunSequential(steps[k..], objects, leaves, st, faults))
  }

  lemma SequentialEnd(steps: seq<Step>, results: seq<Option<Error>>, whole: Attempt, objects: map<string, Tree>,
      leaves: seq<Object>, st: Store, faults: Faults)
    requires ValidObjects(objects, |leaves|) && SoFar(steps, |steps|, results, whole, objects, leaves, st, faults)
    ensures whole == Attempt(results, leaves, st) && SequentialFailure(steps, whole.results) == None
  {
    assert steps[|steps|..] == [] && results + [] == results;
  }

  lemma SequentialMore(steps: seq<Step>, k: nat, results: seq<Option<Error>>, whole: Attempt, objects: map<string, Tree>,
      leaves: seq<Object>, st: Store, faults: Faults)
    requires ValidObjects(objects, |leaves|) && k < |steps| && SoFar(steps, k, results, whole, objects, leaves, st, faults)
    ensures var o := RunStep(steps[k], objects, leaves, st, faults);
      if o.err.Some? && !steps[k].continueOnError then
        && whole == Attempt(results + [o.err], o.leaves, o.st)
        && SequentialFailure(steps, whole.results) == Some(StepFailed(o.err.value))
      else SoFar(steps, k + 1, results + [o.err], whole, objects, o.leaves, o.st, faults)
  {
    var o := RunStep(steps[k], objects, leaves, st, faults);
    SequentialHead(steps[k], steps[k + 1..], objects, leaves, st, faults);
    assert steps[k..] == [steps[k]] + steps[k + 1..];
    if o.err.None? || steps[k].continueOnError {
      ContinueMore(results, o.err, RunSequential(steps[k + 1..], objects, o.leaves, o.st, faults));
    }
  }

  lemma {:induction false} ErrorsAppend(results: seq<Option<Error>>, err: Option<Error>)
    ensures Errors(results + [err]) == Errors(results) + (if err.Some? then [err.value] else [])
  {
    var more := results + [err];
    if results == [] {
      assert more == [err] && more[1..] == [];
    } else {
      assert more[0] == results[0] && more[1..] == results[1..] + [err];
      ErrorsAppend(results[1..], err);
      assert Errors(more) == (if results[0].Some? then [results[0].value] else []) + Errors(more[1..]);
    }
  }
}
