/**
 Runner.Execute with its feedback: the status is initialized, the groups are run, and each
 is marked finished when its steps are done.
 */
module Engine {
  import opened Wrappers
  import opened Kube
  import opened Client
  import opened Rollout
  import opened Walk
  import opened Status
  import opened Feedback
  import opened Quiescence

  datatype Verdict = Succeeded | InitializeFailed | GroupFailed(failure: Failure) | FinishFailed(group: nat)

  /** What is stored says that every group is finished. */
  ghost predicate AllFinished(groups: seq<Group>, stored: RawStatus) {
    && Decode(stored).Some?
    && Names(Decode(stored).value) == GroupNames(groups)
    && forall c :: c in Decode(stored).value ==> c.status == "Finished"
  }

  /** The sets are those of the first groups, in order. */
  ghost predicate SetsOf(groups: seq<Group>, sets: seq<Finish>) {
    |sets| <= |groups| && forall j :: 0 <= j < |sets| ==> sets[j].name == groups[j].name
  }

  /** Once every group has been set, all conditions in memory are finished. */
  lemma MemoryIsFinished(groups: seq<Group>, cached: Server, stored: Server, clock: Clock, answer: Answer, sets: seq<Finish>)
    requires SetsOf(groups, sets) && |sets| == |groups|
    requires Sync(cached, stored, GroupNames(groups), clock, answer, sets).ok
    ensures var cur := Sync(cached, stored, GroupNames(groups), clock, answer, sets).memory.cur;
      |cur| == |groups| && Names(cur) == GroupNames(groups) && forall c :: c in cur ==> c.status == FINISHED
  {
    ConditionsInMemory(cached, stored, GroupNames(groups), clock, answer, sets);
    var cur := Sync(cached, stored, GroupNames(groups), clock, answer, sets).memory.cur;
    assert |Names(cur)| == |cur|;
    forall i | 0 <= i < |groups|
      ensures cur[i].status == FINISHED
    {
      assert sets[i].name == GroupNames(groups)[i];
      assert WasSet(sets, GroupNames(groups)[i]);
    }
  }

  lemma TruncatedIsFinished(groups: seq<Group>, cur: seq<Condition>)
    requires Names(cur) == GroupNames(groups) && forall c :: c in cur ==> c.status == FINISHED
    ensures Names(TruncatedAll(cur)) == GroupNames(groups)
    ensures forall c :: c in TruncatedAll(cur) ==> c.status == FINISHED
  {
    assert Names(TruncatedAll(cur)) == Names(cur);
  }

  /** A sync that has set the first n groups. */
  ghost predicate Reached(groups: seq<Group>, cached: Server, stored: Server, clock: Clock, answer: Answer, n: nat, p: Push) {
    exists sets: seq<Finish> ::
      && |sets| == n && SetsOf(groups, sets)
      && p == Sync(cached, stored, GroupNames(groups), clock, answer, sets)
  }

  lemma ReachedMore(groups: seq<Group>, cached: Server, stored: Server, clock: Clock, answer: Answer, n: nat, p: Push,
      fin: Finish)
    requires Reached(groups, cached, stored, clock, answer, n, p) && n < |groups| && fin.name == groups[n].name
    ensures Reached(groups, cached, stored, clock, answer, n + 1, FinishOne(p, fin))
  {
    var sets: seq<Finish> :|
      && |sets| == n && SetsOf(groups, sets)
      && p == Sync(cached, stored, GroupNames(groups), clock, answer, sets);
    SyncMore(cached, stored, GroupNames(groups), clock, answer, sets, fin);
    SetsMore(groups, sets, fin);
  }

  lemma SetsMore(groups: seq<Group>, sets: seq<Finish>, fin: Finish)
    requires SetsOf(groups, sets) && |sets| < |groups| && fin.name == groups[|sets|].name
    ensures SetsOf(groups, sets + [fin])
  {
    var more := sets + [fin];
    forall j | 0 <= j < |more|
      ensures more[j].name == groups[j].name
    {
      assert j < |sets| ==> more[j] == sets[j];
    }
  }

  /**
   After a sync in which every group has been set, every group is finished in what is stored,
   or, if the sync started from a stale object, in that object.
   */
  lemma StoredIsFinished(groups: seq<Group>, cached: Server, stored: Server, clock: Clock, answer: Answer, p: Push)
    requires groups != [] && p.ok && Reached(groups, cached, stored, clock, answer, |groups|, p)
    requires cached.version == stored.version ==> cached == stored
    ensures if cached == stored then AllFinished(groups, p.server.stored)
      else p.server == stored && AllFinished(groups, cached.stored)
  {
    var sets: seq<Finish> :|
      && |sets| == |groups| && SetsOf(groups, sets)
      && p == Sync(cached, stored, GroupNames(groups), clock, answer, sets);
    MemoryIsFinished(groups, cached, stored, clock, answer, sets);
    if cached == stored {
      SkippingIsSafe(stored, GroupNames(groups), clock, answer, sets);
      TruncatedIsFinished(groups, p.memory.cur);
    } else {
      StaleWritesNothing(cached, stored, GroupNames(groups), clock, answer, sets);
      ConditionsInMemory(cached, stored, GroupNames(groups), clock, answer, sets);
    }
  }

  /** The feedback object is where a sync has got to. */
  ghost predicate At(f: Feedback, p: Push)
    reads f, f.OldObjects(), f.CurrentObjects(), f.server
  {
    f.State() == p.memory && f.server.state == p.server && (p.ok ==> f.held.Some?)
  }

  /** The loop body of Execute: a group, and its Finished mark if the group did not fail. */
  method RunAndMark(runner: Runner, g: Group, f: Feedback, clock: Clock, ghost p: Push)
    returns (failure: Option<Failure>, ok: bool, ghost fin: Finish)
    requires Distinct(runner.leaves) && ValidObjects(runner.objects, |runner.leaves|)
    requires f.currentStatus.Some? && p.ok && At(f, p)
    modifies runner.cluster, runner.leaves, f, f.server
    ensures Execution(failure, Contents(runner.leaves), runner.cluster.store) ==
      RunGroup(g, runner.objects, old(Contents(runner.leaves)), old(runner.cluster.store), runner.cluster.faults)
    ensures f.currentStatus.Some? && fin.name == g.name
    ensures if failure.Some? then !ok && At(f, p)
      else At(f, FinishOne(p, fin)) && ok == FinishOne(p, fin).ok
  {
    failure := runner.ExecuteGroup(g);
    ok := false;
    assert f.State() == old(f.State()) && f.server.state == old(f.server.state);
    fin := Finish(g.name, clock, f.server.Answer());
    if failure.None? {
      ok := f.SetCondition(g.name, FINISHED, clock);
      PushIsHeld(WithCondition(p.memory, g.name, FINISHED, clock), p.server, fin.answer);
    }
  }

  /** A successful update leaves the feedback object with an object. */
  lemma PushIsHeld(m: Memory, srv: Server, answer: Answer)
    requires m.held.Some?
    ensures PushStatus(m, srv, answer).ok ==> PushStatus(m, srv, answer).memory.held.Some?
  {
  }

  /** The first n groups have run without a failure. */
  ghost predicate Done(groups: seq<Group>, n: nat, objects: map<string, Tree>, faults: Faults, begin: Execution,
      leaves: seq<Object>, st: Store)
    requires ValidObjects(objects, |begin.leaves|) && n <= |groups|
  {
    Rollout.Execute(groups[..n], objects, begin.leaves, begin.st, faults) == Execution(None, leaves, st)
  }

  lemma OneMore(groups: seq<Group>, n: nat, objects: map<string, Tree>, faults: Faults, begin: Execution,
      leaves: seq<Object>, st: Store)
    requires ValidObjects(objects, |begin.leaves|) && n < |groups| && |leaves| == |begin.leaves|
    requires Done(groups, n, objects, faults, begin, leaves, st)
    ensures var e := RunGroup(groups[n], objects, leaves, st, faults);
      if e.failure.Some? then Rollout.Execute(groups, objects, begin.leaves, begin.st, faults) == e
      else Done(groups, n + 1, objects, faults, begin, e.leaves, e.st)
  {
    var one := [groups[n]];
    assert groups[..n + 1] == groups[..n] + one && one[1..] == [];
    ExecuteConcat(groups[..n], one, objects, begin.leaves, begin.st, faults);
    assert groups == groups[..n + 1] + groups[n + 1..];
    ExecuteConcat(groups[..n + 1], groups[n + 1..], objects, begin.leaves, begin.st, faults);
    var e := RunGroup(groups[n], objects, leaves, st, faults);
    assert e.failure.None? ==> Rollout.Execute([], objects, e.leaves, e.st, faults) == Execution(None, e.leaves, e.st);
  }

  /** What has run, by how the rollout ended. */
  ghost predicate HasRun(v: Verdict, groups: seq<Group>, objects: map<string, Tree>, faults: Faults, begin: Execution,
      leaves: seq<Object>, st: Store)
    requires ValidObjects(objects, |begin.leaves|)
  {
    match v
    case Succeeded => Done(groups, |groups|, objects, faults, begin, leaves, st)
    case InitializeFailed => leaves == begin.leaves && st == begin.st
    case GroupFailed(failure) =>
      Rollout.Execute(groups, objects, begin.leaves, begin.st, faults) == Execution(Some(failure), leaves, st)
    case FinishFailed(n) => n < |groups| && Done(groups, n + 1, objects, faults, begin, leaves, st)
  }

  /** One round of the loop: the rollout is one group further, or it ends. */
  method Round(runner: Runner, groups: seq<Group>, i: nat, f: Feedback, clock: Clock, ghost begin: Execution, ghost p: Push)
    returns (end: Option<Verdict>, ghost fin: Option<Finish>)
    requires Distinct(runner.leaves) && ValidObjects(runner.objects, |runner.leaves|) && |begin.leaves| == |runner.leaves|
    requires i < |groups| && f.currentStatus.Some? && p.ok && At(f, p)
    requires Done(groups, i, runner.objects, runner.cluster.faults, begin, Contents(runner.leaves), runner.cluster.store)
    modifies runner.cluster, runner.leaves, f, f.server
    ensures f.currentStatus.Some?
    ensures match fin
      case Some(fin) => fin.name == groups[i].name && At(f, FinishOne(p, fin)) && (FinishOne(p, fin).ok <==> end.None?)
      case None => At(f, p) && end.Some?
    ensures end.Some? ==>
      && (end.value.GroupFailed? || end.value.FinishFailed?)
      && HasRun(end.value, groups, runner.objects, runner.cluster.faults, begin, Contents(runner.leaves), runner.cluster.store)
    ensures end.None? ==>
      Done(groups, i + 1, runner.objects, runner.cluster.faults, begin, Contents(runner.leaves), runner.cluster.store)
  {
    OneMore(groups, i, runner.objects, runner.cluster.faults, begin, Contents(runner.leaves), runner.cluster.store);
    var failure, ok;
    ghost var made: Finish;
    failure, ok, made := RunAndMark(runner, groups[i], f, clock, p);
    fin := if failure.Some? then None else Some(made);
    end := if failure.Some? then Some(GroupFailed(failure.value)) else if !ok then Some(FinishFailed(i)) else None;
  }

  /** The group loop, from where an accepted Initialize leaves the sync. */
  method GroupLoop(runner: Runner, groups: seq<Group>, f: Feedback, clocks: nat -> Clock,
      ghost cached: Server, ghost stored: Server, ghost clock: Clock, ghost answer: Answer, ghost start: Push)
    returns (v: Verdict, ghost p: Push)
    requires Distinct(runner.leaves) && ValidObjects(runner.objects, |runner.leaves|)
    requires f.currentStatus.Some? && start.ok && At(f, start)
    requires Reached(groups, cached, stored, clock, answer, 0, start)
    modifies runner.cluster, runner.leaves, f, f.server
    ensures !v.InitializeFailed?
    ensures HasRun(v, groups, runner.objects, runner.cluster.faults,
      Execution(None, old(Contents(runner.leaves)), old(runner.cluster.store)), Contents(runner.leaves), runner.cluster.store)
    ensures f.server.state == p.server
    ensures v.Succeeded? ==> p.ok && Reached(groups, cached, stored, clock, answer, |groups|, p)
  {
    ghost var begin := Execution(None, Contents(runner.leaves), runner.cluster.store);
    p := start;
    for i := 0 to |groups|
      invariant f.currentStatus.Some? && p.ok && At(f, p)
      invariant Reached(groups, cached, stored, clock, answer, i, p)
      invariant Done(groups, i, runner.objects, runner.cluster.faults, begin, Contents(runner.leaves), runner.cluster.store)
    {
      var end;
      ghost var fin: Option<Finish>;
      end, fin := Round(runner, groups, i, f, clocks(i), begin, p);
      if fin.Some? {
        ReachedMore(groups, cached, stored, clock, answer, i, p, fin.value);
        p := FinishOne(p, fin.value);
      }
      if end.Some? {
        return end.value, p;
      }
    }
    v := Succeeded;
  }

  /**
   A rollout with feedback that starts from a cached object, stale or not.  Whatever happens,
   exactly the groups before its end have run, as they do without feedback.  It succeeds only
   if the stored status says that every group is finished; or, if the cached object was stale,
   if that object already said so.
   */
  method ExecuteWithFeedback(runner: Runner, groups: seq<Group>, f: Feedback, clock: Clock, clocks: nat -> Clock,
      ghost cached: Server)
    returns (v: Verdict)
    requires Distinct(runner.leaves) && ValidObjects(runner.objects, |runner.leaves|)
    requires f.State() == Memory(Decode(cached.stored), [], Some(cached.version))
    requires cached.version == f.server.state.version ==> cached == f.server.state
    modifies runner.cluster, runner.leaves, f, f.server
    ensures HasRun(v, groups, runner.objects, runner.cluster.faults,
      Execution(None, old(Contents(runner.leaves)), old(runner.cluster.store)), Contents(runner.leaves), runner.cluster.store)
    ensures v.Succeeded? && groups != [] ==>
      if cached == old(f.server.state) then AllFinished(groups, f.server.state.stored)
      else f.server.state == old(f.server.state) && AllFinished(groups, cached.stored)
  {
    ghost var stored, answer := f.server.state, f.server.Answer();
    var ok := f.Initialize(GroupNames(groups), clock);
    PushIsHeld(Initialized(old(f.State()), GroupNames(groups), clock), stored, answer);
    assert runner.cluster.store == old(runner.cluster.store) && Contents(runner.leaves) == old(Contents(runner.leaves));
    if !ok {
      return InitializeFailed;
    }
    ghost var p := Sync(cached, stored, GroupNames(groups), clock, answer, []);
    assert SetsOf(groups, []);
    v, p := GroupLoop(runner, groups, f, clocks, cached, stored, clock, answer, p);
    if v.Succeeded? && groups != [] {
      StoredIsFinished(groups, cached, stored, clock, answer, p);
    }
  }
}
