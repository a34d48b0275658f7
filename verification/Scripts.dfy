/**
 What a rollout does, as a script: the actions that it performs and whether it fails after
 them, which depend on the rollout only.  Every execution follows the script as long as the
 server accepts it.
 */
module Scripts {
  import opened Wrappers
  import opened Kube
  import opened Actions
  import opened Rollout
  import opened Walk
  import opened Effects
  import opened Executions
  import opened Pictures
  import Parallel

  datatype Script = Script(ops: seq<Op>, fails: bool)

  function Then(a: Script, b: Script): Script {
    b.(ops := a.ops + b.ops)
  }

  function ItemScript(action: string, item: Item): Script {
    if item.Malformed? || ActionNamed(action).None? then Script([], true)
    else Script([Op(ActionNamed(action).value, item.ptr)], false)
  }

  function ItemsScript(action: string, items: seq<Item>): Script {
    if items == [] then Script([], false)
    else
      var s := ItemScript(action, items[0]);
      if s.fails then s else Then(s, ItemsScript(action, items[1..]))
  }

  function StepScript(step: Step, objects: map<string, Tree>): Script {
    var job := JobOf(step, objects);
    var s := ItemsScript(job.action, job.items);
    if s.fails then s else s.(fails := job.end.Some?)
  }

  function StepsScript(steps: seq<Step>, objects: map<string, Tree>, parallel: bool): Script {
    if steps == [] then Script([], false)
    else
      var s := StepScript(steps[0], objects);
      if s.fails && !parallel && !steps[0].continueOnError then s
      else
        var both := Then(s, StepsScript(steps[1..], objects, parallel));
        both.(fails := both.fails || (parallel && s.fails))
  }

  function GroupsScript(groups: seq<Group>, objects: map<string, Tree>): Script {
    if groups == [] then Script([], false)
    else
      var s := StepsScript(groups[0].steps, objects, groups[0].parallel);
      if s.fails then s else Then(s, GroupsScript(groups[1..], objects))
  }

  /** A step that performs one action on one rendered object, and has no checks that fail. */
  predicate Plain(step: Step, objects: map<string, Tree>, op: Op) {
    && step.objectName in objects && objects[step.objectName] == Leaf(op.ptr)
    && ActionNamed(step.action) == Some(op.action) && step.check.None?
  }

  lemma {:induction false} PlainScript(steps: seq<Step>, objects: map<string, Tree>, parallel: bool, ops: seq<Op>)
    requires |steps| == |ops| && forall i :: 0 <= i < |ops| ==> Plain(steps[i], objects, ops[i])
    ensures StepsScript(steps, objects, parallel) == Script(ops, false)
  {
    if steps != [] {
      var items := [Pointer(ops[0].ptr)];
      assert JobOf(steps[0], objects) == Job(steps[0].action, items, None);
      assert items[1..] == [] && ItemsScript(steps[0].action, []) == Script([], false);
      assert StepScript(steps[0], objects) == Script([ops[0]], false);
      assert [ops[0]] + ops[1..] == ops;
      PlainScript(steps[1..], objects, parallel, ops[1..]);
    }
  }

  lemma PlainStep(step: Step, objects: map<string, Tree>, op: Op, leaves: seq<Object>, st: Store)
    requires ValidObjects(objects, |leaves|) && op.ptr < |leaves| && Plain(step, objects, op)
    ensures var m := Perform(op.action, leaves[op.ptr], st, NoFaults);
      RunStep(step, objects, leaves, st, NoFaults) == Outcome(m.pc.err, leaves[op.ptr := m.leaf], m.st)
  {
    var items := [Pointer(op.ptr)];
    assert JobOf(step, objects) == Job(step.action, items, None);
    assert items[1..] == [];
    var o := RunItem(step.action, items[0], leaves, st, NoFaults);
    assert RunItems(step.action, [], o.leaves, o.st, NoFaults) == Outcome(None, o.leaves, o.st);
    assert RunItems(step.action, items, leaves, st, NoFaults) == o;
  }

  ghost predicate OpsWithin(ops: seq<Op>, n: nat) {
    forall i :: 0 <= i < |ops| ==> ops[i].ptr < n
  }

  lemma {:induction false} ItemsWithin(action: string, items: seq<Item>, n: nat)
    requires Within(items, n)
    ensures OpsWithin(ItemsScript(action, items).ops, n)
  {
    if items != [] {
      ItemsWithin(action, items[1..], n);
    }
  }

  lemma {:induction false} StepsWithin(steps: seq<Step>, objects: map<string, Tree>, parallel: bool, n: nat)
    requires ValidObjects(objects, n)
    ensures OpsWithin(StepsScript(steps, objects, parallel).ops, n)
  {
    if steps != [] {
      var job := JobOf(steps[0], objects);
      assert Within(job.items, n);
      ItemsWithin(job.action, job.items, n);
      StepsWithin(steps[1..], objects, parallel, n);
    }
  }

  /** A script works on the rendered objects that there are. */
  lemma {:induction false} GroupsWithin(groups: seq<Group>, objects: map<string, Tree>, n: nat)
    requires ValidObjects(objects, n)
    ensures OpsWithin(GroupsScript(groups, objects).ops, n)
  {
    if groups != [] {
      StepsWithin(groups[0].steps, objects, groups[0].parallel, n);
      GroupsWithin(groups[1..], objects, n);
    }
  }

  ghost predicate Good(leaves: seq<Object>, st: Store) {
    ValidStore(st) && forall p :: 0 <= p < |leaves| ==> WellFormed(leaves[p])
  }

  /** The only rendered object carries a version and is not stored: it will never be created again. */
  predicate Dead(p: Picture) {
    |p.leaves| == 1 && 0 in p.stamped && p.leaves[0].id !in p.cells
  }

  /** Not the identity of a rendered object. */
  ghost predicate Foreign(p: Picture, id: Identity) {
    forall x :: 0 <= x < |p.leaves| ==> p.leaves[x].id != id
  }

  /** Rendered objects keep their identities, and what is stored under others stays. */
  ghost predicate Kept(p: Picture, q: Picture) {
    && |p.leaves| == |q.leaves|
    && (forall x :: 0 <= x < |p.leaves| ==> p.leaves[x].id == q.leaves[x].id)
    && (forall id :: Foreign(p, id) ==> CellOf(q.cells, id) == CellOf(p.cells, id))
  }

  lemma KeptBoth(p: Picture, q: Picture, r: Picture)
    requires Kept(p, q) && Kept(q, r)
    ensures Kept(p, r)
  {
    forall id | Foreign(p, id)
      ensures CellOf(r.cells, id) == CellOf(p.cells, id)
    {
      assert Foreign(q, id);
    }
  }

  /**
   An execution did what a script says, if the server accepts that.  If it does not, all that
   is said here is about rollouts of a single object: that object ends up dead.
   */
  ghost predicate Follows(s: Script, leaves: seq<Object>, st: Store, failed: bool, leaves': seq<Object>, st': Store) {
    var p, p' := PictureOf(leaves, st), PictureOf(leaves', st');
    && Good(leaves', st') && |leaves'| == |leaves| && Kept(p, p')
    && (AllAccepted(s.ops, p) ==> p' == ApplyOps(s.ops, p) && (failed <==> s.fails))
    && (|leaves| == 1 && (Dead(p) || !AllAccepted(s.ops, p)) ==> Dead(p'))
  }

  lemma ActionKeepsGood(a: Action, ptr: nat, leaves: seq<Object>, st: Store)
    requires Good(leaves, st) && ptr < |leaves|
    ensures var m := Perform(a, leaves[ptr], st, NoFaults);
      && (m.pc == Done(None) <==> !CreateRefused(a, leaves[ptr], st))
      && Good(leaves[ptr := m.leaf], m.st)
  {
    var leaf := leaves[ptr];
    if CreateRefused(a, leaf, st) {
      RefusedChangesNothing(a, leaf, st);
    } else {
      PerformHasEffect(a, leaf, st);
      EffectIsSound(a, Meeting(Erase(leaf), View(st, leaf.id)), leaf.id);
      assert WellFormed(Erase(Perform(a, leaf, st, NoFaults).leaf));
    }
  }

  /** The server refuses the action exactly when it refuses it in the picture. */
  lemma RefusedInPicture(a: Action, ptr: nat, leaves: seq<Object>, st: Store)
    requires ptr < |leaves|
    ensures CreateRefused(a, leaves[ptr], st) <==> !Accepted(Op(a, ptr), PictureOf(leaves, st))
  {
  }

  lemma RefusedKeepsPicture(a: Action, ptr: nat, leaves: seq<Object>, st: Store)
    requires Good(leaves, st) && ptr < |leaves| && CreateRefused(a, leaves[ptr], st)
    ensures var m := Perform(a, leaves[ptr], st, NoFaults);
      PictureOf(leaves[ptr := m.leaf], m.st) == PictureOf(leaves, st)
    ensures |leaves| == 1 ==> Dead(PictureOf(leaves, st))
  {
    RefusedChangesNothing(a, leaves[ptr], st);
    assert leaves[ptr := leaves[ptr]] == leaves;
  }

  lemma ActionFollows(a: Action, ptr: nat, leaves: seq<Object>, st: Store)
    requires Good(leaves, st) && ptr < |leaves| && !CreateRefused(a, leaves[ptr], st)
    ensures var m := Perform(a, leaves[ptr], st, NoFaults);
      PictureOf(leaves[ptr := m.leaf], m.st) == ApplyOp(Op(a, ptr), PictureOf(leaves, st))
  {
    var leaf := leaves[ptr];
    PerformHasEffect(a, leaf, st);
    var m := Perform(a, leaf, st, NoFaults);
    var e := Effect(a, Meeting(Erase(leaf), View(st, leaf.id)));
    assert e == Meeting(Erase(m.leaf), View(m.st, leaf.id));
    var p := PictureOf(leaves, st);
    var q := ApplyOp(Op(a, ptr), p);
    CellView(leaves, st, leaf.id);
    assert q.cells == if e.cell.Some? then p.cells[leaf.id := e.cell.value] else p.cells - {leaf.id};
    forall id
      ensures View(m.st, id) == CellOf(q.cells, id)
    {
      if id != leaf.id {
        CellView(leaves, st, id);
        assert CellOf(q.cells, id) == CellOf(p.cells, id);
      }
    }
    PictureByViews(leaves[ptr := m.leaf], m.st, q);
  }

  lemma ActionKeeps(a: Action, ptr: nat, leaves: seq<Object>, st: Store)
    requires Good(leaves, st) && ptr < |leaves|
    ensures Kept(PictureOf(leaves, st), ApplyOp(Op(a, ptr), PictureOf(leaves, st)))
  {
    var p := PictureOf(leaves, st);
    CellView(leaves, st, leaves[ptr].id);
    EffectKeepsIds(a, Meeting(p.leaves[ptr], CellOf(p.cells, p.leaves[ptr].id)));
    forall id | Foreign(p, id)
      ensures CellOf(ApplyOp(Op(a, ptr), p).cells, id) == CellOf(p.cells, id)
    {
      assert p.leaves[ptr].id != id;
    }
  }

  lemma DeadStays(op: Op, p: Picture)
    requires Dead(p) && Accepted(op, p)
    ensures Dead(ApplyOp(op, p))
  {
  }

  lemma OneOp(op: Op, p: Picture)
    ensures AllAccepted([op], p) == Accepted(op, p) && ApplyOps([op], p) == ApplyOp(op, p)
  {
    assert [op][1..] == [];
  }

  lemma ItemFollows(action: string, item: Item, leaves: seq<Object>, st: Store)
    requires Good(leaves, st) && Within([item], |leaves|)
    ensures var o := RunItem(action, item, leaves, st, NoFaults);
      Follows(ItemScript(action, item), leaves, st, o.err.Some?, o.leaves, o.st)
  {
    if item.Pointer? && ActionNamed(action).Some? {
      assert [item][0].ptr < |leaves|;
      var ptr, a := item.ptr, ActionNamed(action).value;
      var op, p := Op(a, ptr), PictureOf(leaves, st);
      OneOp(op, p);
      ActionKeepsGood(a, ptr, leaves, st);
      RefusedInPicture(a, ptr, leaves, st);
      if CreateRefused(a, leaves[ptr], st) {
        RefusedKeepsPicture(a, ptr, leaves, st);
      } else {
        ActionFollows(a, ptr, leaves, st);
        ActionKeeps(a, ptr, leaves, st);
        if Dead(p) {
          DeadStays(op, p);
        }
      }
    }
  }

  /** One script after another, and how they fail together. */
  lemma FollowBoth(a: Script, b: Script, c: Script, leaves: seq<Object>, st: Store, failedA: bool,
      leaves': seq<Object>, st': Store, failedB: bool, leaves'': seq<Object>, st'': Store, failedC: bool)
    requires Follows(a, leaves, st, failedA, leaves', st')
    requires Follows(b, leaves', st', failedB, leaves'', st'')
    requires c.ops == a.ops + b.ops
    requires failedA == a.fails && failedB == b.fails ==> failedC == c.fails
    ensures Follows(c, leaves, st, failedC, leaves'', st'')
  {
    KeptBoth(PictureOf(leaves, st), PictureOf(leaves', st'), PictureOf(leaves'', st''));
    ApplyConcat(a.ops, b.ops, PictureOf(leaves, st));
  }

  /** A part that did not fail as its script says was refused; what follows no longer matters. */
  lemma FollowRefused(a: Script, b: Script, leaves: seq<Object>, st: Store, failed: bool, leaves': seq<Object>, st': Store,
      any: bool)
    requires Follows(a, leaves, st, failed, leaves', st') && failed != a.fails
    ensures !AllAccepted(a.ops, PictureOf(leaves, st))
    ensures Follows(a, leaves, st, any, leaves', st')
    ensures Follows(Then(a, b), leaves, st, any, leaves', st')
  {
    ApplyConcat(a.ops, b.ops, PictureOf(leaves, st));
  }

  /** The dead stay dead, whatever is executed next. */
  lemma FollowOn(a: Script, b: Script, leaves: seq<Object>, st: Store, failed: bool, leaves': seq<Object>, st': Store,
      failed': bool, leaves'': seq<Object>, st'': Store)
    requires Follows(a, leaves, st, failed, leaves', st') && failed != a.fails
    requires Follows(b, leaves', st', failed', leaves'', st'')
    ensures Follows(a, leaves, st, failed', leaves'', st'')
  {
    KeptBoth(PictureOf(leaves, st), PictureOf(leaves', st'), PictureOf(leaves'', st''));
  }

  lemma {:induction false} ItemsFollow(action: string, items: seq<Item>, leaves: seq<Object>, st: Store)
    requires Good(leaves, st) && Within(items, |leaves|)
    ensures var o := RunItems(action, items, leaves, st, NoFaults);
      Follows(ItemsScript(action, items), leaves, st, o.err.Some?, o.leaves, o.st)
  {
    if items != [] {
      var a, b := ItemScript(action, items[0]), ItemsScript(action, items[1..]);
      var o := RunItem(action, items[0], leaves, st, NoFaults);
      ItemFollows(action, items[0], leaves, st);
      if o.err.None? {
        var rest := RunItems(action, items[1..], o.leaves, o.st, NoFaults);
        ItemsFollow(action, items[1..], o.leaves, o.st);
        FollowBoth(a, b, Then(a, b), leaves, st, false, o.leaves, o.st, rest.err.Some?, rest.leaves, rest.st, rest.err.Some?);
      } else if !a.fails {
        FollowRefused(a, b, leaves, st, true, o.leaves, o.st, true);
      }
    }
  }

  lemma StepFollows(step: Step, objects: map<string, Tree>, leaves: seq<Object>, st: Store)
    requires Good(leaves, st) && ValidObjects(objects, |leaves|)
    ensures var o := RunStep(step, objects, leaves, st, NoFaults);
      Follows(StepScript(step, objects), leaves, st, o.err.Some?, o.leaves, o.st)
  {
    var job := JobOf(step, objects);
    assert Within(job.items, |leaves|);
    ItemsFollow(job.action, job.items, leaves, st);
  }

  lemma {:induction false} SequentialFollows(steps: seq<Step>, objects: map<string, Tree>, leaves: seq<Object>, st: Store)
    requires Good(leaves, st) && ValidObjects(objects, |leaves|)
    ensures var a := RunSequential(steps, objects, leaves, st, NoFaults);
      Follows(StepsScript(steps, objects, false), leaves, st, SequentialFailure(steps, a.results).Some?, a.leaves, a.st)
  {
    if steps != [] {
      var a, b := StepScript(steps[0], objects), StepsScript(steps[1..], objects, false);
      var o := RunStep(steps[0], objects, leaves, st, NoFaults);
      StepFollows(steps[0], objects, leaves, st);
      if o.err.Some? && !steps[0].continueOnError {
        if !a.fails {
          FollowRefused(a, b, leaves, st, true, o.leaves, o.st, true);
        }
      } else {
        var rest := RunSequential(steps[1..], objects, o.leaves, o.st, NoFaults);
        var failed := SequentialFailure(steps[1..], rest.results).Some?;
        SequentialFollows(steps[1..], objects, o.leaves, o.st);
        SequentialStops(steps[1..], objects, o.leaves, o.st, NoFaults);
        OneMoreAttempt(steps, o.err, rest.results);
        if a.fails && !steps[0].continueOnError {
          FollowOn(a, b, leaves, st, false, o.leaves, o.st, failed, rest.leaves, rest.st);
        } else {
          FollowBoth(a, b, Then(a, b), leaves, st, o.err.Some?, o.leaves, o.st, failed, rest.leaves, rest.st, failed);
        }
      }
    }
  }

  lemma {:induction false} AllFollow(steps: seq<Step>, objects: map<string, Tree>, leaves: seq<Object>, st: Store)
    requires Good(leaves, st) && ValidObjects(objects, |leaves|)
    ensures var a := RunAll(steps, objects, leaves, st, NoFaults);
      Follows(StepsScript(steps, objects, true), leaves, st, Errors(a.results) != [], a.leaves, a.st)
  {
    if steps != [] {
      var a, b := StepScript(steps[0], objects), StepsScript(steps[1..], objects, true);
      var o := RunStep(steps[0], objects, leaves, st, NoFaults);
      var rest := RunAll(steps[1..], objects, o.leaves, o.st, NoFaults);
      StepFollows(steps[0], objects, leaves, st);
      AllFollow(steps[1..], objects, o.leaves, o.st);
      FollowBoth(a, b, StepsScript(steps, objects, true), leaves, st, o.err.Some?, o.leaves, o.st,
        Errors(rest.results) != [], rest.leaves, rest.st, o.err.Some? || Errors(rest.results) != []);
      assert ([o.err] + rest.results)[1..] == rest.results;
    }
  }

  lemma GroupFollows(g: Group, objects: map<string, Tree>, leaves: seq<Object>, st: Store, e: Execution)
    requires Good(leaves, st) && ValidObjects(objects, |leaves|)
    requires GroupRuns(g, objects, leaves, st, NoFaults, e)
    ensures Follows(StepsScript(g.steps, objects, g.parallel), leaves, st, e.failure.Some?, e.leaves, e.st)
  {
    if !g.parallel {
      SequentialFollows(g.steps, objects, leaves, st);
    } else {
      AllFollow(g.steps, objects, leaves, st);
      var jobs := Parallel.JobsOf(g.steps, objects);
      if Parallel.Disjoint(jobs, leaves) {
        var w0 := Parallel.Begin(jobs, leaves, st);
        var schedule: seq<nat> :|
          var w := Parallel.Run(jobs, w0, schedule, NoFaults);
          Parallel.Complete(w) && e == Execution(ParallelFailure(Results(w.threads)), w.leaves, w.st);
        InterleavingFollows(g.steps, objects, leaves, st, schedule);
      }
    }
  }

  /** An interleaved parallel group leaves the picture that the listed order leaves. */
  lemma InterleavingFollows(steps: seq<Step>, objects: map<string, Tree>, leaves: seq<Object>, st: Store, schedule: seq<nat>)
    requires Good(leaves, st) && ValidObjects(objects, |leaves|)
    requires var jobs := Parallel.JobsOf(steps, objects);
      && Parallel.Disjoint(jobs, leaves)
      && Parallel.Complete(Parallel.Run(jobs, Parallel.Begin(jobs, leaves, st), schedule, NoFaults))
    ensures var jobs := Parallel.JobsOf(steps, objects);
      var w := Parallel.Run(jobs, Parallel.Begin(jobs, leaves, st), schedule, NoFaults);
      Follows(StepsScript(steps, objects, true), leaves, st, Errors(Results(w.threads)) != [], w.leaves, w.st)
  {
    var jobs := Parallel.JobsOf(steps, objects);
    var w0 := Parallel.Begin(jobs, leaves, st);
    var w := Parallel.Run(jobs, w0, schedule, NoFaults);
    var a := RunAll(steps, objects, leaves, st, NoFaults);
    AllFollow(steps, objects, leaves, st);
    Parallel.Confluence(steps, objects, leaves, st, schedule, NoFaults);
    Parallel.InvRun(jobs, leaves, w0, schedule, NoFaults);
    assert Results(w.threads) == a.results;
    SamePicture(w.leaves, w.st, a.leaves, a.st);
  }

  /** Equality up to which resource versions there are is equality of pictures. */
  lemma SamePicture(leaves: seq<Object>, st: Store, leaves': seq<Object>, st': Store)
    requires |leaves| == |leaves'| && forall p :: 0 <= p < |leaves| ==> Blur(leaves[p]) == Blur(leaves'[p])
    requires SameCluster(st, st') && ValidStore(st) && Good(leaves', st')
    ensures PictureOf(leaves, st) == PictureOf(leaves', st') && Good(leaves, st)
  {
    forall p | 0 <= p < |leaves|
      ensures Erase(leaves[p]) == Erase(leaves'[p]) && WellFormed(leaves[p])
      ensures leaves[p].resourceVersion.Some? <==> leaves'[p].resourceVersion.Some?
    {
      assert Blur(leaves[p]) == Blur(leaves'[p]);
    }
    forall id
      ensures View(st, id) == CellOf(PictureOf(leaves', st').cells, id)
    {
      CellView(leaves', st', id);
    }
    PictureByViews(leaves, st, PictureOf(leaves', st'));
  }

  lemma {:induction false} RolloutFollows(groups: seq<Group>, objects: map<string, Tree>, leaves: seq<Object>, st: Store, e: Execution)
    requires Good(leaves, st) && ValidObjects(objects, |leaves|)
    requires RolloutRuns(groups, objects, leaves, st, NoFaults, e)
    ensures Follows(GroupsScript(groups, objects), leaves, st, e.failure.Some?, e.leaves, e.st)
  {
    if groups != [] {
      var first: Execution :|
        && |first.leaves| == |leaves|
        && GroupRuns(groups[0], objects, leaves, st, NoFaults, first)
        && if first.failure.Some? then e == first
           else RolloutRuns(groups[1..], objects, first.leaves, first.st, NoFaults, e);
      var a, b := StepsScript(groups[0].steps, objects, groups[0].parallel), GroupsScript(groups[1..], objects);
      GroupFollows(groups[0], objects, leaves, st, first);
      if first.failure.Some? {
        if !a.fails {
          FollowRefused(a, b, leaves, st, true, e.leaves, e.st, true);
        }
      } else {
        RolloutFollows(groups[1..], objects, first.leaves, first.st, e);
        if a.fails {
          FollowOn(a, b, leaves, st, false, first.leaves, first.st, e.failure.Some?, e.leaves, e.st);
        } else {
          FollowBoth(a, b, Then(a, b), leaves, st, false, first.leaves, first.st, e.failure.Some?, e.leaves, e.st, e.failure.Some?);
        }
      }
    }
  }
}
