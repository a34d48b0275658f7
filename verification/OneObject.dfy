/**
 Rollouts of one rendered object, whatever is done to it: when repeated execution converges,
 exactly.  What decides is whether the object is stored, before and after.
 */
module OneObject {
  import opened Wrappers
  import opened Kube
  import opened Actions
  import opened Rollout
  import opened Walk
  import opened Effects
  import opened Executions
  import opened Pictures
  import opened Scripts
  import opened Convergence

  /** Not stored; stored; stored and met by an update; or met by an update and no longer stored. */
  datatype Life = Unstored | Present | Updated | Lost

  function NextLife(a: Action, l: Life): Life {
    match a
    case CreateOrUpdate => if l.Unstored? then Present else if l.Lost? then Lost else Updated
    case CreateIfNotExist => if l.Unstored? then Present else l
    case DeleteIfExist => if l.Present? then Unstored else if l.Updated? then Lost else l
  }

  /** The fate of the object over a whole script. */
  function Lives(ops: seq<Op>, l: Life): Life {
    if ops == [] then l else Lives(ops[1..], NextLife(ops[0].action, l))
  }

  predicate Stored(l: Life) {
    l.Present? || l.Updated?
  }

  /** Whether a script leaves the object stored. */
  predicate Leaves(ops: seq<Op>, stored: bool) {
    Stored(Lives(ops, if stored then Present else Unstored))
  }

  /** From a cluster without the object the script leaves it there, and the other way round. */
  predicate Alternates(ops: seq<Op>) {
    Leaves(ops, false) && !Leaves(ops, true)
  }

  function LifeOf(p: Picture): Life
    requires |p.leaves| == 1
  {
    if p.leaves[0].id in p.cells then (if 0 in p.stamped then Updated else Present)
    else if 0 in p.stamped then Lost
    else Unstored
  }

  lemma LifeStep(op: Op, p: Picture)
    requires |p.leaves| == 1 && op.ptr == 0
    requires forall id :: id in p.cells ==> p.cells[id].id == id
    ensures Accepted(op, p) ==> LifeOf(ApplyOp(op, p)) == NextLife(op.action, LifeOf(p))
    ensures !Accepted(op, p) ==> LifeOf(p) == Lost
    ensures forall id :: id in ApplyOp(op, p).cells ==> ApplyOp(op, p).cells[id].id == id
  {
    EffectKeepsIds(op.action, Meeting(p.leaves[0], CellOf(p.cells, p.leaves[0].id)));
  }

  lemma {:induction false} LostForGood(ops: seq<Op>)
    ensures Lives(ops, Lost) == Lost
  {
    if ops != [] {
      LostForGood(ops[1..]);
    }
  }

  lemma {:induction false} LivesTold(ops: seq<Op>, p: Picture)
    requires |p.leaves| == 1 && OpsWithin(ops, 1)
    requires forall id :: id in p.cells ==> p.cells[id].id == id
    ensures AllAccepted(ops, p) ==> LifeOf(ApplyOps(ops, p)) == Lives(ops, LifeOf(p))
    ensures !AllAccepted(ops, p) ==> Lives(ops, LifeOf(p)) == Lost
  {
    if ops != [] {
      LifeStep(ops[0], p);
      if Accepted(ops[0], p) {
        LivesTold(ops[1..], ApplyOp(ops[0], p));
      } else {
        LostForGood(ops);
      }
    }
  }

  lemma FirstLife(o: Object, st: Store)
    requires Fresh(o) && ValidStore(st)
    ensures var p := PictureOf([o], st);
      && |p.leaves| == 1
      && LifeOf(p) == (if o.id in st.objects then Present else Unstored)
      && forall id :: id in p.cells ==> p.cells[id].id == id
  {
    FreshIsExplained([o], st);
  }

  /** What an execution does to the cluster, as far as it concerns what is stored. */
  ghost predicate Told(ops: seq<Op>, o: Object, st: Store, e: Execution) {
    && ValidStore(e.st)
    && (o.id in e.st.objects <==> Leaves(ops, o.id in st.objects))
    && (forall id :: id != o.id ==> View(e.st, id) == View(st, id))
  }

  lemma OthersStay(o: Object, st: Store, e: Execution)
    requires Kept(PictureOf([o], st), PictureOf(e.leaves, e.st))
    ensures forall id :: id != o.id ==> View(e.st, id) == View(st, id)
  {
    forall id | id != o.id
      ensures View(e.st, id) == View(st, id)
    {
      assert Foreign(PictureOf([o], st), id);
      CellView([o], st, id);
      CellView(e.leaves, e.st, id);
    }
  }

  ghost predicate AcceptedIfStored(groups: seq<Group>, objects: map<string, Tree>, o: Object, st: Store, e: Execution) {
    o.id in e.st.objects ==> AcceptedRun(groups, objects, [o], st, e)
  }

  /** An execution stores the object if and only if the script says so; then every create was accepted. */
  lemma OneExecution(groups: seq<Group>, objects: map<string, Tree>, o: Object, st: Store, e: Execution)
    requires Fresh(o) && ValidObjects(objects, 1) && ValidStore(st)
    requires RolloutRuns(groups, objects, [o], st, NoFaults, e)
    ensures Told(GroupsScript(groups, objects).ops, o, st, e)
    ensures AcceptedIfStored(groups, objects, o, st, e)
  {
    FirstLife(o, st);
    GroupsWithin(groups, objects, 1);
    RolloutFollows(groups, objects, [o], st, e);
    LivesTold(GroupsScript(groups, objects).ops, PictureOf([o], st));
    OthersStay(o, st, e);
  }

  /** An alternating rollout creates the object in one execution and loses it in the next, for ever. */
  lemma AlternatesForEver(groups: seq<Group>, objects: map<string, Tree>, o: Object, st: Store, e: Execution)
    requires Fresh(o) && ValidObjects(objects, 1) && ValidStore(st)
    requires Alternates(GroupsScript(groups, objects).ops)
    requires RolloutRuns(groups, objects, [o], st, NoFaults, e)
    ensures ValidStore(e.st) && (o.id in e.st.objects <==> o.id !in st.objects)
  {
    OneExecution(groups, objects, o, st, e);
  }

  /** Without alternation the second and third execution agree on whether the object is stored. */
  lemma StoredAgrees(ops: seq<Op>, o: Object, st: Store, e1: Execution, e2: Execution, e3: Execution)
    requires !Alternates(ops)
    requires Told(ops, o, st, e1) && Told(ops, o, e1.st, e2) && Told(ops, o, e2.st, e3)
    ensures o.id in e2.st.objects <==> o.id in e3.st.objects
    ensures o.id in e2.st.objects ==> o.id in e1.st.objects
    ensures o.id !in e2.st.objects ==> SameCluster(e2.st, e3.st)
  {
  }

  lemma ThirdAsSecond(groups: seq<Group>, objects: map<string, Tree>, o: Object, st: Store,
      e1: Execution, e2: Execution, e3: Execution)
    requires var ops := GroupsScript(groups, objects).ops;
      !Alternates(ops) && Told(ops, o, st, e1) && Told(ops, o, e1.st, e2) && Told(ops, o, e2.st, e3)
    requires AcceptedIfStored(groups, objects, o, st, e1)
    requires AcceptedIfStored(groups, objects, o, e1.st, e2)
    requires AcceptedIfStored(groups, objects, o, e2.st, e3)
    ensures SameCluster(e2.st, e3.st)
  {
    StoredAgrees(GroupsScript(groups, objects).ops, o, st, e1, e2, e3);
    if o.id in e2.st.objects {
      ThreeExecutions(groups, objects, [o], st, e1, e2, e3);
    }
  }

  lemma NotAlternatingConverges(groups: seq<Group>, objects: map<string, Tree>, o: Object, st: Store,
      e1: Execution, e2: Execution, e3: Execution)
    requires Fresh(o) && ValidObjects(objects, 1) && ValidStore(st)
    requires !Alternates(GroupsScript(groups, objects).ops)
    requires RolloutRuns(groups, objects, [o], st, NoFaults, e1)
    requires RolloutRuns(groups, objects, [o], e1.st, NoFaults, e2)
    requires RolloutRuns(groups, objects, [o], e2.st, NoFaults, e3)
    ensures SameCluster(e2.st, e3.st)
  {
    OneExecution(groups, objects, o, st, e1);
    OneExecution(groups, objects, o, e1.st, e2);
    OneExecution(groups, objects, o, e2.st, e3);
    ThirdAsSecond(groups, objects, o, st, e1, e2, e3);
  }

  lemma AlternatingDiverges(groups: seq<Group>, objects: map<string, Tree>, o: Object)
    requires Fresh(o) && ValidObjects(objects, 1)
    requires Alternates(GroupsScript(groups, objects).ops)
    ensures !Converges(groups, objects, [o], Store(map[], 0))
  {
    var st := Store(map[], 0);
    var e1 := SomeExecution(groups, objects, [o], st, NoFaults);
    AlternatesForEver(groups, objects, o, st, e1);
    var e2 := SomeExecution(groups, objects, [o], e1.st, NoFaults);
    AlternatesForEver(groups, objects, o, e1.st, e2);
    var e3 := SomeExecution(groups, objects, [o], e2.st, NoFaults);
    AlternatesForEver(groups, objects, o, e2.st, e3);
    assert View(e2.st, o.id) != View(e3.st, o.id);
  }

  /**
   A rollout of one object converges from every cluster exactly if its script does not
   alternate: groups, ignored failures, checks, nested lists and interleavings included.
   */
  lemma OneObjectExactly(groups: seq<Group>, objects: map<string, Tree>, o: Object)
    requires Fresh(o) && ValidObjects(objects, 1)
    ensures (forall st :: ValidStore(st) ==> Converges(groups, objects, [o], st)) <==>
      !Alternates(GroupsScript(groups, objects).ops)
  {
    if Alternates(GroupsScript(groups, objects).ops) {
      AlternatingDiverges(groups, objects, o);
      assert ValidStore(Store(map[], 0));
    } else {
      forall st, e1, e2, e3 |
        && ValidStore(st)
        && RolloutRuns(groups, objects, [o], st, NoFaults, e1)
        && RolloutRuns(groups, objects, [o], e1.st, NoFaults, e2)
        && RolloutRuns(groups, objects, [o], e2.st, NoFaults, e3)
        ensures SameCluster(e2.st, e3.st)
      {
        NotAlternatingConverges(groups, objects, o, st, e1, e2, e3);
      }
    }
  }

  function ActionOf(name: string): Step {
    Step(name, "o", name, None, false)
  }

  /** A group that updates, deletes and creates again. */
  const RECREATE: seq<Group> := [
    Group("all", false, [ActionOf("CreateOrUpdate"), ActionOf("DeleteIfExist"), ActionOf("CreateOrUpdate")])]

  const ONLY: map<string, Tree> := map["o" := Leaf(0)]

  lemma RecreateScript()
    ensures ValidObjects(ONLY, 1)
    ensures GroupsScript(RECREATE, ONLY).ops == [Op(CreateOrUpdate, 0), Op(DeleteIfExist, 0), Op(CreateOrUpdate, 0)]
  {
    var ops := [Op(CreateOrUpdate, 0), Op(DeleteIfExist, 0), Op(CreateOrUpdate, 0)];
    assert Flatten(ONLY["o"]) == [Pointer(0)];
    PlainScript(RECREATE[0].steps, ONLY, false, ops);
    assert RECREATE[1..] == [] && ops + [] == ops;
  }

  lemma LivesThree(a: Op, b: Op, c: Op, l: Life)
    ensures Lives([a, b, c], l) == NextLife(c.action, NextLife(b.action, NextLife(a.action, l)))
  {
    var ops := [a, b, c];
    var first := NextLife(a.action, l);
    var second := NextLife(b.action, first);
    assert ops[1..] == [b, c] && [b, c][1..] == [c] && [c][1..] == [];
    assert Lives(ops, l) == Lives([b, c], first) == Lives([c], second) == Lives([], NextLife(c.action, second));
  }

  /** The re-creating rollout alternates on every object, and so never converges. */
  lemma RecreationAlternates(o: Object, st: Store, e: Execution)
    requires Fresh(o) && ValidStore(st)
    ensures ValidObjects(ONLY, 1)
    ensures RolloutRuns(RECREATE, ONLY, [o], st, NoFaults, e) ==>
      ValidStore(e.st) && (o.id in e.st.objects <==> o.id !in st.objects)
  {
    RecreateScript();
    var ops := GroupsScript(RECREATE, ONLY).ops;
    LivesThree(ops[0], ops[1], ops[2], Unstored);
    LivesThree(ops[0], ops[1], ops[2], Present);
    if RolloutRuns(RECREATE, ONLY, [o], st, NoFaults, e) {
      AlternatesForEver(RECREATE, ONLY, o, st, e);
    }
  }
}
