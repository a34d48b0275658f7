/**
 Which rendered objects are harmless to convergence: exactly those that the server can
 decode and that carry no resource version.  Also: why the third execution, not the second.
 */
module ConvergenceExact {
  import opened Wrappers
  import opened Kube
  import opened Client
  import opened Actions
  import opened Rollout
  import opened Walk
  import opened Effects
  import opened Executions
  import opened Pictures
  import opened Scripts
  import opened Convergence

  /** A rollout that re-creates nothing, with `o` beside fresh objects, and any cluster. */
  ghost predicate Context(o: Object, groups: seq<Group>, objects: map<string, Tree>, leaves: seq<Object>, st: Store) {
    && ValidObjects(objects, |leaves|) && ValidStore(st)
    && (forall p :: 0 <= p < |leaves| ==> leaves[p] == o || Fresh(leaves[p]))
    && NoRecreation(GroupsScript(groups, objects).ops, leaves)
  }

  /** Every such rollout converges from every cluster. */
  ghost predicate Harmless(o: Object) {
    forall groups, objects, leaves, st :: Context(o, groups, objects, leaves, st) ==> Converges(groups, objects, leaves, st)
  }

  // ---- A rollout that does not converge ----

  /** A deployment with another identity than `o`. */
  function Spare(o: Object): (d: Object)
    ensures d.id != o.id && Fresh(d) && IsDeployment(d)
    ensures d.annotations.Some? && REVISION !in d.annotations.value
  {
    assert |o.id.name + "x"| != |o.id.name|;
    var d := Object(Identity("apps/v1", "Deployment", "default", o.id.name + "x"),
      None, None, Some(map["team" := "a"]), NoSpec, false, "");
    KindsDiffer(d);
    d
  }

  /** What the cluster has under the identity of `o` at first. */
  function Partner(o: Object): Object {
    o.(spec := NoSpec, decodes := true, resourceVersion := Some(0))
  }

  function Cluster(o: Object): Store {
    Store(map[o.id := Partner(o)], 1)
  }

  const OBJECTS: map<string, Tree> := map["d" := Leaf(0), "o" := Leaf(1)]

  const STEPS: seq<Step> := [
    Step("1", "d", "CreateOrUpdate", None, false), Step("2", "o", "CreateIfNotExist", None, false),
    Step("3", "o", "DeleteIfExist", None, false), Step("4", "d", "DeleteIfExist", None, false)]

  const OPS: seq<Op> := [Op(CreateOrUpdate, 0), Op(CreateIfNotExist, 1), Op(DeleteIfExist, 1), Op(DeleteIfExist, 0)]

  const GROUPS: seq<Group> := [Group("all", false, STEPS)]

  lemma ObjectsAreValid()
    ensures ValidObjects(OBJECTS, 2)
    ensures forall k :: 0 <= k < 4 ==> Plain(STEPS[k], OBJECTS, OPS[k])
  {
    forall name | name in OBJECTS
      ensures Within(Flatten(OBJECTS[name]), 2)
    {
      assert Flatten(OBJECTS[name]) == [Pointer(OBJECTS[name].ptr)];
    }
  }

  lemma NothingIsRecreated(leaves: seq<Object>)
    ensures NoRecreation(GroupsScript(GROUPS, OBJECTS).ops, leaves)
  {
    ObjectsAreValid();
    PlainScript(STEPS, OBJECTS, false, OPS);
    assert GROUPS[1..] == [] && OPS + [] == OPS;
  }

  /** A sequential group, one step further. */
  lemma NextStep(i: nat, leaves: seq<Object>, st: Store)
    requires i < 4 && |leaves| == 2 && ValidObjects(OBJECTS, 2)
    ensures var m := Perform(OPS[i].action, leaves[OPS[i].ptr], st, NoFaults);
      var leaves' := leaves[OPS[i].ptr := m.leaf];
      && (m.pc.err.Some? ==> RunSequential(STEPS[i..], OBJECTS, leaves, st, NoFaults).st == m.st)
      && (m.pc.err.None? ==>
           RunSequential(STEPS[i..], OBJECTS, leaves, st, NoFaults).st ==
           RunSequential(STEPS[i + 1..], OBJECTS, leaves', m.st, NoFaults).st)
  {
    ObjectsAreValid();
    PlainStep(STEPS[i], OBJECTS, OPS[i], leaves, st);
    assert STEPS[i..][0] == STEPS[i] && STEPS[i..][1..] == STEPS[i + 1..];
  }

  lemma GroupExecution(o: Object, st: Store) returns (e: Execution)
    ensures ValidObjects(OBJECTS, 2)
    ensures RolloutRuns(GROUPS, OBJECTS, [Spare(o), o], st, NoFaults, e)
    ensures e.st == RunSequential(STEPS[0..], OBJECTS, [Spare(o), o], st, NoFaults).st
  {
    ObjectsAreValid();
    var leaves := [Spare(o), o];
    e := RunGroup(GROUPS[0], OBJECTS, leaves, st, NoFaults);
    assert GroupRuns(GROUPS[0], OBJECTS, leaves, st, NoFaults, e);
    assert GROUPS[1..] == [] && STEPS[0..] == STEPS;
    assert RolloutRuns([], OBJECTS, e.leaves, e.st, NoFaults, Execution(None, e.leaves, e.st));
  }

  /** The deployment is updated, whatever else the cluster holds. */
  lemma FirstStep(o: Object, st: Store) returns (m: Micro)
    requires ValidStore(st)
    ensures m == Perform(CreateOrUpdate, Spare(o), st, NoFaults) && m.pc == Done(None) && ValidStore(m.st)
    ensures m.leaf.id == Spare(o).id
    ensures View(m.st, Spare(o).id) == Effect(CreateOrUpdate, Meeting(Spare(o), View(st, Spare(o).id))).cell
    ensures o.id in m.st.objects <==> o.id in st.objects
  {
    m := Perform(CreateOrUpdate, Spare(o), st, NoFaults);
    PerformHasEffect(CreateOrUpdate, Spare(o), st);
    assert View(m.st, o.id) == View(st, o.id);
  }

  /** Without a live object the server refuses to create `o`, and the group ends. */
  lemma EndsAtSecondStep(leaves: seq<Object>, st: Store)
    requires |leaves| == 2 && !Fresh(leaves[1]) && leaves[1].id !in st.objects
    ensures ValidObjects(OBJECTS, 2)
    ensures RunSequential(STEPS[1..], OBJECTS, leaves, st, NoFaults).st.objects == st.objects
    ensures ValidStore(st) ==> ValidStore(RunSequential(STEPS[1..], OBJECTS, leaves, st, NoFaults).st)
  {
    ObjectsAreValid();
    NextStep(1, leaves, st);
  }

  lemma RunThatFails(o: Object, st: Store) returns (e: Execution)
    requires !Fresh(o) && ValidStore(st) && o.id !in st.objects
    ensures ValidObjects(OBJECTS, 2)
    ensures RolloutRuns(GROUPS, OBJECTS, [Spare(o), o], st, NoFaults, e)
    ensures ValidStore(e.st) && o.id !in e.st.objects
    ensures View(e.st, Spare(o).id) == Effect(CreateOrUpdate, Meeting(Spare(o), View(st, Spare(o).id))).cell
  {
    e := GroupExecution(o, st);
    var leaves := [Spare(o), o];
    var m := FirstStep(o, st);
    NextStep(0, leaves, st);
    EndsAtSecondStep(leaves[0 := m.leaf], m.st);
    assert View(e.st, Spare(o).id) == View(m.st, Spare(o).id);
  }

  /** With a live object the other steps go through, and delete both. */
  lemma GoesThrough(leaves: seq<Object>, st: Store)
    requires |leaves| == 2 && leaves[1].id in st.objects && ValidStore(st)
    ensures ValidObjects(OBJECTS, 2)
    ensures var st' := RunSequential(STEPS[1..], OBJECTS, leaves, st, NoFaults).st;
      ValidStore(st') && leaves[0].id !in st'.objects && leaves[1].id !in st'.objects
  {
    ObjectsAreValid();
    assert leaves[1 := leaves[1]] == leaves && leaves[0 := leaves[0]] == leaves;
    NextStep(1, leaves, st);
    var st2 := Perform(CreateIfNotExist, leaves[1], st, NoFaults).st;
    NextStep(2, leaves, st2);
    var st3 := Perform(DeleteIfExist, leaves[1], st2, NoFaults).st;
    NextStep(3, leaves, st3);
    assert STEPS[4..] == [];
  }

  lemma RunThatPasses(o: Object, st: Store) returns (e: Execution)
    requires ValidStore(st) && o.id in st.objects
    ensures ValidObjects(OBJECTS, 2)
    ensures RolloutRuns(GROUPS, OBJECTS, [Spare(o), o], st, NoFaults, e)
    ensures ValidStore(e.st) && o.id !in e.st.objects && Spare(o).id !in e.st.objects
  {
    e := GroupExecution(o, st);
    var leaves := [Spare(o), o];
    var m := FirstStep(o, st);
    NextStep(0, leaves, st);
    GoesThrough(leaves[0 := m.leaf], m.st);
  }

  /** Updating the deployment to itself adds an annotation. */
  lemma RevisionAppears(o: Object)
    ensures Effect(CreateOrUpdate, Meeting(Spare(o), None)).cell == Some(Spare(o))
    ensures Effect(CreateOrUpdate, Meeting(Spare(o), Some(Spare(o)))).cell != Some(Spare(o))
  {
    var d := Spare(o);
    KindsDiffer(d);
    assert REVISION in Annotated(Carry(d, d));
  }

  lemma Diverges(o: Object)
    requires !Fresh(o)
    ensures ValidObjects(OBJECTS, 2) && ValidStore(Cluster(o))
    ensures !Converges(GROUPS, OBJECTS, [Spare(o), o], Cluster(o))
  {
    assert ValidStore(Cluster(o));
    var e1 := RunThatPasses(o, Cluster(o));
    var e2 := RunThatFails(o, e1.st);
    var e3 := RunThatFails(o, e2.st);
    RevisionAppears(o);
    assert View(e2.st, Spare(o).id) != View(e3.st, Spare(o).id);
  }

  /**
   Exactly the fresh objects are harmless: a single other one, rendered beside fresh ones,
   makes some rollout that re-creates nothing change the cluster in its third execution too.
   */
  lemma ConvergenceIsExact(o: Object)
    ensures Fresh(o) <==> Harmless(o)
  {
    if Fresh(o) {
      FreshIsHarmless(o);
    } else {
      OthersAreNotHarmless(o);
    }
  }

  lemma OthersAreNotHarmless(o: Object)
    requires !Fresh(o)
    ensures !Harmless(o)
  {
    DivergingContext(o);
    Diverges(o);
    assert !Converges(GROUPS, OBJECTS, [Spare(o), o], Cluster(o));
  }

  lemma DivergingContext(o: Object)
    ensures Context(o, GROUPS, OBJECTS, [Spare(o), o], Cluster(o))
  {
    ObjectsAreValid();
    NothingIsRecreated([Spare(o), o]);
  }

  lemma FreshIsHarmless(o: Object)
    requires Fresh(o)
    ensures Harmless(o)
  {
    forall groups, objects, leaves, st | Context(o, groups, objects, leaves, st)
      ensures Converges(groups, objects, leaves, st)
    {
      assert Renders(groups, objects, leaves);
      RendersConverges(groups, objects, leaves, st);
    }
  }

  const ONE_STEP: seq<Group> := [Group("one", false, [STEPS[0]])]

  /** A rollout of the deployment alone. */
  lemma DeploymentRuns(o: Object, st: Store) returns (e: Execution)
    requires ValidStore(st)
    ensures ValidObjects(OBJECTS, 2)
    ensures RolloutRuns(ONE_STEP, OBJECTS, [Spare(o), o], st, NoFaults, e)
    ensures ValidStore(e.st)
    ensures View(e.st, Spare(o).id) == Effect(CreateOrUpdate, Meeting(Spare(o), View(st, Spare(o).id))).cell
  {
    ObjectsAreValid();
    var leaves, steps := [Spare(o), o], ONE_STEP[0].steps;
    var m := FirstStep(o, st);
    PlainStep(steps[0], OBJECTS, OPS[0], leaves, st);
    var after := leaves[0 := m.leaf];
    assert steps[1..] == [] && ONE_STEP[1..] == [];
    assert RunSequential([], OBJECTS, after, m.st, NoFaults) == Attempt([], after, m.st);
    e := RunGroup(ONE_STEP[0], OBJECTS, leaves, st, NoFaults);
    assert GroupRuns(ONE_STEP[0], OBJECTS, leaves, st, NoFaults, e);
    assert RolloutRuns([], OBJECTS, e.leaves, e.st, NoFaults, e);
  }

  /** The second execution may still change something: an annotation that only an update adds. */
  lemma SecondRunMayChange(o: Object) returns (e1: Execution, e2: Execution)
    requires Fresh(o)
    ensures Renders(ONE_STEP, OBJECTS, [Spare(o), o])
    ensures RolloutRuns(ONE_STEP, OBJECTS, [Spare(o), o], Store(map[], 0), NoFaults, e1)
    ensures RolloutRuns(ONE_STEP, OBJECTS, [Spare(o), o], e1.st, NoFaults, e2)
    ensures !SameCluster(e1.st, e2.st)
  {
    ObjectsAreValid();
    PlainScript(ONE_STEP[0].steps, OBJECTS, false, OPS[..1]);
    assert ONE_STEP[1..] == [] && |GroupsScript(ONE_STEP, OBJECTS).ops| == 1;
    e1 := DeploymentRuns(o, Store(map[], 0));
    e2 := DeploymentRuns(o, e1.st);
    RevisionAppears(o);
    assert View(e1.st, Spare(o).id) != View(e2.st, Spare(o).id);
  }
}
