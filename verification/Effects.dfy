/**
 What the object actions do to clusters of well-formed objects when no call is refused,
 with resource versions left out: a rendered object meets the object stored under its
 identity, may take over one value from it, and may take its place.
 */
module Effects {
  import opened Wrappers
  import opened Kube
  import opened Client
  import opened Actions

  /** The value that an update takes over from the live object, if there is one. */
  function Carries(o: Object): Option<string> {
    if IsService(o) && ReadClusterIP(o.spec).Ok? then ReadClusterIP(o.spec).value
    else if IsDeployment(o) && o.annotations.Some? then Some(Revision(o))
    else None
  }

  function Put(o: Object, v: string): Object {
    if IsService(o) then o.(spec := Fields(Text(v), if o.spec.Fields? then o.spec.others else ""))
    else o.(annotations := Some(Annotated(o)[REVISION := v]))
  }

  function Carry(o: Object, live: Object): Object {
    if Carries(live).Some? then Put(o, Carries(live).value) else o
  }

  /** The update of a ServiceAccount is vetoed. */
  predicate Vetoed(live: Object, o: Object) {
    IsServiceAccount(o) && Labelled(live) == Labelled(o) && Annotated(live) == Annotated(o)
  }

  /** A rendered object and the object stored under its identity. */
  datatype Meeting = Meeting(leaf: Object, cell: Option<Object>)

  function Effect(a: Action, m: Meeting): Meeting {
    match a
    case DeleteIfExist => m.(cell := None)
    case CreateIfNotExist => if m.cell.None? then m.(cell := Some(m.leaf)) else m
    case CreateOrUpdate =>
      if m.cell.None? then m.(cell := Some(m.leaf))
      else if Vetoed(m.cell.value, m.leaf) then m
      else
        var r := Carry(m.leaf, m.cell.value);
        Meeting(r, Some(r))
  }

  const NoFaults: Faults := (st: Store, verb: Verb, id: Identity) => None

  predicate Sound(o: Object, id: Identity) {
    o.id == id && o.resourceVersion == None && WellFormed(o)
  }

  predicate SoundMeeting(m: Meeting, id: Identity) {
    Sound(m.leaf, id) && (m.cell.Some? ==> Sound(m.cell.value, id))
  }

  lemma KindsDiffer(o: Object)
    ensures IsService(o) ==> !IsDeployment(o) && !IsServiceAccount(o)
    ensures IsDeployment(o) ==> !IsServiceAccount(o)
  {
  }

  lemma CarryIsPrepare(leaf: Object, live: Object)
    requires WellFormed(leaf) && WellFormed(live) && leaf.id == live.id
    ensures var p := Prepare(live, leaf);
      && p.err.None? && Erase(p.updated) == Erase(Carry(leaf, live))
      && WellFormed(p.updated) && p.updated.id == leaf.id && p.updated.resourceVersion == live.resourceVersion
    ensures IsServiceAccount(leaf) ==> Carry(leaf, live) == leaf
  {
  }

  lemma CarryUpToVersions(leaf: Object, live: Object)
    requires WellFormed(leaf) && WellFormed(live) && leaf.id == live.id
    ensures Carry(Erase(leaf), Erase(live)) == Erase(Carry(leaf, live))
    ensures Vetoed(Erase(live), Erase(leaf)) == Vetoed(live, leaf)
  {
  }

  /** Values are taken over once and for all: a later one replaces an earlier one. */
  lemma CarryLaws(o: Object, live: Object, later: Object)
    requires o.id == live.id == later.id
    requires WellFormed(o) && WellFormed(live) && WellFormed(later)
    ensures Carry(o, live).id == o.id && WellFormed(Carry(o, live))
    ensures Carry(o, live).resourceVersion == o.resourceVersion
    ensures Carries(live).Some? ==> Carries(Carry(o, live)) == Carries(live)
    ensures Carries(live).None? ==> Carry(o, live) == o
    ensures Carries(later).Some? ==> Carry(Carry(o, live), later) == Carry(o, later)
    ensures Carry(o, Carry(live, later)) ==
      if Carries(later).Some? then Carry(o, later) else Carry(o, live)
  {
    KindsDiffer(o);
    assert Annotated(Carry(o, live))[REVISION := Revision(later)] == Annotated(o)[REVISION := Revision(later)];
  }

  lemma EffectIsSound(a: Action, m: Meeting, id: Identity)
    requires SoundMeeting(m, id)
    ensures SoundMeeting(Effect(a, m), id)
  {
  }

  /** The update of a live object that was read at the present version. */
  lemma UpdateHasEffect(leaf: Object, st: Store)
    requires ValidStore(st) && WellFormed(leaf) && leaf.id in st.objects
    ensures var m := NextUpdate(st.objects[leaf.id], leaf, st, None);
      && m.pc == Done(None)
      && ValidStore(m.st)
      && m.leaf.id == leaf.id && m.leaf.resourceVersion.Some?
      && Meeting(Erase(m.leaf), View(m.st, leaf.id)) ==
         Effect(CreateOrUpdate, Meeting(Erase(leaf), Some(Erase(st.objects[leaf.id]))))
      && (forall id :: id != leaf.id ==> View(m.st, id) == View(st, id))
  {
    var live := st.objects[leaf.id];
    CarryIsPrepare(leaf, live);
    CarryUpToVersions(leaf, live);
    UpdateIsLocal(st, Prepare(live, leaf).updated, None);
    KindsDiffer(leaf);
  }

  /** The server refuses to create the rendered object: nothing is stored, and it carries a version. */
  predicate CreateRefused(a: Action, leaf: Object, st: Store) {
    !a.DeleteIfExist? && leaf.id !in st.objects && leaf.resourceVersion.Some?
  }

  /**
   An undisturbed action on a well-formed object has the effect above, unless the server
   refuses to create it.  The object carries a version from then on if it met a live one.
   */
  lemma PerformHasEffect(a: Action, leaf: Object, st: Store)
    requires ValidStore(st) && WellFormed(leaf) && !CreateRefused(a, leaf, st)
    ensures var m := Perform(a, leaf, st, NoFaults);
      && m.pc == Done(None)
      && ValidStore(m.st)
      && m.leaf.id == leaf.id
      && Meeting(Erase(m.leaf), View(m.st, leaf.id)) == Effect(a, Meeting(Erase(leaf), View(st, leaf.id)))
      && (m.leaf.resourceVersion.Some? <==>
           leaf.resourceVersion.Some? || (a.CreateOrUpdate? && leaf.id in st.objects))
      && (forall id :: id != leaf.id ==> View(m.st, id) == View(st, id))
  {
    if leaf.id in st.objects && a.CreateOrUpdate? {
      UpdateHasEffect(leaf, Tick(st));
      assert Perform(a, leaf, st, NoFaults) == NextUpdate(st.objects[leaf.id], leaf, Tick(st), None);
    }
  }

  /** A refused create fails and changes nothing. */
  lemma RefusedChangesNothing(a: Action, leaf: Object, st: Store)
    requires ValidStore(st) && CreateRefused(a, leaf, st)
    ensures var m := Perform(a, leaf, st, NoFaults);
      m.pc.err.Some? && m.leaf == leaf && ValidStore(m.st) && m.st.objects == st.objects
  {
  }
}
