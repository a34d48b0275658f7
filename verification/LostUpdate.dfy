/**
 One action against a server that other writers use at the same time.  Between any two of
 its calls they may create, change, delete and re-create whatever they like.
 */
module LostUpdate {
  import opened Wrappers
  import opened Kube
  import opened Client
  import opened Actions

  datatype Event =
    | Served(fault: Fault)
    | Others(after: Store)

  /**
   Any number of foreign writes lead from `st` to `after`: what they leave alone stays as
   it was, and what they write carries a version that did not exist before.
   */
  ghost predicate OthersWrote(st: Store, after: Store) {
    && st.time <= after.time
    && ValidStore(after)
    && forall id :: id in after.objects ==>
         || (id in st.objects && after.objects[id] == st.objects[id])
         || st.time <= after.objects[id].resourceVersion.value
  }

  ghost predicate Enabled(m: Micro, e: Event) {
    e.Served? || OthersWrote(m.st, e.after)
  }

  function After(a: Action, m: Micro, e: Event): Micro {
    match e
    case Served(fault) => Next(a, m.pc, m.leaf, m.st, fault)
    case Others(after) => m.(st := after)
  }

  function Run(a: Action, m: Micro, events: seq<Event>): Micro {
    if events == [] then m else After(a, Run(a, m, events[..|events| - 1]), events[|events| - 1])
  }

  ghost predicate Possible(a: Action, m: Micro, events: seq<Event>) {
    forall i :: 0 <= i < |events| ==> Enabled(Run(a, m, events[..i]), events[i])
  }

  /** What a read object says about the server from then on: same version, same object. */
  ghost predicate Inv(a: Action, m: Micro) {
    && ValidStore(m.st)
    && (m.pc.Have? ==>
         && a.CreateOrUpdate?
         && m.pc.current.id == m.leaf.id
         && m.pc.current.resourceVersion.Some?
         && m.pc.current.resourceVersion.value < m.st.time
         && (m.leaf.id in m.st.objects
             && m.st.objects[m.leaf.id].resourceVersion == m.pc.current.resourceVersion
             ==> m.st.objects[m.leaf.id] == m.pc.current))
    && (m.pc.Missing? ==> !a.DeleteIfExist?)
  }

  /** A call keeps the server's guarantees, and what it returns is what the server had. */
  lemma CallKeepsInv(a: Action, m: Micro, fault: Fault)
    requires Inv(a, m)
    ensures Inv(a, Next(a, m.pc, m.leaf, m.st, fault))
    ensures Next(a, m.pc, m.leaf, m.st, fault).leaf.id == m.leaf.id
  {
    if m.pc.Have? {
      PreparedIdentity(m.pc.current, m.leaf);
    }
  }

  lemma InvStep(a: Action, m: Micro, e: Event)
    requires Inv(a, m) && Enabled(m, e)
    ensures Inv(a, After(a, m, e))
    ensures After(a, m, e).leaf.id == m.leaf.id
  {
    if e.Served? {
      CallKeepsInv(a, m, e.fault);
    }
  }

  lemma {:induction false} InvRun(a: Action, m: Micro, events: seq<Event>)
    requires ValidStore(m.st) && m.pc == Start
    requires Possible(a, m, events)
    ensures Inv(a, Run(a, m, events))
    ensures Run(a, m, events).leaf.id == m.leaf.id
  {
    if events != [] {
      var init := events[..|events| - 1];
      forall i | 0 <= i < |init|
        ensures Enabled(Run(a, m, init[..i]), init[i])
      {
        assert init[..i] == events[..i];
      }
      InvRun(a, m, init);
      InvStep(a, Run(a, m, init), events[|events| - 1]);
    }
  }

  /** Event `j` is a Get that found `current`. */
  ghost predicate ReadAt(a: Action, m: Micro, events: seq<Event>, j: nat, current: Object) {
    && j < |events|
    && events[j] == Served(None)
    && var w := Run(a, m, events[..j]);
       w.pc == Start && w.leaf.id in w.st.objects && w.st.objects[w.leaf.id] == current
  }

  /** The object an action holds is one that some earlier Get found on the server. */
  lemma {:induction false} HeldObjectWasRead(a: Action, m: Micro, events: seq<Event>)
    requires m.pc == Start && Run(a, m, events).pc.Have?
    ensures exists j: nat :: ReadAt(a, m, events, j, Run(a, m, events).pc.current)
  {
    var init := events[..|events| - 1];
    var w := Run(a, m, init);
    if w.pc.Have? {
      HeldObjectWasRead(a, m, init);
      var j: nat :| ReadAt(a, m, init, j, w.pc.current);
      assert init[..j] == events[..j];
      assert ReadAt(a, m, events, j, w.pc.current);
    } else {
      assert ReadAt(a, m, events, |init|, Run(a, m, events).pc.current);
    }
  }

  /** The call that `m` makes next is an update, and the server is not refusing calls. */
  predicate AboutToUpdate(m: Micro) {
    && m.pc.Have?
    && Prepare(m.pc.current, m.leaf).err.None?
    && CheckServiceAccount(m.pc.current, Prepare(m.pc.current, m.leaf).updated) == Ok(true)
  }

  /**
   No lost update: whatever others do between the Get and the Update, the Update goes
   through exactly when the live object is still the one that the Get returned and the
   server can decode what it is given; it then
   keeps the live cluster IP of a Service and the live revision of a Deployment, and
   otherwise it changes nothing at all.
   */
  lemma UpdateReplacesWhatWasRead(m: Micro, events: seq<Event>)
    requires ValidStore(m.st) && m.pc == Start
    requires Possible(CreateOrUpdate, m, events)
    requires AboutToUpdate(Run(CreateOrUpdate, m, events))
    ensures exists j: nat :: ReadAt(CreateOrUpdate, m, events, j, Run(CreateOrUpdate, m, events).pc.current)
    ensures var w := Run(CreateOrUpdate, m, events);
      var w' := After(CreateOrUpdate, w, Served(None));
      var id := m.leaf.id;
      && (w'.pc == Done(None) <==>
           && id in w.st.objects && w.st.objects[id] == w.pc.current
           && WellFormed(Prepare(w.pc.current, w.leaf).updated))
      && (w'.pc != Done(None) ==> w'.st.objects == w.st.objects)
      && (w'.pc == Done(None) ==>
           && id in w'.st.objects
           && w'.st.objects == w.st.objects[id := w'.st.objects[id]]
           && Erase(w'.st.objects[id]) == Erase(Prepare(w.st.objects[id], w.leaf).updated))
    ensures var w := Run(CreateOrUpdate, m, events);
      var w' := After(CreateOrUpdate, w, Served(None));
      var id := m.leaf.id;
      w'.pc == Done(None) ==>
        var live, written := w.st.objects[id], w'.st.objects[id];
        && (IsService(live) && ReadClusterIP(live.spec).Ok? && ReadClusterIP(live.spec).value.Some? ==>
             ReadClusterIP(written.spec) == ReadClusterIP(live.spec))
        && (IsDeployment(live) && REVISION in Annotated(live) ==>
             REVISION in Annotated(written) && Annotated(written)[REVISION] == Annotated(live)[REVISION])
  {
    HeldObjectWasRead(CreateOrUpdate, m, events);
    InvRun(CreateOrUpdate, m, events);
    var w := Run(CreateOrUpdate, m, events);
    PreparationExact(w.pc.current, w.leaf);
  }

  /** At every point of every run, a call of CreateIfNotExist leaves existing objects alone. */
  lemma CreateIfNotExistAltersNothing(m: Micro, events: seq<Event>, fault: Fault)
    requires ValidStore(m.st) && m.pc == Start
    requires Possible(CreateIfNotExist, m, events)
    ensures var w := Run(CreateIfNotExist, m, events);
      var w' := After(CreateIfNotExist, w, Served(fault));
      && (forall id :: id in w.st.objects ==> id in w'.st.objects && w'.st.objects[id] == w.st.objects[id])
      && (forall id :: id in w'.st.objects ==> id in w.st.objects || id == m.leaf.id)
  {
    InvRun(CreateIfNotExist, m, events);
  }
}
