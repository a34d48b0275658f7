/**
 The three object actions of rollout/actions.go.  `Next` serves one API call at a time,
 which is what other writers can interleave with; the methods are the code's own form.
 */
module Actions {
  import opened Wrappers
  import opened Kube
  import opened Client

  datatype Action = CreateOrUpdate | CreateIfNotExist | DeleteIfExist

  /** Where an action stands between two API calls. */
  datatype Pc = Start | Missing | Have(current: Object) | Done(err: Option<Error>)

  /** An action under way on a rendered object (`leaf`) against a server. */
  datatype Micro = Micro(pc: Pc, leaf: Object, st: Store)

  function VerbOf(a: Action, pc: Pc): Verb {
    match pc
    case Start => if a.DeleteIfExist? then DeleteCall else GetCall
    case Missing => CreateCall
    case Have(_) => UpdateCall
    case Done(_) => GetCall
  }

  function NextStart(a: Action, leaf: Object, st: Store, fault: Fault): Micro {
    if a.DeleteIfExist? then
      var (after, err) := ApiDelete(st, leaf.id, fault);
      Micro(Done(if err == Some(NotFound) then None else err), leaf, after)
    else
      match ApiGet(st, leaf.id, fault)
      case Err(NotFound) => Micro(Missing, leaf, Tick(st))
      case Err(e) => Micro(Done(Some(e)), leaf, Tick(st))
      case Ok(current) =>
        Micro(if a.CreateOrUpdate? then Have(current) else Done(None), leaf, Tick(st))
  }

  /** UpdateWithCurrent: prepare, check, and only then call the server. */
  function NextUpdate(current: Object, leaf: Object, st: Store, fault: Fault): Micro {
    var p := Prepare(current, leaf);
    if p.err.Some? then Micro(Done(p.err), p.updated, st)
    else
      match CheckServiceAccount(current, p.updated)
      case Err(e) => Micro(Done(Some(e)), p.updated, st)
      case Ok(false) => Micro(Done(None), p.updated, st)
      case Ok(true) =>
        var (after, err) := ApiUpdate(st, p.updated, fault);
        Micro(Done(err), p.updated, after)
  }

  function Next(a: Action, pc: Pc, leaf: Object, st: Store, fault: Fault): Micro {
    match pc
    case Start => NextStart(a, leaf, st, fault)
    case Missing =>
      var (after, err) := ApiCreate(st, leaf, fault);
      Micro(Done(err), leaf, after)
    case Have(current) => NextUpdate(current, leaf, st, fault)
    case Done(_) => Micro(pc, leaf, st)
  }

  function NextServed(a: Action, pc: Pc, leaf: Object, st: Store, faults: Faults): Micro {
    Next(a, pc, leaf, st, faults(st, VerbOf(a, pc), leaf.id))
  }

  /** A whole action, when nobody else calls the server meanwhile: at most two calls. */
  function Perform(a: Action, leaf: Object, st: Store, faults: Faults): (m: Micro)
    ensures m.pc.Done?
  {
    var first := NextServed(a, Start, leaf, st, faults);
    if first.pc.Done? then first else NextServed(a, first.pc, first.leaf, first.st, faults)
  }

  // ---- What a whole action comes to, whatever calls are refused ----

  /** A create: it is refused, or the server takes what it can decode and what carries no version. */
  ghost predicate CreateDid(leaf: Object, st: Store, refused: Fault, err: Option<Error>, objects: map<Identity, Object>)
  {
    && (err.None? <==> refused.None? && WellFormed(leaf) && leaf.resourceVersion.None?)
    && (refused.Some? ==> err == Some(Refused(refused.value)))
    && objects == if err.None? then st.objects[leaf.id := leaf.(resourceVersion := Some(st.time + 1))] else st.objects
  }

  /** An update: prepared, needed or not, refused, or taken if the server can decode it. */
  ghost predicate UpdateDid(current: Object, leaf: Object, st: Store, refused: Fault, err: Option<Error>, updated: Object,
      objects: map<Identity, Object>)
  {
    var p := Prepare(current, leaf);
    var needed := CheckServiceAccount(current, p.updated);
    && updated == p.updated
    && (p.err.Some? ==> err == p.err && objects == st.objects)
    && (p.err.None? ==> match needed
         case Err(e) => err == Some(e) && objects == st.objects
         case Ok(false) => err == None && objects == st.objects
         case Ok(true) =>
           && (err.None? <==> refused.None? && WellFormed(p.updated))
           && (refused.Some? ==> err == Some(Refused(refused.value)))
           && objects == if err.None? then st.objects[leaf.id := p.updated.(resourceVersion := Some(st.time + 1))]
                         else st.objects)
  }

  /**
   The outcome of an action on `leaf`: its error, the rendered object afterwards, and what is
   then stored.  A refused call ends it with the server's reason and changes nothing stored.
   */
  ghost predicate ActionDid(a: Action, leaf: Object, st: Store, faults: Faults,
      err: Option<Error>, updated: Object, objects: map<Identity, Object>)
  {
    var id := leaf.id;
    if a.DeleteIfExist? then
      && updated == leaf
      && (match faults(st, DeleteCall, id)
          case Some(reason) => err == Some(Refused(reason)) && objects == st.objects
          case None => err == None && objects == st.objects - {id})
    else match faults(st, GetCall, id)
      case Some(reason) => err == Some(Refused(reason)) && updated == leaf && objects == st.objects
      case None =>
        if id !in st.objects then
          updated == leaf && CreateDid(leaf, st, faults(Tick(st), CreateCall, id), err, objects)
        else if a.CreateIfNotExist? then err == None && updated == leaf && objects == st.objects
        else UpdateDid(st.objects[id], leaf, st, faults(Tick(st), UpdateCall, id), err, updated, objects)
  }

  lemma UpdateOutcome(current: Object, leaf: Object, st: Store, refused: Fault)
    requires leaf.id in st.objects && st.objects[leaf.id] == current
    ensures var m := NextUpdate(current, leaf, Tick(st), refused);
      m.pc.Done? && UpdateDid(current, leaf, st, refused, m.pc.err, m.leaf, m.st.objects)
  {
    PreparedIdentity(current, leaf);
  }

  /** Every action has that outcome, on every server, whatever calls it refuses. */
  lemma ActionOutcome(a: Action, leaf: Object, st: Store, faults: Faults)
    ensures var m := Perform(a, leaf, st, faults);
      ActionDid(a, leaf, st, faults, m.pc.err, m.leaf, m.st.objects)
  {
    if !a.DeleteIfExist? && faults(st, GetCall, leaf.id).None? {
      if leaf.id !in st.objects {
        var m := NextServed(a, Missing, leaf, Tick(st), faults);
        assert Perform(a, leaf, st, faults) == m;
      } else if a.CreateOrUpdate? {
        UpdateOutcome(st.objects[leaf.id], leaf, st, faults(Tick(st), UpdateCall, leaf.id));
      }
    }
  }

  /** Without an error the object is stored, or after a deletion it is not. */
  lemma SuccessMeans(a: Action, leaf: Object, st: Store, faults: Faults)
    ensures var m := Perform(a, leaf, st, faults);
      && m.leaf.id == leaf.id
      && (m.pc.err.None? ==> (leaf.id in m.st.objects <==> !a.DeleteIfExist?))
      && (forall id :: id != leaf.id ==> (id in m.st.objects <==> id in st.objects))
  {
    ActionOutcome(a, leaf, st, faults);
    if leaf.id in st.objects {
      PreparedIdentity(st.objects[leaf.id], leaf);
    }
  }

  method UpdateWithCurrent(cluster: Cluster, current: Object, updated: Unstructured) returns (err: Option<Error>)
    modifies cluster, updated
    ensures Micro(Done(err), updated.content, cluster.store) ==
      NextServed(CreateOrUpdate, Have(current), old(updated.content), old(cluster.store), cluster.faults)
  {
    DefaultsAreUsed(current, updated.content);
    err := PrepareUnstructuredForUpdate(DEFAULT_PREPARATIONS, current, updated);
    PreparationExact(current, old(updated.content));
    if err.Some? {
      return;
    }
    DefaultsAreUsed(current, updated.content);
    var needUpdate := CheckUnstructuredForUpdate(DEFAULT_CHECKS, current, updated.content);
    if needUpdate.Err? {
      return Some(needUpdate.error);
    }
    if !needUpdate.value {
      return None;
    }
    err := cluster.Update(updated.content);
  }

  method ExecuteCreateOrUpdate(cluster: Cluster, u: Unstructured) returns (err: Option<Error>)
    modifies cluster, u
    ensures Micro(Done(err), u.content, cluster.store) ==
      Perform(CreateOrUpdate, old(u.content), old(cluster.store), cluster.faults)
    ensures var st, id := old(cluster.store), old(u.content.id);
      && (cluster.faults(st, GetCall, id).Some? ==>
           && err == Some(Refused(cluster.faults(st, GetCall, id).value))
           && u.content == old(u.content) && cluster.store.objects == st.objects)
      && (err.None? ==> id in cluster.store.objects)
    ensures ActionDid(CreateOrUpdate, old(u.content), old(cluster.store), cluster.faults, err, u.content, cluster.store.objects)
  {
    ActionOutcome(CreateOrUpdate, u.content, cluster.store, cluster.faults);
    SuccessMeans(CreateOrUpdate, u.content, cluster.store, cluster.faults);
    var current := cluster.Get(u.content.id);
    if current == Err(NotFound) {
      err := cluster.Create(u.content);
      return;
    }
    if current.Err? {
      return Some(current.error);
    }
    err := UpdateWithCurrent(cluster, current.value, u);
  }

  method ExecuteCreateIfNotExist(cluster: Cluster, u: Unstructured) returns (err: Option<Error>)
    modifies cluster
    ensures Micro(Done(err), u.content, cluster.store) ==
      Perform(CreateIfNotExist, u.content, old(cluster.store), cluster.faults)
    ensures var st, id := old(cluster.store), old(u.content.id);
      && (cluster.faults(st, GetCall, id).Some? ==>
           && err == Some(Refused(cluster.faults(st, GetCall, id).value))
           && u.content == old(u.content) && cluster.store.objects == st.objects)
      && (err.None? ==> id in cluster.store.objects)
    ensures ActionDid(CreateIfNotExist, old(u.content), old(cluster.store), cluster.faults, err, u.content, cluster.store.objects)
  {
    ActionOutcome(CreateIfNotExist, u.content, cluster.store, cluster.faults);
    SuccessMeans(CreateIfNotExist, u.content, cluster.store, cluster.faults);
    var current := cluster.Get(u.content.id);
    if current == Err(NotFound) {
      err := cluster.Create(u.content);
      return;
    }
    if current.Err? {
      return Some(current.error);
    }
    err := None;
  }

  method ExecuteDeleteIfExist(cluster: Cluster, u: Unstructured) returns (err: Option<Error>)
    modifies cluster
    ensures Micro(Done(err), u.content, cluster.store) ==
      Perform(DeleteIfExist, u.content, old(cluster.store), cluster.faults)
    ensures var st, id := old(cluster.store), old(u.content.id);
      && (cluster.faults(st, DeleteCall, id).Some? ==>
           && err == Some(Refused(cluster.faults(st, DeleteCall, id).value)) && cluster.store.objects == st.objects)
      && (cluster.faults(st, DeleteCall, id).None? ==> err == None && cluster.store.objects == st.objects - {id})
  {
    ActionOutcome(DeleteIfExist, u.content, cluster.store, cluster.faults);
    err := cluster.Delete(u.content.id);
    if err == Some(NotFound) {
      return None;
    }
  }
}
