/**
 What client/client.go does to a rendered object before an update (fields carried over
 from the live object) and when it vetoes the update.
 */
module Client {
  import opened Wrappers
  import opened Kube

  const REVISION := "deployment.kubernetes.io/revision"

  /** Reading `spec.clusterIP` as a string: None when not found. */
  function ReadClusterIP(s: Spec): Result<Option<string>, Error> {
    match s
    case NoSpec => Ok(None)
    case NullSpec => Ok(None)
    case NotMap(_) => Err(MalformedClusterIP)
    case Fields(Absent, _) => Ok(None)
    case Fields(Text(v), _) => Ok(Some(v))
    case Fields(NotText(_), _) => Err(MalformedClusterIP)
  }

  /** Writing `spec.clusterIP`: a missing spec is created, one that is not a map is an error. */
  function WriteClusterIP(s: Spec, v: string): Result<Spec, Error> {
    match s
    case NoSpec => Ok(Fields(Text(v), ""))
    case NullSpec => Err(SpecNotMap)
    case NotMap(_) => Err(SpecNotMap)
    case Fields(_, others) => Ok(Fields(Text(v), others))
  }

  /** The rendered object after a preparation, and the error that stopped it. */
  datatype Preparation = Preparation(updated: Object, err: Option<Error>)

  function PrepareService(current: Object, updated: Object): Preparation {
    if !IsService(updated) then Preparation(updated, None)
    else
      match ReadClusterIP(current.spec)
      case Err(e) => Preparation(updated, Some(e))
      case Ok(None) => Preparation(updated, None)
      case Ok(Some(v)) =>
        match WriteClusterIP(updated.spec, v)
        case Err(e) => Preparation(updated, Some(e))
        case Ok(spec) => Preparation(updated.(spec := spec), None)
  }

  function Annotated(o: Object): StringMap {
    if o.annotations.Some? then o.annotations.value else map[]
  }

  function Labelled(o: Object): StringMap {
    if o.labels.Some? then o.labels.value else map[]
  }

  /** A missing key of a Go map reads as the empty string. */
  function Revision(o: Object): string {
    if REVISION in Annotated(o) then Annotated(o)[REVISION] else ""
  }

  function PrepareDeployment(current: Object, updated: Object): Object {
    if IsDeployment(updated) && current.annotations.Some? then
      updated.(annotations := Some(Annotated(updated)[REVISION := Revision(current)]))
    else updated
  }

  function Prepare(current: Object, updated: Object): Preparation {
    var p := PrepareService(current, updated.(resourceVersion := current.resourceVersion));
    if p.err.Some? then p else Preparation(PrepareDeployment(current, p.updated), None)
  }

  /** Whether an update is needed; absent and empty maps are the same. */
  function CheckServiceAccount(current: Object, updated: Object): Result<bool, Error> {
    if !IsServiceAccount(updated) then Ok(true)
    else if !current.decodes || !updated.decodes then Err(NotServiceAccount)
    else Ok(!(
      && current.id.name == updated.id.name
      && current.id.namespace == updated.id.namespace
      && Labelled(current) == Labelled(updated)
      && Annotated(current) == Annotated(updated)))
  }

  /** When the update preparations fail, in terms of the two objects. */
  predicate Unpreparable(current: Object, updated: Object) {
    IsService(updated) && match ReadClusterIP(current.spec)
      case Err(_) => true
      case Ok(ip) => ip.Some? && !updated.spec.Fields? && !updated.spec.NoSpec?
  }

  /**
   What a preparation does: it fails exactly on the malformed Services above; it always
   takes over the live resource version; on success the live cluster IP of a Service and
   the live revision of an annotated Deployment are in the prepared object; and
   everything else is as rendered.
   */
  lemma PreparationExact(current: Object, updated: Object)
    ensures Prepare(current, updated).err.Some? <==> Unpreparable(current, updated)
    ensures var p := Prepare(current, updated).updated;
      && p.resourceVersion == current.resourceVersion
      && p.id == updated.id && p.labels == updated.labels && p.rest == updated.rest
      && p.decodes == updated.decodes
      && (forall k :: k != REVISION ==>
           (k in Annotated(p) <==> k in Annotated(updated)) &&
           (k in Annotated(p) ==> Annotated(p)[k] == Annotated(updated)[k]))
      && (p.spec.Fields? && updated.spec.Fields? ==> p.spec.others == updated.spec.others)
      && (!IsService(updated) ==> p.spec == updated.spec)
      && (!IsDeployment(updated) ==> p.annotations == updated.annotations)
    ensures var p := Prepare(current, updated).updated;
      Prepare(current, updated).err.None? ==>
        && (IsService(updated) && ReadClusterIP(current.spec).value.Some? ==>
             ReadClusterIP(p.spec) == ReadClusterIP(current.spec))
        && (IsService(updated) && ReadClusterIP(current.spec).value.None? ==> p.spec == updated.spec)
        && (IsDeployment(updated) && current.annotations.Some? ==>
             REVISION in Annotated(p) && Annotated(p)[REVISION] == Revision(current))
        && (IsDeployment(updated) && current.annotations.None? ==>
             p.annotations == updated.annotations)
  {
  }

  /** The spec of a prepared Service, by what the live and the rendered spec look like. */
  lemma ServiceSpecs(current: Object, updated: Object)
    requires updated.id.apiVersion == "v1" && updated.id.kind == "Service"
    ensures var p := Prepare(current, updated);
      match current.spec
      case NoSpec => p.err == None && p.updated.spec == updated.spec
      case NullSpec => p.err == None && p.updated.spec == updated.spec
      case Fields(Absent, _) => p.err == None && p.updated.spec == updated.spec
      case NotMap(_) => p.err == Some(MalformedClusterIP)
      case Fields(NotText(_), _) => p.err == Some(MalformedClusterIP)
      case Fields(Text(live), _) =>
        match updated.spec
        case NoSpec => p.err == None && p.updated.spec == Fields(Text(live), "")
        case Fields(_, others) => p.err == None && p.updated.spec == Fields(Text(live), others)
        case _ => p.err == Some(SpecNotMap)
    ensures Prepare(current, updated).err.Some? ==> Prepare(current, updated).updated.spec == updated.spec
  {
  }

  /** The annotations of a prepared Deployment: the live revision beside those rendered. */
  lemma DeploymentAnnotations(current: Object, updated: Object)
    requires updated.id.apiVersion == "apps/v1" || updated.id.apiVersion == "v1beta2"
    requires updated.id.kind == "Deployment"
    ensures var p := Prepare(current, updated);
      && p.err == None && p.updated.spec == updated.spec
      && match current.annotations
         case None => p.updated.annotations == updated.annotations
         case Some(live) =>
           var key := "deployment.kubernetes.io/revision";
           var rendered := if updated.annotations == None then map[] else updated.annotations.value;
           p.updated.annotations == Some(rendered[key := if key in live then live[key] else ""])
  {
    assert |"Service"| != |"Deployment"|;
  }

  /** Any other object is prepared by taking over the resource version, and nothing else. */
  lemma OtherKinds(current: Object, updated: Object)
    requires updated.id.apiVersion == "v1" ==> updated.id.kind != "Service"
    requires updated.id.apiVersion == "apps/v1" || updated.id.apiVersion == "v1beta2" ==> updated.id.kind != "Deployment"
    ensures Prepare(current, updated) == Preparation(updated.(resourceVersion := current.resourceVersion), None)
  {
  }

  /** Equal maps of strings, where none is as good as an empty one. */
  predicate SameEntries(a: Option<StringMap>, b: Option<StringMap>) {
    || a == b
    || (a == None && b == Some(map[]))
    || (a == Some(map[]) && b == None)
  }

  /** Which updates are needed: all but those of decodable ServiceAccounts whose metadata is as it was. */
  lemma NeededUpdates(current: Object, updated: Object)
    ensures var account := updated.id.apiVersion == "v1" && updated.id.kind == "ServiceAccount";
      match CheckServiceAccount(current, updated)
      case Err(e) => account && e == NotServiceAccount && !(current.decodes && updated.decodes)
      case Ok(needed) =>
        && (account ==> current.decodes && updated.decodes)
        && (!needed <==>
             && account
             && current.id.name == updated.id.name && current.id.namespace == updated.id.namespace
             && SameEntries(current.labels, updated.labels) && SameEntries(current.annotations, updated.annotations))
  {
  }

  /** Whatever comes of a preparation, it addresses the object that it was read from. */
  lemma PreparedIdentity(current: Object, updated: Object)
    ensures var p := Prepare(current, updated).updated;
      p.id == updated.id && p.resourceVersion == current.resourceVersion
  {
  }

  /** A rendered object: the code keeps a pointer to it and changes it in place. */
  class Unstructured {
    var content: Object

    constructor (content: Object)
      ensures this.content == content
    {
      this.content := content;
    }
  }

  method PrepareServiceForUpdate(current: Object, updated: Unstructured) returns (err: Option<Error>)
    modifies updated
    ensures Preparation(updated.content, err) == PrepareService(current, old(updated.content))
  {
    err := None;
    if IsService(updated.content) {
      var clusterIP := ReadClusterIP(current.spec);
      if clusterIP.Err? {
        return Some(clusterIP.error);
      }
      if clusterIP.value.Some? {
        var spec := WriteClusterIP(updated.content.spec, clusterIP.value.value);
        if spec.Err? {
          return Some(spec.error);
        }
        updated.content := updated.content.(spec := spec.value);
      }
    }
  }

  method PrepareDeploymentForUpdate(current: Object, updated: Unstructured) returns (err: Option<Error>)
    modifies updated
    ensures err.None?
    ensures updated.content == PrepareDeployment(current, old(updated.content))
  {
    if IsDeployment(updated.content) {
      var annotations := updated.content.annotations;
      if annotations.None? {
        annotations := Some(map[]);
      }
      if current.annotations.Some? {
        annotations := Some(annotations.value[REVISION := Revision(current)]);
        updated.content := updated.content.(annotations := annotations);
      }
    }
    err := None;
  }

  // ---- Configured lists of preparations and checks ----

  type UpdatePreparation = (Object, Object) -> Preparation

  type UpdateCheck = (Object, Object) -> Result<bool, Error>

  const DEFAULT_PREPARATIONS: seq<UpdatePreparation> := [
    (current: Object, updated: Object) => PrepareService(current, updated),
    (current: Object, updated: Object) => Preparation(PrepareDeployment(current, updated), None)]

  const DEFAULT_CHECKS: seq<UpdateCheck> := [
    (current: Object, updated: Object) => CheckServiceAccount(current, updated)]

  /** One preparation after another, each on what the last has left, up to the first that fails. */
  function PrepareAll(ps: seq<UpdatePreparation>, current: Object, updated: Object): Preparation {
    if ps == [] then Preparation(updated, None)
    else
      var p := ps[0](current, updated);
      if p.err.Some? then p else PrepareAll(ps[1..], current, p.updated)
  }

  /** The first check that fails, or finds no need to update, decides. */
  function CheckAll(cs: seq<UpdateCheck>, current: Object, updated: Object): Result<bool, Error> {
    if cs == [] then Ok(true)
    else
      var r := cs[0](current, updated);
      if r == Ok(true) then CheckAll(cs[1..], current, updated) else r
  }

  /** What the preparations of a list leave behind, one after another, up to the first that fails. */
  ghost predicate PreparedBy(ps: seq<UpdatePreparation>, current: Object, updated: Object, stages: seq<Preparation>) {
    && 0 < |stages| <= |ps| + 1 && stages[0] == Preparation(updated, None)
    && (forall i :: 0 <= i < |stages| - 1 ==> stages[i].err.None? && stages[i + 1] == ps[i](current, stages[i].updated))
    && (|stages| == |ps| + 1 || stages[|stages| - 1].err.Some?)
  }

  /** A list of preparations ends as its last one does: after all of them, or at the first that fails. */
  lemma {:induction false} PreparationsInOrder(ps: seq<UpdatePreparation>, current: Object, updated: Object)
    returns (stages: seq<Preparation>)
    ensures PreparedBy(ps, current, updated, stages) && PrepareAll(ps, current, updated) == stages[|stages| - 1]
  {
    var start := Preparation(updated, None);
    if ps == [] {
      stages := [start];
    } else {
      var p := ps[0](current, updated);
      if p.err.Some? {
        stages := [start, p];
      } else {
        var rest := PreparationsInOrder(ps[1..], current, p.updated);
        stages := [start] + rest;
        forall i | 0 <= i < |stages| - 1
          ensures stages[i].err.None? && stages[i + 1] == ps[i](current, stages[i].updated)
        {
          assert stages[i + 1] == rest[i];
          if i > 0 {
            assert stages[i] == rest[i - 1] && ps[i] == ps[1..][i - 1];
          }
        }
      }
    }
  }

  /** The verdict of a list of checks: that of the first which is not a plain need to update. */
  lemma {:induction false} ChecksInOrder(cs: seq<UpdateCheck>, current: Object, updated: Object) returns (k: nat)
    ensures k <= |cs| && forall i :: 0 <= i < k ==> cs[i](current, updated) == Ok(true)
    ensures k < |cs| ==> cs[k](current, updated) != Ok(true)
    ensures CheckAll(cs, current, updated) == if k < |cs| then cs[k](current, updated) else Ok(true)
  {
    k := 0;
    if cs != [] && cs[0](current, updated) == Ok(true) {
      var j := ChecksInOrder(cs[1..], current, updated);
      k := j + 1;
      assert forall i :: 0 < i < |cs| ==> cs[i] == cs[1..][i - 1];
    }
  }

  /** The default lists are what the rest of this model is about. */
  lemma DefaultsAreUsed(current: Object, updated: Object)
    ensures Prepare(current, updated) ==
      PrepareAll(DEFAULT_PREPARATIONS, current, updated.(resourceVersion := current.resourceVersion))
    ensures CheckServiceAccount(current, updated) == CheckAll(DEFAULT_CHECKS, current, updated)
  {
    var stamped := updated.(resourceVersion := current.resourceVersion);
    var one, two := DEFAULT_PREPARATIONS[0], DEFAULT_PREPARATIONS[1];
    assert DEFAULT_PREPARATIONS == [one, two];
    assert [one, two][1..] == [two] && [two][1..] == [];
    var p := one(current, stamped);
    var q := two(current, p.updated);
    assert PrepareAll([], current, q.updated) == q;
    assert PrepareAll([two], current, p.updated) == q;
    assert DEFAULT_CHECKS[1..] == [];
  }

  method PrepareUnstructuredForUpdate(preparations: seq<UpdatePreparation>, current: Object, updated: Unstructured)
    returns (err: Option<Error>)
    modifies updated
    ensures Preparation(updated.content, err) ==
      PrepareAll(preparations, current, old(updated.content).(resourceVersion := current.resourceVersion))
  {
    updated.content := updated.content.(resourceVersion := current.resourceVersion);
    ghost var whole := PrepareAll(preparations, current, updated.content);
    for i := 0 to |preparations|
      invariant whole == PrepareAll(preparations[i..], current, updated.content)
    {
      assert preparations[i..][0] == preparations[i] && preparations[i..][1..] == preparations[i + 1..];
      var p := preparations[i](current, updated.content);
      updated.content := p.updated;
      if p.err.Some? {
        return p.err;
      }
    }
    err := None;
  }

  method CheckUnstructuredForUpdate(checks: seq<UpdateCheck>, current: Object, updated: Object)
    returns (r: Result<bool, Error>)
    ensures r == CheckAll(checks, current, updated)
  {
    for i := 0 to |checks|
      invariant CheckAll(checks, current, updated) == CheckAll(checks[i..], current, updated)
    {
      assert checks[i..][0] == checks[i] && checks[i..][1..] == checks[i + 1..];
      r := checks[i](current, updated);
      if r != Ok(true) {
        return;
      }
    }
    r := Ok(true);
  }
}
