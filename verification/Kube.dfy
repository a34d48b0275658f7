/**
 The part of Kubernetes that the rollout talks to: objects, and an API server that
 stores them under their identity, stamps every write with a fresh resource version,
 refuses to create what exists or already carries a resource version, compares resource
 versions on update, and stores nothing that it cannot decode.
 */
module Kube {
  import opened Wrappers

  datatype Identity = Identity(apiVersion: string, kind: string, namespace: string, name: string)

  type StringMap = map<string, string>

  /** The value found under `spec.clusterIP`. */
  datatype Field = Absent | Text(text: string) | NotText(raw: string)

  /** The value found under `spec`. */
  datatype Spec =
    | NoSpec
    | NullSpec
    | NotMap(raw: string)
    | Fields(clusterIP: Field, others: string)

  /**
   An unstructured object, cut into the fields that the client code looks at and `rest`.
   `decodes` says whether it decodes as a core/v1 ServiceAccount.
   */
  datatype Object = Object(
    id: Identity,
    resourceVersion: Option<nat>,
    labels: Option<StringMap>,
    annotations: Option<StringMap>,
    spec: Spec,
    decodes: bool,
    rest: string)

  datatype Error =
    | NotFound
    | AlreadyExists
    | Conflict
    | Refused(reason: string)
    | Invalid
    | VersionSet
    | MalformedClusterIP
    | SpecNotMap
    | NotServiceAccount
    | UnknownAction(action: string)
    | UnknownObject(objectName: string)
    | MalformedItem
    | Rejected(check: string)

  predicate IsService(o: Object) {
    o.id.apiVersion == "v1" && o.id.kind == "Service"
  }

  predicate IsDeployment(o: Object) {
    (o.id.apiVersion == "apps/v1" || o.id.apiVersion == "v1beta2") && o.id.kind == "Deployment"
  }

  predicate IsServiceAccount(o: Object) {
    o.id.apiVersion == "v1" && o.id.kind == "ServiceAccount"
  }

  /** What the server can decode as its kind; it stores nothing else. */
  predicate WellFormed(o: Object) {
    && (IsService(o) ==> o.spec.NoSpec? || (o.spec.Fields? && !o.spec.clusterIP.NotText?))
    && (IsServiceAccount(o) ==> o.decodes)
  }

  datatype Verb = GetCall | CreateCall | UpdateCall | DeleteCall

  /** `time` counts the calls served; it is the source of fresh resource versions. */
  datatype Store = Store(objects: map<Identity, Object>, time: nat)

  /** A call either goes through (None) or is refused for some reason. */
  type Fault = Option<string>

  /** Which calls are refused, given the state of the server when they arrive. */
  type Faults = (Store, Verb, Identity) -> Fault

  function Tick(st: Store): Store {
    st.(time := st.time + 1)
  }

  function Stored(st: Store, o: Object): Store {
    Store(st.objects[o.id := o.(resourceVersion := Some(st.time))], st.time + 1)
  }

  function ApiGet(st: Store, id: Identity, fault: Fault): Result<Object, Error> {
    if fault.Some? then Err(Refused(fault.value))
    else if id in st.objects then Ok(st.objects[id])
    else Err(NotFound)
  }

  function ApiCreate(st: Store, o: Object, fault: Fault): (Store, Option<Error>) {
    if fault.Some? then (Tick(st), Some(Refused(fault.value)))
    else if !WellFormed(o) then (Tick(st), Some(Invalid))
    else if o.resourceVersion.Some? then (Tick(st), Some(VersionSet))
    else if o.id in st.objects then (Tick(st), Some(AlreadyExists))
    else (Stored(st, o), None)
  }

  /** An update without a resource version is unconditional. */
  function ApiUpdate(st: Store, o: Object, fault: Fault): (Store, Option<Error>) {
    if fault.Some? then (Tick(st), Some(Refused(fault.value)))
    else if !WellFormed(o) then (Tick(st), Some(Invalid))
    else if o.id !in st.objects then (Tick(st), Some(NotFound))
    else if o.resourceVersion.Some? && o.resourceVersion != st.objects[o.id].resourceVersion then
      (Tick(st), Some(Conflict))
    else (Stored(st, o), None)
  }

  function ApiDelete(st: Store, id: Identity, fault: Fault): (Store, Option<Error>) {
    if fault.Some? then (Tick(st), Some(Refused(fault.value)))
    else if id !in st.objects then (Tick(st), Some(NotFound))
    else (Store(st.objects - {id}, st.time + 1), None)
  }

  /** What the server guarantees of its contents: right key, decodable, and a version from the past. */
  ghost predicate ValidStore(st: Store) {
    forall id :: id in st.objects ==>
      && st.objects[id].id == id
      && WellFormed(st.objects[id])
      && st.objects[id].resourceVersion.Some?
      && st.objects[id].resourceVersion.value < st.time
  }

  /** Two servers that differ at most in one object. */
  ghost predicate SameBut(id: Identity, st: Store, after: Store) {
    forall x :: x != id ==>
      && (x in after.objects <==> x in st.objects)
      && (x in st.objects ==> after.objects[x] == st.objects[x])
  }

  lemma StoredIsLocal(st: Store, o: Object)
    ensures SameBut(o.id, st, Stored(st, o))
    ensures ValidStore(st) && WellFormed(o) ==> ValidStore(Stored(st, o))
  {
  }

  /** A write touches the object that it addresses, and keeps the server's guarantees. */
  lemma CreateIsLocal(st: Store, o: Object, fault: Fault)
    ensures SameBut(o.id, st, ApiCreate(st, o, fault).0)
    ensures ValidStore(st) ==> ValidStore(ApiCreate(st, o, fault).0)
  {
    StoredIsLocal(st, o);
  }

  lemma UpdateIsLocal(st: Store, o: Object, fault: Fault)
    ensures SameBut(o.id, st, ApiUpdate(st, o, fault).0)
    ensures ValidStore(st) ==> ValidStore(ApiUpdate(st, o, fault).0)
  {
    StoredIsLocal(st, o);
  }

  function Erase(o: Object): Object {
    o.(resourceVersion := None)
  }

  /** An object up to which resource version it carries, but not up to whether it carries one. */
  function Blur(o: Object): Object {
    if o.resourceVersion.Some? then o.(resourceVersion := Some(0)) else o
  }

  /** The object stored under `id`, up to its resource version. */
  function View(st: Store, id: Identity): Option<Object> {
    if id in st.objects then Some(Erase(st.objects[id])) else None
  }

  /** Equality of clusters up to resource versions. */
  ghost predicate SameCluster(s: Store, t: Store) {
    forall id :: View(s, id) == View(t, id)
  }

  /** The server as the client code sees it: every call reads or changes `store`. */
  class Cluster {
    var store: Store
    const faults: Faults

    constructor (store: Store, faults: Faults)
      ensures this.store == store && this.faults == faults
    {
      this.store := store;
      this.faults := faults;
    }

    method Get(id: Identity) returns (r: Result<Object, Error>)
      modifies this
      ensures r == ApiGet(old(store), id, faults(old(store), GetCall, id))
      ensures store == Tick(old(store))
    {
      r := ApiGet(store, id, faults(store, GetCall, id));
      store := Tick(store);
    }

    method Create(o: Object) returns (err: Option<Error>)
      modifies this
      ensures (store, err) == ApiCreate(old(store), o, faults(old(store), CreateCall, o.id))
    {
      var (st, e) := ApiCreate(store, o, faults(store, CreateCall, o.id));
      store, err := st, e;
    }

    method Update(o: Object) returns (err: Option<Error>)
      modifies this
      ensures (store, err) == ApiUpdate(old(store), o, faults(old(store), UpdateCall, o.id))
    {
      var (st, e) := ApiUpdate(store, o, faults(store, UpdateCall, o.id));
      store, err := st, e;
    }

    method Delete(id: Identity) returns (err: Option<Error>)
      modifies this
      ensures (store, err) == ApiDelete(old(store), id, faults(old(store), DeleteCall, id))
    {
      var (st, e) := ApiDelete(store, id, faults(store, DeleteCall, id));
      store, err := st, e;
    }
  }
}
