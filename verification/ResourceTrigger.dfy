/**
 The resource trigger of trigger/resource/resource.go: informer events, handlers, a work
 queue and one worker.  The queue has the documented contract of client-go's: a key is
 queued once, a key being processed is not handed out again, and a key added meanwhile is
 queued when it is done.
 */
module ResourceTrigger {
  import opened Wrappers
  import opened KeyTransformation

  // ---- The work queue ----

  datatype Queue = Queue(order: seq<string>, dirty: set<string>, processing: set<string>)

  function QueueAdd(q: Queue, key: string): Queue {
    if key in q.dirty then q
    else q.(dirty := q.dirty + {key}, order := if key in q.processing then q.order else q.order + [key])
  }

  function QueueGet(q: Queue): Queue
    requires q.order != []
  {
    Queue(q.order[1..], q.dirty - {q.order[0]}, q.processing + {q.order[0]})
  }

  function QueueDone(q: Queue, key: string): Queue {
    q.(processing := q.processing - {key}, order := if key in q.dirty then q.order + [key] else q.order)
  }

  ghost predicate ValidQueue(q: Queue) {
    && (forall i, j :: 0 <= i < j < |q.order| ==> q.order[i] != q.order[j])
    && (forall k :: k in q.order <==> k in q.dirty && k !in q.processing)
  }

  lemma QueueKeepsValid(q: Queue, key: string)
    requires ValidQueue(q)
    ensures ValidQueue(QueueAdd(q, key))
    ensures q.order != [] ==> ValidQueue(QueueGet(q)) && q.order[0] in q.dirty && q.order[0] !in q.processing
    ensures key in q.processing ==> ValidQueue(QueueDone(q, key))
  {
  }

  // ---- The machine ----

  /** The worker waits, has taken a key, has read a version (or nothing) for it, or is about to call Done. */
  datatype Worker =
    | Waiting
    | Holding(key: string)
    | Syncing(key: string, read: Option<nat>)
    | Leaving(key: string)

  datatype State = State(
    cache: map<string, nat>,
    pending: seq<Event>,
    queue: Queue,
    delayed: set<string>,
    worker: Worker,
    synced: map<string, nat>)

  datatype Label =
    | CacheSet(key: string, version: nat)
    | CacheDelete(key: string)
    | Foreign(key: string)
    | Deliver
    | Take
    | Lookup
    | Succeed
    | Fail
    | Done
    | Fire(key: string)

  predicate Enabled(s: State, l: Label) {
    match l
    case CacheSet(_, _) => true
    case CacheDelete(k) => k in s.cache
    case Foreign(_) => true
    case Deliver => s.pending != []
    case Take => s.worker.Waiting? && s.queue.order != []
    case Lookup => s.worker.Holding?
    case Succeed => s.worker.Syncing?
    case Fail => s.worker.Syncing?
    case Done => s.worker.Leaving?
    case Fire(k) => k in s.delayed
  }

  function Enqueue(s: State, key: string): State {
    s.(queue := QueueAdd(s.queue, key))
  }

  function After(ts: seq<Transformation>, s: State, l: Label): State
    requires Enabled(s, l)
  {
    match l
    case CacheSet(k, v) =>
      s.(cache := s.cache[k := v],
         pending := s.pending + [if k in s.cache then Event.Updated(k, s.cache[k], v) else Event.Added(k)])
    case CacheDelete(k) => s.(cache := s.cache - {k}, pending := s.pending + [Event.Deleted(k)])
    case Foreign(k) => Enqueue(s, k)
    case Deliver =>
      var rest := s.(pending := s.pending[1..]);
      var k := Handled(ts, s.pending[0]);
      if k.Some? then Enqueue(rest, k.value) else rest
    case Take => s.(queue := QueueGet(s.queue), worker := Holding(s.queue.order[0]))
    case Lookup =>
      var k := s.worker.key;
      s.(worker := Syncing(k, if k in s.cache then Some(s.cache[k]) else None))
    case Succeed =>
      var k := s.worker.key;
      s.(worker := Leaving(k), synced := if s.worker.read.Some? then s.synced[k := s.worker.read.value] else s.synced)
    case Fail => s.(worker := Leaving(s.worker.key), delayed := s.delayed + {s.worker.key})
    case Done => s.(queue := QueueDone(s.queue, s.worker.key), worker := Waiting)
    case Fire(k) => Enqueue(s.(delayed := s.delayed - {k}), k)
  }

  const START := State(map[], [], Queue([], {}, {}), {}, Waiting, map[])

  ghost predicate IsRun(ts: seq<Transformation>, states: seq<State>, labels: seq<Label>) {
    && |states| == |labels| + 1
    && states[0] == START
    && forall i :: 0 <= i < |labels| ==> Enabled(states[i], labels[i]) && states[i + 1] == After(ts, states[i], labels[i])
  }

  // ---- No lost wakeup ----

  /** The handlers enqueue the key itself; without transformations that is every non-empty key. */
  predicate PassesUnchanged(ts: seq<Transformation>, key: string) {
    key != "" && TransformAll(ts, key) == key
  }

  predicate UpToDate(s: State, key: string) {
    key in s.cache ==> key in s.synced && s.synced[key] == s.cache[key]
  }

  ghost predicate Announced(ts: seq<Transformation>, s: State, key: string) {
    exists i :: 0 <= i < |s.pending| && Handled(ts, s.pending[i]) == Some(key)
  }

  predicate Underway(s: State, key: string) {
    s.worker == Holding(key) || (key in s.cache && s.worker == Syncing(key, Some(s.cache[key])))
  }

  /** Synced at the present version, and no sync of another version is about to replace that. */
  predicate Settled(s: State, key: string) {
    && UpToDate(s, key)
    && (key in s.cache && s.worker.Syncing? && s.worker.key == key ==> s.worker.read == Some(s.cache[key]))
  }

  ghost predicate NoLostWakeup(ts: seq<Transformation>, s: State, key: string) {
    || Settled(s, key)
    || Announced(ts, s, key)
    || key in s.queue.dirty
    || key in s.delayed
    || Underway(s, key)
  }

  ghost predicate Inv(ts: seq<Transformation>, s: State) {
    && ValidQueue(s.queue)
    && s.queue.processing == (if s.worker.Waiting? then {} else {s.worker.key})
    && forall key :: PassesUnchanged(ts, key) ==> NoLostWakeup(ts, s, key)
  }

  lemma AnnouncedLater(ts: seq<Transformation>, s: State, t: State, key: string)
    requires Announced(ts, s, key) && |s.pending| <= |t.pending| && t.pending[..|s.pending|] == s.pending
    ensures Announced(ts, t, key)
  {
  }

  lemma CacheStepKeeps(ts: seq<Transformation>, s: State, l: Label, key: string)
    requires PassesUnchanged(ts, key) && NoLostWakeup(ts, s, key)
    requires (l.CacheSet? || l.CacheDelete?) && Enabled(s, l)
    ensures NoLostWakeup(ts, After(ts, s, l), key)
  {
    var t := After(ts, s, l);
    if Announced(ts, s, key) {
      AnnouncedLater(ts, s, t, key);
    }
    if l.key == key && (key !in s.cache || key !in t.cache || s.cache[key] != t.cache[key]) {
      assert Handled(ts, t.pending[|s.pending|]) == Some(key);
    }
  }

  lemma DeliverKeeps(ts: seq<Transformation>, s: State, key: string)
    requires NoLostWakeup(ts, s, key) && Enabled(s, Deliver)
    ensures NoLostWakeup(ts, After(ts, s, Deliver), key)
  {
  }

  lemma WorkerStepKeeps(ts: seq<Transformation>, s: State, l: Label, key: string)
    requires NoLostWakeup(ts, s, key) && Enabled(s, l)
    requires !l.CacheSet? && !l.CacheDelete? && !l.Deliver?
    ensures NoLostWakeup(ts, After(ts, s, l), key)
  {
  }

  lemma InvStep(ts: seq<Transformation>, s: State, l: Label)
    requires Inv(ts, s) && Enabled(s, l)
    ensures Inv(ts, After(ts, s, l))
  {
    QueueKeepsValid(s.queue, "");
    match l {
      case Foreign(k) => QueueKeepsValid(s.queue, k);
      case Fire(k) => QueueKeepsValid(s.queue, k);
      case Done => QueueKeepsValid(s.queue, s.worker.key);
      case Deliver =>
        if Handled(ts, s.pending[0]).Some? {
          QueueKeepsValid(s.queue, Handled(ts, s.pending[0]).value);
        }
      case _ =>
    }
    forall key | PassesUnchanged(ts, key)
      ensures NoLostWakeup(ts, After(ts, s, l), key)
    {
      if l.CacheSet? || l.CacheDelete? {
        CacheStepKeeps(ts, s, l, key);
      } else if l.Deliver? {
        DeliverKeeps(ts, s, key);
      } else {
        WorkerStepKeeps(ts, s, l, key);
      }
    }
  }

  lemma {:induction false} InvRun(ts: seq<Transformation>, states: seq<State>, labels: seq<Label>, n: nat)
    requires IsRun(ts, states, labels) && n < |states|
    ensures Inv(ts, states[n])
  {
    if n > 0 {
      InvRun(ts, states, labels, n - 1);
      InvStep(ts, states[n - 1], labels[n - 1]);
    }
  }

  /**
   No lost wakeup: in every reachable state, a cached object whose version is not the last
   one synced successfully has an undelivered event that will enqueue it, or its key is
   queued, or waits for its retry, or the worker has taken it and not yet read another version.
   */
  lemma NoWakeupIsLost(ts: seq<Transformation>, states: seq<State>, labels: seq<Label>, n: nat, key: string)
    requires IsRun(ts, states, labels) && n < |states| && PassesUnchanged(ts, key)
    ensures var s := states[n];
      key in s.cache && (key !in s.synced || s.synced[key] != s.cache[key]) ==>
        Announced(ts, s, key) || key in s.queue.dirty || key in s.delayed || Underway(s, key)
  {
    InvRun(ts, states, labels, n);
  }

  predicate Quiet(s: State) {
    s.pending == [] && s.queue.order == [] && s.delayed == {} && s.worker.Waiting?
  }

  /** When nothing is left to do, every cached object has been synced at its present version. */
  lemma QuietMeansSynced(ts: seq<Transformation>, states: seq<State>, labels: seq<Label>, n: nat, key: string)
    requires IsRun(ts, states, labels) && n < |states| && PassesUnchanged(ts, key)
    requires Quiet(states[n])
    ensures UpToDate(states[n], key)
  {
    InvRun(ts, states, labels, n);
    assert key in states[n].queue.order <==> key in states[n].queue.dirty;
  }

  // ---- The loop comes to rest ----

  function Rank(w: Worker): nat {
    match w
    case Waiting => 0
    case Leaving(_) => 1
    case Syncing(_, _) => 2
    case Holding(_) => 3
  }

  function Load(s: State): nat {
    6 * |s.pending| + 6 * |s.delayed| + 5 * |s.queue.dirty| + Rank(s.worker)
  }

  predicate Internal(l: Label) {
    l.Deliver? || l.Take? || l.Lookup? || l.Succeed? || l.Done? || l.Fire?
  }

  lemma TakeUnloads(s: State)
    requires ValidQueue(s.queue) && Enabled(s, Take)
    ensures |QueueGet(s.queue).dirty| == |s.queue.dirty| - 1
  {
  }

  lemma AddLoads(q: Queue, key: string)
    ensures |QueueAdd(q, key).dirty| <= |q.dirty| + 1
  {
  }

  lemma StepsUnload(ts: seq<Transformation>, s: State, l: Label)
    requires Inv(ts, s) && Internal(l) && Enabled(s, l)
    ensures Load(After(ts, s, l)) < Load(s)
  {
    match l
    case Take => TakeUnloads(s);
    case Deliver =>
      if Handled(ts, s.pending[0]).Some? {
        AddLoads(s.queue, Handled(ts, s.pending[0]).value);
      }
    case Fire(k) =>
      AddLoads(s.queue, k);
      assert |s.delayed - {k}| == |s.delayed| - 1;
    case _ =>
  }

  /**
   While nothing happens outside and syncs succeed, there is something to do until all is
   quiet, and every step brings that nearer: such a run ends, and ends with all objects synced.
   */
  lemma ComesToRest(ts: seq<Transformation>, s: State, l: Label)
    requires Inv(ts, s)
    ensures Internal(l) && Enabled(s, l) ==> Load(After(ts, s, l)) < Load(s)
    ensures Quiet(s) <==> forall l' :: Internal(l') ==> !Enabled(s, l')
  {
    if !Quiet(s) {
      if s.pending != [] {
        assert Internal(Deliver) && Enabled(s, Deliver);
      } else if s.delayed != {} {
        var k :| k in s.delayed;
        assert Internal(Fire(k)) && Enabled(s, Fire(k));
      } else if s.worker.Waiting? {
        assert Internal(Take) && Enabled(s, Take);
      } else {
        assert Internal(Lookup) && Internal(Succeed) && Internal(Done);
        assert Enabled(s, Lookup) || Enabled(s, Succeed) || Enabled(s, Done);
      }
    }
    if Internal(l) && Enabled(s, l) {
      StepsUnload(ts, s, l);
    }
  }

  // ---- The code ----

  /** What enqueue is given: nothing, a key, or an object, of which keyFunc may fail to make a key. */
  datatype Thing = Nothing | Key(key: string) | Object(keyOf: Option<string>)

  function KeyOf(x: Thing): Option<string> {
    match x
    case Nothing => None
    case Key(k) => Some(k)
    case Object(k) => k
  }

  class Trigger {
    var indexer: map<string, nat>
    var queue: Queue
    var delayed: set<string>
    ghost var synced: map<string, nat>

    /** Whether the indexer answers, an object can be encoded, and what executing with it comes to. */
    const answers: string -> bool
    const encodes: (string, nat) -> bool
    const executes: (string, nat) -> bool

    constructor (answers: string -> bool, encodes: (string, nat) -> bool, executes: (string, nat) -> bool)
      ensures AsState([]) == START
      ensures this.answers == answers && this.encodes == encodes && this.executes == executes
    {
      indexer, queue, delayed, synced := map[], Queue([], {}, {}), {}, map[];
      this.answers, this.encodes, this.executes := answers, encodes, executes;
    }

    /** Between two work items, with these events not yet delivered. */
    ghost function AsState(pending: seq<Event>): State
      reads this
    {
      State(indexer, pending, queue, delayed, Waiting, synced)
    }

    method EnqueueObject(x: Thing)
      modifies this`queue
      ensures queue == if KeyOf(x).Some? then QueueAdd(old(queue), KeyOf(x).value) else old(queue)
      ensures x.Nothing? || x == Object(None) ==> queue == old(queue)
      ensures x.Key? ==> queue.dirty == old(queue.dirty) + {x.key}
      ensures x.Object? && x.keyOf.Some? ==> queue.dirty == old(queue.dirty) + {x.keyOf.value}
    {
      match x
      case Nothing =>
      case Key(key) => queue := QueueAdd(queue, key);
      case Object(key) =>
        if key.Some? {
          queue := QueueAdd(queue, key.value);
        }
    }

    /** OnAdd, OnUpdate and OnDelete: what Deliver does to the queue. */
    method Handle(ts: seq<Transformation>, e: Event)
      modifies this`queue
      ensures var key := Handled(ts, e);
        queue == if key.Some? then QueueAdd(old(queue), key.value) else old(queue)
      ensures (e.Updated? && e.was == e.cur) || TransformAll(ts, e.key) == "" ==> queue == old(queue)
      ensures !(e.Updated? && e.was == e.cur) && TransformAll(ts, e.key) != "" ==>
        && queue.dirty == old(queue.dirty) + {TransformAll(ts, e.key)}
        && queue.processing == old(queue.processing)
    {
      if e.Updated? && e.was == e.cur {
        return;
      }
      var newKey := Transform(ts, e.key);
      if newKey == "" {
        return;
      }
      EnqueueObject(Key(newKey));
    }

    /** Whether a sync of a key succeeds: a missing object is a success. */
    predicate Succeeds(key: string)
      reads this
    {
      answers(key) && (key in indexer ==> encodes(key, indexer[key]) && executes(key, indexer[key]))
    }

    /** A sync fails if the indexer does, if the object cannot be encoded, or if its rollout fails. */
    method Sync(key: string) returns (ok: bool)
      modifies this`synced
      ensures ok == old(Succeeds(key))
      ensures !answers(key) ==> !ok
      ensures key in indexer && !encodes(key, indexer[key]) ==> !ok
      ensures key in indexer && !executes(key, indexer[key]) ==> !ok
      ensures answers(key) && key !in indexer ==> ok && synced == old(synced)
      ensures answers(key) && key in indexer && encodes(key, indexer[key]) && executes(key, indexer[key]) ==>
        ok && synced == old(synced)[key := indexer[key]]
      ensures !ok ==> synced == old(synced)
      ensures synced == if ok && key in indexer then old(synced)[key := indexer[key]] else old(synced)
    {
      if !answers(key) {
        return false;
      }
      if key !in indexer {
        return true;
      }
      if !encodes(key, indexer[key]) {
        return false;
      }
      ok := executes(key, indexer[key]);
      if ok {
        synced := synced[key := indexer[key]];
      }
    }

    /** One work item, undisturbed: the worker's four steps of the machine. */
    method ProcessNextWorkItem(ghost ts: seq<Transformation>, ghost pending: seq<Event>)
      requires queue.order != []
      modifies this
      ensures var taken := After(ts, old(AsState(pending)), Take);
        var read := After(ts, taken, Lookup);
        var ended := After(ts, read, if old(Succeeds(queue.order[0])) then Succeed else Fail);
        AsState(pending) == After(ts, ended, Done)
      ensures indexer == old(indexer)
      ensures var key := old(queue.order[0]);
        if !answers(key) || (key in indexer && (!encodes(key, indexer[key]) || !executes(key, indexer[key]))) then
          delayed == old(delayed) + {key} && synced == old(synced)
        else
          delayed == old(delayed) && synced == if key in indexer then old(synced)[key := indexer[key]] else old(synced)
      ensures var key := old(queue.order[0]);
        && key !in queue.processing
        && queue.dirty == old(queue.dirty) - {key}
        && queue.order == old(queue.order[1..])
    {
      var key := queue.order[0];
      queue := QueueGet(queue);
      var ok := Sync(key);
      if !ok {
        delayed := delayed + {key};
      }
      queue := QueueDone(queue, key);
    }
  }
}
