/**
 The resource trigger together with the status writes of its own syncs: every accepted write
 changes the object, the watch reports that, and the report enqueues the object again.  The
 loop comes to rest nevertheless, unless syncs fail or others write for ever.
 */
module SelfTrigger {
  import opened Wrappers
  import opened Status
  import opened Feedback
  import opened KeyTransformation
  import Q = Quiescence
  import T = ResourceTrigger

  /** The object `key`, for whose rollout of some groups the trigger runs. */
  datatype Config = Config(ts: seq<Transformation>, key: string, groups: seq<string>)

  /**
   `loop` is the server and the sync of the object, `watch` the versions of the object that the
   informer has not seen, `cached` the one that it has; `left` counts the groups that the
   sync has not finished.
   */
  datatype State = State(loop: Q.Loop, watch: seq<Server>, cached: Server, left: nat, trigger: T.State)

  datatype Label =
    | Observe
    | Trigger(l: T.Label)
    | Initialize(clock: Clock, answer: Answer)
    | SetFinished(name: string, clock: Clock, answer: Answer)
    | Touch

  /** The worker executes the rollout of the object. */
  predicate Executing(c: Config, s: State) {
    s.trigger.worker.Syncing? && s.trigger.worker.key == c.key && s.trigger.worker.read.Some?
  }

  ghost predicate Enabled(c: Config, s: State, l: Label) {
    match l
    case Observe => s.watch != []
    case Trigger(t) =>
      && T.Enabled(s.trigger, t) && !t.CacheSet? && !t.CacheDelete?
      && (t.Succeed? && Executing(c, s) ==> s.loop.phase.Live? && s.left == 0)
    case Initialize(_, _) => Executing(c, s) && s.loop.phase.Begun?
    case SetFinished(name, _, _) =>
      Executing(c, s) && s.loop.phase.Live? && 0 < s.left <= |c.groups| && name == c.groups[|c.groups| - s.left]
    case Touch => true
  }

  /** The server and the sync change; a new version is there to be watched. */
  function AfterLoop(c: Config, s: State, l: Q.Label, left: nat): State {
    var loop := Q.After(c.groups, s.loop, l);
    s.(loop := loop, left := left,
       watch := if loop.server.version == s.loop.server.version then s.watch else s.watch + [loop.server])
  }

  function After(c: Config, s: State, l: Label): State
    requires Enabled(c, s, l)
  {
    match l
    case Observe =>
      s.(watch := s.watch[1..], cached := s.watch[0],
         trigger := T.After(c.ts, s.trigger, T.CacheSet(c.key, s.watch[0].version)))
    case Trigger(t) =>
      var after := s.(trigger := T.After(c.ts, s.trigger, t));
      if t.Lookup? && Executing(c, after) then
        after.(loop := Q.After(c.groups, s.loop, Q.Begin(s.cached)), left := |c.groups|)
      else after
    case Initialize(clock, answer) => AfterLoop(c, s, Q.Initialize(clock, answer), s.left)
    case SetFinished(name, clock, answer) => AfterLoop(c, s, Q.SetFinished(name, clock, answer), s.left - 1)
    case Touch => AfterLoop(c, s, Q.Touch, s.left)
  }

  /** The trigger has just seen the object for the first time. */
  function Start(c: Config, srv: Server): State {
    State(Q.Loop(srv, Q.Idle, Memory(None, [], None), 0), [], srv, 0,
          T.After(c.ts, T.START, T.CacheSet(c.key, srv.version)))
  }

  ghost predicate IsRun(c: Config, srv: Server, states: seq<State>, labels: seq<Label>) {
    && |states| == |labels| + 1
    && states[0] == Start(c, srv)
    && forall i :: 0 <= i < |labels| ==>
         Enabled(c, states[i], labels[i]) && states[i + 1] == After(c, states[i], labels[i])
  }

  // ---- The invariant ----

  /** A version of the object that is or was the server's. */
  predicate Past(s: State, srv: Server) {
    srv.version <= s.loop.server.version && (srv.version == s.loop.server.version ==> srv == s.loop.server)
  }

  ghost predicate Inv(c: Config, s: State) {
    && Q.Knows(c.groups, s.loop)
    && T.Inv(c.ts, s.trigger)
    && s.left <= |c.groups|
    && Past(s, s.cached) && (forall i :: 0 <= i < |s.watch| ==> Past(s, s.watch[i]))
    && (if s.watch == [] then s.cached == s.loop.server else s.watch[|s.watch| - 1] == s.loop.server)
    && c.key in s.trigger.cache && s.trigger.cache[c.key] == s.cached.version
  }

  /** Versions only go up. */
  lemma PastStays(c: Config, s: State, l: Q.Label, left: nat, srv: Server)
    requires Past(s, srv) && Q.Enabled(s.loop, l) && !l.Begin?
    ensures Past(AfterLoop(c, s, l, left), srv)
  {
  }

  lemma LoopKeepsInv(c: Config, s: State, l: Q.Label, left: nat)
    requires Inv(c, s) && Q.Enabled(s.loop, l) && !l.Begin? && left <= |c.groups|
    ensures Inv(c, AfterLoop(c, s, l, left))
  {
    Q.ChangeIsPaidFor(c.groups, s.loop, l);
    var t := AfterLoop(c, s, l, left);
    PastStays(c, s, l, left, s.cached);
    forall i | 0 <= i < |t.watch|
      ensures Past(t, t.watch[i])
    {
      if i < |s.watch| {
        PastStays(c, s, l, left, s.watch[i]);
      }
    }
  }

  lemma TriggerKeepsInv(c: Config, s: State, t: T.Label)
    requires Inv(c, s) && Enabled(c, s, Trigger(t))
    ensures Inv(c, After(c, s, Trigger(t)))
  {
    T.InvStep(c.ts, s.trigger, t);
    if t.Lookup? {
      Q.ChangeIsPaidFor(c.groups, s.loop, Q.Begin(s.cached));
    }
  }

  lemma ObserveKeepsInv(c: Config, s: State)
    requires Inv(c, s) && Enabled(c, s, Observe)
    ensures Inv(c, After(c, s, Observe))
  {
    T.InvStep(c.ts, s.trigger, T.CacheSet(c.key, s.watch[0].version));
  }

  lemma InitializeKeepsInv(c: Config, s: State, clock: Clock, answer: Answer)
    requires Inv(c, s) && Enabled(c, s, Initialize(clock, answer))
    ensures Inv(c, After(c, s, Initialize(clock, answer)))
  {
    LoopKeepsInv(c, s, Q.Initialize(clock, answer), s.left);
  }

  lemma FinishKeepsInv(c: Config, s: State, name: string, clock: Clock, answer: Answer)
    requires Inv(c, s) && Enabled(c, s, SetFinished(name, clock, answer))
    ensures Inv(c, After(c, s, SetFinished(name, clock, answer)))
  {
    var l := Q.SetFinished(name, clock, answer);
    assert After(c, s, SetFinished(name, clock, answer)) == AfterLoop(c, s, l, s.left - 1);
    LoopKeepsInv(c, s, l, s.left - 1);
  }

  lemma InvStep(c: Config, s: State, l: Label)
    requires Inv(c, s) && Enabled(c, s, l)
    ensures Inv(c, After(c, s, l))
  {
    match l
    case Observe => ObserveKeepsInv(c, s);
    case Trigger(t) => TriggerKeepsInv(c, s, t);
    case Initialize(clock, answer) => InitializeKeepsInv(c, s, clock, answer);
    case SetFinished(name, clock, answer) => FinishKeepsInv(c, s, name, clock, answer);
    case Touch => LoopKeepsInv(c, s, Q.Touch, s.left);
  }

  lemma InvStart(c: Config, srv: Server)
    ensures Inv(c, Start(c, srv))
  {
    T.InvStep(c.ts, T.START, T.CacheSet(c.key, srv.version));
  }

  lemma {:induction false} InvRun(c: Config, srv: Server, states: seq<State>, labels: seq<Label>, i: nat)
    requires IsRun(c, srv, states, labels) && i < |states|
    ensures Inv(c, states[i])
  {
    if i == 0 {
      InvStart(c, srv);
    } else {
      InvRun(c, srv, states, labels, i - 1);
      InvStep(c, states[i - 1], labels[i - 1]);
    }
  }

  // ---- How much there is left to do ----

  /** n times w. */
  function Times(n: nat, w: nat): nat {
    if n == 0 then 0 else Times(n - 1, w) + w
  }

  lemma {:induction false} TimesMore(a: nat, b: nat, w: nat)
    requires a <= b
    ensures Times(a, w) <= Times(b, w)
    ensures a < b ==> Times(a, w) + w <= Times(b, w)
  {
    if a < b {
      TimesMore(a, b - 1, w);
    }
  }

  /** What one new version of the object can cause, not counting further writes. */
  function PerVersion(c: Config): nat {
    |c.groups| + 8
  }

  /** What all the writes of one sync can cause. */
  function PerSync(c: Config): nat {
    Times(|c.groups| + 1, PerVersion(c))
  }

  /** The steps that the sync of the object still has to take. */
  function SyncSteps(c: Config, s: State): nat {
    match s.loop.phase
    case Idle => 0
    case Begun => |c.groups| + 1
    case Live => s.left
  }

  function WorkerSteps(c: Config, s: State): nat {
    match s.trigger.worker
    case Waiting => 0
    case Leaving(_) => 1
    case Syncing(_, _) => 2 + (if Executing(c, s) then SyncSteps(c, s) else 0)
    case Holding(_) => |c.groups| + 5
  }

  function Queued(c: Config, t: T.State): nat {
    Times(|t.pending| + |t.delayed|, |c.groups| + 7) + Times(|t.queue.dirty|, |c.groups| + 6)
  }

  /** Writes that a sync may still make although they change nothing, as it has written before. */
  function Reserve(c: Config, s: State): nat {
    if s.loop.phase.Live? && !SameStatus(s.loop.memory.was, s.loop.memory.cur) then Times(s.left, PerVersion(c)) else 0
  }

  /** Writes to come, and versions that have not been seen. */
  function Writes(c: Config, s: State): nat {
    Times(Q.Remaining(c.groups, s.loop.server.stored), PerSync(c)) + Reserve(c, s) + Times(|s.watch|, PerVersion(c))
  }

  function Potential(c: Config, s: State): nat {
    Writes(c, s) + Queued(c, s.trigger) + WorkerSteps(c, s)
  }

  /** Failing syncs, enqueuing on behalf of other objects, and other writers are not the loop's own doing. */
  predicate Outside(l: Label) {
    l.Touch? || (l.Trigger? && (l.l.Fail? || l.l.Foreign?))
  }

  /** What a step may add to the potential: nothing, if it is the loop's own. */
  function Allowance(c: Config, l: Label): int {
    if Outside(l) then PerVersion(c) else -1
  }

  lemma DirtyMore(c: Config, t: T.State, key: string)
    ensures Times(|T.QueueAdd(t.queue, key).dirty|, |c.groups| + 6) <= Times(|t.queue.dirty|, |c.groups| + 6) + |c.groups| + 6
  {
    T.AddLoads(t.queue, key);
    TimesMore(|T.QueueAdd(t.queue, key).dirty|, |t.queue.dirty| + 1, |c.groups| + 6);
  }

  lemma DeliverQueued(c: Config, t: T.State)
    requires T.Enabled(t, T.Deliver)
    ensures Queued(c, T.After(c.ts, t, T.Deliver)) < Queued(c, t)
  {
    var key := Handled(c.ts, t.pending[0]);
    if key.Some? {
      DirtyMore(c, t, key.value);
    }
  }

  lemma DelayedLess(c: Config, t: T.State, k: string)
    requires k in t.delayed
    ensures Times(|t.pending| + |t.delayed - {k}|, |c.groups| + 7) + |c.groups| + 7 ==
      Times(|t.pending| + |t.delayed|, |c.groups| + 7)
  {
    assert |t.delayed - {k}| == |t.delayed| - 1;
  }

  lemma FireQueued(c: Config, t: T.State, k: string)
    requires k in t.delayed
    ensures Queued(c, T.After(c.ts, t, T.Fire(k))) < Queued(c, t)
  {
    DirtyMore(c, t, k);
    DelayedLess(c, t, k);
  }

  lemma FailQueued(c: Config, t: T.State)
    requires T.Enabled(t, T.Fail)
    ensures Queued(c, T.After(c.ts, t, T.Fail)) <= Queued(c, t) + |c.groups| + 7
  {
    var t' := T.After(c.ts, t, T.Fail);
    TimesMore(|t'.pending| + |t'.delayed|, |t.pending| + |t.delayed| + 1, |c.groups| + 7);
  }

  lemma TakeQueued(c: Config, t: T.State)
    requires T.ValidQueue(t.queue) && T.Enabled(t, T.Take)
    ensures Queued(c, T.After(c.ts, t, T.Take)) + |c.groups| + 6 == Queued(c, t)
  {
    T.TakeUnloads(t);
  }

  /** What the queue holds gets nearer to being handled. */
  lemma QueueMoves(c: Config, s: State, t: T.Label)
    requires Enabled(c, s, Trigger(t)) && (t.Deliver? || t.Fire? || t.Foreign?)
    ensures WorkerSteps(c, After(c, s, Trigger(t))) == WorkerSteps(c, s)
    ensures Queued(c, After(c, s, Trigger(t)).trigger) <= Queued(c, s.trigger) + Allowance(c, Trigger(t))
  {
    match t
    case Deliver => DeliverQueued(c, s.trigger);
    case Fire(k) => FireQueued(c, s.trigger, k);
    case Foreign(k) => DirtyMore(c, s.trigger, k);
  }

  /** The worker gets on with what it has taken. */
  lemma WorkerMoves(c: Config, s: State, t: T.Label)
    requires s.left <= |c.groups| && Enabled(c, s, Trigger(t)) && (t.Lookup? || t.Succeed? || t.Done?)
    ensures WorkerSteps(c, After(c, s, Trigger(t))) < WorkerSteps(c, s)
    ensures Queued(c, After(c, s, Trigger(t)).trigger) == Queued(c, s.trigger)
  {
  }

  /** The queue gets shorter, or what it holds gets nearer to being handled. */
  lemma QueueSteps(c: Config, s: State, t: T.Label)
    requires Inv(c, s) && Enabled(c, s, Trigger(t))
    ensures var s' := After(c, s, Trigger(t));
      Queued(c, s'.trigger) + WorkerSteps(c, s') <=
      Queued(c, s.trigger) + WorkerSteps(c, s) + Allowance(c, Trigger(t))
  {
    if t.Take? {
      TakeQueued(c, s.trigger);
    } else if t.Fail? {
      FailQueued(c, s.trigger);
    } else if t.Lookup? || t.Succeed? || t.Done? {
      WorkerMoves(c, s, t);
    } else {
      QueueMoves(c, s, t);
    }
  }

  lemma TriggerStep(c: Config, s: State, t: T.Label)
    requires Inv(c, s) && Enabled(c, s, Trigger(t))
    ensures Potential(c, After(c, s, Trigger(t))) <= Potential(c, s) + Allowance(c, Trigger(t))
  {
    QueueSteps(c, s, t);
    assert Writes(c, After(c, s, Trigger(t))) <= Writes(c, s);
  }

  lemma ObserveStep(c: Config, s: State)
    requires Inv(c, s) && Enabled(c, s, Observe)
    ensures Potential(c, After(c, s, Observe)) < Potential(c, s)
  {
    var t, t' := s.trigger, After(c, s, Observe).trigger;
    assert |t'.pending| + |t'.delayed| == |t.pending| + |t.delayed| + 1;
    assert WorkerSteps(c, After(c, s, Observe)) == WorkerSteps(c, s);
  }

  /** A write that changes what is stored pays for all the writes of its sync. */
  lemma ChangingWrite(c: Config, s: State, s': State)
    requires Q.Remaining(c.groups, s'.loop.server.stored) < Q.Remaining(c.groups, s.loop.server.stored)
    requires s'.left <= |c.groups| && |s'.watch| == |s.watch| + 1
    ensures Writes(c, s') <= Writes(c, s)
  {
    TimesMore(Q.Remaining(c.groups, s'.loop.server.stored), Q.Remaining(c.groups, s.loop.server.stored), PerSync(c));
    TimesMore(s'.left, |c.groups|, PerVersion(c));
  }

  /** A write that changes nothing is paid for by the reserve of its sync. */
  lemma RepeatedWrite(c: Config, s: State, s': State)
    requires s.loop.phase.Live? && !SameStatus(s.loop.memory.was, s.loop.memory.cur)
    requires s'.loop.server.stored == s.loop.server.stored && |s'.watch| == |s.watch| + 1 && s'.left + 1 == s.left
    ensures Writes(c, s') <= Writes(c, s)
  {
  }

  lemma InitializeStep(c: Config, s: State, clock: Clock, answer: Answer)
    requires Q.Knows(c.groups, s.loop) && s.left <= |c.groups|
    requires Enabled(c, s, Initialize(clock, answer)) && c.groups != []
    ensures Potential(c, After(c, s, Initialize(clock, answer))) < Potential(c, s)
  {
    var l := Q.Initialize(clock, answer);
    var p := Q.PushOf(c.groups, s.loop, l);
    var s' := After(c, s, Initialize(clock, answer));
    if p.called && p.ok {
      Q.InitializePays(c.groups, s.loop, l);
      ChangingWrite(c, s, s');
    } else {
      assert Writes(c, s') == Writes(c, s);
    }
  }

  /** A step of the sync that writes, and one that does not. */
  lemma LoopWrites(c: Config, s: State, l: Q.Label, left: nat)
    requires l.Initialize? || l.SetFinished?
    ensures var p, s' := Q.PushOf(c.groups, s.loop, l), AfterLoop(c, s, l, left);
      && s'.loop == Q.AfterPush(s.loop, p) && s'.left == left
      && (p.called && p.ok ==> |s'.watch| == |s.watch| + 1)
      && (!p.called || !p.ok ==>
           && s'.loop.server == s.loop.server && s'.watch == s.watch
           && (s'.loop.phase.Live? ==> SameStatus(s'.loop.memory.was, s'.loop.memory.cur)))
  {
  }

  /** The write of a group's mark is paid for. */
  lemma FinishWrites(c: Config, s: State, l: Q.Label)
    requires Q.Knows(c.groups, s.loop) && s.left <= |c.groups|
    requires Q.Enabled(s.loop, l) && l.SetFinished? && c.groups != [] && s.left > 0
    requires Q.PushOf(c.groups, s.loop, l).called && Q.PushOf(c.groups, s.loop, l).ok
    ensures Writes(c, AfterLoop(c, s, l, s.left - 1)) <= Writes(c, s)
  {
    var s' := AfterLoop(c, s, l, s.left - 1);
    LoopWrites(c, s, l, s.left - 1);
    if s'.loop.memory.cur != s.loop.memory.cur {
      Q.FinishPays(c.groups, s.loop, l);
      ChangingWrite(c, s, s');
    } else {
      Q.UnchangedStaysStored(c.groups, s.loop, l);
      RepeatedWrite(c, s, s');
    }
  }

  lemma NoWrite(c: Config, s: State, s': State)
    requires s'.loop.server == s.loop.server && s'.watch == s.watch
    requires s'.loop.phase.Live? ==> SameStatus(s'.loop.memory.was, s'.loop.memory.cur)
    ensures Writes(c, s') <= Writes(c, s)
  {
  }

  lemma FinishWorks(c: Config, s: State, l: Q.Label)
    requires l.SetFinished? && Executing(c, s) && s.loop.phase.Live? && s.left > 0
    ensures var s' := AfterLoop(c, s, l, s.left - 1);
      s'.trigger == s.trigger && WorkerSteps(c, s') < WorkerSteps(c, s)
  {
    LoopWrites(c, s, l, s.left - 1);
  }

  lemma FinishIsPaid(c: Config, s: State, l: Q.Label)
    requires Q.Knows(c.groups, s.loop) && s.left <= |c.groups|
    requires Q.Enabled(s.loop, l) && l.SetFinished? && |c.groups| > 0 && s.left > 0
    ensures Writes(c, AfterLoop(c, s, l, s.left - 1)) <= Writes(c, s)
  {
    if Q.PushOf(c.groups, s.loop, l).called && Q.PushOf(c.groups, s.loop, l).ok {
      FinishWrites(c, s, l);
    } else {
      LoopWrites(c, s, l, s.left - 1);
      NoWrite(c, s, AfterLoop(c, s, l, s.left - 1));
    }
  }

  lemma LessPotential(c: Config, s: State, s': State)
    requires Writes(c, s') <= Writes(c, s) && s'.trigger == s.trigger && WorkerSteps(c, s') < WorkerSteps(c, s)
    ensures Potential(c, s') < Potential(c, s)
  {
  }

  lemma FinishStep(c: Config, s: State, name: string, clock: Clock, answer: Answer)
    requires Q.Knows(c.groups, s.loop) && s.left <= |c.groups| && Enabled(c, s, SetFinished(name, clock, answer))
    ensures Potential(c, After(c, s, SetFinished(name, clock, answer))) < Potential(c, s)
  {
    var l := Q.SetFinished(name, clock, answer);
    assert After(c, s, SetFinished(name, clock, answer)) == AfterLoop(c, s, l, s.left - 1);
    FinishIsPaid(c, s, l);
    FinishWorks(c, s, l);
    LessPotential(c, s, AfterLoop(c, s, l, s.left - 1));
  }

  lemma EveryStep(c: Config, s: State, l: Label)
    requires Inv(c, s) && Enabled(c, s, l) && c.groups != []
    ensures Potential(c, After(c, s, l)) <= Potential(c, s) + Allowance(c, l)
  {
    match l
    case Observe => ObserveStep(c, s);
    case Trigger(t) => TriggerStep(c, s, t);
    case Initialize(clock, answer) => InitializeStep(c, s, clock, answer);
    case SetFinished(name, clock, answer) => FinishStep(c, s, name, clock, answer);
    case Touch =>
  }

  function OutsideSteps(labels: seq<Label>): nat {
    if labels == [] then 0
    else OutsideSteps(labels[..|labels| - 1]) + if Outside(labels[|labels| - 1]) then 1 else 0
  }

  lemma OutsideMore(labels: seq<Label>, i: nat)
    requires i < |labels|
    ensures OutsideSteps(labels[..i + 1]) == OutsideSteps(labels[..i]) + if Outside(labels[i]) then 1 else 0
  {
    assert labels[..i + 1][..i] == labels[..i];
  }

  /** How high the potential can be after i steps. */
  function Ceiling(c: Config, srv: Server, labels: seq<Label>, i: nat): int
    requires i <= |labels|
  {
    Potential(c, Start(c, srv)) + Times(OutsideSteps(labels[..i]), PerVersion(c) + 1) - i
  }

  lemma CeilingMore(c: Config, srv: Server, labels: seq<Label>, i: nat)
    requires i < |labels|
    ensures Ceiling(c, srv, labels, i + 1) == Ceiling(c, srv, labels, i) + Allowance(c, labels[i])
  {
    OutsideMore(labels, i);
  }

  lemma {:induction false} PotentialAlong(c: Config, srv: Server, states: seq<State>, labels: seq<Label>, i: nat)
    requires IsRun(c, srv, states, labels) && i <= |labels| && c.groups != []
    ensures Potential(c, states[i]) <= Ceiling(c, srv, labels, i)
  {
    if i > 0 {
      PotentialAlong(c, srv, states, labels, i - 1);
      InvRun(c, srv, states, labels, i - 1);
      EveryStep(c, states[i - 1], labels[i - 1]);
      CeilingMore(c, srv, labels, i - 1);
    }
  }

  /**
   The loop "sync, status write, update event, enqueue, sync" comes to rest: the length of every
   run is bounded by its first state and by how often a sync fails or others interfere.
   */
  lemma EveryRunIsBounded(c: Config, srv: Server, states: seq<State>, labels: seq<Label>)
    requires IsRun(c, srv, states, labels) && c.groups != []
    ensures |labels| <= Potential(c, Start(c, srv)) + Times(OutsideSteps(labels), PerVersion(c) + 1)
  {
    PotentialAlong(c, srv, states, labels, |labels|);
    assert labels[..|labels|] == labels;
  }

  /**
   And it rests only where it should: as long as something is left to do, some step other than
   those of others is possible; and when nothing is left, the object has been synced at the
   version that the server has.
   */
  lemma RestsWhenSynced(c: Config, srv: Server, states: seq<State>, labels: seq<Label>, i: nat)
    requires IsRun(c, srv, states, labels) && i < |states| && T.PassesUnchanged(c.ts, c.key)
    ensures var s := states[i];
      (forall l :: Enabled(c, s, l) ==> l.Touch? || (l.Trigger? && l.l.Foreign?)) ==>
        && T.Quiet(s.trigger) && s.watch == []
        && c.key in s.trigger.synced && s.trigger.synced[c.key] == s.loop.server.version
  {
    InvRun(c, srv, states, labels, i);
    var s := states[i];
    if forall l :: Enabled(c, s, l) ==> l.Touch? || (l.Trigger? && l.l.Foreign?) {
      NothingToDo(c, s);
      assert T.NoLostWakeup(c.ts, s.trigger, c.key);
    }
  }

  lemma NothingToDo(c: Config, s: State)
    requires forall l :: Enabled(c, s, l) ==> l.Touch? || (l.Trigger? && l.l.Foreign?)
    requires Inv(c, s)
    ensures T.Quiet(s.trigger) && s.watch == [] && s.trigger.queue.dirty == {}
  {
    assert !Enabled(c, s, Observe);
    assert !Enabled(c, s, Trigger(T.Deliver)) && !Enabled(c, s, Trigger(T.Take));
    assert !Enabled(c, s, Trigger(T.Lookup)) && !Enabled(c, s, Trigger(T.Fail)) && !Enabled(c, s, Trigger(T.Done));
    if k :| k in s.trigger.delayed {
      assert Enabled(c, s, Trigger(T.Fire(k)));
    }
    assert forall k :: k in s.trigger.queue.dirty ==> k in s.trigger.queue.order;
  }
}
