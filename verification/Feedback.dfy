/**
 The feedback object of feedback/feedback.go.  Condition lists hold pointers, and the
 merged list shares pointers with the old one; the contracts speak of what they point to.
 */
module Feedback {
  import opened Wrappers
  import opened Status

  /** The stored conditions and the resource version of the object that holds them. */
  datatype Server = Server(stored: RawStatus, version: nat)

  /** What a feedback object remembers; `held` is None once a failed write left no object. */
  datatype Memory = Memory(was: Option<seq<Condition>>, cur: seq<Condition>, held: Option<nat>)

  datatype Push = Push(memory: Memory, server: Server, ok: bool, called: bool)

  /** What becomes of an attempt to write: no client can be built, or the server may refuse. */
  datatype Answer = NoClient | Refuses | Accepts

  /** updateStatus: nothing while the status is the old one, else a write of what is held. */
  function PushStatus(m: Memory, srv: Server, answer: Answer): Push {
    if SameStatus(m.was, m.cur) then Push(m, srv, true, false)
    else if answer.NoClient? then Push(m, srv, false, false)
    else if answer.Refuses? || m.held != Some(srv.version) then Push(m.(held := None), srv, false, true)
    else Push(m.(held := Some(srv.version + 1)), Server(Encode(m.cur), srv.version + 1), true, true)
  }

  function Initialized(m: Memory, groups: seq<string>, clock: Clock): Memory {
    m.(cur := Merge(m.was, groups, clock))
  }

  function WithCondition(m: Memory, name: string, status: string, clock: Clock): Memory {
    m.(cur := SetAll(m.cur, name, status, clock))
  }

  class StatusServer {
    var state: Server
    var attempts: nat
    const answers: nat -> Answer

    constructor (state: Server, answers: nat -> Answer)
      ensures this.state == state && this.answers == answers && attempts == 0
    {
      this.state := state;
      this.answers := answers;
      attempts := 0;
    }

    function Answer(): Answer
      reads this
    {
      answers(attempts)
    }

    /** An attempt ends here if no client can be built. */
    method ClientForUnstructured() returns (ok: bool)
      modifies this`attempts
      ensures ok <==> !old(Answer()).NoClient?
      ensures attempts == if ok then old(attempts) else old(attempts) + 1
    {
      ok := !Answer().NoClient?;
      if !ok {
        attempts := attempts + 1;
      }
    }

    /** A write goes through if it is not refused and holds the current version. */
    method UpdateStatus(version: nat, conditions: seq<Condition>) returns (held: Option<nat>)
      modifies this
      ensures attempts == old(attempts) + 1
      ensures var goes := !old(Answer()).Refuses? && version == old(state).version;
        && state == (if goes then Server(Encode(conditions), version + 1) else old(state))
        && held == (if goes then Some(version + 1) else None)
    {
      if Answer().Refuses? || version != state.version {
        held := None;
      } else {
        state := Server(Encode(conditions), version + 1);
        held := Some(version + 1);
      }
      attempts := attempts + 1;
    }
  }

  class StatusCondition {
    var name: string
    var status: string
    var time: nat

    constructor (name: string, status: string, time: nat)
      ensures Value() == Condition(name, status, time)
    {
      this.name := name;
      this.status := status;
      this.time := time;
    }

    function Value(): Condition
      reads this
    {
      Condition(name, status, time)
    }
  }

  function Values(cs: seq<StatusCondition>): (vs: seq<Condition>)
    reads cs
    ensures |vs| == |cs| && forall i :: 0 <= i < |cs| ==> vs[i] == cs[i].Value()
  {
    if cs == [] then [] else Values(cs[..|cs| - 1]) + [cs[|cs| - 1].Value()]
  }

  /** The last condition of every name. */
  method AvailableConditions(cs: seq<StatusCondition>) returns (available: map<string, StatusCondition>)
    ensures forall n :: n in available <==> LastNamed(Values(cs), n).Some?
    ensures forall n :: n in available ==>
      available[n] in cs && LastNamed(Values(cs), n) == Some(available[n].Value())
  {
    available := map[];
    ghost var all := Values(cs);
    for i := 0 to |cs|
      invariant forall n :: n in available <==> LastNamed(all[..i], n).Some?
      invariant forall n :: n in available ==>
        available[n] in cs && LastNamed(all[..i], n) == Some(available[n].Value())
    {
      assert all[..i + 1][..i] == all[..i];
      available := available[cs[i].name := cs[i]];
    }
    assert all[..|all|] == all;
  }

  method MergedConditions(shared: seq<StatusCondition>, groups: seq<string>, clock: Clock)
    returns (conditions: seq<StatusCondition>)
    ensures |conditions| == |groups|
    ensures forall k :: 0 <= k < |groups| ==>
      conditions[k].Value() == MergeOne(Values(shared), groups[k], clock(k))
    ensures forall k :: 0 <= k < |groups| ==> conditions[k] in shared || fresh(conditions[k])
  {
    conditions := [];
    var available := AvailableConditions(shared);
    ghost var before := Values(shared);
    for i := 0 to |groups|
      invariant |conditions| == i
      invariant forall k :: 0 <= k < i ==> conditions[k].Value() == MergeOne(before, groups[k], clock(k))
      invariant forall k :: 0 <= k < i ==> conditions[k] in shared || fresh(conditions[k])
      invariant forall n :: n in available ==>
        available[n] in shared && LastNamed(before, n) == Some(available[n].Value())
    {
      if groups[i] in available {
        conditions := conditions + [available[groups[i]]];
      } else {
        var c := new StatusCondition(groups[i], NOT_STARTED, clock(i));
        conditions := conditions + [c];
      }
    }
  }

  method ChangedConditions(shared: seq<StatusCondition>, name: string, status: string, clock: Clock)
    returns (conditions: seq<StatusCondition>)
    ensures |conditions| == |shared|
    ensures forall k :: 0 <= k < |shared| ==>
      conditions[k].Value() == SetOne(shared[k].Value(), name, status, clock(k))
    ensures forall k :: 0 <= k < |shared| ==> conditions[k] == shared[k] || fresh(conditions[k])
  {
    conditions := shared;
    for i := 0 to |shared|
      invariant |conditions| == |shared|
      invariant forall k :: 0 <= k < i ==> conditions[k].Value() == SetOne(shared[k].Value(), name, status, clock(k))
      invariant forall k :: 0 <= k < i ==> conditions[k] == shared[k] || fresh(conditions[k])
      invariant forall k :: i <= k < |shared| ==> conditions[k] == shared[k]
    {
      if conditions[i].name == name && conditions[i].status != status {
        var c := new StatusCondition(name, status, clock(i));
        conditions := conditions[i := c];
      }
    }
  }

  class Feedback {
    const server: StatusServer
    const oldStatus: Option<seq<StatusCondition>>
    var currentStatus: Option<seq<StatusCondition>>
    var held: Option<nat>

    constructor (server: StatusServer, oldStatus: Option<seq<StatusCondition>>, version: nat)
      ensures this.server == server && this.oldStatus == oldStatus
      ensures currentStatus.None? && held == Some(version)
    {
      this.server := server;
      this.oldStatus := oldStatus;
      this.currentStatus := None;
      this.held := Some(version);
    }

    function OldObjects(): seq<StatusCondition> {
      if oldStatus.Some? then oldStatus.value else []
    }

    function CurrentObjects(): seq<StatusCondition>
      reads this
    {
      if currentStatus.Some? then currentStatus.value else []
    }

    function OldValues(): Option<seq<Condition>>
      reads OldObjects()
    {
      if oldStatus.Some? then Some(Values(oldStatus.value)) else None
    }

    function State(): Memory
      reads this, OldObjects(), CurrentObjects()
    {
      Memory(OldValues(), Values(CurrentObjects()), held)
    }

    /** The old conditions are only read: their objects are not in any frame. */
    method InitializeStatus(groups: seq<string>, clock: Clock)
      modifies this`currentStatus
      ensures currentStatus.Some?
      ensures Values(CurrentObjects()) == Merge(OldValues(), groups, clock)
      ensures forall c :: c in CurrentObjects() ==> c in OldObjects() || fresh(c)
    {
      var conditions := MergedConditions(OldObjects(), groups, clock);
      assert Values(OldObjects()) == GetOr(OldValues(), []);
      currentStatus := Some(conditions);
      assert Values(conditions) == Merge(OldValues(), groups, clock);
    }

    /** Changed conditions are new objects: those shared with the old status stay as they are. */
    method SetConditionStatus(name: string, status: string, clock: Clock)
      requires currentStatus.Some?
      modifies this`currentStatus
      ensures currentStatus.Some?
      ensures Values(CurrentObjects()) == SetAll(old(Values(CurrentObjects())), name, status, clock)
      ensures forall c :: c in CurrentObjects() ==> c in old(CurrentObjects()) || fresh(c)
    {
      ghost var before := Values(currentStatus.value);
      var conditions := ChangedConditions(currentStatus.value, name, status, clock);
      assert Values(conditions) == SetAll(before, name, status, clock);
      currentStatus := Some(conditions);
    }

    /** What an attempt to write comes to, from the memory `m` before it. */
    ghost predicate Pushed(m: Memory, p: Push, ok: bool)
      reads this, OldObjects(), CurrentObjects(), server
    {
      p.memory == State() && p.server == server.state && p.ok == ok && p.memory.was == m.was && p.memory.cur == m.cur
    }

    /** The write itself: what is held afterwards, and what the server then has. */
    method WriteStatus() returns (ok: bool)
      requires held.Some?
      modifies this`held, server
      ensures server.attempts == old(server.attempts) + 1
      ensures old(server.Answer()).NoClient? ==> !ok && held == old(held) && server.state == old(server.state)
      ensures !old(server.Answer()).NoClient? ==>
        var goes := !old(server.Answer()).Refuses? && old(held.value) == old(server.state).version;
        && ok == goes && held == (if goes then Some(old(held.value) + 1) else None)
        && server.state == if goes then Server(Encode(Values(CurrentObjects())), old(held.value) + 1) else old(server.state)
    {
      ok := server.ClientForUnstructured();
      if !ok {
        return;
      }
      held := server.UpdateStatus(held.value, Values(CurrentObjects()));
      ok := held.Some?;
    }

    method UpdateStatus() returns (ok: bool)
      requires currentStatus.Some? && held.Some?
      modifies this`held, server
      ensures Pushed(old(State()), PushStatus(old(State()), old(server.state), old(server.Answer())), ok)
      ensures var p := PushStatus(old(State()), old(server.state), old(server.Answer()));
        server.attempts == old(server.attempts) + (if p.ok && !p.called then 0 else 1)
      ensures var same := OldValues() == Some(Values(CurrentObjects())) && CurrentObjects() != [];
        && (same ==> ok && held == old(held) && server.state == old(server.state) && server.attempts == old(server.attempts))
        && (!same && old(server.Answer()).NoClient? ==> !ok && held == old(held) && server.state == old(server.state))
        && (!same && old(server.Answer()).Refuses? ==> !ok && held.None? && server.state == old(server.state))
        && (!same && old(server.Answer()).Accepts? && old(held.value) != old(server.state).version ==>
             !ok && held.None? && server.state == old(server.state))
        && (!same && old(server.Answer()).Accepts? && old(held.value) == old(server.state).version ==>
             && ok && held == Some(old(held.value) + 1)
             && server.state == Server(Encode(Values(CurrentObjects())), old(held.value) + 1))
    {
      if SameStatus(OldValues(), Values(CurrentObjects())) {
        return true;
      }
      ok := WriteStatus();
    }

    method Initialize(groups: seq<string>, clock: Clock) returns (ok: bool)
      requires held.Some?
      modifies this, server
      ensures currentStatus.Some?
      ensures var m := Initialized(old(State()), groups, clock);
        Pushed(m, PushStatus(m, old(server.state), old(server.Answer())), ok)
      ensures forall c :: c in CurrentObjects() ==> c in OldObjects() || fresh(c)
    {
      ghost var m := Initialized(State(), groups, clock);
      InitializeStatus(groups, clock);
      assert State() == m;
      ok := UpdateStatus();
    }

    method SetCondition(name: string, status: string, clock: Clock) returns (ok: bool)
      requires currentStatus.Some? && held.Some?
      modifies this, server
      ensures currentStatus.Some?
      ensures var m := WithCondition(old(State()), name, status, clock);
        Pushed(m, PushStatus(m, old(server.state), old(server.Answer())), ok)
      ensures forall c :: c in CurrentObjects() ==> c in old(CurrentObjects()) || fresh(c)
    {
      ghost var m := WithCondition(State(), name, status, clock);
      SetConditionStatus(name, status, clock);
      assert State() == m;
      ok := UpdateStatus();
    }
  }

  /** extractStatus: a fresh condition for every stored one, or no status if one is unreadable. */
  method ExtractStatus(raw: RawStatus) returns (status: Option<seq<StatusCondition>>)
    ensures status.None? <==> Decode(raw).None?
    ensures status.Some? ==> Values(status.value) == Decode(raw).value && forall c :: c in status.value ==> fresh(c)
    ensures status.None? <==> raw.NoList? || exists i :: 0 <= i < |raw.items| && raw.items[i].NotMap?
    ensures status.Some? ==> |status.value| == |raw.items| && forall i :: 0 <= i < |raw.items| ==>
      && status.value[i].name == GetOr(raw.items[i].name, "")
      && status.value[i].status == GetOr(raw.items[i].status, "")
      && status.value[i].time == GetOr(raw.items[i].time, 0) * 1_000_000_000
  {
    StoredFields([], raw);
    if raw.NoList? {
      return None;
    }
    var conditions: seq<StatusCondition> := [];
    for i := 0 to |raw.items|
      invariant NotMap !in raw.items[..i]
      invariant |conditions| == i
      invariant forall k :: 0 <= k < i ==> fresh(conditions[k]) && conditions[k].Value() == DecodeCondition(raw.items[k])
    {
      if raw.items[i].NotMap? {
        return None;
      }
      var d := DecodeCondition(raw.items[i]);
      var c := new StatusCondition(d.name, d.status, d.time);
      conditions := conditions + [c];
    }
    assert raw.items[..|raw.items|] == raw.items;
    assert Values(conditions) == DecodeAll(raw.items);
    status := Some(conditions);
  }
}
