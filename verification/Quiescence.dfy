/**
 The status writes of one sync, and of any number of syncs.  Skipping the write while the
 status is the old one loses nothing, and only so many writes can change what is stored.
 */
module Quiescence {
  import opened Wrappers
  import opened Status
  import opened Feedback

  // ---- One sync: the skipped writes are not missed ----

  datatype Finish = Finish(name: string, clock: Clock, answer: Answer)

  /**
   One Initialize on a cached object, stale or not, then conditions set to finished until a
   write fails.
   */
  function Sync(cached: Server, stored: Server, groups: seq<string>, clock: Clock, answer: Answer, sets: seq<Finish>): Push {
    if sets == [] then
      PushStatus(Initialized(Memory(Decode(cached.stored), [], Some(cached.version)), groups, clock), stored, answer)
    else FinishOne(Sync(cached, stored, groups, clock, answer, sets[..|sets| - 1]), sets[|sets| - 1])
  }

  function FinishOne(p: Push, f: Finish): Push {
    if !p.ok then p
    else PushStatus(WithCondition(p.memory, f.name, FINISHED, f.clock), p.server, f.answer)
  }

  lemma SyncMore(cached: Server, stored: Server, groups: seq<string>, clock: Clock, answer: Answer, sets: seq<Finish>, f: Finish)
    ensures Sync(cached, stored, groups, clock, answer, sets + [f]) ==
      FinishOne(Sync(cached, stored, groups, clock, answer, sets), f)
  {
    assert (sets + [f])[..|sets|] == sets;
  }

  /** Either nothing has been written and nothing has changed, or the last write is what is in memory. */
  ghost predicate InStep(stored: Server, p: Push) {
    && p.memory.was == Decode(stored.stored)
    && (p.ok ==>
         && p.memory.held == Some(p.server.version)
         && (|| (SameStatus(p.memory.was, p.memory.cur) && p.server == stored)
             || (Diverged(p.memory.was, p.memory.cur) && p.server.stored == Encode(p.memory.cur))))
  }

  lemma FinishInStep(stored: Server, p: Push, f: Finish)
    requires InStep(stored, p)
    ensures InStep(stored, FinishOne(p, f))
  {
    if p.ok {
      if SameStatus(p.memory.was, p.memory.cur) {
        FirstChangeDiverges(p.memory.was, p.memory.cur, f.name, f.clock);
      } else {
        DivergedForGood(p.memory.was, p.memory.cur, f.name, f.clock);
        DivergedIsDifferent(p.memory.was, SetAll(p.memory.cur, f.name, FINISHED, f.clock));
      }
    }
  }

  lemma {:induction false} SyncInStep(stored: Server, groups: seq<string>, clock: Clock, answer: Answer, sets: seq<Finish>)
    ensures InStep(stored, Sync(stored, stored, groups, clock, answer, sets))
  {
    if sets == [] {
      MergeDiverges(Decode(stored.stored), groups, clock);
    } else {
      SyncInStep(stored, groups, clock, answer, sets[..|sets| - 1]);
      FinishInStep(stored, Sync(stored, stored, groups, clock, answer, sets[..|sets| - 1]), sets[|sets| - 1]);
    }
  }

  /** A condition in memory after names have been set: as merged, or finished because its name was set. */
  ghost predicate Became(merged: Condition, cur: Condition, wasSet: bool) {
    && cur.name == merged.name
    && (!wasSet || merged.status == FINISHED ==> cur == merged)
    && (wasSet ==> cur.status == FINISHED)
  }

  predicate WasSet(sets: seq<Finish>, name: string) {
    exists i :: 0 <= i < |sets| && sets[i].name == name
  }

  /**
   The conditions in memory at any point of a sync: the groups, in order, and each as the
   last old condition of its name or a fresh one, unless its name was set since.
   */
  lemma {:induction false} ConditionsInMemory(cached: Server, stored: Server, groups: seq<string>, clock: Clock,
      answer: Answer, sets: seq<Finish>)
    ensures var p := Sync(cached, stored, groups, clock, answer, sets);
      && Names(p.memory.cur) == groups
      && p.memory.was == Decode(cached.stored)
      && (p.ok ==> forall i :: 0 <= i < |groups| ==>
           Became(MergeOne(GetOr(Decode(cached.stored), []), groups[i], clock(i)), p.memory.cur[i], WasSet(sets, groups[i])))
  {
    MergedNames(Decode(cached.stored), groups, clock);
    if sets != [] {
      var init, last := sets[..|sets| - 1], sets[|sets| - 1];
      ConditionsInMemory(cached, stored, groups, clock, answer, init);
      var p := Sync(cached, stored, groups, clock, answer, init);
      SetNames(p.memory.cur, last.name, FINISHED, last.clock);
      forall name
        ensures WasSet(sets, name) <==> WasSet(init, name) || name == last.name
      {
        WasSetMore(init, last, name);
        assert init + [last] == sets;
      }
      assert |Names(p.memory.cur)| == |p.memory.cur|;
      if FinishOne(p, last).ok {
        forall i | 0 <= i < |groups|
          ensures Became(MergeOne(GetOr(Decode(cached.stored), []), groups[i], clock(i)),
            FinishOne(p, last).memory.cur[i], WasSet(sets, groups[i]))
        {
          assert Names(p.memory.cur)[i] == p.memory.cur[i].name;
          BecameMore(MergeOne(GetOr(Decode(cached.stored), []), groups[i], clock(i)), p.memory.cur[i],
            WasSet(init, groups[i]), last.name, last.clock(i));
        }
      }
    }
  }

  lemma BecameMore(merged: Condition, cur: Condition, wasSet: bool, name: string, now: nat)
    requires Became(merged, cur, wasSet)
    ensures Became(merged, SetOne(cur, name, FINISHED, now), wasSet || name == cur.name)
  {
  }

  lemma WasSetMore(sets: seq<Finish>, f: Finish, name: string)
    ensures WasSet(sets + [f], name) <==> WasSet(sets, name) || name == f.name
  {
    assert (sets + [f])[|sets|] == f;
    assert forall i :: 0 <= i < |sets| ==> (sets + [f])[i] == sets[i];
  }

  /**
   After every update of the status that succeeded, written or skipped, the stored conditions
   read as the ones in memory, which is what writing every time would have left; although
   the comparison is with a snapshot that is never refreshed, and names may repeat.
   */
  lemma SkippingIsSafe(stored: Server, groups: seq<string>, clock: Clock, answer: Answer, sets: seq<Finish>)
    ensures var p := Sync(stored, stored, groups, clock, answer, sets);
      p.ok ==>
        && Decode(p.server.stored) == Decode(Encode(p.memory.cur))
        && (groups != [] ==> Decode(p.server.stored) == Some(TruncatedAll(p.memory.cur)))
  {
    SyncInStep(stored, groups, clock, answer, sets);
    ConditionsInMemory(stored, stored, groups, clock, answer, sets);
    var p := Sync(stored, stored, groups, clock, answer, sets);
    assert |Names(p.memory.cur)| == |p.memory.cur|;
    RoundTrip(p.memory.cur);
    ReadIsTruncated(stored.stored);
  }

  /** A sync from a stale object changes nothing, and succeeds only while its status is the stale one. */
  lemma {:induction false} StaleWritesNothing(cached: Server, stored: Server, groups: seq<string>, clock: Clock,
      answer: Answer, sets: seq<Finish>)
    requires cached.version != stored.version
    ensures var p := Sync(cached, stored, groups, clock, answer, sets);
      && p.server == stored
      && (p.ok ==> SameStatus(p.memory.was, p.memory.cur) && p.memory.held == Some(cached.version))
  {
    if sets != [] {
      StaleWritesNothing(cached, stored, groups, clock, answer, sets[..|sets| - 1]);
    }
  }

  // ---- When nothing is written ----

  /** Conditions of one name are one and the same. */
  predicate Canonical(cs: seq<Condition>) {
    forall i, j :: 0 <= i < |cs| && 0 <= j < |cs| && cs[i].name == cs[j].name ==> cs[i] == cs[j]
  }

  lemma OwnLast(was: seq<Condition>, groups: seq<string>, clock: Clock, i: nat) returns (j: nat)
    requires Names(was) == groups && i < |groups|
    ensures i < |was| == |groups| && j < |was|
    ensures Merge(Some(was), groups, clock)[i] == was[j] && was[j].name == was[i].name == groups[i]
    ensures LastNamed(was, groups[i]) == Some(was[j])
  {
    assert |Names(was)| == |was|;
    assert Names(was)[i] == was[i].name;
    j := LastNamedIsLast(was, groups[i]);
  }

  lemma SameLast(was: seq<Condition>, groups: seq<string>, clock: Clock)
    requires Names(was) == groups
    ensures Canonical(Merge(Some(was), groups, clock))
  {
    var cur := Merge(Some(was), groups, clock);
    forall i, j | 0 <= i < |cur| && 0 <= j < |cur| && cur[i].name == cur[j].name
      ensures cur[i] == cur[j]
    {
      var x := OwnLast(was, groups, clock, i);
      var y := OwnLast(was, groups, clock, j);
      assert groups[i] == groups[j];
    }
  }

  /** Conditions with the right names are merged into themselves exactly if they agree. */
  lemma MergeOfOwn(was: seq<Condition>, groups: seq<string>, clock: Clock)
    requires Names(was) == groups
    ensures Merge(Some(was), groups, clock) == was <==> Canonical(was)
  {
    SameLast(was, groups, clock);
    if Canonical(was) {
      assert |Names(was)| == |was|;
      forall i | 0 <= i < |groups|
        ensures Merge(Some(was), groups, clock)[i] == was[i]
      {
        var _ := OwnLast(was, groups, clock, i);
      }
    }
  }

  lemma MergeKeepsTruncated(was: seq<Condition>, groups: seq<string>, clock: Clock)
    requires Names(was) == groups && TruncatedAll(was) == was
    ensures TruncatedAll(Merge(Some(was), groups, clock)) == Merge(Some(was), groups, clock)
  {
    var cur := Merge(Some(was), groups, clock);
    forall i | 0 <= i < |groups|
      ensures Truncated(cur[i]) == cur[i]
    {
      var j := OwnLast(was, groups, clock, i);
      assert Truncated(was[j]) == TruncatedAll(was)[j];
    }
    assert TruncatedAll(cur) == cur;
  }

  /**
   An Initialize makes no status call exactly if there are groups, and the stored conditions
   are readable, have their names, and agree where these repeat.  With no groups at all it
   writes every time.
   */
  lemma InitializeIsQuietExactly(stored: Server, groups: seq<string>, clock: Clock)
    ensures SameStatus(Decode(stored.stored), Merge(Decode(stored.stored), groups, clock)) <==>
      && groups != [] && Decode(stored.stored).Some?
      && Names(Decode(stored.stored).value) == groups && Canonical(Decode(stored.stored).value)
  {
    var was := Decode(stored.stored);
    MergedNames(was, groups, clock);
    if was.Some? && Names(was.value) == groups {
      MergeOfOwn(was.value, groups, clock);
      assert |Names(was.value)| == |was.value|;
    }
  }

  /** A sync that starts with every group finished, and so says, makes no status call and changes nothing. */
  lemma {:induction false} FinishedIsQuiet(stored: Server, groups: seq<string>, clock: Clock, answer: Answer, sets: seq<Finish>)
    requires groups != [] && Decode(stored.stored).Some? && Names(Decode(stored.stored).value) == groups
    requires Canonical(Decode(stored.stored).value)
    requires forall c :: c in Decode(stored.stored).value ==> c.status == FINISHED
    ensures var p := Sync(stored, stored, groups, clock, answer, sets);
      p.ok && !p.called && p.server == stored && Some(p.memory.cur) == p.memory.was == Decode(stored.stored)
  {
    var cs := Decode(stored.stored).value;
    if sets == [] {
      InitializeIsQuietExactly(stored, groups, clock);
    } else {
      FinishedIsQuiet(stored, groups, clock, answer, sets[..|sets| - 1]);
      var last := sets[|sets| - 1];
      assert SetAll(cs, last.name, FINISHED, last.clock) == cs;
    }
  }

  // ---- Any number of syncs ----

  datatype Phase = Idle | Begun | Live

  datatype Loop = Loop(server: Server, phase: Phase, memory: Memory, changes: nat)

  /** A sync begins with a cached object, stale or not, and may be abandoned at any point. */
  datatype Label =
    | Begin(cached: Server)
    | Initialize(clock: Clock, answer: Answer)
    | SetFinished(name: string, clock: Clock, answer: Answer)
    | Touch

  ghost predicate Enabled(s: Loop, l: Label) {
    match l
    case Begin(cached) =>
      cached.version <= s.server.version && (cached.version == s.server.version ==> cached == s.server)
    case Initialize(_, _) => s.phase == Begun
    case SetFinished(_, _, _) => s.phase == Live
    case Touch => true
  }

  function PushOf(groups: seq<string>, s: Loop, l: Label): Push
    requires l.Initialize? || l.SetFinished?
  {
    PushStatus(
      if l.Initialize? then Initialized(s.memory, groups, l.clock)
      else WithCondition(s.memory, l.name, FINISHED, l.clock), s.server, l.answer)
  }

  /** A failed write ends the sync. */
  function AfterPush(s: Loop, p: Push): Loop {
    Loop(p.server, if p.ok then Live else Idle, p.memory, s.changes + if p.server.stored != s.server.stored then 1 else 0)
  }

  function After(groups: seq<string>, s: Loop, l: Label): Loop {
    match l
    case Begin(cached) => s.(phase := Begun, memory := Memory(Decode(cached.stored), [], Some(cached.version)))
    case Touch => s.(server := s.server.(version := s.server.version + 1))
    case _ => AfterPush(s, PushOf(groups, s, l))
  }

  function Run(groups: seq<string>, s: Loop, ls: seq<Label>): Loop {
    if ls == [] then s else After(groups, Run(groups, s, ls[..|ls| - 1]), ls[|ls| - 1])
  }

  ghost predicate Possible(groups: seq<string>, s: Loop, ls: seq<Label>) {
    forall i :: 0 <= i < |ls| ==> Enabled(Run(groups, s, ls[..i]), ls[i])
  }

  // ---- How much is left to change ----

  function Weight(c: Condition): nat {
    if c.status == FINISHED then 0 else 1
  }

  function Unfinished(cs: seq<Condition>): nat {
    if cs == [] then 0 else Unfinished(cs[..|cs| - 1]) + Weight(cs[|cs| - 1])
  }

  predicate Repeats(groups: seq<string>) {
    exists i, j :: 0 <= i < j < |groups| && groups[i] == groups[j]
  }

  /** Each unfinished condition can change once, and once they can be made to agree. */
  function Cost(cs: seq<Condition>): nat {
    Unfinished(cs) + if Canonical(cs) then 0 else 1
  }

  /** What an Initialize makes of conditions with the right names. */
  function Agreed(cs: seq<Condition>): seq<Condition> {
    Merge(Some(cs), Names(cs), i => 0)
  }

  /** How many more times the stored status can change. */
  function Remaining(groups: seq<string>, stored: RawStatus): nat {
    var cs := Decode(stored);
    if groups == [] then (if stored == NoList then 0 else 1)
    else if cs.None? || Names(cs.value) != groups then |groups| + 1 + (if Repeats(groups) then 1 else 0)
    else if Canonical(cs.value) then Unfinished(cs.value)
    else 1 + Unfinished(Agreed(cs.value))
  }

  /** Unfinished conditions are counted slot by slot. */
  lemma {:induction false} UnfinishedByStatus(cs: seq<Condition>, ds: seq<Condition>)
    requires |cs| == |ds| && forall i :: 0 <= i < |cs| ==> Weight(ds[i]) <= Weight(cs[i])
    ensures Unfinished(ds) <= Unfinished(cs) <= |cs|
    ensures (exists i :: 0 <= i < |cs| && Weight(ds[i]) < Weight(cs[i])) ==> Unfinished(ds) < Unfinished(cs)
    ensures (exists i, j :: 0 <= i < j < |cs| && Weight(ds[i]) < Weight(cs[i]) && Weight(ds[j]) < Weight(cs[j])) ==>
      Unfinished(ds) + 1 < Unfinished(cs)
  {
    if cs != [] {
      var c, d := cs[..|cs| - 1], ds[..|ds| - 1];
      assert forall i :: 0 <= i < |c| ==> c[i] == cs[i] && d[i] == ds[i];
      UnfinishedByStatus(c, d);
    }
  }

  /** Equal-named conditions have equal status. */
  ghost predicate Even(cs: seq<Condition>) {
    forall i, j :: 0 <= i < |cs| && 0 <= j < |cs| && cs[i].name == cs[j].name ==> cs[i].status == cs[j].status
  }

  lemma MergeIsEven(was: Option<seq<Condition>>, groups: seq<string>, clock: Clock)
    ensures Even(Merge(was, groups, clock))
  {
    forall i | 0 <= i < |groups|
      ensures Merge(was, groups, clock)[i].name == groups[i]
    {
      MergedName(was, groups, clock, i);
    }
  }

  lemma SetIsEven(cs: seq<Condition>, name: string, clock: Clock)
    requires Even(cs)
    ensures Even(SetAll(cs, name, FINISHED, clock))
  {
  }

  lemma AgreedIsAsFinished(cs: seq<Condition>)
    requires Even(cs)
    ensures Unfinished(Agreed(cs)) == Unfinished(cs)
  {
    forall i | 0 <= i < |cs|
      ensures Weight(Agreed(cs)[i]) == Weight(cs[i])
    {
      assert Names(cs)[i] == cs[i].name;
      var j := LastNamedIsLast(cs, cs[i].name);
      assert Agreed(cs)[i] == cs[j];
    }
    UnfinishedByStatus(cs, Agreed(cs));
    UnfinishedByStatus(Agreed(cs), cs);
  }

  lemma TruncatedKeeps(cs: seq<Condition>)
    ensures Names(TruncatedAll(cs)) == Names(cs)
    ensures Unfinished(TruncatedAll(cs)) == Unfinished(cs)
    ensures Even(cs) ==> Even(TruncatedAll(cs))
    ensures Canonical(cs) ==> Canonical(TruncatedAll(cs))
  {
    UnfinishedByStatus(cs, TruncatedAll(cs));
    UnfinishedByStatus(TruncatedAll(cs), cs);
    assert Names(TruncatedAll(cs)) == Names(cs);
  }

  /** What remains once conditions have been written. */
  lemma RemainingAfterWrite(groups: seq<string>, cs: seq<Condition>)
    requires groups != [] && Names(cs) == groups && Even(cs)
    ensures Remaining(groups, Encode(cs)) == Cost(TruncatedAll(cs))
    ensures Cost(TruncatedAll(cs)) <= |groups| + (if Repeats(groups) then 1 else 0)
  {
    var ts := TruncatedAll(cs);
    assert |Names(cs)| == |cs|;
    RoundTrip(cs);
    TruncatedKeeps(cs);
    AgreedIsAsFinished(ts);
    UnfinishedByStatus(ts, ts);
    if !Canonical(ts) {
      var i, j := DisagreeAt(ts);
      assert Names(ts)[i] == Names(ts)[j];
      assert groups[if i < j then i else j] == groups[if i < j then j else i];
    }
  }

  lemma OneIsFinished(cs: seq<Condition>, name: string, clock: Clock)
    ensures var ds := SetAll(cs, name, FINISHED, clock);
      Unfinished(ds) <= Unfinished(cs) && (ds != cs ==> Unfinished(ds) < Unfinished(cs))
  {
    var ds := SetAll(cs, name, FINISHED, clock);
    UnfinishedByStatus(cs, ds);
    if ds != cs {
      var i :| 0 <= i < |cs| && ds[i] != cs[i];
      assert Weight(ds[i]) < Weight(cs[i]);
    }
  }

  lemma DisagreeingIsFinished(cs: seq<Condition>, name: string, clock: Clock, i: nat, j: nat)
    requires i < |cs| && j < |cs| && cs[i].name == cs[j].name && Truncated(cs[i]) == Truncated(cs[j])
    requires var ds := SetAll(cs, name, FINISHED, clock); Truncated(ds[i]) != Truncated(ds[j])
    ensures var ds := SetAll(cs, name, FINISHED, clock);
      i != j && Weight(ds[i]) < Weight(cs[i]) && Weight(ds[j]) < Weight(cs[j])
  {
  }

  lemma TwoAreFinished(cs: seq<Condition>, name: string, clock: Clock)
    requires Canonical(TruncatedAll(cs)) && !Canonical(TruncatedAll(SetAll(cs, name, FINISHED, clock)))
    ensures Unfinished(SetAll(cs, name, FINISHED, clock)) + 1 < Unfinished(cs)
  {
    var ds := SetAll(cs, name, FINISHED, clock);
    var i, j := DisagreeAt(TruncatedAll(ds));
    assert TruncatedAll(cs)[i] == TruncatedAll(cs)[j];
    DisagreeingIsFinished(cs, name, clock, i, j);
    UnfinishedByStatus(cs, ds);
    assert i < j || j < i;
  }

  lemma DisagreeAt(cs: seq<Condition>) returns (i: nat, j: nat)
    requires !Canonical(cs)
    ensures i < |cs| && j < |cs| && cs[i].name == cs[j].name && cs[i] != cs[j]
  {
    i, j :| i < |cs| && j < |cs| && cs[i].name == cs[j].name && cs[i] != cs[j];
  }

  /** Finishing a condition uses up one change, or two if it leaves conditions that do not agree. */
  lemma FinishingCosts(cs: seq<Condition>, name: string, clock: Clock)
    ensures var ds := SetAll(cs, name, FINISHED, clock);
      ds != cs ==> Cost(TruncatedAll(ds)) < Cost(TruncatedAll(cs))
  {
    var ds := SetAll(cs, name, FINISHED, clock);
    TruncatedKeeps(cs);
    TruncatedKeeps(ds);
    OneIsFinished(cs, name, clock);
    if Canonical(TruncatedAll(cs)) && !Canonical(TruncatedAll(ds)) {
      TwoAreFinished(cs, name, clock);
    }
  }

  // ---- Every change is paid for ----

  /** What a sync knows, as long as it holds the current version. */
  ghost predicate Knows(groups: seq<string>, s: Loop) {
    var m := s.memory;
    && (s.phase == Begun && m.held == Some(s.server.version) ==> m.was == Decode(s.server.stored))
    && (s.phase == Live ==> Names(m.cur) == groups && Even(m.cur))
    && (s.phase == Live && m.held == Some(s.server.version) ==>
         || (SameStatus(m.was, m.cur) && m.was == Decode(s.server.stored))
         || (Diverged(m.was, m.cur) && s.server.stored == Encode(m.cur)))
    && (s.phase != Idle && m.held.Some? ==> m.held.value <= s.server.version)
  }

  ghost predicate PaidFor(groups: seq<string>, s: Loop, s': Loop) {
    s'.changes + Remaining(groups, s'.server.stored) <= s.changes + Remaining(groups, s.server.stored)
  }

  /** A write that changes what is stored uses up one of the remaining changes. */
  lemma ChangeIsPaidFor(groups: seq<string>, s: Loop, l: Label)
    requires Knows(groups, s) && Enabled(s, l)
    ensures Knows(groups, After(groups, s, l)) && PaidFor(groups, s, After(groups, s, l))
  {
    match l
    case Begin(_) =>
    case Touch =>
    case Initialize(_, _) =>
      InitializeKnows(groups, s, l);
      InitializeIsPaidFor(groups, s, l);
    case SetFinished(_, _, _) =>
      FinishKnows(groups, s, l);
      FinishIsPaidFor(groups, s, l);
  }

  lemma InitializeKnows(groups: seq<string>, s: Loop, l: Label)
    requires Knows(groups, s) && Enabled(s, l) && l.Initialize?
    ensures Knows(groups, After(groups, s, l))
  {
    MergedNames(s.memory.was, groups, l.clock);
    MergeDiverges(s.memory.was, groups, l.clock);
    MergeIsEven(s.memory.was, groups, l.clock);
  }

  /** An Initialize that writes uses up one of the remaining changes. */
  lemma InitializePays(groups: seq<string>, s: Loop, l: Label)
    requires Knows(groups, s) && Enabled(s, l) && l.Initialize? && groups != []
    requires PushOf(groups, s, l).called && PushOf(groups, s, l).ok
    ensures Remaining(groups, After(groups, s, l).server.stored) < Remaining(groups, s.server.stored)
  {
    var was, cur := s.memory.was, Merge(s.memory.was, groups, l.clock);
    MergedNames(was, groups, l.clock);
    MergeIsEven(was, groups, l.clock);
    RemainingAfterWrite(groups, cur);
    if was.Some? && Names(was.value) == groups {
      InitializeAgrees(groups, s.server.stored, l.clock);
    }
  }

  lemma InitializeIsPaidFor(groups: seq<string>, s: Loop, l: Label)
    requires Knows(groups, s) && Enabled(s, l) && l.Initialize?
    ensures PaidFor(groups, s, After(groups, s, l))
  {
    var p := PushOf(groups, s, l);
    if p.called && p.ok && groups != [] {
      InitializePays(groups, s, l);
    }
  }

  /** An Initialize that writes conditions of the right names makes them agree. */
  lemma InitializeAgrees(groups: seq<string>, stored: RawStatus, clock: Clock)
    requires groups != [] && Decode(stored).Some? && Names(Decode(stored).value) == groups
    requires !SameStatus(Decode(stored), Merge(Decode(stored), groups, clock))
    ensures Cost(TruncatedAll(Merge(Decode(stored), groups, clock))) + 1 == Remaining(groups, stored)
  {
    var was := Decode(stored).value;
    ReadIsTruncated(stored);
    MergeOfOwn(was, groups, clock);
    MergeKeepsTruncated(was, groups, clock);
    SameLast(was, groups, clock);
    MergeIsAgreed(was, groups, clock);
    assert |Names(was)| == |was|;
  }

  lemma MergeIsAgreed(was: seq<Condition>, groups: seq<string>, clock: Clock)
    requires Names(was) == groups
    ensures Merge(Some(was), groups, clock) == Agreed(was)
  {
    forall i | 0 <= i < |groups|
      ensures Merge(Some(was), groups, clock)[i] == Agreed(was)[i]
    {
      var _ := OwnLast(was, groups, clock, i);
    }
  }

  lemma FinishKnows(groups: seq<string>, s: Loop, l: Label)
    requires Knows(groups, s) && Enabled(s, l) && l.SetFinished?
    ensures Knows(groups, After(groups, s, l))
  {
    var m := s.memory;
    SetNames(m.cur, l.name, FINISHED, l.clock);
    SetIsEven(m.cur, l.name, l.clock);
    if SameStatus(m.was, m.cur) {
      FirstChangeDiverges(m.was, m.cur, l.name, l.clock);
    } else if Diverged(m.was, m.cur) {
      DivergedForGood(m.was, m.cur, l.name, l.clock);
    }
  }

  /** A write that follows a change in memory uses up one of the remaining changes. */
  lemma FinishPays(groups: seq<string>, s: Loop, l: Label)
    requires Knows(groups, s) && Enabled(s, l) && l.SetFinished? && groups != []
    requires PushOf(groups, s, l).called && PushOf(groups, s, l).ok
    ensures After(groups, s, l).memory.cur != s.memory.cur ==>
      Remaining(groups, After(groups, s, l).server.stored) < Remaining(groups, s.server.stored)
  {
    var m := s.memory;
    var cur := SetAll(m.cur, l.name, FINISHED, l.clock);
    SetNames(m.cur, l.name, FINISHED, l.clock);
    SetIsEven(m.cur, l.name, l.clock);
    RemainingAfterWrite(groups, cur);
    FinishingCosts(m.cur, l.name, l.clock);
    RemainingInMemory(groups, s);
  }

  /** Conditions that are the same in memory are the same when stored. */
  lemma UnchangedStaysStored(groups: seq<string>, s: Loop, l: Label)
    requires Knows(groups, s) && Enabled(s, l) && l.SetFinished?
    requires PushOf(groups, s, l).called && PushOf(groups, s, l).ok
    requires After(groups, s, l).memory.cur == s.memory.cur
    ensures After(groups, s, l).server.stored == s.server.stored
  {
  }

  lemma FinishIsPaidFor(groups: seq<string>, s: Loop, l: Label)
    requires Knows(groups, s) && Enabled(s, l) && l.SetFinished?
    ensures PaidFor(groups, s, After(groups, s, l))
  {
    var p := PushOf(groups, s, l);
    if p.called && p.ok && groups != [] {
      FinishPays(groups, s, l);
      if p.memory.cur == s.memory.cur {
        UnchangedStaysStored(groups, s, l);
      }
    }
  }

  /** What remains can be read off the memory of a sync that holds the current version. */
  lemma RemainingInMemory(groups: seq<string>, s: Loop)
    requires Knows(groups, s) && s.phase == Live && s.memory.held == Some(s.server.version) && groups != []
    ensures Remaining(groups, s.server.stored) == Cost(TruncatedAll(s.memory.cur))
  {
    var m := s.memory;
    RemainingAfterWrite(groups, m.cur);
    if SameStatus(m.was, m.cur) {
      ReadIsTruncated(s.server.stored);
      AgreedIsAsFinished(m.cur);
    }
  }

  lemma {:induction false} ChangesArePaidFor(groups: seq<string>, s: Loop, ls: seq<Label>)
    requires s.phase == Idle && Possible(groups, s, ls)
    ensures Knows(groups, Run(groups, s, ls)) && PaidFor(groups, s, Run(groups, s, ls))
  {
    if ls != [] {
      var init := ls[..|ls| - 1];
      forall i | 0 <= i < |init|
        ensures Enabled(Run(groups, s, init[..i]), init[i])
      {
        assert init[..i] == ls[..i];
      }
      ChangesArePaidFor(groups, s, init);
      ChangeIsPaidFor(groups, Run(groups, s, init), ls[|ls| - 1]);
    }
  }

  lemma RemainingAtMost(groups: seq<string>, stored: RawStatus)
    ensures Remaining(groups, stored) <= |groups| + 1 + (if Repeats(groups) then 1 else 0)
  {
    var cs := Decode(stored);
    if groups != [] && cs.Some? && Names(cs.value) == groups {
      assert |Names(cs.value)| == |cs.value|;
      UnfinishedByStatus(cs.value, cs.value);
      UnfinishedByStatus(Agreed(cs.value), Agreed(cs.value));
    }
  }

  /**
   Quiescence: for a fixed list of n groups, and nobody else writing the status, any number of
   syncs, fresh or stale, finished, failed or abandoned, changes the stored status at most
   n + 1 times; one time more if names repeat.
   */
  lemma AtMostOneChangePerGroupAndOne(groups: seq<string>, s: Loop, ls: seq<Label>)
    requires s.phase == Idle && s.changes == 0 && Possible(groups, s, ls)
    ensures Run(groups, s, ls).changes <= |groups| + 1 + (if Repeats(groups) then 1 else 0)
  {
    ChangesArePaidFor(groups, s, ls);
    RemainingAtMost(groups, s.server.stored);
  }

  // ---- With repeated names the bound is one higher, and is reached ----

  const TWICE: seq<string> := ["a", "a"]

  function Pair(x: nat, y: nat, status: string): seq<Condition> {
    [Condition("a", status, x * SECOND), Condition("a", status, y * SECOND)]
  }

  /** A clock that shows second t for the first slot and t + 1 for the second. */
  function At(t: nat): Clock {
    i => (t + i) * SECOND
  }

  lemma Extend(s: Loop, ls: seq<Label>, l: Label)
    requires Possible(TWICE, s, ls) && Enabled(Run(TWICE, s, ls), l)
    ensures Possible(TWICE, s, ls + [l])
    ensures Run(TWICE, s, ls + [l]) == After(TWICE, Run(TWICE, s, ls), l)
  {
    var more := ls + [l];
    assert more[..|ls|] == ls;
    forall i | 0 <= i < |more|
      ensures Enabled(Run(TWICE, s, more[..i]), more[i])
    {
      assert i < |ls| ==> more[..i] == ls[..i];
    }
  }

  lemma PairIsRead(x: nat, y: nat, status: string)
    ensures Decode(Encode(Pair(x, y, status))) == Some(Pair(x, y, status))
  {
    RoundTrip(Pair(x, y, status));
    assert x * SECOND / SECOND == x && y * SECOND / SECOND == y;
    assert TruncatedAll(Pair(x, y, status)) == Pair(x, y, status);
  }

  lemma PairsAreMerged(x: nat, y: nat, status: string, t: nat)
    ensures Merge(None, TWICE, At(t)) == Pair(t, t + 1, NOT_STARTED)
    ensures Merge(Some(Pair(x, y, status)), TWICE, At(t)) == Pair(y, y, status)
    ensures SetAll(Pair(x, y, NOT_STARTED), "a", FINISHED, At(t)) == Pair(t, t + 1, FINISHED)
  {
    assert NOT_STARTED != FINISHED by {
      assert |NOT_STARTED| != |FINISHED|;
    }
  }

  /** An accepted Initialize, by a sync that begins with what is stored. */
  lemma Initializes(s: Loop, ls: seq<Label>, t: nat) returns (more: seq<Label>)
    requires Possible(TWICE, s, ls)
    requires var srv := Run(TWICE, s, ls).server;
      !SameStatus(Decode(srv.stored), Merge(Decode(srv.stored), TWICE, At(t)))
      && Encode(Merge(Decode(srv.stored), TWICE, At(t))) != srv.stored
    ensures Possible(TWICE, s, more)
    ensures var w, w' := Run(TWICE, s, ls), Run(TWICE, s, more);
      var cur := Merge(Decode(w.server.stored), TWICE, At(t));
      w' == Loop(Server(Encode(cur), w.server.version + 1), Live,
                 Memory(Decode(w.server.stored), cur, Some(w.server.version + 1)), w.changes + 1)
  {
    var srv := Run(TWICE, s, ls).server;
    Extend(s, ls, Begin(srv));
    Extend(s, ls + [Begin(srv)], Initialize(At(t), Accepts));
    more := ls + [Begin(srv)] + [Initialize(At(t), Accepts)];
  }

  /** A sync that has just written these conditions, the `changes`th to do so. */
  ghost predicate Wrote(w: Loop, was: Option<seq<Condition>>, cur: seq<Condition>, changes: nat) {
    w == Loop(Server(Encode(cur), changes), Live, Memory(was, cur, Some(changes)), changes)
  }

  /** The two fresh conditions are written, and the next sync makes them agree. */
  lemma TwoChanges(s: Loop) returns (ls: seq<Label>)
    requires s == Loop(Server(NoList, 0), Idle, Memory(None, [], None), 0)
    ensures Possible(TWICE, s, ls)
    ensures Wrote(Run(TWICE, s, ls), Some(Pair(0, 1, NOT_STARTED)), Pair(1, 1, NOT_STARTED), 2)
  {
    PairsAreMerged(0, 1, NOT_STARTED, 0);
    PairIsRead(0, 1, NOT_STARTED);
    ls := Initializes(s, [], 0);
    assert Wrote(Run(TWICE, s, ls), None, Pair(0, 1, NOT_STARTED), 1);
    PairsAreMerged(0, 1, NOT_STARTED, 10);
    PairIsRead(1, 1, NOT_STARTED);
    ls := Initializes(s, ls, 10);
  }

  lemma ThirdChange(s: Loop, ls: seq<Label>) returns (more: seq<Label>)
    requires Possible(TWICE, s, ls)
    requires Wrote(Run(TWICE, s, ls), Some(Pair(0, 1, NOT_STARTED)), Pair(1, 1, NOT_STARTED), 2)
    ensures Possible(TWICE, s, more)
    ensures Wrote(Run(TWICE, s, more), Some(Pair(0, 1, NOT_STARTED)), Pair(20, 21, FINISHED), 3)
  {
    PairsAreMerged(1, 1, NOT_STARTED, 20);
    PairIsRead(1, 1, NOT_STARTED);
    PairIsRead(20, 21, FINISHED);
    var finish := SetFinished("a", At(20), Accepts);
    Extend(s, ls, finish);
    more := ls + [finish];
  }

  /** Two groups of one name: four changes, as fresh conditions of one name need not agree. */
  lemma RepeatedNamesCostOneMore() returns (s: Loop, ls: seq<Label>)
    ensures s.phase == Idle && s.changes == 0 && Possible(TWICE, s, ls)
    ensures Repeats(TWICE) && Run(TWICE, s, ls).changes == |TWICE| + 2
  {
    s := Loop(Server(NoList, 0), Idle, Memory(None, [], None), 0);
    ls := TwoChanges(s);
    ls := ThirdChange(s, ls);
    PairsAreMerged(20, 21, FINISHED, 30);
    PairIsRead(20, 21, FINISHED);
    PairIsRead(21, 21, FINISHED);
    ls := Initializes(s, ls, 30);
    assert TWICE[0] == TWICE[1];
  }
}
