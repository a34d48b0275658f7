/**
 The status conditions of feedback/feedback.go as values: how they are read from and
 written to an object, merged with the groups of a rollout, and set to finished.
 */
module Status {
  import opened Wrappers

  const NOT_STARTED := "Not Started"
  const FINISHED := "Finished"

  /** Times are in nanoseconds; an object stores whole seconds. */
  const SECOND: nat := 1_000_000_000

  datatype Condition = Condition(name: string, status: string, time: nat)

  /** A stored condition; a field is None when missing or of another type. */
  datatype RawCondition = NotMap | Raw(name: Option<string>, status: Option<string>, time: Option<nat>)

  /** The stored `status.conditions`. */
  datatype RawStatus = NoList | RawList(items: seq<RawCondition>)

  function GetOr<T>(o: Option<T>, default: T): T {
    if o.Some? then o.value else default
  }

  function DecodeCondition(r: RawCondition): Condition {
    if r.NotMap? then Condition("", "", 0)
    else Condition(GetOr(r.name, ""), GetOr(r.status, ""), GetOr(r.time, 0) * SECOND)
  }

  function DecodeAll(rs: seq<RawCondition>): seq<Condition> {
    seq(|rs|, i requires 0 <= i < |rs| => DecodeCondition(rs[i]))
  }

  /** None is the nil status that unreadable conditions give. */
  function Decode(s: RawStatus): Option<seq<Condition>> {
    if s.NoList? || NotMap in s.items then None else Some(DecodeAll(s.items))
  }

  function EncodeCondition(c: Condition): RawCondition {
    Raw(Some(c.name), Some(c.status), Some(c.time / SECOND))
  }

  /** No conditions are a nil slice, which is stored as null. */
  function Encode(cs: seq<Condition>): RawStatus {
    if cs == [] then NoList
    else RawList(seq(|cs|, i requires 0 <= i < |cs| => EncodeCondition(cs[i])))
  }

  function Truncated(c: Condition): Condition {
    c.(time := c.time / SECOND * SECOND)
  }

  function TruncatedAll(cs: seq<Condition>): seq<Condition> {
    seq(|cs|, i requires 0 <= i < |cs| => Truncated(cs[i]))
  }

  /** Writing conditions and reading them back loses the fractions of seconds, and nothing else. */
  lemma RoundTrip(cs: seq<Condition>)
    ensures Decode(Encode(cs)) == if cs == [] then None else Some(TruncatedAll(cs))
  {
    if cs != [] {
      assert NotMap !in Encode(cs).items;
      assert DecodeAll(Encode(cs).items) == TruncatedAll(cs);
    }
  }

  /** What is stored of conditions, and what is read of it: a missing field reads as the empty one. */
  lemma StoredFields(cs: seq<Condition>, s: RawStatus)
    ensures cs == [] ==> Encode(cs) == NoList
    ensures cs != [] ==> Encode(cs).RawList? && |Encode(cs).items| == |cs|
    ensures forall i :: 0 <= i < |cs| ==>
      Encode(cs).items[i] == Raw(Some(cs[i].name), Some(cs[i].status), Some(cs[i].time / 1_000_000_000))
    ensures Decode(s).None? <==> s.NoList? || exists i :: 0 <= i < |s.items| && s.items[i].NotMap?
    ensures Decode(s).Some? ==> |Decode(s).value| == |s.items| && forall i :: 0 <= i < |s.items| ==>
      var raw, read := s.items[i], Decode(s).value[i];
      && (if raw.name.Some? then read.name == raw.name.value else read.name == "")
      && (if raw.status.Some? then read.status == raw.status.value else read.status == "")
      && (if raw.time.Some? then read.time == raw.time.value * 1_000_000_000 else read.time == 0)
  {
    if s.RawList? && NotMap in s.items {
      var i :| 0 <= i < |s.items| && s.items[i] == NotMap;
      assert s.items[i].NotMap?;
    }
  }

  /** What was read has no fractions of seconds. */
  lemma ReadIsTruncated(s: RawStatus)
    ensures Decode(s).Some? ==> TruncatedAll(Decode(s).value) == Decode(s).value
  {
  }

  function LastNamed(cs: seq<Condition>, name: string): Option<Condition> {
    if cs == [] then None
    else if cs[|cs| - 1].name == name then Some(cs[|cs| - 1])
    else LastNamed(cs[..|cs| - 1], name)
  }

  /** `clock(i)` is what the clock shows when slot i is filled. */
  type Clock = nat -> nat

  function MergeOne(was: seq<Condition>, group: string, now: nat): Condition {
    GetOr(LastNamed(was, group), Condition(group, NOT_STARTED, now))
  }

  function Merge(was: Option<seq<Condition>>, groups: seq<string>, clock: Clock): (r: seq<Condition>)
    ensures |r| == |groups|
    ensures forall i :: 0 <= i < |groups| ==> r[i] == MergeOne(GetOr(was, []), groups[i], clock(i))
  {
    seq(|groups|, i requires 0 <= i < |groups| => MergeOne(GetOr(was, []), groups[i], clock(i)))
  }

  function SetOne(c: Condition, name: string, status: string, now: nat): Condition {
    if c.name == name && c.status != status then Condition(name, status, now) else c
  }

  function SetAll(cs: seq<Condition>, name: string, status: string, clock: Clock): (r: seq<Condition>)
    ensures |r| == |cs| && forall i :: 0 <= i < |cs| ==> r[i] == SetOne(cs[i], name, status, clock(i))
  {
    seq(|cs|, i requires 0 <= i < |cs| => SetOne(cs[i], name, status, clock(i)))
  }

  /** Setting a status changes every condition of the name that has another one, and nothing else. */
  lemma SetExactly(cs: seq<Condition>, name: string, status: string, clock: Clock, i: nat)
    requires i < |cs|
    ensures |SetAll(cs, name, status, clock)| == |cs|
    ensures cs[i].name != name || cs[i].status == status ==> SetAll(cs, name, status, clock)[i] == cs[i]
    ensures cs[i].name == name && cs[i].status != status ==> SetAll(cs, name, status, clock)[i] == Condition(name, status, clock(i))
  {
    assert SetAll(cs, name, status, clock)[i] == SetOne(cs[i], name, status, clock(i));
  }

  function Names(cs: seq<Condition>): seq<string> {
    seq(|cs|, i requires 0 <= i < |cs| => cs[i].name)
  }

  /**
   The comparison that skips a write.  The read list is never a nil slice and the merged
   list is one when it is empty, so two empty lists are not equal.
   */
  predicate SameStatus(was: Option<seq<Condition>>, cur: seq<Condition>) {
    was == Some(cur) && cur != []
  }

  // ---- A status that differs from the old one differs for good ----

  ghost predicate DiffersAt(was: seq<Condition>, cur: seq<Condition>, i: int) {
    && 0 <= i < |cur| == |was|
    && (cur[i].name != was[i].name || (cur[i].status == FINISHED && cur[i] != was[i]))
  }

  /** Slots of one name that took over the same old condition, which is not finished. */
  ghost predicate DiffersBy(was: seq<Condition>, cur: seq<Condition>, i: int, j: int) {
    && 0 <= i < |cur| == |was| && 0 <= j < |cur|
    && cur[i] != was[i] && cur[i].name == cur[j].name && was[j].status != FINISHED
  }

  ghost predicate Diverged(was: Option<seq<Condition>>, cur: seq<Condition>) {
    || was.None? || cur == [] || |was.value| != |cur|
    || (exists i :: DiffersAt(was.value, cur, i))
    || (exists i, j :: DiffersBy(was.value, cur, i, j))
  }

  lemma DivergedIsDifferent(was: Option<seq<Condition>>, cur: seq<Condition>)
    requires Diverged(was, cur)
    ensures !SameStatus(was, cur)
  {
  }

  /** Finishing a condition never leads back to the old status, whatever the clock shows. */
  lemma DivergedForGood(was: Option<seq<Condition>>, cur: seq<Condition>, name: string, clock: Clock)
    requires Diverged(was, cur)
    ensures Diverged(was, SetAll(cur, name, FINISHED, clock))
  {
    var cur' := SetAll(cur, name, FINISHED, clock);
    if was.Some? && cur != [] && |was.value| == |cur| {
      if i :| DiffersAt(was.value, cur, i) {
        assert DiffersAt(was.value, cur', i);
      } else {
        var i, j :| DiffersBy(was.value, cur, i, j);
        if cur[i].name == name {
          assert DiffersAt(was.value, cur', j);
        } else {
          assert DiffersBy(was.value, cur', i, j);
        }
      }
    }
  }

  lemma {:induction false} LastNamedIsLast(cs: seq<Condition>, name: string) returns (j: int)
    ensures -1 <= j < |cs|
    ensures LastNamed(cs, name) == if j < 0 then None else Some(cs[j])
    ensures 0 <= j ==> cs[j].name == name
    ensures forall k :: j < k < |cs| ==> cs[k].name != name
  {
    if cs == [] {
      j := -1;
    } else if cs[|cs| - 1].name == name {
      j := |cs| - 1;
    } else {
      var init := cs[..|cs| - 1];
      j := LastNamedIsLast(init, name);
      assert forall k :: 0 <= k < |init| ==> init[k] == cs[k];
    }
  }

  /** After merging, the status is the old one or has diverged from it; group names may repeat. */
  lemma MergeDiverges(was: Option<seq<Condition>>, groups: seq<string>, clock: Clock)
    ensures var cur := Merge(was, groups, clock);
      SameStatus(was, cur) || Diverged(was, cur)
  {
    var cur := Merge(was, groups, clock);
    if was.Some? && cur != [] && |was.value| == |cur| && was.value != cur {
      var i :| 0 <= i < |cur| && cur[i] != was.value[i];
      var j := LastNamedIsLast(was.value, groups[i]);
      MergedName(was, groups, clock, i);
      if cur[i].name != was.value[i].name {
        assert DiffersAt(was.value, cur, i);
      } else {
        assert was.value[i].name == groups[i] && i <= j;
        assert LastNamed(GetOr(was, []), groups[i]) == Some(was.value[j]);
        MergedName(was, groups, clock, j);
        assert cur[i] == was.value[j];
        if cur[i].status == FINISHED {
          assert DiffersAt(was.value, cur, i);
        } else if cur[j].name == groups[i] {
          assert DiffersBy(was.value, cur, i, j);
        } else {
          assert DiffersAt(was.value, cur, j);
        }
      }
    }
  }

  ghost predicate IsLast(cs: seq<Condition>, name: string, j: nat) {
    j < |cs| && cs[j].name == name && forall k :: j < k < |cs| ==> cs[k].name != name
  }

  /**
   The condition of a group after merging: the last old one of its name, or a fresh one that
   is not started.
   */
  lemma MergedExactly(was: Option<seq<Condition>>, groups: seq<string>, clock: Clock, i: nat)
    requires i < |groups|
    ensures (forall k :: was.Some? && 0 <= k < |was.value| ==> was.value[k].name != groups[i]) ==>
      Merge(was, groups, clock)[i] == Condition(groups[i], "Not Started", clock(i))
    ensures forall j: nat :: was.Some? && IsLast(was.value, groups[i], j) ==> Merge(was, groups, clock)[i] == was.value[j]
  {
    var j := LastNamedIsLast(GetOr(was, []), groups[i]);
  }

  lemma MergedName(was: Option<seq<Condition>>, groups: seq<string>, clock: Clock, i: nat)
    requires i < |groups|
    ensures Merge(was, groups, clock)[i].name == groups[i]
  {
    var _ := LastNamedIsLast(GetOr(was, []), groups[i]);
  }

  /** The first change of an unchanged status makes it diverge. */
  lemma FirstChangeDiverges(was: Option<seq<Condition>>, cur: seq<Condition>, name: string, clock: Clock)
    requires SameStatus(was, cur)
    ensures var cur' := SetAll(cur, name, FINISHED, clock);
      cur' == cur || Diverged(was, cur')
  {
    var cur' := SetAll(cur, name, FINISHED, clock);
    if cur' != cur {
      var i :| 0 <= i < |cur| && cur'[i] != cur[i];
      assert DiffersAt(was.value, cur', i);
    }
  }

  /** After an Initialize the conditions in memory have the group names, in order. */
  lemma MergedNames(was: Option<seq<Condition>>, groups: seq<string>, clock: Clock)
    ensures Names(Merge(was, groups, clock)) == groups
  {
    forall i | 0 <= i < |groups|
      ensures Merge(was, groups, clock)[i].name == groups[i]
    {
      MergedName(was, groups, clock, i);
    }
    assert Names(Merge(was, groups, clock)) == groups;
  }

  lemma SetNames(cs: seq<Condition>, name: string, status: string, clock: Clock)
    ensures Names(SetAll(cs, name, status, clock)) == Names(cs)
  {
  }
}
