/**
 The database trigger of trigger/database/database.go: rows of a periodic query start runs,
 and a map of active runs is meant to keep a second run of a key from starting while the
 first is under way.  The code looks keys up in, and deletes them from, the outer map,
 which is keyed by trigger names; the form that uses the inner map is given beside it.
 */
module DatabaseTrigger {
  import opened Wrappers

  datatype Form = AsWritten | InnerMap

  datatype Run = Run(trigger: string, key: string, done: bool)

  /** Runs are pointers: positions in the list of all runs ever started. */
  datatype State = State(active: map<string, map<string, nat>>, runs: seq<Run>)

  datatype Label =
    | Tick(trigger: string)
    | Schedule(trigger: string, key: string)
    | Complete(run: nat)

  function Start(triggers: set<string>): State {
    State(map t | t in triggers :: map[], [])
  }

  /** A missing inner map reads as an empty one. */
  function Inner(s: State, trigger: string): map<string, nat> {
    if trigger in s.active then s.active[trigger] else map[]
  }

  function IsDone(s: State, run: nat): bool {
    run < |s.runs| && s.runs[run].done
  }

  function DoneKeys(s: State, trigger: string): set<string> {
    set k | k in Inner(s, trigger) && IsDone(s, Inner(s, trigger)[k])
  }

  function Pruned(form: Form, s: State, trigger: string): State {
    var keys := DoneKeys(s, trigger);
    if form.AsWritten? then s.(active := s.active - keys)
    else if trigger in s.active then s.(active := s.active[trigger := s.active[trigger] - keys])
    else s
  }

  /** Whether a row starts a run. */
  predicate Starts(form: Form, s: State, trigger: string, key: string) {
    if form.AsWritten? then key !in s.active else key !in Inner(s, trigger)
  }

  /** Writing to a missing inner map is a crash. */
  predicate Crashes(form: Form, s: State, trigger: string, key: string) {
    Starts(form, s, trigger, key) && trigger !in s.active
  }

  function Scheduled(form: Form, s: State, trigger: string, key: string): State {
    if Starts(form, s, trigger, key) && trigger in s.active then
      var inner: map<string, nat> := s.active[trigger][key := |s.runs|];
      State(s.active[trigger := inner], s.runs + [Run(trigger, key, false)])
    else s
  }

  function After(form: Form, s: State, l: Label): State {
    match l
    case Tick(t) => Pruned(form, s, t)
    case Schedule(t, k) => Scheduled(form, s, t, k)
    case Complete(r) => if r < |s.runs| then s.(runs := s.runs[r := s.runs[r].(done := true)]) else s
  }

  /** Any interleaving of ticks, rows, transaction retries and completions, for configured triggers. */
  function AfterAll(form: Form, s: State, ls: seq<Label>): State {
    if ls == [] then s else After(form, AfterAll(form, s, ls[..|ls| - 1]), ls[|ls| - 1])
  }

  predicate Unfinished(s: State, run: nat, trigger: string, key: string) {
    run < |s.runs| && s.runs[run] == Run(trigger, key, false)
  }

  ghost predicate AtMostOne(s: State, trigger: string, key: string) {
    forall i: nat, j: nat :: Unfinished(s, i, trigger, key) && Unfinished(s, j, trigger, key) ==> i == j
  }

  ghost predicate SomeUnfinished(s: State, trigger: string, key: string) {
    exists i: nat :: Unfinished(s, i, trigger, key)
  }

  // ---- The inner map keeps runs apart ----

  /** An unfinished run is the active one of its trigger and key. */
  ghost predicate Tracked(triggers: set<string>, s: State) {
    && s.active.Keys == triggers
    && (forall t, k :: t in s.active && k in s.active[t] ==>
         s.active[t][k] < |s.runs| && s.runs[s.active[t][k]].trigger == t && s.runs[s.active[t][k]].key == k)
    && (forall i: nat :: i < |s.runs| && !s.runs[i].done ==>
         && s.runs[i].trigger in s.active
         && s.runs[i].key in s.active[s.runs[i].trigger]
         && s.active[s.runs[i].trigger][s.runs[i].key] == i)
  }

  lemma PrunedIsTracked(triggers: set<string>, s: State, trigger: string)
    requires Tracked(triggers, s)
    ensures Tracked(triggers, Pruned(InnerMap, s, trigger))
  {
  }

  lemma ScheduledIsTracked(triggers: set<string>, s: State, trigger: string, key: string)
    requires Tracked(triggers, s)
    ensures Tracked(triggers, Scheduled(InnerMap, s, trigger, key))
  {
    var t := Scheduled(InnerMap, s, trigger, key);
    if t != s {
      forall i: nat | i < |t.runs| && !t.runs[i].done
        ensures t.runs[i].trigger in t.active && t.runs[i].key in t.active[t.runs[i].trigger]
        ensures t.active[t.runs[i].trigger][t.runs[i].key] == i
      {
        if i < |s.runs| {
          assert t.runs[i] == s.runs[i];
        }
      }
    }
  }

  lemma CompletedIsTracked(triggers: set<string>, s: State, run: nat)
    requires Tracked(triggers, s)
    ensures Tracked(triggers, After(InnerMap, s, Complete(run)))
  {
  }

  lemma {:induction false} TrackedAlways(triggers: set<string>, ls: seq<Label>)
    ensures Tracked(triggers, AfterAll(InnerMap, Start(triggers), ls))
  {
    if ls != [] {
      TrackedAlways(triggers, ls[..|ls| - 1]);
      var s := AfterAll(InnerMap, Start(triggers), ls[..|ls| - 1]);
      match ls[|ls| - 1]
      case Tick(t) => PrunedIsTracked(triggers, s, t);
      case Schedule(t, k) => ScheduledIsTracked(triggers, s, t, k);
      case Complete(r) => CompletedIsTracked(triggers, s, r);
    }
  }

  /**
   With the inner map, in every interleaving of ticks, rows, retries and completions, there is
   at most one unfinished run of a trigger and key; nothing crashes; and after a tick a row
   starts a run exactly if none is unfinished.
   */
  lemma InnerMapKeepsRunsApart(triggers: set<string>, ls: seq<Label>, trigger: string, key: string)
    requires trigger in triggers
    ensures var s := AfterAll(InnerMap, Start(triggers), ls);
      && AtMostOne(s, trigger, key)
      && !Crashes(InnerMap, s, trigger, key)
      && (Starts(InnerMap, After(InnerMap, s, Tick(trigger)), trigger, key) <==> !SomeUnfinished(s, trigger, key))
  {
    TrackedAlways(triggers, ls);
    var s := AfterAll(InnerMap, Start(triggers), ls);
    if key in s.active[trigger] && !s.runs[s.active[trigger][key]].done {
      assert Unfinished(s, s.active[trigger][key], trigger, key);
    }
  }

  // ---- The code as written does not ----

  /** Row keys of active runs are never trigger names, so that nothing is ever deleted. */
  ghost predicate Apart(triggers: set<string>, s: State) {
    && s.active.Keys == triggers
    && forall t, k :: t in s.active && k in s.active[t] ==> k !in triggers
  }

  lemma {:induction false} ApartAlways(triggers: set<string>, ls: seq<Label>)
    ensures Apart(triggers, AfterAll(AsWritten, Start(triggers), ls))
  {
    if ls != [] {
      ApartAlways(triggers, ls[..|ls| - 1]);
      var s := AfterAll(AsWritten, Start(triggers), ls[..|ls| - 1]);
      match ls[|ls| - 1]
      case Tick(t) =>
        assert forall k :: k in DoneKeys(s, t) ==> k !in s.active;
        assert s.active - DoneKeys(s, t) == s.active;
      case _ =>
    }
  }

  /**
   As written: nothing crashes and a tick changes nothing; a row starts a run exactly if its
   key is not the name of a trigger, unfinished runs or not.  So the row leaves at most one
   unfinished run of its key exactly if the key is a trigger name or had no unfinished run.
   */
  lemma AsWrittenExactly(triggers: set<string>, ls: seq<Label>, trigger: string, key: string)
    requires trigger in triggers
    requires var s := AfterAll(AsWritten, Start(triggers), ls); AtMostOne(s, trigger, key)
    ensures var s := AfterAll(AsWritten, Start(triggers), ls);
      && !Crashes(AsWritten, s, trigger, key)
      && After(AsWritten, s, Tick(trigger)) == s
      && (Starts(AsWritten, s, trigger, key) <==> key !in triggers)
      && (AtMostOne(After(AsWritten, s, Schedule(trigger, key)), trigger, key) <==>
           key in triggers || !SomeUnfinished(s, trigger, key))
  {
    ApartAlways(triggers, ls);
    var s := AfterAll(AsWritten, Start(triggers), ls);
    assert forall k :: k in DoneKeys(s, trigger) ==> k !in s.active;
    assert s.active - DoneKeys(s, trigger) == s.active;
    if key !in triggers {
      var t := After(AsWritten, s, Schedule(trigger, key));
      assert Unfinished(t, |s.runs|, trigger, key);
      forall i: nat
        ensures i < |s.runs| ==> (Unfinished(t, i, trigger, key) <==> Unfinished(s, i, trigger, key))
      {
      }
      if i: nat :| Unfinished(s, i, trigger, key) {
        assert Unfinished(t, i, trigger, key);
      }
    }
  }

  /** Two ticks that see the same row start two runs of it, for every key that is not a trigger name. */
  lemma AsWrittenDuplicates(triggers: set<string>, trigger: string, key: string) returns (ls: seq<Label>)
    requires trigger in triggers && key !in triggers
    ensures ls == [Tick(trigger), Schedule(trigger, key), Tick(trigger), Schedule(trigger, key)]
    ensures !AtMostOne(AfterAll(AsWritten, Start(triggers), ls), trigger, key)
  {
    var s0 := Start(triggers);
    var l1, l2 := [Tick(trigger)], [Tick(trigger), Schedule(trigger, key)];
    var l3 := l2 + [Tick(trigger)];
    ls := l3 + [Schedule(trigger, key)];
    assert l1[..0] == [] && l2[..1] == l1 && l3[..2] == l2 && ls[..3] == l3;
    ApartAlways(triggers, []);
    AsWrittenExactly(triggers, [], trigger, key);
    assert AfterAll(AsWritten, s0, []) == s0 && AfterAll(AsWritten, s0, l1) == s0;
    var s1 := AfterAll(AsWritten, s0, l2);
    assert s1 == After(AsWritten, s0, Schedule(trigger, key));
    assert s1.runs == [Run(trigger, key, false)];
    AsWrittenExactly(triggers, l2, trigger, key);
    assert Unfinished(s1, 0, trigger, key);
    assert AfterAll(AsWritten, s0, l3) == s1;
  }

  ghost predicate NoneStarted(triggers: set<string>, s: State) {
    forall i :: 0 <= i < |s.runs| ==> s.runs[i].key !in triggers
  }

  lemma {:induction false} TriggerNamesNeverStart(triggers: set<string>, ls: seq<Label>)
    ensures NoneStarted(triggers, AfterAll(AsWritten, Start(triggers), ls))
  {
    if ls != [] {
      TriggerNamesNeverStart(triggers, ls[..|ls| - 1]);
      ApartAlways(triggers, ls[..|ls| - 1]);
    }
  }

  /**
   As written, over whole runs: every interleaving keeps the runs of a trigger and key apart
   exactly if the key is the name of a trigger, and then it never has a run at all.
   */
  lemma AsWrittenOverWholeRuns(triggers: set<string>, trigger: string, key: string)
    requires trigger in triggers
    ensures (forall ls :: AtMostOne(AfterAll(AsWritten, Start(triggers), ls), trigger, key)) <==> key in triggers
    ensures key in triggers ==> forall ls :: !SomeUnfinished(AfterAll(AsWritten, Start(triggers), ls), trigger, key)
  {
    if key in triggers {
      forall ls
        ensures !SomeUnfinished(AfterAll(AsWritten, Start(triggers), ls), trigger, key)
      {
        TriggerNamesNeverStart(triggers, ls);
      }
      assert forall ls :: !SomeUnfinished(AfterAll(AsWritten, Start(triggers), ls), trigger, key) ==>
        AtMostOne(AfterAll(AsWritten, Start(triggers), ls), trigger, key);
    } else {
      var ls := AsWrittenDuplicates(triggers, trigger, key);
    }
  }

  // ---- The code ----

  function ScheduledAll(s: State, trigger: string, keys: seq<string>): State {
    if keys == [] then s
    else Scheduled(AsWritten, ScheduledAll(s, trigger, keys[..|keys| - 1]), trigger, keys[|keys| - 1])
  }

  /** The runs that rows start: one for each key that is not the name of a trigger, in their order. */
  function Started(triggers: set<string>, trigger: string, keys: seq<string>): seq<Run> {
    if keys == [] then []
    else (if keys[0] in triggers then [] else [Run(trigger, keys[0], false)]) + Started(triggers, trigger, keys[1..])
  }

  lemma {:induction false} StartedMore(triggers: set<string>, trigger: string, keys: seq<string>, key: string)
    ensures Started(triggers, trigger, keys + [key]) ==
      Started(triggers, trigger, keys) + if key in triggers then [] else [Run(trigger, key, false)]
  {
    if keys == [] {
      assert [] + [key] == [key] && [key][1..] == [];
    } else {
      StartedMore(triggers, trigger, keys[1..], key);
      assert (keys + [key])[0] == keys[0] && (keys + [key])[1..] == keys[1..] + [key];
    }
  }

  /** Scheduling rows starts exactly these runs and touches no other, whatever is under way. */
  lemma {:induction false} RowsStart(triggers: set<string>, s: State, trigger: string, keys: seq<string>)
    requires Apart(triggers, s) && trigger in triggers
    ensures Apart(triggers, ScheduledAll(s, trigger, keys))
    ensures ScheduledAll(s, trigger, keys).runs == s.runs + Started(triggers, trigger, keys)
  {
    if keys != [] {
      var init, key := keys[..|keys| - 1], keys[|keys| - 1];
      RowsStart(triggers, s, trigger, init);
      StartedMore(triggers, trigger, init, key);
      assert init + [key] == keys;
    }
  }

  /** A row of the result: its values cannot be read, it has no key column, or it has a payload. */
  datatype Row = Unreadable | WithoutKey | Keyed(key: string, encodes: bool)

  /** Grouped rows are encoded together, so that what becomes of one alone does not matter. */
  predicate Usable(row: Row, grouped: bool) {
    row.Keyed? && (grouped || row.encodes)
  }

  /** The keys of the rows before the first that cannot be used. */
  function Keys(rows: seq<Row>): seq<string> {
    if rows == [] || !Usable(rows[0], false) then [] else [rows[0].key] + Keys(rows[1..])
  }

  /** These are the keys of the rows up to one that has no key or cannot be encoded. */
  lemma {:induction false} KeysExactly(rows: seq<Row>)
    ensures |Keys(rows)| <= |rows|
    ensures forall i :: 0 <= i < |Keys(rows)| ==> rows[i].Keyed? && rows[i].encodes && rows[i].key == Keys(rows)[i]
    ensures |Keys(rows)| < |rows| ==> !(rows[|Keys(rows)|].Keyed? && rows[|Keys(rows)|].encodes)
  {
    if rows != [] && Usable(rows[0], false) {
      KeysExactly(rows[1..]);
      assert forall i :: 0 < i < |rows| ==> rows[i] == rows[1..][i - 1];
    }
  }

  lemma NoMoreKeys(rows: seq<Row>, i: nat, seen: seq<string>)
    requires i < |rows| && !Usable(rows[i], false) && Keys(rows) == seen + Keys(rows[i..])
    ensures Keys(rows) == seen
  {
    assert rows[i..][0] == rows[i] && seen + [] == seen;
  }

  lemma OneMoreKey(s: State, trigger: string, rows: seq<Row>, i: nat, seen: seq<string>)
    requires i < |rows| && Usable(rows[i], false) && Keys(rows) == seen + Keys(rows[i..])
    ensures Keys(rows) == seen + [rows[i].key] + Keys(rows[i + 1..])
    ensures ScheduledAll(s, trigger, seen + [rows[i].key]) == Scheduled(AsWritten, ScheduledAll(s, trigger, seen), trigger, rows[i].key)
  {
    assert rows[i..][0] == rows[i] && rows[i..][1..] == rows[i + 1..];
    assert seen + ([rows[i].key] + Keys(rows[i + 1..])) == seen + [rows[i].key] + Keys(rows[i + 1..]);
    assert (seen + [rows[i].key])[..|seen|] == seen;
  }

  class TriggerRunner {
    var activeTriggers: map<string, map<string, nat>>
    var runs: seq<Run>

    constructor (triggers: set<string>)
      ensures AsState() == Start(triggers)
    {
      activeTriggers, runs := map t | t in triggers :: map[], [];
    }

    function AsState(): State
      reads this
    {
      State(activeTriggers, runs)
    }

    /** The loop at the head of checkTrigger. */
    method Prune(trigger: string)
      modifies this`activeTriggers
      ensures AsState() == Pruned(AsWritten, old(AsState()), trigger)
      ensures forall t :: t in activeTriggers ==> t in old(activeTriggers) && activeTriggers[t] == old(activeTriggers)[t]
      ensures forall t :: t in old(activeTriggers) ==> (t !in activeTriggers <==>
        && trigger in old(activeTriggers) && t in old(activeTriggers)[trigger]
        && old(activeTriggers)[trigger][t] < |runs| && runs[old(activeTriggers)[trigger][t]].done)
    {
      var inner := if trigger in activeTriggers then activeTriggers[trigger] else map[];
      var left := inner.Keys;
      ghost var before := AsState();
      while left != {}
        invariant left <= inner.Keys
        invariant activeTriggers == before.active - (DoneKeys(before, trigger) - left)
        decreases left
      {
        var key :| key in left;
        if inner[key] < |runs| && runs[inner[key]].done {
          activeTriggers := activeTriggers - {key};
        }
        left := left - {key};
      }
      assert DoneKeys(before, trigger) - {} == DoneKeys(before, trigger);
    }

    method ScheduleTriggerRun(trigger: string, key: string)
      requires !Crashes(AsWritten, AsState(), trigger, key)
      modifies this
      ensures AsState() == Scheduled(AsWritten, old(AsState()), trigger, key)
      ensures key in old(activeTriggers) ==> runs == old(runs) && activeTriggers == old(activeTriggers)
      ensures key !in old(activeTriggers) ==>
        && runs == old(runs) + [Run(trigger, key, false)]
        && activeTriggers.Keys == old(activeTriggers.Keys)
        && trigger in activeTriggers && key in activeTriggers[trigger] && activeTriggers[trigger][key] == |old(runs)|
    {
      if key !in activeTriggers {
        var inner: map<string, nat> := activeTriggers[trigger][key := |runs|];
        activeTriggers := activeTriggers[trigger := inner];
        runs := runs + [Run(trigger, key, false)];
      }
    }

    /** The end of a run, whose rollout has returned. */
    method FinishRun(run: nat)
      requires run < |runs|
      modifies this`runs
      ensures AsState() == After(AsWritten, old(AsState()), Complete(run))
      ensures |runs| == |old(runs)| && runs[run] == Run(old(runs)[run].trigger, old(runs)[run].key, true)
      ensures forall i :: 0 <= i < |runs| && i != run ==> runs[i] == old(runs)[i]
    {
      runs := runs[run := runs[run].(done := true)];
    }

    /**
     The row loop: a row that cannot be used ends it with an error, after the rows before it
     have been scheduled; grouped rows are scheduled once, under the empty key, if all can be
     used and their array can be encoded.
     */
    method RunRows(trigger: string, rows: seq<Row>, grouped: bool, arrayEncodes: bool) returns (ok: bool)
      requires trigger in activeTriggers
      modifies this
      ensures ok <==>
        && (forall i :: 0 <= i < |rows| ==> rows[i].Keyed? && (grouped || rows[i].encodes))
        && (grouped ==> arrayEncodes)
      ensures AsState() ==
        if grouped then (if ok then Scheduled(AsWritten, old(AsState()), trigger, "") else old(AsState()))
        else ScheduledAll(old(AsState()), trigger, Keys(rows))
    {
      ghost var seen: seq<string> := [];
      for i := 0 to |rows|
        invariant trigger in activeTriggers
        invariant forall k :: 0 <= k < i ==> Usable(rows[k], grouped)
        invariant !grouped ==> Keys(rows) == seen + Keys(rows[i..])
        invariant AsState() == if grouped then old(AsState()) else ScheduledAll(old(AsState()), trigger, seen)
      {
        if !Usable(rows[i], grouped) {
          if !grouped {
            NoMoreKeys(rows, i, seen);
          }
          return false;
        }
        if !grouped {
          OneMoreKey(old(AsState()), trigger, rows, i, seen);
          ScheduleTriggerRun(trigger, rows[i].key);
          seen := seen + [rows[i].key];
        }
      }
      assert seen + [] == seen;
      if grouped {
        if !arrayEncodes {
          return false;
        }
        ScheduleTriggerRun(trigger, "");
      }
      ok := true;
    }
  }
}
