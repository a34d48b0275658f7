/**
 The key transformations and event handlers of trigger/resource/handlers.go.  Regular
 expressions are given by what they match and what their replacement expands to.
 */
module KeyTransformation {
  import opened Wrappers

  datatype Action = Replace | Drop | Keep | Unknown

  datatype Transformation = Transformation(action: Action, matches: string -> bool, expand: string -> string)

  /** `Drop` is as written: it drops what does not match, like `Keep`. */
  function TransformOne(t: Transformation, key: string): string {
    match t.action
    case Replace => if t.matches(key) then t.expand(key) else key
    case Drop => if !t.matches(key) then "" else key
    case Keep => if t.matches(key) then key else ""
    case Unknown => key
  }

  /** What its name says: drop what matches. */
  function IntendedDrop(t: Transformation, key: string): string {
    if t.matches(key) then "" else key
  }

  /** The drop as written agrees with that on the empty key only: it is the opposite. */
  lemma DropIsKeep(t: Transformation, key: string)
    requires t.action.Drop?
    ensures TransformOne(t, key) == TransformOne(t.(action := Keep), key)
    ensures TransformOne(t, key) == IntendedDrop(t, key) <==> key == ""
    ensures key != "" ==> (TransformOne(t, key) == "" <==> IntendedDrop(t, key) == key)
  {
  }

  function TransformAll(ts: seq<Transformation>, key: string): string {
    if ts == [] then key else TransformAll(ts[1..], TransformOne(ts[0], key))
  }

  method Transform(ts: seq<Transformation>, key: string) returns (cur: string)
    ensures cur == TransformAll(ts, key)
  {
    cur := key;
    for i := 0 to |ts|
      invariant TransformAll(ts, key) == TransformAll(ts[i..], cur)
    {
      assert ts[i..][0] == ts[i] && ts[i..][1..] == ts[i + 1..];
      cur := TransformOne(ts[i], cur);
    }
  }

  /** A chain transforms like any of its splits, one part after the other. */
  lemma {:induction false} SplitsCompose(a: seq<Transformation>, b: seq<Transformation>, key: string)
    ensures TransformAll(a + b, key) == TransformAll(b, TransformAll(a, key))
  {
    if a == [] {
      assert a + b == b;
    } else {
      assert (a + b)[1..] == a[1..] + b;
      SplitsCompose(a[1..], b, TransformOne(a[0], key));
    }
  }

  /** The keys along a chain: the first is the key given, and each transformation makes the next. */
  ghost predicate Chain(ts: seq<Transformation>, key: string, keys: seq<string>) {
    && |keys| == |ts| + 1 && keys[0] == key
    && forall i :: 0 <= i < |ts| ==>
         && (ts[i].action.Replace? && ts[i].matches(keys[i]) ==> keys[i + 1] == ts[i].expand(keys[i]))
         && (ts[i].action.Replace? && !ts[i].matches(keys[i]) ==> keys[i + 1] == keys[i])
         && ((ts[i].action.Drop? || ts[i].action.Keep?) && ts[i].matches(keys[i]) ==> keys[i + 1] == keys[i])
         && ((ts[i].action.Drop? || ts[i].action.Keep?) && !ts[i].matches(keys[i]) ==> keys[i + 1] == "")
         && (ts[i].action.Unknown? ==> keys[i + 1] == keys[i])
  }

  /** What a chain makes of a key is the last key along it. */
  lemma {:induction false} TransformsAlong(ts: seq<Transformation>, key: string) returns (keys: seq<string>)
    ensures Chain(ts, key, keys) && TransformAll(ts, key) == keys[|ts|]
  {
    if ts == [] {
      keys := [key];
    } else {
      var rest := TransformsAlong(ts[1..], TransformOne(ts[0], key));
      keys := [key] + rest;
      forall i | 0 < i < |ts|
        ensures keys[i] == rest[i - 1] && keys[i + 1] == rest[i] && ts[i] == ts[1..][i - 1]
      {
      }
    }
  }

  predicate IsFilter(t: Transformation) {
    t.action.Drop? || t.action.Keep?
  }

  lemma {:induction false} FiltersOfNothing(ts: seq<Transformation>)
    requires forall i :: 0 <= i < |ts| ==> IsFilter(ts[i])
    ensures TransformAll(ts, "") == ""
  {
    if ts != [] {
      FiltersOfNothing(ts[1..]);
    }
  }

  /** A chain of filters keeps a key exactly if every one of them matches it, whatever their order. */
  lemma {:induction false} FiltersKeepWhatAllMatch(ts: seq<Transformation>, key: string)
    requires forall i :: 0 <= i < |ts| ==> IsFilter(ts[i])
    ensures TransformAll(ts, key) == if (forall i :: 0 <= i < |ts| ==> ts[i].matches(key)) then key else ""
  {
    if ts != [] {
      if ts[0].matches(key) {
        FiltersKeepWhatAllMatch(ts[1..], key);
        assert (forall i :: 0 <= i < |ts| ==> ts[i].matches(key)) <==>
          (forall i :: 0 <= i < |ts[1..]| ==> ts[1..][i].matches(key)) by {
          assert forall i :: 0 < i < |ts| ==> ts[i] == ts[1..][i - 1];
        }
      } else {
        FiltersOfNothing(ts[1..]);
      }
    }
  }

  /** Permuting filters changes nothing. */
  lemma FilterOrderIsIrrelevant(ts: seq<Transformation>, us: seq<Transformation>, key: string)
    requires forall i :: 0 <= i < |ts| ==> IsFilter(ts[i])
    requires forall i :: 0 <= i < |us| ==> IsFilter(us[i])
    requires forall t :: t in ts <==> t in us
    ensures TransformAll(ts, key) == TransformAll(us, key)
  {
    FiltersKeepWhatAllMatch(ts, key);
    FiltersKeepWhatAllMatch(us, key);
    assert forall i :: 0 <= i < |ts| ==> ts[i] in us;
    assert forall i :: 0 <= i < |us| ==> us[i] in ts;
  }

  /** No transformation makes a key out of the empty one. */
  predicate Preserving(ts: seq<Transformation>) {
    forall i :: 0 <= i < |ts| ==> TransformOne(ts[i], "") == ""
  }

  /** From some point on along a chain the key is empty, and stays so. */
  ghost predicate StaysEmpty(ts: seq<Transformation>) {
    forall n :: 0 <= n <= |ts| ==> TransformAll(ts[..n], "") == ""
  }

  lemma TransformLast(ts: seq<Transformation>, n: nat, key: string)
    requires n < |ts|
    ensures TransformAll(ts[..n + 1], key) == TransformOne(ts[n], TransformAll(ts[..n], key))
  {
    assert ts[..n + 1] == ts[..n] + [ts[n]] && [ts[n]][1..] == [];
    SplitsCompose(ts[..n], [ts[n]], key);
  }

  lemma {:induction false} PreservingUpTo(ts: seq<Transformation>, n: nat)
    requires Preserving(ts) && n <= |ts|
    ensures TransformAll(ts[..n], "") == ""
  {
    if n > 0 {
      PreservingUpTo(ts, n - 1);
      TransformLast(ts, n - 1, "");
    }
  }

  /** The empty key stays empty all along a chain exactly if no transformation of it makes a key of that. */
  lemma StaysEmptyExactly(ts: seq<Transformation>)
    ensures StaysEmpty(ts) <==> Preserving(ts)
  {
    if Preserving(ts) {
      forall n | 0 <= n <= |ts|
        ensures TransformAll(ts[..n], "") == ""
      {
        PreservingUpTo(ts, n);
      }
    }
    if StaysEmpty(ts) {
      forall i | 0 <= i < |ts|
        ensures TransformOne(ts[i], "") == ""
      {
        TransformLast(ts, i, "");
        assert TransformAll(ts[..i], "") == "" && TransformAll(ts[..i + 1], "") == "";
      }
    }
  }

  /** Only a replacement whose pattern matches the empty key makes a key of it. */
  lemma PreservingMeans(ts: seq<Transformation>)
    ensures Preserving(ts) <==>
      forall i :: 0 <= i < |ts| && ts[i].action.Replace? && ts[i].matches("") ==> ts[i].expand("") == ""
  {
  }

  /**
   A filtered key is dropped for good, at every point of the chain after the filter, exactly
   if nothing in the rest makes a key of the empty one.
   */
  lemma DroppedForGood(filter: Transformation, rest: seq<Transformation>, key: string)
    requires IsFilter(filter) && !filter.matches(key)
    ensures (forall n :: 0 <= n <= |rest| ==> TransformAll([filter] + rest[..n], key) == "") <==> Preserving(rest)
  {
    forall n | 0 <= n <= |rest|
      ensures TransformAll([filter] + rest[..n], key) == TransformAll(rest[..n], "")
    {
      assert ([filter] + rest[..n])[1..] == rest[..n];
    }
    StaysEmptyExactly(rest);
  }

  /** A handler enqueues nothing for a key that a filter of such a chain does not match. */
  lemma FilteredIsNotHandled(before: seq<Transformation>, filter: Transformation, rest: seq<Transformation>, e: Event)
    requires IsFilter(filter) && !filter.matches(TransformAll(before, e.key)) && Preserving(rest)
    ensures Handled(before + ([filter] + rest), e) == None
  {
    SplitsCompose(before, [filter] + rest, e.key);
    DroppedForGood(filter, rest, TransformAll(before, e.key));
    assert rest[..|rest|] == rest;
  }

  /** One replacement that is not such suffices to bring every filtered key back. */
  lemma FilteredKeyReturns(filter: Transformation, replace: Transformation, key: string)
    requires IsFilter(filter) && !filter.matches(key)
    requires replace.action.Replace? && replace.matches("") && replace.expand("") != ""
    ensures TransformAll([filter], key) == ""
    ensures TransformAll([filter, replace], key) == replace.expand("")
  {
    assert [filter][1..] == [] && [filter, replace][1..] == [replace] && [replace][1..] == [];
    assert TransformAll([replace], "") == TransformAll([], replace.expand(""));
  }

  // ---- Events ----

  /** What an informer tells its handlers; an update carries the versions before and after. */
  datatype Event = Added(key: string) | Updated(key: string, was: nat, cur: nat) | Deleted(key: string)

  /** The key that a handler enqueues, if any. */
  function Handled(ts: seq<Transformation>, e: Event): Option<string> {
    if e.Updated? && e.was == e.cur then None
    else if TransformAll(ts, e.key) == "" then None
    else Some(TransformAll(ts, e.key))
  }

  /**
   An event enqueues the last key along the chain, unless that is empty or the versions before
   and after an update are the same; and no other key.
   */
  lemma HandledExactly(ts: seq<Transformation>, e: Event) returns (keys: seq<string>)
    ensures Chain(ts, e.key, keys)
    ensures forall k :: Handled(ts, e) == Some(k) <==> k != "" && k == keys[|ts|] && !(e.Updated? && e.was == e.cur)
  {
    keys := TransformsAlong(ts, e.key);
  }
}
