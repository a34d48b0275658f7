/**
 An action walked over the leaf objects of a rendered, possibly nested, list.  Rendered
 objects are pointers: `leaves` is what they point to, and actions change it in place.
 */
module Walk {
  import opened Wrappers
  import opened Kube
  import opened Client
  import opened Actions

  /** A rendered object: a leaf, a list, or a list member that is not an object. */
  datatype Tree = Leaf(ptr: nat) | List(items: seq<Tree>) | NotObject

  datatype Item = Pointer(ptr: nat) | Malformed

  datatype Outcome = Outcome(err: Option<Error>, leaves: seq<Object>, st: Store)

  function Flatten(t: Tree): seq<Item> {
    match t
    case Leaf(p) => [Pointer(p)]
    case List(items) => FlattenAll(items)
    case NotObject => [Malformed]
  }

  function FlattenAll(ts: seq<Tree>): seq<Item> {
    if ts == [] then [] else Flatten(ts[0]) + FlattenAll(ts[1..])
  }

  predicate Within(items: seq<Item>, n: nat) {
    forall i :: 0 <= i < |items| && items[i].Pointer? ==> items[i].ptr < n
  }

  ghost predicate ValidObjects(objects: map<string, Tree>, n: nat) {
    forall name :: name in objects ==> Within(Flatten(objects[name]), n)
  }

  function ActionNamed(name: string): Option<Action> {
    if name == "CreateOrUpdate" then Some(CreateOrUpdate)
    else if name == "CreateIfNotExist" then Some(CreateIfNotExist)
    else if name == "DeleteIfExist" then Some(DeleteIfExist)
    else None
  }

  function RunItem(action: string, item: Item, leaves: seq<Object>, st: Store, faults: Faults): (o: Outcome)
    requires Within([item], |leaves|)
    ensures |o.leaves| == |leaves|
  {
    if item.Malformed? then Outcome(Some(MalformedItem), leaves, st)
    else
      assert [item][0].ptr < |leaves|;
      match ActionNamed(action)
      case None => Outcome(Some(UnknownAction(action)), leaves, st)
      case Some(a) =>
        var m := Perform(a, leaves[item.ptr], st, faults);
        Outcome(m.pc.err, leaves[item.ptr := m.leaf], m.st)
  }

  /** The leaves from left to right, up to and including the first that fails. */
  function RunItems(action: string, items: seq<Item>, leaves: seq<Object>, st: Store, faults: Faults): (o: Outcome)
    requires Within(items, |leaves|)
    ensures |o.leaves| == |leaves|
  {
    if items == [] then Outcome(None, leaves, st)
    else
      var o := RunItem(action, items[0], leaves, st, faults);
      if o.err.Some? then o else RunItems(action, items[1..], o.leaves, o.st, faults)
  }

  lemma {:induction false} RunItemsConcat(action: string, a: seq<Item>, b: seq<Item>, leaves: seq<Object>,
      st: Store, faults: Faults)
    requires Within(a, |leaves|) && Within(b, |leaves|)
    ensures Within(a + b, |leaves|)
    ensures var o := RunItems(action, a, leaves, st, faults);
      RunItems(action, a + b, leaves, st, faults) ==
        if o.err.Some? then o else RunItems(action, b, o.leaves, o.st, faults)
  {
    if a == [] {
      assert a + b == b;
    } else {
      assert (a + b)[1..] == a[1..] + b;
      var o := RunItem(action, a[0], leaves, st, faults);
      if o.err.None? {
        RunItemsConcat(action, a[1..], b, o.leaves, o.st, faults);
      }
    }
  }

  /** A failing walk ends at its first failing leaf: whatever may follow that leaf is not looked at. */
  lemma {:induction false} StopsAtFirstFailure(action: string, items: seq<Item>, rest: seq<Item>,
      leaves: seq<Object>, st: Store, faults: Faults)
    returns (k: nat)
    requires Within(items, |leaves|) && Within(rest, |leaves|)
    requires RunItems(action, items, leaves, st, faults).err.Some?
    ensures k < |items|
    ensures RunItems(action, items[..k], leaves, st, faults).err.None?
    ensures Within(items[..k + 1] + rest, |leaves|)
    ensures RunItems(action, items[..k + 1] + rest, leaves, st, faults) == RunItems(action, items, leaves, st, faults)
  {
    var o := RunItem(action, items[0], leaves, st, faults);
    if o.err.Some? {
      k := 0;
    } else {
      var j := StopsAtFirstFailure(action, items[1..], rest, o.leaves, o.st, faults);
      k := j + 1;
      assert items[..k][1..] == items[1..][..j];
      assert (items[..k + 1] + rest)[1..] == items[1..][..j + 1] + rest;
    }
  }

  lemma {:induction false} FlattenSplit(items: seq<Tree>, i: nat)
    requires i <= |items|
    ensures FlattenAll(items) == FlattenAll(items[..i]) + FlattenAll(items[i..])
  {
    if i == 0 {
      assert items[i..] == items;
    } else {
      FlattenSplit(items[1..], i - 1);
      assert items[..i][1..] == items[1..][..i - 1];
      assert items[i..] == items[1..][i - 1..];
    }
  }

  lemma FlattenUpTo(items: seq<Tree>, i: nat)
    requires i < |items|
    ensures FlattenAll(items[..i + 1]) == FlattenAll(items[..i]) + Flatten(items[i])
  {
    var upTo := items[..i + 1];
    FlattenSplit(upTo, i);
    assert upTo[..i] == items[..i];
    assert upTo[i..] == [items[i]] && upTo[i..][1..] == [];
  }

  lemma WithinParts(a: seq<Item>, b: seq<Item>, c: seq<Item>, n: nat)
    requires Within(a + b + c, n)
    ensures Within(a, n) && Within(b, n) && Within(c, n) && Within(a + b, n)
  {
    var s := a + b + c;
    assert forall i :: 0 <= i < |a| ==> s[i] == a[i];
    assert forall i :: 0 <= i < |b| ==> s[|a| + i] == b[i];
    assert forall i :: 0 <= i < |c| ==> s[|a| + |b| + i] == c[i];
  }

  // ---- What a list holds, and in which order ----

  /** What stands at an address: an index into a list for every level of nesting. */
  function At(t: Tree, address: seq<nat>): Option<Tree>
    decreases |address|
  {
    if address == [] then Some(t)
    else if t.List? && address[0] < |t.items| then At(t.items[address[0]], address[1..])
    else None
  }

  /** The lexicographic order of addresses. */
  predicate Precedes(a: seq<nat>, b: seq<nat>)
    decreases |a|
  {
    b != [] && (a == [] || a[0] < b[0] || (a[0] == b[0] && Precedes(a[1..], b[1..])))
  }

  /** An item says what stands at an address, which is no list. */
  predicate Describes(item: Item, t: Tree, address: seq<nat>) {
    At(t, address) == Some(match item case Pointer(ptr) => Leaf(ptr) case Malformed => NotObject)
  }

  /** Something other than a list stands at an address. */
  predicate Ends(t: Tree, address: seq<nat>) {
    At(t, address).Some? && !At(t, address).value.List?
  }

  /** The items are exactly what stands at the addresses, which are in order and all there are. */
  ghost predicate Enumerates(t: Tree, addresses: seq<seq<nat>>, items: seq<Item>) {
    && |addresses| == |items|
    && (forall i :: 0 <= i < |items| ==> Describes(items[i], t, addresses[i]))
    && (forall i, j :: 0 <= i < j < |items| ==> Precedes(addresses[i], addresses[j]))
    && (forall address :: Ends(t, address) ==> address in addresses)
  }

  /** The same for the first k members of a list. */
  ghost predicate EnumeratesUpTo(ts: seq<Tree>, k: nat, addresses: seq<seq<nat>>, items: seq<Item>) {
    && |addresses| == |items|
    && (forall i :: 0 <= i < |items| ==> addresses[i] != [] && addresses[i][0] < k && Describes(items[i], List(ts), addresses[i]))
    && (forall i, j :: 0 <= i < j < |items| ==> Precedes(addresses[i], addresses[j]))
    && (forall address :: Ends(List(ts), address) && address != [] && address[0] < k ==> address in addresses)
  }

  lemma {:induction false} NotBeforeItself(a: seq<nat>)
    ensures !Precedes(a, a)
  {
    if a != [] {
      NotBeforeItself(a[1..]);
    }
  }

  /** Addresses within one member of a list. */
  function Below(k: nat, addresses: seq<seq<nat>>): (below: seq<seq<nat>>)
    ensures |below| == |addresses| && forall i :: 0 <= i < |below| ==> below[i] == [k] + addresses[i]
  {
    seq(|addresses|, i requires 0 <= i < |addresses| => [k] + addresses[i])
  }

  lemma BelowStands(ts: seq<Tree>, k: nat, address: seq<nat>)
    requires k < |ts|
    ensures At(List(ts), [k] + address) == At(ts[k], address)
  {
    assert ([k] + address)[1..] == address;
  }

  lemma BelowIsOrdered(k: nat, a: seq<nat>, b: seq<nat>)
    ensures Precedes([k] + a, [k] + b) == Precedes(a, b)
  {
    assert ([k] + a)[1..] == a && ([k] + b)[1..] == b;
  }

  lemma BelowEnumerates(ts: seq<Tree>, k: nat, addresses: seq<seq<nat>>, items: seq<Item>)
    requires k < |ts| && Enumerates(ts[k], addresses, items)
    ensures var below := Below(k, addresses);
      && (forall i :: 0 <= i < |items| ==> Describes(items[i], List(ts), below[i]))
      && (forall i, j :: 0 <= i < j < |items| ==> Precedes(below[i], below[j]))
    ensures forall address :: Ends(List(ts), address) && address != [] && address[0] == k ==> address in Below(k, addresses)
  {
    var below := Below(k, addresses);
    forall i | 0 <= i < |items|
      ensures Describes(items[i], List(ts), below[i])
    {
      BelowStands(ts, k, addresses[i]);
      assert Describes(items[i], ts[k], addresses[i]);
    }
    forall i, j | 0 <= i < j < |items|
      ensures Precedes(below[i], below[j])
    {
      BelowIsOrdered(k, addresses[i], addresses[j]);
    }
    forall address | Ends(List(ts), address) && address != [] && address[0] == k
      ensures address in below
    {
      assert address == [k] + address[1..];
      assert Ends(ts[k], address[1..]);
      var i :| 0 <= i < |addresses| && addresses[i] == address[1..];
      assert below[i] == address;
    }
  }

  lemma OrderedTogether(k: nat, before: seq<seq<nat>>, below: seq<seq<nat>>)
    requires forall i :: 0 <= i < |before| ==> before[i] != [] && before[i][0] < k
    requires forall i :: 0 <= i < |below| ==> below[i] != [] && below[i][0] == k
    requires forall i, j :: 0 <= i < j < |before| ==> Precedes(before[i], before[j])
    requires forall i, j :: 0 <= i < j < |below| ==> Precedes(below[i], below[j])
    ensures var all := before + below; forall i, j :: 0 <= i < j < |all| ==> Precedes(all[i], all[j])
  {
    var all := before + below;
    forall i, j | 0 <= i < j < |all|
      ensures Precedes(all[i], all[j])
    {
      if j < |before| {
        assert all[i] == before[i] && all[j] == before[j];
      } else if i < |before| {
        assert all[i] == before[i] && all[j] == below[j - |before|];
      } else {
        assert all[i] == below[i - |before|] && all[j] == below[j - |before|];
      }
    }
  }

  lemma OneMoreMember(ts: seq<Tree>, k: nat, before: seq<seq<nat>>, a: seq<Item>, addresses: seq<seq<nat>>, b: seq<Item>)
    requires k < |ts| && EnumeratesUpTo(ts, k, before, a) && Enumerates(ts[k], addresses, b)
    ensures EnumeratesUpTo(ts, k + 1, before + Below(k, addresses), a + b)
  {
    BelowEnumerates(ts, k, addresses, b);
    var below := Below(k, addresses);
    var all, items := before + below, a + b;
    OrderedTogether(k, before, below);
    forall i | 0 <= i < |items|
      ensures all[i] != [] && all[i][0] < k + 1 && Describes(items[i], List(ts), all[i])
    {
      if i < |a| {
        assert all[i] == before[i] && items[i] == a[i];
      } else {
        assert all[i] == below[i - |a|] && items[i] == b[i - |a|];
      }
    }
    forall address | Ends(List(ts), address) && address != [] && address[0] < k + 1
      ensures address in all
    {
      assert address in if address[0] == k then below else before;
    }
  }

  lemma {:induction false} FlattenAllEnumerates(ts: seq<Tree>, k: nat) returns (addresses: seq<seq<nat>>)
    requires k <= |ts|
    ensures EnumeratesUpTo(ts, k, addresses, FlattenAll(ts[..k]))
    decreases ts, k
  {
    if k == 0 {
      addresses := [];
    } else {
      var before := FlattenAllEnumerates(ts, k - 1);
      var here := FlattenEnumerates(ts[k - 1]);
      OneMoreMember(ts, k - 1, before, FlattenAll(ts[..k - 1]), here, Flatten(ts[k - 1]));
      FlattenUpTo(ts, k - 1);
      addresses := before + Below(k - 1, here);
    }
  }

  /**
   A flattened list has exactly one item for each address at which something other than a list
   stands, in the lexicographic order of the addresses.
   */
  lemma {:induction false} FlattenEnumerates(t: Tree) returns (addresses: seq<seq<nat>>)
    ensures Enumerates(t, addresses, Flatten(t))
    decreases t
  {
    if t.List? {
      addresses := FlattenAllEnumerates(t.items, |t.items|);
      assert t.items[..|t.items|] == t.items;
      assert !Ends(t, []);
    } else {
      addresses := [[]];
      forall address | Ends(t, address)
        ensures address == []
      {
      }
    }
  }

  /** No address is listed twice. */
  lemma EnumeratedOnce(t: Tree, addresses: seq<seq<nat>>, items: seq<Item>, i: nat, j: nat)
    requires Enumerates(t, addresses, items) && i < j < |items|
    ensures addresses[i] != addresses[j]
  {
    NotBeforeItself(addresses[i]);
  }

  /** Every leaf of a list is among its items, and so is every member that is no object. */
  lemma LeavesAreItems(t: Tree, address: seq<nat>)
    requires Ends(t, address)
    ensures At(t, address).value.Leaf? ==> Pointer(At(t, address).value.ptr) in Flatten(t)
    ensures At(t, address).value.NotObject? ==> Malformed in Flatten(t)
  {
    var addresses := FlattenEnumerates(t);
    var i :| 0 <= i < |addresses| && addresses[i] == address;
    assert Describes(Flatten(t)[i], t, address);
  }

  // ---- What a walk does to what is stored ----

  /** The names under which actions are known. */
  lemma ActionNames(name: string)
    ensures name == "CreateOrUpdate" ==> ActionNamed(name) == Some(CreateOrUpdate)
    ensures name == "CreateIfNotExist" ==> ActionNamed(name) == Some(CreateIfNotExist)
    ensures name == "DeleteIfExist" ==> ActionNamed(name) == Some(DeleteIfExist)
    ensures ActionNamed(name).Some? ==> name in ["CreateOrUpdate", "CreateIfNotExist", "DeleteIfExist"]
  {
    assert |"CreateOrUpdate"| == 14 && |"CreateIfNotExist"| == 16 && |"DeleteIfExist"| == 13;
  }

  /** What becomes of one item, by the name of the action. */
  lemma ItemOutcome(action: string, item: Item, leaves: seq<Object>, st: Store, faults: Faults)
    requires Within([item], |leaves|)
    ensures var o := RunItem(action, item, leaves, st, faults);
      match item
      case Malformed => o == Outcome(Some(MalformedItem), leaves, st)
      case Pointer(ptr) =>
        && ptr < |leaves| && o.leaves == leaves[ptr := o.leaves[ptr]]
        && (action == "CreateOrUpdate" ==>
             ActionDid(CreateOrUpdate, leaves[ptr], st, faults, o.err, o.leaves[ptr], o.st.objects))
        && (action == "CreateIfNotExist" ==>
             ActionDid(CreateIfNotExist, leaves[ptr], st, faults, o.err, o.leaves[ptr], o.st.objects))
        && (action == "DeleteIfExist" ==>
             ActionDid(DeleteIfExist, leaves[ptr], st, faults, o.err, o.leaves[ptr], o.st.objects))
        && (action !in ["CreateOrUpdate", "CreateIfNotExist", "DeleteIfExist"] ==>
             o == Outcome(Some(UnknownAction(action)), leaves, st))
  {
    ActionNames(action);
    if item.Pointer? {
      assert [item][0].ptr < |leaves|;
      if ActionNamed(action).Some? {
        ActionOutcome(ActionNamed(action).value, leaves[item.ptr], st, faults);
      }
    }
  }

  /** A creating action takes nothing away, and a deleting one adds nothing; identities stay. */
  ghost predicate Moves(action: string, leaves: seq<Object>, st: Store, leaves': seq<Object>, st': Store) {
    && |leaves'| == |leaves| && (forall p :: 0 <= p < |leaves| ==> leaves'[p].id == leaves[p].id)
    && (action != "DeleteIfExist" ==> st.objects.Keys <= st'.objects.Keys)
    && (action == "DeleteIfExist" ==> st'.objects.Keys <= st.objects.Keys)
  }

  lemma ItemMoves(action: string, item: Item, leaves: seq<Object>, st: Store, faults: Faults)
    requires Within([item], |leaves|)
    ensures var o := RunItem(action, item, leaves, st, faults);
      && Moves(action, leaves, st, o.leaves, o.st)
      && (o.err.None? ==>
           && item.Pointer? && item.ptr < |leaves|
           && (leaves[item.ptr].id in o.st.objects <==> action != "DeleteIfExist"))
  {
    ActionNames(action);
    if item.Pointer? {
      assert [item][0].ptr < |leaves|;
      if ActionNamed(action).Some? {
        ActionOutcome(ActionNamed(action).value, leaves[item.ptr], st, faults);
        SuccessMeans(ActionNamed(action).value, leaves[item.ptr], st, faults);
      }
    }
  }

  /** Without an error, every item is an object that is stored, or after a deletion is not. */
  lemma {:induction false} ItemsMove(action: string, items: seq<Item>, leaves: seq<Object>, st: Store, faults: Faults)
    requires Within(items, |leaves|)
    ensures var o := RunItems(action, items, leaves, st, faults);
      && Moves(action, leaves, st, o.leaves, o.st)
      && (o.err.None? ==> forall i :: 0 <= i < |items| ==>
           && items[i].Pointer? && items[i].ptr < |leaves|
           && (leaves[items[i].ptr].id in o.st.objects <==> action != "DeleteIfExist"))
  {
    if items != [] {
      ItemMoves(action, items[0], leaves, st, faults);
      var o := RunItem(action, items[0], leaves, st, faults);
      if o.err.None? {
        ItemsMove(action, items[1..], o.leaves, o.st, faults);
        assert forall i :: 0 < i < |items| ==> items[i] == items[1..][i - 1];
      }
    }
  }

  /** Every leaf of a list is stored, or for a deletion none is, and nothing else is in the list. */
  ghost predicate AllDone(action: string, t: Tree, leaves: seq<Object>, st: Store) {
    forall address :: Ends(t, address) ==>
      match At(t, address).value
      case Leaf(ptr) => ptr < |leaves| && (leaves[ptr].id in st.objects <==> action != "DeleteIfExist")
      case _ => false
  }

  /** A walk without an error has done every leaf of the list, however deep it stands. */
  lemma WalkDoesAll(action: string, t: Tree, leaves: seq<Object>, st: Store, faults: Faults)
    requires Within(Flatten(t), |leaves|)
    ensures var o := RunItems(action, Flatten(t), leaves, st, faults);
      o.err.None? ==> AllDone(action, t, leaves, o.st)
  {
    ItemsMove(action, Flatten(t), leaves, st, faults);
    forall address | Ends(t, address) && RunItems(action, Flatten(t), leaves, st, faults).err.None?
      ensures match At(t, address).value
        case Leaf(ptr) =>
          && ptr < |leaves|
          && (leaves[ptr].id in RunItems(action, Flatten(t), leaves, st, faults).st.objects <==> action != "DeleteIfExist")
        case _ => false
    {
      LeavesAreItems(t, address);
    }
  }

  /** The outcomes of the items of a walk, one after another, each from where the last one ended. */
  ghost predicate WalkedBy(action: string, items: seq<Item>, leaves: seq<Object>, st: Store, faults: Faults,
      outcomes: seq<Outcome>)
  {
    && 0 < |outcomes| <= |items| + 1 && outcomes[0] == Outcome(None, leaves, st)
    && (forall k :: 0 <= k < |outcomes| ==> |outcomes[k].leaves| == |leaves|)
    && (forall k :: 0 <= k < |outcomes| - 1 ==>
         && outcomes[k].err.None? && Within([items[k]], |leaves|)
         && outcomes[k + 1] == RunItem(action, items[k], outcomes[k].leaves, outcomes[k].st, faults))
    && (|outcomes| == |items| + 1 || outcomes[|outcomes| - 1].err.Some?)
  }

  /** A walk ends as its last item does: after all of them, or at the first that fails. */
  lemma {:induction false} WalkIsItsItems(action: string, items: seq<Item>, leaves: seq<Object>, st: Store, faults: Faults)
    returns (outcomes: seq<Outcome>)
    requires Within(items, |leaves|)
    ensures WalkedBy(action, items, leaves, st, faults, outcomes)
    ensures RunItems(action, items, leaves, st, faults) == outcomes[|outcomes| - 1]
  {
    var start := Outcome(None, leaves, st);
    if items == [] {
      outcomes := [start];
    } else {
      var o := RunItem(action, items[0], leaves, st, faults);
      if o.err.Some? {
        outcomes := [start, o];
      } else {
        var rest := WalkIsItsItems(action, items[1..], o.leaves, o.st, faults);
        outcomes := [start] + rest;
        forall k | 0 <= k < |outcomes| - 1
          ensures outcomes[k].err.None? && Within([items[k]], |leaves|)
          ensures outcomes[k + 1] == RunItem(action, items[k], outcomes[k].leaves, outcomes[k].st, faults)
        {
          assert outcomes[k + 1] == rest[k];
          if k > 0 {
            assert outcomes[k] == rest[k - 1] && items[k] == items[1..][k - 1];
          }
        }
      }
    }
  }
}
