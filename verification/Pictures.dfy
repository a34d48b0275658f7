/**
 Rollouts as sequences of actions on pictures: rendered objects and a cluster without their
 resource versions, and which rendered objects carry one.  The server refuses to create
 those; a sequence that never re-creates what it updated and deleted is never refused.
 */
module Pictures {
  import opened Wrappers
  import opened Kube
  import opened Client
  import opened Actions
  import opened Effects

  /** `stamped` are the rendered objects that carry a resource version. */
  datatype Picture = Picture(leaves: seq<Object>, stamped: set<nat>, cells: map<Identity, Object>)

  function PictureOf(leaves: seq<Object>, st: Store): Picture {
    Picture(
      seq(|leaves|, i requires 0 <= i < |leaves| => Erase(leaves[i])),
      set p: nat | p < |leaves| && leaves[p].resourceVersion.Some?,
      map id | id in st.objects :: Erase(st.objects[id]))
  }

  function CellOf(cells: map<Identity, Object>, id: Identity): Option<Object> {
    if id in cells then Some(cells[id]) else None
  }

  datatype Op = Op(action: Action, ptr: nat)

  function ApplyOp(op: Op, p: Picture): (q: Picture)
    ensures |q.leaves| == |p.leaves|
  {
    if op.ptr >= |p.leaves| then p
    else
      var id := p.leaves[op.ptr].id;
      var m := Effect(op.action, Meeting(p.leaves[op.ptr], CellOf(p.cells, id)));
      Picture(
        p.leaves[op.ptr := m.leaf],
        if op.action.CreateOrUpdate? && id in p.cells then p.stamped + {op.ptr} else p.stamped,
        if m.cell.Some? then p.cells[id := m.cell.value] else p.cells - {id})
  }

  function ApplyOps(ops: seq<Op>, p: Picture): (q: Picture)
    ensures |q.leaves| == |p.leaves|
  {
    if ops == [] then p else ApplyOps(ops[1..], ApplyOp(ops[0], p))
  }

  /** No create of a rendered object that carries a resource version. */
  predicate Accepted(op: Op, p: Picture) {
    op.ptr < |p.leaves| && !op.action.DeleteIfExist? && p.leaves[op.ptr].id !in p.cells ==> op.ptr !in p.stamped
  }

  predicate AllAccepted(ops: seq<Op>, p: Picture) {
    ops == [] || (Accepted(ops[0], p) && AllAccepted(ops[1..], ApplyOp(ops[0], p)))
  }

  lemma {:induction false} ApplyConcat(a: seq<Op>, b: seq<Op>, p: Picture)
    ensures ApplyOps(a + b, p) == ApplyOps(b, ApplyOps(a, p))
    ensures AllAccepted(a + b, p) <==> AllAccepted(a, p) && AllAccepted(b, ApplyOps(a, p))
  {
    if a == [] {
      assert a + b == b;
    } else {
      assert (a + b)[0] == a[0] && (a + b)[1..] == a[1..] + b;
      ApplyConcat(a[1..], b, ApplyOp(a[0], p));
    }
  }

  lemma CellView(leaves: seq<Object>, st: Store, id: Identity)
    ensures CellOf(PictureOf(leaves, st).cells, id) == View(st, id)
  {
  }

  lemma PictureByViews(leaves: seq<Object>, st: Store, q: Picture)
    requires |leaves| == |q.leaves| && forall p :: 0 <= p < |leaves| ==> Erase(leaves[p]) == q.leaves[p]
    requires forall p: nat :: p in q.stamped <==> p < |leaves| && leaves[p].resourceVersion.Some?
    requires forall id :: View(st, id) == CellOf(q.cells, id)
    ensures PictureOf(leaves, st) == q
  {
    var p := PictureOf(leaves, st);
    forall id
      ensures id in p.cells <==> id in q.cells
      ensures id in p.cells ==> p.cells[id] == q.cells[id]
    {
      CellView(leaves, st, id);
      assert View(st, id) == CellOf(q.cells, id);
    }
    assert p.cells == q.cells;
    assert p.leaves == q.leaves;
    assert p.stamped == q.stamped;
  }

  // ---- Sequences that are never refused ----

  predicate Updates(op: Op, ptr: nat) {
    op == Op(CreateOrUpdate, ptr)
  }

  predicate Deletes(op: Op, leaves: seq<Object>, ptr: nat) {
    op.action.DeleteIfExist? && op.ptr < |leaves| && ptr < |leaves| && leaves[op.ptr].id == leaves[ptr].id
  }

  predicate Creates(op: Op, ptr: nat) {
    op.ptr == ptr && !op.action.DeleteIfExist?
  }

  /** A rendered object may be updated, deleted under its identity, and then created again. */
  ghost predicate Recreates(ops: seq<Op>, leaves: seq<Object>, i: nat, j: nat, k: nat) {
    && i < j < k < |ops|
    && Updates(ops[i], ops[k].ptr)
    && Deletes(ops[j], leaves, ops[k].ptr)
    && Creates(ops[k], ops[k].ptr)
  }

  ghost predicate NoRecreation(ops: seq<Op>, leaves: seq<Object>) {
    forall i: nat, j: nat, k: nat :: !Recreates(ops, leaves, i, j, k)
  }

  /** What carries a version was updated, and what then vanished was deleted after that. */
  ghost predicate Explained(done: seq<Op>, leaves: seq<Object>, p: Picture) {
    && |p.leaves| == |leaves|
    && (forall x: nat :: x < |leaves| ==> p.leaves[x].id == leaves[x].id)
    && (forall id :: id in p.cells ==> p.cells[id].id == id)
    && forall x: nat :: x < |leaves| && x in p.stamped ==> ExplainedAt(done, leaves, p, x)
  }

  ghost predicate ExplainedAt(done: seq<Op>, leaves: seq<Object>, p: Picture, x: nat)
    requires x < |leaves|
  {
    if leaves[x].id in p.cells then exists i: nat :: i < |done| && Updates(done[i], x)
    else exists i: nat, j: nat :: i < j < |done| && Updates(done[i], x) && Deletes(done[j], leaves, x)
  }

  lemma EffectKeepsIds(a: Action, m: Meeting)
    requires m.cell.Some? ==> m.cell.value.id == m.leaf.id
    ensures Effect(a, m).leaf.id == m.leaf.id
    ensures Effect(a, m).cell.Some? ==> Effect(a, m).cell.value.id == m.leaf.id
    ensures Effect(a, m).cell.Some? <==> !a.DeleteIfExist?
  {
  }

  lemma StaysExplainedAt(done: seq<Op>, op: Op, leaves: seq<Object>, p: Picture, x: nat)
    requires Explained(done, leaves, p) && op.ptr < |leaves| && x < |leaves|
    requires x in ApplyOp(op, p).stamped
    ensures ExplainedAt(done + [op], leaves, ApplyOp(op, p), x)
  {
    var more, q := done + [op], ApplyOp(op, p);
    EffectKeepsIds(op.action, Meeting(p.leaves[op.ptr], CellOf(p.cells, leaves[op.ptr].id)));
    assert forall i :: 0 <= i < |done| ==> more[i] == done[i];
    assert more[|done|] == op;
    if x in p.stamped {
      assert ExplainedAt(done, leaves, p, x);
      var i: nat :| i < |done| && Updates(done[i], x);
      assert Updates(more[i], x);
      if leaves[x].id !in q.cells {
        if leaves[x].id in p.cells {
          assert Deletes(more[|done|], leaves, x);
        } else {
          var i': nat, j: nat :| i' < j < |done| && Updates(done[i'], x) && Deletes(done[j], leaves, x);
          assert Updates(more[i'], x) && Deletes(more[j], leaves, x);
        }
      }
    } else {
      assert Updates(more[|done|], x);
    }
  }

  lemma StaysExplained(done: seq<Op>, op: Op, leaves: seq<Object>, p: Picture)
    requires Explained(done, leaves, p) && op.ptr < |leaves|
    ensures Explained(done + [op], leaves, ApplyOp(op, p))
  {
    EffectKeepsIds(op.action, Meeting(p.leaves[op.ptr], CellOf(p.cells, leaves[op.ptr].id)));
    forall x: nat | x < |leaves| && x in ApplyOp(op, p).stamped
      ensures ExplainedAt(done + [op], leaves, ApplyOp(op, p), x)
    {
      StaysExplainedAt(done, op, leaves, p, x);
    }
  }

  /** What the server refuses to create was updated and then deleted. */
  lemma RefusalRecreates(done: seq<Op>, todo: seq<Op>, leaves: seq<Object>, p: Picture)
    requires Explained(done, leaves, p) && todo != [] && !Accepted(todo[0], p)
    ensures exists i: nat, j: nat, k: nat :: Recreates(done + todo, leaves, i, j, k)
  {
    var ptr := todo[0].ptr;
    var all := done + todo;
    var i: nat, j: nat :| i < j < |done| && Updates(done[i], ptr) && Deletes(done[j], leaves, ptr);
    assert all[i] == done[i] && all[j] == done[j] && all[|done|] == todo[0];
    assert Recreates(all, leaves, i, j, |done|);
  }

  lemma {:induction false} RestIsAccepted(done: seq<Op>, todo: seq<Op>, leaves: seq<Object>, p: Picture)
    requires NoRecreation(done + todo, leaves) && Explained(done, leaves, p)
    requires forall i :: 0 <= i < |todo| ==> todo[i].ptr < |leaves|
    ensures AllAccepted(todo, p)
    decreases |todo|
  {
    if todo != [] {
      var op := todo[0];
      if !Accepted(op, p) {
        RefusalRecreates(done, todo, leaves, p);
      }
      StaysExplained(done, op, leaves, p);
      assert done + [op] + todo[1..] == done + todo;
      RestIsAccepted(done + [op], todo[1..], leaves, ApplyOp(op, p));
    }
  }

  lemma FreshIsExplained(leaves: seq<Object>, st: Store)
    requires ValidStore(st) && forall p :: 0 <= p < |leaves| ==> leaves[p].resourceVersion.None?
    ensures PictureOf(leaves, st).stamped == {} && Explained([], leaves, PictureOf(leaves, st))
  {
    var p := PictureOf(leaves, st);
    forall id | id in p.cells
      ensures p.cells[id].id == id
    {
      assert p.cells[id] == Erase(st.objects[id]);
    }
  }

  /**
   A sequence of actions on freshly rendered objects that re-creates none of them is accepted
   by the server from whatever it finds.
   */
  lemma NoRecreationIsAccepted(ops: seq<Op>, leaves: seq<Object>, st: Store)
    requires NoRecreation(ops, leaves) && ValidStore(st)
    requires forall p :: 0 <= p < |leaves| ==> leaves[p].resourceVersion.None?
    requires forall i :: 0 <= i < |ops| ==> ops[i].ptr < |leaves|
    ensures AllAccepted(ops, PictureOf(leaves, st))
  {
    assert [] + ops == ops;
    FreshIsExplained(leaves, st);
    RestIsAccepted([], ops, leaves, PictureOf(leaves, st));
  }
}
