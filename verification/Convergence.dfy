/**
 Running the same rollout again and again.  Every execution starts from freshly rendered
 objects and changes them in place; no call is refused for reasons of its own and nobody
 else writes.
 */
module Convergence {
  import opened Wrappers
  import opened Kube
  import opened Rollout
  import opened Walk
  import opened Effects
  import opened Symbols
  import opened Executions
  import opened Pictures
  import opened Scripts

  // ---- Sequences of actions as functions of what was stored ----

  datatype Ledger = Ledger(leaves: seq<LeafSymbol>, cells: map<Identity, CellSymbol>)

  function SymbolAt(g: Ledger, id: Identity): CellSymbol {
    if id in g.cells then g.cells[id] else CellSymbol(None, Same)
  }

  function NoteOp(op: Op, g: Ledger): (h: Ledger)
    ensures |h.leaves| == |g.leaves|
  {
    if op.ptr >= |g.leaves| then g
    else
      var id := g.leaves[op.ptr].base.id;
      var m := SymbolEffect(op.action, SymbolMeeting(g.leaves[op.ptr], SymbolAt(g, id)));
      Ledger(g.leaves[op.ptr := m.leaf], g.cells[id := m.cell])
  }

  function NoteOps(ops: seq<Op>, g: Ledger): Ledger {
    if ops == [] then g else NoteOps(ops[1..], NoteOp(ops[0], g))
  }

  ghost predicate SoundLedger(g: Ledger) {
    && (forall p :: 0 <= p < |g.leaves| ==> SoundLeaf(g.leaves[p], g.leaves[p].base.id))
    && (forall id :: SoundCell(SymbolAt(g, id), id))
  }

  ghost predicate SoundCells(cells: map<Identity, Object>) {
    forall id :: id in cells ==> Sound(cells[id], id)
  }

  /** The ledger tells the present picture from the first cells. */
  ghost predicate Tells(g: Ledger, cells: map<Identity, Object>, p: Picture) {
    && |p.leaves| == |g.leaves|
    && (forall x :: 0 <= x < |p.leaves| ==>
         p.leaves[x] == LeafMeaning(g.leaves[x], CellOf(cells, g.leaves[x].base.id)))
    && (forall id :: CellOf(p.cells, id) == CellMeaning(SymbolAt(g, id), CellOf(cells, id)))
  }

  lemma NoteIsSound(op: Op, g: Ledger)
    requires SoundLedger(g)
    ensures SoundLedger(NoteOp(op, g))
    ensures forall p :: 0 <= p < |g.leaves| ==> NoteOp(op, g).leaves[p].base.id == g.leaves[p].base.id
  {
    if op.ptr < |g.leaves| {
      var l, h := g.leaves[op.ptr], NoteOp(op, g);
      var id := l.base.id;
      assert SoundCell(SymbolAt(g, id), id);
      SymbolEffectIsSound(op.action, SymbolMeeting(l, SymbolAt(g, id)), id);
      forall id' ensures SoundCell(SymbolAt(h, id'), id') {
        if id' != id {
          assert SymbolAt(h, id') == SymbolAt(g, id');
          assert SoundCell(SymbolAt(g, id'), id');
        }
      }
    }
  }

  /** An action and its note leave other identities alone. */
  lemma OtherCells(op: Op, g: Ledger, p: Picture, id: Identity)
    requires op.ptr < |g.leaves| == |p.leaves| && p.leaves[op.ptr].id == g.leaves[op.ptr].base.id != id
    ensures SymbolAt(NoteOp(op, g), id) == SymbolAt(g, id)
    ensures CellOf(ApplyOp(op, p).cells, id) == CellOf(p.cells, id)
  {
  }

  lemma OpTold(op: Op, g: Ledger, cells: map<Identity, Object>, p: Picture)
    requires SoundLedger(g) && SoundCells(cells) && Tells(g, cells, p)
    ensures SoundLedger(NoteOp(op, g)) && Tells(NoteOp(op, g), cells, ApplyOp(op, p))
  {
    NoteIsSound(op, g);
    if op.ptr < |g.leaves| {
      var l := g.leaves[op.ptr];
      var id := l.base.id;
      var found := CellOf(cells, id);
      assert SoundCell(SymbolAt(g, id), id);
      SymbolEffectMeans(op.action, SymbolMeeting(l, SymbolAt(g, id)), found, id);
      if found.Some? {
        CarryLaws(l.base, found.value, found.value);
      }
      assert p.leaves[op.ptr].id == id;
      var h, q := NoteOp(op, g), ApplyOp(op, p);
      forall id' | id' != id
        ensures CellOf(q.cells, id') == CellMeaning(SymbolAt(h, id'), CellOf(cells, id'))
      {
        OtherCells(op, g, p, id');
        assert CellOf(p.cells, id') == CellMeaning(SymbolAt(g, id'), CellOf(cells, id'));
      }
    }
  }

  lemma {:induction false} OpsTold(ops: seq<Op>, g: Ledger, cells: map<Identity, Object>, p: Picture)
    requires SoundLedger(g) && SoundCells(cells) && Tells(g, cells, p)
    ensures SoundLedger(NoteOps(ops, g)) && Tells(NoteOps(ops, g), cells, ApplyOps(ops, p))
  {
    if ops != [] {
      OpTold(ops[0], g, cells, p);
      OpsTold(ops[1..], NoteOp(ops[0], g), cells, ApplyOp(ops[0], p));
    }
  }

  function Blank(leaves: seq<Object>): Ledger {
    Ledger(seq(|leaves|, i requires 0 <= i < |leaves| => LeafSymbol(Erase(leaves[i]), Erase(leaves[i]), false)), map[])
  }

  /** An execution in which the server accepts every create. */
  ghost predicate AcceptedRun(groups: seq<Group>, objects: map<string, Tree>, leaves: seq<Object>, st: Store, e: Execution) {
    && Good(leaves, st) && ValidObjects(objects, |leaves|)
    && AllAccepted(GroupsScript(groups, objects).ops, PictureOf(leaves, st))
    && RolloutRuns(groups, objects, leaves, st, NoFaults, e)
  }

  lemma StoredIsSound(st: Store, id: Identity)
    requires ValidStore(st)
    ensures View(st, id).Some? ==> Sound(View(st, id).value, id)
  {
  }

  lemma BlankTells(leaves: seq<Object>, st: Store)
    requires Good(leaves, st)
    ensures SoundLedger(Blank(leaves)) && SoundCells(PictureOf(leaves, st).cells)
    ensures Tells(Blank(leaves), PictureOf(leaves, st).cells, PictureOf(leaves, st))
  {
  }

  /**
   What a whole execution that the server accepts leaves under an identity, as a function of
   what it found there.
   */
  lemma ExecutionTold(groups: seq<Group>, objects: map<string, Tree>, leaves: seq<Object>, st: Store, e: Execution,
      id: Identity)
    requires AcceptedRun(groups, objects, leaves, st, e)
    ensures Good(e.leaves, e.st)
    ensures var s := SymbolAt(NoteOps(GroupsScript(groups, objects).ops, Blank(leaves)), id);
      SoundCell(s, id) && View(e.st, id) == CellMeaning(s, View(st, id))
  {
    RolloutFollows(groups, objects, leaves, st, e);
    var p := PictureOf(leaves, st);
    BlankTells(leaves, st);
    OpsTold(GroupsScript(groups, objects).ops, Blank(leaves), p.cells, p);
    CellView(leaves, st, id);
    CellView(e.leaves, e.st, id);
  }

  /** Of three executions that the server accepts, the third changes nothing. */
  lemma ThreeExecutions(groups: seq<Group>, objects: map<string, Tree>, leaves: seq<Object>, st: Store,
      e1: Execution, e2: Execution, e3: Execution)
    requires AcceptedRun(groups, objects, leaves, st, e1)
    requires AcceptedRun(groups, objects, leaves, e1.st, e2)
    requires AcceptedRun(groups, objects, leaves, e2.st, e3)
    ensures SameCluster(e2.st, e3.st)
  {
    var ledger := NoteOps(GroupsScript(groups, objects).ops, Blank(leaves));
    forall id
      ensures View(e2.st, id) == View(e3.st, id)
    {
      ExecutionTold(groups, objects, leaves, st, e1, id);
      ExecutionTold(groups, objects, leaves, e1.st, e2, id);
      ExecutionTold(groups, objects, leaves, e2.st, e3, id);
      StoredIsSound(st, id);
      ThriceIsTwice(SymbolAt(ledger, id), View(st, id), id);
    }
  }

  /** As rendered: the server can decode it, and it carries no resource version. */
  predicate Fresh(o: Object) {
    WellFormed(o) && o.resourceVersion.None?
  }

  /** Freshly rendered objects that the server can decode, for a rollout that re-creates none of them. */
  ghost predicate Renders(groups: seq<Group>, objects: map<string, Tree>, leaves: seq<Object>) {
    && ValidObjects(objects, |leaves|)
    && (forall p :: 0 <= p < |leaves| ==> Fresh(leaves[p]))
    && NoRecreation(GroupsScript(groups, objects).ops, leaves)
  }

  lemma ExecutionIsAccepted(groups: seq<Group>, objects: map<string, Tree>, leaves: seq<Object>, st: Store, e: Execution)
    requires Renders(groups, objects, leaves) && ValidStore(st)
    requires RolloutRuns(groups, objects, leaves, st, NoFaults, e)
    ensures AcceptedRun(groups, objects, leaves, st, e) && ValidStore(e.st)
  {
    GroupsWithin(groups, objects, |leaves|);
    NoRecreationIsAccepted(GroupsScript(groups, objects).ops, leaves, st);
    RolloutFollows(groups, objects, leaves, st, e);
  }

  /** Whatever the executions, the third leaves the cluster of the second. */
  ghost predicate Converges(groups: seq<Group>, objects: map<string, Tree>, leaves: seq<Object>, st: Store)
    requires ValidObjects(objects, |leaves|)
  {
    forall e1, e2, e3 ::
      && RolloutRuns(groups, objects, leaves, st, NoFaults, e1)
      && RolloutRuns(groups, objects, leaves, e1.st, NoFaults, e2)
      && RolloutRuns(groups, objects, leaves, e2.st, NoFaults, e3)
      ==> SameCluster(e2.st, e3.st)
  }

  /**
   Convergence: a third execution of a rollout leaves the cluster of the second, whatever
   cluster it starts from, for every list of groups, steps, actions and nested lists, for
   rendered objects shared between steps, and for every interleaving of its parallel
   groups, as long as it does not update, delete and then create the same rendered object.
   */
  lemma ThirdRunChangesNothing(groups: seq<Group>, objects: map<string, Tree>, leaves: seq<Object>, st: Store,
      e1: Execution, e2: Execution, e3: Execution)
    requires Renders(groups, objects, leaves) && ValidStore(st)
    requires RolloutRuns(groups, objects, leaves, st, NoFaults, e1)
    requires RolloutRuns(groups, objects, leaves, e1.st, NoFaults, e2)
    requires RolloutRuns(groups, objects, leaves, e2.st, NoFaults, e3)
    ensures SameCluster(e2.st, e3.st)
  {
    ExecutionIsAccepted(groups, objects, leaves, st, e1);
    ExecutionIsAccepted(groups, objects, leaves, e1.st, e2);
    ExecutionIsAccepted(groups, objects, leaves, e2.st, e3);
    ThreeExecutions(groups, objects, leaves, st, e1, e2, e3);
  }

  lemma RendersConverges(groups: seq<Group>, objects: map<string, Tree>, leaves: seq<Object>, st: Store)
    requires Renders(groups, objects, leaves) && ValidStore(st)
    ensures Converges(groups, objects, leaves, st)
  {
    forall e1, e2, e3 |
      && RolloutRuns(groups, objects, leaves, st, NoFaults, e1)
      && RolloutRuns(groups, objects, leaves, e1.st, NoFaults, e2)
      && RolloutRuns(groups, objects, leaves, e2.st, NoFaults, e3)
      ensures SameCluster(e2.st, e3.st)
    {
      ThirdRunChangesNothing(groups, objects, leaves, st, e1, e2, e3);
    }
  }
}
