/**
 The effect of a whole sequence of actions, as a function of what was stored when it began.
 Whatever the sequence, what it leaves under an identity is one of four simple functions
 of what it found there, and applying any of them a third time changes nothing.
 */
module Symbols {
  import opened Wrappers
  import opened Kube
  import opened Client
  import opened Actions
  import opened Effects

  /** What became of a live object: itself, a given object, or a base that took over its value. */
  datatype Fate =
    | Same
    | Fixed(now: Option<Object>)
    | Carried(base: Object)
    | Kept(o: Object)            // itself, unless an update to `o` was not vetoed

  /** `absent` is what is stored now if nothing was stored at first. */
  datatype CellSymbol = CellSymbol(absent: Option<Object>, present: Fate)

  /** A rendered object: as it is now if nothing was stored at first, or else its base and whether it took over. */
  datatype LeafSymbol = LeafSymbol(absent: Object, base: Object, carried: bool)

  function CellMeaning(s: CellSymbol, found: Option<Object>): Option<Object> {
    if found.None? then s.absent
    else match s.present
      case Same => found
      case Fixed(o) => o
      case Carried(base) => Some(Carry(base, found.value))
      case Kept(o) => if Vetoed(found.value, o) then found else Some(o)
  }

  function LeafMeaning(l: LeafSymbol, found: Option<Object>): Object {
    if found.None? then l.absent
    else if l.carried then Carry(l.base, found.value)
    else l.base
  }

  function NowStored(l: LeafSymbol): Fate {
    if l.carried then Carried(l.base) else Fixed(Some(l.base))
  }

  datatype SymbolMeeting = SymbolMeeting(leaf: LeafSymbol, cell: CellSymbol)

  /** CreateOrUpdate, in the case that something was stored at first. */
  function UpdatePresent(l: LeafSymbol, present: Fate): (LeafSymbol, Fate) {
    match present
    case Fixed(None) => (l, NowStored(l))
    case Same =>
      if IsServiceAccount(l.base) then (l, Kept(l.base))
      else (l.(carried := true), Carried(l.base))
    case Kept(o) => (l, if Vetoed(o, l.base) then present else Fixed(Some(l.base)))
    case Fixed(Some(x)) =>
      if Vetoed(x, l.base) then (l, present)
      else if l.carried && Carries(x).None? then (l, Carried(l.base))
      else (l.(base := Carry(l.base, x), carried := false), Fixed(Some(Carry(l.base, x))))
    case Carried(b) =>
      (l.(base := Carry(l.base, b), carried := true), Carried(Carry(l.base, b)))
  }

  function SymbolEffect(a: Action, m: SymbolMeeting): SymbolMeeting {
    var l, s := m.leaf, m.cell;
    var absent := Effect(a, Meeting(l.absent, s.absent));
    match a
    case DeleteIfExist => SymbolMeeting(l, CellSymbol(None, Fixed(None)))
    case CreateIfNotExist =>
      SymbolMeeting(l, CellSymbol(absent.cell, if s.present == Fixed(None) then NowStored(l) else s.present))
    case CreateOrUpdate =>
      var (leaf, fate) := UpdatePresent(l, s.present);
      SymbolMeeting(leaf.(absent := absent.leaf), CellSymbol(absent.cell, fate))
  }

  /** An object that carries nothing is matched only by objects that carry nothing. */
  predicate Dominates(o: Object, base: Object) {
    Carries(o).None? ==> Carries(base).None?
  }

  predicate SoundLeaf(l: LeafSymbol, id: Identity) {
    && Sound(l.absent, id) && Sound(l.base, id)
    && Dominates(l.absent, l.base)
    && (IsServiceAccount(l.base) ==> !l.carried)
  }

  predicate SoundCell(s: CellSymbol, id: Identity) {
    && (s.absent.Some? ==> Sound(s.absent.value, id))
    && match s.present
       case Same => true
       case Fixed(None) => s.absent.None?
       case Fixed(Some(o)) => Sound(o, id) && s.absent.Some? && Dominates(s.absent.value, o)
       case Carried(b) => Sound(b, id) && s.absent.Some? && Dominates(s.absent.value, b) && !IsServiceAccount(b)
       case Kept(o) => Sound(o, id) && s.absent.Some? && IsServiceAccount(o)
  }

  lemma SymbolEffectIsSound(a: Action, m: SymbolMeeting, id: Identity)
    requires SoundLeaf(m.leaf, id) && SoundCell(m.cell, id)
    ensures SoundLeaf(SymbolEffect(a, m).leaf, id) && SoundCell(SymbolEffect(a, m).cell, id)
  {
  }

  /** One action on the symbols is that action on what they mean. */
  lemma SymbolEffectMeans(a: Action, m: SymbolMeeting, found: Option<Object>, id: Identity)
    requires SoundLeaf(m.leaf, id) && SoundCell(m.cell, id)
    requires found.Some? ==> Sound(found.value, id)
    ensures var m' := SymbolEffect(a, m);
      Effect(a, Meeting(LeafMeaning(m.leaf, found), CellMeaning(m.cell, found))) ==
      Meeting(LeafMeaning(m'.leaf, found), CellMeaning(m'.cell, found))
  {
    var l, s := m.leaf, m.cell;
    if found.Some? && a.CreateOrUpdate? {
      var c := found.value;
      KindsDiffer(l.base);
      CarryLaws(l.base, c, c);
      match s.present
      case Same =>
        CarryIsPrepare(l.base, c);
      case Fixed(None) =>
      case Kept(o) =>
        CarryIsPrepare(l.base, c);
        CarryIsPrepare(l.base, o);
      case Fixed(Some(x)) =>
        CarryLaws(l.base, c, x);
        CarryLaws(l.base, x, x);
        CarryIsPrepare(l.base, x);
      case Carried(b) =>
        CarryLaws(l.base, c, c);
        CarryLaws(l.base, b, c);
        CarryLaws(b, c, c);
        CarryLaws(l.base, c, Carry(b, c));
        CarryLaws(l.base, Carry(b, c), c);
    }
  }

  /** The third application changes nothing; the second still may. */
  lemma ThriceIsTwice(s: CellSymbol, found: Option<Object>, id: Identity)
    requires SoundCell(s, id)
    requires found.Some? ==> Sound(found.value, id)
    ensures var twice := CellMeaning(s, CellMeaning(s, found));
      CellMeaning(s, twice) == twice
  {
  }
}
