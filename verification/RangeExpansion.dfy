/** The 169 starting hands, their combos, and the expansion of a range into weighted combos. */
module RangeExpansion {
  import opened Cards
  import opened Combos
  import opened HandEvaluator

  type Hole = (Card, Card)

  /** A starting hand: a pair, or two ranks that are suited or not. */
  datatype Cell = PairCell(rank: Rank) | SuitedCell(high: Rank, low: Rank) | OffsuitCell(high: Rank, low: Rank)

  predicate ValidCell(cell: Cell) {
    cell.PairCell? || cell.low < cell.high
  }

  /** The order of sort_cards. */
  predicate Before(a: Card, b: Card) {
    a.rank < b.rank || (a.rank == b.rank && a.suit < b.suit)
  }

  function SortPair(a: Card, b: Card): Hole {
    if Before(b, a) then (b, a) else (a, b)
  }

  predicate Sorted(pair: Hole) {
    Before(pair.0, pair.1)
  }

  /** cell_key. */
  function CellOf(pair: Hole): (cell: Cell)
    ensures ValidCell(cell)
  {
    if pair.0.rank == pair.1.rank then PairCell(pair.0.rank)
    else
      var high, low := if pair.0.rank > pair.1.rank then pair.0 else pair.1,
                       if pair.0.rank > pair.1.rank then pair.1 else pair.0;
      if high.suit == low.suit then SuitedCell(high.rank, low.rank) else OffsuitCell(high.rank, low.rank)
  }

  const PAIR_SUITS: seq<(Suit, Suit)> := [(0, 1), (0, 2), (0, 3), (1, 2), (1, 3), (2, 3)]
  const SAME_SUITS: seq<(Suit, Suit)> := [(0, 0), (1, 1), (2, 2), (3, 3)]
  const MIXED_SUITS: seq<(Suit, Suit)> :=
    [(0, 1), (0, 2), (0, 3), (1, 0), (1, 2), (1, 3), (2, 0), (2, 1), (2, 3), (3, 0), (3, 1), (3, 2)]

  function WithSuits(first: Rank, second: Rank, suits: seq<(Suit, Suit)>): (holes: seq<Hole>)
    ensures |holes| == |suits|
    ensures forall i :: 0 <= i < |suits| ==> holes[i] == SortPair(Card(first, suits[i].0), Card(second, suits[i].1))
  {
    seq(|suits|, i requires 0 <= i < |suits| => SortPair(Card(first, suits[i].0), Card(second, suits[i].1)))
  }

  /** _expand_starting_hand. */
  function CellCombos(cell: Cell): seq<Hole> {
    match cell
    case PairCell(r) => WithSuits(r, r, PAIR_SUITS)
    case SuitedCell(high, low) => WithSuits(high, low, SAME_SUITS)
    case OffsuitCell(high, low) => WithSuits(high, low, MIXED_SUITS)
  }

  function CellSize(cell: Cell): nat {
    if cell.PairCell? then 6 else if cell.SuitedCell? then 4 else 12
  }

  lemma MixedSuits(a: Suit, b: Suit)
    ensures a != b ==> (a, b) in MIXED_SUITS
    ensures a < b ==> (a, b) in PAIR_SUITS
    ensures (a, a) in SAME_SUITS
  {
    assert MIXED_SUITS[0] == (0, 1) && MIXED_SUITS[1] == (0, 2) && MIXED_SUITS[2] == (0, 3)
        && MIXED_SUITS[3] == (1, 0) && MIXED_SUITS[4] == (1, 2) && MIXED_SUITS[5] == (1, 3)
        && MIXED_SUITS[6] == (2, 0) && MIXED_SUITS[7] == (2, 1) && MIXED_SUITS[8] == (2, 3)
        && MIXED_SUITS[9] == (3, 0) && MIXED_SUITS[10] == (3, 1) && MIXED_SUITS[11] == (3, 2);
    assert PAIR_SUITS[0] == (0, 1) && PAIR_SUITS[1] == (0, 2) && PAIR_SUITS[2] == (0, 3)
        && PAIR_SUITS[3] == (1, 2) && PAIR_SUITS[4] == (1, 3) && PAIR_SUITS[5] == (2, 3);
    assert SAME_SUITS[0] == (0, 0) && SAME_SUITS[1] == (1, 1) && SAME_SUITS[2] == (2, 2) && SAME_SUITS[3] == (3, 3);
  }

  /** A cell's combos are exactly the sorted pairs that cell_key maps back to it, each once. */
  lemma CellRoundTrip(cell: Cell)
    requires ValidCell(cell)
    ensures |CellCombos(cell)| == CellSize(cell)
    ensures Distinct(CellCombos(cell))
    ensures forall p :: p in CellCombos(cell) <==> Sorted(p) && CellOf(p) == cell
  {
    var holes := CellCombos(cell);
    forall p | Sorted(p) && CellOf(p) == cell ensures p in holes {
      MixedSuits(p.0.suit, p.1.suit);
      MixedSuits(p.1.suit, p.0.suit);
      if cell.PairCell? {
        var i :| 0 <= i < 6 && PAIR_SUITS[i] == (p.0.suit, p.1.suit);
        assert holes[i] == p;
      } else if cell.SuitedCell? {
        var i :| 0 <= i < 4 && SAME_SUITS[i] == (p.1.suit, p.0.suit);
        assert holes[i] == p;
      } else {
        var i :| 0 <= i < 12 && MIXED_SUITS[i] == (p.1.suit, p.0.suit);
        assert holes[i] == p;
      }
    }
  }

  // ---------------------------------------------------------------- ranges

  /** A range: weighted cells, weighted concrete combos, and its own dead cards. */
  datatype RangeSpec = RangeSpec(matrix: map<Cell, real>, combos: seq<Entry>, dead: set<Card>)

  /** The validation of the range model. */
  predicate ValidRange(r: RangeSpec) {
    && (forall cell :: cell in r.matrix ==> ValidCell(cell) && 0.0 <= r.matrix[cell] <= 1.0)
    && (forall e :: e in r.combos ==> Sorted(e.Pair()) && 0.0 <= e.weight <= 1.0)
    && (forall e :: e in r.combos ==> e.first !in r.dead && e.second !in r.dead)
    && DistinctPairs(r.combos)
  }

  function EntryWeight(entries: seq<Entry>, pair: Hole): Option<real> {
    if entries == [] then None
    else if entries[0].Pair() == pair then Some(entries[0].weight)
    else EntryWeight(entries[1..], pair)
  }

  predicate Blocked(pair: Hole, dead: set<Card>) {
    pair.0 in dead || pair.1 in dead
  }

  /** The weight of a combo: a concrete entry replaces the cell, a dead card removes it. */
  function RangeWeight(r: RangeSpec, dead: set<Card>, pair: Hole): real {
    if !Sorted(pair) || Blocked(pair, dead + r.dead) then 0.0
    else
      var concrete := EntryWeight(r.combos, pair);
      if concrete.Some? then concrete.value
      else if CellOf(pair) in r.matrix then r.matrix[CellOf(pair)]
      else 0.0
  }

  /** The rank characters in character-code order. */
  const RANKS_BY_NAME: seq<Rank> := [2, 3, 4, 5, 6, 7, 8, 9, 14, 11, 13, 12, 10]

  function CardNamed(i: nat): Card
    requires i < 52
  {
    Card(RANKS_BY_NAME[i / 4], i % 4)
  }

  lemma NamesAscend(i: nat, j: nat)
    requires i < j < 52
    ensures NameOrder(CardNamed(i)) < NameOrder(CardNamed(j))
  {}

  lemma NamedSomewhere(c: Card) returns (i: nat)
    ensures i < 52 && CardNamed(i) == c
  {
    var position: nat := match c.rank
      case 14 => 8
      case 11 => 9
      case 13 => 10
      case 12 => 11
      case 10 => 12
      case r => r - 2;
    assert RANKS_BY_NAME[position] == c.rank;
    i := 4 * position + c.suit;
  }

  function PairNamed(k: nat): Hole
    requires k < 2704
  {
    (CardNamed(k / 52), CardNamed(k % 52))
  }

  /** The combos of positive weight, sorted by their names. */
  function ListingFrom(weight: Hole -> real, k: nat): seq<Entry>
    requires k <= 2704
    decreases 2704 - k
  {
    if k == 2704 then []
    else
      var pair := PairNamed(k);
      (if weight(pair) > 0.0 then [Entry(pair.0, pair.1, weight(pair))] else []) + ListingFrom(weight, k + 1)
  }

  /** expand_range. */
  function Expanded(r: RangeSpec, dead: set<Card>): seq<Entry> {
    ListingFrom(p => RangeWeight(r, dead, p), 0)
  }

  lemma PairPositions(p: Hole) returns (k: nat)
    ensures k < 2704 && PairNamed(k) == p
  {
    var i := NamedSomewhere(p.0);
    var j := NamedSomewhere(p.1);
    k := 52 * i + j;
    assert k / 52 == i && k % 52 == j;
  }

  lemma PairNamesDiffer(i: nat, j: nat)
    requires i < j < 2704
    ensures PairNamed(i) != PairNamed(j)
  {
    if i / 52 < j / 52 {
      NamesAscend(i / 52, j / 52);
    } else {
      assert i % 52 < j % 52;
      NamesAscend(i % 52, j % 52);
    }
  }

  lemma {:induction false} ListingMembers(weight: Hole -> real, k: nat, e: Entry)
    requires k <= 2704
    ensures e in ListingFrom(weight, k) <==>
            weight(e.Pair()) == e.weight > 0.0 && exists j: nat :: k <= j < 2704 && PairNamed(j) == e.Pair()
    decreases 2704 - k
  {
    hide PairNamed, CardNamed;
    if k < 2704 {
      ListingMembers(weight, k + 1, e);
      if exists j: nat :: k + 1 <= j < 2704 && PairNamed(j) == e.Pair() {
        var j: nat :| k + 1 <= j < 2704 && PairNamed(j) == e.Pair();
        assert k <= j;
      }
    }
  }

  lemma {:induction false} ListingDistinct(weight: Hole -> real, k: nat)
    requires k <= 2704
    ensures DistinctPairs(ListingFrom(weight, k))
    decreases 2704 - k
  {
    if k < 2704 {
      ListingDistinct(weight, k + 1);
      var rest := ListingFrom(weight, k + 1);
      forall i | 0 <= i < |rest| ensures rest[i].Pair() != PairNamed(k) {
        ListingMembers(weight, k + 1, rest[i]);
        var j: nat :| k + 1 <= j < 2704 && PairNamed(j) == rest[i].Pair();
        PairNamesDiffer(k, j);
      }
    }
  }

  /** The expansion lists every combo of positive weight exactly once. */
  lemma ExpansionExact(r: RangeSpec, dead: set<Card>)
    ensures forall e :: e in Expanded(r, dead) <==> RangeWeight(r, dead, e.Pair()) == e.weight > 0.0
    ensures DistinctPairs(Expanded(r, dead))
  {
    var weight := (p: Hole) => RangeWeight(r, dead, p);
    ListingDistinct(weight, 0);
    forall e ensures e in Expanded(r, dead) <==> RangeWeight(r, dead, e.Pair()) == e.weight > 0.0 {
      ListingMembers(weight, 0, e);
      var k := PairPositions(e.Pair());
    }
  }

  lemma EligibleCons(e: Entry, rest: seq<Entry>, blocked: set<Card>)
    ensures Eligible([e] + rest, blocked)
         == (if Blocked(e.Pair(), blocked) then [] else [e]) + Eligible(rest, blocked)
  {
    assert ([e] + rest)[1..] == rest;
  }

  lemma {:induction false} ListingAvoids(weight: Hole -> real, fewer: Hole -> real, blocked: set<Card>, k: nat)
    requires k <= 2704
    requires forall p :: fewer(p) == if Blocked(p, blocked) then 0.0 else weight(p)
    ensures ListingFrom(fewer, k) == Eligible(ListingFrom(weight, k), blocked)
    decreases 2704 - k
  {
    hide PairNamed, CardNamed;
    if k < 2704 {
      ListingAvoids(weight, fewer, blocked, k + 1);
      var p := PairNamed(k);
      var e, rest := Entry(p.0, p.1, weight(p)), ListingFrom(weight, k + 1);
      assert fewer(p) == if Blocked(p, blocked) then 0.0 else weight(p);
      EligibleCons(e, rest, blocked);
      hide Eligible, Blocked;
      if weight(p) > 0.0 {
        assert ListingFrom(weight, k) == [e] + rest;
        assert ListingFrom(fewer, k) == (if Blocked(p, blocked) then [] else [e]) + ListingFrom(fewer, k + 1);
      } else {
        assert ListingFrom(weight, k) == rest;
        assert ListingFrom(fewer, k) == ListingFrom(fewer, k + 1);
      }
    }
  }

  /** Removing more dead cards before the expansion is the same as dropping their combos after it. */
  lemma DeadCardsFilter(r: RangeSpec, dead: set<Card>, more: set<Card>)
    ensures Expanded(r, dead + more) == Eligible(Expanded(r, dead), more)
  {
    ListingAvoids(p => RangeWeight(r, dead, p), p => RangeWeight(r, dead + more, p), more, 0);
  }

  // ---------------------------------------------------------------- the dictionary loops

  /** The weights that the loops have stored, with 0 for an absent combo. */
  function StoredWeight(weights: map<Hole, real>, p: Hole): real {
    if p in weights then weights[p] else 0.0
  }

  lemma {:induction false} ListingCongruent(a: Hole -> real, b: Hole -> real, k: nat)
    requires k <= 2704 && forall p :: a(p) == b(p)
    ensures ListingFrom(a, k) == ListingFrom(b, k)
    decreases 2704 - k
  {
    if k < 2704 { ListingCongruent(a, b, k + 1); }
  }

  lemma {:induction false} EntryWeightOf(entries: seq<Entry>, p: Hole)
    requires DistinctPairs(entries)
    ensures forall e :: e in entries && e.Pair() == p ==> EntryWeight(entries, p) == Some(e.weight)
    ensures EntryWeight(entries, p).Some? ==> exists e :: e in entries && e.Pair() == p
  {
    if entries != [] {
      var tail := entries[1..];
      EntryWeightOf(tail, p);
      assert entries == [entries[0]] + tail;
      forall e | e in entries && e.Pair() == p ensures EntryWeight(entries, p) == Some(e.weight) {
        if e != entries[0] {
          var i :| 0 <= i < |tail| && tail[i] == e;
          assert entries[i + 1] == e;
        }
      }
      if entries[0].Pair() == p { assert entries[0] in entries; }
    }
  }

  /** The dictionary after the cells: every unblocked combo of every cell, with the cell's weight. */
  method StoreCells(r: RangeSpec, gone: set<Card>) returns (weights: map<Hole, real>)
    requires ValidRange(r)
    ensures forall p :: p in weights <==> Sorted(p) && !Blocked(p, gone) && CellOf(p) in r.matrix
    ensures forall p :: p in weights ==> weights[p] == r.matrix[CellOf(p)]
  {
    hide CellOf, Sorted;
    weights := map[];
    var cells := r.matrix.Keys;
    while cells != {}
      invariant cells <= r.matrix.Keys
      invariant forall p :: p in weights <==>
                Sorted(p) && !Blocked(p, gone) && CellOf(p) in r.matrix && CellOf(p) !in cells
      invariant forall p :: p in weights ==> weights[p] == r.matrix[CellOf(p)]
      decreases |cells|
    {
      var cell :| cell in cells;
      CellRoundTrip(cell);
      var holes := CellCombos(cell);
      ghost var before := weights;
      for i := 0 to |holes|
        invariant forall p :: p in weights <==> p in before || (p in holes[..i] && !Blocked(p, gone))
        invariant forall p :: p in weights ==> weights[p] == if p in before then before[p] else r.matrix[cell]
      {
        if !Blocked(holes[i], gone) {
          assert holes[i] in CellCombos(cell);
          weights := weights[holes[i] := r.matrix[cell]];
        }
      }
      cells := cells - {cell};
    }
  }

  ghost predicate Lists(entries: seq<Entry>, p: Hole) {
    exists e :: e in entries && e.Pair() == p
  }

  /** What the second loop leaves: a concrete entry replaces the cell's weight. */
  ghost predicate Overlaid(cells: map<Hole, real>, entries: seq<Entry>, gone: set<Card>, weights: map<Hole, real>) {
    && (forall p :: p in weights <==> p in cells || (!Blocked(p, gone) && Lists(entries, p)))
    && (forall e :: e in entries && !Blocked(e.Pair(), gone) ==> e.Pair() in weights && weights[e.Pair()] == e.weight)
    && (forall p :: p in weights && !Lists(entries, p) ==> p in cells && weights[p] == cells[p])
  }

  lemma OverlayStep(cells: map<Hole, real>, entries: seq<Entry>, e: Entry, gone: set<Card>, weights: map<Hole, real>)
    requires Overlaid(cells, entries, gone, weights) && DistinctPairs(entries + [e])
    requires forall p :: p in cells ==> !Blocked(p, gone)
    ensures Overlaid(cells, entries + [e], gone, if Blocked(e.Pair(), gone) then weights else weights[e.Pair() := e.weight])
  {
    hide Blocked;
    var more := entries + [e];
    forall p ensures Lists(more, p) <==> Lists(entries, p) || e.Pair() == p {
      assert e in more;
      if Lists(entries, p) {
        var f :| f in entries && f.Pair() == p;
        assert f in more;
      }
    }
    forall f | f in entries ensures f.Pair() != e.Pair() {
      var i :| 0 <= i < |entries| && entries[i] == f;
      assert more[i] == f && more[|entries|] == e;
    }
  }

  lemma StoredIsWeight(r: RangeSpec, dead: set<Card>, cells: map<Hole, real>, weights: map<Hole, real>)
    requires ValidRange(r)
    requires forall p :: p in cells <==> Sorted(p) && !Blocked(p, dead + r.dead) && CellOf(p) in r.matrix
    requires forall p :: p in cells ==> cells[p] == r.matrix[CellOf(p)]
    requires Overlaid(cells, r.combos, dead + r.dead, weights)
    ensures forall p :: StoredWeight(weights, p) == RangeWeight(r, dead, p)
  {
    hide CellOf, Sorted;
    forall p ensures StoredWeight(weights, p) == RangeWeight(r, dead, p) {
      EntryWeightOf(r.combos, p);
    }
  }

  /** expand_range; the cells may be visited in any order. */
  method ExpandRange(r: RangeSpec, dead: set<Card>) returns (entries: seq<Entry>)
    requires ValidRange(r)
    ensures entries == Expanded(r, dead)
  {
    hide CellOf, Sorted, RangeWeight, EntryWeight, Blocked;
    var gone := dead + r.dead;
    var weights := StoreCells(r, gone);
    ghost var cells := weights;
    for i := 0 to |r.combos|
      invariant Overlaid(cells, r.combos[..i], gone, weights)
    {
      var e := r.combos[i];
      assert r.combos[..i + 1] == r.combos[..i] + [e];
      OverlayStep(cells, r.combos[..i], e, gone, weights);
      if !Blocked(e.Pair(), gone) {
        weights := weights[e.Pair() := e.weight];
      }
    }
    assert r.combos[..|r.combos|] == r.combos;
    StoredIsWeight(r, dead, cells, weights);
    entries := ListingFrom(p => StoredWeight(weights, p), 0);
    ListingCongruent(p => StoredWeight(weights, p), p => RangeWeight(r, dead, p), 0);
  }
}
