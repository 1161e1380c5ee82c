/** Combo beliefs summed into the 169 starting hands. */
module Aggregation {
  import opened Cards
  import opened Combos
  import opened RangeExpansion
  import opened Sums
  import opened RangeBelief

  /** The accumulated row of one cell. */
  datatype CellMass = CellMass(reach: real, probability: real, priorProbability: real, count: nat)

  datatype MatrixCell = MatrixCell(reachMass: real, probabilityMass: real, comboCount: nat,
                                   priorProbabilityMass: real, delta: real, multiplier: Option<real>)

  /** combos.get(key). */
  function Lookup(combos: seq<ComboBelief>, h: Hole): Option<ComboBelief> {
    if combos == [] then None
    else if combos[|combos| - 1].key == h then Some(combos[|combos| - 1])
    else Lookup(combos[..|combos| - 1], h)
  }

  function ReachOf(combos: seq<ComboBelief>): Hole -> real {
    h => if Lookup(combos, h).Some? then Lookup(combos, h).value.reach else 0.0
  }

  function ProbabilityOf(combos: seq<ComboBelief>): Hole -> real {
    h => if Lookup(combos, h).Some? then Lookup(combos, h).value.probability else 0.0
  }

  /** f restricted to the combos of one cell. */
  function InCell(cell: Cell, f: Hole -> real): Hole -> real {
    h => if CellOf(h) == cell then f(h) else 0.0
  }

  function CellKeys(keys: set<Hole>, cell: Cell): set<Hole> {
    set h | h in keys && CellOf(h) == cell
  }

  /** The sum of f over the combos of one cell. */
  ghost function CellSum(keys: set<Hole>, cell: Cell, f: Hole -> real): real {
    SetSum(keys, InCell(cell, f))
  }

  /** The row that a cell has after the combos in done. */
  ghost function RowOf(done: set<Hole>, cell: Cell, combos: seq<ComboBelief>, prior: seq<ComboBelief>): CellMass {
    CellMass(CellSum(done, cell, ReachOf(combos)), CellSum(done, cell, ProbabilityOf(combos)),
             CellSum(done, cell, ProbabilityOf(prior)), |CellKeys(done, cell)|)
  }

  ghost predicate Accumulated(acc: map<Cell, CellMass>, done: set<Hole>, combos: seq<ComboBelief>, prior: seq<ComboBelief>) {
    forall cell :: (cell in acc <==> CellKeys(done, cell) != {}) && (cell in acc ==> acc[cell] == RowOf(done, cell, combos, prior))
  }

  function Grown(before: Option<CellMass>, reach: real, probability: real, prior: real): CellMass {
    var b := if before.Some? then before.value else CellMass(0.0, 0.0, 0.0, 0);
    CellMass(b.reach + reach, b.probability + probability, b.priorProbability + prior, b.count + 1)
  }

  lemma CellSumAdd(done: set<Hole>, h: Hole, cell: Cell, f: Hole -> real)
    requires h !in done
    ensures CellSum(done + {h}, cell, f) == CellSum(done, cell, f) + if CellOf(h) == cell then f(h) else 0.0
  {
    SetSumAdd(done, InCell(cell, f), h);
  }

  /** A cell without a combo sums to nothing. */
  lemma EmptyCell(done: set<Hole>, cell: Cell, f: Hole -> real)
    requires CellKeys(done, cell) == {}
    ensures CellSum(done, cell, f) == 0.0
  {
    forall h | h in done ensures InCell(cell, f)(h) == 0.0 {
      assert CellOf(h) == cell ==> h in CellKeys(done, cell);
    }
    SetSumConstant(done, InCell(cell, f), 0.0);
  }

  lemma CellKeysAdd(done: set<Hole>, h: Hole, cell: Cell)
    requires h !in done
    ensures CellKeys(done + {h}, cell) == CellKeys(done, cell) + if CellOf(h) == cell then {h} else {}
    ensures h !in CellKeys(done, cell)
  {
    hide CellOf;
  }

  lemma RowGrows(done: set<Hole>, h: Hole, cell: Cell, combos: seq<ComboBelief>, prior: seq<ComboBelief>)
    requires h !in done
    ensures var before := if CellKeys(done, cell) == {} then None else Some(RowOf(done, cell, combos, prior));
            CellOf(h) == cell ==>
              RowOf(done + {h}, cell, combos, prior)
              == Grown(before, ReachOf(combos)(h), ProbabilityOf(combos)(h), ProbabilityOf(prior)(h))
    ensures CellOf(h) != cell ==> RowOf(done + {h}, cell, combos, prior) == RowOf(done, cell, combos, prior)
  {
    hide CellSum, ReachOf, ProbabilityOf;
    CellKeysAdd(done, h, cell);
    CellSumAdd(done, h, cell, ReachOf(combos));
    CellSumAdd(done, h, cell, ProbabilityOf(combos));
    CellSumAdd(done, h, cell, ProbabilityOf(prior));
    hide CellOf, CellSum, ReachOf, ProbabilityOf, CellKeys;
    if CellKeys(done, cell) == {} {
      EmptyCell(done, cell, ReachOf(combos));
      EmptyCell(done, cell, ProbabilityOf(combos));
      EmptyCell(done, cell, ProbabilityOf(prior));
    }
  }

  lemma AccumulateStep(acc: map<Cell, CellMass>, done: set<Hole>, h: Hole, combos: seq<ComboBelief>, prior: seq<ComboBelief>)
    requires Accumulated(acc, done, combos, prior) && h !in done
    ensures var cell := CellOf(h);
            var before := if cell in acc then Some(acc[cell]) else None;
            Accumulated(acc[cell := Grown(before, ReachOf(combos)(h), ProbabilityOf(combos)(h), ProbabilityOf(prior)(h))],
                        done + {h}, combos, prior)
  {
    hide CellOf, Grown, RowOf, CellKeys, ReachOf, ProbabilityOf;
    forall c
      ensures c == CellOf(h) || c in acc <==> CellKeys(done + {h}, c) != {}
      ensures c != CellOf(h) && c in acc ==> acc[c] == RowOf(done + {h}, c, combos, prior)
    {
      RowGrows(done, h, c, combos, prior);
      CellKeysAdd(done, h, c);
    }
    RowGrows(done, h, CellOf(h), combos, prior);
  }

  function Finished(m: CellMass): MatrixCell {
    MatrixCell(m.reach, m.probability, m.count, m.priorProbability, m.probability - m.priorProbability,
               if m.priorProbability > 0.0 then Some(Ratio(m.probability, m.priorProbability)) else None)
  }

  function PriorCombos(prior: Option<seq<ComboBelief>>): seq<ComboBelief> {
    if prior.Some? then prior.value else []
  }

  /** The rows of the combos of the snapshot and of the prior, for exactly the cells that have one. */
  ghost predicate IsMatrix(cells: map<Cell, MatrixCell>, combos: seq<ComboBelief>, priors: seq<ComboBelief>) {
    var keys := KeySet(combos) + KeySet(priors);
    && (forall cell :: cell in cells <==> CellKeys(keys, cell) != {})
    && (forall cell :: cell in cells ==> cells[cell] == Finished(RowOf(keys, cell, combos, priors)))
  }

  function ReachMass(m: MatrixCell): real { m.reachMass }
  function ProbabilityMass(m: MatrixCell): real { m.probabilityMass }
  function PriorMass(m: MatrixCell): real { m.priorProbabilityMass }
  function Delta(m: MatrixCell): real { m.delta }
  function Count(m: MatrixCell): real { m.comboCount as real }
  function One(h: Hole): real { 1.0 }

  /** One column of the matrix. */
  ghost function ColumnOf(cells: map<Cell, MatrixCell>, column: MatrixCell -> real): Cell -> real {
    cell => if cell in cells then column(cells[cell]) else 0.0
  }

  ghost function ColumnSum(cells: map<Cell, MatrixCell>, column: MatrixCell -> real): real {
    SetSum(cells.Keys, ColumnOf(cells, column))
  }

  /** Every column sums to what the snapshot and the prior hold, and every combo is counted once. */
  ghost predicate Conserves(cells: map<Cell, MatrixCell>, combos: seq<ComboBelief>, priors: seq<ComboBelief>) {
    && ColumnSum(cells, ReachMass) == Sum(ReachList(combos))
    && ColumnSum(cells, ProbabilityMass) == Sum(Probabilities(combos))
    && ColumnSum(cells, PriorMass) == Sum(Probabilities(priors))
    && ColumnSum(cells, Delta) == Sum(Probabilities(combos)) - Sum(Probabilities(priors))
    && ColumnSum(cells, Count) == |KeySet(combos) + KeySet(priors)| as real
  }

  /** aggregate_belief_to_matrix169; the combos may be visited in any order. */
  method AggregateToMatrix(combos: seq<ComboBelief>, prior: Option<seq<ComboBelief>>)
    returns (cells: map<Cell, MatrixCell>)
    ensures IsMatrix(cells, combos, PriorCombos(prior))
    ensures DistinctKeys(combos) && DistinctKeys(PriorCombos(prior)) ==> Conserves(cells, combos, PriorCombos(prior))
  {
    hide CellOf, Lookup, RowOf, CellKeys, Finished, Accumulated, KeySet, Grown, DistinctKeys, Conserves;
    var priors := PriorCombos(prior);
    var keys := KeySet(combos) + KeySet(priors);
    var acc: map<Cell, CellMass> := map[];
    var left := keys;
    NothingYet(combos, priors);
    assert keys - left == {};
    while left != {}
      invariant left <= keys
      invariant Accumulated(acc, keys - left, combos, priors)
      decreases |left|
    {
      var h :| h in left;
      AccumulateStep(acc, keys - left, h, combos, priors);
      var combo, priorCombo := Lookup(combos, h), Lookup(priors, h);
      var before := if CellOf(h) in acc then Some(acc[CellOf(h)]) else None;
      acc := acc[CellOf(h) := Grown(before, if combo.Some? then combo.value.reach else 0.0,
                                    if combo.Some? then combo.value.probability else 0.0,
                                    if priorCombo.Some? then priorCombo.value.probability else 0.0)];
      assert keys - left + {h} == keys - (left - {h});
      left := left - {h};
    }
    assert keys - left == keys;
    cells := FinishAll(acc, keys, combos, priors);
    if DistinctKeys(combos) && DistinctKeys(priors) { MatrixConserves(cells, combos, priors); }
  }

  /** The last loop, from accumulated rows to cells. */
  method FinishAll(acc: map<Cell, CellMass>, ghost keys: set<Hole>, ghost combos: seq<ComboBelief>, ghost prior: seq<ComboBelief>)
    returns (cells: map<Cell, MatrixCell>)
    requires Accumulated(acc, keys, combos, prior)
    ensures forall cell :: cell in cells <==> CellKeys(keys, cell) != {}
    ensures forall cell :: cell in cells ==> cells[cell] == Finished(RowOf(keys, cell, combos, prior))
  {
    hide CellKeys, RowOf, Finished;
    cells := map cell | cell in acc :: Finished(acc[cell]);
  }

  lemma NothingYet(combos: seq<ComboBelief>, prior: seq<ComboBelief>)
    ensures Accumulated(map[], {}, combos, prior)
  {
    forall cell ensures CellKeys({}, cell) == {} {}
  }

  // ---------------------------------------------------------------- conservation

  ghost function ByCell(keys: set<Hole>, f: Hole -> real): Cell -> real {
    cell => CellSum(keys, cell, f)
  }

  /** Summing a function over the cells of its combos sums it over the combos. */
  lemma {:induction false} CellsPartition(keys: set<Hole>, cells: set<Cell>, f: Hole -> real)
    requires forall h :: h in keys ==> CellOf(h) in cells
    ensures SetSum(cells, ByCell(keys, f)) == SetSum(keys, f)
    decreases |keys|
  {
    hide CellOf, CellSum;
    if keys == {} {
      forall cell | cell in cells ensures ByCell(keys, f)(cell) == 0.0 { EmptyCell(keys, cell, f); }
      SetSumConstant(cells, ByCell(keys, f), 0.0);
    } else {
      var h :| h in keys;
      var rest := keys - {h};
      CellsPartition(rest, cells, f);
      var own := (cell: Cell) => if CellOf(h) == cell then f(h) else 0.0;
      assert rest + {h} == keys;
      forall cell | cell in cells ensures ByCell(keys, f)(cell) == ByCell(rest, f)(cell) + own(cell) {
        CellSumAdd(rest, h, cell, f);
      }
      hide ByCell;
      SetSumPlus(cells, ByCell(rest, f), own, ByCell(keys, f));
      OnlyOneCell(cells, CellOf(h), own, f(h));
      SetSumAny(keys, f, h);
    }
  }

  lemma OnlyOneCell(cells: set<Cell>, cell: Cell, own: Cell -> real, value: real)
    requires cell in cells && own(cell) == value && forall c :: c in cells && c != cell ==> own(c) == 0.0
    ensures SetSum(cells, own) == value
  {
    SetSumAny(cells, own, cell);
    SetSumConstant(cells - {cell}, own, 0.0);
  }

  lemma {:induction false} LookupOf(combos: seq<ComboBelief>, i: nat)
    requires DistinctKeys(combos) && i < |combos|
    ensures Lookup(combos, combos[i].key) == Some(combos[i])
  {
    var n := |combos| - 1;
    if i < n { LookupOf(combos[..n], i); }
  }

  lemma {:induction false} LookupSome(combos: seq<ComboBelief>, h: Hole)
    ensures Lookup(combos, h).Some? <==> h in KeySet(combos)
  {
    if combos != [] {
      var n := |combos| - 1;
      LookupSome(combos[..n], h);
      assert KeySet(combos) == KeySet(combos[..n]) + {combos[n].key};
    }
  }

  /** The set sum over the keys is the sum over the list. */
  lemma {:induction false} KeysAreList(combos: seq<ComboBelief>, values: seq<real>, f: Hole -> real)
    requires DistinctKeys(combos) && |values| == |combos|
    requires forall i :: 0 <= i < |combos| ==> f(combos[i].key) == values[i]
    ensures SetSum(KeySet(combos), f) == Sum(values)
  {
    if combos != [] {
      var n := |combos| - 1;
      KeysAreList(combos[..n], values[..n], f);
      assert KeySet(combos) == KeySet(combos[..n]) + {combos[n].key};
      assert combos[n].key !in KeySet(combos[..n]);
      SetSumAdd(KeySet(combos[..n]), f, combos[n].key);
    }
  }

  function ReachList(combos: seq<ComboBelief>): (s: seq<real>)
    ensures |s| == |combos| && forall i :: 0 <= i < |combos| ==> s[i] == combos[i].reach
  {
    seq(|combos|, i requires 0 <= i < |combos| => combos[i].reach)
  }

  lemma ListTotals(combos: seq<ComboBelief>)
    requires DistinctKeys(combos)
    ensures SetSum(KeySet(combos), ReachOf(combos)) == Sum(ReachList(combos))
    ensures SetSum(KeySet(combos), ProbabilityOf(combos)) == Sum(Probabilities(combos))
  {
    forall i | 0 <= i < |combos| ensures Lookup(combos, combos[i].key) == Some(combos[i]) { LookupOf(combos, i); }
    KeysAreList(combos, ReachList(combos), ReachOf(combos));
    KeysAreList(combos, Probabilities(combos), ProbabilityOf(combos));
  }

  /** Keys outside the list add nothing. */
  lemma WiderTotals(combos: seq<ComboBelief>, keys: set<Hole>)
    requires DistinctKeys(combos) && KeySet(combos) <= keys
    ensures SetSum(keys, ReachOf(combos)) == Sum(ReachList(combos))
    ensures SetSum(keys, ProbabilityOf(combos)) == Sum(Probabilities(combos))
  {
    var own := KeySet(combos);
    forall h | h in keys - own ensures ReachOf(combos)(h) == ProbabilityOf(combos)(h) == 0.0 { LookupSome(combos, h); }
    ListTotals(combos);
    assert own + (keys - own) == keys;
    SetSumUnion(own, keys - own, ReachOf(combos));
    SetSumUnion(own, keys - own, ProbabilityOf(combos));
    SetSumConstant(keys - own, ReachOf(combos), 0.0);
    SetSumConstant(keys - own, ProbabilityOf(combos), 0.0);
  }

  /** A column that holds the cell sums of f sums to f over all combos. */
  lemma ColumnTotal(cells: map<Cell, MatrixCell>, keys: set<Hole>, column: MatrixCell -> real, f: Hole -> real)
    requires forall cell :: cell in cells <==> CellKeys(keys, cell) != {}
    requires forall cell :: cell in cells ==> column(cells[cell]) == CellSum(keys, cell, f)
    ensures ColumnSum(cells, column) == SetSum(keys, f)
  {
    hide CellSum, CellOf;
    forall h | h in keys ensures CellOf(h) in cells.Keys { assert h in CellKeys(keys, CellOf(h)); }
    CellsPartition(keys, cells.Keys, f);
    SetSumSame(cells.Keys, ColumnOf(cells, column), ByCell(keys, f));
  }

  /** The number of a cell's combos, as a cell sum. */
  lemma CountIsSum(keys: set<Hole>, cell: Cell)
    ensures CellSum(keys, cell, One) == |CellKeys(keys, cell)| as real
  {
    hide CellOf;
    CellSumOfConstant(keys, CellKeys(keys, cell), cell, One, 1.0);
  }

  /**
   * Whatever the prior is, and whichever combos it holds that the snapshot has lost: every column of the returned
   * matrix sums to what its list holds, and the differences sum to the difference.
   */
  lemma MatrixConserves(cells: map<Cell, MatrixCell>, combos: seq<ComboBelief>, priors: seq<ComboBelief>)
    requires IsMatrix(cells, combos, priors) && DistinctKeys(combos) && DistinctKeys(priors)
    ensures Conserves(cells, combos, priors)
  {
    hide CellOf, CellKeys, CellSum, ColumnSum, DistinctKeys, Lookup, KeySet, ReachOf, ProbabilityOf;
    var keys := KeySet(combos) + KeySet(priors);
    WiderTotals(combos, keys);
    WiderTotals(priors, keys);
    ColumnTotal(cells, keys, ReachMass, ReachOf(combos));
    ColumnTotal(cells, keys, ProbabilityMass, ProbabilityOf(combos));
    ColumnTotal(cells, keys, PriorMass, ProbabilityOf(priors));
    forall cell | cell in cells ensures cells[cell].comboCount as real == CellSum(keys, cell, One) { CountIsSum(keys, cell); }
    ColumnTotal(cells, keys, Count, One);
    SetSumConstant(keys, One, 1.0);
    DeltaTotal(cells);
  }

  lemma DeltaTotal(cells: map<Cell, MatrixCell>)
    requires forall cell :: cell in cells ==> cells[cell].delta == cells[cell].probabilityMass - cells[cell].priorProbabilityMass
    ensures ColumnSum(cells, Delta) == ColumnSum(cells, ProbabilityMass) - ColumnSum(cells, PriorMass)
  {
    SetSumPlus(cells.Keys, ColumnOf(cells, Delta), ColumnOf(cells, PriorMass),
               ColumnOf(cells, ProbabilityMass));
  }

  // ---------------------------------------------------------------- the round trip

  /** The snapshot combos of a range, as snapshot_from_range lists them. */
  function RangeCombos(r: RangeSpec): seq<ComboBelief> {
    var ws := Weigh(Expanded(r, {}));
    if Total(ws) > 0.0 then Normalized(ws, Total(ws)) else []
  }

  lemma RangeComboKeys(r: RangeSpec)
    requires Total(Weigh(Expanded(r, {}))) > 0.0
    ensures DistinctKeys(RangeCombos(r))
    ensures forall h :: h in KeySet(RangeCombos(r)) <==> RangeWeight(r, {}, h) > 0.0
    ensures forall h :: h in KeySet(RangeCombos(r)) ==> ReachOf(RangeCombos(r))(h) == RangeWeight(r, {}, h)
  {
    hide Expanded, RangeWeight, Total, Ratio;
    ExpansionExact(r, {});
    var entries, combos := Expanded(r, {}), RangeCombos(r);
    forall i | 0 <= i < |combos| ensures combos[i].key == entries[i].Pair() && combos[i].reach == RangeWeight(r, {}, combos[i].key) > 0.0 {
      assert entries[i] in entries;
    }
    assert DistinctKeys(combos);
    forall h | RangeWeight(r, {}, h) > 0.0 ensures h in KeySet(combos) {
      var e := Entry(h.0, h.1, RangeWeight(r, {}, h));
      assert e.Pair() == h && e in entries;
      var i :| 0 <= i < |entries| && entries[i] == e;
      assert combos[i].key == h;
    }
    forall h | h in KeySet(combos) ensures ReachOf(combos)(h) == RangeWeight(r, {}, h) && RangeWeight(r, {}, h) > 0.0 {
      var i :| 0 <= i < |combos| && combos[i].key == h;
      LookupOf(combos, i);
    }
  }

  /** Distinct cells never share a combo. */
  lemma CellsAreDisjoint(a: Cell, b: Cell, h: Hole)
    requires ValidCell(a) && ValidCell(b) && h in CellCombos(a) && h in CellCombos(b)
    ensures a == b
  {
    CellRoundTrip(a);
    CellRoundTrip(b);
  }

  /** A combo of positive weight makes the total positive. */
  lemma SomeWeight(r: RangeSpec, h: Hole)
    requires RangeWeight(r, {}, h) > 0.0
    ensures Total(Weigh(Expanded(r, {}))) > 0.0
  {
    hide Expanded, RangeWeight;
    ExpansionExact(r, {});
    var entries := Expanded(r, {});
    assert Entry(h.0, h.1, RangeWeight(r, {}, h)) in entries;
    forall k | 0 <= k < |entries| ensures entries[k].weight > 0.0 { assert entries[k] in entries; }
    SumNonNegative(Reaches(Weigh(entries)));
  }

  /** A cell of positive weight makes the range playable. */
  lemma CellPlays(r: RangeSpec, cell: Cell)
    requires ValidRange(r) && r.combos == [] && r.dead == {} && cell in r.matrix && r.matrix[cell] > 0.0
    ensures Total(Weigh(Expanded(r, {}))) > 0.0
  {
    hide Expanded, RangeWeight, CellCombos, CellOf, Total;
    CellRoundTrip(cell);
    var h := CellCombos(cell)[0];
    assert h in CellCombos(cell);
    MatrixWeight(r, h);
    SomeWeight(r, h);
  }

  /** Expanding a matrix range and aggregating back gives each cell of positive weight that weight times 6, 4 or 12. */
  lemma MatrixRoundTrip(r: RangeSpec, cell: Cell, cells: map<Cell, MatrixCell>)
    requires ValidRange(r) && r.combos == [] && r.dead == {} && cell in r.matrix && r.matrix[cell] > 0.0
    requires IsMatrix(cells, RangeCombos(r), [])
    ensures cell in cells && cells[cell].comboCount == CellSize(cell)
    ensures cells[cell].reachMass == Times(CellSize(cell) as real, r.matrix[cell])
  {
    hide RangeCombos, KeySet, Total, CellCombos, ReachOf, RangeWeight, CellOf, CellSum, CellKeys;
    var combos := RangeCombos(r);
    var keys, own := KeySet(combos), Elements(CellCombos(cell));
    assert keys + KeySet([]) == keys by { NoKeys(keys); }
    CellPlays(r, cell);
    RangeComboKeys(r);
    CellKeysOfMatrix(r, cell);
    CellRoundTrip(cell);
    ElementsOfDistinct(CellCombos(cell));
    CellSumOfConstant(keys, own, cell, ReachOf(combos), r.matrix[cell]);
  }

  lemma NoKeys(keys: set<Hole>)
    ensures keys + KeySet([]) == keys
  {}

  lemma CellSumOfConstant(keys: set<Hole>, own: set<Hole>, cell: Cell, f: Hole -> real, c: real)
    requires own <= keys && forall h :: h in own ==> CellOf(h) == cell && f(h) == c
    requires forall h :: h in keys && h !in own ==> CellOf(h) != cell
    ensures CellSum(keys, cell, f) == Times(|own| as real, c)
  {
    hide CellOf;
    var inside := InCell(cell, f);
    SetSumConstant(own, inside, c);
    SetSumConstant(keys - own, inside, 0.0);
    SetSumUnion(own, keys - own, inside);
    assert own + (keys - own) == keys;
  }

  /** The combos of a cell in the expansion of a matrix range. */
  lemma CellKeysOfMatrix(r: RangeSpec, cell: Cell)
    requires ValidRange(r) && r.combos == [] && r.dead == {} && cell in r.matrix && r.matrix[cell] > 0.0
    requires Total(Weigh(Expanded(r, {}))) > 0.0
    ensures CellKeys(KeySet(RangeCombos(r)), cell) == Elements(CellCombos(cell))
    ensures forall h :: h in Elements(CellCombos(cell)) ==>
              h in KeySet(RangeCombos(r)) && CellOf(h) == cell && RangeWeight(r, {}, h) == r.matrix[cell]
    ensures forall h :: h in KeySet(RangeCombos(r)) && h !in Elements(CellCombos(cell)) ==> CellOf(h) != cell
  {
    hide RangeCombos, KeySet, Total, CellCombos, ReachOf, RangeWeight, CellOf;
    var keys, own := KeySet(RangeCombos(r)), Elements(CellCombos(cell));
    RangeComboKeys(r);
    CellRoundTrip(cell);
    forall h ensures h in own <==> h in keys && CellOf(h) == cell {
      MatrixWeight(r, h);
    }
    forall h | h in own ensures RangeWeight(r, {}, h) == r.matrix[cell] { MatrixWeight(r, h); }
  }

  lemma MatrixWeight(r: RangeSpec, h: Hole)
    requires r.combos == [] && r.dead == {}
    ensures RangeWeight(r, {}, h) == if Sorted(h) && CellOf(h) in r.matrix then r.matrix[CellOf(h)] else 0.0
  {
    assert EntryWeight(r.combos, h) == None;
  }

  lemma {:induction false} SetSumUnion(a: set<Hole>, b: set<Hole>, f: Hole -> real)
    requires a !! b
    ensures SetSum(a + b, f) == SetSum(a, f) + SetSum(b, f)
    decreases |b|
  {
    if b == {} {
      assert a + b == a;
    } else {
      var x :| x in b;
      SetSumUnion(a, b - {x}, f);
      SetSumAdd(a + (b - {x}), f, x);
      SetSumAny(b, f, x);
      assert a + b == a + (b - {x}) + {x};
    }
  }
}
