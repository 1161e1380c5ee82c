/** Exact equity for any number of seats. */
module Multiway {
  import opened Cards
  import opened Combos
  import opened HandEvaluator
  import opened RangeExpansion
  import opened Showdowns
  import opened Sums
  import opened Equity

  // ---------------------------------------------------------------- tuples

  predicate FromLists(tuple: seq<Entry>, lists: seq<seq<Entry>>) {
    |tuple| == |lists| && forall i :: 0 <= i < |lists| ==> tuple[i] in lists[i]
  }

  lemma {:induction false} OverMember(items: seq<Entry>, rest: seq<seq<Entry>>, tuple: seq<Entry>)
    ensures tuple in ProductOver(items, rest) <==> tuple != [] && tuple[0] in items && tuple[1..] in rest
  {
    if items != [] {
      var n := |items| - 1;
      var last := PrependAll(items[n], rest);
      OverMember(items[..n], rest, tuple);
      assert items == items[..n] + [items[n]];
      if tuple != [] && tuple[0] == items[n] && tuple[1..] in rest {
        var i :| 0 <= i < |rest| && rest[i] == tuple[1..];
        assert last[i] == tuple;
      }
      if tuple in last {
        var i :| 0 <= i < |last| && last[i] == tuple;
        assert tuple == [items[n]] + rest[i];
        assert tuple[1..] == rest[i];
      }
    }
  }

  /** The tuples are exactly the choices of one combo per seat. */
  lemma {:induction false} TupleMember(lists: seq<seq<Entry>>, tuple: seq<Entry>)
    ensures tuple in TupleProduct(lists) <==> FromLists(tuple, lists)
  {
    if lists != [] {
      var rest := lists[1..];
      OverMember(lists[0], TupleProduct(rest), tuple);
      if tuple != [] {
        TupleMember(rest, tuple[1..]);
        if FromLists(tuple[1..], rest) && tuple[0] in lists[0] {
          forall i | 0 <= i < |lists| ensures tuple[i] in lists[i] {
            if i > 0 { assert tuple[1..][i - 1] in rest[i - 1]; }
          }
        }
      }
    }
  }

  lemma {:induction false} ProductPositive(tuple: seq<Entry>)
    requires forall i :: 0 <= i < |tuple| ==> tuple[i].weight > 0.0
    ensures ProductOfWeights(tuple) > 0.0
  {
    if tuple != [] {
      ProductPositive(tuple[..|tuple| - 1]);
      TimesPositive(ProductOfWeights(tuple[..|tuple| - 1]), tuple[|tuple| - 1].weight);
    }
  }

  predicate PositiveLists(lists: seq<seq<Entry>>) {
    forall i :: 0 <= i < |lists| ==> forall e :: e in lists[i] ==> e.weight > 0.0
  }

  lemma PlayersPositive(players: seq<Player>, board: set<Card>)
    requires forall i :: 0 <= i < |players| ==> ValidPlayer(players[i])
    ensures PositiveLists(ComboLists(players, board))
  {
    hide Expanded, RangeWeight;
    forall i, e | 0 <= i < |players| && e in ComboLists(players, board)[i] ensures e.weight > 0.0 {
      if players[i].RangePlayer? { ExpansionExact(players[i].range, board); }
    }
  }

  lemma TuplePositive(lists: seq<seq<Entry>>, tuple: seq<Entry>, weighted: bool)
    requires PositiveLists(lists) && tuple in TupleProduct(lists)
    ensures |tuple| == |lists| && TrialWeight(tuple, weighted) > 0.0
  {
    TupleMember(lists, tuple);
    forall i | 0 <= i < |tuple| ensures tuple[i].weight > 0.0 {
      assert tuple[i] in lists[i];
    }
    ProductPositive(tuple);
  }

  // ---------------------------------------------------------------- the loops

  /** The inner loop that stops at the first clash. */
  method Join(board: seq<Card>, tuple: seq<Entry>) returns (known: Option<seq<Card>>)
    ensures known == Joined(board, tuple)
  {
    var cards := board;
    assert tuple[0..] == tuple;
    for i := 0 to |tuple|
      invariant Joined(cards, tuple[i..]) == Joined(board, tuple)
    {
      assert tuple[i..][1..] == tuple[i + 1..];
      if tuple[i].first in cards || tuple[i].second in cards {
        return None;
      }
      cards := cards + Holding(tuple[i]);
    }
    known := Some(cards);
  }

  lemma TuplesStep(tuples: seq<seq<Entry>>, k: nat, board: seq<Card>, weighted: bool)
    requires |board| <= 5 && k < |tuples|
    ensures AllTupleTrials(tuples[..k + 1], board, weighted)
         == AllTupleTrials(tuples[..k], board, weighted) + TupleTrials(tuples[k], board, weighted)
  {
    assert tuples[..k + 1][..k] == tuples[..k];
  }

  lemma NoTuples(board: seq<Card>, weighted: bool)
    requires |board| <= 5
    ensures AllTupleTrials([], board, weighted) == []
  {}

  /** The precomputed workload: one binomial per legal tuple; with too large a board math.comb raises. */
  method CountTuples(tuples: seq<seq<Entry>>, board: seq<Card>, ghost weighted: bool) returns (operations: Option<nat>)
    ensures |board| <= 5 ==> operations == Some(|AllTupleTrials(tuples, board, weighted)|)
    ensures |board| > 5 && operations.Some? ==> operations.value == 0
  {
    hide Runouts, RunoutCount, Trials, AllTupleTrials, TrialWeight;
    if |board| <= 5 { NoTuples(board, weighted); }
    var total := 0;
    for k := 0 to |tuples|
      invariant |board| <= 5 ==> total == |AllTupleTrials(tuples[..k], board, weighted)|
      invariant |board| > 5 ==> total == 0
    {
      if |board| <= 5 { TuplesStep(tuples, k, board, weighted); }
      var known := Join(board, tuples[k]);
      if known.Some? {
        if |board| > 5 {
          return None;
        }
        TrialCount(tuples[k], board, known.value, 5 - |board|, TrialWeight(tuples[k], weighted));
        total := total + RunoutCount(known.value, 5 - |board|);
      }
    }
    assert tuples[..|tuples|] == tuples;
    operations := Some(total);
  }

  /** The key of every seat for one runout. */
  function SeatKeys(seats: seq<int>, holes: seq<Entry>, board: seq<Card>): (keys: seq<SeatKey>)
    requires |seats| == |holes|
    ensures ForSeats(keys, seats) && KeysOf(keys) == HandKeys(holes, board)
  {
    var keys := seq(|seats|, i requires 0 <= i < |seats| => (seats[i], BestHandKey(Holding(holes[i]) + board)));
    assert KeysOf(keys) == HandKeys(holes, board);
    keys
  }

  lemma TrialsStep(holes: seq<Entry>, board: seq<Card>, runouts: seq<seq<Card>>, weight: real, k: nat)
    requires k < |runouts|
    ensures var all := Trials(holes, board, runouts, weight);
            all[..k + 1] == all[..k] + [Showdown(HandKeys(holes, board + runouts[k]), weight)]
  {}

  /** The loop over the runouts of one tuple. */
  method AddTuple(acc: MultiwayAccumulator, tuple: seq<Entry>, board: seq<Card>, runouts: seq<seq<Card>>, weight: real)
    requires acc.Valid() && |tuple| == |acc.seats| && weight > 0.0
    modifies acc
    ensures acc.Valid() && acc.log == old(acc.log) + Trials(tuple, board, runouts, weight)
  {
    hide MultiwayAccumulator.Valid, BestHandKey, Trials, HandKeys;
    ghost var all := Trials(tuple, board, runouts, weight);
    for k := 0 to |runouts|
      invariant acc.Valid() && acc.log == old(acc.log) + all[..k]
    {
      TrialsStep(tuple, board, runouts, weight, k);
      acc.Add(SeatKeys(acc.seats, tuple, board + runouts[k]), weight);
    }
    assert all[..|runouts|] == all;
  }

  /** The checks and expansions of the seats; None when a seat is rejected. */
  method PrepareSeats(players: seq<Player>, board: seq<Card>) returns (lists: Option<seq<seq<Entry>>>)
    requires forall i :: 0 <= i < |players| ==> ValidPlayer(players[i])
    ensures lists.Some? <==> AllAdmitted(ComboLists(players, Elements(board)), board)
    ensures lists.Some? ==> lists.value == ComboLists(players, Elements(board))
  {
    hide Expanded, RangeWeight, Known;
    ghost var all := ComboLists(players, Elements(board));
    var prepared: seq<seq<Entry>> := [];
    for i := 0 to |players|
      invariant prepared == all[..i] && AllAdmitted(all[..i], board)
    {
      var combos;
      match players[i] {
        case HandPlayer(_) => combos := PlayerCombos(players[i], Elements(board));
        case RangePlayer(range) => combos := ExpandRange(range, Elements(board));
      }
      assert all[..i + 1] == all[..i] + [combos];
      if combos == [] {
        return None;
      }
      for k := 0 to |combos|
        invariant forall e :: e in combos[..k] ==> Known(board + Holding(e))
      {
        if !Known(board + Holding(combos[k])) {
          assert combos[k] in all[i];
          return None;
        }
        assert combos[..k + 1] == combos[..k] + [combos[k]];
      }
      assert combos[..|combos|] == combos;
      prepared := prepared + [combos];
    }
    assert all[..|players|] == all;
    lists := Some(prepared);
  }

  /** _multiway_result for exact trials. */
  method Report(acc: MultiwayAccumulator) returns (r: Option<MultiwayEquity>)
    requires acc.Valid() && (!acc.weighted ==> TotalWeight(acc.log) == |acc.log| as real)
    ensures r.None? <==> acc.log == []
    ensures r.Some? ==> ReportsMultiway(r, acc.seats, acc.log, |acc.log|)
  {
    hide Ratio, TotalWeight, Shares, TieWeights, Sum;
    if acc.log != [] { WeightPositive(acc.log, |acc.seats|); }
    if acc.trials == 0 || (acc.weighted && acc.totalMass == 0.0) {
      return None;
    }
    var total := if acc.weighted then acc.totalMass else acc.trials as real;
    var equities: map<int, real> := map[];
    for i := 0 to |acc.seats|
      invariant equities.Keys == Elements(acc.seats[..i])
      invariant forall j :: 0 <= j < i ==> acc.seats[j] in equities && equities[acc.seats[j]] == EquityOf(acc.log, |acc.seats|, j)
    {
      assert Elements(acc.seats[..i + 1]) == Elements(acc.seats[..i]) + {acc.seats[i]};
      equities := equities[acc.seats[i] := Ratio(Tallied(acc.wins, acc.seats[i]), total)];
    }
    assert acc.seats[..|acc.seats|] == acc.seats;
    r := Some(MultiwayEquity(equities, |acc.seats|, Ratio(acc.tieMass, total), acc.trials));
  }

  lemma NoneSum()
    ensures Sum([]) == 0.0
  {}

  lemma {:induction false} UnitWeights(tuples: seq<seq<Entry>>, board: seq<Card>)
    requires |board| <= 5
    ensures TotalWeight(AllTupleTrials(tuples, board, false)) == |AllTupleTrials(tuples, board, false)| as real
  {
    hide Runouts, Sum, Joined;
    NoneSum();
    if tuples != [] {
      var n := |tuples| - 1;
      UnitWeights(tuples[..n], board);
      var before, last := AllTupleTrials(tuples[..n], board, false), TupleTrials(tuples[n], board, false);
      assert Weights(before + last) == Weights(before) + Weights(last);
      SumAppend(Weights(before), Weights(last));
      SumOnes(Weights(last));
    }
  }

  /** The loop over the tuples and their runouts. */
  method RunTuples(seats: seq<int>, lists: seq<seq<Entry>>, board: seq<Card>, weighted: bool) returns (acc: MultiwayAccumulator)
    requires Distinct(seats) && seats != [] && |lists| == |seats| && PositiveLists(lists) && |board| <= 5
    ensures fresh(acc) && acc.Valid() && acc.seats == seats && acc.weighted == weighted
    ensures acc.log == AllTupleTrials(TupleProduct(lists), board, weighted)
  {
    hide Runouts, MultiwayAccumulator.Valid, TupleProduct, AllTupleTrials, Trials, TrialWeight, PositiveLists, Distinct;
    var tuples := TupleProduct(lists);
    acc := new MultiwayAccumulator(seats, weighted);
    NoTuples(board, weighted);
    for k := 0 to |tuples|
      invariant acc.Valid() && fresh(acc) && acc.log == AllTupleTrials(tuples[..k], board, weighted)
    {
      TuplesStep(tuples, k, board, weighted);
      TuplePositive(lists, tuples[k], weighted);
      var known := Join(board, tuples[k]);
      if known.Some? {
        AddTuple(acc, tuples[k], board, Runouts(known.value, 5 - |board|), TrialWeight(tuples[k], weighted));
      }
    }
    assert tuples[..|tuples|] == tuples;
  }

  /** The trials in terms of the sorted board the routine works on. */
  lemma SortedTrials(players: seq<Player>, board: seq<Card>)
    ensures |SortCards(board)| == |board|
    ensures var sorted := SortCards(board);
            var lists := ComboLists(players, Elements(sorted));
            MultiwayTrials(players, board)
            == if Known(sorted) && |sorted| <= 5 && |players| >= 2 && AllAdmitted(lists, sorted)
               then AllTupleTrials(TupleProduct(lists), sorted, AnyRange(players)) else []
  {
    hide AllTupleTrials, TupleProduct, AnyRange, AllAdmitted, ComboLists;
    SortedBoard(board);
  }

  lemma NoReport(seats: seq<int>, log: seq<Showdown>, cap: nat)
    requires log == [] || |log| > cap || !Distinct(seats)
    ensures ReportsMultiway(None, seats, log, cap)
  {}

  lemma WithinCap(r: Option<MultiwayEquity>, seats: seq<int>, log: seq<Showdown>, cap: nat)
    requires log != [] && |log| <= cap && r.Some? && ReportsMultiway(r, seats, log, |log|)
    ensures ReportsMultiway(r, seats, log, cap)
  {
    hide TotalWeight, EquityOf, Showdowns.TieProbability, Elements, ValidLog;
  }

  /** evaluate_multiway with exact enumeration; its result model refuses repeated seats. */
  method EvaluateMultiway(seats: seq<int>, players: seq<Player>, board: seq<Card>, cap: nat) returns (r: Option<MultiwayEquity>)
    requires |seats| == |players|
    requires forall i :: 0 <= i < |players| ==> ValidPlayer(players[i])
    ensures ReportsMultiway(r, seats, MultiwayTrials(players, board), cap)
  {
    hide Runouts, MultiwayAccumulator.Valid, TupleProduct, ComboLists, AllTupleTrials, Trials, TrialWeight, TotalWeight,
         AllAdmitted, AnyRange, SortCards, MultiwayTrials, ReportsMultiway, PositiveLists, Distinct, Elements, ValidPlayer;
    ghost var log := MultiwayTrials(players, board);
    SortedTrials(players, board);
    if log == [] || |log| > cap || !Distinct(seats) { NoReport(seats, log, cap); }
    var sorted := SortCards(board);
    if !Known(sorted) {
      return None;
    }
    var prepared := PrepareSeats(players, sorted);
    if prepared.None? || |players| < 2 {
      return None;
    }
    var tuples, weighted := TupleProduct(prepared.value), AnyRange(players);
    var operations := CountTuples(tuples, sorted, weighted);
    if operations.None? || operations.value <= 0 || operations.value > cap {
      return None;
    }
    if !Distinct(seats) {
      return None;
    }
    PlayersPositive(players, Elements(sorted));
    var acc := RunTuples(seats, prepared.value, sorted, weighted);
    if !weighted {
      UnitWeights(tuples, sorted);
    }
    r := Report(acc);
    WithinCap(r, seats, log, cap);
  }
}
