/** The exact showdown equities: two players by hand or range, and any number of seats. */
module Equity {
  import opened Cards
  import opened Combos
  import opened HandEvaluator
  import opened HandTheorems
  import opened RangeExpansion
  import opened Showdowns
  import opened Sums

  // ---------------------------------------------------------------- cards and runouts

  function InsertCard(c: Card, cards: seq<Card>): (r: seq<Card>)
    ensures multiset(r) == multiset(cards) + multiset{c}
  {
    if cards == [] || !Before(cards[0], c) then [c] + cards
    else
      var r := [cards[0]] + InsertCard(c, cards[1..]);
      assert cards == [cards[0]] + cards[1..];
      r
  }

  /** sort_cards. */
  function SortCards(cards: seq<Card>): (r: seq<Card>)
    ensures multiset(r) == multiset(cards) && |r| == |cards|
  {
    if cards == [] then []
    else
      assert cards == [cards[0]] + cards[1..];
      var r := InsertCard(cards[0], SortCards(cards[1..]));
      assert |multiset(r)| == |multiset(cards)|;
      r
  }

  /** _validate_cards. */
  predicate Known(cards: seq<Card>) {
    Distinct(cards) && |cards| <= 9
  }

  /** math.comb. */
  function Binomial(n: nat, k: nat): nat {
    if k == 0 then 1 else if n == 0 then 0 else Binomial(n - 1, k - 1) + Binomial(n - 1, k)
  }

  function Runouts(known: seq<Card>, missing: nat): seq<seq<Card>> {
    Combinations(Deck(Elements(known)), missing)
  }

  function Holding(e: Entry): seq<Card> {
    [e.first, e.second]
  }

  function HandOf(cards: Hole): Entry {
    Entry(cards.0, cards.1, 1.0)
  }

  // ---------------------------------------------------------------- the trials of an exact run

  function HandKeys(holes: seq<Entry>, board: seq<Card>): (keys: seq<Key>)
    ensures |keys| == |holes| && forall i :: 0 <= i < |holes| ==> keys[i] == BestHandKey(Holding(holes[i]) + board)
  {
    seq(|holes|, i requires 0 <= i < |holes| => BestHandKey(Holding(holes[i]) + board))
  }

  /** One showdown per runout. */
  function Trials(holes: seq<Entry>, board: seq<Card>, runouts: seq<seq<Card>>, weight: real): (log: seq<Showdown>)
    ensures |log| == |runouts|
    ensures forall k :: 0 <= k < |runouts| ==> log[k] == Showdown(HandKeys(holes, board + runouts[k]), weight)
  {
    seq(|runouts|, k requires 0 <= k < |runouts| => Showdown(HandKeys(holes, board + runouts[k]), weight))
  }

  predicate Clash(a: Entry, b: Entry) {
    a.first in Holding(b) || a.second in Holding(b)
  }

  /** The trials of hand against hand, with none for invalid input. */
  function HandVsHandTrials(hero: Hole, villain: Hole, board: seq<Card>): seq<Showdown> {
    var a, b := HandOf(hero), HandOf(villain);
    var known := Holding(a) + Holding(b) + board;
    if !Known(known) || |board| > 5 then []
    else Trials([a, b], board, Runouts(known, 5 - |board|), 1.0)
  }

  function HandVsCombos(hero: Entry, combos: seq<Entry>, board: seq<Card>): seq<Showdown>
    requires |board| <= 5
  {
    if combos == [] then []
    else
      var c := combos[|combos| - 1];
      HandVsCombos(hero, combos[..|combos| - 1], board)
      + Trials([hero, c], board, Runouts(Holding(hero) + board + Holding(c), 5 - |board|), c.weight)
  }

  /** The trials of a hand against a range; the hero's cards are dead for the range. */
  function HandVsRangeTrials(hero: Hole, villain: RangeSpec, board: seq<Card>): seq<Showdown> {
    var a := HandOf(hero);
    var known := Holding(a) + board;
    if !Known(known) || |board| > 5 then []
    else HandVsCombos(a, Expanded(villain, Elements(known)), board)
  }

  function ComboVsCombos(hero: Entry, villains: seq<Entry>, board: seq<Card>): seq<Showdown>
    requires |board| <= 5
  {
    if villains == [] then []
    else
      var v := villains[|villains| - 1];
      ComboVsCombos(hero, villains[..|villains| - 1], board)
      + if Clash(hero, v) then []
        else Trials([hero, v], board, Runouts(board + Holding(hero) + Holding(v), 5 - |board|), Times(hero.weight, v.weight))
  }

  function CombosVsCombos(heroes: seq<Entry>, villains: seq<Entry>, board: seq<Card>): seq<Showdown>
    requires |board| <= 5
  {
    if heroes == [] then []
    else CombosVsCombos(heroes[..|heroes| - 1], villains, board) + ComboVsCombos(heroes[|heroes| - 1], villains, board)
  }

  /** The trials of range against range; clashing pairs are skipped. */
  function RangeVsRangeTrials(hero: RangeSpec, villain: RangeSpec, board: seq<Card>): seq<Showdown> {
    if !Known(board) || |board| > 5 then []
    else CombosVsCombos(Expanded(hero, Elements(board)), Expanded(villain, Elements(board)), SortCards(board))
  }

  // ---------------------------------------------------------------- many seats

  datatype Player = HandPlayer(cards: Hole) | RangePlayer(range: RangeSpec)

  predicate ValidPlayer(p: Player) {
    p.RangePlayer? ==> ValidRange(p.range)
  }

  function PlayerCombos(p: Player, board: set<Card>): seq<Entry> {
    match p
    case HandPlayer(cards) => var pair := SortPair(cards.0, cards.1); [Entry(pair.0, pair.1, 1.0)]
    case RangePlayer(range) => Expanded(range, board)
  }

  function ComboLists(players: seq<Player>, board: set<Card>): (lists: seq<seq<Entry>>)
    ensures |lists| == |players| && forall i :: 0 <= i < |players| ==> lists[i] == PlayerCombos(players[i], board)
  {
    seq(|players|, i requires 0 <= i < |players| => PlayerCombos(players[i], board))
  }

  /** The checks on one seat's combos. */
  predicate Admitted(list: seq<Entry>, board: seq<Card>) {
    list != [] && forall e :: e in list ==> Known(board + Holding(e))
  }

  function ProductOver(items: seq<Entry>, rest: seq<seq<Entry>>): (tuples: seq<seq<Entry>>)
  {
    if items == [] then []
    else ProductOver(items[..|items| - 1], rest) + PrependAll(items[|items| - 1], rest)
  }

  /** itertools.product(*lists). */
  function TupleProduct(lists: seq<seq<Entry>>): seq<seq<Entry>> {
    if lists == [] then [[]] else ProductOver(lists[0], TupleProduct(lists[1..]))
  }

  /** The known cards of a tuple, unless two of them clash. */
  function Joined(cards: seq<Card>, tuple: seq<Entry>): Option<seq<Card>>
    decreases |tuple|
  {
    if tuple == [] then Some(cards)
    else if tuple[0].first in cards || tuple[0].second in cards then None
    else Joined(cards + Holding(tuple[0]), tuple[1..])
  }

  function ProductOfWeights(tuple: seq<Entry>): real {
    if tuple == [] then 1.0 else Times(ProductOfWeights(tuple[..|tuple| - 1]), tuple[|tuple| - 1].weight)
  }

  function TrialWeight(tuple: seq<Entry>, weighted: bool): real {
    if weighted then ProductOfWeights(tuple) else 1.0
  }

  function TupleTrials(tuple: seq<Entry>, board: seq<Card>, weighted: bool): seq<Showdown>
    requires |board| <= 5
  {
    var cards := Joined(board, tuple);
    if cards.None? then []
    else Trials(tuple, board, Runouts(cards.value, 5 - |board|), TrialWeight(tuple, weighted))
  }

  function AllTupleTrials(tuples: seq<seq<Entry>>, board: seq<Card>, weighted: bool): seq<Showdown>
    requires |board| <= 5
  {
    if tuples == [] then []
    else AllTupleTrials(tuples[..|tuples| - 1], board, weighted) + TupleTrials(tuples[|tuples| - 1], board, weighted)
  }

  predicate AnyRange(players: seq<Player>) {
    exists i :: 0 <= i < |players| && players[i].RangePlayer?
  }

  predicate AllAdmitted(lists: seq<seq<Entry>>, board: seq<Card>) {
    forall i :: 0 <= i < |lists| ==> Admitted(lists[i], board)
  }

  /** The trials of any number of seats, with none for invalid input. */
  function MultiwayTrials(players: seq<Player>, board: seq<Card>): seq<Showdown> {
    var sorted := SortCards(board);
    var lists := ComboLists(players, Elements(sorted));
    if !Known(board) || |board| > 5 || |players| < 2 || !AllAdmitted(lists, sorted) then []
    else AllTupleTrials(TupleProduct(lists), sorted, AnyRange(players))
  }

  // ---------------------------------------------------------------- reports

  datatype MultiwayEquity = MultiwayEquity(equityBySeat: map<int, real>, activePlayers: nat,
                                           tieProbability: real, trials: nat)

  /** What a heads-up routine answers for its trials; it fails without trials or beyond the cap. */
  ghost predicate ReportsHeadsUp(r: Option<HeadsUpEquity>, log: seq<Showdown>, cap: nat) {
    && (r.None? <==> log == [] || |log| > cap)
    && (r.Some? ==>
          ValidLog(log, 2) && TotalWeight(log) > 0.0
          && r.value.trials == |log|
          && r.value.heroEquity == EquityOf(log, 2, 0)
          && r.value.villainEquity == EquityOf(log, 2, 1)
          && r.value.tieProbability == TieProbability(log, 2))
  }

  ghost predicate ReportsMultiway(r: Option<MultiwayEquity>, seats: seq<int>, log: seq<Showdown>, cap: nat) {
    && (r.None? <==> log == [] || |log| > cap || !Distinct(seats))
    && (r.Some? ==>
          ValidLog(log, |seats|) && TotalWeight(log) > 0.0
          && r.value.trials == |log| && r.value.activePlayers == |seats|
          && r.value.equityBySeat.Keys == Elements(seats)
          && (forall i :: 0 <= i < |seats| ==> seats[i] in Elements(seats) && r.value.equityBySeat[seats[i]] == EquityOf(log, |seats|, i))
          && r.value.tieProbability == TieProbability(log, |seats|))
  }

  // ---------------------------------------------------------------- the workload

  lemma {:induction false} CountCombinations<T>(items: seq<T>, k: nat)
    ensures |Combinations(items, k)| == Binomial(|items|, k)
    decreases |items|
  {
    if k > 0 && items != [] {
      CountCombinations(items[1..], k - 1);
      CountCombinations(items[1..], k);
    }
  }

  /** The number of evaluations of one legal tuple. */
  function RunoutCount(known: seq<Card>, missing: nat): nat {
    Binomial(|Deck(Elements(known))|, missing)
  }

  lemma TrialCount(holes: seq<Entry>, board: seq<Card>, known: seq<Card>, missing: nat, weight: real)
    ensures |Trials(holes, board, Runouts(known, missing), weight)| == RunoutCount(known, missing)
  {
    CountCombinations(Deck(Elements(known)), missing);
  }

  // ---------------------------------------------------------------- the heads-up routines

  lemma TrialStep(hero: Entry, villain: Entry, board: seq<Card>, runouts: seq<seq<Card>>, weight: real, k: nat)
    requires k < |runouts|
    ensures var all := Trials([hero, villain], board, runouts, weight); var full := board + runouts[k];
            all[..k + 1] == all[..k] + [Showdown([BestHandKey(Holding(hero) + full), BestHandKey(Holding(villain) + full)], weight)]
  {
    hide BestHandKey, Holding;
    var full := board + runouts[k];
    assert HandKeys([hero, villain], full) == [BestHandKey(Holding(hero) + full), BestHandKey(Holding(villain) + full)];
  }

  /** The loop over the runouts of one pair of hands. */
  method AddRunouts(acc: Accumulator, hero: Entry, villain: Entry, board: seq<Card>, runouts: seq<seq<Card>>, weight: real)
    requires acc.Valid() && weight > 0.0
    modifies acc
    ensures acc.Valid() && acc.log == old(acc.log) + Trials([hero, villain], board, runouts, weight)
  {
    hide Accumulator.Counted, Accumulator.Weighed, BestHandKey;
    ghost var all := Trials([hero, villain], board, runouts, weight);
    for k := 0 to |runouts|
      invariant acc.Valid() && acc.log == old(acc.log) + all[..k]
    {
      var full := board + runouts[k];
      TrialStep(hero, villain, board, runouts, weight, k);
      hide Trials, Holding;
      acc.Add(BestHandKey(Holding(hero) + full), BestHandKey(Holding(villain) + full), weight);
    }
    assert all[..|runouts|] == all;
  }

  lemma UnitTrials(log: seq<Showdown>)
    requires forall k :: 0 <= k < |log| ==> log[k].weight == 1.0
    ensures Units(log) == log
  {}

  /** evaluate_hand_vs_hand with exact enumeration; None is an error. */
  method EvaluateHandVsHand(hero: Hole, villain: Hole, board: seq<Card>, cap: nat) returns (r: Option<HeadsUpEquity>)
    ensures ReportsHeadsUp(r, HandVsHandTrials(hero, villain, board), cap)
  {
    hide Accumulator.Counted, Accumulator.Weighed, BestHandKey, Runouts, RunoutCount, Combinations, Distinct, HandKeys, Ratio;
    var a, b := HandOf(hero), HandOf(villain);
    var known := Holding(a) + Holding(b) + board;
    if !Known(known) || |board| > 5 {
      return None;
    }
    var missing := 5 - |board|;
    var operations := RunoutCount(known, missing);
    TrialCount([a, b], board, known, missing, 1.0);
    if operations <= 0 || operations > cap {
      return None;
    }
    var acc := new Accumulator(false);
    AddRunouts(acc, a, b, board, Runouts(known, missing), 1.0);
    assert acc.log == HandVsHandTrials(hero, villain, board);
    UnitTrials(acc.log);
    r := acc.Result();
  }

  lemma CombosStep(hero: Entry, combos: seq<Entry>, i: nat, board: seq<Card>)
    requires |board| <= 5 && i < |combos|
    ensures var c := combos[i];
            HandVsCombos(hero, combos[..i + 1], board)
            == HandVsCombos(hero, combos[..i], board)
               + Trials([hero, c], board, Runouts(Holding(hero) + board + Holding(c), 5 - |board|), c.weight)
  {
    assert combos[..i + 1][..i] == combos[..i];
  }

  /** The evaluations that hand against range announces. */
  method CountHandVsCombos(hero: Entry, combos: seq<Entry>, board: seq<Card>) returns (operations: nat)
    requires |board| <= 5
    ensures operations == |HandVsCombos(hero, combos, board)|
  {
    hide Runouts, RunoutCount, Trials, HandVsCombos;
    operations := 0;
    assert |HandVsCombos(hero, combos[..0], board)| == 0 by { NoCombos(hero, board); }
    for i := 0 to |combos|
      invariant operations == |HandVsCombos(hero, combos[..i], board)|
    {
      var c := combos[i];
      CombosStep(hero, combos, i, board);
      TrialCount([hero, c], board, Holding(hero) + board + Holding(c), 5 - |board|, c.weight);
      operations := operations + RunoutCount(Holding(hero) + board + Holding(c), 5 - |board|);
    }
    assert combos[..|combos|] == combos;
  }

  lemma NoCombos(hero: Entry, board: seq<Card>)
    requires |board| <= 5
    ensures HandVsCombos(hero, [], board) == [] && ComboVsCombos(hero, [], board) == []
  {}

  /** evaluate_hand_vs_range with exact enumeration. */
  method EvaluateHandVsRange(hero: Hole, villain: RangeSpec, board: seq<Card>, cap: nat) returns (r: Option<HeadsUpEquity>)
    requires ValidRange(villain)
    ensures ReportsHeadsUp(r, HandVsRangeTrials(hero, villain, board), cap)
  {
    hide Accumulator.Counted, Accumulator.Weighed, BestHandKey, Runouts, Expanded, RangeWeight, Distinct, Trials, Ratio, HandVsCombos;
    var a := HandOf(hero);
    var known := Holding(a) + board;
    if !Known(known) {
      return None;
    }
    var combos := ExpandRange(villain, Elements(known));
    if combos == [] {
      if |board| <= 5 { NoCombos(a, board); }
      return None;
    }
    if |board| > 5 {
      return None;
    }
    ExpansionExact(villain, Elements(known));
    var operations := CountHandVsCombos(a, combos, board);
    if operations <= 0 || operations > cap {
      return None;
    }
    var acc := new Accumulator(true);
    assert acc.log == HandVsCombos(a, combos[..0], board) by { NoCombos(a, board); }
    for i := 0 to |combos|
      invariant acc.Valid() && fresh(acc) && acc.log == HandVsCombos(a, combos[..i], board)
    {
      var c := combos[i];
      assert c in combos;
      CombosStep(a, combos, i, board);
      AddRunouts(acc, a, c, board, Runouts(Holding(a) + board + Holding(c), 5 - |board|), c.weight);
    }
    assert combos[..|combos|] == combos;
    r := acc.Result();
  }

  /** Sorting the board changes neither its cards nor their validity. */
  lemma SortedBoard(board: seq<Card>)
    ensures |SortCards(board)| == |board| && Elements(SortCards(board)) == Elements(board)
    ensures Distinct(SortCards(board)) <==> Distinct(board)
  {
    SameMultisetSameElements(board, SortCards(board));
  }

  lemma RowStep(hero: Entry, villains: seq<Entry>, j: nat, board: seq<Card>)
    requires |board| <= 5 && j < |villains|
    ensures var v := villains[j];
            ComboVsCombos(hero, villains[..j + 1], board)
            == ComboVsCombos(hero, villains[..j], board)
               + if Clash(hero, v) then []
                 else Trials([hero, v], board, Runouts(board + Holding(hero) + Holding(v), 5 - |board|), Times(hero.weight, v.weight))
  {
    assert villains[..j + 1][..j] == villains[..j];
  }

  lemma RowsStep(heroes: seq<Entry>, i: nat, villains: seq<Entry>, board: seq<Card>)
    requires |board| <= 5 && i < |heroes|
    ensures CombosVsCombos(heroes[..i + 1], villains, board)
         == CombosVsCombos(heroes[..i], villains, board) + ComboVsCombos(heroes[i], villains, board)
  {
    assert heroes[..i + 1][..i] == heroes[..i];
  }

  /** The evaluations of one row of range against range; with too large a board math.comb raises. */
  method CountRow(hero: Entry, villains: seq<Entry>, board: seq<Card>) returns (operations: Option<nat>)
    ensures |board| <= 5 ==> operations == Some(|ComboVsCombos(hero, villains, board)|)
    ensures |board| > 5 && operations.Some? ==> operations.value == 0
  {
    hide Runouts, RunoutCount, Trials, ComboVsCombos, Times;
    if |board| <= 5 { NoCombos(hero, board); }
    var total := 0;
    for j := 0 to |villains|
      invariant |board| <= 5 ==> total == |ComboVsCombos(hero, villains[..j], board)|
      invariant |board| > 5 ==> total == 0
    {
      var v := villains[j];
      if |board| <= 5 { RowStep(hero, villains, j, board); }
      if !Clash(hero, v) {
        if |board| > 5 {
          return None;
        }
        TrialCount([hero, v], board, board + Holding(hero) + Holding(v), 5 - |board|, Times(hero.weight, v.weight));
        total := total + RunoutCount(board + Holding(hero) + Holding(v), 5 - |board|);
      }
    }
    assert villains[..|villains|] == villains;
    operations := Some(total);
  }

  /** The inner loops of range against range. */
  method AddRow(acc: Accumulator, hero: Entry, villains: seq<Entry>, board: seq<Card>)
    requires acc.Valid() && |board| <= 5 && hero.weight > 0.0
    requires forall v :: v in villains ==> v.weight > 0.0
    modifies acc
    ensures acc.Valid() && acc.log == old(acc.log) + ComboVsCombos(hero, villains, board)
  {
    hide Accumulator.Counted, Accumulator.Weighed, Runouts, Trials, ComboVsCombos, Times, ValidLog;
    ghost var before := acc.log;
    NoCombos(hero, board);
    for j := 0 to |villains|
      invariant acc.Valid() && acc.log == before + ComboVsCombos(hero, villains[..j], board)
    {
      var v := villains[j];
      assert v in villains;
      RowStep(hero, villains, j, board);
      if !Clash(hero, v) {
        TimesPositive(hero.weight, v.weight);
        AddRunouts(acc, hero, v, board, Runouts(board + Holding(hero) + Holding(v), 5 - |board|), Times(hero.weight, v.weight));
      }
    }
    assert villains[..|villains|] == villains;
  }

  /** evaluate_range_vs_range with exact enumeration. */
  method EvaluateRangeVsRange(hero: RangeSpec, villain: RangeSpec, board: seq<Card>, cap: nat) returns (r: Option<HeadsUpEquity>)
    requires ValidRange(hero) && ValidRange(villain)
    ensures ReportsHeadsUp(r, RangeVsRangeTrials(hero, villain, board), cap)
  {
    hide Accumulator.Counted, Accumulator.Weighed, Expanded, RangeWeight, Distinct, Ratio, CombosVsCombos, ComboVsCombos;
    SortedBoard(board);
    var sorted := SortCards(board);
    if !Known(sorted) {
      return None;
    }
    var heroes := ExpandRange(hero, Elements(sorted));
    var villains := ExpandRange(villain, Elements(sorted));
    if |board| <= 5 { NoRows(heroes, villains, sorted); }
    if heroes == [] || villains == [] {
      return None;
    }
    ExpansionExact(hero, Elements(sorted));
    ExpansionExact(villain, Elements(sorted));
    var operations := 0;
    for i := 0 to |heroes|
      invariant |sorted| <= 5 ==> operations == |CombosVsCombos(heroes[..i], villains, sorted)|
      invariant |sorted| > 5 ==> operations == 0
    {
      if |sorted| <= 5 { RowsStep(heroes, i, villains, sorted); }
      var row := CountRow(heroes[i], villains, sorted);
      if row.None? {
        return None;
      }
      operations := operations + row.value;
    }
    assert heroes[..|heroes|] == heroes;
    if operations <= 0 || operations > cap {
      return None;
    }
    var acc := new Accumulator(true);
    for i := 0 to |heroes|
      invariant acc.Valid() && fresh(acc) && acc.log == CombosVsCombos(heroes[..i], villains, sorted)
    {
      assert heroes[i] in heroes;
      RowsStep(heroes, i, villains, sorted);
      AddRow(acc, heroes[i], villains, sorted);
    }
    if acc.trials == 0 {
      return None;
    }
    r := acc.Result();
  }

  lemma {:induction false} NoRows(heroes: seq<Entry>, villains: seq<Entry>, board: seq<Card>)
    requires |board| <= 5
    ensures CombosVsCombos([], villains, board) == []
    ensures villains == [] ==> CombosVsCombos(heroes, villains, board) == []
  {
    if heroes != [] {
      NoRows(heroes[..|heroes| - 1], villains, board);
    }
  }
}
