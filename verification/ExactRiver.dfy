/** The exact heads-up river: the solver's shortcut gives the equity engine's equity. */
module ExactRiver {
  import opened Cards
  import opened Combos
  import opened HandEvaluator
  import opened RangeExpansion
  import opened Sums
  import opened Showdowns
  import opened Equity
  import opened ResponseMix

  predicate Weighs(e: Entry, blocked: set<Card>) {
    e.weight > 0.0 && e.first !in blocked && e.second !in blocked
  }

  /** The weighted opponent combos, in order. */
  function Weighted(combos: seq<Entry>, blocked: set<Card>): (r: seq<Entry>)
    ensures forall i :: 0 <= i < |r| ==> r[i] in combos && Weighs(r[i], blocked)
    ensures r == [] <==> forall e :: e in combos ==> !Weighs(e, blocked)
  {
    if combos == [] then []
    else
      assert combos == [combos[0]] + combos[1..];
      (if Weighs(combos[0], blocked) then [combos[0]] else []) + Weighted(combos[1..], blocked)
  }

  /** One showdown per opponent combo. */
  function RiverTrials(hero: Entry, villains: seq<Entry>, board: seq<Card>): (log: seq<Showdown>)
    ensures |log| == |villains|
    ensures forall i :: 0 <= i < |villains| ==> log[i] == Showdown(HandKeys([hero, villains[i]], board), villains[i].weight)
  {
    seq(|villains|, i requires 0 <= i < |villains| => Showdown(HandKeys([hero, villains[i]], board), villains[i].weight))
  }

  /** With a full board they are exactly the trials of hand against range. */
  lemma {:induction false} RiverIsHandVsCombos(hero: Entry, villains: seq<Entry>, board: seq<Card>)
    requires |board| == 5
    ensures RiverTrials(hero, villains, board) == HandVsCombos(hero, villains, board)
  {
    hide HandKeys, Deck;
    if villains != [] {
      var n := |villains| - 1;
      RiverIsHandVsCombos(hero, villains[..n], board);
      var known := Holding(hero) + board + Holding(villains[n]);
      assert Runouts(known, 0) == [[]];
      assert board + [] == board;
      assert Trials([hero, villains[n]], board, Runouts(known, 0), villains[n].weight)
          == [Showdown(HandKeys([hero, villains[n]], board), villains[n].weight)];
    }
  }

  /** The hero's share of one river showdown. */
  function RiverShare(hero: Key, villain: Key): real {
    if KeyLt(villain, hero) then 1.0 else if hero == villain then 0.5 else 0.0
  }

  lemma RiverShareIsShare(hero: Key, villain: Key, weight: real)
    requires weight > 0.0
    ensures Showdowns.Share(Showdown([hero, villain], weight), 0) == Times(weight, RiverShare(hero, villain))
  {
    var d := Showdown([hero, villain], weight);
    TwoPlayerShare(d, 0);
    KeyOrder(hero, villain, hero);
    HalfTimes(weight);
  }

  lemma HalfTimes(w: real)
    ensures Times(w, 1.0) == w && Times(w, 0.5) == w / 2.0 && Times(w, 0.0) == 0.0
  {}

  lemma PartOfTotal(weight: real, total: real, share: real)
    requires total != 0.0
    ensures Times(Ratio(weight, total), share) == Ratio(Times(weight, share), total)
  {}

  /** What one combo adds to the hero's equity. */
  lemma RiverStep(hero: Entry, villains: seq<Entry>, board: seq<Card>, total: real, i: nat)
    requires i < |villains| && villains[i].weight > 0.0 && total != 0.0
    ensures var share := RiverShare(BestHandKey(Holding(hero) + board), BestHandKey(Holding(villains[i]) + board));
            Ratio(Showdowns.Share(RiverTrials(hero, villains, board)[i], 0), total)
            == Times(Ratio(villains[i].weight, total), share)
  {
    hide BestHandKey, Holding, Ratio, Showdowns.Share, RiverShare;
    var heroKey, villainKey := BestHandKey(Holding(hero) + board), BestHandKey(Holding(villains[i]) + board);
    assert HandKeys([hero, villains[i]], board) == [heroKey, villainKey];
    RiverShareIsShare(heroKey, villainKey, villains[i].weight);
    PartOfTotal(villains[i].weight, total, RiverShare(heroKey, villainKey));
  }

  /** _exact_heads_up_river: equity, number of combos, and effective sample size. */
  method ExactHeadsUpRiver(hole: Hole, board: seq<Card>, combos: seq<Entry>) returns (r: Option<(real, nat, real)>)
    requires |board| == 5
    ensures var villains := Weighted(combos, {hole.0, hole.1} + Elements(board));
            var log := HandVsCombos(HandOf(hole), villains, board);
            && (r.None? <==> villains == [])
            && (r.Some? ==>
                  ValidLog(log, 2) && TotalWeight(log) > 0.0
                  && r.value.0 == EquityOf(log, 2, 0)
                  && r.value.1 == |villains| == |log|
                  && Sum(EntryWeights(villains)) > 0.0
                  && Sum(Squares(Fractions(EntryWeights(villains), Sum(EntryWeights(villains))))) > 0.0
                  && r.value.2 == EffectiveCount(EntryWeights(villains))
                  && 1.0 <= r.value.2 <= |villains| as real)
  {
    hide BestHandKey, EquityOf;
    var villains := Weighted(combos, {hole.0, hole.1} + Elements(board));
    ghost var log := RiverTrials(HandOf(hole), villains, board);
    RiverIsHandVsCombos(HandOf(hole), villains, board);
    var weights := EntryWeights(villains);
    var total := Sum(weights);
    if villains == [] {
      return None;
    }
    SumNonNegative(weights);
    assert 0.0 < weights[0] <= total;
    assert Weights(log) == weights;
    EffectiveBounds(weights);
    var heroKey := BestHandKey(Holding(HandOf(hole)) + board);
    var equity, squared := SumRiver(heroKey, villains, board, weights, total, log, HandOf(hole));
    r := Some((equity, |villains|, Inverse(squared)));
  }

  /** The loop that adds up the equity and the squared probabilities. */
  method SumRiver(heroKey: Key, villains: seq<Entry>, board: seq<Card>, weights: seq<real>, total: real,
                  ghost log: seq<Showdown>, ghost hero: Entry) returns (equity: real, squared: real)
    requires weights == EntryWeights(villains) && total == Sum(weights) > 0.0 && AllPositive(weights)
    requires log == RiverTrials(hero, villains, board) && heroKey == BestHandKey(Holding(hero) + board)
    ensures ValidLog(log, 2) && TotalWeight(log) == total && equity == EquityOf(log, 2, 0)
    ensures squared == Sum(Squares(Fractions(weights, total)))
  {
    hide BestHandKey, Holding, Square, Ratio, Showdowns.Share, RiverShare, Times, Sum, HandKeys;
    RiverLog(hero, villains, board);
    ghost var shares := Shares(log, 2, 0);
    var fractions := Fractions(weights, total);
    ghost var squares := Squares(fractions);
    equity, squared := 0.0, 0.0;
    assert Ratio(Sum([]), total) == 0.0 && Sum([]) == 0.0 by { NoSum(total); }
    for i := 0 to |villains|
      invariant equity == Ratio(Sum(shares[..i]), total)
      invariant squared == Sum(squares[..i])
    {
      var share := RiverShare(heroKey, BestHandKey(Holding(villains[i]) + board));
      RiverStep(hero, villains, board, total, i);
      RatioAdd(Sum(shares[..i]), shares[i], total);
      SumTake(shares, i);
      SumTake(squares, i);
      equity := equity + Times(Ratio(villains[i].weight, total), share);
      squared := squared + Square(fractions[i]);
    }
    assert shares[..|villains|] == shares && squares[..|villains|] == squares;
  }

  lemma NoSum(total: real)
    requires total != 0.0
    ensures Ratio(Sum([]), total) == 0.0 && Sum([]) == 0.0
  {}

  lemma RiverLog(hero: Entry, villains: seq<Entry>, board: seq<Card>)
    requires AllPositive(EntryWeights(villains))
    ensures ValidLog(RiverTrials(hero, villains, board), 2)
    ensures Weights(RiverTrials(hero, villains, board)) == EntryWeights(villains)
  {
    assert forall i :: 0 <= i < |villains| ==> villains[i].weight == EntryWeights(villains)[i];
  }

  // ---------------------------------------------------------------- sampled showdowns

  /** _hero_share: the hero's part of a sampled showdown against any number of opponents. */
  function HeroShare(hero: Key, opponents: seq<Key>): real {
    var keys := [hero] + opponents;
    var best := BestKey(keys);
    CountPresent(keys, best);
    if hero == best then Ratio(1.0, CountKey(keys, best) as real) else 0.0
  }

  /** It is the share that the multiway tally credits for a trial of weight one. */
  lemma HeroShareIsShare(hero: Key, opponents: seq<Key>)
    ensures HeroShare(hero, opponents) == Showdowns.Share(Showdown([hero] + opponents, 1.0), 0)
  {}
}
