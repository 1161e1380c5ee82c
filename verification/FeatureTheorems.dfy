/** What the features of the likelihood mean: the made feature follows the evaluator's category, the draw feature real draws. */
module FeatureTheorems {
  import opened Cards
  import opened HandEvaluator
  import opened HandSets
  import opened HandSteps
  import opened HandTheorems
  import opened HandDraws
  import opened RangeExpansion
  import opened Likelihood

  // ---------------------------------------------------------------- counters of the list and of the set

  lemma {:induction false} RankCountIsSet(cards: seq<Card>, r: int)
    requires Distinct(cards)
    ensures CountRank(cards, r) == Count(Elements(cards), r)
  {
    if cards == [] {
      assert OfRank({}, r) == {};
    } else {
      var c, rest := cards[0], Elements(cards[1..]);
      DistinctTail(cards);
      RankCountIsSet(cards[1..], r);
      assert Elements(cards) == rest + {c};
      CountAdd(rest, c);
      hide Count, Elements, Distinct;
    }
  }

  lemma SuitAdd(hand: set<Card>, c: Card, s: int)
    requires c !in hand
    ensures |OfSuit(hand + {c}, s)| == |OfSuit(hand, s)| + if c.suit == s then 1 else 0
  {
    assert OfSuit(hand + {c}, s) == OfSuit(hand, s) + if c.suit == s then {c} else {};
  }

  lemma {:induction false} SuitCountIsSet(cards: seq<Card>, s: int)
    requires Distinct(cards)
    ensures CountSuit(cards, s) == |OfSuit(Elements(cards), s)|
  {
    if cards == [] {
      assert OfSuit({}, s) == {};
    } else {
      var c, rest := cards[0], Elements(cards[1..]);
      DistinctTail(cards);
      SuitCountIsSet(cards[1..], s);
      assert Elements(cards) == rest + {c};
      SuitAdd(rest, c, s);
      hide OfSuit, Elements, Distinct;
    }
  }

  lemma {:induction false} TopCountIsMost(cards: seq<Card>, r: int)
    ensures forall q :: 2 <= q <= r ==> CountRank(cards, q) <= TopCount(cards, r)
    ensures TopCount(cards, r) > 0 ==> exists q :: 2 <= q <= r && CountRank(cards, q) == TopCount(cards, r)
    decreases r
  {
    if r >= 2 {
      TopCountIsMost(cards, r - 1);
      assert TopCount(cards, r) == CountRank(cards, r) || TopCount(cards, r) == TopCount(cards, r - 1);
    }
  }

  function Often(cards: seq<Card>, n: nat, r: int): set<int> {
    set q | 2 <= q <= r && CountRank(cards, q) >= n
  }

  lemma {:induction false} RanksWithIsSize(cards: seq<Card>, n: nat, r: int)
    ensures RanksWith(cards, n, r) == |Often(cards, n, r)|
    decreases r
  {
    if r < 2 {
      assert Often(cards, n, r) == {};
    } else {
      RanksWithIsSize(cards, n, r - 1);
      assert Often(cards, n, r) == Often(cards, n, r - 1) + if CountRank(cards, r) >= n then {r} else {};
    }
  }

  lemma TwoMembers<T>(s: set<T>)
    ensures |s| >= 2 <==> exists a, b :: a in s && b in s && a != b
  {
    if |s| >= 2 {
      var a := AnyMember(s);
      assert |s - {a}| >= 1;
      var b := AnyMember(s - {a});
      assert b in s;
    }
    if a, b :| a in s && b in s && a != b {
      SubsetCardinality({a, b}, s);
    }
  }

  // ---------------------------------------------------------------- runs and straights

  lemma RunValuesAre(cards: seq<Card>)
    ensures forall v :: v in RunValues(cards) <==> v in RanksOf(Elements(cards)) || (v == 1 && 14 in RanksOf(Elements(cards)))
    ensures forall v :: v in RunValues(cards) ==> 1 <= v <= 14
    ensures forall v :: v in RanksOf(Elements(cards)) ==> 2 <= v <= 14
  {
    CountPositive(Elements(cards));
    forall r: int ensures r in RanksOf(Elements(cards)) <==> exists c :: c in cards && c.rank == r {
      if r in RanksOf(Elements(cards)) {
        var c :| c in Elements(cards) && c.rank == r;
      }
      if c :| c in cards && c.rank == r { assert c in Elements(cards); }
    }
  }

  /** Five values in a row are the ranks of a straight, with the ace also low. */
  lemma RunIsStraight(cards: seq<Card>, low: int)
    requires 1 <= low <= 10
    ensures HasRun(RunValues(cards), low, 5) <==> HandEvaluator.Run(low + 4) <= RanksOf(Elements(cards))
  {
    RunValuesAre(cards);
    hide RunValues, RanksOf;
    var values, ranks := RunValues(cards), RanksOf(Elements(cards));
    var high := low + 4;
    assert forall v :: v >= 2 ==> (v in values <==> v in ranks);
    assert HasRun(values, low, 5) <==> low in values && low + 1 in values && low + 2 in values && low + 3 in values && high in values;
    if low == 1 {
      assert HandEvaluator.Run(high) <= ranks <==> 14 in ranks && 2 in ranks && 3 in ranks && 4 in ranks && 5 in ranks;
    } else {
      assert HandEvaluator.Run(high) == {low, low + 1, low + 2, low + 3, high};
      assert HandEvaluator.Run(high) <= ranks <==> low in ranks && low + 1 in ranks && low + 2 in ranks && low + 3 in ranks && high in ranks;
    }
  }

  /** The longest run has five values exactly when the hand has a straight. */
  lemma LongRunIsStraight(cards: seq<Card>)
    ensures LongestUpTo(RunValues(cards), 14) >= 5 <==> Straight(Elements(cards)).Some?
  {
    var values := RunValues(cards);
    var low := LongestIsLongest(values, 14);
    RunValuesAre(cards);
    hide RunValues, RanksOf, HandEvaluator.Run, HandEvaluator.HighestStraightUpTo, LongestUpTo;
    if LongestUpTo(values, 14) >= 5 {
      assert low in values && low + 4 in values;
      assert HasRun(values, low, 5);
      RunIsStraight(cards, low);
    }
    if Straight(Elements(cards)).Some? {
      var h := Straight(Elements(cards)).value;
      RunIsStraight(cards, h - 4);
    }
  }

  // ---------------------------------------------------------------- the made feature

  lemma TopSuitIsFlush(cards: seq<Card>)
    requires Distinct(cards)
    ensures TopSuit(cards) >= 5 <==> AnyFlush(Elements(cards))
  {
    forall s ensures CountSuit(cards, s) == |OfSuit(Elements(cards), s)| { SuitCountIsSet(cards, s); }
    hide OfSuit, CountSuit;
    if TopSuit(cards) >= 5 {
      assert Flush(Elements(cards), 0) || Flush(Elements(cards), 1) || Flush(Elements(cards), 2) || Flush(Elements(cards), 3);
    }
    if s :| Flush(Elements(cards), s) { assert 0 <= s <= 3; }
  }

  /** The rank counts, in terms of the hand. */
  lemma GroupsOfHand(cards: seq<Card>)
    requires Distinct(cards)
    ensures TopCount(cards, 14) >= 4 <==> Quads(Elements(cards))
    ensures TopCount(cards, 14) >= 3 <==> Trips(Elements(cards))
    ensures TopCount(cards, 14) >= 2 <==> exists r :: r in RanksOf(Elements(cards)) && Count(Elements(cards), r) >= 2
    ensures RanksWith(cards, 2, 14) >= 2 <==>
              exists a, b :: a in RanksOf(Elements(cards)) && b in RanksOf(Elements(cards)) && a != b
                             && Count(Elements(cards), a) >= 2 && Count(Elements(cards), b) >= 2
  {
    var hand := Elements(cards);
    forall r ensures CountRank(cards, r) == Count(hand, r) { RankCountIsSet(cards, r); }
    CountPositive(hand);
    TopCountIsMost(cards, 14);
    RanksWithIsSize(cards, 2, 14);
    TwoMembers(Often(cards, 2, 14));
    hide Count, RanksOf, CountRank, TopCount, RanksWith;
    assert forall r :: r in RanksOf(hand) ==> 2 <= r <= 14;
    assert forall r :: r in Often(cards, 2, 14) <==> r in RanksOf(hand) && Count(hand, r) >= 2;
  }

  /** A full house in at most seven cards leaves no straight. */
  lemma FullHouseHasNoStraight(hand: set<Card>)
    requires |hand| <= 7 && FullHouse(hand)
    ensures Straight(hand).None?
  {
    var a, b :| a in RanksOf(hand) && b in RanksOf(hand) && a != b && Count(hand, a) >= 3 && Count(hand, b) >= 2;
    ExcessBound(hand, a, b);
    hide RanksOf, Count, HandEvaluator.Run, HandEvaluator.HighestStraightUpTo, OfRank;
    if Straight(hand).Some? {
      RunSize(Straight(hand).value);
      SubsetCardinality(HandEvaluator.Run(Straight(hand).value), RanksOf(hand));
    }
  }

  /** The rank of a category in the made feature. */
  function MadeOf(category: nat): nat {
    match category
    case 0 => 0
    case 1 => 2
    case 2 => 3
    case 3 => 4
    case 6 => 4
    case _ => 5
  }

  /** The made feature in terms of the hand. */
  lemma MadeOfHand(cards: seq<Card>)
    requires Distinct(cards)
    ensures var hand := Elements(cards);
            MadeFeature(cards)
            == if AnyFlush(hand) || Straight(hand).Some? || Quads(hand) then 5
               else if Trips(hand) then 4
               else if |Pairs(hand)| >= 2 then 3
               else if |Pairs(hand)| == 1 then 2
               else 0
  {
    TopSuitIsFlush(cards);
    LongRunIsStraight(cards);
    GroupsOfHand(cards);
    PairsAreGroups(Elements(cards));
    hide TopCount, RanksWith, TopSuit, LongestUpTo, RunValues, Straight, AnyFlush, Quads, Trips, Pairs, Count, RanksOf, Elements;
  }

  /** On the flop, turn and river the made feature is a function of the evaluator's category. */
  lemma MadeFollowsCategory(cards: seq<Card>)
    requires Distinct(cards) && 5 <= |cards| <= 7
    ensures MadeFeature(cards) == MadeOf(BestHandKey(cards).category)
  {
    var hand := Elements(cards);
    BestHandKeyOfSet(cards);
    ElementsOfDistinct(cards);
    MadeOfHand(cards);
    hide BestHandKey, MadeFeature, SetKey, Elements, Straight, Distinct;
    if s :| Flush(hand, s) {
      FlushKey(hand, s);
    } else {
      CategoryWithoutFlush(hand);
      if FullHouse(hand) { FullHouseHasNoStraight(hand); }
      PairsAreGroups(hand);
      hide Quads, Trips, FullHouse, Pairs;
    }
  }

  /** Without trips, the pairs are the ranks that occur at least twice. */
  lemma PairsAreGroups(hand: set<Card>)
    ensures FullHouse(hand) ==> Trips(hand)
    ensures Quads(hand) ==> Trips(hand)
    ensures !Trips(hand) ==>
              ((exists r :: r in RanksOf(hand) && Count(hand, r) >= 2) <==> |Pairs(hand)| >= 1)
              && ((exists a, b :: a in RanksOf(hand) && b in RanksOf(hand) && a != b && Count(hand, a) >= 2 && Count(hand, b) >= 2)
                  <==> |Pairs(hand)| >= 2)
  {
    hide Count, RanksOf;
    TwoMembers(Pairs(hand));
    if !Trips(hand) {
      assert forall r :: r in Pairs(hand) <==> r in RanksOf(hand) && Count(hand, r) >= 2;
      if |Pairs(hand)| >= 1 {
        var r := AnyMember(Pairs(hand));
      } else {
        assert Pairs(hand) == {};
      }
    }
  }

  // ---------------------------------------------------------------- the draw feature

  /**
   * Below a straight, the draw feature holds two for a suit held exactly four times and one for four values in a row,
   * which some rank completes to a straight.
   */
  lemma DrawsAreDraws(cards: seq<Card>)
    requires Distinct(cards) && 5 <= |cards| <= 7 && BestHandKey(cards).category <= 3
    ensures DrawFeature(cards) >= 2 <==> exists s :: 0 <= s <= 3 && |OfSuit(Elements(cards), s)| == 4
    ensures DrawFeature(cards) % 2 == 1 ==> exists r :: 2 <= r <= 14 && CompletesRun(RanksOf(Elements(cards)), r)
  {
    var hand := Elements(cards);
    BestHandKeyOfSet(cards);
    ElementsOfDistinct(cards);
    WeakCategory(hand);
    DrawParts(cards);
    hide BestHandKey, SetKey, Straight, DrawFeature, Distinct, TopSuit, RanksOf, CompletesRun, Elements, OfSuit, LongestUpTo, RunValues;
    SuitOfFour(cards);
    if LongestUpTo(RunValues(cards), 14) == 4 {
      FourInARow(cards);
    }
  }

  /** _combo_features on the flop, turn and river: the made feature follows the category, and its draws are draws. */
  lemma FeaturesMean(h: Hole, board: seq<Card>)
    requires 3 <= |board| <= 5 && Distinct([h.0, h.1] + board)
    ensures var cards, f := [h.0, h.1] + board, ComboFeatures(h, board);
            && f.made == MadeOf(BestHandKey(cards).category)
            && (BestHandKey(cards).category <= 3 ==>
                  (f.draw >= 2 <==> exists s :: 0 <= s <= 3 && |OfSuit(Elements(cards), s)| == 4)
                  && (f.draw % 2 == 1 ==> exists r :: 2 <= r <= 14 && CompletesRun(RanksOf(Elements(cards)), r)))
  {
    hide BestHandKey, MadeFeature, DrawFeature, Distinct, OfSuit, RanksOf, CompletesRun;
    var cards := [h.0, h.1] + board;
    MadeFollowsCategory(cards);
    if BestHandKey(cards).category <= 3 { DrawsAreDraws(cards); }
  }

  lemma DrawParts(cards: seq<Card>)
    ensures DrawFeature(cards) >= 2 <==> TopSuit(cards) == 4
    ensures DrawFeature(cards) % 2 == 1 <==> LongestUpTo(RunValues(cards), 14) == 4
  {}

  lemma SuitOfFour(cards: seq<Card>)
    requires Distinct(cards) && !AnyFlush(Elements(cards))
    ensures TopSuit(cards) == 4 <==> exists s :: 0 <= s <= 3 && |OfSuit(Elements(cards), s)| == 4
  {
    forall s ensures CountSuit(cards, s) == |OfSuit(Elements(cards), s)| { SuitCountIsSet(cards, s); }
    hide OfSuit, CountSuit, Elements;
    forall s | 0 <= s <= 3 ensures CountSuit(cards, s) <= 4 { assert !Flush(Elements(cards), s); }
    if s :| 0 <= s <= 3 && |OfSuit(Elements(cards), s)| == 4 {
      assert s == 0 || s == 1 || s == 2 || s == 3;
    }
  }

  /** Four values in a row lack one rank of a straight. */
  lemma FourInARow(cards: seq<Card>)
    requires LongestUpTo(RunValues(cards), 14) == 4
    ensures exists r :: 2 <= r <= 14 && CompletesRun(RanksOf(Elements(cards)), r)
  {
    var values, ranks := RunValues(cards), RanksOf(Elements(cards));
    var low := LongestIsLongest(values, 14);
    RunValuesAre(cards);
    hide RunValues, RanksOf, LongestUpTo;
    assert low in values && low + 1 in values && low + 2 in values && low + 3 in values;
    assert HasRun(values, low, 4);
    if low + 4 <= 14 {
      NoFive(values, low);
      assert Run(low + 4) - ranks == {low + 4} by { LacksOne(ranks, values, low, low + 4); }
      assert CompletesRun(ranks, low + 4);
    } else {
      NoFive(values, low - 1);
      assert Run(14) - ranks == {10} by { LacksOne(ranks, values, 10, 10); }
      assert CompletesRun(ranks, 10);
    }
  }

  lemma NoFive(values: set<int>, low: int)
    requires LongestUpTo(values, 14) == 4 && 0 <= low <= 10
    ensures !(low in values && low + 1 in values && low + 2 in values && low + 3 in values && low + 4 in values)
  {
    hide LongestUpTo, RunDown;
    var longest := LongestIsLongest(values, 14);
    assert !HasRun(values, low, 5);
  }

  lemma LacksOne(ranks: set<int>, values: set<int>, low: int, r: int)
    requires 1 <= low <= 10 && low <= r <= low + 4 && 2 <= r
    requires forall v :: v in values <==> v in ranks || (v == 1 && 14 in ranks)
    requires forall v :: v in ranks ==> 2 <= v <= 14
    requires r !in values && forall v :: low <= v <= low + 4 && v != r ==> v in values
    ensures Run(low + 4) - ranks == {r}
  {
    assert low in values || low == r;
    assert low + 1 in values || low + 1 == r;
    assert low + 2 in values || low + 2 == r;
    assert low + 3 in values || low + 3 == r;
    assert low + 4 in values || low + 4 == r;
  }
}
