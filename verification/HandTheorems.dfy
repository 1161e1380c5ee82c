/** The direct evaluator equals the brute-force maximum on five to seven distinct cards. */
module HandTheorems {
  import opened Cards
  import opened HandEvaluator
  import opened HandSets
  import opened HandSteps

  // ---------------------------------------------------------------- lists and sets of cards

  lemma CountsStep(hand: set<Card>, c: Card)
    requires c !in hand
    ensures var counts := CountsOf(hand);
            CountsOf(hand + {c}) == counts[(c.rank as int) := (if c.rank in counts then counts[c.rank] else 0) + 1]
  {
    CountAdd(hand, c);
    CountPositive(hand);
    CountPositive(hand + {c});
    var counts, more := CountsOf(hand), CountsOf(hand + {c});
    assert counts.Keys == RanksOf(hand) && more.Keys == RanksOf(hand + {c});
    hide CountsOf, RanksOf, Count;
    assert more.Keys == counts.Keys + {c.rank as int};
  }

  lemma {:induction false} CounterOfSet(cards: seq<Card>)
    requires Distinct(cards)
    ensures Counter(Ranks(cards)) == CountsOf(Elements(cards))
  {
    if cards == [] {
      assert RanksOf(Elements(cards)) == {};
    } else {
      var c, rest := cards[0], cards[1..];
      CounterOfSet(rest);
      assert Ranks(cards)[1..] == Ranks(rest);
      assert Elements(cards) == Elements(rest) + {c};
      CountsStep(Elements(rest), c);
      hide CountsOf;
    }
  }

  lemma ElementsCons<T>(x: T, s: seq<T>)
    ensures Elements([x] + s) == {x} + Elements(s)
  {}

  lemma DistinctCons<T>(x: T, s: seq<T>)
    requires Distinct(s) && x !in Elements(s)
    ensures Distinct([x] + s)
  {
    forall i | 0 <= i < |s| ensures s[i] != x {
      assert s[i] in Elements(s);
    }
  }

  lemma OfSuitAdd(hand: set<Card>, c: Card, s: int)
    ensures OfSuit({c} + hand, s) == (if c.suit == s then {c} else {}) + OfSuit(hand, s)
  {}

  lemma {:induction false} SuitedElements(cards: seq<Card>, s: int)
    requires Distinct(cards)
    ensures Distinct(SuitedCards(cards, s))
    ensures Elements(SuitedCards(cards, s)) == OfSuit(Elements(cards), s)
    ensures |SuitedCards(cards, s)| == |OfSuit(Elements(cards), s)|
  {
    if cards != [] {
      var c, rest := cards[0], cards[1..];
      assert cards == [c] + rest;
      assert c !in Elements(rest);
      SuitedElements(rest, s);
      var suited := SuitedCards(rest, s);
      ElementsCons(c, rest);
      ElementsCons(c, suited);
      OfSuitAdd(Elements(rest), c, s);
      DistinctCons(c, suited);
      hide Elements, Distinct, OfSuit;
      assert SuitedCards(cards, s) == if c.suit == s then [c] + suited else suited;
      ElementsOfDistinct(SuitedCards(cards, s));
    }
  }

  lemma {:induction false} FlushSuitOfSet(cards: seq<Card>, s: int)
    requires Distinct(cards) && 0 <= s
    ensures FlushSuitFrom(cards, s) == FlushSuitOf(Elements(cards), s)
    decreases 4 - s
  {
    if s <= 3 {
      SuitedElements(cards, s);
      FlushSuitOfSet(cards, s + 1);
    }
  }

  lemma InsertDescending(x: int, s: seq<int>)
    requires Descending(s) && x !in s
    ensures Descending(InsertDesc(x, s))
    ensures Elements(InsertDesc(x, s)) == {x} + Elements(s)
  {
    if s == [] || x >= s[0] {
      assert forall i :: 0 <= i < |s| ==> s[i] < x by {
        if s != [] { assert s[0] in s; }
      }
    } else {
      InsertDescending(x, s[1..]);
      var tail := InsertDesc(x, s[1..]);
      forall i | 0 <= i < |tail| ensures tail[i] < s[0] {
        assert tail[i] in Elements(tail);
      }
      assert s == [s[0]] + s[1..];
      assert Elements(s) == {s[0]} + Elements(s[1..]);
      assert Elements([s[0]] + tail) == {s[0]} + Elements(tail);
    }
  }

  lemma ElementsEmpty<T>(s: seq<T>)
    ensures Elements(s) == {} <==> s == []
  {
    if s != [] { assert s[0] in Elements(s); }
  }

  lemma DescendingUnique(a: seq<int>, b: seq<int>)
    requires Descending(a) && Descending(b) && Elements(a) == Elements(b)
    ensures a == b
  {
    ElementsEmpty(a);
    ElementsEmpty(b);
    if a != [] {
      assert a[0] in Elements(b) && b[0] in Elements(a);
      assert a[0] == b[0];
      forall x ensures x in Elements(a[1..]) <==> x in Elements(b[1..]) {
        assert x in Elements(a) <==> x == a[0] || x in Elements(a[1..]);
        assert x in Elements(b) <==> x == b[0] || x in Elements(b[1..]);
      }
      DescendingUnique(a[1..], b[1..]);
      assert a == [a[0]] + a[1..] && b == [b[0]] + b[1..];
    }
  }

  lemma {:induction false} SortDescending(s: seq<int>)
    requires Distinct(s)
    ensures Descending(SortDesc(s)) && Elements(SortDesc(s)) == Elements(s)
  {
    if s != [] {
      SortDescending(s[1..]);
      assert s[0] !in Elements(s[1..]);
      assert s[0] !in SortDesc(s[1..]) by { assert s[0] !in Elements(SortDesc(s[1..])); }
      InsertDescending(s[0], SortDesc(s[1..]));
      assert Elements(s) == {s[0]} + Elements(s[1..]);
    }
  }

  /** Sorting ranks without repetition lists the rank set from the top. */
  lemma SortOfDistinct(s: seq<int>)
    requires Distinct(s) && RankSet(Elements(s))
    ensures SortDesc(s) == Desc(Elements(s))
  {
    hide Cards.DescFrom, SortDesc;
    SortDescending(s);
    DescProperties(Elements(s));
    forall x ensures x in Elements(Desc(Elements(s))) <==> x in Elements(s) {
      assert x in Elements(Desc(Elements(s))) <==> x in Desc(Elements(s));
    }
    assert Elements(Desc(Elements(s))) == Elements(s);
    DescendingUnique(SortDesc(s), Desc(Elements(s)));
  }

  lemma RanksElements(cards: seq<Card>)
    ensures Elements(Ranks(cards)) == RanksOf(Elements(cards))
  {
    forall r ensures r in Elements(Ranks(cards)) <==> r in RanksOf(Elements(cards)) {
      if r in Ranks(cards) {
        var i :| 0 <= i < |cards| && Ranks(cards)[i] == r;
        assert cards[i] in Elements(cards);
      }
      if r in RanksOf(Elements(cards)) {
        var c :| c in Elements(cards) && c.rank == r;
        var i :| 0 <= i < |cards| && cards[i] == c;
        assert Ranks(cards)[i] == r;
      }
    }
  }

  lemma DirectHandKeyOfSet(cards: seq<Card>)
    requires Distinct(cards) && cards != []
    ensures Elements(cards) != {} && DirectHandKey(cards) == SetKey(Elements(cards))
  {
    hide HandEvaluator.DirectKey, Cards.DescFrom;
    var hand := Elements(cards);
    assert cards[0] in hand;
    CounterOfSet(cards);
    FlushSuitOfSet(cards, 0);
    if FlushSuitOf(hand, 0).Some? {
      var s := FlushSuitOf(hand, 0).value;
      var suited := SuitedCards(cards, s);
      SuitedElements(cards, s);
      SuitRanksSize(hand, s);
      RanksElements(suited);
      assert Elements(Ranks(suited)) == SuitRanks(hand, s);
      SizeMeansDistinct(Ranks(suited));
      SortOfDistinct(Ranks(suited));
    }
    assert FlushRanks(cards) == FlushOf(hand);
  }

  lemma {:induction false} SizeMeansDistinct(s: seq<int>)
    requires |Elements(s)| == |s|
    ensures Distinct(s)
  {
    if s != [] {
      var x, tail := s[0], s[1..];
      assert s == [x] + tail;
      ElementsCons(x, tail);
      ElementsAtMost(tail);
      assert x in Elements(tail) ==> {x} + Elements(tail) == Elements(tail);
      SizeMeansDistinct(tail);
      DistinctCons(x, tail);
    }
  }

  lemma {:induction false} ElementsAtMost(s: seq<int>)
    ensures |Elements(s)| <= |s|
  {
    if s != [] {
      ElementsAtMost(s[1..]);
      assert Elements(s) == {s[0]} + Elements(s[1..]);
    }
  }

  // ---------------------------------------------------------------- five cards

  lemma OneSuitMeansFlush(hand: set<Card>, suits: set<Suit>)
    requires |hand| == 5 && suits == set c | c in hand :: c.suit
    ensures |suits| == 1 <==> AnyFlush(hand)
  {
    if |suits| == 1 {
      var s := AnyMember(suits);
      SubsetCardinality({s}, suits);
      assert OfSuit(hand, s) == hand by {
        forall c | c in hand ensures c.suit == s { assert c.suit in suits; }
      }
      assert Flush(hand, s);
    }
    if AnyFlush(hand) {
      var s :| Flush(hand, s);
      SubsetCardinality(OfSuit(hand, s), hand);
      var c := AnyMember(hand);
      assert c.suit in suits;
      assert suits == {s};
    }
  }

  /** Groups of a hand, in terms of its rank counts. */
  lemma HandGroups(hand: set<Card>) returns (groups: seq<Group>)
    requires hand != {}
    ensures groups == Groups(CountsOf(hand)) && |groups| == |RanksOf(hand)| > 0
    ensures CountsOf(hand).Keys == RanksOf(hand)
    ensures groups[0].rank in RanksOf(hand) && groups[0].count == Count(hand, groups[0].rank)
    ensures forall x :: x in RanksOf(hand) ==> GroupLe(Group(Count(hand, x), x), groups[0])
    ensures |groups| > 1 ==> groups[1].rank in RanksOf(hand) && groups[1].rank != groups[0].rank
                             && groups[1].count == Count(hand, groups[1].rank)
    ensures |groups| > 1 ==> forall x :: x in RanksOf(hand) && x != groups[0].rank ==> GroupLe(Group(Count(hand, x), x), groups[1])
    ensures forall n: nat :: WithCount(CountsOf(hand), n) == set r | r in RanksOf(hand) && Count(hand, r) == n
  {
    var counts := CountsOf(hand);
    assert counts.Keys == RanksOf(hand);
    groups := FirstGroups(counts);
    forall x | x in RanksOf(hand) ensures counts[x] == Count(hand, x) {}
  }

  lemma FlushGroups(hand: set<Card>) returns (groups: seq<Group>)
    requires hand != {} && |hand| <= 7 && AnyFlush(hand)
    ensures groups == Groups(CountsOf(hand)) && |groups| > 0
    ensures groups[0].count < 4 && !(groups[0].count == 3 && |groups| > 1 && groups[1].count >= 2)
  {
    NoFullHandWithFlush(hand);
    groups := HandGroups(hand);
  }

  lemma FiveFlush(hand: set<Card>, s: int, ranks: seq<int>)
    requires |hand| == 5 && Flush(hand, s)
    requires Elements(ranks) == RanksOf(hand) && |ranks| == 5
    ensures FiveKey(CountsOf(hand), ranks, true) == SetKey(hand)
  {
    hide SetKey, Cards.DescFrom, HandEvaluator.Groups, HandEvaluator.HighestStraightUpTo;
    SubsetCardinality(OfSuit(hand, s), hand);
    assert OfSuit(hand, s) == hand;
    FlushKey(hand, s);
    SuitRanksSize(hand, s);
    SizeMeansDistinct(ranks);
    SortOfDistinct(ranks);
    DescProperties(RanksOf(hand));
    var groups := FlushGroups(hand);
    assert CountsOf(hand).Keys == RanksOf(hand);
  }

  /** The groups of a five-card hand without a flush pin down its key. */
  lemma FivePlain(hand: set<Card>, ranks: seq<int>)
    requires |hand| == 5 && !AnyFlush(hand)
    requires Elements(ranks) == RanksOf(hand) && |ranks| == 5
    ensures FiveKey(CountsOf(hand), ranks, false) == SetKey(hand)
  {
    hide SetKey, Cards.DescFrom;
    if Quads(hand) { FiveQuads(hand, ranks); }
    else if FullHouse(hand) { FiveFullHouse(hand, ranks); }
    else if Straight(hand).Some? { FiveStraight(hand, ranks); }
    else if Trips(hand) { FiveTrips(hand, ranks); }
    else { FivePairs(hand, ranks); }
  }

  lemma FiveQuads(hand: set<Card>, ranks: seq<int>)
    requires |hand| == 5 && !AnyFlush(hand) && Quads(hand)
    ensures FiveKey(CountsOf(hand), ranks, false) == SetKey(hand)
  {
    hide SetKey, Cards.DescFrom, HandEvaluator.Groups, HandEvaluator.HighestStraight, CountsOf;
    var q :| q in RanksOf(hand) && Count(hand, q) >= 4;
    QuadsKey(hand, q);
    var groups := HandGroups(hand);
    CountAtMostFour(hand, groups[0].rank);
    assert GroupLe(Group(Count(hand, q), q), groups[0]);
    if groups[0].rank != q { TwoRanks(hand, q, groups[0].rank); }
    assert RanksOf(hand) - WithCount(CountsOf(hand), 4) == RanksOf(hand) - {q} by {
      forall r | r in RanksOf(hand) && r != q ensures Count(hand, r) != 4 { TwoRanks(hand, q, r); }
    }
  }

  lemma FiveFullHouse(hand: set<Card>, ranks: seq<int>)
    requires |hand| == 5 && !AnyFlush(hand) && !Quads(hand) && FullHouse(hand)
    ensures FiveKey(CountsOf(hand), ranks, false) == SetKey(hand)
  {
    hide SetKey, Cards.DescFrom, HandEvaluator.Groups, HandEvaluator.HighestStraight, CountsOf;
    var a, b := FullHouseRanks(hand);
    FullHouseKey(hand, a, b);
    var groups := HandGroups(hand);
    assert GroupLe(Group(Count(hand, a), a), groups[0]);
    assert groups[0] == Group(3, a);
    SubsetCardinality({a, b}, RanksOf(hand));
    assert GroupLe(Group(Count(hand, b), b), groups[1]);
    TwoRanks(hand, a, groups[1].rank);
    assert groups[1] == Group(2, b);
  }

  lemma NeitherFullNorQuads(hand: set<Card>) returns (groups: seq<Group>)
    requires hand != {} && !Quads(hand) && !FullHouse(hand)
    ensures groups == Groups(CountsOf(hand)) && |groups| == |RanksOf(hand)| > 0
    ensures groups[0].count < 4 && !(groups[0].count == 3 && |groups| > 1 && groups[1].count == 2)
    ensures groups[0].rank in RanksOf(hand) && groups[0].count == Count(hand, groups[0].rank)
    ensures groups[0].count == 3 <==> Trips(hand)
  {
    groups := HandGroups(hand);
    if Trips(hand) {
      var t :| t in RanksOf(hand) && Count(hand, t) >= 3;
      assert GroupLe(Group(Count(hand, t), t), groups[0]);
    }
  }

  lemma FiveStraight(hand: set<Card>, ranks: seq<int>)
    requires |hand| == 5 && !AnyFlush(hand) && !Quads(hand) && !FullHouse(hand) && Straight(hand).Some?
    ensures FiveKey(CountsOf(hand), ranks, false) == SetKey(hand)
  {
    hide SetKey, Cards.DescFrom, HandEvaluator.Groups, HandEvaluator.HighestStraightUpTo;
    var groups := NeitherFullNorQuads(hand);
    StraightKey(hand);
    assert CountsOf(hand).Keys == RanksOf(hand);
  }

  lemma FiveTrips(hand: set<Card>, ranks: seq<int>)
    requires |hand| == 5 && !AnyFlush(hand) && !Quads(hand) && !FullHouse(hand)
    requires Straight(hand).None? && Trips(hand)
    ensures FiveKey(CountsOf(hand), ranks, false) == SetKey(hand)
  {
    hide SetKey, Cards.DescFrom, HandEvaluator.Groups, HandEvaluator.HighestStraightUpTo;
    var groups := NeitherFullNorQuads(hand);
    var t := groups[0].rank;
    TripsKey(hand, t);
    OnlyTripsRepeat(hand, t);
    CountPositive(hand);
    DescProperties(RanksOf(hand) - {t});
    assert CountsOf(hand).Keys == RanksOf(hand);
    assert WithCount(CountsOf(hand), 1) == RanksOf(hand) - {t};
  }

  lemma FivePairs(hand: set<Card>, ranks: seq<int>)
    requires |hand| == 5 && !AnyFlush(hand) && !Trips(hand) && Straight(hand).None?
    requires Elements(ranks) == RanksOf(hand) && |ranks| == 5
    ensures FiveKey(CountsOf(hand), ranks, false) == SetKey(hand)
  {
    hide SetKey, Cards.DescFrom, HandEvaluator.Groups, HandEvaluator.HighestStraightUpTo;
    if |Pairs(hand)| >= 2 { FiveTwoPair(hand, ranks); }
    else if |Pairs(hand)| == 1 { FiveOnePair(hand, ranks); }
    else { FiveHighCard(hand, ranks); }
  }

  lemma TwoPairGroups(hand: set<Card>, p: int, q: int) returns (groups: seq<Group>)
    requires hand != {} && !Trips(hand) && p > q && p in Pairs(hand) && q in Pairs(hand)
    requires forall x :: x in Pairs(hand) && x != p ==> x <= q
    ensures groups == Groups(CountsOf(hand)) && |groups| > 1
    ensures groups[0] == Group(2, p) && groups[1] == Group(2, q)
  {
    groups := HandGroups(hand);
    AtMostPairs(hand);
    assert GroupLe(Group(Count(hand, p), p), groups[0]);
    assert groups[0] == Group(2, p);
    SubsetCardinality({p, q}, RanksOf(hand));
    assert GroupLe(Group(Count(hand, q), q), groups[1]);
  }

  lemma FiveTwoPair(hand: set<Card>, ranks: seq<int>)
    requires |hand| == 5 && !AnyFlush(hand) && !Trips(hand) && Straight(hand).None? && |Pairs(hand)| >= 2
    ensures FiveKey(CountsOf(hand), ranks, false) == SetKey(hand)
  {
    hide SetKey, Cards.DescFrom, HandEvaluator.Groups, HandEvaluator.HighestStraightUpTo;
    var p, q := TopPairs(hand);
    var groups := TwoPairGroups(hand, p, q);
    PairsKey(hand);
    CountPositive(hand);
    assert CountsOf(hand).Keys == RanksOf(hand);
    assert WithCount(CountsOf(hand), 1) == RanksOf(hand) - {p, q} by {
      forall r | r in RanksOf(hand) && r != p && r != q ensures Count(hand, r) == 1 { ThreeRanks(hand, p, q, r); }
    }
    assert SortDesc([p, q]) == [p, q] by {
      assert [p, q][1..] == [q] && SortDesc([q]) == [q] by { assert [q][1..] == []; }
    }
  }

  lemma FiveOnePair(hand: set<Card>, ranks: seq<int>)
    requires |hand| == 5 && !AnyFlush(hand) && !Trips(hand) && Straight(hand).None? && |Pairs(hand)| == 1
    ensures FiveKey(CountsOf(hand), ranks, false) == SetKey(hand)
  {
    hide SetKey, Cards.DescFrom, HandEvaluator.Groups, HandEvaluator.HighestStraightUpTo;
    var p := AnyMember(Pairs(hand));
    SubsetCardinality({p}, Pairs(hand));
    OnePairRanks(hand, p);
    AtMostPairs(hand);
    PairsKey(hand);
    CountPositive(hand);
    var groups := HandGroups(hand);
    assert GroupLe(Group(Count(hand, p), p), groups[0]);
    DescProperties(RanksOf(hand) - {p});
    assert WithCount(CountsOf(hand), 1) == RanksOf(hand) - {p};
  }

  lemma FiveHighCard(hand: set<Card>, ranks: seq<int>)
    requires |hand| == 5 && !AnyFlush(hand) && !Trips(hand) && Straight(hand).None? && Pairs(hand) == {}
    requires Elements(ranks) == RanksOf(hand) && |ranks| == 5
    ensures FiveKey(CountsOf(hand), ranks, false) == SetKey(hand)
  {
    hide SetKey, Cards.DescFrom, HandEvaluator.Groups, HandEvaluator.HighestStraightUpTo;
    NoPairRanks(hand);
    PairsKey(hand);
    CountPositive(hand);
    var groups := HandGroups(hand);
    SizeMeansDistinct(ranks);
    SortOfDistinct(ranks);
    DescProperties(RanksOf(hand));
  }

  /** evaluate_five is the direct key of its five cards. */
  lemma FiveAgrees(cards: seq<Card>)
    requires Distinct(cards) && |cards| == 5
    ensures Elements(cards) != {} && EvaluateFive(cards) == Some(SetKey(Elements(cards)))
  {
    hide SetKey, HandEvaluator.FiveKey;
    var hand := Elements(cards);
    ElementsOfDistinct(cards);
    CounterOfSet(cards);
    RanksElements(cards);
    var suits := set c | c in cards :: c.suit;
    assert suits == set c | c in hand :: c.suit;
    OneSuitMeansFlush(hand, suits);
    if AnyFlush(hand) {
      var s :| Flush(hand, s);
      FiveFlush(hand, s, Ranks(cards));
    } else {
      FivePlain(hand, Ranks(cards));
    }
  }

  // ---------------------------------------------------------------- subsets and maxima

  lemma CombinationsStep<T>(items: seq<T>, k: nat)
    requires k > 0 && items != []
    ensures Combinations(items, k) == PrependAll(items[0], Combinations(items[1..], k - 1)) + Combinations(items[1..], k)
  {}

  lemma DistinctTail<T>(items: seq<T>)
    requires Distinct(items) && items != []
    ensures Distinct(items[1..]) && items[0] !in Elements(items[1..]) && Elements(items) == {items[0]} + Elements(items[1..])
  {
    assert items == [items[0]] + items[1..];
    ElementsCons(items[0], items[1..]);
  }

  lemma PrependedTail<T>(x: T, lists: seq<seq<T>>, pick: seq<T>)
    requires pick in PrependAll(x, lists)
    ensures pick != [] && pick[0] == x && pick[1..] in lists
  {
    var i :| 0 <= i < |lists| && PrependAll(x, lists)[i] == pick;
    assert pick == [x] + lists[i];
    assert pick[1..] == lists[i];
  }

  lemma {:induction false} CombinationIsSubset<T>(items: seq<T>, k: nat, pick: seq<T>)
    requires Distinct(items) && pick in Combinations(items, k)
    ensures |pick| == k && Distinct(pick) && Elements(pick) <= Elements(items)
    decreases |items|
  {
    if k > 0 && items != [] {
      hide PrependAll, Elements, Combinations, Distinct;
      var x, rest := items[0], items[1..];
      DistinctTail(items);
      CombinationsStep(items, k);
      if pick in Combinations(rest, k) {
        CombinationIsSubset(rest, k, pick);
      } else {
        PrependedTail(x, Combinations(rest, k - 1), pick);
        CombinationIsSubset(rest, k - 1, pick[1..]);
        assert pick == [x] + pick[1..];
        ElementsCons(x, pick[1..]);
        DistinctCons(x, pick[1..]);
      }
    }
  }

  lemma PrependMember<T>(x: T, lists: seq<seq<T>>, tail: seq<T>)
    requires tail in lists
    ensures [x] + tail in PrependAll(x, lists)
  {
    var i :| 0 <= i < |lists| && lists[i] == tail;
    assert PrependAll(x, lists)[i] == [x] + tail;
  }

  lemma TakeFirst<T>(items: seq<T>, k: nat, tail: seq<T>)
    requires k > 0 && items != [] && tail in Combinations(items[1..], k - 1)
    ensures [items[0]] + tail in Combinations(items, k) && Elements([items[0]] + tail) == {items[0]} + Elements(tail)
  {
    hide Elements;
    CombinationsStep(items, k);
    PrependMember(items[0], Combinations(items[1..], k - 1), tail);
    ElementsCons(items[0], tail);
  }

  lemma NothingChosen<T>(items: seq<T>)
    ensures [] in Combinations(items, 0) && Elements<T>([]) == {}
  {}

  lemma WithoutFirst<T>(rest: set<T>, chosen: set<T>, x: T)
    requires chosen <= {x} + rest
    ensures x in chosen ==> chosen - {x} <= rest && |chosen - {x}| == |chosen| - 1 && {x} + (chosen - {x}) == chosen
    ensures x !in chosen ==> chosen <= rest
  {}

  /** Every subset of size k is one of the combinations. */
  lemma {:induction false} SubsetIsCombination<T>(items: seq<T>, k: nat, chosen: set<T>) returns (pick: seq<T>)
    requires Distinct(items) && chosen <= Elements(items) && |chosen| == k
    ensures pick in Combinations(items, k) && Elements(pick) == chosen
    decreases |items|
  {
    hide PrependAll, Elements, Distinct, Combinations;
    ElementsEmpty(items);
    if k == 0 {
      pick := [];
      NothingChosen(items);
    } else {
      DistinctTail(items);
      var x, rest := items[0], items[1..];
      WithoutFirst(Elements(rest), chosen, x);
      if x in chosen {
        var tail := SubsetIsCombination(rest, k - 1, chosen - {x});
        pick := [x] + tail;
        TakeFirst(items, k, tail);
      } else {
        pick := SubsetIsCombination(rest, k, chosen);
        CombinationsStep(items, k);
      }
    }
  }

  /** BestOf is attained and bounds every listed hand. */
  lemma {:induction false} BestOfIsMaximum(hands: seq<seq<Card>>) returns (best: seq<Card>)
    requires hands != [] && forall h :: h in hands ==> EvaluateFive(h).Some?
    ensures BestOf(hands).Some? && best in hands && EvaluateFive(best) == BestOf(hands)
    ensures forall h :: h in hands ==> KeyLe(EvaluateFive(h).value, BestOf(hands).value)
  {
    hide EvaluateFive;
    var first := EvaluateFive(hands[0]).value;
    if |hands| == 1 {
      best := hands[0];
      KeyOrder(first, first, first);
    } else {
      var rest := hands[1..];
      assert hands == [hands[0]] + rest;
      var inner := BestOfIsMaximum(rest);
      var k := BestOf(rest).value;
      best := if KeyLe(first, k) then inner else hands[0];
      KeyOrder(first, k, first);
      forall h | h in hands ensures KeyLe(EvaluateFive(h).value, BestOf(hands).value) {
        if h == hands[0] {
          KeyOrder(first, first, first);
        } else {
          assert h in rest;
          KeyOrder(EvaluateFive(h).value, k, first);
          KeyOrder(k, first, first);
        }
      }
    }
  }

  /** Dropping spare cards one at a time ends in five cards with the same key. */
  lemma {:induction false} PlayedCards(hand: set<Card>) returns (five: set<Card>)
    requires 5 <= |hand| <= 7
    ensures five <= hand && |five| == 5 && SetKey(five) == SetKey(hand)
    decreases |hand|
  {
    hide SetKey;
    if |hand| == 5 {
      five := hand;
    } else {
      var x := SpareExists(hand);
      five := PlayedCards(hand - {x});
    }
  }

  lemma BruteForceOfSet(cards: seq<Card>)
    requires Distinct(cards) && 5 <= |cards| <= 7
    ensures Elements(cards) != {} && BruteForceKey(cards) == Some(SetKey(Elements(cards)))
  {
    hide SetKey, EvaluateFive, Elements, Distinct;
    var hand := Elements(cards);
    ElementsOfDistinct(cards);
    var hands := Combinations(cards, 5);
    forall h | h in hands ensures
      |Elements(h)| == 5 && Elements(h) <= hand && EvaluateFive(h) == Some(SetKey(Elements(h)))
      && KeyLe(SetKey(Elements(h)), SetKey(hand))
    {
      CombinationIsSubset(cards, 5, h);
      ElementsOfDistinct(h);
      FiveAgrees(h);
      KeyGrows(Elements(h), hand);
    }
    var five := PlayedCards(hand);
    var pick := SubsetIsCombination(cards, 5, five);
    var best := BestOfIsMaximum(hands);
    KeyOrder(SetKey(hand), SetKey(Elements(best)), SetKey(hand));
  }

  // ---------------------------------------------------------------- main results

  /**
   * On up to seven distinct cards in any order the production evaluator returns exactly the
   * maximum of evaluate_five over all five-card subsets.
   */
  lemma DirectIsBruteForce(cards: seq<Card>)
    requires Distinct(cards) && |cards| <= 7
    ensures BruteForceKey(cards) == Some(BestHandKey(cards))
  {
    hide SetKey;
    if |cards| >= 5 {
      BestHandKeyOfSet(cards);
      BruteForceOfSet(cards);
    }
  }

  lemma SameMultisetSameElements<T>(a: seq<T>, b: seq<T>)
    requires multiset(a) == multiset(b)
    ensures Elements(a) == Elements(b) && |a| == |b|
    ensures Distinct(a) <==> Distinct(b)
  {
    assert |multiset(a)| == |multiset(b)|;
    forall x ensures x in Elements(a) <==> x in Elements(b) {
      assert x in a <==> x in multiset(a);
      assert x in b <==> x in multiset(b);
    }
    DistinctIsSize(a);
    DistinctIsSize(b);
  }

  lemma {:induction false} DistinctIsSize<T>(s: seq<T>)
    ensures Distinct(s) <==> |Elements(s)| == |s|
    ensures |Elements(s)| <= |s|
  {
    if s != [] {
      var x, tail := s[0], s[1..];
      assert s == [x] + tail;
      ElementsCons(x, tail);
      DistinctIsSize(tail);
      if x in Elements(tail) {
        assert {x} + Elements(tail) == Elements(tail);
        var i :| 0 <= i < |tail| && tail[i] == x;
        assert s[0] == s[i + 1];
      } else if Distinct(tail) {
        DistinctCons(x, tail);
      } else {
        var i, j :| 0 <= i < j < |tail| && tail[i] == tail[j];
        assert s[i + 1] == s[j + 1];
      }
    }
  }

  lemma BestHandKeyOfSet(cards: seq<Card>)
    requires Distinct(cards) && |cards| >= 5
    ensures Elements(cards) != {} && BestHandKey(cards) == SetKey(Elements(cards))
  {
    hide SetKey;
    SameMultisetSameElements(cards, SortByName(cards));
    DirectHandKeyOfSet(SortByName(cards));
  }

  /** A sixth or seventh card never lowers the key. */
  lemma KeyNeverDrops(cards: seq<Card>, x: Card)
    requires Distinct(cards) && 5 <= |cards| <= 6 && x !in cards
    ensures KeyLe(BestHandKey(cards), BestHandKey(cards + [x]))
  {
    hide SetKey;
    DistinctSnoc(cards, x);
    ElementsOfDistinct(cards);
    BestHandKeyOfSet(cards);
    BestHandKeyOfSet(cards + [x]);
    KeyGrows(Elements(cards), Elements(cards) + {x});
  }

  lemma DistinctSnoc<T>(s: seq<T>, x: T)
    requires Distinct(s) && x !in s
    ensures Distinct(s + [x]) && Elements(s + [x]) == Elements(s) + {x}
    ensures |Elements(s + [x])| == |s| + 1
  {
    forall i | 0 <= i < |s| ensures s[i] != x { assert s[i] in s; }
    ElementsOfDistinct(s + [x]);
  }

  /** Five of the cards that hold the quads. */
  lemma QuadsInFive(hand: set<Card>, q: int) returns (five: set<Card>)
    requires |hand| >= 5 && Count(hand, q) >= 4
    ensures five <= hand && |five| == 5 && Count(five, q) >= 4
  {
    CountAtMostFour(hand, q);
    if hand <= OfRank(hand, q) { SubsetCardinality(hand, OfRank(hand, q)); }
    var c :| c in hand && c !in OfRank(hand, q);
    five := OfRank(hand, q) + {c};
    assert OfRank(five, q) == OfRank(hand, q);
  }

  /** A flush hides quads from the direct evaluator, but not from the maximum. */
  lemma FlushHidesQuads(cards: seq<Card>, s: int, q: int)
    requires Distinct(cards) && 5 <= |cards| <= 9
    requires Flush(Elements(cards), s) && HighestStraight(SuitRanks(Elements(cards), s)).None?
    requires Count(Elements(cards), q) >= 4
    ensures BruteForceKey(cards).Some? && BruteForceKey(cards).value.category >= 7
    ensures BestHandKey(cards).category == 5
  {
    hide SetKey, EvaluateFive, Elements, Distinct;
    var hand := Elements(cards);
    ElementsOfDistinct(cards);
    BestHandKeyOfSet(cards);
    FlushKey(hand, s);
    var five := QuadsInFive(hand, q);
    var pick := SubsetIsCombination(cards, 5, five);
    forall h | h in Combinations(cards, 5) ensures EvaluateFive(h).Some? {
      CombinationIsSubset(cards, 5, h);
      FiveAgrees(h);
    }
    var best := BestOfIsMaximum(Combinations(cards, 5));
    CombinationIsSubset(cards, 5, pick);
    FiveAgrees(pick);
    CountPositive(five);
    assert Quads(five);
    if AnyFlush(five) { NoFullHandWithFlush(five); }
    QuadsKey(five, q);
  }

  /** Every straight plays a five or a ten. */
  lemma StraightsNeedFiveOrTen(ranks: set<int>)
    requires 5 !in ranks && 10 !in ranks
    ensures HighestStraight(ranks).None?
  {
    forall h | 5 <= h <= 14 ensures 5 in Run(h) || 10 in Run(h) {}
  }

  lemma SharpSuit(hand: set<Card>)
    requires hand == {Card(14, 0), Card(14, 1), Card(14, 2), Card(14, 3),
                      Card(13, 3), Card(12, 3), Card(11, 3), Card(9, 3)}
    ensures Flush(hand, 3) && HighestStraight(SuitRanks(hand, 3)).None? && Count(hand, 14) >= 4
  {
    var suited := {Card(14, 3), Card(13, 3), Card(12, 3), Card(11, 3), Card(9, 3)};
    assert |suited| == 5;
    SubsetCardinality(suited, OfSuit(hand, 3));
    StraightsNeedFiveOrTen(SuitRanks(hand, 3));
    SubsetCardinality({Card(14, 0), Card(14, 1), Card(14, 2), Card(14, 3)}, OfRank(hand, 14));
  }

  /** The bound of seven is sharp: eight distinct cards can hold both. */
  lemma SevenIsSharp(cards: seq<Card>)
    requires cards == [Card(14, 0), Card(14, 1), Card(14, 2), Card(14, 3),
                       Card(13, 3), Card(12, 3), Card(11, 3), Card(9, 3)]
    ensures Distinct(cards) && BruteForceKey(cards) != Some(BestHandKey(cards))
  {
    hide SetKey, EvaluateFive, BestHandKey, BruteForceKey, Flush, SuitRanks, Count;
    var hand := {Card(14, 0), Card(14, 1), Card(14, 2), Card(14, 3),
                 Card(13, 3), Card(12, 3), Card(11, 3), Card(9, 3)};
    assert Elements(cards) == hand;
    SharpSuit(hand);
    hide Elements;
    FlushHidesQuads(cards, 3, 14);
  }
}
