/** The short hands of fewer than five cards, in terms of the card set alone. */
module HandShort {
  import opened Cards
  import opened HandEvaluator
  import opened HandSets
  import opened HandSteps
  import opened HandTheorems

  /** The category of a hand that is too small for straights and flushes. */
  function ShortCategory(hand: set<Card>): nat {
    if Quads(hand) then 7
    else if Trips(hand) then 3
    else if |Pairs(hand)| >= 2 then 2
    else if |Pairs(hand)| == 1 then 1
    else 0
  }

  /** The tie breakers: the rank of the quads or trips, the paired ranks, or else all ranks, greatest first. */
  predicate ShortTies(hand: set<Card>, ties: seq<int>) {
    if Trips(hand) then |ties| == 1 && Count(hand, ties[0]) >= 3
    else if Pairs(hand) != {} then RankSet(Pairs(hand)) && ties == Desc(Pairs(hand))
    else RankSet(RanksOf(hand)) && ties == Desc(RanksOf(hand))
  }

  /** With at most four cards only one rank occurs three times, and two pairs leave nothing else. */
  lemma SmallGroups(hand: set<Card>)
    requires |hand| <= 4
    ensures forall a, b :: Count(hand, a) >= 3 && Count(hand, b) >= 2 ==> a == b
    ensures |Pairs(hand)| <= 2
  {
    forall a, b | a != b ensures Count(hand, a) + Count(hand, b) <= |hand| { TwoRanks(hand, a, b); }
    if |Pairs(hand)| > 2 {
      var p := AnyMember(Pairs(hand));
      var others := Pairs(hand) - {p};
      assert |others| >= 2;
      assert others != {};
      var q := AnyMember(others);
      var rest := others - {q};
      assert |rest| >= 1;
      assert rest != {};
      var r := AnyMember(rest);
      ThreeRanks(hand, p, q, r);
      assert false;
    }
  }

  lemma NoShortCards()
    ensures BestHandKey([]) == Key(0, []) && RanksOf({}) == {} && Pairs({}) == {} && !Trips({}) && !Quads({})
    ensures Desc({}) == []
  {
    DescProperties({});
    assert Counter(Ranks([])) == map[];
  }

  /** The groups that the short form reads. */
  lemma ShortGroups(cards: seq<Card>) returns (groups: seq<Group>)
    requires Distinct(cards) && 1 <= |cards| <= 4
    ensures Elements(cards) != {} && |Elements(cards)| == |cards|
    ensures groups == Groups(CountsOf(Elements(cards))) && |groups| == |RanksOf(Elements(cards))| > 0
    ensures groups[0].rank in RanksOf(Elements(cards)) && groups[0].count == Count(Elements(cards), groups[0].rank)
    ensures forall x :: x in RanksOf(Elements(cards)) ==> GroupLe(Group(Count(Elements(cards), x), x), groups[0])
    ensures BestHandKey(cards)
         == if groups[0].count >= 4 then Key(7, [groups[0].rank])
            else if groups[0].count == 3 then Key(3, [groups[0].rank])
            else if |groups| > 1 && groups[0].count == 2 && groups[1].count == 2 then Key(2, SortDesc([groups[0].rank, groups[1].rank]))
            else if groups[0].count == 2 then Key(1, [groups[0].rank])
            else Key(0, SortDesc(Ranks(cards)))
  {
    ElementsEmpty(cards);
    ElementsOfDistinct(cards);
    CounterOfSet(cards);
    groups := HandGroups(Elements(cards));
    hide Groups, CountsOf, Counter, SortDesc, Count, RanksOf;
  }

  lemma ShortTrips(cards: seq<Card>)
    requires Distinct(cards) && 1 <= |cards| <= 4 && Trips(Elements(cards))
    ensures BestHandKey(cards).category == ShortCategory(Elements(cards))
    ensures ShortTies(Elements(cards), BestHandKey(cards).ties)
  {
    var hand := Elements(cards);
    var groups := ShortGroups(cards);
    hide BestHandKey, Groups, CountsOf, Count, RanksOf, SortDesc;
    var t :| t in RanksOf(hand) && Count(hand, t) >= 3;
    assert groups[0].count >= 3;
  }

  lemma ShortOnePair(cards: seq<Card>, p: int)
    requires Distinct(cards) && 1 <= |cards| <= 4 && !Trips(Elements(cards)) && Pairs(Elements(cards)) == {p}
    ensures BestHandKey(cards) == Key(1, [p]) && RankSet(Pairs(Elements(cards))) && Desc(Pairs(Elements(cards))) == [p]
  {
    var hand := Elements(cards);
    var groups := ShortGroups(cards);
    OneGroupOfTwo(hand, p, groups);
    PairsAreRanks(hand);
    OnePairRanks(hand, p);
    hide BestHandKey, Groups, CountsOf, Count, RanksOf, SortDesc, Pairs, Trips;
  }

  lemma ShortTwoPairs(cards: seq<Card>)
    requires Distinct(cards) && 1 <= |cards| <= 4 && !Trips(Elements(cards)) && |Pairs(Elements(cards))| == 2
    ensures RankSet(Pairs(Elements(cards))) && BestHandKey(cards) == Key(2, Desc(Pairs(Elements(cards))))
  {
    var hand := Elements(cards);
    var groups := ShortGroups(cards);
    var p, q := TopPairs(hand);
    var two := TwoPairGroups(hand, p, q);
    SubsetCardinality({p, q}, Pairs(hand));
    TwoPairsDescend(hand, p, q);
    hide BestHandKey, Groups, CountsOf, Count, RanksOf, SortDesc, Pairs, Trips;
  }

  lemma ShortPairs(cards: seq<Card>)
    requires Distinct(cards) && 1 <= |cards| <= 4 && !Trips(Elements(cards)) && |Pairs(Elements(cards))| >= 1
    ensures BestHandKey(cards).category == ShortCategory(Elements(cards))
    ensures ShortTies(Elements(cards), BestHandKey(cards).ties)
  {
    var hand := Elements(cards);
    ElementsOfDistinct(cards);
    SmallGroups(hand);
    assert Quads(hand) ==> Trips(hand);
    hide BestHandKey, Quads, Trips;
    if |Pairs(hand)| == 1 {
      var p := AnyMember(Pairs(hand));
      SubsetCardinality({p}, Pairs(hand));
      ShortOnePair(cards, p);
    } else {
      ShortTwoPairs(cards);
    }
  }

  lemma OneGroupOfTwo(hand: set<Card>, p: int, groups: seq<Group>)
    requires hand != {} && !Trips(hand) && Pairs(hand) == {p} && groups == Groups(CountsOf(hand))
    ensures |groups| > 0 && groups[0] == Group(2, p) && (|groups| > 1 ==> groups[1].count == 1)
  {
    var g := HandGroups(hand);
    AtMostPairs(hand);
    assert p in Pairs(hand);
    assert GroupLe(Group(Count(hand, p), p), g[0]);
    hide Groups, CountsOf, Count;
    CountPositive(hand);
    assert |g| > 1 ==> g[1].rank != p;
  }

  lemma TwoPairsDescend(hand: set<Card>, p: int, q: int)
    requires p > q && Pairs(hand) == {p, q}
    ensures RankSet(Pairs(hand)) && SortDesc([p, q]) == Desc(Pairs(hand))
  {
    PairsAreRanks(hand);
    assert Elements([p, q]) == {p, q};
    SortOfDistinct([p, q]);
  }

  lemma ShortRanks(cards: seq<Card>)
    requires Distinct(cards) && 1 <= |cards| <= 4 && !Trips(Elements(cards)) && Pairs(Elements(cards)) == {}
    ensures BestHandKey(cards).category == ShortCategory(Elements(cards))
    ensures ShortTies(Elements(cards), BestHandKey(cards).ties)
  {
    var hand := Elements(cards);
    var groups := ShortGroups(cards);
    NoPairRanks(hand);
    CountPositive(hand);
    RanksElements(cards);
    SizeMeansDistinct(Ranks(cards));
    SortOfDistinct(Ranks(cards));
    assert Count(hand, groups[0].rank) <= 1;
    assert !Quads(hand);
  }

  /** Fewer than five distinct cards: the key names quads, trips, the pairs or the ranks of the hand. */
  lemma ShortHandKey(cards: seq<Card>)
    requires Distinct(cards) && |cards| <= 4
    ensures BestHandKey(cards).category == ShortCategory(Elements(cards))
    ensures ShortTies(Elements(cards), BestHandKey(cards).ties)
  {
    var hand := Elements(cards);
    CounterOfSet(cards);
    CountPositive(hand);
    if hand == {} {
      ElementsEmpty(cards);
      NoShortCards();
    } else {
      ElementsEmpty(cards);
      ElementsOfDistinct(cards);
      if Trips(hand) {
        ShortTrips(cards);
      } else if |Pairs(hand)| >= 1 {
        ShortPairs(cards);
      } else {
        ShortRanks(cards);
      }
    }
  }
}
