/**
 * One card at a time: adding a sixth or seventh card never lowers the direct key, and a hand of
 * six or seven cards always holds a card whose removal keeps it.
 */
module HandSteps {
  import opened Cards
  import opened HandEvaluator
  import opened HandSets

  // ---------------------------------------------------------------- what a larger hand keeps

  /** Everything a subset has, the larger hand has as well. */
  lemma Larger(hand: set<Card>, more: set<Card>)
    requires hand <= more
    ensures RanksOf(hand) <= RanksOf(more)
    ensures forall r :: Count(hand, r) <= Count(more, r)
    ensures AnyFlush(hand) ==> AnyFlush(more)
    ensures Quads(hand) ==> Quads(more)
    ensures FullHouse(hand) ==> FullHouse(more)
    ensures Trips(hand) ==> Trips(more)
    ensures Straight(hand).Some? ==> Straight(more).Some? && Straight(hand).value <= Straight(more).value
  {
    forall r ensures Count(hand, r) <= Count(more, r) {
      SubsetCardinality(OfRank(hand, r), OfRank(more, r));
    }
    if AnyFlush(hand) {
      var s :| Flush(hand, s);
      SubsetCardinality(OfSuit(hand, s), OfSuit(more, s));
      assert Flush(more, s);
    }
  }

  lemma PairsGrow(hand: set<Card>, more: set<Card>)
    requires hand <= more && !Trips(more)
    ensures Pairs(hand) <= Pairs(more)
    ensures |Pairs(hand)| <= |Pairs(more)|
  {
    Larger(hand, more);
    SubsetCardinality(Pairs(hand), Pairs(more));
  }

  lemma PairsAreRanks(hand: set<Card>)
    ensures RankSet(Pairs(hand)) && RankSet(RanksOf(hand)) && Pairs(hand) <= RanksOf(hand)
  {
    CountPositive(hand);
  }

  // ---------------------------------------------------------------- adding a card

  lemma LexOne(a: int, b: int)
    requires a <= b
    ensures LexLe([a], [b])
  {
    assert [a][1..] == [];
  }

  lemma LexTwo(a: int, b: int, p: int, q: int)
    requires a < p || (a == p && b <= q)
    ensures LexLe([a, b], [p, q])
  {
    assert [a, b][1..] == [b] && [p, q][1..] == [q];
    if a == p { LexOne(b, q); }
  }

  lemma FlushGrows(hand: set<Card>, more: set<Card>)
    requires hand <= more && |hand| <= |more| <= 7 && AnyFlush(hand)
    ensures hand != {} && KeyLe(SetKey(hand), SetKey(more))
  {
    hide SetKey, Cards.DescFrom;
    var s :| Flush(hand, s);
    SubsetCardinality(OfSuit(hand, s), OfSuit(more, s));
    FlushKey(hand, s);
    FlushKey(more, s);
    SuitRanksSize(hand, s);
    SuitRanksSize(more, s);
    assert SuitRanks(hand, s) <= SuitRanks(more, s);
    DescMonotone(SuitRanks(hand, s), SuitRanks(more, s), 5);
    var high, high' := HighestStraight(SuitRanks(hand, s)), HighestStraight(SuitRanks(more, s));
    if high.Some? {
      assert Run(high.value) <= SuitRanks(more, s);
      LexOne(high.value, high'.value);
    }
  }

  function CardsWith(hand: set<Card>, used: set<int>): set<Card> {
    set c | c in hand && c.rank in used
  }

  lemma OtherRankExists(hand: set<Card>, used: set<int>)
    requires |hand| > |CardsWith(hand, used)|
    ensures RanksOf(hand) - used != {}
  {
    var part := CardsWith(hand, used);
    assert hand - part != {} by {
      if hand - part == {} {
        forall c | c in hand ensures c in part {
          assert c !in hand - part;
        }
        SubsetCardinality(hand, part);
        assert false;
      }
    }
    var c := AnyMember(hand - part);
    assert c.rank in RanksOf(hand) - used;
  }

  /** The keys [used] + top k of the remaining ranks grow with the remaining ranks. */
  lemma RestGrows(category: nat, used: seq<int>, rest: set<int>, rest': set<int>, k: nat)
    requires RankSet(rest') && rest <= rest' && k <= |rest|
    ensures KeyLe(Key(category, used + Take(Desc(rest), k)), Key(category, used + Take(Desc(rest'), k)))
  {
    DescMonotone(rest, rest', k);
    LexReflexive(used);
    LexAppend(used, used, Take(Desc(rest), k), Take(Desc(rest'), k));
  }

  lemma QuadsLeaveARank(hand: set<Card>, q: int)
    requires 5 <= |hand|
    ensures |RanksOf(hand) - {q}| >= 1
  {
    CountAtMostFour(hand, q);
    assert CardsWith(hand, {q}) == OfRank(hand, q);
    OtherRankExists(hand, {q});
  }

  lemma QuadsGrow(hand: set<Card>, more: set<Card>)
    requires hand <= more && 5 <= |hand| && |more| <= 7 && !AnyFlush(more) && Quads(hand)
    ensures hand != {} && KeyLe(SetKey(hand), SetKey(more))
  {
    hide SetKey, Cards.DescFrom, Straight, FullHouse, Trips;
    SubsetCardinality(hand, more);
    Larger(hand, more);
    var q :| q in RanksOf(hand) && Count(hand, q) >= 4;
    QuadsKey(hand, q);
    QuadsKey(more, q);
    QuadsLeaveARank(hand, q);
    CountPositive(more);
    hide RanksOf, Count, Cards.KeyLe;
    RestGrows(7, [q], RanksOf(hand) - {q}, RanksOf(more) - {q}, 1);
  }

  lemma FullHouseGrows(hand: set<Card>, more: set<Card>)
    requires hand != {} && hand <= more && |more| <= 7 && !AnyFlush(more) && !Quads(more) && FullHouse(hand)
    ensures KeyLe(SetKey(hand), SetKey(more))
  {
    hide SetKey, Cards.DescFrom;
    SubsetCardinality(hand, more);
    Larger(hand, more);
    var a, b := FullHouseRanks(hand);
    FullHouseKey(hand, a, b);
    var p, q := FullHouseRanks(more);
    FullHouseKey(more, p, q);
    assert Count(more, a) == 3 && a in RanksOf(more);
    assert a <= p;
    if p == a {
      assert b in RanksOf(more);
      assert GroupLe(Group(Count(more, b), b), Group(Count(more, q), q));
      if q < b { ThreeRanks(more, a, b, q); }
    }
    LexTwo(a, b, p, q);
  }

  lemma TripsGrow(hand: set<Card>, more: set<Card>)
    requires hand <= more && 5 <= |hand| && !AnyFlush(more) && !Quads(more) && !FullHouse(more)
    requires Straight(more).None? && Trips(hand)
    ensures hand != {} && KeyLe(SetKey(hand), SetKey(more))
  {
    hide SetKey, Cards.DescFrom;
    Larger(hand, more);
    var t :| t in RanksOf(hand) && Count(hand, t) >= 3;
    TripsKey(hand, t);
    TripsKey(more, t);
    OnlyTripsRepeat(hand, t);
    CountPositive(more);
    RestGrows(3, [t], RanksOf(hand) - {t}, RanksOf(more) - {t}, 2);
  }

  /** Trips that are not part of quads or a full house leave only single cards. */
  lemma OnlyTripsRepeat(hand: set<Card>, t: int)
    requires !Quads(hand) && !FullHouse(hand) && t in RanksOf(hand) && Count(hand, t) >= 3
    ensures Count(hand, t) == 3 && |RanksOf(hand) - {t}| == |hand| - 3
    ensures forall x :: x != t ==> Count(hand, x) <= 1
  {
    CountPositive(hand);
    forall x | x != t ensures Count(hand, x) <= 1 {
      if Count(hand, x) >= 2 { assert x in RanksOf(hand); }
    }
    OnlyOneRepeats(hand, t);
  }

  /** Two cards at most of each rank: the pairs and the single ranks count the cards. */
  lemma TopPairs(hand: set<Card>) returns (p: int, q: int)
    requires |Pairs(hand)| >= 2
    ensures p > q && p in Pairs(hand) && q in Pairs(hand)
    ensures |Desc(Pairs(hand))| >= 2 && Take(Desc(Pairs(hand)), 2) == [p, q]
    ensures Elements(Take(Desc(Pairs(hand)), 2)) == {p, q}
    ensures forall x :: x in Pairs(hand) && x != p ==> x <= q
  {
    hide Cards.DescFrom;
    PairsAreRanks(hand);
    DescProperties(Pairs(hand));
    var pairs := Desc(Pairs(hand));
    p, q := pairs[0], pairs[1];
    assert p in pairs && q in pairs;
    assert pairs[..2] == [p, q];
    forall x | x in Pairs(hand) && x != p ensures x <= q {
      var i :| 0 <= i < |pairs| && pairs[i] == x;
    }
  }

  lemma CardsOfTwoRanks(hand: set<Card>, p: int, q: int)
    requires p != q
    ensures |CardsWith(hand, {p, q})| == Count(hand, p) + Count(hand, q)
  {
    assert CardsWith(hand, {p, q}) == OfRank(hand, p) + OfRank(hand, q);
  }

  lemma TwoPairGrows(hand: set<Card>, more: set<Card>)
    requires hand <= more && 5 <= |hand| && !AnyFlush(more) && !Trips(more) && Straight(more).None?
    requires |Pairs(hand)| >= 2
    ensures hand != {} && KeyLe(SetKey(hand), SetKey(more))
  {
    hide SetKey, Cards.DescFrom;
    Larger(hand, more);
    PairsGrow(hand, more);
    PairsAreRanks(more);
    PairsKey(hand);
    PairsKey(more);
    var p, q := TopPairs(hand);
    var u, v := TopPairs(more);
    DescMonotone(Pairs(hand), Pairs(more), 2);
    var kicker, kicker' := Take(Desc(RanksOf(hand) - {p, q}), 1), Take(Desc(RanksOf(more) - {u, v}), 1);
    if [p, q] == [u, v] {
      CardsOfTwoRanks(hand, p, q);
      OtherRankExists(hand, {p, q});
      assert RanksOf(hand) - {p, q} != {};
      DescMonotone(RanksOf(hand) - {p, q}, RanksOf(more) - {p, q}, 1);
      assert p == [p, q][0] && q == [p, q][1];
    }
    LexAppend([p, q], [u, v], kicker, kicker');
  }

  lemma AtMostPairs(hand: set<Card>)
    requires !Trips(hand)
    ensures forall x :: Count(hand, x) <= if x in Pairs(hand) then 2 else 1
  {
    CountPositive(hand);
    forall x ensures Count(hand, x) <= if x in Pairs(hand) then 2 else 1 {
      assert x in RanksOf(hand) ==> Count(hand, x) < 3;
    }
  }

  lemma OnePairRanks(hand: set<Card>, p: int)
    requires !Trips(hand) && Pairs(hand) == {p}
    ensures |RanksOf(hand) - {p}| == |hand| - 2 && Desc(Pairs(hand)) == [p]
    ensures forall x :: x != p ==> Count(hand, x) <= 1
  {
    hide Cards.DescFrom;
    AtMostPairs(hand);
    assert p in Pairs(hand);
    OnlyOneRepeats(hand, p);
    PairsAreRanks(hand);
    DescProperties(Pairs(hand));
    assert Desc(Pairs(hand))[0] in Desc(Pairs(hand));
  }

  lemma OnePairGrows(hand: set<Card>, more: set<Card>)
    requires hand <= more && 5 <= |hand| && !AnyFlush(more) && !Trips(more) && Straight(more).None?
    requires |Pairs(hand)| == 1 == |Pairs(more)|
    ensures hand != {} && KeyLe(SetKey(hand), SetKey(more))
  {
    hide SetKey, Cards.DescFrom;
    Larger(hand, more);
    PairsGrow(hand, more);
    PairsAreRanks(more);
    SubsetCardinality(Pairs(hand), Pairs(more));
    var p := AnyMember(Pairs(hand));
    SubsetCardinality({p}, Pairs(hand));
    OnePairRanks(hand, p);
    OnePairRanks(more, p);
    PairsKey(hand);
    PairsKey(more);
    RestGrows(1, [p], RanksOf(hand) - {p}, RanksOf(more) - {p}, 3);
  }

  lemma NoPairRanks(hand: set<Card>)
    requires !Trips(hand) && Pairs(hand) == {}
    ensures |RanksOf(hand)| == |hand| && Desc(Pairs(hand)) == []
    ensures forall x :: Count(hand, x) <= 1
  {
    hide Cards.DescFrom;
    AtMostPairs(hand);
    DistinctRanks(hand);
    DescProperties(Pairs(hand));
  }

  lemma HighCardGrows(hand: set<Card>, more: set<Card>)
    requires hand <= more && 5 <= |hand| && !AnyFlush(more) && !Trips(more) && Straight(more).None?
    requires Pairs(more) == {}
    ensures hand != {} && KeyLe(SetKey(hand), SetKey(more))
  {
    hide SetKey, Cards.DescFrom;
    Larger(hand, more);
    PairsGrow(hand, more);
    PairsAreRanks(more);
    NoPairRanks(hand);
    NoPairRanks(more);
    PairsKey(hand);
    PairsKey(more);
    DescMonotone(RanksOf(hand), RanksOf(more), 5);
  }

  lemma StraightGrows(hand: set<Card>, more: set<Card>)
    requires hand != {} && hand <= more && !AnyFlush(more) && !Quads(more) && !FullHouse(more) && Straight(hand).Some?
    ensures KeyLe(SetKey(hand), SetKey(more))
  {
    hide SetKey;
    Larger(hand, more);
    StraightKey(hand);
    StraightKey(more);
    LexOne(Straight(hand).value, Straight(more).value);
  }

  lemma EqualCategoryGrows(hand: set<Card>, more: set<Card>)
    requires hand <= more && 5 <= |hand| && |more| <= 7 && !AnyFlush(more)
    requires hand != {} && SetKey(hand).category == SetKey(more).category
    ensures KeyLe(SetKey(hand), SetKey(more))
  {
    hide SetKey, Cards.DescFrom;
    SubsetCardinality(hand, more);
    Larger(hand, more);
    CategoryWithoutFlush(hand);
    CategoryWithoutFlush(more);
    var category := SetKey(hand).category;
    if category == 7 { QuadsGrow(hand, more); }
    else if category == 6 { FullHouseGrows(hand, more); }
    else if category == 4 { StraightGrows(hand, more); }
    else if category == 3 { TripsGrow(hand, more); }
    else if category == 2 { TwoPairGrows(hand, more); }
    else if category == 1 { OnePairGrows(hand, more); }
    else { HighCardGrows(hand, more); }
  }

  /** A hand of five to seven cards is worth at least as much as any five or more of its cards. */
  lemma KeyGrows(hand: set<Card>, more: set<Card>)
    requires hand <= more && 5 <= |hand| && |more| <= 7
    ensures hand != {} && more != {} && KeyLe(SetKey(hand), SetKey(more))
  {
    hide SetKey, Cards.DescFrom;
    SubsetCardinality(hand, more);
    Larger(hand, more);
    if AnyFlush(hand) {
      FlushGrows(hand, more);
    } else if AnyFlush(more) {
      NoFullHandWithFlush(more);
      CategoryWithoutFlush(hand);
      var s :| Flush(more, s);
      FlushKey(more, s);
    } else {
      CategoryWithoutFlush(hand);
      CategoryWithoutFlush(more);
      if !Trips(more) { PairsGrow(hand, more); }
      if SetKey(hand).category == SetKey(more).category {
        EqualCategoryGrows(hand, more);
      }
    }
  }

  // ---------------------------------------------------------------- removing a card

  /** One card of every rank in the given set. */
  lemma {:induction false} Representatives(hand: set<Card>, ranks: set<int>) returns (keep: set<Card>)
    requires ranks <= RanksOf(hand)
    ensures keep <= hand && |keep| == |ranks| && RanksOf(keep) == ranks
    decreases |ranks|
  {
    if ranks == {} {
      keep := {};
    } else {
      var r := AnyMember(ranks);
      keep := Representatives(hand, ranks - {r});
      var c :| c in hand && c.rank == r;
      assert c in keep ==> c.rank in RanksOf(keep);
      assert RanksOf(keep + {c}) == RanksOf(keep) + {r};
      keep := keep + {c};
    }
  }

  lemma RunSize(high: int)
    requires 5 <= high <= 14
    ensures |Run(high)| == 5
  {}

  /** A card whose removal leaves all five cards of a straight. */
  lemma SpareOfRun(hand: set<Card>, pool: set<Card>, high: int) returns (x: Card, keep: set<Card>)
    requires |hand| > 5 && pool <= hand && 5 <= high <= 14 && Run(high) <= RanksOf(pool)
    ensures x in hand && x !in keep && keep <= pool && |keep| == 5 && RanksOf(keep) == Run(high)
  {
    RunSize(high);
    keep := Representatives(pool, Run(high));
    if hand <= keep { SubsetCardinality(hand, keep); }
    x :| x in hand && x !in keep;
  }

  lemma StraightIs(ranks: set<int>, fewer: set<int>, high: int)
    requires fewer <= ranks && HighestStraight(ranks) == Some(high) && Run(high) <= fewer
    ensures HighestStraight(fewer) == Some(high)
  {
    assert Run(HighestStraight(fewer).value) <= ranks;
  }

  lemma DropFromStraightFlush(hand: set<Card>, s: int) returns (x: Card)
    requires 6 <= |hand| <= 7 && Flush(hand, s) && HighestStraight(SuitRanks(hand, s)).Some?
    ensures x in hand && hand - {x} != {} && SetKey(hand - {x}) == SetKey(hand)
  {
    hide SetKey, Cards.DescFrom, HandEvaluator.HighestStraightUpTo;
    var high := HighestStraight(SuitRanks(hand, s)).value;
    var keep;
    x, keep := SpareOfRun(hand, OfSuit(hand, s), high);
    var less := hand - {x};
    assert keep <= OfSuit(less, s);
    SubsetCardinality(keep, OfSuit(less, s));
    assert RanksOf(keep) <= SuitRanks(less, s) <= SuitRanks(hand, s);
    StraightIs(SuitRanks(hand, s), SuitRanks(less, s), high);
    FlushKey(hand, s);
    FlushKey(less, s);
  }

  lemma DropFromFlush(hand: set<Card>, s: int) returns (x: Card)
    requires 6 <= |hand| <= 7 && Flush(hand, s) && HighestStraight(SuitRanks(hand, s)).None?
    ensures x in hand && hand - {x} != {} && SetKey(hand - {x}) == SetKey(hand)
  {
    hide SetKey, Cards.DescFrom, HandEvaluator.HighestStraightUpTo;
    SuitRanksSize(hand, s);
    var less;
    if exists c :: c in hand && c.suit != s {
      x :| x in hand && x.suit != s;
      less := hand - {x};
      assert OfSuit(less, s) == OfSuit(hand, s);
    } else {
      assert OfSuit(hand, s) == hand;
      var m := LeastMember(SuitRanks(hand, s));
      x :| x in OfSuit(hand, s) && x.rank == m;
      less := hand - {x};
      assert OfSuit(less, s) == less;
      assert SuitRanks(less, s) == SuitRanks(hand, s) - {m};
      DescWithoutLeast(SuitRanks(hand, s), m, 5);
    }
    assert SuitRanks(less, s) <= SuitRanks(hand, s);
    assert HighestStraight(SuitRanks(less, s)).None? by {
      var high := HighestStraight(SuitRanks(less, s));
      if high.Some? { assert Run(high.value) <= SuitRanks(hand, s); }
    }
    FlushKey(hand, s);
    FlushKey(less, s);
  }

  /** A card outside the used ranks whose removal keeps the top k of the remaining ranks. */
  lemma SpareCard(hand: set<Card>, used: set<int>, k: nat) returns (x: Card)
    requires |hand| > |CardsWith(hand, used)| + k && k > 0
    requires k == 1 || forall r :: r !in used ==> Count(hand, r) <= 1
    ensures x in hand && x.rank !in used
    ensures forall r :: r in RanksOf(hand) - used ==> x.rank <= r
    ensures Take(Desc(RanksOf(hand - {x}) - used), k) == Take(Desc(RanksOf(hand) - used), k)
    ensures forall r :: Count(hand - {x}, r) == Count(hand, r) - (if r == x.rank then 1 else 0)
    ensures used <= RanksOf(hand) ==> used <= RanksOf(hand - {x})
  {
    hide Cards.DescFrom;
    OtherRankExists(hand, used);
    CountPositive(hand);
    var rest := RanksOf(hand) - used;
    var m := LeastMember(rest);
    x :| x in hand && x.rank == m;
    var less := hand - {x};
    assert less + {x} == hand;
    CountAdd(less, x);
    CountPositive(less);
    if Count(hand, m) >= 2 {
      assert RanksOf(less) == RanksOf(hand);
    } else {
      assert RanksOf(less) == RanksOf(hand) - {m};
      assert RanksOf(less) - used == rest - {m};
      RestSize(hand, used, m, k);
      DescWithoutLeast(rest, m, k);
    }
  }

  lemma RestSize(hand: set<Card>, used: set<int>, m: int, k: nat)
    requires |hand| > |CardsWith(hand, used)| + k && k > 0
    requires k == 1 || forall r :: r !in used ==> Count(hand, r) <= 1
    requires m in RanksOf(hand) - used && Count(hand, m) == 1
    ensures |RanksOf(hand) - used| > k
  {
    var others := hand - CardsWith(hand, used);
    assert hand == others + CardsWith(hand, used);
    assert RanksOf(others) == RanksOf(hand) - used;
    if k == 1 {
      if others <= OfRank(hand, m) {
        SubsetCardinality(others, OfRank(hand, m));
      }
      var c :| c in others && c !in OfRank(hand, m);
      assert m in RanksOf(others) && c.rank in RanksOf(others);
      SubsetCardinality({m, c.rank as int}, RanksOf(others));
    } else {
      forall r ensures Count(others, r) <= 1 {
        assert OfRank(others, r) == if r in used then {} else OfRank(hand, r);
        assert r !in used ==> Count(hand, r) <= 1;
      }
      DistinctRanks(others);
    }
  }

  /** A hand without quads, full house or flush keeps lacking them when a card leaves. */
  lemma Smaller(hand: set<Card>, x: Card)
    requires x in hand
    ensures var less := hand - {x};
            (AnyFlush(less) ==> AnyFlush(hand)) && (Quads(less) ==> Quads(hand))
            && (FullHouse(less) ==> FullHouse(hand)) && (Trips(less) ==> Trips(hand))
            && (Straight(less).Some? ==> Straight(hand).Some?)
  {
    Larger(hand - {x}, hand);
  }

  lemma DropFromQuads(hand: set<Card>) returns (x: Card)
    requires 6 <= |hand| <= 7 && !AnyFlush(hand) && Quads(hand)
    ensures x in hand && hand - {x} != {} && SetKey(hand - {x}) == SetKey(hand)
  {
    hide SetKey, Cards.DescFrom;
    var q :| q in RanksOf(hand) && Count(hand, q) >= 4;
    CountAtMostFour(hand, q);
    assert CardsWith(hand, {q}) == OfRank(hand, q);
    x := SpareCard(hand, {q}, 1);
    Smaller(hand, x);
    QuadsKey(hand, q);
    QuadsKey(hand - {x}, q);
  }

  /** A card beyond the three and two that play in a full house. */
  lemma SpareOfFullHouse(hand: set<Card>, a: int, b: int) returns (x: Card)
    requires |hand| >= 6 && a != b && Count(hand, a) == 3
    ensures x in hand && x.rank != a && (x.rank == b ==> Count(hand, b) >= 3)
  {
    if exists c :: c in hand && c.rank != a && c.rank != b {
      x :| x in hand && x.rank != a && x.rank != b;
    } else {
      assert hand == CardsWith(hand, {a, b});
      CardsOfTwoRanks(hand, a, b);
      x := AnyMember(OfRank(hand, b));
    }
  }

  lemma DropFromFullHouse(hand: set<Card>) returns (x: Card)
    requires 6 <= |hand| <= 7 && !AnyFlush(hand) && !Quads(hand) && FullHouse(hand)
    ensures x in hand && hand - {x} != {} && SetKey(hand - {x}) == SetKey(hand)
  {
    hide SetKey, Cards.DescFrom, FullHouse, RanksOf, Count;
    var a, b := FullHouseRanks(hand);
    FullHouseKey(hand, a, b);
    x := SpareOfFullHouse(hand, a, b);
    var less := hand - {x};
    assert less + {x} == hand;
    CountAdd(less, x);
    CountPositive(less);
    CountPositive(hand);
    Smaller(hand, x);
    forall r | r in RanksOf(less) && r != a ensures GroupLe(Group(Count(less, r), r), Group(Count(less, b), b)) {
      assert r in RanksOf(hand);
      assert GroupLe(Group(Count(hand, r), r), Group(Count(hand, b), b));
      if x.rank == b && r != b { ThreeRanks(hand, a, b, r); }
    }
    FullHouseKey(less, a, b);
  }

  lemma DropFromStraight(hand: set<Card>) returns (x: Card)
    requires 6 <= |hand| <= 7 && !AnyFlush(hand) && !Quads(hand) && !FullHouse(hand) && Straight(hand).Some?
    ensures x in hand && hand - {x} != {} && SetKey(hand - {x}) == SetKey(hand)
  {
    hide SetKey, Cards.DescFrom, HandEvaluator.HighestStraightUpTo;
    var high := Straight(hand).value;
    var keep;
    x, keep := SpareOfRun(hand, hand, high);
    var less := hand - {x};
    assert keep <= less;
    assert RanksOf(keep) <= RanksOf(less) <= RanksOf(hand);
    StraightIs(RanksOf(hand), RanksOf(less), high);
    Smaller(hand, x);
    assert less != {};
    StraightKey(hand);
    StraightKey(less);
  }

  lemma DropFromTrips(hand: set<Card>) returns (x: Card)
    requires 6 <= |hand| <= 7 && !AnyFlush(hand) && !Quads(hand) && !FullHouse(hand)
    requires Straight(hand).None? && Trips(hand)
    ensures x in hand && hand - {x} != {} && SetKey(hand - {x}) == SetKey(hand)
  {
    hide SetKey, Cards.DescFrom;
    var t :| t in RanksOf(hand) && Count(hand, t) >= 3;
    OnlyTripsRepeat(hand, t);
    assert CardsWith(hand, {t}) == OfRank(hand, t);
    x := SpareCard(hand, {t}, 2);
    Smaller(hand, x);
    TripsKey(hand, t);
    TripsKey(hand - {x}, t);
  }

  lemma PairsWithout(hand: set<Card>, x: Card)
    requires !Trips(hand) && x in hand
    ensures Pairs(hand - {x}) == Pairs(hand) - {x.rank}
  {
    var less := hand - {x};
    assert less + {x} == hand;
    CountAdd(less, x);
    CountPositive(less);
    CountPositive(hand);
    forall r ensures r in Pairs(less) <==> r in Pairs(hand) - {x.rank} {
      assert r in RanksOf(hand) ==> Count(hand, r) < 3;
    }
  }

  /** Losing a card outside the two top pairs keeps them, even when it breaks a third pair. */
  lemma TopPairsStay(hand: set<Card>, x: Card, p: int, q: int)
    requires !Trips(hand) && |Pairs(hand)| >= 2 && x in hand && x.rank !in {p, q}
    requires p != q && p in Pairs(hand) && q in Pairs(hand)
    requires forall r :: r in RanksOf(hand) - {p, q} ==> x.rank <= r
    requires forall r :: r in Pairs(hand) && r != p ==> r <= q
    requires p > q
    ensures |Desc(Pairs(hand - {x}))| >= 2
    ensures Take(Desc(Pairs(hand - {x})), 2) == Take(Desc(Pairs(hand)), 2)
  {
    hide Cards.DescFrom;
    PairsAreRanks(hand);
    PairsWithout(hand, x);
    PairsAreRanks(hand - {x});
    var m: int := x.rank;
    if m in Pairs(hand) {
      forall r | r in Pairs(hand) ensures m <= r {
        if r !in {p, q} { assert r in RanksOf(hand) - {p, q}; }
      }
    }
    assert m !in Pairs(hand) ==> Pairs(hand) - {m} == Pairs(hand);
    hide Pairs, Count, RanksOf, Trips;
    if m in Pairs(hand) {
      assert |{p, q, m}| == 3;
      SubsetCardinality({p, q, m}, Pairs(hand));
      DescWithoutLeast(Pairs(hand), m, 2);
    }
    DescProperties(Pairs(hand - {x}));
  }

  lemma DropFromTwoPair(hand: set<Card>) returns (x: Card)
    requires 6 <= |hand| <= 7 && !AnyFlush(hand) && !Trips(hand) && Straight(hand).None? && |Pairs(hand)| >= 2
    ensures x in hand && hand - {x} != {} && SetKey(hand - {x}) == SetKey(hand)
  {
    hide SetKey, Cards.DescFrom, RanksOf;
    var p, q := TopPairs(hand);
    CardsOfTwoRanks(hand, p, q);
    x := SpareCard(hand, {p, q}, 1);
    Smaller(hand, x);
    TopPairsStay(hand, x, p, q);
    PairsAreRanks(hand);
    DescProperties(Pairs(hand));
    PairsKey(hand);
    PairsKey(hand - {x});
  }

  lemma DropFromOnePair(hand: set<Card>) returns (x: Card)
    requires 6 <= |hand| <= 7 && !AnyFlush(hand) && !Trips(hand) && Straight(hand).None? && |Pairs(hand)| == 1
    ensures x in hand && hand - {x} != {} && SetKey(hand - {x}) == SetKey(hand)
  {
    hide SetKey, Cards.DescFrom;
    var p := AnyMember(Pairs(hand));
    SubsetCardinality({p}, Pairs(hand));
    OnePairRanks(hand, p);
    assert CardsWith(hand, {p}) == OfRank(hand, p);
    x := SpareCard(hand, {p}, 3);
    var less := hand - {x};
    Smaller(hand, x);
    PairsWithout(hand, x);
    assert Pairs(less) == {p};
    OnePairRanks(less, p);
    hide RanksOf, Count, Pairs;
    PairsKey(hand);
    PairsKey(less);
  }

  lemma SpareOfHighCard(hand: set<Card>) returns (x: Card)
    requires 6 <= |hand| && !Trips(hand) && Pairs(hand) == {}
    ensures x in hand && Pairs(hand - {x}) == {}
    ensures Take(Desc(RanksOf(hand - {x})), 5) == Take(Desc(RanksOf(hand)), 5)
  {
    hide Cards.DescFrom;
    NoPairRanks(hand);
    PairsAreRanks(hand);
    var m := LeastMember(RanksOf(hand));
    x :| x in hand && x.rank == m;
    var less := hand - {x};
    assert less + {x} == hand;
    CountAdd(less, x);
    CountPositive(less);
    assert RanksOf(less) == RanksOf(hand) - {m};
    PairsWithout(hand, x);
    assert Pairs(less) == {};
    hide RanksOf, Count, Pairs, Trips, OfRank;
    DescWithoutLeast(RanksOf(hand), m, 5);
  }

  lemma DropFromHighCard(hand: set<Card>) returns (x: Card)
    requires 6 <= |hand| <= 7 && !AnyFlush(hand) && !Trips(hand) && Straight(hand).None? && Pairs(hand) == {}
    ensures x in hand && hand - {x} != {} && SetKey(hand - {x}) == SetKey(hand)
  {
    hide SetKey, Cards.DescFrom, RanksOf, Count, Pairs, Straight;
    x := SpareOfHighCard(hand);
    Smaller(hand, x);
    assert |hand - {x}| == |hand| - 1;
    DescProperties({});
    PairsKey(hand);
    PairsKey(hand - {x});
  }

  /** Six and seven cards always hold a spare card. */
  lemma SpareExists(hand: set<Card>) returns (x: Card)
    requires 6 <= |hand| <= 7
    ensures x in hand && hand - {x} != {} && SetKey(hand - {x}) == SetKey(hand)
  {
    hide SetKey, Cards.DescFrom;
    if AnyFlush(hand) {
      var s :| Flush(hand, s);
      if HighestStraight(SuitRanks(hand, s)).Some? {
        x := DropFromStraightFlush(hand, s);
      } else {
        x := DropFromFlush(hand, s);
      }
    } else if Quads(hand) {
      x := DropFromQuads(hand);
    } else if FullHouse(hand) {
      x := DropFromFullHouse(hand);
    } else if Straight(hand).Some? {
      x := DropFromStraight(hand);
    } else if Trips(hand) {
      x := DropFromTrips(hand);
    } else if |Pairs(hand)| >= 2 {
      x := DropFromTwoPair(hand);
    } else if |Pairs(hand)| == 1 {
      x := DropFromOnePair(hand);
    } else {
      x := DropFromHighCard(hand);
    }
  }
}
