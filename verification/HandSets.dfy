/** The direct evaluator seen as a function of the set of cards, and its key per category. */
module HandSets {
  import opened Cards
  import opened HandEvaluator

  function OfRank(hand: set<Card>, r: int): set<Card> {
    set c | c in hand && c.rank == r
  }

  function OfSuit(hand: set<Card>, s: int): set<Card> {
    set c | c in hand && c.suit == s
  }

  function Count(hand: set<Card>, r: int): nat {
    |OfRank(hand, r)|
  }

  function RanksOf(hand: set<Card>): set<int> {
    set c | c in hand :: c.rank
  }

  function SuitRanks(hand: set<Card>, s: int): set<int> {
    RanksOf(OfSuit(hand, s))
  }

  function CountsOf(hand: set<Card>): (counts: map<int, nat>)
    ensures RankCounts(counts)
    ensures hand != {} ==> counts.Keys != {}
  {
    CountPositive(hand);
    RanksNotEmpty(hand);
    var counts := map r | r in RanksOf(hand) :: Count(hand, r);
    assert counts.Keys == RanksOf(hand);
    counts
  }

  lemma RanksNotEmpty(hand: set<Card>)
    ensures hand != {} ==> RanksOf(hand) != {}
  {
    if hand != {} {
      var c := AnyMember(hand);
      assert c.rank in RanksOf(hand);
    }
  }

  predicate Flush(hand: set<Card>, s: int) {
    0 <= s <= 3 && |OfSuit(hand, s)| >= 5
  }

  function FlushSuitOf(hand: set<Card>, s: int): (suit: Option<int>)
    requires 0 <= s
    ensures suit.Some? ==> Flush(hand, suit.value)
    ensures suit.None? ==> forall t :: s <= t <= 3 ==> !Flush(hand, t)
    decreases 4 - s
  {
    if s > 3 then None else if Flush(hand, s) then Some(s) else FlushSuitOf(hand, s + 1)
  }

  function FlushOf(hand: set<Card>): Option<seq<int>> {
    var suit := FlushSuitOf(hand, 0);
    if suit.None? then None else Some(Desc(SuitRanks(hand, suit.value)))
  }

  function SetKey(hand: set<Card>): Key
    requires hand != {}
  {
    DirectKey(CountsOf(hand), FlushOf(hand))
  }

  // ---------------------------------------------------------------- counting

  lemma CountPositive(hand: set<Card>)
    ensures forall r :: r in RanksOf(hand) <==> Count(hand, r) > 0
    ensures RankSet(RanksOf(hand))
  {
    forall r ensures r in RanksOf(hand) <==> Count(hand, r) > 0 {
      if r in RanksOf(hand) {
        var c :| c in hand && c.rank == r;
        assert c in OfRank(hand, r);
      } else if OfRank(hand, r) != {} {
        var c := AnyMember(OfRank(hand, r));
        assert false;
      }
    }
  }

  lemma CountAdd(hand: set<Card>, x: Card)
    requires x !in hand
    ensures forall r :: Count(hand + {x}, r) == Count(hand, r) + (if r == x.rank then 1 else 0)
    ensures RanksOf(hand + {x}) == RanksOf(hand) + {x.rank}
  {
    forall r ensures Count(hand + {x}, r) == Count(hand, r) + (if r == x.rank then 1 else 0) {
      assert OfRank(hand + {x}, r) == OfRank(hand, r) + (if r == x.rank then {x} else {});
    }
  }

  lemma CountAtMostFour(hand: set<Card>, r: int)
    ensures Count(hand, r) <= 4
  {
    if 2 <= r <= 14 {
      SubsetCardinality(OfRank(hand, r), {Card(r, 0), Card(r, 1), Card(r, 2), Card(r, 3)});
    } else {
      assert OfRank(hand, r) == {};
    }
  }

  lemma ThreeRanks(hand: set<Card>, a: int, b: int, d: int)
    requires a != b && b != d && a != d
    ensures Count(hand, a) + Count(hand, b) + Count(hand, d) <= |hand|
  {
    var part := OfRank(hand, a) + OfRank(hand, b) + OfRank(hand, d);
    assert |part| == Count(hand, a) + Count(hand, b) + Count(hand, d);
    SubsetCardinality(part, hand);
  }

  lemma TwoRanks(hand: set<Card>, a: int, b: int)
    requires a != b
    ensures Count(hand, a) + Count(hand, b) <= |hand|
  {
    SubsetCardinality(OfRank(hand, a) + OfRank(hand, b), hand);
  }

  function UpTo(hand: set<Card>, r: int): set<Card> {
    set c | c in hand && c.rank <= r
  }

  function Excess(hand: set<Card>, a: int): nat {
    if Count(hand, a) > 1 then Count(hand, a) - 1 else 0
  }

  lemma UpToStep(hand: set<Card>, r: int)
    ensures |UpTo(hand, r)| == |UpTo(hand, r - 1)| + Count(hand, r)
    ensures |Below(RanksOf(hand), r)| == |Below(RanksOf(hand), r - 1)| + (if Count(hand, r) > 0 then 1 else 0)
  {
    CountPositive(hand);
    assert UpTo(hand, r) == UpTo(hand, r - 1) + OfRank(hand, r);
    assert Below(RanksOf(hand), r)
        == Below(RanksOf(hand), r - 1) + (if r in RanksOf(hand) then {r} else {});
  }

  lemma UpToNone(hand: set<Card>, r: int)
    requires r < 2
    ensures |UpTo(hand, r)| == 0 && |Below(RanksOf(hand), r)| == 0 && Count(hand, r) == 0
  {
    CountPositive(hand);
    assert UpTo(hand, r) == {} && Below(RanksOf(hand), r) == {} && OfRank(hand, r) == {};
  }

  lemma {:induction false} ExcessUpTo(hand: set<Card>, a: int, b: int, r: int)
    requires a != b
    ensures |UpTo(hand, r)| >= |Below(RanksOf(hand), r)|
              + (if a <= r then Excess(hand, a) else 0) + (if b <= r then Excess(hand, b) else 0)
    decreases r
  {
    if r < 2 {
      UpToNone(hand, r);
      if a <= r { UpToNone(hand, a); }
      if b <= r { UpToNone(hand, b); }
    } else {
      ExcessUpTo(hand, a, b, r - 1);
      UpToStep(hand, r);
    }
  }

  /** Every repeated rank costs cards that could have carried further ranks. */
  lemma ExcessBound(hand: set<Card>, a: int, b: int)
    requires a != b
    ensures |hand| >= |RanksOf(hand)| + Excess(hand, a) + Excess(hand, b)
  {
    CountPositive(hand);
    ExcessUpTo(hand, a, b, 14);
    assert UpTo(hand, 14) == hand && Below(RanksOf(hand), 14) == RanksOf(hand);
    if a > 14 { assert OfRank(hand, a) == {}; }
    if b > 14 { assert OfRank(hand, b) == {}; }
  }

  lemma {:induction false} DistinctRanksUpTo(hand: set<Card>, r: int)
    requires forall x :: Count(hand, x) <= 1
    ensures |UpTo(hand, r)| == |Below(RanksOf(hand), r)|
    decreases r
  {
    if r < 2 {
      UpToNone(hand, r);
    } else {
      DistinctRanksUpTo(hand, r - 1);
      UpToStep(hand, r);
    }
  }

  lemma DistinctRanks(hand: set<Card>)
    requires forall x :: Count(hand, x) <= 1
    ensures |hand| == |RanksOf(hand)|
  {
    CountPositive(hand);
    DistinctRanksUpTo(hand, 14);
    assert UpTo(hand, 14) == hand && Below(RanksOf(hand), 14) == RanksOf(hand);
  }

  /** When only rank t repeats, the other ranks are as many as the other cards. */
  lemma OnlyOneRepeats(hand: set<Card>, t: int)
    requires forall x :: x != t ==> Count(hand, x) <= 1
    ensures |RanksOf(hand) - {t}| == |hand| - Count(hand, t)
  {
    var others := hand - OfRank(hand, t);
    forall x ensures Count(others, x) <= 1 {
      assert OfRank(others, x) == if x == t then {} else OfRank(hand, x);
      assert x != t ==> Count(hand, x) <= 1;
    }
    DistinctRanks(others);
    assert RanksOf(others) == RanksOf(hand) - {t};
  }

  lemma SuitRanksSize(hand: set<Card>, s: int)
    ensures |SuitRanks(hand, s)| == |OfSuit(hand, s)|
    ensures SuitRanks(hand, s) <= RanksOf(hand)
    ensures RankSet(SuitRanks(hand, s))
  {
    var suited := OfSuit(hand, s);
    CountPositive(suited);
    forall r ensures Count(suited, r) <= 1 {
      if 2 <= r <= 14 && 0 <= s <= 3 {
        SubsetCardinality(OfRank(suited, r), {Card(r, s)});
      } else {
        assert OfRank(suited, r) == {};
      }
    }
    DistinctRanks(suited);
  }

  // ---------------------------------------------------------------- made hands

  predicate Quads(hand: set<Card>) {
    exists q :: q in RanksOf(hand) && Count(hand, q) >= 4
  }

  predicate FullHouse(hand: set<Card>) {
    exists a, b :: a in RanksOf(hand) && b in RanksOf(hand) && a != b && Count(hand, a) >= 3 && Count(hand, b) >= 2
  }

  predicate Trips(hand: set<Card>) {
    exists t :: t in RanksOf(hand) && Count(hand, t) >= 3
  }

  function Pairs(hand: set<Card>): set<int> {
    set r | r in RanksOf(hand) && Count(hand, r) == 2
  }

  function Straight(hand: set<Card>): Option<int> {
    HighestStraight(RanksOf(hand))
  }

  ghost predicate AnyFlush(hand: set<Card>) {
    exists s :: Flush(hand, s)
  }

  /** At most seven cards cannot hold a flush together with quads or a full house. */
  lemma NoFullHandWithFlush(hand: set<Card>)
    requires |hand| <= 7 && AnyFlush(hand)
    ensures !Quads(hand) && !FullHouse(hand)
  {
    var s :| Flush(hand, s);
    SuitRanksSize(hand, s);
    SubsetCardinality(SuitRanks(hand, s), RanksOf(hand));
    if Quads(hand) {
      var q :| q in RanksOf(hand) && Count(hand, q) >= 4;
      ExcessBound(hand, q, q + 1);
      assert false;
    }
    if FullHouse(hand) {
      var a, b :| a in RanksOf(hand) && b in RanksOf(hand) && a != b && Count(hand, a) >= 3 && Count(hand, b) >= 2;
      ExcessBound(hand, a, b);
      assert false;
    }
  }

  lemma OneFlushSuit(hand: set<Card>, s: int)
    requires |hand| <= 9 && Flush(hand, s)
    ensures FlushSuitOf(hand, 0) == Some(s)
  {
    var t := FlushSuitOf(hand, 0);
    assert t.Some?;
    if t.value != s {
      var both := OfSuit(hand, s) + OfSuit(hand, t.value);
      assert |both| == |OfSuit(hand, s)| + |OfSuit(hand, t.value)|;
      SubsetCardinality(both, hand);
      assert false;
    }
  }

  // ---------------------------------------------------------------- the key of each category

  /** groups[0] and groups[1] are the greatest and second greatest (count, rank) pairs. */
  lemma FirstGroups(counts: map<int, nat>) returns (groups: seq<Group>)
    requires RankCounts(counts) && counts.Keys != {}
    ensures groups == Groups(counts)
    ensures |groups| == |counts.Keys| > 0
    ensures groups[0].rank in counts && groups[0].count == counts[groups[0].rank]
    ensures forall x :: x in counts ==> GroupLe(Group(counts[x], x), groups[0])
    ensures |groups| > 1 ==> groups[1].rank in counts && groups[1].rank != groups[0].rank
                             && groups[1].count == counts[groups[1].rank]
    ensures |groups| > 1 ==> forall x :: x in counts && x != groups[0].rank ==> GroupLe(Group(counts[x], x), groups[1])
  {
    var keys := counts.Keys;
    GroupsAmongLength(counts, keys);
    groups := Groups(counts);
    var rest := keys - {Top(counts, keys).rank};
    if rest != {} {
      assert GroupsAmong(counts, rest)[0] == Top(counts, rest);
      assert groups[1] == Top(counts, rest);
    }
  }

  lemma PlainKeyOf(hand: set<Card>)
    requires hand != {} && !AnyFlush(hand)
    ensures SetKey(hand) == PlainHandKey(Groups(CountsOf(hand)), RanksOf(hand), Desc(Pairs(hand)))
  {
    hide HandEvaluator.PlainHandKey, HandEvaluator.FlushHandKey, Cards.DescFrom, HandEvaluator.GroupsAmong;
    var counts := CountsOf(hand);
    assert counts.Keys == RanksOf(hand);
    assert WithCount(counts, 2) == Pairs(hand);
    assert FlushOf(hand).None?;
    assert SetKey(hand) == DirectKey(counts, FlushOf(hand));
  }

  /** The first two groups of a hand without a flush, in terms of its rank counts. */
  lemma PlainKey(hand: set<Card>) returns (groups: seq<Group>)
    requires hand != {} && !AnyFlush(hand)
    ensures |groups| == |RanksOf(hand)| > 0
    ensures SetKey(hand) == PlainHandKey(groups, RanksOf(hand), Desc(Pairs(hand)))
    ensures groups[0].rank in RanksOf(hand) && groups[0].count == Count(hand, groups[0].rank)
    ensures forall x :: x in RanksOf(hand) ==> GroupLe(Group(Count(hand, x), x), groups[0])
    ensures |groups| > 1 ==> groups[1].rank in RanksOf(hand) && groups[1].rank != groups[0].rank
                             && groups[1].count == Count(hand, groups[1].rank)
    ensures |groups| > 1 ==> forall x :: x in RanksOf(hand) && x != groups[0].rank ==> GroupLe(Group(Count(hand, x), x), groups[1])
  {
    hide SetKey, HandEvaluator.PlainHandKey, HandEvaluator.GroupsAmong, Cards.DescFrom;
    var counts := CountsOf(hand);
    assert counts.Keys == RanksOf(hand);
    groups := FirstGroups(counts);
    PlainKeyOf(hand);
    forall x | x in RanksOf(hand) ensures counts[x] == Count(hand, x) {}
  }

  lemma FlushRanksOf(hand: set<Card>, s: int)
    requires |hand| <= 9 && Flush(hand, s)
    ensures hand != {} && SetKey(hand) == FlushHandKey(Desc(SuitRanks(hand, s)))
  {
    OneFlushSuit(hand, s);
    assert hand != {} by { assert OfSuit(hand, s) <= hand; }
    assert FlushOf(hand) == Some(Desc(SuitRanks(hand, s)));
  }

  lemma FlushKey(hand: set<Card>, s: int)
    requires |hand| <= 9 && Flush(hand, s)
    ensures hand != {}
    ensures var high := HighestStraight(SuitRanks(hand, s));
            SetKey(hand) == if high.Some? then Key(8, [high.value]) else Key(5, Take(Desc(SuitRanks(hand, s)), 5))
  {
    hide SetKey, Cards.DescFrom, HandEvaluator.HighestStraightUpTo;
    FlushRanksOf(hand, s);
    SuitRanksSize(hand, s);
    DescProperties(SuitRanks(hand, s));
    assert Elements(Desc(SuitRanks(hand, s))) == SuitRanks(hand, s);
  }

  lemma QuadsKey(hand: set<Card>, q: int)
    requires |hand| <= 7 && !AnyFlush(hand) && Count(hand, q) >= 4
    ensures hand != {} && SetKey(hand) == Key(7, [q] + Take(Desc(RanksOf(hand) - {q}), 1))
  {
    CountPositive(hand);
    assert hand != {} by { assert OfRank(hand, q) <= hand; }
    var groups := PlainKey(hand);
    CountAtMostFour(hand, groups[0].rank);
    assert GroupLe(Group(Count(hand, q), q), groups[0]);
    if groups[0].rank != q {
      TwoRanks(hand, q, groups[0].rank);
      assert false;
    }
  }

  lemma FullHouseKey(hand: set<Card>, a: int, b: int)
    requires |hand| <= 7 && !AnyFlush(hand) && !Quads(hand) && a != b
    requires a in RanksOf(hand) && Count(hand, a) == 3
    requires forall x :: x in RanksOf(hand) && Count(hand, x) == 3 ==> x <= a
    requires b in RanksOf(hand) && Count(hand, b) >= 2
    requires forall x :: x in RanksOf(hand) && x != a ==> GroupLe(Group(Count(hand, x), x), Group(Count(hand, b), b))
    ensures hand != {} && SetKey(hand) == Key(6, [a, b])
  {
    assert hand != {};
    var groups := PlainKey(hand);
    assert GroupLe(Group(Count(hand, a), a), groups[0]);
    assert groups[0] == Group(3, a);
    SubsetCardinality({a, b}, RanksOf(hand));
    assert GroupLe(Group(Count(hand, b), b), groups[1]);
    assert groups[1] == Group(Count(hand, b), b);
  }

  /** The groups of a hand that is neither quads nor a full house. */
  lemma WeakPlainKey(hand: set<Card>) returns (groups: seq<Group>)
    requires hand != {} && !AnyFlush(hand) && !Quads(hand) && !FullHouse(hand)
    ensures |groups| > 0 && groups[0].count < 4 && !(groups[0].count == 3 && |groups| > 1 && groups[1].count >= 2)
    ensures SetKey(hand) == PlainHandKey(groups, RanksOf(hand), Desc(Pairs(hand)))
    ensures if Trips(hand) then groups[0].count == 3 else groups[0].count < 3
    ensures groups[0].rank in RanksOf(hand) && groups[0].count == Count(hand, groups[0].rank)
  {
    groups := PlainKey(hand);
    if Trips(hand) {
      var t :| t in RanksOf(hand) && Count(hand, t) >= 3;
      assert GroupLe(Group(Count(hand, t), t), groups[0]);
    }
  }

  lemma StraightKey(hand: set<Card>)
    requires hand != {} && !AnyFlush(hand) && !Quads(hand) && !FullHouse(hand) && Straight(hand).Some?
    ensures SetKey(hand) == Key(4, [Straight(hand).value])
  {
    var groups := WeakPlainKey(hand);
  }

  lemma TripsKey(hand: set<Card>, t: int)
    requires !AnyFlush(hand) && !Quads(hand) && !FullHouse(hand) && Straight(hand).None?
    requires t in RanksOf(hand) && Count(hand, t) >= 3
    ensures hand != {} && SetKey(hand) == Key(3, [t] + Take(Desc(RanksOf(hand) - {t}), 2))
  {
    assert hand != {};
    var groups := WeakPlainKey(hand);
    assert groups[0].rank == t;
  }

  lemma PairsKey(hand: set<Card>)
    requires hand != {} && !AnyFlush(hand) && !Trips(hand) && Straight(hand).None?
    ensures var pairs := Desc(Pairs(hand));
            SetKey(hand) ==
            if |pairs| >= 2 then Key(2, Take(pairs, 2) + Take(Desc(RanksOf(hand) - Elements(Take(pairs, 2))), 1))
            else if |pairs| > 0 then Key(1, [pairs[0]] + Take(Desc(RanksOf(hand) - {pairs[0]}), 3))
            else Key(0, Take(Desc(RanksOf(hand)), 5))
  {
    assert !Quads(hand) && !FullHouse(hand);
    var groups := WeakPlainKey(hand);
  }

  /** The category of a hand without a flush, from strongest to weakest. */
  lemma CategoryWithoutFlush(hand: set<Card>)
    requires hand != {} && |hand| <= 7 && !AnyFlush(hand)
    ensures SetKey(hand).category ==
            if Quads(hand) then 7
            else if FullHouse(hand) then 6
            else if Straight(hand).Some? then 4
            else if Trips(hand) then 3
            else if |Pairs(hand)| >= 2 then 2
            else if |Pairs(hand)| == 1 then 1
            else 0
  {
    CountPositive(hand);
    if Quads(hand) {
      var q :| q in RanksOf(hand) && Count(hand, q) >= 4;
      QuadsKey(hand, q);
    } else if FullHouse(hand) {
      var a, b := FullHouseRanks(hand);
      FullHouseKey(hand, a, b);
    } else if Straight(hand).Some? {
      StraightKey(hand);
    } else if Trips(hand) {
      var t :| t in RanksOf(hand) && Count(hand, t) >= 3;
      TripsKey(hand, t);
    } else {
      PairsKey(hand);
      DescProperties(Pairs(hand));
    }
  }

  /** The trips and the pair that play in a full house. */
  lemma FullHouseRanks(hand: set<Card>) returns (a: int, b: int)
    requires hand != {} && !AnyFlush(hand) && !Quads(hand) && FullHouse(hand)
    ensures a != b && a in RanksOf(hand) && Count(hand, a) == 3
    ensures forall x :: x in RanksOf(hand) && Count(hand, x) == 3 ==> x <= a
    ensures b in RanksOf(hand) && Count(hand, b) >= 2
    ensures forall x :: x in RanksOf(hand) && x != a ==> GroupLe(Group(Count(hand, x), x), Group(Count(hand, b), b))
  {
    hide SetKey, HandEvaluator.PlainHandKey, HandEvaluator.GroupsAmong, Cards.DescFrom;
    var p, q :| p in RanksOf(hand) && q in RanksOf(hand) && p != q && Count(hand, p) >= 3 && Count(hand, q) >= 2;
    var groups := PlainKey(hand);
    a := groups[0].rank;
    assert GroupLe(Group(Count(hand, p), p), groups[0]);
    forall x | x in RanksOf(hand) && Count(hand, x) == 3 ensures x <= a {
      assert GroupLe(Group(Count(hand, x), x), groups[0]);
    }
    SubsetCardinality({p, q}, RanksOf(hand));
    b := groups[1].rank;
    var other := if p != a then p else q;
    assert GroupLe(Group(Count(hand, other), other), groups[1]);
  }
}
