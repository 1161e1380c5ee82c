/** The five-card evaluator, the brute-force reference and the direct 5-7 card evaluator. */
module HandEvaluator {
  import opened Cards

  // ---------------------------------------------------------------- straights

  const STRAIGHT_SEQUENCES: seq<seq<int>> := [
    [14, 2, 3, 4, 5],
    [2, 3, 4, 5, 6],
    [3, 4, 5, 6, 7],
    [4, 5, 6, 7, 8],
    [5, 6, 7, 8, 9],
    [6, 7, 8, 9, 10],
    [7, 8, 9, 10, 11],
    [8, 9, 10, 11, 12],
    [9, 10, 11, 12, 13],
    [10, 11, 12, 13, 14]
  ]

  /** The five ranks of the straight with the given high card; the wheel plays the ace low. */
  function Run(high: int): set<int> {
    if high == 5 then {14, 2, 3, 4, 5} else {high - 4, high - 3, high - 2, high - 1, high}
  }

  /** The greatest high card in 5..top whose run lies in the rank set. */
  function HighestStraightUpTo(ranks: set<int>, top: int): (best: Option<int>)
    ensures best.Some? ==> 5 <= best.value <= top && Run(best.value) <= ranks
    ensures forall h :: 5 <= h <= top && Run(h) <= ranks ==> best.Some? && h <= best.value
    decreases top
  {
    if top < 5 then None
    else if Run(top) <= ranks then Some(top)
    else HighestStraightUpTo(ranks, top - 1)
  }

  function HighestStraight(ranks: set<int>): (best: Option<int>)
    ensures best.Some? ==> 5 <= best.value <= 14 && Run(best.value) <= ranks
    ensures forall h :: 5 <= h <= 14 && Run(h) <= ranks ==> best.Some? && h <= best.value
  {
    HighestStraightUpTo(ranks, 14)
  }

  lemma SequenceIsRun(i: nat)
    requires i < 10
    ensures Elements(STRAIGHT_SEQUENCES[i]) == Run(5 + i)
    ensures STRAIGHT_SEQUENCES[i] == [14, 2, 3, 4, 5] <==> i == 0
    ensures |STRAIGHT_SEQUENCES[i]| == 5 && STRAIGHT_SEQUENCES[i][4] == 5 + i
  {
    var s := STRAIGHT_SEQUENCES[i];
    assert s == if i == 0 then [14, 2, 3, 4, 5] else [i + 1, i + 2, i + 3, i + 4, i + 5];
    assert Elements(s) == {s[0], s[1], s[2], s[3], s[4]};
  }

  method StraightHigh(ranks: seq<int>) returns (best: Option<int>)
    ensures best == HighestStraight(Elements(ranks))
  {
    var rankSet := set r | r in ranks;
    best := None;
    for i := 0 to |STRAIGHT_SEQUENCES|
      invariant best == HighestStraightUpTo(Elements(ranks), 4 + i)
    {
      var sequence := STRAIGHT_SEQUENCES[i];
      SequenceIsRun(i);
      if (set r | r in sequence) <= rankSet {
        var high := if sequence == [14, 2, 3, 4, 5] then 5 else sequence[|sequence| - 1];
        if best == None || high > best.value {
          best := Some(high);
        }
      }
    }
  }

  // ---------------------------------------------------------------- counting and sorting

  function Ranks(cards: seq<Card>): (ranks: seq<int>)
    ensures |ranks| == |cards| && forall i :: 0 <= i < |cards| ==> ranks[i] == cards[i].rank
  {
    seq(|cards|, i requires 0 <= i < |cards| => cards[i].rank)
  }

  /** Counter(ranks): how often each rank occurs. */
  function Counter(ranks: seq<int>): map<int, nat> {
    if ranks == [] then map[]
    else
      var rest := Counter(ranks[1..]);
      rest[ranks[0] := (if ranks[0] in rest then rest[ranks[0]] else 0) + 1]
  }

  datatype Group = Group(count: nat, rank: int)

  predicate GroupLe(a: Group, b: Group) {
    a.count < b.count || (a.count == b.count && a.rank <= b.rank)
  }

  predicate RankCounts(counts: map<int, nat>) {
    RankSet(counts.Keys) && forall r :: r in counts ==> counts[r] > 0
  }

  function TopFrom(counts: map<int, nat>, among: set<int>, r: int): (g: Group)
    requires RankCounts(counts) && among <= counts.Keys && r <= 14
    ensures g.count == 0 || (g.rank in among && g.rank <= r && g.count == counts[g.rank])
    ensures forall x :: x in among && x <= r ==> GroupLe(Group(counts[x], x), g)
    decreases r + 1
  {
    if r < 2 then Group(0, 0)
    else
      var best := TopFrom(counts, among, r - 1);
      if r in among && GroupLe(best, Group(counts[r], r)) then Group(counts[r], r) else best
  }

  /** The greatest (count, rank) pair among the given ranks. */
  function Top(counts: map<int, nat>, among: set<int>): (g: Group)
    requires RankCounts(counts) && among <= counts.Keys && among != {}
    ensures g.rank in among && g.count == counts[g.rank]
    ensures forall x :: x in among ==> GroupLe(Group(counts[x], x), g)
  {
    TopNotEmpty(counts, among);
    TopFrom(counts, among, 14)
  }

  lemma TopNotEmpty(counts: map<int, nat>, among: set<int>)
    requires RankCounts(counts) && among <= counts.Keys && among != {}
    ensures TopFrom(counts, among, 14).count > 0
  {
    var x := AnyMember(among);
    assert GroupLe(Group(counts[x], x), TopFrom(counts, among, 14));
  }

  /** The (count, rank) pairs of the given ranks, sorted in descending order by selection. */
  function GroupsAmong(counts: map<int, nat>, among: set<int>): seq<Group>
    requires RankCounts(counts) && among <= counts.Keys
    decreases |among|
  {
    if among == {} then []
    else
      var top := Top(counts, among);
      [top] + GroupsAmong(counts, among - {top.rank})
  }

  /** sorted(((count, value) for value, count in counts.items()), reverse=True). */
  function Groups(counts: map<int, nat>): seq<Group>
    requires RankCounts(counts)
  {
    GroupsAmong(counts, counts.Keys)
  }

  lemma {:induction false} GroupsAmongLength(counts: map<int, nat>, among: set<int>)
    requires RankCounts(counts) && among <= counts.Keys
    ensures |GroupsAmong(counts, among)| == |among|
    decreases |among|
  {
    if among != {} {
      GroupsAmongLength(counts, among - {Top(counts, among).rank});
    }
  }

  lemma GroupsNotEmpty(counts: map<int, nat>)
    requires RankCounts(counts)
    ensures |Groups(counts)| > 0 <==> counts.Keys != {}
  {
    GroupsAmongLength(counts, counts.Keys);
  }

  function InsertDesc(x: int, s: seq<int>): seq<int> {
    if s == [] || x >= s[0] then [x] + s else [s[0]] + InsertDesc(x, s[1..])
  }

  /** sorted(s, reverse=True). */
  function SortDesc(s: seq<int>): seq<int> {
    if s == [] then [] else InsertDesc(s[0], SortDesc(s[1..]))
  }

  // ---------------------------------------------------------------- five cards

  function WithCount(counts: map<int, nat>, n: nat): set<int> {
    set r | r in counts && counts[r] == n
  }

  /** The branches of evaluate_five once counts, flush and straight are known. */
  function FiveKey(counts: map<int, nat>, ranks: seq<int>, flush: bool): Key
    requires RankCounts(counts) && counts.Keys != {}
  {
    GroupsNotEmpty(counts);
    var groups := Groups(counts);
    var high := HighestStraight(counts.Keys);
    if flush && high.Some? then Key(8, [high.value])
    else if groups[0].count == 4 then
      Key(7, [groups[0].rank] + Take(Desc(counts.Keys - WithCount(counts, 4)), 1))
    else if groups[0].count == 3 && |groups| > 1 && groups[1].count == 2 then
      Key(6, [groups[0].rank, groups[1].rank])
    else if flush then Key(5, SortDesc(ranks))
    else if high.Some? then Key(4, [high.value])
    else if groups[0].count == 3 then
      Key(3, [groups[0].rank] + Desc(WithCount(counts, 1)))
    else if groups[0].count == 2 && |groups| > 1 && groups[1].count == 2 then
      Key(2, SortDesc([groups[0].rank, groups[1].rank]) + Take(Desc(WithCount(counts, 1)), 1))
    else if groups[0].count == 2 then
      Key(1, [groups[0].rank] + Desc(WithCount(counts, 1)))
    else Key(0, SortDesc(ranks))
  }

  lemma CounterKeys(cards: seq<Card>)
    ensures RankCounts(Counter(Ranks(cards)))
    ensures cards != [] ==> Counter(Ranks(cards)).Keys != {}
    ensures Counter(Ranks(cards)).Keys == set c | c in cards :: c.rank
  {
    if cards != [] {
      CounterKeys(cards[1..]);
      assert Ranks(cards)[1..] == Ranks(cards[1..]);
      assert cards[0].rank in Counter(Ranks(cards));
      assert (set c | c in cards :: c.rank) == {cards[0].rank as int} + set c | c in cards[1..] :: c.rank;
    }
  }

  /** evaluate_five; None is its ValueError. */
  function EvaluateFive(cards: seq<Card>): Option<Key> {
    if |cards| != 5 || |Elements(cards)| != 5 then None
    else
      CounterKeys(cards);
      var flush := |set c | c in cards :: c.suit| == 1;
      Some(FiveKey(Counter(Ranks(cards)), Ranks(cards), flush))
  }

  // ---------------------------------------------------------------- brute force

  function PrependAll<T>(x: T, lists: seq<seq<T>>): (r: seq<seq<T>>)
    ensures |r| == |lists| && forall i :: 0 <= i < |lists| ==> r[i] == [x] + lists[i]
  {
    seq(|lists|, i requires 0 <= i < |lists| => [x] + lists[i])
  }

  /** itertools.combinations(items, k). */
  function Combinations<T>(items: seq<T>, k: nat): seq<seq<T>>
    decreases |items|
  {
    if k == 0 then [[]]
    else if items == [] then []
    else PrependAll(items[0], Combinations(items[1..], k - 1)) + Combinations(items[1..], k)
  }

  function KeyMax(a: Key, b: Key): Key {
    if KeyLe(a, b) then b else a
  }

  /** max(evaluate_five(five) for five in hands); None when a hand is rejected or none is given. */
  function BestOf(hands: seq<seq<Card>>): Option<Key> {
    if hands == [] then None
    else
      var first := EvaluateFive(hands[0]);
      if |hands| == 1 then first
      else
        var rest := BestOf(hands[1..]);
        if first.None? || rest.None? then None else Some(KeyMax(first.value, rest.value))
  }

  /** The key used for fewer than five cards. */
  function ShortKey(cards: seq<Card>): Key {
    CounterKeys(cards);
    var groups := Groups(Counter(Ranks(cards)));
    if |groups| > 0 && groups[0].count >= 4 then Key(7, [groups[0].rank])
    else if |groups| > 0 && groups[0].count == 3 then Key(3, [groups[0].rank])
    else if |groups| > 1 && groups[0].count == 2 && groups[1].count == 2 then
      Key(2, SortDesc([groups[0].rank, groups[1].rank]))
    else if |groups| > 0 && groups[0].count == 2 then Key(1, [groups[0].rank])
    else Key(0, SortDesc(Ranks(cards)))
  }

  /** _best_hand_key_bruteforce; None is a ValueError. */
  function BruteForceKey(cards: seq<Card>): Option<Key> {
    if |cards| < 5 then Some(ShortKey(cards)) else BestOf(Combinations(cards, 5))
  }

  // ---------------------------------------------------------------- direct evaluator

  function SuitedCards(cards: seq<Card>, s: int): seq<Card> {
    if cards == [] then []
    else (if cards[0].suit == s then [cards[0]] else []) + SuitedCards(cards[1..], s)
  }

  function FlushSuitFrom(cards: seq<Card>, s: int): Option<int>
    decreases 4 - s
  {
    if s > 3 then None
    else if |SuitedCards(cards, s)| >= 5 then Some(s)
    else FlushSuitFrom(cards, s + 1)
  }

  /** The ranks of the first suit with five or more cards, greatest first. */
  function FlushRanks(cards: seq<Card>): Option<seq<int>> {
    var suit := FlushSuitFrom(cards, 0);
    if suit.None? then None else Some(SortDesc(Ranks(SuitedCards(cards, suit.value))))
  }

  /** The branches of _best_hand_key_cached for a hand with a flush. */
  function FlushHandKey(flushRanks: seq<int>): Key {
    var straightFlush := HighestStraight(Elements(flushRanks));
    if straightFlush.Some? then Key(8, [straightFlush.value]) else Key(5, Take(flushRanks, 5))
  }

  /** The branches of _best_hand_key_cached for a hand without a flush. */
  function PlainHandKey(groups: seq<Group>, ranks: set<int>, pairs: seq<int>): Key
    requires |groups| > 0
  {
    var high := HighestStraight(ranks);
    if groups[0].count == 4 then
      Key(7, [groups[0].rank] + Take(Desc(ranks - {groups[0].rank}), 1))
    else if groups[0].count == 3 && |groups| > 1 && groups[1].count >= 2 then
      Key(6, [groups[0].rank, groups[1].rank])
    else if high.Some? then Key(4, [high.value])
    else if groups[0].count == 3 then
      Key(3, [groups[0].rank] + Take(Desc(ranks - {groups[0].rank}), 2))
    else if |pairs| >= 2 then
      Key(2, Take(pairs, 2) + Take(Desc(ranks - Elements(Take(pairs, 2))), 1))
    else if |pairs| > 0 then
      Key(1, [pairs[0]] + Take(Desc(ranks - {pairs[0]}), 3))
    else Key(0, Take(Desc(ranks), 5))
  }

  function DirectKey(counts: map<int, nat>, flush: Option<seq<int>>): Key
    requires RankCounts(counts) && counts.Keys != {}
  {
    if flush.Some? then FlushHandKey(flush.value)
    else
      GroupsNotEmpty(counts);
      PlainHandKey(Groups(counts), counts.Keys, Desc(WithCount(counts, 2)))
  }

  /** _best_hand_key_cached, which its callers use with five to seven distinct cards. */
  function DirectHandKey(cards: seq<Card>): Key
    requires cards != []
  {
    CounterKeys(cards);
    DirectKey(Counter(Ranks(cards)), FlushRanks(cards))
  }

  // ---------------------------------------------------------------- entry point

  /** Character codes order the card names: digits, then A J K Q T. */
  function NameOrder(c: Card): int {
    var code := match c.rank
      case 14 => 65
      case 11 => 74
      case 13 => 75
      case 12 => 81
      case 10 => 84
      case r => 48 + r;
    4 * code + c.suit
  }

  function InsertByName(c: Card, cards: seq<Card>): (r: seq<Card>)
    ensures multiset(r) == multiset(cards) + multiset{c}
  {
    if cards == [] || NameOrder(c) <= NameOrder(cards[0]) then [c] + cards
    else
      var r := [cards[0]] + InsertByName(c, cards[1..]);
      assert cards == [cards[0]] + cards[1..];
      r
  }

  /** tuple(sorted(cards)). */
  function SortByName(cards: seq<Card>): (r: seq<Card>)
    ensures multiset(r) == multiset(cards)
  {
    if cards == [] then []
    else
      assert cards == [cards[0]] + cards[1..];
      InsertByName(cards[0], SortByName(cards[1..]))
  }

  /** best_hand_key. */
  function BestHandKey(cards: seq<Card>): Key {
    if |cards| < 5 then ShortKey(cards)
    else
      assert |multiset(SortByName(cards))| == |cards|;
      DirectHandKey(SortByName(cards))
  }
}
