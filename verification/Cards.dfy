/** Cards, hand keys and the list and set vocabulary shared by the analysis modules. */
module Cards {
  type Rank = r: int | 2 <= r <= 14 witness 2
  type Suit = s: int | 0 <= s <= 3

  /** A card; ranks run from 2 to 14 (ace) and suits follow the order c, d, h, s. */
  datatype Card = Card(rank: Rank, suit: Suit)

  datatype Option<+T> = None | Some(value: T)

  /** A comparable hand key: the category, then the tie breakers. */
  datatype Key = Key(category: nat, ties: seq<int>)

  // ---------------------------------------------------------------- orders

  /** Tuple order on the tie breakers. */
  predicate LexLe(a: seq<int>, b: seq<int>) {
    if a == [] then true
    else if b == [] then false
    else a[0] < b[0] || (a[0] == b[0] && LexLe(a[1..], b[1..]))
  }

  predicate KeyLe(a: Key, b: Key) {
    a.category < b.category || (a.category == b.category && LexLe(a.ties, b.ties))
  }

  predicate KeyLt(a: Key, b: Key) {
    !KeyLe(b, a)
  }

  lemma LexTotal(a: seq<int>, b: seq<int>)
    ensures LexLe(a, b) || LexLe(b, a)
  {}

  lemma LexReflexive(a: seq<int>)
    ensures LexLe(a, a)
  {}

  lemma LexAntisymmetric(a: seq<int>, b: seq<int>)
    requires LexLe(a, b) && LexLe(b, a)
    ensures a == b
  {
    if a != [] {
      LexAntisymmetric(a[1..], b[1..]);
      assert a == [a[0]] + a[1..] && b == [b[0]] + b[1..];
    }
  }

  lemma LexTransitive(a: seq<int>, b: seq<int>, c: seq<int>)
    requires LexLe(a, b) && LexLe(b, c)
    ensures LexLe(a, c)
  {}

  /** The keys are totally ordered. */
  lemma KeyOrder(a: Key, b: Key, c: Key)
    ensures KeyLe(a, a)
    ensures KeyLe(a, b) || KeyLe(b, a)
    ensures KeyLe(a, b) && KeyLe(b, a) ==> a == b
    ensures KeyLe(a, b) && KeyLe(b, c) ==> KeyLe(a, c)
  {
    LexReflexive(a.ties);
    LexTotal(a.ties, b.ties);
    if LexLe(a.ties, b.ties) && LexLe(b.ties, a.ties) { LexAntisymmetric(a.ties, b.ties); }
    if LexLe(a.ties, b.ties) && LexLe(b.ties, c.ties) { LexTransitive(a.ties, b.ties, c.ties); }
  }

  lemma LexAppend(a: seq<int>, b: seq<int>, c: seq<int>, d: seq<int>)
    requires |a| == |b| && LexLe(a, b)
    requires a == b ==> LexLe(c, d)
    ensures LexLe(a + c, b + d)
  {
    if a == [] {
      assert a + c == c && b + d == d;
    } else {
      assert (a + c)[1..] == a[1..] + c && (b + d)[1..] == b[1..] + d;
      if a[0] == b[0] {
        assert a[1..] == b[1..] ==> a == b by {
          assert a == [a[0]] + a[1..] && b == [b[0]] + b[1..];
        }
        LexAppend(a[1..], b[1..], c, d);
      }
    }
  }

  // ---------------------------------------------------------------- lists of ranks

  /** Slicing that stops at the end of the list. */
  function Take(s: seq<int>, k: nat): seq<int> {
    if k <= |s| then s[..k] else s
  }

  predicate RankSet(s: set<int>) {
    forall r :: r in s ==> 2 <= r <= 14
  }

  /** The members of s that are at most r, in descending order. */
  function DescFrom(s: set<int>, r: int): seq<int>
    decreases r + 1
  {
    if r < 2 then [] else (if r in s then [r] else []) + DescFrom(s, r - 1)
  }

  /** sorted(s, reverse=True) for a set of ranks. */
  function Desc(s: set<int>): seq<int> {
    DescFrom(s, 14)
  }

  function Below(s: set<int>, r: int): set<int> {
    set x | x in s && x <= r
  }

  predicate Descending(s: seq<int>) {
    forall i, j :: 0 <= i < j < |s| ==> s[i] > s[j]
  }

  lemma {:induction false} DescFromMembers(s: set<int>, r: int)
    requires RankSet(s) && r <= 14
    ensures forall x :: x in DescFrom(s, r) <==> x in s && x <= r
    decreases r + 1
  {
    if r >= 2 {
      DescFromMembers(s, r - 1);
    }
  }

  lemma {:induction false} DescFromLength(s: set<int>, r: int)
    requires RankSet(s) && r <= 14
    ensures |DescFrom(s, r)| == |Below(s, r)|
    decreases r + 1
  {
    if r < 2 {
      assert Below(s, r) == {};
    } else {
      DescFromLength(s, r - 1);
      assert Below(s, r) == Below(s, r - 1) + (if r in s then {r} else {});
    }
  }

  lemma {:induction false} DescFromDescending(s: set<int>, r: int)
    requires RankSet(s) && r <= 14
    ensures Descending(DescFrom(s, r))
    decreases r + 1
  {
    if r >= 2 {
      DescFromDescending(s, r - 1);
      DescFromMembers(s, r - 1);
      var tail := DescFrom(s, r - 1);
      forall i | 0 <= i < |tail| ensures tail[i] < r {
        assert tail[i] in tail;
      }
    }
  }

  /** Desc lists exactly the set, without repetition, greatest first. */
  lemma DescProperties(s: set<int>)
    requires RankSet(s)
    ensures forall x :: x in Desc(s) <==> x in s
    ensures |Desc(s)| == |s|
    ensures Descending(Desc(s))
  {
    DescFromMembers(s, 14);
    DescFromLength(s, 14);
    DescFromDescending(s, 14);
    assert Below(s, 14) == s;
  }

  lemma {:induction false} DescFromMonotone(s: set<int>, t: set<int>, k: nat, r: int)
    requires RankSet(t) && s <= t && r <= 14 && k <= |DescFrom(s, r)|
    ensures k <= |DescFrom(t, r)|
    ensures LexLe(DescFrom(s, r)[..k], DescFrom(t, r)[..k])
    decreases r + 1
  {
    if r >= 2 && k > 0 {
      var a, b := DescFrom(s, r - 1), DescFrom(t, r - 1);
      if r in s {
        DescFromMonotone(s, t, k - 1, r - 1);
        assert DescFrom(s, r)[..k] == [r] + a[..k - 1];
        assert DescFrom(t, r)[..k] == [r] + b[..k - 1];
        LexAppend([r], [r], a[..k - 1], b[..k - 1]);
      } else {
        DescFromMonotone(s, t, k, r - 1);
        assert DescFrom(s, r) == a;
        if r in t {
          DescFromMembers(s, r - 1);
          assert a[0] in a;
          LexHead(a[..k], ([r] + b)[..k]);
        } else {
          assert DescFrom(t, r) == b;
        }
      }
    }
  }

  lemma LexHead(a: seq<int>, b: seq<int>)
    requires |a| > 0 && |b| > 0 && a[0] < b[0]
    ensures LexLe(a, b)
  {}

  /** A larger rank set has a lexicographically larger list of top k ranks. */
  lemma DescMonotone(s: set<int>, t: set<int>, k: nat)
    requires RankSet(t) && s <= t && k <= |s|
    ensures LexLe(Take(Desc(s), k), Take(Desc(t), k))
    ensures |Take(Desc(s), k)| == |Take(Desc(t), k)| == k
  {
    DescFromLength(s, 14);
    assert Below(s, 14) == s;
    DescFromMonotone(s, t, k, 14);
  }

  lemma {:induction false} DescFromWithoutLeast(s: set<int>, m: int, r: int)
    requires RankSet(s) && m in s && (forall x :: x in s ==> m <= x) && m <= r <= 14
    ensures DescFrom(s, r) == DescFrom(s - {m}, r) + [m]
    decreases r
  {
    if r == m {
      DescFromLength(s, m - 1);
      DescFromLength(s - {m}, m - 1);
      assert Below(s, m - 1) == {} && Below(s - {m}, m - 1) == {};
    } else {
      DescFromWithoutLeast(s, m, r - 1);
      assert DescFrom(s, r) == (if r in s then [r] else []) + DescFrom(s, r - 1);
      assert DescFrom(s - {m}, r) == (if r in s then [r] else []) + DescFrom(s - {m}, r - 1);
    }
  }

  /** Dropping the least rank does not change the top k when more than k are present. */
  lemma DescWithoutLeast(s: set<int>, m: int, k: nat)
    requires RankSet(s) && m in s && (forall x :: x in s ==> m <= x) && k < |s|
    ensures Take(Desc(s - {m}), k) == Take(Desc(s), k)
  {
    DescFromWithoutLeast(s, m, 14);
    DescFromLength(s, 14);
    assert Below(s, 14) == s;
  }

  /** Every non-empty rank set has a least member. */
  lemma {:induction false} LeastMember(s: set<int>) returns (m: int)
    requires s != {}
    ensures m in s && forall x :: x in s ==> m <= x
  {
    var y := AnyMember(s);
    if s == {y} {
      m := y;
    } else {
      var n := LeastMember(s - {y});
      m := if n < y then n else y;
      forall x | x in s ensures m <= x {
        if x != y { assert x in s - {y}; }
      }
    }
  }

  // ---------------------------------------------------------------- sets and sequences

  /** A member of a non-empty set. */
  lemma AnyMember<T>(s: set<T>) returns (x: T)
    requires s != {}
    ensures x in s
  {
    x :| x in s;
  }

  lemma SubsetCardinality<T>(a: set<T>, b: set<T>)
    requires a <= b
    ensures |a| <= |b|
    ensures |a| == |b| ==> a == b
  {
    assert b == a + (b - a);
  }

  predicate Distinct<T(==)>(s: seq<T>) {
    forall i, j :: 0 <= i < j < |s| ==> s[i] != s[j]
  }

  function Elements<T>(s: seq<T>): set<T> {
    set x | x in s
  }

  lemma ElementsOfDistinct<T>(s: seq<T>)
    requires Distinct(s)
    ensures |Elements(s)| == |s|
  {
    if s != [] {
      ElementsOfDistinct(s[1..]);
      assert Elements(s) == {s[0]} + Elements(s[1..]);
    }
  }

  // ---------------------------------------------------------------- the deck

  function CardAt(i: nat): Card
    requires i < 52
  {
    Card(2 + i / 4, i % 4)
  }

  function DeckFrom(excluded: set<Card>, i: nat): (cards: seq<Card>)
    requires i <= 52
    ensures forall c :: c in cards <==> c !in excluded && i <= 4 * (c.rank - 2) + c.suit
    ensures Distinct(cards)
    decreases 52 - i
  {
    if i == 52 then []
    else (if CardAt(i) in excluded then [] else [CardAt(i)]) + DeckFrom(excluded, i + 1)
  }

  /** The cards outside the excluded ones, by rank and then suit. */
  function Deck(excluded: set<Card>): (cards: seq<Card>)
    ensures forall c :: c in cards <==> c !in excluded
    ensures Distinct(cards)
  {
    DeckFrom(excluded, 0)
  }
}
