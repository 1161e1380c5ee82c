/** The best hand key does not depend on the order of the cards. */
module HandOrders {
  import opened Cards
  import opened HandEvaluator

  predicate Ascending<T(!new)>(s: seq<T>, key: T -> int) {
    forall i, j :: 0 <= i < j < |s| ==> key(s[i]) <= key(s[j])
  }

  lemma SameFirst<T(!new)>(a: seq<T>, b: seq<T>, key: T -> int)
    requires multiset(a) == multiset(b) && Ascending(a, key) && Ascending(b, key) && a != [] && b != []
    requires forall x, y :: x in a && y in a && key(x) == key(y) ==> x == y
    ensures a[0] == b[0] && multiset(a[1..]) == multiset(b[1..])
  {
    assert b[0] in multiset(a) && a[0] in multiset(b);
    assert key(a[0]) <= key(b[0]) && key(b[0]) <= key(a[0]);
    assert a == [a[0]] + a[1..] && b == [b[0]] + b[1..];
    assert multiset(a[1..]) == multiset(a) - multiset{a[0]} && multiset(b[1..]) == multiset(b) - multiset{b[0]};
  }

  /** A list sorted by a key that tells its members apart is determined by its members. */
  lemma {:induction false} SortedOnce<T(!new)>(a: seq<T>, b: seq<T>, key: T -> int)
    requires multiset(a) == multiset(b) && Ascending(a, key) && Ascending(b, key)
    requires forall x, y :: x in a && y in a && key(x) == key(y) ==> x == y
    ensures a == b
  {
    assert |multiset(a)| == |multiset(b)|;
    if a != [] {
      SameFirst(a, b, key);
      SortedOnce(a[1..], b[1..], key);
      assert a == [a[0]] + a[1..] && b == [b[0]] + b[1..];
    }
  }

  lemma NamesDiffer(a: Card, b: Card)
    ensures NameOrder(a) == NameOrder(b) ==> a == b
  {}

  lemma {:induction false} InsertedByName(c: Card, cards: seq<Card>)
    requires Ascending(cards, NameOrder)
    ensures Ascending(InsertByName(c, cards), NameOrder)
  {
    hide NameOrder;
    if cards != [] && NameOrder(c) > NameOrder(cards[0]) {
      InsertedByName(c, cards[1..]);
      var tail := InsertByName(c, cards[1..]);
      forall i | 0 <= i < |tail| ensures NameOrder(cards[0]) <= NameOrder(tail[i]) {
        assert tail[i] in multiset(tail);
      }
    }
  }

  lemma {:induction false} SortedByName(cards: seq<Card>)
    ensures Ascending(SortByName(cards), NameOrder)
  {
    hide NameOrder;
    if cards != [] {
      SortedByName(cards[1..]);
      InsertedByName(cards[0], SortByName(cards[1..]));
    }
  }

  function Negated(x: int): int { -x }

  lemma {:induction false} InsertDescMembers(x: int, s: seq<int>)
    ensures multiset(InsertDesc(x, s)) == multiset(s) + multiset{x}
  {
    if s != [] && x < s[0] {
      InsertDescMembers(x, s[1..]);
      assert s == [s[0]] + s[1..];
    }
  }

  lemma {:induction false} InsertedDesc(x: int, s: seq<int>)
    requires Ascending(s, Negated)
    ensures Ascending(InsertDesc(x, s), Negated)
  {
    if s != [] && x < s[0] {
      InsertedDesc(x, s[1..]);
      var tail := InsertDesc(x, s[1..]);
      InsertDescMembers(x, s[1..]);
      forall i | 0 <= i < |tail| ensures tail[i] <= s[0] {
        assert tail[i] in multiset(tail);
        assert tail[i] == x || tail[i] in s[1..];
        assert forall k :: 0 < k < |s| ==> Negated(s[0]) <= Negated(s[k]);
      }
    }
  }

  lemma {:induction false} SortedDesc(s: seq<int>)
    ensures Ascending(SortDesc(s), Negated) && multiset(SortDesc(s)) == multiset(s)
  {
    if s != [] {
      assert s == [s[0]] + s[1..];
      SortedDesc(s[1..]);
      InsertedDesc(s[0], SortDesc(s[1..]));
      InsertDescMembers(s[0], SortDesc(s[1..]));
    }
  }

  lemma CardTaken<T>(cards: seq<T>, k: nat)
    requires k < |cards|
    ensures multiset(cards) == multiset(cards[..k] + cards[k + 1..]) + multiset{cards[k]}
  {
    assert cards == cards[..k] + [cards[k]] + cards[k + 1..];
  }

  lemma RankTaken(cards: seq<Card>, k: nat)
    requires k < |cards|
    ensures multiset(Ranks(cards)) == multiset(Ranks(cards[..k] + cards[k + 1..])) + multiset{cards[k].rank as int}
  {
    CardTaken(Ranks(cards), k);
    assert Ranks(cards)[..k] + Ranks(cards)[k + 1..] == Ranks(cards[..k] + cards[k + 1..]);
  }

  lemma OneLess(x: multiset<Card>, y: multiset<Card>, c: Card)
    requires x + multiset{c} == y + multiset{c}
    ensures x == y
  {
    assert x == x + multiset{c} - multiset{c};
    assert y == y + multiset{c} - multiset{c};
  }

  lemma WithoutOne(a: seq<Card>, b: seq<Card>, k: nat)
    requires multiset(a) == multiset(b) && a != [] && k < |b| && b[k] == a[0]
    ensures multiset(a[..0] + a[1..]) == multiset(b[..k] + b[k + 1..])
  {
    CardTaken(a, 0);
    CardTaken(b, k);
    OneLess(multiset(a[..0] + a[1..]), multiset(b[..k] + b[k + 1..]), a[0]);
  }

  lemma {:induction false} RanksReordered(a: seq<Card>, b: seq<Card>)
    requires multiset(a) == multiset(b)
    ensures multiset(Ranks(a)) == multiset(Ranks(b))
  {
    hide Ranks;
    assert |multiset(a)| == |multiset(b)|;
    if a == [] {
      assert b == [];
    } else {
      assert a[0] in multiset(b);
      var k :| 0 <= k < |b| && b[k] == a[0];
      WithoutOne(a, b, k);
      RankTaken(a, 0);
      RankTaken(b, k);
      RanksReordered(a[..0] + a[1..], b[..k] + b[k + 1..]);
    }
  }

  lemma {:induction false} CounterCounts(ranks: seq<int>)
    ensures forall x :: x in Counter(ranks) <==> x in multiset(ranks)
    ensures forall x :: x in Counter(ranks) ==> Counter(ranks)[x] == multiset(ranks)[x]
  {
    if ranks != [] {
      assert ranks == [ranks[0]] + ranks[1..];
      CounterCounts(ranks[1..]);
    }
  }

  lemma CounterReordered(x: seq<int>, y: seq<int>)
    requires multiset(x) == multiset(y)
    ensures Counter(x) == Counter(y)
  {
    CounterCounts(x);
    CounterCounts(y);
    var a, b := Counter(x), Counter(y);
    hide Counter;
    assert forall r :: r in a <==> r in b;
    assert forall r :: r in a ==> a[r] == b[r];
    assert a.Keys == b.Keys;
  }

  lemma ShortKeyReordered(a: seq<Card>, b: seq<Card>)
    requires multiset(a) == multiset(b)
    ensures ShortKey(a) == ShortKey(b)
  {
    hide Counter, SortDesc, Ascending;
    RanksReordered(a, b);
    CounterReordered(Ranks(a), Ranks(b));
    SortDescReordered(Ranks(a), Ranks(b));
  }

  lemma SortDescReordered(x: seq<int>, y: seq<int>)
    requires multiset(x) == multiset(y)
    ensures SortDesc(x) == SortDesc(y)
  {
    SortedDesc(x);
    SortedDesc(y);
    hide SortDesc, Ascending;
    SortedOnce(SortDesc(x), SortDesc(y), Negated);
  }

  /** The key does not depend on the order of the cards, whatever and however many they are. */
  lemma KeyIgnoresOrder(a: seq<Card>, b: seq<Card>)
    requires multiset(a) == multiset(b)
    ensures BestHandKey(a) == BestHandKey(b)
  {
    hide ShortKey, DirectHandKey, NameOrder;
    assert |multiset(a)| == |multiset(b)|;
    ShortKeyReordered(a, b);
    SortedByName(a);
    SortedByName(b);
    forall x, y ensures NameOrder(x) == NameOrder(y) ==> x == y { NamesDiffer(x, y); }
    SortedOnce(SortByName(a), SortByName(b), NameOrder);
  }
}
