/** The heads-up and multiway routines agree, and win mass is conserved. */
module EquityTheorems {
  import opened Cards
  import opened Combos
  import opened HandEvaluator
  import opened HandTheorems
  import opened HandOrders
  import opened RangeExpansion
  import opened Showdowns
  import opened Sums
  import opened Equity
  import opened Multiway

  // ---------------------------------------------------------------- cards of two hands

  predicate Apart(a: seq<Card>, b: seq<Card>) {
    forall c :: c in a ==> c !in b
  }

  lemma DistinctAppend(a: seq<Card>, b: seq<Card>)
    ensures Distinct(a + b) <==> Distinct(a) && Distinct(b) && Apart(a, b)
  {
    if Distinct(a + b) {
      forall i, j | 0 <= i < j < |a| ensures a[i] != a[j] { assert (a + b)[i] != (a + b)[j]; }
      forall i, j | 0 <= i < j < |b| ensures b[i] != b[j] { assert (a + b)[|a| + i] != (a + b)[|a| + j]; }
      forall c | c in a ensures c !in b {
        var i :| 0 <= i < |a| && a[i] == c;
        forall j | 0 <= j < |b| ensures b[j] != c { assert (a + b)[i] != (a + b)[|a| + j]; }
      }
    }
    if Distinct(a) && Distinct(b) && Apart(a, b) {
      forall i, j | 0 <= i < j < |a + b| ensures (a + b)[i] != (a + b)[j] {
        if i < |a| <= j { assert a[i] in a && b[j - |a|] in b; }
      }
    }
  }

  lemma DistinctPermuted(a: seq<Card>, b: seq<Card>)
    requires multiset(a) == multiset(b)
    ensures Distinct(a) <==> Distinct(b)
    ensures Elements(a) == Elements(b) && forall c :: c in a <==> c in b
  {
    SameMultisetSameElements(a, b);
    assert forall c :: (c in a <==> c in Elements(a)) && (c in b <==> c in Elements(b));
  }

  /** A hand's key for a runout does not depend on the order of the hand or of the board. */
  lemma SameTrialKey(a: Entry, b: Entry, board: seq<Card>, sorted: seq<Card>, runout: seq<Card>)
    requires multiset(Holding(a)) == multiset(Holding(b)) && multiset(board) == multiset(sorted)
    requires Distinct(Holding(a) + board) && |board| + |runout| == 5
    requires Distinct(runout) && Apart(runout, Holding(a) + board)
    ensures BestHandKey(Holding(a) + (board + runout)) == BestHandKey(Holding(b) + (sorted + runout))
  {
    hide BestHandKey, Distinct, Apart;
    DistinctAppend(Holding(a) + board, runout);
    assert Apart(Holding(a) + board, runout) by { ApartSymmetric(runout, Holding(a) + board); }
    assert Holding(a) + (board + runout) == (Holding(a) + board) + runout;
    assert multiset(Holding(a) + (board + runout)) == multiset(Holding(b) + (sorted + runout));
    KeyIgnoresOrder(Holding(a) + (board + runout), Holding(b) + (sorted + runout));
  }

  lemma ApartSymmetric(a: seq<Card>, b: seq<Card>)
    requires Apart(a, b)
    ensures Apart(b, a)
  {}

  /** A runout is made of unknown, distinct cards. */
  lemma RunoutCards(known: seq<Card>, missing: nat, runout: seq<Card>)
    requires runout in Runouts(known, missing)
    ensures |runout| == missing && Distinct(runout) && Apart(runout, known)
  {
    CombinationIsSubset(Deck(Elements(known)), missing, runout);
    forall c | c in runout ensures c !in known {
      assert c in Elements(runout);
    }
  }

  function Joint(known: seq<Card>, a: Entry, b: Entry): seq<Card> {
    known + Holding(a) + Holding(b)
  }

  lemma JoinedPair(known: seq<Card>, a: Entry, b: Entry)
    requires Apart(Holding(a), known) && Apart(Holding(b), known)
    ensures Joined(known, [a, b]) == if Clash(a, b) then None else Some(Joint(known, a, b))
  {
    assert [a, b][1..] == [b] && [b][1..] == [];
    assert a.first in Holding(a) && a.second in Holding(a) && b.first in Holding(b) && b.second in Holding(b);
    assert Joined(known, [a, b]) == Joined(known + Holding(a), [b]);
    assert b.first in known + Holding(a) <==> b.first in Holding(a);
    assert b.second in known + Holding(a) <==> b.second in Holding(a);
    assert Joined(Joint(known, a, b), []) == Some(Joint(known, a, b));
  }

  lemma PairWeights(a: Entry, b: Entry)
    ensures ProductOfWeights([a, b]) == Times(a.weight, b.weight)
    ensures a.weight == 1.0 ==> Times(a.weight, b.weight) == b.weight
  {
    assert [a, b][..1] == [a] && [a][..0] == [];
    assert ProductOfWeights([a]) == Times(1.0, a.weight);
  }

  /** The trials of a legal pair of combos. */
  lemma PairTrials(a: Entry, b: Entry, board: seq<Card>)
    requires |board| <= 5 && Apart(Holding(a), board) && Apart(Holding(b), board)
    ensures TupleTrials([a, b], board, true)
         == if Clash(a, b) then []
            else Trials([a, b], board, Runouts(Joint(board, a, b), 5 - |board|), Times(a.weight, b.weight))
  {
    hide Trials, Times, ProductOfWeights, Runouts, Apart, Clash, Joined;
    JoinedPair(board, a, b);
    PairWeights(a, b);
  }

  // ---------------------------------------------------------------- products of two lists

  function Singles(items: seq<Entry>): (r: seq<seq<Entry>>)
    ensures |r| == |items| && forall i :: 0 <= i < |items| ==> r[i] == [items[i]]
  {
    seq(|items|, i requires 0 <= i < |items| => [items[i]])
  }

  lemma PrependEmpty(e: Entry)
    ensures PrependAll(e, [[]]) == [[e]]
  {
    assert PrependAll(e, [[]])[0] == [e];
  }

  lemma {:induction false} OverNothing(items: seq<Entry>)
    ensures ProductOver(items, [[]]) == Singles(items)
  {
    if items != [] {
      OverNothing(items[..|items| - 1]);
      var n := |items| - 1;
      PrependEmpty(items[n]);
      assert Singles(items) == Singles(items[..n]) + [[items[n]]];
    }
  }

  lemma TwoLists(a: seq<Entry>, b: seq<Entry>)
    ensures TupleProduct([a, b]) == ProductOver(a, Singles(b))
  {
    assert [a, b][1..] == [b] && [b][1..] == [];
    assert TupleProduct([b]) == ProductOver(b, [[]]);
    OverNothing(b);
  }

  lemma {:induction false} TrialsAppend(x: seq<seq<Entry>>, y: seq<seq<Entry>>, board: seq<Card>, weighted: bool)
    requires |board| <= 5
    ensures AllTupleTrials(x + y, board, weighted) == AllTupleTrials(x, board, weighted) + AllTupleTrials(y, board, weighted)
  {
    hide TupleTrials;
    if y == [] {
      assert x + y == x;
    } else {
      var n := |y| - 1;
      TrialsAppend(x, y[..n], board, weighted);
      assert (x + y)[..|x + y| - 1] == x + y[..n];
    }
  }

  predicate ClearOf(list: seq<Entry>, board: seq<Card>) {
    forall e :: e in list ==> Apart(Holding(e), board)
  }

  lemma {:induction false} RowAgrees(hero: Entry, villains: seq<Entry>, board: seq<Card>)
    requires |board| <= 5 && Apart(Holding(hero), board) && ClearOf(villains, board)
    ensures AllTupleTrials(PrependAll(hero, Singles(villains)), board, true) == ComboVsCombos(hero, villains, board)
  {
    hide Trials, Times, TupleTrials, Runouts, Apart, Clash, Holding;
    if villains != [] {
      var n := |villains| - 1;
      var v := villains[n];
      RowAgrees(hero, villains[..n], board);
      assert v in villains;
      var rows := PrependAll(hero, Singles(villains));
      assert rows[..n] == PrependAll(hero, Singles(villains[..n]));
      assert rows[n] == [hero, v];
      PairTrials(hero, v, board);
    }
  }

  lemma {:induction false} RowsAgree(heroes: seq<Entry>, villains: seq<Entry>, board: seq<Card>)
    requires |board| <= 5 && ClearOf(heroes, board) && ClearOf(villains, board)
    ensures AllTupleTrials(ProductOver(heroes, Singles(villains)), board, true) == CombosVsCombos(heroes, villains, board)
  {
    hide Apart;
    if heroes != [] {
      var n := |heroes| - 1;
      RowsAgree(heroes[..n], villains, board);
      assert heroes[n] in heroes;
      RowAgrees(heroes[n], villains, board);
      TrialsAppend(ProductOver(heroes[..n], Singles(villains)), PrependAll(heroes[n], Singles(villains)), board, true);
    }
  }

  // ---------------------------------------------------------------- range against range

  lemma ExpansionClear(r: RangeSpec, board: seq<Card>)
    ensures ClearOf(Expanded(r, Elements(board)), board)
    ensures forall e :: e in Expanded(r, Elements(board)) ==> Distinct(Holding(e)) && e.weight > 0.0
  {
    hide Expanded;
    ExpansionExact(r, Elements(board));
  }

  lemma ExpansionAdmitted(r: RangeSpec, board: seq<Card>)
    requires Known(board) && |board| <= 7
    ensures Admitted(Expanded(r, Elements(board)), board) <==> Expanded(r, Elements(board)) != []
  {
    hide Expanded;
    ExpansionClear(r, board);
    forall e | e in Expanded(r, Elements(board)) ensures Known(board + Holding(e)) {
      ApartSymmetric(Holding(e), board);
      DistinctAppend(board, Holding(e));
    }
  }

  /** Range against range plays exactly the trials of the two-seat multiway run. */
  lemma RangeVsRangeAgrees(hero: RangeSpec, villain: RangeSpec, board: seq<Card>)
    ensures RangeVsRangeTrials(hero, villain, board) == MultiwayTrials([RangePlayer(hero), RangePlayer(villain)], board)
  {
    hide Expanded, AllTupleTrials, CombosVsCombos, TupleProduct, Distinct, Elements, Admitted, ClearOf, SortCards;
    var players := [RangePlayer(hero), RangePlayer(villain)];
    var sorted := SortCards(board);
    SortedBoard(board);
    if Known(board) && |board| <= 5 {
      var heroes, villains := Expanded(hero, Elements(sorted)), Expanded(villain, Elements(sorted));
      assert ComboLists(players, Elements(sorted)) == [heroes, villains];
      assert players[0].RangePlayer?;
      ExpansionAdmitted(hero, sorted);
      ExpansionAdmitted(villain, sorted);
      ExpansionClear(hero, sorted);
      ExpansionClear(villain, sorted);
      NoRows(heroes, villains, sorted);
      TwoLists(heroes, villains);
      RowsAgree(heroes, villains, sorted);
    }
  }

  // ---------------------------------------------------------------- hand against range

  function SortedHand(cards: Hole): (e: Entry)
    ensures e.weight == 1.0 && multiset(Holding(e)) == multiset(Holding(HandOf(cards)))
  {
    var pair := SortPair(cards.0, cards.1);
    Entry(pair.0, pair.1, 1.0)
  }

  lemma HandCombos(cards: Hole, board: set<Card>)
    ensures PlayerCombos(HandPlayer(cards), board) == [SortedHand(cards)]
  {}

  /** Reordering the hole cards and the board leaves the trials unchanged. */
  lemma SameTrials(a: Entry, b: Entry, c: Entry, d: Entry, board: seq<Card>, sorted: seq<Card>, known: seq<Card>, weight: real)
    requires multiset(Holding(a)) == multiset(Holding(c)) && multiset(Holding(b)) == multiset(Holding(d))
    requires multiset(board) == multiset(sorted) && |board| <= 5 && Distinct(known)
    requires multiset(known) == multiset(Holding(a) + Holding(b) + board)
    ensures Trials([a, b], board, Runouts(known, 5 - |board|), weight)
         == Trials([c, d], sorted, Runouts(known, 5 - |board|), weight)
  {
    hide BestHandKey, Runouts;
    DistinctPermuted(known, Holding(a) + Holding(b) + board);
    DistinctAppend(Holding(a) + Holding(b), board);
    DistinctAppend(Holding(a), Holding(b));
    DistinctAppend(Holding(a), board);
    DistinctAppend(Holding(b), board);
    var runouts := Runouts(known, 5 - |board|);
    forall k | 0 <= k < |runouts|
      ensures HandKeys([a, b], board + runouts[k]) == HandKeys([c, d], sorted + runouts[k])
    {
      RunoutCards(known, 5 - |board|, runouts[k]);
      hide Distinct;
      SameTrialKey(a, c, board, sorted, runouts[k]);
      SameTrialKey(b, d, board, sorted, runouts[k]);
    }
  }

  lemma SameRunouts(a: seq<Card>, b: seq<Card>, missing: nat)
    requires multiset(a) == multiset(b)
    ensures Runouts(a, missing) == Runouts(b, missing)
  {
    hide Deck;
    DistinctPermuted(a, b);
  }

  lemma HandOrder(a: Entry, c: Entry, v: Entry, board: seq<Card>, sorted: seq<Card>)
    requires multiset(Holding(a)) == multiset(Holding(c)) && multiset(board) == multiset(sorted)
    ensures multiset(Holding(a) + board + Holding(v)) == multiset(sorted + Holding(c) + Holding(v))
            == multiset(Holding(a) + Holding(v) + board)
  {
    hide Holding;
  }

  lemma HandCell(a: Entry, c: Entry, v: Entry, board: seq<Card>, sorted: seq<Card>)
    requires multiset(Holding(a)) == multiset(Holding(c)) && c.weight == 1.0 && !Clash(c, v)
    requires multiset(board) == multiset(sorted) && |sorted| == |board| <= 5 && Distinct(Holding(a) + board)
    requires Apart(Holding(v), board) && Distinct(Holding(v))
    ensures Trials([a, v], board, Runouts(Holding(a) + board + Holding(v), 5 - |board|), v.weight)
         == Trials([c, v], sorted, Runouts(sorted + Holding(c) + Holding(v), 5 - |board|), Times(c.weight, v.weight))
  {
    hide Trials, Runouts, Times, Apart, Distinct, Clash, Holding;
    PairWeights(c, v);
    KnownApart(a, c, v, board);
    var known := Holding(a) + board + Holding(v);
    HandOrder(a, c, v, board, sorted);
    SameRunouts(known, sorted + Holding(c) + Holding(v), 5 - |board|);
    SameTrials(a, v, c, v, board, sorted, known, v.weight);
  }

  /** The row of one hand: its clashing combos are dropped instead of skipped. */
  lemma {:induction false} HandRow(a: Entry, c: Entry, villains: seq<Entry>, board: seq<Card>, sorted: seq<Card>)
    requires multiset(Holding(a)) == multiset(Holding(c)) && c.weight == 1.0
    requires multiset(board) == multiset(sorted) && |sorted| == |board| <= 5 && Distinct(Holding(a) + board)
    requires ClearOf(villains, board) && forall v :: v in villains ==> Distinct(Holding(v))
    ensures HandVsCombos(a, Unclashing(c, villains), board) == ComboVsCombos(c, villains, sorted)
    decreases |villains|
  {
    hide Trials, Runouts, Times, Apart, Distinct, Clash;
    if villains != [] {
      var n := |villains| - 1;
      var v := villains[n];
      HandRow(a, c, villains[..n], board, sorted);
      assert v in villains;
      var kept := Unclashing(c, villains[..n]);
      if Clash(c, v) {
        assert Unclashing(c, villains) == kept;
      } else {
        HandCell(a, c, v, board, sorted);
        hide Holding;
        assert Unclashing(c, villains) == kept + [v] && (kept + [v])[..|kept|] == kept;
      }
    }
  }

  function Unclashing(c: Entry, villains: seq<Entry>): seq<Entry> {
    if villains == [] then []
    else
      var v := villains[|villains| - 1];
      Unclashing(c, villains[..|villains| - 1]) + if Clash(c, v) then [] else [v]
  }

  lemma KnownApart(a: Entry, c: Entry, v: Entry, board: seq<Card>)
    requires multiset(Holding(a)) == multiset(Holding(c)) && !Clash(c, v)
    requires Distinct(Holding(a) + board) && Apart(Holding(v), board) && Distinct(Holding(v))
    ensures Distinct(Holding(a) + board + Holding(v))
    ensures multiset(Holding(a) + board + Holding(v)) == multiset(Holding(a) + Holding(v) + board)
  {
    DistinctPermuted(Holding(a), Holding(c));
    forall x | x in Holding(a) + board ensures x !in Holding(v) {
      if x in Holding(a) {
        assert x in Holding(c);
        assert c.first !in Holding(v) && c.second !in Holding(v);
      }
    }
    DistinctAppend(Holding(a) + board, Holding(v));
  }

  lemma {:induction false} UnclashingIsEligible(c: Entry, villains: seq<Entry>, blocked: set<Card>)
    requires blocked == {c.first, c.second}
    ensures Unclashing(c, villains) == Eligible(villains, blocked)
  {
    hide Eligible, Clash, Blocked;
    if villains == [] {
      EligibleNone(blocked);
    } else {
      var n := |villains| - 1;
      UnclashingIsEligible(c, villains[..n], blocked);
      EligibleSnoc(villains[..n], villains[n], blocked);
      ClashIsBlocked(c, villains[n], blocked);
      assert villains == villains[..n] + [villains[n]];
    }
  }

  lemma ClashIsBlocked(c: Entry, v: Entry, blocked: set<Card>)
    requires blocked == {c.first, c.second}
    ensures Clash(c, v) <==> Blocked(v.Pair(), blocked)
  {}

  lemma {:induction false} EligibleSnoc(entries: seq<Entry>, e: Entry, blocked: set<Card>)
    ensures Eligible(entries + [e], blocked)
         == Eligible(entries, blocked) + if Blocked(e.Pair(), blocked) then [] else [e]
  {
    hide Blocked, Eligible;
    if entries == [] {
      assert entries + [e] == [e] + [];
      EligibleCons(e, [], blocked);
      EligibleNone(blocked);
    } else {
      var x, tail := entries[0], entries[1..];
      EligibleSnoc(tail, e, blocked);
      EligibleCons(x, tail + [e], blocked);
      EligibleCons(x, tail, blocked);
      assert entries + [e] == [x] + (tail + [e]) && entries == [x] + tail;
      var head: seq<Entry> := if Blocked(x.Pair(), blocked) then [] else [x];
      var last: seq<Entry> := if Blocked(e.Pair(), blocked) then [] else [e];
      assert head + (Eligible(tail, blocked) + last) == head + Eligible(tail, blocked) + last;
    }
  }

  lemma EligibleNone(blocked: set<Card>)
    ensures Eligible([], blocked) == []
  {}

  /** Hand against range plays exactly the trials of the two-seat multiway run. */
  lemma HandVsRangeAgrees(hero: Hole, villain: RangeSpec, board: seq<Card>)
    ensures HandVsRangeTrials(hero, villain, board) == MultiwayTrials([HandPlayer(hero), RangePlayer(villain)], board)
  {
    hide Expanded, AllTupleTrials, CombosVsCombos, ComboVsCombos, HandVsCombos, TupleProduct, Distinct, Elements, ClearOf, SortCards;
    var players := [HandPlayer(hero), RangePlayer(villain)];
    var sorted := SortCards(board);
    SortedBoard(board);
    var a, c := HandOf(hero), SortedHand(hero);
    HandCombos(hero, Elements(sorted));
    var villains := Expanded(villain, Elements(sorted));
    assert ComboLists(players, Elements(sorted)) == [[c], villains];
    assert players[1].RangePlayer?;
    assert multiset(sorted + Holding(c)) == multiset(Holding(a) + board);
    DistinctPermuted(sorted + Holding(c), Holding(a) + board);
    assert Known(Holding(a) + board) <==> Known(sorted + Holding(c));
    HandDead(a, c, villain, board, sorted);
    OneAdmitted(c, sorted);
    if Known(Holding(a) + board) && |board| <= 5 {
      NoCombos(a, board);
      DistinctAppend(Holding(a), board);
      ExpansionAdmitted(villain, sorted);
      ExpansionClear(villain, sorted);
      HandAgainst(a, c, villains, board, sorted);
      assert AllAdmitted([[c], villains], sorted) <==> villains != [];
      assert HandVsRangeTrials(hero, villain, board) == HandVsCombos(a, Unclashing(c, villains), board);
    } else {
      assert HandVsRangeTrials(hero, villain, board) == [];
      assert AllAdmitted([[c], villains], sorted) ==> Admitted([[c], villains][0], sorted);
      assert MultiwayTrials(players, board) == [];
    }
  }

  lemma HandDead(a: Entry, c: Entry, r: RangeSpec, board: seq<Card>, sorted: seq<Card>)
    requires multiset(Holding(a)) == multiset(Holding(c)) && multiset(board) == multiset(sorted)
    ensures Expanded(r, Elements(Holding(a) + board)) == Unclashing(c, Expanded(r, Elements(sorted)))
  {
    hide Expanded;
    DistinctPermuted(board, sorted);
    DistinctPermuted(Holding(a), Holding(c));
    var own := {c.first, c.second};
    assert Elements(Holding(a) + board) == Elements(sorted) + own by {
      assert forall x :: x in Elements(Holding(c)) <==> x in own;
      assert forall x :: x in Elements(Holding(a) + board) <==> x in Elements(Holding(a)) || x in Elements(board);
    }
    DeadCardsFilter(r, Elements(sorted), own);
    UnclashingIsEligible(c, Expanded(r, Elements(sorted)), own);
  }

  lemma HandAgainst(a: Entry, c: Entry, villains: seq<Entry>, board: seq<Card>, sorted: seq<Card>)
    requires multiset(Holding(a)) == multiset(Holding(c)) && c.weight == 1.0
    requires multiset(board) == multiset(sorted) && |board| <= 5 && |sorted| == |board| && Distinct(Holding(a) + board)
    requires ClearOf(villains, sorted) && forall v :: v in villains ==> Distinct(Holding(v))
    ensures HandVsCombos(a, Unclashing(c, villains), board)
         == AllTupleTrials(TupleProduct([[c], villains]), sorted, true)
  {
    hide AllTupleTrials, HandVsCombos, TupleProduct, Distinct, ComboVsCombos;
    DistinctPermuted(board, sorted);
    DistinctPermuted(Holding(a), Holding(c));
    DistinctAppend(Holding(a), board);
    assert Apart(Holding(c), sorted);
    assert ClearOf([c], sorted);
    TwoLists([c], villains);
    RowsAgree([c], villains, sorted);
    OneRow(c, villains, sorted);
    HandRow(a, c, villains, board, sorted);
  }

  lemma OneRow(c: Entry, villains: seq<Entry>, board: seq<Card>)
    requires |board| <= 5
    ensures CombosVsCombos([c], villains, board) == ComboVsCombos(c, villains, board)
  {
    assert [c][..0] == [];
    assert CombosVsCombos([], villains, board) == [];
  }

  // ---------------------------------------------------------------- range against hand

  function Swapped(log: seq<Showdown>): (r: seq<Showdown>)
    requires forall k :: 0 <= k < |log| ==> |log[k].keys| == 2
    ensures |r| == |log|
    ensures forall k :: 0 <= k < |log| ==> r[k] == Showdown([log[k].keys[1], log[k].keys[0]], log[k].weight)
  {
    seq(|log|, k requires 0 <= k < |log| => Showdown([log[k].keys[1], log[k].keys[0]], log[k].weight))
  }

  predicate TwoKeys(log: seq<Showdown>) {
    forall k :: 0 <= k < |log| ==> |log[k].keys| == 2
  }

  lemma SwappedAppend(x: seq<Showdown>, y: seq<Showdown>)
    requires TwoKeys(x) && TwoKeys(y)
    ensures TwoKeys(x + y) && Swapped(x + y) == Swapped(x) + Swapped(y)
  {}

  lemma SwappedCell(c: Entry, v: Entry, board: seq<Card>)
    requires |board| <= 5 && Apart(Holding(c), board) && Apart(Holding(v), board)
    ensures TwoKeys(TupleTrials([c, v], board, true))
    ensures TupleTrials([v, c], board, true) == Swapped(TupleTrials([c, v], board, true))
  {
    hide TupleTrials, Runouts, Times, Apart, Trials, Clash, Joint, Holding;
    PairTrials(c, v, board);
    PairTrials(v, c, board);
    TimesCommutes(c.weight, v.weight);
    JointCommutes(c, v, board);
    SwappedTrials(c, v, board, Runouts(Joint(board, c, v), 5 - |board|), Times(c.weight, v.weight));
  }

  lemma SwappedTrials(c: Entry, v: Entry, board: seq<Card>, runouts: seq<seq<Card>>, weight: real)
    ensures TwoKeys(Trials([c, v], board, runouts, weight))
    ensures Trials([v, c], board, runouts, weight) == Swapped(Trials([c, v], board, runouts, weight))
  {
    hide BestHandKey, Holding;
    forall k | 0 <= k < |runouts|
      ensures HandKeys([v, c], board + runouts[k]) == [HandKeys([c, v], board + runouts[k])[1], HandKeys([c, v], board + runouts[k])[0]]
    {}
  }

  lemma JointCommutes(c: Entry, v: Entry, board: seq<Card>)
    requires |board| <= 5
    ensures Clash(c, v) <==> Clash(v, c)
    ensures Runouts(Joint(board, c, v), 5 - |board|) == Runouts(Joint(board, v, c), 5 - |board|)
  {
    hide Runouts;
    SameRunouts(Joint(board, c, v), Joint(board, v, c), 5 - |board|);
  }

  lemma TimesCommutes(a: real, b: real)
    ensures Times(a, b) == Times(b, a)
  {}

  /** One more villain. */
  lemma ColumnStep(c: Entry, villains: seq<Entry>, board: seq<Card>)
    requires villains != [] && |board| <= 5 && Apart(Holding(c), board) && ClearOf(villains, board)
    ensures var n := |villains| - 1; var v := villains[n];
            && ClearOf(villains[..n], board) && Apart(Holding(v), board)
            && ComboVsCombos(c, villains, board) == ComboVsCombos(c, villains[..n], board) + TupleTrials([c, v], board, true)
            && ProductOver(villains, Singles([c])) == ProductOver(villains[..n], Singles([c])) + [[v, c]]
  {
    hide Trials, Times, Runouts, Apart, Clash, Holding, TupleTrials;
    var v := villains[|villains| - 1];
    assert v in villains;
    PairTrials(c, v, board);
    var last := PrependAll(v, Singles([c]));
    assert last[0] == [v, c];
    assert last == [[v, c]];
  }

  lemma {:induction false} ColumnAgrees(c: Entry, villains: seq<Entry>, board: seq<Card>)
    requires |board| <= 5 && Apart(Holding(c), board) && ClearOf(villains, board)
    ensures TwoKeys(ComboVsCombos(c, villains, board))
    ensures AllTupleTrials(ProductOver(villains, Singles([c])), board, true) == Swapped(ComboVsCombos(c, villains, board))
  {
    if villains != [] {
      hide ComboVsCombos, ProductOver, TupleTrials, Swapped, AllTupleTrials, TwoKeys, Apart, ClearOf, Holding, Singles;
      var n := |villains| - 1;
      var v := villains[n];
      ColumnStep(c, villains, board);
      ColumnAgrees(c, villains[..n], board);
      SwappedCell(c, v, board);
      TrialsAppend(ProductOver(villains[..n], Singles([c])), [[v, c]], board, true);
      OneTupleTrials([v, c], board, true);
      SwappedAppend(ComboVsCombos(c, villains[..n], board), TupleTrials([c, v], board, true));
    }
  }

  /** With the range in the first seat, the trials are those of hand against range with the players swapped. */
  lemma RangeVsHandAgrees(hero: RangeSpec, villain: Hole, board: seq<Card>)
    ensures TwoKeys(HandVsRangeTrials(villain, hero, board))
    ensures MultiwayTrials([RangePlayer(hero), HandPlayer(villain)], board) == Swapped(HandVsRangeTrials(villain, hero, board))
  {
    hide Expanded, AllTupleTrials, CombosVsCombos, ComboVsCombos, HandVsCombos, TupleProduct, Distinct, Elements, SortCards, Apart;
    var players := [RangePlayer(hero), HandPlayer(villain)];
    var sorted := SortCards(board);
    SortedBoard(board);
    var a, c := HandOf(villain), SortedHand(villain);
    HandCombos(villain, Elements(sorted));
    var heroes := Expanded(hero, Elements(sorted));
    assert ComboLists(players, Elements(sorted)) == [heroes, [c]];
    assert players[0].RangePlayer?;
    assert multiset(sorted + Holding(c)) == multiset(Holding(a) + board);
    DistinctPermuted(sorted + Holding(c), Holding(a) + board);
    HandDead(a, c, hero, board, sorted);
    OneAdmitted(c, sorted);
    if Known(Holding(a) + board) && |board| <= 5 {
      NoCombos(a, board);
      DistinctAppend(Holding(a), board);
      ExpansionAdmitted(hero, sorted);
      ExpansionClear(hero, sorted);
      DistinctPermuted(board, sorted);
      DistinctPermuted(Holding(a), Holding(c));
      assert Apart(Holding(c), sorted) by { ApartPermuted(Holding(a), board, Holding(c), sorted); }
      assert ClearOf(heroes, board) by { ClearPermuted(heroes, board, sorted); }
      HandRow(a, c, heroes, board, sorted);
      ColumnAgrees(c, heroes, sorted);
      TwoLists(heroes, [c]);
      assert AllAdmitted([heroes, [c]], sorted) <==> heroes != [];
      assert HandVsRangeTrials(villain, hero, board) == HandVsCombos(a, Unclashing(c, heroes), board);
    } else {
      assert HandVsRangeTrials(villain, hero, board) == [];
      assert AllAdmitted([heroes, [c]], sorted) ==> Admitted([heroes, [c]][1], sorted);
      assert MultiwayTrials(players, board) == [];
    }
  }

  lemma ApartPermuted(a: seq<Card>, b: seq<Card>, c: seq<Card>, d: seq<Card>)
    requires Apart(a, b) && multiset(a) == multiset(c) && multiset(b) == multiset(d)
    ensures Apart(c, d)
  {
    DistinctPermuted(a, c);
    DistinctPermuted(b, d);
  }

  lemma ClearPermuted(list: seq<Entry>, board: seq<Card>, sorted: seq<Card>)
    requires ClearOf(list, sorted) && multiset(board) == multiset(sorted)
    ensures ClearOf(list, board)
  {
    DistinctPermuted(board, sorted);
  }

  // ---------------------------------------------------------------- hand against hand

  lemma BothAdmitted(x: seq<Entry>, y: seq<Entry>, board: seq<Card>)
    ensures AllAdmitted([x, y], board) <==> Admitted(x, board) && Admitted(y, board)
  {
    hide Admitted;
    assert AllAdmitted([x, y], board) ==> Admitted([x, y][0], board) && Admitted([x, y][1], board);
  }

  lemma NoRange(hero: Hole, villain: Hole)
    ensures !AnyRange([HandPlayer(hero), HandPlayer(villain)])
  {}

  lemma TwoHandLists(hero: Hole, villain: Hole, board: seq<Card>)
    requires |SortCards(board)| == |board|
    ensures var sorted, c, d := SortCards(board), SortedHand(hero), SortedHand(villain);
            MultiwayTrials([HandPlayer(hero), HandPlayer(villain)], board)
            == if !Known(board) || |board| > 5 || !AllAdmitted([[c], [d]], sorted) then []
               else AllTupleTrials(TupleProduct([[c], [d]]), sorted, false)
  {
    hide TupleProduct, Known, Elements, AllTupleTrials, SortCards, SortedHand, AnyRange, AllAdmitted;
    var players, sorted := [HandPlayer(hero), HandPlayer(villain)], SortCards(board);
    HandCombos(hero, Elements(sorted));
    HandCombos(villain, Elements(sorted));
    assert ComboLists(players, Elements(sorted)) == [[SortedHand(hero)], [SortedHand(villain)]];
    NoRange(hero, villain);
  }

  /** The two-seat multiway run of two hands. */
  lemma TwoHands(hero: Hole, villain: Hole, board: seq<Card>)
    ensures var sorted, c, d := SortCards(board), SortedHand(hero), SortedHand(villain);
            MultiwayTrials([HandPlayer(hero), HandPlayer(villain)], board)
            == if Known(board) && |board| <= 5 && Known(sorted + Holding(c)) && Known(sorted + Holding(d))
               then TupleTrials([c, d], sorted, false) else []
  {
    hide TupleTrials, TupleProduct, Known, AllTupleTrials, SortCards, SortedHand, Holding, AllAdmitted, MultiwayTrials;
    var sorted, c, d := SortCards(board), SortedHand(hero), SortedHand(villain);
    SortedBoard(board);
    TwoHandLists(hero, villain, board);
    OneAdmitted(c, sorted);
    OneAdmitted(d, sorted);
    BothAdmitted([c], [d], sorted);
    if |board| <= 5 {
      TwoLists([c], [d]);
      OneTuple(c, d);
      OneTupleTrials([c, d], sorted, false);
    }
  }

  /** Hand against hand plays exactly the trials of the two-seat multiway run. */
  lemma HandVsHandAgrees(hero: Hole, villain: Hole, board: seq<Card>)
    ensures HandVsHandTrials(hero, villain, board) == MultiwayTrials([HandPlayer(hero), HandPlayer(villain)], board)
  {
    hide MultiwayTrials, TupleTrials, Trials, Distinct, SortCards, Runouts, Clash, Apart;
    var sorted := SortCards(board);
    var a, b := HandOf(hero), HandOf(villain);
    var c, d := SortedHand(hero), SortedHand(villain);
    TwoHands(hero, villain, board);
    HandsKnown(a, b, c, d, board, sorted);
    if |board| <= 5 && Known(board) && Known(sorted + Holding(c)) && Known(sorted + Holding(d)) {
      HandsPlay(a, b, c, d, board, sorted);
    }
  }

  lemma OneAdmitted(c: Entry, board: seq<Card>)
    ensures Admitted([c], board) <==> Known(board + Holding(c))
  {
    assert c in [c];
  }

  lemma OneTupleTrials(tuple: seq<Entry>, board: seq<Card>, weighted: bool)
    requires |board| <= 5
    ensures AllTupleTrials([tuple], board, weighted) == TupleTrials(tuple, board, weighted)
  {
    hide TupleTrials;
    assert [tuple][..0] == [];
    NoTuples(board, weighted);
  }

  lemma OneTuple(c: Entry, d: Entry)
    ensures ProductOver([c], Singles([d])) == [[c, d]]
  {
    var last := PrependAll(c, Singles([d]));
    assert last[0] == [c, d];
    assert [c][..0] == [] && ProductOver([], Singles([d])) == [];
  }

  lemma HandsKnown(a: Entry, b: Entry, c: Entry, d: Entry, board: seq<Card>, sorted: seq<Card>)
    requires multiset(Holding(a)) == multiset(Holding(c)) && multiset(Holding(b)) == multiset(Holding(d))
    requires multiset(board) == multiset(sorted) && |board| == |sorted|
    ensures Distinct(Holding(a) + Holding(b) + board) <==>
            Distinct(board) && Distinct(sorted + Holding(c)) && Distinct(sorted + Holding(d)) && !Clash(c, d)
    ensures Distinct(sorted + Holding(c)) ==> Apart(Holding(c), sorted)
    ensures Distinct(sorted + Holding(d)) ==> Apart(Holding(d), sorted)
  {
    var known := Holding(a) + Holding(b) + board;
    assert multiset(known) == multiset(Joint(sorted, c, d));
    DistinctPermuted(known, Joint(sorted, c, d));
    DistinctPermuted(board, sorted);
    DistinctAppend(sorted + Holding(c), Holding(d));
    DistinctAppend(sorted, Holding(c));
    DistinctAppend(sorted, Holding(d));
    if Distinct(sorted + Holding(c)) { ApartSymmetric(sorted, Holding(c)); }
    if Distinct(sorted + Holding(d)) { ApartSymmetric(sorted, Holding(d)); }
    hide Distinct;
    assert forall x :: x in sorted + Holding(c) <==> x in sorted || x in Holding(c);
    assert c.first in Holding(c) && c.second in Holding(c);
    assert Apart(Holding(c), Holding(d)) <==> !Clash(c, d);
  }

  lemma KnownIsJoint(a: Entry, b: Entry, c: Entry, d: Entry, board: seq<Card>, sorted: seq<Card>)
    requires multiset(Holding(a)) == multiset(Holding(c)) && multiset(Holding(b)) == multiset(Holding(d))
    requires multiset(board) == multiset(sorted)
    ensures multiset(Holding(a) + Holding(b) + board) == multiset(Joint(sorted, c, d))
  {
    hide Holding;
  }

  lemma HandsPlay(a: Entry, b: Entry, c: Entry, d: Entry, board: seq<Card>, sorted: seq<Card>)
    requires multiset(Holding(a)) == multiset(Holding(c)) && multiset(Holding(b)) == multiset(Holding(d))
    requires multiset(board) == multiset(sorted) && |board| == |sorted| <= 5
    requires Distinct(board) && Distinct(sorted + Holding(c)) && Distinct(sorted + Holding(d))
    ensures var known := Holding(a) + Holding(b) + board;
            TupleTrials([c, d], sorted, false)
            == if Distinct(known) then Trials([a, b], board, Runouts(known, 5 - |board|), 1.0) else []
  {
    hide Distinct, Trials, Runouts, Apart, Clash, Holding, Joint, Joined;
    var known := Holding(a) + Holding(b) + board;
    HandsKnown(a, b, c, d, board, sorted);
    JoinedPair(sorted, c, d);
    if Distinct(known) {
      KnownIsJoint(a, b, c, d, board, sorted);
      SameRunouts(known, Joint(sorted, c, d), 5 - |board|);
      SameTrials(a, b, c, d, board, sorted, known, 1.0);
    }
  }

  // ---------------------------------------------------------------- equal answers

  /** Both fail, or both give the same equities, tie probability and trial count. */
  predicate SameAnswer(h: Option<HeadsUpEquity>, m: Option<MultiwayEquity>, heroSeat: int, villainSeat: int) {
    && (h.None? <==> m.None?)
    && (h.Some? ==>
          heroSeat in m.value.equityBySeat && villainSeat in m.value.equityBySeat
          && h.value.heroEquity == m.value.equityBySeat[heroSeat]
          && h.value.villainEquity == m.value.equityBySeat[villainSeat]
          && h.value.tieProbability == m.value.tieProbability
          && h.value.trials == m.value.trials)
  }

  lemma SwappedMasses(log: seq<Showdown>)
    requires ValidLog(log, 2)
    ensures ValidLog(Swapped(log), 2) && TotalWeight(Swapped(log)) == TotalWeight(log)
    ensures Sum(Shares(Swapped(log), 2, 0)) == Sum(Shares(log, 2, 1))
    ensures Sum(Shares(Swapped(log), 2, 1)) == Sum(Shares(log, 2, 0))
    ensures Sum(TieWeights(Swapped(log), 2)) == Sum(TieWeights(log, 2))
  {
    var swapped := Swapped(log);
    assert Weights(swapped) == Weights(log);
    forall k | 0 <= k < |log|
      ensures Share(swapped[k], 0) == Share(log[k], 1) && Share(swapped[k], 1) == Share(log[k], 0)
      ensures TieWeight(swapped[k]) == TieWeight(log[k])
    {
      TwoPlayerShare(log[k], 0);
      TwoPlayerShare(log[k], 1);
      TwoPlayerShare(swapped[k], 0);
      TwoPlayerShare(swapped[k], 1);
    }
    assert Shares(swapped, 2, 0) == Shares(log, 2, 1);
    assert Shares(swapped, 2, 1) == Shares(log, 2, 0);
    assert TieWeights(swapped, 2) == TieWeights(log, 2);
  }

  /**
   * On every two-player input the multiway routine and the matching heads-up routine fail together
   * or give the same equities, tie probability and number of trials.
   */
  lemma TwoPlayersAgree(a: Player, b: Player, board: seq<Card>, cap: nat, seats: seq<int>,
                        h: Option<HeadsUpEquity>, m: Option<MultiwayEquity>)
    requires |seats| == 2 && seats[0] != seats[1]
    requires ReportsMultiway(m, seats, MultiwayTrials([a, b], board), cap)
    requires a.HandPlayer? && b.HandPlayer? ==> ReportsHeadsUp(h, HandVsHandTrials(a.cards, b.cards, board), cap)
    requires a.HandPlayer? && b.RangePlayer? ==> ReportsHeadsUp(h, HandVsRangeTrials(a.cards, b.range, board), cap)
    requires a.RangePlayer? && b.RangePlayer? ==> ReportsHeadsUp(h, RangeVsRangeTrials(a.range, b.range, board), cap)
    requires a.RangePlayer? && b.HandPlayer? ==> ReportsHeadsUp(h, HandVsRangeTrials(b.cards, a.range, board), cap)
    ensures a.RangePlayer? && b.HandPlayer? ==> SameAnswer(h, m, seats[1], seats[0])
    ensures a.HandPlayer? || b.RangePlayer? ==> SameAnswer(h, m, seats[0], seats[1])
  {
    hide EquityOf, TieProbability, TotalWeight, HandVsHandTrials, HandVsRangeTrials, RangeVsRangeTrials, MultiwayTrials, ValidLog;
    match (a, b) {
      case (HandPlayer(x), HandPlayer(y)) => HandVsHandAgrees(x, y, board);
      case (HandPlayer(x), RangePlayer(y)) => HandVsRangeAgrees(x, y, board);
      case (RangePlayer(x), RangePlayer(y)) => RangeVsRangeAgrees(x, y, board);
      case (RangePlayer(x), HandPlayer(y)) =>
        RangeVsHandAgrees(x, y, board);
        if h.Some? {
          SwappedEquities(HandVsRangeTrials(y, x, board));
        }
    }
  }

  lemma SwappedEquities(log: seq<Showdown>)
    requires ValidLog(log, 2) && TotalWeight(log) > 0.0
    ensures ValidLog(Swapped(log), 2) && TotalWeight(Swapped(log)) > 0.0
    ensures EquityOf(Swapped(log), 2, 0) == EquityOf(log, 2, 1)
    ensures EquityOf(Swapped(log), 2, 1) == EquityOf(log, 2, 0)
    ensures TieProbability(Swapped(log), 2) == TieProbability(log, 2)
  {
    hide Ratio;
    SwappedMasses(log);
  }

  // ---------------------------------------------------------------- conservation

  /** The first n players' shares of one showdown. */
  function ShareSum(d: Showdown, n: nat): real
    requires n <= |d.keys|
  {
    if n == 0 then 0.0 else ShareSum(d, n - 1) + Share(d, n - 1)
  }

  lemma {:induction false} SharesSoFar(d: Showdown, n: nat)
    requires d.keys != [] && n <= |d.keys|
    ensures ShareSum(d, n) == Times(CountKey(d.keys[..n], BestKey(d.keys)) as real, SplitShare(d))
  {
    hide SplitShare, BestKey;
    if n > 0 {
      SharesSoFar(d, n - 1);
      assert d.keys[..n][..n - 1] == d.keys[..n - 1];
    }
  }

  /** One showdown hands out exactly its weight, whatever the ties. */
  lemma ShowdownConserves(d: Showdown)
    requires d.keys != []
    ensures ShareSum(d, |d.keys|) == d.weight
  {
    SharesSoFar(d, |d.keys|);
    assert d.keys[..|d.keys|] == d.keys;
    SplitsWhole(d);
    hide ShareSum, SplitShare, BestKey;
  }

  lemma WholeOfParts(n: real, whole: real)
    requires n > 0.0
    ensures Times(n, whole / n) == whole
  {}

  lemma SplitsWhole(d: Showdown)
    requires d.keys != []
    ensures Times(CountKey(d.keys, BestKey(d.keys)) as real, SplitShare(d)) == d.weight
  {
    CountPresent(d.keys, BestKey(d.keys));
    WholeOfParts(Winners(d) as real, d.weight);
  }

  /** The masses of the first n seats. */
  function MassOfSeats(log: seq<Showdown>, players: nat, n: nat): real
    requires ValidLog(log, players) && n <= players
  {
    if n == 0 then 0.0 else MassOfSeats(log, players, n - 1) + Sum(Shares(log, players, n - 1))
  }

  function ShareSums(log: seq<Showdown>, players: nat, n: nat): (s: seq<real>)
    requires ValidLog(log, players) && n <= players
    ensures |s| == |log| && forall k :: 0 <= k < |log| ==> s[k] == ShareSum(log[k], n)
  {
    seq(|log|, k requires 0 <= k < |log| => ShareSum(log[k], n))
  }

  lemma {:induction false} MassByShowdown(log: seq<Showdown>, players: nat, n: nat)
    requires ValidLog(log, players) && n <= players
    ensures MassOfSeats(log, players, n) == Sum(ShareSums(log, players, n))
  {
    hide Share;
    if n == 0 {
      SumZero(ShareSums(log, players, 0));
    } else {
      MassByShowdown(log, players, n - 1);
      SumAdd(ShareSums(log, players, n - 1), Shares(log, players, n - 1), ShareSums(log, players, n));
    }
  }

  /** For any number of players and any ties, the seats' win masses sum to the total mass. */
  lemma MassConserved(log: seq<Showdown>, players: nat)
    requires ValidLog(log, players)
    ensures MassOfSeats(log, players, players) == TotalWeight(log)
  {
    MassByShowdown(log, players, players);
    forall k | 0 <= k < |log| ensures ShareSum(log[k], players) == log[k].weight {
      ShowdownConserves(log[k]);
    }
    assert ShareSums(log, players, players) == Weights(log);
  }

  function EquitySum(log: seq<Showdown>, players: nat, n: nat): real
    requires ValidLog(log, players) && n <= players && TotalWeight(log) != 0.0
  {
    if n == 0 then 0.0 else EquitySum(log, players, n - 1) + EquityOf(log, players, n - 1)
  }

  lemma {:induction false} EquitySumIsMass(log: seq<Showdown>, players: nat, n: nat)
    requires ValidLog(log, players) && n <= players && TotalWeight(log) != 0.0
    ensures EquitySum(log, players, n) == Ratio(MassOfSeats(log, players, n), TotalWeight(log))
  {
    hide Ratio, Shares, TotalWeight;
    if n == 0 {
      RatioAdd(0.0, 0.0, TotalWeight(log));
    } else {
      EquitySumIsMass(log, players, n - 1);
      RatioAdd(MassOfSeats(log, players, n - 1), Sum(Shares(log, players, n - 1)), TotalWeight(log));
    }
  }

  /** The equities of all seats sum to one. */
  lemma EquitiesSumToOne(log: seq<Showdown>, players: nat)
    requires ValidLog(log, players) && log != []
    ensures TotalWeight(log) > 0.0 && EquitySum(log, players, players) == 1.0
  {
    WeightPositive(log, players);
    EquitySumIsMass(log, players, players);
    MassConserved(log, players);
    RatioAdd(0.0, 0.0, TotalWeight(log));
  }

  /** The precomputed workload: one binomial per tuple without a clash. */
  function Workload(tuples: seq<seq<Entry>>, board: seq<Card>): nat
    requires |board| <= 5
  {
    if tuples == [] then 0
    else
      var known := Joined(board, tuples[|tuples| - 1]);
      Workload(tuples[..|tuples| - 1], board)
      + if known.None? then 0 else Binomial(|Deck(Elements(known.value))|, 5 - |board|)
  }

  /** The exact run ends after exactly the precomputed number of trials. */
  lemma {:induction false} TrialsAreWorkload(tuples: seq<seq<Entry>>, board: seq<Card>, weighted: bool)
    requires |board| <= 5
    ensures |AllTupleTrials(tuples, board, weighted)| == Workload(tuples, board)
  {
    hide Trials, TrialWeight, Deck, Elements, Binomial, Combinations;
    if tuples != [] {
      var n := |tuples| - 1;
      TrialsAreWorkload(tuples[..n], board, weighted);
      var known := Joined(board, tuples[n]);
      if known.Some? {
        TrialCount(tuples[n], board, known.value, 5 - |board|, TrialWeight(tuples[n], weighted));
      }
    }
  }

  /**
   * With equally weighted trials, the mean squared share is at least the squared mean share,
   * so the variance estimate of the split-tie Monte Carlo needs no clamping.
   */
  lemma SplitTieVariance(log: seq<Showdown>, players: nat, i: nat)
    requires ValidLog(log, players) && i < players && log != []
    requires forall k :: 0 <= k < |log| ==> log[k].weight == 1.0
    ensures TotalWeight(log) == |log| as real
    ensures Ratio(Sum(Squares(Shares(log, players, i))), TotalWeight(log)) - Square(EquityOf(log, players, i)) >= 0.0
  {
    hide Share, Ratio, Square;
    var shares := Shares(log, players, i);
    SumOnes(Weights(log));
    CauchySchwarz(shares);
    hide *;
    MeanSquareBound(Sum(shares), Sum(Squares(shares)), |log| as real);
  }

  lemma MeanSquareBound(total: real, squares: real, n: real)
    requires n > 0.0 && Square(total) <= n * squares
    ensures Square(Ratio(total, n)) <= Ratio(squares, n)
  {
    var mean := Ratio(total, n);
    var scaled := Square(mean) * n;
    assert mean * n == total;
    assert scaled * n == (mean * n) * (mean * n);
    CancelFactor(scaled, squares, n);
    assert Ratio(squares, n) * n == squares;
    CancelFactor(Square(mean), Ratio(squares, n), n);
  }

  lemma CancelFactor(a: real, b: real, n: real)
    requires n > 0.0 && a * n <= b * n
    ensures a <= b
  {
    assert a - b > 0.0 ==> (a - b) * n > 0.0;
  }
}
