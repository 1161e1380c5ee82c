/** The trials of an exact run are the deals that can still happen, each of them once. */
module EquityDeals {
  import opened Cards
  import opened Combos
  import opened HandEvaluator
  import opened HandTheorems
  import opened HandOrders
  import opened RangeExpansion
  import opened Showdowns
  import opened Sums
  import opened Equity
  import opened Multiway
  import opened EquityTheorems
  import opened EquitySampling

  // ---------------------------------------------------------------- runouts

  /** Every set of missing cards outside the known ones is listed exactly once. */
  ghost predicate EachOnce(runs: seq<seq<Card>>, known: set<Card>, missing: nat) {
    && (forall k :: 0 <= k < |runs| ==> |runs[k]| == missing && Distinct(runs[k]) && Elements(runs[k]) !! known)
    && (forall chosen: set<Card> :: chosen !! known && |chosen| == missing ==>
          exists k :: 0 <= k < |runs| && Elements(runs[k]) == chosen)
    && (forall i, j :: 0 <= i < j < |runs| ==> Elements(runs[i]) != Elements(runs[j]))
  }

  lemma CombinationsApart<T>(x: T, tails: seq<seq<T>>, others: seq<seq<T>>, i: nat, j: nat)
    requires forall k :: 0 <= k < |tails| ==> x !in Elements(tails[k])
    requires forall k :: 0 <= k < |others| ==> x !in Elements(others[k])
    requires forall a, b :: 0 <= a < b < |tails| ==> Elements(tails[a]) != Elements(tails[b])
    requires forall a, b :: 0 <= a < b < |others| ==> Elements(others[a]) != Elements(others[b])
    requires i < j < |tails| + |others|
    ensures var all := PrependAll(x, tails) + others; Elements(all[i]) != Elements(all[j])
  {
    var all := PrependAll(x, tails) + others;
    if i < |tails| {
      ElementsCons(x, tails[i]);
      assert all[i] == [x] + tails[i];
      if j < |tails| {
        ElementsCons(x, tails[j]);
        assert all[j] == [x] + tails[j];
        hide Elements;
        assert Elements(tails[i]) == Elements(all[i]) - {x} && Elements(tails[j]) == Elements(all[j]) - {x};
      } else {
        assert all[j] == others[j - |tails|];
      }
    } else {
      assert all[i] == others[i - |tails|] && all[j] == others[j - |tails|];
    }
  }

  /** No two combinations have the same members. */
  lemma {:induction false} CombinationsDiffer<T>(items: seq<T>, k: nat)
    requires Distinct(items)
    ensures forall i, j :: 0 <= i < j < |Combinations(items, k)| ==> Elements(Combinations(items, k)[i]) != Elements(Combinations(items, k)[j])
    decreases |items|
  {
    if k > 0 && items != [] {
      hide Combinations, Elements, Distinct, PrependAll;
      var x, rest := items[0], items[1..];
      DistinctTail(items);
      CombinationsStep(items, k);
      CombinationsDiffer(rest, k - 1);
      CombinationsDiffer(rest, k);
      var tails, others := Combinations(rest, k - 1), Combinations(rest, k);
      forall t | 0 <= t < |tails| ensures x !in Elements(tails[t]) { CombinationIsSubset(rest, k - 1, tails[t]); }
      forall t | 0 <= t < |others| ensures x !in Elements(others[t]) { CombinationIsSubset(rest, k, others[t]); }
      forall i, j | 0 <= i < j < |Combinations(items, k)|
        ensures Elements(Combinations(items, k)[i]) != Elements(Combinations(items, k)[j])
      {
        CombinationsApart(x, tails, others, i, j);
      }
    }
  }

  /** The runouts of a run are every set of missing cards outside the known ones, each exactly once. */
  lemma RunoutsOnce(known: seq<Card>, missing: nat)
    ensures EachOnce(Runouts(known, missing), Elements(known), missing)
  {
    var deck, runs := Deck(Elements(known)), Runouts(known, missing);
    CombinationsDiffer(deck, missing);
    hide Combinations;
    forall k | 0 <= k < |runs| ensures |runs[k]| == missing && Distinct(runs[k]) && Elements(runs[k]) !! Elements(known) {
      CombinationIsSubset(deck, missing, runs[k]);
    }
    forall chosen: set<Card> | chosen !! Elements(known) && |chosen| == missing
      ensures exists k :: 0 <= k < |runs| && Elements(runs[k]) == chosen
    {
      forall c | c in chosen ensures c in Elements(deck) { assert c in deck; }
      var pick := SubsetIsCombination(deck, missing, chosen);
    }
  }

  /** The runouts that a sampled trial can pick. */
  ghost predicate ReachesAll(board: seq<Card>, tuple: seq<Entry>, known: set<Card>)
    requires |board| <= 5 && Joined(board, tuple).Some?
  {
    && (forall choice: nat :: PickedRunout(board, tuple, choice).Some? ==>
          |PickedRunout(board, tuple, choice).value| == 5 - |board| && Distinct(PickedRunout(board, tuple, choice).value)
          && Elements(PickedRunout(board, tuple, choice).value) !! known)
    && (forall chosen: set<Card> :: chosen !! known && |chosen| == 5 - |board| ==>
          exists choice: nat :: PickedRunout(board, tuple, choice).Some? && Elements(PickedRunout(board, tuple, choice).value) == chosen)
  }

  lemma PickedIs(board: seq<Card>, tuple: seq<Entry>, choice: nat)
    requires |board| <= 5 && Joined(board, tuple).Some?
    ensures var runs := Runouts(Joined(board, tuple).value, 5 - |board|);
            && (PickedRunout(board, tuple, choice).Some? ==> runs != [] && PickedRunout(board, tuple, choice).value in runs)
            && (choice < |runs| ==> PickedRunout(board, tuple, choice) == Some(runs[choice]))
  {
    hide Runouts, Joined;
    var runs := Runouts(Joined(board, tuple).value, 5 - |board|);
    if choice < |runs| { assert choice % |runs| == choice; }
  }

  lemma RunoutUnseen(known: seq<Card>, missing: nat, runout: seq<Card>)
    requires runout in Runouts(known, missing)
    ensures |runout| == missing && Distinct(runout) && Elements(runout) !! Elements(known)
  {
    RunoutCards(known, missing, runout);
  }

  lemma SomeRunout(known: seq<Card>, missing: nat, chosen: set<Card>) returns (k: nat)
    requires chosen !! Elements(known) && |chosen| == missing
    ensures k < |Runouts(known, missing)| && Elements(Runouts(known, missing)[k]) == chosen
  {
    RunoutsOnce(known, missing);
    hide Runouts;
    k :| k < |Runouts(known, missing)| && Elements(Runouts(known, missing)[k]) == chosen;
  }

  lemma PickIsUnseen(board: seq<Card>, tuple: seq<Entry>, choice: nat)
    requires |board| <= 5 && Joined(board, tuple).Some? && PickedRunout(board, tuple, choice).Some?
    ensures var runout := PickedRunout(board, tuple, choice).value;
            |runout| == 5 - |board| && Distinct(runout) && Elements(runout) !! Elements(Joined(board, tuple).value)
  {
    hide Runouts, Joined, PickedRunout, Elements, Distinct;
    PickedIs(board, tuple, choice);
    RunoutUnseen(Joined(board, tuple).value, 5 - |board|, PickedRunout(board, tuple, choice).value);
  }

  lemma SomePick(board: seq<Card>, tuple: seq<Entry>, chosen: set<Card>) returns (choice: nat)
    requires |board| <= 5 && Joined(board, tuple).Some?
    requires chosen !! Elements(Joined(board, tuple).value) && |chosen| == 5 - |board|
    ensures PickedRunout(board, tuple, choice).Some? && Elements(PickedRunout(board, tuple, choice).value) == chosen
  {
    hide Runouts, Joined, PickedRunout, Elements, Distinct;
    choice := SomeRunout(Joined(board, tuple).value, 5 - |board|, chosen);
    PickedIs(board, tuple, choice);
  }

  /** A sampled trial can pick every set of missing cards outside the known ones, and nothing else. */
  lemma PicksReachAll(board: seq<Card>, tuple: seq<Entry>)
    requires |board| <= 5 && Joined(board, tuple).Some?
    ensures ReachesAll(board, tuple, Elements(Joined(board, tuple).value))
  {
    hide Joined, PickedRunout, Elements, Distinct;
    forall choice: nat | PickedRunout(board, tuple, choice).Some?
      ensures |PickedRunout(board, tuple, choice).value| == 5 - |board| && Distinct(PickedRunout(board, tuple, choice).value)
      ensures Elements(PickedRunout(board, tuple, choice).value) !! Elements(Joined(board, tuple).value)
    {
      PickIsUnseen(board, tuple, choice);
    }
    forall chosen: set<Card> | chosen !! Elements(Joined(board, tuple).value) && |chosen| == 5 - |board|
      ensures exists choice: nat :: PickedRunout(board, tuple, choice).Some? && Elements(PickedRunout(board, tuple, choice).value) == chosen
    {
      var choice := SomePick(board, tuple, chosen);
    }
  }

  // ---------------------------------------------------------------- tuples

  lemma {:induction false} OverOnce(items: seq<Entry>, rest: seq<seq<Entry>>)
    requires Distinct(items) && Distinct(rest)
    ensures Distinct(ProductOver(items, rest))
  {
    if items != [] {
      var n := |items| - 1;
      var before, last := ProductOver(items[..n], rest), PrependAll(items[n], rest);
      OverOnce(items[..n], rest);
      forall i | 0 <= i < |before| ensures before[i] != [] && before[i][0] != items[n] {
        OverMember(items[..n], rest, before[i]);
        assert before[i] in before;
      }
      forall i, j | 0 <= i < j < |last| ensures last[i] != last[j] {
        assert last[i][1..] == rest[i] && last[j][1..] == rest[j];
      }
    }
  }

  /** The product lists every choice once. */
  lemma {:induction false} TuplesOnce(lists: seq<seq<Entry>>)
    requires forall i :: 0 <= i < |lists| ==> Distinct(lists[i])
    ensures Distinct(TupleProduct(lists))
  {
    if lists != [] {
      TuplesOnce(lists[1..]);
      OverOnce(lists[0], TupleProduct(lists[1..]));
    }
  }

  function CardsOf(e: Entry): set<Card> {
    {e.first, e.second}
  }

  /** No card of a hand is among the given ones or in another hand. */
  predicate HandsApart(cards: set<Card>, holes: seq<Entry>) {
    && (forall i :: 0 <= i < |holes| ==> CardsOf(holes[i]) !! cards)
    && (forall i, j :: 0 <= i < j < |holes| ==> CardsOf(holes[i]) !! CardsOf(holes[j]))
  }

  function AllCards(cards: set<Card>, holes: seq<Entry>): set<Card> {
    cards + set i, c | 0 <= i < |holes| && c in CardsOf(holes[i]) :: c
  }

  lemma {:induction false} JoinedIff(cards: seq<Card>, tuple: seq<Entry>)
    ensures Joined(cards, tuple).Some? <==> HandsApart(Elements(cards), tuple)
    ensures Joined(cards, tuple).Some? ==> Elements(Joined(cards, tuple).value) == AllCards(Elements(cards), tuple)
    decreases |tuple|
  {
    if tuple != [] {
      var e, rest, more := tuple[0], tuple[1..], cards + Holding(tuple[0]);
      JoinedIff(more, rest);
      assert Elements(more) == Elements(cards) + CardsOf(e);
      ApartStep(Elements(cards), tuple);
      hide Elements;
    }
  }

  lemma ApartJoins(cards: set<Card>, tuple: seq<Entry>)
    requires tuple != [] && CardsOf(tuple[0]) !! cards && HandsApart(cards + CardsOf(tuple[0]), tuple[1..])
    ensures HandsApart(cards, tuple)
  {
    var e, rest := tuple[0], tuple[1..];
    hide CardsOf;
    forall i | 0 <= i < |tuple| ensures CardsOf(tuple[i]) !! cards {
      if i > 0 { assert CardsOf(rest[i - 1]) !! cards + CardsOf(e); }
    }
    forall i, j | 0 <= i < j < |tuple| ensures CardsOf(tuple[i]) !! CardsOf(tuple[j]) {
      if i == 0 { assert CardsOf(rest[j - 1]) !! cards + CardsOf(e); } else { assert CardsOf(rest[i - 1]) !! CardsOf(rest[j - 1]); }
    }
  }

  lemma ApartSplits(cards: set<Card>, tuple: seq<Entry>)
    requires tuple != [] && HandsApart(cards, tuple)
    ensures CardsOf(tuple[0]) !! cards && HandsApart(cards + CardsOf(tuple[0]), tuple[1..])
  {
    var rest := tuple[1..];
    hide CardsOf;
    forall i | 0 <= i < |rest| ensures CardsOf(rest[i]) !! cards + CardsOf(tuple[0]) { assert rest[i] == tuple[i + 1]; }
    forall i, j | 0 <= i < j < |rest| ensures CardsOf(rest[i]) !! CardsOf(rest[j]) { assert rest[i] == tuple[i + 1] && rest[j] == tuple[j + 1]; }
  }

  lemma AllCardsStep(cards: set<Card>, tuple: seq<Entry>)
    requires tuple != []
    ensures AllCards(cards, tuple) == AllCards(cards + CardsOf(tuple[0]), tuple[1..])
  {
    var e, rest := tuple[0], tuple[1..];
    hide CardsOf;
    forall c ensures c in AllCards(cards, tuple) <==> c in AllCards(cards + CardsOf(e), rest) {
      if c in AllCards(cards, tuple) && c !in cards {
        var i :| 0 <= i < |tuple| && c in CardsOf(tuple[i]);
        if i > 0 { assert c in CardsOf(rest[i - 1]); }
      }
      if c in AllCards(cards + CardsOf(e), rest) && c !in cards && c !in CardsOf(e) {
        var i :| 0 <= i < |rest| && c in CardsOf(rest[i]);
        assert c in CardsOf(tuple[i + 1]);
      }
      assert c in CardsOf(e) ==> c in CardsOf(tuple[0]);
    }
  }

  lemma ApartStep(cards: set<Card>, tuple: seq<Entry>)
    requires tuple != []
    ensures HandsApart(cards, tuple) <==> CardsOf(tuple[0]) !! cards && HandsApart(cards + CardsOf(tuple[0]), tuple[1..])
    ensures AllCards(cards, tuple) == AllCards(cards + CardsOf(tuple[0]), tuple[1..])
  {
    hide CardsOf, HandsApart, AllCards;
    AllCardsStep(cards, tuple);
    if HandsApart(cards, tuple) { ApartSplits(cards, tuple); }
    if CardsOf(tuple[0]) !! cards && HandsApart(cards + CardsOf(tuple[0]), tuple[1..]) { ApartJoins(cards, tuple); }
  }

  // ---------------------------------------------------------------- deals

  /** One combo per seat and the cards that are still to come. */
  datatype Deal = Deal(holes: seq<Entry>, runout: seq<Card>)

  /** The combo is the player's hand, or a combo of its range with its weight once the board is known. */
  predicate Holds(p: Player, board: set<Card>, e: Entry) {
    match p
    case HandPlayer(cards) => e.weight == 1.0 && e.Pair() == SortPair(cards.0, cards.1)
    case RangePlayer(range) => RangeWeight(range, board, e.Pair()) == e.weight > 0.0
  }

  /** A deal that the known cards allow. */
  ghost predicate Possible(players: seq<Player>, board: seq<Card>, holes: seq<Entry>, chosen: set<Card>) {
    && |holes| == |players| && (forall i :: 0 <= i < |players| ==> Holds(players[i], Elements(board), holes[i]))
    && HandsApart(Elements(board), holes)
    && chosen !! AllCards(Elements(board), holes) && |chosen| == 5 - |board|
  }

  /** A seat has a combo, and a hand's cards are two unseen ones. */
  ghost predicate SeatAccepted(p: Player, board: seq<Card>) {
    (exists e :: Holds(p, Elements(board), e))
    && (p.HandPlayer? ==> p.cards.0 != p.cards.1 && p.cards.0 !in board && p.cards.1 !in board)
  }

  /** The input that the routine accepts. */
  ghost predicate Accepts(players: seq<Player>, board: seq<Card>) {
    && |players| >= 2 && Distinct(board) && |board| <= 5
    && forall i :: 0 <= i < |players| ==> SeatAccepted(players[i], board)
  }

  /** Trial k shows down the k-th deal. */
  predicate Shows(d: Showdown, deal: Deal, board: seq<Card>, weighted: bool) {
    && |d.keys| == |deal.holes| && d.weight == (if weighted then ProductOfWeights(deal.holes) else 1.0)
    && forall i :: 0 <= i < |deal.holes| ==>
         d.keys[i] == BestHandKey([deal.holes[i].first, deal.holes[i].second] + board + deal.runout)
  }

  /** The trials are the possible deals, each exactly once. */
  ghost predicate DealsEach(log: seq<Showdown>, deals: seq<Deal>, players: seq<Player>, board: seq<Card>) {
    && |log| == |deals|
    && (forall k :: 0 <= k < |log| ==>
          Shows(log[k], deals[k], board, exists i :: 0 <= i < |players| && players[i].RangePlayer?)
          && Distinct(deals[k].runout) && Possible(players, board, deals[k].holes, Elements(deals[k].runout)))
    && (forall holes, chosen: set<Card> :: Possible(players, board, holes, chosen) ==>
          exists k :: 0 <= k < |deals| && deals[k].holes == holes && Elements(deals[k].runout) == chosen)
    && (forall i, j :: 0 <= i < j < |deals| ==>
          deals[i].holes != deals[j].holes || Elements(deals[i].runout) != Elements(deals[j].runout))
  }

  // ---------------------------------------------------------------- the trials as deals

  function TupleDeals(tuple: seq<Entry>, runs: seq<seq<Card>>): (deals: seq<Deal>)
    ensures |deals| == |runs| && forall k :: 0 <= k < |runs| ==> deals[k] == Deal(tuple, runs[k])
  {
    seq(|runs|, k requires 0 <= k < |runs| => Deal(tuple, runs[k]))
  }

  /** The deals in the order of the trials. */
  function AllDeals(tuples: seq<seq<Entry>>, board: seq<Card>): seq<Deal>
    requires |board| <= 5
  {
    if tuples == [] then []
    else
      var n := |tuples| - 1;
      AllDeals(tuples[..n], board)
      + if Joined(board, tuples[n]).None? then []
        else TupleDeals(tuples[n], Runouts(Joined(board, tuples[n]).value, 5 - |board|))
  }

  predicate FromRunouts(deal: Deal, tuples: seq<seq<Entry>>, board: seq<Card>)
    requires |board| <= 5
  {
    deal.holes in tuples && Joined(board, deal.holes).Some? && deal.runout in Runouts(Joined(board, deal.holes).value, 5 - |board|)
  }

  lemma {:induction false} TrialsAreDeals(tuples: seq<seq<Entry>>, board: seq<Card>, weighted: bool)
    requires |board| <= 5
    ensures var log, deals := AllTupleTrials(tuples, board, weighted), AllDeals(tuples, board);
            |log| == |deals| && forall k :: 0 <= k < |log| ==>
              log[k] == Showdown(HandKeys(deals[k].holes, board + deals[k].runout), TrialWeight(deals[k].holes, weighted))
  {
    hide Runouts, Joined, HandKeys, TrialWeight;
    if tuples != [] { TrialsAreDeals(tuples[..|tuples| - 1], board, weighted); }
  }

  lemma {:induction false} DealsAre(tuples: seq<seq<Entry>>, board: seq<Card>)
    requires |board| <= 5
    ensures forall deal :: deal in AllDeals(tuples, board) <==> FromRunouts(deal, tuples, board)
  {
    hide Runouts, Joined;
    if tuples != [] {
      var n := |tuples| - 1;
      DealsAre(tuples[..n], board);
      assert tuples == tuples[..n] + [tuples[n]];
      forall deal ensures deal in AllDeals(tuples, board) <==> FromRunouts(deal, tuples, board) {
        LastDeals(tuples, board, deal);
      }
    }
  }

  lemma LastDeals(tuples: seq<seq<Entry>>, board: seq<Card>, deal: Deal)
    requires |board| <= 5 && tuples != []
    ensures deal in AllDeals(tuples, board) <==>
              deal in AllDeals(tuples[..|tuples| - 1], board)
              || (deal.holes == tuples[|tuples| - 1] && Joined(board, deal.holes).Some?
                  && deal.runout in Runouts(Joined(board, deal.holes).value, 5 - |board|))
  {
    hide Runouts, Joined;
    var tuple := tuples[|tuples| - 1];
    if Joined(board, tuple).Some? {
      var runs := Runouts(Joined(board, tuple).value, 5 - |board|);
      var deals := TupleDeals(tuple, runs);
      if deal in deals { var k :| 0 <= k < |deals| && deals[k] == deal; }
      if deal.holes == tuple && deal.runout in runs {
        var k :| 0 <= k < |runs| && runs[k] == deal.runout;
        assert deals[k] == deal;
      }
    }
  }

  ghost predicate DealsDiffer(deals: seq<Deal>) {
    forall i, j :: 0 <= i < j < |deals| ==> deals[i].holes != deals[j].holes || Elements(deals[i].runout) != Elements(deals[j].runout)
  }

  lemma {:induction false} DealsOnce(tuples: seq<seq<Entry>>, board: seq<Card>)
    requires |board| <= 5 && Distinct(tuples)
    ensures DealsDiffer(AllDeals(tuples, board))
  {
    hide Runouts, Joined, Elements;
    if tuples != [] {
      var n := |tuples| - 1;
      DealsOnce(tuples[..n], board);
      DealsAre(tuples[..n], board);
      var before := AllDeals(tuples[..n], board);
      forall i | 0 <= i < |before| ensures before[i].holes != tuples[n] { assert before[i] in before; }
      if Joined(board, tuples[n]).Some? { RunoutsOnce(Joined(board, tuples[n]).value, 5 - |board|); }
    }
  }

  // ---------------------------------------------------------------- the accepted input

  lemma CombosHold(p: Player, board: set<Card>, e: Entry)
    ensures e in PlayerCombos(p, board) <==> Holds(p, board, e)
  {
    if p.RangePlayer? {
      hide RangeWeight, Expanded;
      ExpansionExact(p.range, board);
    }
  }

  lemma CombosOnce(p: Player, board: set<Card>)
    ensures Distinct(PlayerCombos(p, board))
  {
    if p.RangePlayer? {
      hide Expanded;
      ExpansionExact(p.range, board);
      assert forall i, j :: 0 <= i < j < |Expanded(p.range, board)| ==> Expanded(p.range, board)[i].Pair() != Expanded(p.range, board)[j].Pair();
    }
  }

  /** One seat passes the checks exactly if it has a combo, and a hand's cards are two unseen ones. */
  lemma SeatAdmitted(p: Player, board: seq<Card>)
    requires Distinct(board) && |board| <= 5
    ensures Admitted(PlayerCombos(p, Elements(board)), board) <==>
              (exists e :: Holds(p, Elements(board), e))
              && (p.HandPlayer? ==> p.cards.0 != p.cards.1 && p.cards.0 !in board && p.cards.1 !in board)
  {
    var combos := PlayerCombos(p, Elements(board));
    forall e ensures e in combos <==> Holds(p, Elements(board), e) { CombosHold(p, Elements(board), e); }
    match p
    case RangePlayer(range) =>
      ExpansionAdmitted(range, board);
      hide Expanded, RangeWeight, Holds;
      if combos != [] { assert combos[0] in combos; }
    case HandPlayer(cards) =>
      var e := Entry(SortPair(cards.0, cards.1).0, SortPair(cards.0, cards.1).1, 1.0);
      assert combos == [e] && Holds(p, Elements(board), e);
      HandKnown(e, board);
  }

  lemma HandKnown(e: Entry, board: seq<Card>)
    requires Distinct(board) && |board| <= 5
    ensures Known(board + Holding(e)) <==> e.first != e.second && e.first !in board && e.second !in board
  {
    var cards := board + Holding(e);
    assert cards[|board|] == e.first && cards[|board| + 1] == e.second;
    if e.first in board { var i :| 0 <= i < |board| && board[i] == e.first; assert cards[i] == cards[|board|]; }
    if e.second in board { var i :| 0 <= i < |board| && board[i] == e.second; assert cards[i] == cards[|board| + 1]; }
  }

  lemma SeatSorted(p: Player, board: seq<Card>)
    requires Distinct(board) && |board| <= 5
    ensures Admitted(PlayerCombos(p, Elements(SortCards(board))), SortCards(board)) <==> SeatAccepted(p, board)
  {
    hide Holds, PlayerCombos, SortCards, Admitted;
    SortedBoard(board);
    SeatAdmitted(p, SortCards(board));
    MembersOf(SortCards(board));
    MembersOf(board);
    hide Elements, Distinct;
  }

  lemma InputAccepted(players: seq<Player>, board: seq<Card>)
    ensures Accepts(players, board) <==>
              Known(board) && |board| <= 5 && |players| >= 2 && AllAdmitted(ComboLists(players, Elements(SortCards(board))), SortCards(board))
  {
    hide SeatAccepted, PlayerCombos, SortCards, Admitted;
    if Distinct(board) && |board| <= 5 {
      forall i | 0 <= i < |players|
        ensures Admitted(ComboLists(players, Elements(SortCards(board)))[i], SortCards(board)) <==> SeatAccepted(players[i], board)
      {
        SeatSorted(players[i], board);
      }
    }
    hide Elements, Distinct;
  }

  lemma MembersOf(s: seq<Card>)
    ensures forall c :: c in s <==> c in Elements(s)
  {}

  /** A deal on the sorted board is one on the board as given. */
  lemma DealShows(deal: Deal, players: seq<Player>, board: seq<Card>, weighted: bool)
    requires |deal.holes| == |players|
    ensures Shows(Showdown(HandKeys(deal.holes, SortCards(board) + deal.runout), TrialWeight(deal.holes, weighted)), deal, board, weighted)
  {
    hide BestHandKey, SortCards, ProductOfWeights;
    var sorted := SortCards(board);
    forall i | 0 <= i < |deal.holes|
      ensures BestHandKey(Holding(deal.holes[i]) + (sorted + deal.runout))
           == BestHandKey([deal.holes[i].first, deal.holes[i].second] + board + deal.runout)
    {
      KeyIgnoresOrder(Holding(deal.holes[i]) + (sorted + deal.runout), [deal.holes[i].first, deal.holes[i].second] + board + deal.runout);
    }
  }

  /** A deal comes from the runouts of a listed tuple exactly if it is possible. */
  lemma DealsPossible(players: seq<Player>, board: seq<Card>, deal: Deal)
    requires Distinct(board) && |board| <= 5
    ensures var sorted := SortCards(board);
            |sorted| == |board|
            && (FromRunouts(deal, TupleProduct(ComboLists(players, Elements(sorted))), sorted) ==>
                  Possible(players, board, deal.holes, Elements(deal.runout)) && Distinct(deal.runout))
  {
    var sorted := SortCards(board);
    SortedBoard(board);
    var lists := ComboLists(players, Elements(sorted));
    TupleMember(lists, deal.holes);
    JoinedIff(sorted, deal.holes);
    hide Joined, Runouts, TupleProduct, HandsApart, AllCards, Elements, Distinct, PlayerCombos, Holds, SortCards;
    if FromRunouts(deal, TupleProduct(lists), sorted) {
      forall i | 0 <= i < |players| ensures Holds(players[i], Elements(board), deal.holes[i]) {
        CombosHold(players[i], Elements(sorted), deal.holes[i]);
      }
      var known := Joined(sorted, deal.holes).value;
      RunoutsOnce(known, 5 - |board|);
      assert ElementsCount(deal.runout) by { DistinctSize(deal.runout); }
    }
  }

  predicate ElementsCount(s: seq<Card>) {
    Distinct(s) ==> |Elements(s)| == |s|
  }

  lemma DistinctSize(s: seq<Card>)
    ensures ElementsCount(s)
  {
    if Distinct(s) { ElementsOfDistinct(s); }
  }

  lemma PossibleDeals(players: seq<Player>, board: seq<Card>, holes: seq<Entry>, chosen: set<Card>) returns (deal: Deal)
    requires Distinct(board) && |board| <= 5 && Possible(players, board, holes, chosen)
    ensures var sorted := SortCards(board);
            |sorted| == |board| && FromRunouts(deal, TupleProduct(ComboLists(players, Elements(sorted))), sorted)
            && deal.holes == holes && Elements(deal.runout) == chosen
  {
    var sorted := SortCards(board);
    SortedBoard(board);
    var lists := ComboLists(players, Elements(sorted));
    TupleMember(lists, holes);
    JoinedIff(sorted, holes);
    hide Joined, Runouts, TupleProduct, HandsApart, AllCards, Elements, Distinct, PlayerCombos, Holds, SortCards;
    forall i | 0 <= i < |lists| ensures holes[i] in lists[i] {
      CombosHold(players[i], Elements(sorted), holes[i]);
    }
    var known := Joined(sorted, holes).value;
    RunoutsOnce(known, 5 - |board|);
    var runs := Runouts(known, 5 - |board|);
    var k :| 0 <= k < |runs| && Elements(runs[k]) == chosen;
    deal := Deal(holes, runs[k]);
  }

  /**
   * For any number of seats: on accepted input the exact trials are the possible deals, each exactly once, and each
   * shows down its own hands; on any other input there are none.
   */
  lemma EveryDealOnce(players: seq<Player>, board: seq<Card>) returns (deals: seq<Deal>)
    ensures if Accepts(players, board) then DealsEach(MultiwayTrials(players, board), deals, players, board)
            else MultiwayTrials(players, board) == []
  {
    deals := [];
    InputAccepted(players, board);
    SortedTrials(players, board);
    SortedBoard(board);
    hide Accepts, MultiwayTrials, AllTupleTrials, AllDeals, TupleProduct, SortCards, FromRunouts, Possible, Shows, HandKeys, TrialWeight, AllAdmitted;
    if Accepts(players, board) {
      var sorted := SortCards(board);
      var lists, weighted := ComboLists(players, Elements(sorted)), AnyRange(players);
      var tuples := TupleProduct(lists);
      deals := AllDeals(tuples, sorted);
      TrialsAreDeals(tuples, sorted, weighted);
      DealsAre(tuples, sorted);
      forall i | 0 <= i < |lists| ensures Distinct(lists[i]) { CombosOnce(players[i], Elements(sorted)); }
      TuplesOnce(lists);
      DealsOnce(tuples, sorted);
      EachDeal(players, board, deals, MultiwayTrials(players, board));
    }
  }

  lemma EachDeal(players: seq<Player>, board: seq<Card>, deals: seq<Deal>, log: seq<Showdown>)
    requires Distinct(board) && |board| <= 5 && |SortCards(board)| == |board| && |log| == |deals| && DealsDiffer(deals)
    requires forall k :: 0 <= k < |log| ==>
               log[k] == Showdown(HandKeys(deals[k].holes, SortCards(board) + deals[k].runout), TrialWeight(deals[k].holes, AnyRange(players)))
    requires forall deal :: deal in deals <==>
               FromRunouts(deal, TupleProduct(ComboLists(players, Elements(SortCards(board)))), SortCards(board))
    ensures DealsEach(log, deals, players, board)
  {
    hide TupleProduct, SortCards, FromRunouts, Shows, HandKeys, TrialWeight, Elements, Distinct;
    forall k | 0 <= k < |log|
      ensures Shows(log[k], deals[k], board, AnyRange(players))
      ensures Distinct(deals[k].runout) && Possible(players, board, deals[k].holes, Elements(deals[k].runout))
    {
      assert deals[k] in deals;
      DealsPossible(players, board, deals[k]);
      DealShows(deals[k], players, board, AnyRange(players));
    }
    hide Possible;
    forall holes, chosen: set<Card> | Possible(players, board, holes, chosen)
      ensures exists k :: 0 <= k < |deals| && deals[k].holes == holes && Elements(deals[k].runout) == chosen
    {
      var deal := PossibleDeals(players, board, holes, chosen);
      var k :| 0 <= k < |deals| && deals[k] == deal;
    }
  }

  /** The same for the three heads-up routines. */
  lemma HeadsUpDeals(a: Player, b: Player, board: seq<Card>) returns (deals: seq<Deal>)
    requires a.HandPlayer? || b.RangePlayer?
    ensures var log := match (a, b)
              case (HandPlayer(x), HandPlayer(y)) => HandVsHandTrials(x, y, board)
              case (HandPlayer(x), RangePlayer(y)) => HandVsRangeTrials(x, y, board)
              case (RangePlayer(x), RangePlayer(y)) => RangeVsRangeTrials(x, y, board)
              case (RangePlayer(_), HandPlayer(_)) => [];
            if Accepts([a, b], board) then DealsEach(log, deals, [a, b], board) else log == []
  {
    hide DealsEach, Accepts, MultiwayTrials, HandVsHandTrials, HandVsRangeTrials, RangeVsRangeTrials;
    deals := EveryDealOnce([a, b], board);
    match (a, b) {
      case (HandPlayer(x), HandPlayer(y)) => HandVsHandAgrees(x, y, board);
      case (HandPlayer(x), RangePlayer(y)) => HandVsRangeAgrees(x, y, board);
      case (RangePlayer(x), RangePlayer(y)) => RangeVsRangeAgrees(x, y, board);
      case (RangePlayer(x), HandPlayer(y)) =>
    }
  }
}
