/** What a trace owes to its cut-off: which scenarios share a trace, and how the traces of two cut-offs relate. */
module BeliefCutoffs {
  import opened Cards
  import opened Combos
  import opened RangeExpansion
  import opened Sums
  import opened RangeBelief
  import opened BeliefTrace

  /** The numbering that scenario validation enforces. */
  predicate Contiguous(events: seq<Event>) {
    forall i :: 0 <= i < |events| ==> events[i].sequence == i + 1
  }

  function Cut(n: nat, k: int): nat {
    if k < 0 then 0 else if k < n then k else n
  }

  lemma {:induction false} UpToSlice(events: seq<Event>, k: int)
    requires Contiguous(events)
    ensures UpTo(events, k) == events[..Cut(|events|, k)]
  {
    if events != [] {
      var n := |events| - 1;
      UpToSlice(events[..n], k);
      if n + 1 <= k {
        assert events == events[..n] + [events[n]];
      } else {
        assert events[..n][..Cut(n, k)] == events[..Cut(n, k)];
      }
    }
  }

  lemma {:induction false} DealtGrows(events: seq<Event>, j: int, k: int)
    requires j <= k
    ensures Dealt(UpTo(events, j)) <= Dealt(UpTo(events, k))
  {
    if events != [] {
      var n := |events| - 1;
      DealtGrows(events[..n], j, k);
      var early, late := UpTo(events[..n], j), UpTo(events[..n], k);
      assert (early + [events[n]])[..|early|] == early && (late + [events[n]])[..|late|] == late;
      assert early + [] == early && late + [] == late;
    }
  }

  /** The decision point never shows more than the cut-off does: it is not before it, or enough has been dealt. */
  predicate NoEarlierReveal(sc: Scenario, k: int) {
    k <= sc.decision.afterSequence || Dealt(UpTo(sc.events, sc.decision.afterSequence)) > 0
    || StreetSize(sc.decision.street) <= RevealedAt(sc, k)
  }

  lemma RevealedGrows(sc: Scenario, j: int, k: int)
    requires j <= k && NoEarlierReveal(sc, k)
    ensures RevealedAt(sc, j) <= RevealedAt(sc, k)
  {
    hide UpTo, Dealt;
    DealtGrows(sc.events, j, k);
  }

  lemma ShownPrefix(a: seq<Card>, b: seq<Card>, small: nat, large: nat)
    requires small <= large && Shown(a, large) == Shown(b, large)
    ensures Shown(a, small) == Shown(b, small)
  {
    assert Shown(a, small) == Shown(Shown(a, large), small);
    assert Shown(b, small) == Shown(Shown(b, large), small);
  }

  /** Then agreeing on the board visible at k alone is enough. */
  lemma NonInterferenceAtCutoff(a: Scenario, b: Scenario, g: Setting, k: int)
    requires k >= 0 && SameVisible(a, b, k) && BoardAt(a, k) == BoardAt(b, k) && NoEarlierReveal(a, k)
    ensures TraceAt(a, g, k) == TraceAt(b, g, k)
  {
    forall j | j <= k || j == 0 ensures BoardAt(a, j) == BoardAt(b, j) {
      RevealedGrows(a, j, k);
      SameEarlier(a, b, j, k);
      SameEarlier(a, b, k, k);
      hide RevealedAt, Shown;
      ShownPrefix(a.board, b.board, RevealedAt(a, j), RevealedAt(a, k));
    }
    hide TraceAt;
    NonInterference(a, b, g, k);
  }

  // ---------------------------------------------------------------- when the cut-off's board is not enough

  /** The board size that the scenario validation takes as visible at the decision point. */
  function ValidationSize(sc: Scenario): nat {
    var dealt := Dealt(UpTo(sc.events, sc.decision.afterSequence));
    if dealt > 0 then dealt else if sc.decision.street.Complete? then 5 else StreetSize(sc.decision.street)
  }

  /** The parts of the scenario validation that matter here; a listed combo holds no visible board card. */
  predicate ValidScenario(sc: Scenario) {
    && Contiguous(sc.events) && 0 <= sc.decision.afterSequence <= |sc.events|
    && Distinct(sc.board) && |sc.board| <= 5
    && |sc.known| <= 8 && (forall s :: s in sc.known ==> |sc.known[s]| <= 2 && sc.known[s] !! Elements(sc.board))
    && sc.listed !! Elements(Shown(sc.board, ValidationSize(sc)))
  }

  ghost function KnownCards(known: map<int, set<Card>>): set<Card> {
    set s, c | s in known && c in known[s] :: c
  }

  /** A card that could still be added to the visible board. */
  ghost predicate Free(sc: Scenario, c: Card) {
    c !in sc.board && c !in KnownCards(sc.known) && c !in sc.listed
  }

  /**
   * A static board that the cut-off hides again was read at an earlier decision point: no card was dealt up to
   * it, and it is the start or a betting action. It shows a card that the cut-off hides, or there is room for one.
   */
  ghost predicate HidesAgain(sc: Scenario, k: int) {
    var d, shown := sc.decision.afterSequence, RevealedAt(sc, k);
    && d < k && Dealt(UpTo(sc.events, d)) == 0
    && shown < StreetSize(sc.decision.street)
    && (shown < |sc.board| || (shown == |sc.board| && exists c :: Free(sc, c)))
    && (d == 0 || (0 < d <= |sc.events| && IsPolicyAction(sc.events[d - 1].kind)))
  }

  lemma {:induction false} NoDealNoDeals(events: seq<Event>, i: nat)
    requires i < |events| && Dealt(events) == 0
    ensures !IsDeal(events[i].kind)
  {
    var n := |events| - 1;
    if i < n { NoDealNoDeals(events[..n], i); }
  }

  /** A longer board visible at the decision point of the other scenario has a free card. */
  lemma LongerIsFree(a: Scenario, b: Scenario, shown: nat)
    requires ValidScenario(b) && a.known == b.known && a.listed == b.listed
    requires |a.board| == shown < |b.board| && a.board == b.board[..shown] && shown < ValidationSize(b)
    ensures Free(a, b.board[shown])
  {
    hide ValidationSize;
    var c := b.board[shown];
    assert Shown(b.board, ValidationSize(b))[shown] == c;
    assert forall i :: 0 <= i < shown ==> a.board[i] == b.board[i] != c;
    assert forall s :: s in b.known ==> c !in b.known[s];
  }

  /** When no card is left that the visible board could gain, the other scenario's board is the same. */
  lemma NoRoom(a: Scenario, b: Scenario, k: int)
    requires ValidScenario(b) && SameVisible(a, b, k) && BoardAt(a, k) == BoardAt(b, k) && a.decision.afterSequence < k
    requires Dealt(UpTo(a.events, a.decision.afterSequence)) == 0 && RevealedAt(a, k) < StreetSize(a.decision.street)
    requires |a.board| == RevealedAt(a, k) && forall c :: !Free(a, c)
    ensures a.board == b.board
  {
    hide UpTo, Dealt, RevealedAt, Free;
    SameEarlier(a, b, k, k);
    SameEarlier(a, b, a.decision.afterSequence, k);
    var shown := RevealedAt(a, k);
    assert a.board == Shown(b.board, shown);
    if |b.board| > shown { LongerIsFree(a, b, shown); }
  }

  /** Otherwise agreeing on the board visible at k is enough. */
  lemma CutoffIsEnough(a: Scenario, b: Scenario, g: Setting, k: int)
    requires ValidScenario(a) && ValidScenario(b) && k >= 0 && !HidesAgain(a, k)
    requires SameVisible(a, b, k) && BoardAt(a, k) == BoardAt(b, k)
    ensures TraceAt(a, g, k) == TraceAt(b, g, k)
  {
    hide TraceAt;
    SameEarlier(a, b, k, k);
    if NoEarlierReveal(a, k) {
      NonInterferenceAtCutoff(a, b, g, k);
    } else if |a.board| < RevealedAt(a, k) {
      assert b.board == a.board by { hide RevealedAt; }
      SameBoardSame(a, b, g, k);
    } else if |a.board| == RevealedAt(a, k) && !exists c :: Free(a, c) {
      NoRoom(a, b, k);
      SameBoardSame(a, b, g, k);
    } else {
      UnreadBoard(a, b, g, k);
      TraceReads(a, b, g, k);
    }
  }

  lemma SameBoardSame(a: Scenario, b: Scenario, g: Setting, k: int)
    requires SameVisible(a, b, k) && a.board == b.board && k >= 0
    ensures TraceAt(a, g, k) == TraceAt(b, g, k)
  {
    hide TraceAt;
    forall j | j <= k || j == 0 ensures BoardAt(a, j) == BoardAt(b, j) {
      SameEarlier(a, b, j, k);
    }
    NonInterference(a, b, g, k);
  }

  lemma UnreadEvent(a: Scenario, k: int)
    requires ValidScenario(a) && !HidesAgain(a, k) && !NoEarlierReveal(a, k)
    requires RevealedAt(a, k) < |a.board| || (RevealedAt(a, k) == |a.board| && exists c :: Free(a, c))
    ensures var d := a.decision.afterSequence; d > 0 && !IsPolicyAction(a.events[d - 1].kind) && !IsDeal(a.events[d - 1].kind)
  {
    hide RevealedAt;
    var d := a.decision.afterSequence;
    UpToSlice(a.events, d);
    assert !IsDeal(a.events[d - 1].kind) by {
      assert UpTo(a.events, d) == a.events[..d];
      NoDealNoDeals(a.events[..d], d - 1);
    }
  }

  /** The decision point is neither the start nor an event that reads the board. */
  lemma UnreadBoard(a: Scenario, b: Scenario, g: Setting, k: int)
    requires ValidScenario(a) && k >= 0 && !HidesAgain(a, k) && !NoEarlierReveal(a, k)
    requires RevealedAt(a, k) < |a.board| || (RevealedAt(a, k) == |a.board| && exists c :: Free(a, c))
    requires SameVisible(a, b, k) && BoardAt(a, k) == BoardAt(b, k)
    ensures SameReads(a, b, g, UpTo(a.events, k))
  {
    hide BoardAt, UpTo, RevealedAt, NoEarlierReveal, HidesAgain;
    var d := a.decision.afterSequence;
    UnreadEvent(a, k);
    UpToSlice(a.events, k);
    forall j | j <= k && j != d ensures BoardAt(a, j) == BoardAt(b, j) {
      SameBoardElsewhere(a, b, j, k);
    }
  }

  lemma SameBoardElsewhere(a: Scenario, b: Scenario, j: int, k: int)
    requires SameVisible(a, b, k) && BoardAt(a, k) == BoardAt(b, k) && j <= k && j != a.decision.afterSequence
    ensures BoardAt(a, j) == BoardAt(b, j)
  {
    hide UpTo, Dealt, Shown;
    DealtGrows(a.events, j, k);
    SameEarlier(a, b, j, k);
    SameEarlier(a, b, k, k);
    ShownPrefix(a.board, b.board, RevealedAt(a, j), RevealedAt(a, k));
  }

  // ---------------------------------------------------------------- a scenario that tells the difference

  lemma {:induction false} KnownAtMost(known: map<int, set<Card>>)
    requires forall s :: s in known ==> |known[s]| <= 2
    ensures |KnownCards(known)| <= 2 * |known|
    decreases |known|
  {
    if known.Keys != {} {
      var s := AnyMember(known.Keys);
      var rest := known - {s};
      assert rest.Keys == known.Keys - {s};
      assert |known| == |known.Keys| && |rest| == |rest.Keys|;
      KnownAtMost(rest);
      forall c ensures c in KnownCards(known) <==> c in KnownCards(rest) || c in known[s] {
        if c in KnownCards(known) {
          var t :| t in known && c in known[t];
          assert t == s || (t in rest && rest[t] == known[t]);
        }
      }
      assert KnownCards(known) == KnownCards(rest) + known[s];
    } else {
      assert KnownCards(known) == {};
    }
  }

  lemma {:induction false} DeckSize(i: nat)
    requires i <= 52
    ensures |DeckFrom({}, i)| == 52 - i
    decreases 52 - i
  {
    if i < 52 { DeckSize(i + 1); }
  }

  lemma AllCards() returns (all: set<Card>)
    ensures |all| == 52
  {
    DeckSize(0);
    all := Elements(Deck({}));
    ElementsOfDistinct(Deck({}));
  }

  /** Two cards outside any fifty. */
  lemma UnseenPair(seen: set<Card>) returns (h: Hole)
    requires |seen| <= 50
    ensures Sorted(h) && !Blocked(h, seen)
  {
    hide Deck, DeckFrom;
    var all := AllCards();
    var unseen := all - seen;
    assert |unseen| >= 2 by {
      assert all == unseen + (all * seen);
      SubsetCardinality(all * seen, seen);
    }
    assert unseen != {};
    var x := AnyMember(unseen);
    var others := unseen - {x};
    assert |others| >= 1;
    assert others != {};
    var y := AnyMember(others);
    h := if Before(x, y) then (x, y) else (y, x);
  }

  /** A prior with one combo. */
  function Lone(h: Hole): RangeSpec {
    RangeSpec(map[], [Entry(h.0, h.1, 1.0)], {})
  }

  lemma LoneWeight(h: Hole, dead: set<Card>, p: Hole)
    requires Sorted(h)
    ensures RangeWeight(Lone(h), dead, p) == if p == h && !Blocked(h, dead) then 1.0 else 0.0
  {
    var entries := [Entry(h.0, h.1, 1.0)];
    assert entries[0].Pair() == h;
    assert EntryWeight(entries[1..], p) == None;
    assert EntryWeight(entries, p) == if p == h then Some(1.0) else None;
    assert dead + {} == dead;
  }

  lemma OneEntry(entries: seq<Entry>, only: Entry)
    requires DistinctPairs(entries) && forall e :: e in entries ==> e == only
    ensures entries == [] || entries == [only]
  {
    EntriesDiffer(entries);
    ElementsOfDistinct(entries);
    SubsetCardinality(Elements(entries), {only});
    if entries != [] { assert entries[0] in entries; }
  }

  lemma EntriesDiffer(entries: seq<Entry>)
    requires DistinctPairs(entries)
    ensures Distinct(entries)
  {
    assert forall i, j :: 0 <= i < j < |entries| ==> entries[i].Pair() != entries[j].Pair();
  }

  lemma LoneExpansion(h: Hole, dead: set<Card>)
    requires Sorted(h)
    ensures Expanded(Lone(h), dead) == if Blocked(h, dead) then [] else [Entry(h.0, h.1, 1.0)]
  {
    hide Expanded, RangeWeight, Blocked;
    var entries := Expanded(Lone(h), dead);
    var only := Entry(h.0, h.1, 1.0);
    ExpansionExact(Lone(h), dead);
    forall e | e in entries ensures e == only && !Blocked(h, dead) { LoneWeight(h, dead, e.Pair()); }
    if !Blocked(h, dead) {
      LoneWeight(h, dead, h);
      assert only in entries;
    }
    OneEntry(entries, only);
  }

  function LoneBelief(h: Hole): seq<ComboBelief> {
    [ComboBelief(h, 1.0, 1.0)]
  }

  lemma LoneTotal(h: Hole)
    ensures Total([Weighted(h, 1.0)]) == 1.0 && Normalized([Weighted(h, 1.0)], 1.0) == LoneBelief(h)
  {
    assert Reaches([Weighted(h, 1.0)]) == [1.0];
    SumSnoc([], 1.0);
    assert [] + [1.0] == [1.0];
  }

  lemma LoneStart(h: Hole, seat: int, street: Street, dead: set<Card>)
    requires Sorted(h)
    ensures var o := FromRange(Lone(h), seat, street, 0, dead);
            if Blocked(h, dead) then o == Refused(NoPriorRange) else o.Done? && o.value.combos == LoneBelief(h)
  {
    hide Expanded, Blocked, Total, Normalized;
    LoneExpansion(h, dead);
    LoneTotal(h);
    if !Blocked(h, dead) { assert Weigh(Expanded(Lone(h), dead)) == [Weighted(h, 1.0)]; }
  }

  /** A policy that gives the lone combo every action. */
  function Certain(h: Hole): Policy {
    Policy([CheckColumn], map[h := map[CheckColumn := 1.0]], true, None)
  }

  lemma CertainUpdate(s: Snapshot, e: Event, h: Hole, pot: Option<nat>, dead: set<Card>)
    requires s.combos == LoneBelief(h) && !Blocked(h, dead)
    ensures UpdateBelief(s, e, Certain(h), pot, dead).Done?
    ensures UpdateBelief(s, e, Certain(h), pot, dead).value.combos == LoneBelief(h)
  {
    hide Blocked, Total, Normalized;
    var ws := [Weighted(h, 1.0)];
    assert WeightsOf(s.combos) == ws;
    assert ws[..0] == [] && Undead([], dead) == [] && [] + ws == ws;
    assert Undead(ws, dead) == ws;
    assert Likelihood(Certain(h), CheckColumn, h) == Some(1.0);
    assert Multiplied(ws, Factor(Certain(h), CheckColumn)) == ws;
    assert Positive([]) == [];
    assert Positive(ws) == ws;
    LoneTotal(h);
  }

  /** Answers every node, except at sequence d, where the answer depends on the board. */
  function Watcher(h: Hole, d: int, secret: seq<Card>): Provider {
    (view: Scenario, seat: int, sequence: int, keys: seq<Hole>) =>
      if sequence != d then Grounded(Certain(h))
      else if view.board == secret then OtherNode
      else Failure(UnsupportedAction)
  }

  function Watching(seat: int, h: Hole, d: int, secret: seq<Card>): Setting {
    Setting(seat, Lone(h), [Watcher(h, d, secret)], None)
  }

  lemma WatcherAnswer(h: Hole, d: int, secret: seq<Card>, view: Scenario, seat: int, sequence: int, keys: seq<Hole>)
    ensures FirstAnswer([Watcher(h, d, secret)], view, seat, sequence, keys)
         == if sequence != d then Grounded(Certain(h)) else if view.board == secret then NotCovered else Failure(UnsupportedAction)
  {
    var providers := [Watcher(h, d, secret)];
    assert providers[1..] == [];
    assert FirstAnswer([], view, seat, sequence, keys) == NotCovered;
  }

  ghost predicate Waiting(p: Progress, h: Hole) {
    p.chain != [] && p.status.Available? && LastOf(p.chain).combos == LoneBelief(h)
  }

  lemma WaitingStep(sc: Scenario, g: Setting, p: Progress, e: Event, h: Hole, d: int, secret: seq<Card>)
    requires g == Watching(g.seat, h, d, secret) && Waiting(p, h) && !IsDeal(e.kind) && e.sequence != d
    requires !Blocked(h, DeadCards(sc, g.seat, BoardAt(sc, e.sequence)))
    ensures Waiting(Advance(sc, g, p, e), h)
  {
    hide BoardAt, ViewAt, DeadCards, UpdateBelief, Blocked, FirstAnswer, ResolveMatch, Certain, Watcher;
    var last := LastOf(p.chain);
    WatcherAnswer(h, d, secret, ViewAt(sc, e), g.seat, e.sequence, ComboKeys(last.combos));
    CertainUpdate(last, e, h, PotBefore(g, e.sequence), DeadCards(sc, g.seat, BoardAt(sc, e.sequence)));
  }

  /** Up to the decision point nothing is visible and the lone combo stays. */
  lemma {:induction false} WaitsUntil(sc: Scenario, g: Setting, h: Hole, d: nat, secret: seq<Card>, i: nat)
    requires Contiguous(sc.events) && d == sc.decision.afterSequence && i < d <= |sc.events|
    requires Dealt(UpTo(sc.events, d)) == 0
    requires g == Watching(g.seat, h, d, secret) && Sorted(h) && !Blocked(h, KnownCards(sc.known))
    ensures Waiting(Through(sc, g, sc.events[..i]), h)
  {
    hide Advance, Blocked, FromRange, Watcher, Lone;
    HiddenBoard(sc, g.seat, h, d, i);
    if i == 0 {
      LoneStart(h, g.seat, StreetAt(sc, 0), DeadCards(sc, g.seat, BoardAt(sc, 0)));
      assert g.prior.(dead := {}) == Lone(h) by { LoneDead(h); }
    } else {
      var n, e := i - 1, sc.events[i - 1];
      assert sc.events[..i][..n] == sc.events[..n];
      WaitsUntil(sc, g, h, d, secret, n);
      UpToSlice(sc.events, d);
      NoDealNoDeals(sc.events[..d], n);
      WaitingStep(sc, g, Through(sc, g, sc.events[..n]), e, h, d, secret);
    }
  }

  lemma LoneDead(h: Hole)
    ensures Lone(h).(dead := {}) == Lone(h)
  {}

  /** Before the decision point of a spot without deals, only the other seats' known cards are dead. */
  lemma HiddenBoard(sc: Scenario, seat: int, h: Hole, d: nat, j: nat)
    requires d == sc.decision.afterSequence && j < d && Dealt(UpTo(sc.events, d)) == 0 && !Blocked(h, KnownCards(sc.known))
    ensures BoardAt(sc, j) == [] && !Blocked(h, DeadCards(sc, seat, BoardAt(sc, j)))
  {
    DealtGrows(sc.events, j, d);
    hide UpTo, Dealt;
  }

  /** The provider's answer at the decision point stops the loop. */
  lemma WatchedStep(sc: Scenario, g: Setting, p: Progress, e: Event, h: Hole, secret: seq<Card>)
    requires g == Watching(e.actorSeat, h, e.sequence, secret) && Waiting(p, h) && IsPolicyAction(e.kind)
    ensures Advance(sc, g, p, e).status
         == Stalled(if BoardAt(sc, e.sequence) == secret then NoPolicy else UnsupportedAction, e.sequence)
  {
    hide BoardAt, DeadCards, UpdateBelief, FirstAnswer, ResolveMatch, Watcher, ComboKeys, Lone, UpTo;
    WatcherAnswer(h, e.sequence, secret, ViewAt(sc, e), g.seat, e.sequence, ComboKeys(LastOf(p.chain).combos));
  }

  lemma WatchedTrace(sc: Scenario, g: Setting, h: Hole, d: nat, secret: seq<Card>, k: int)
    requires Contiguous(sc.events) && d == sc.decision.afterSequence && 0 < d <= |sc.events| && d < k
    requires Dealt(UpTo(sc.events, d)) == 0 && IsPolicyAction(sc.events[d - 1].kind)
    requires g == Watching(sc.events[d - 1].actorSeat, h, d, secret) && Sorted(h) && !Blocked(h, KnownCards(sc.known))
    ensures TraceAt(sc, g, k).status == Stalled(if BoardAt(sc, d) == secret then NoPolicy else UnsupportedAction, d)
  {
    hide Start, BoardAt, Advance, Waiting, Watching, Blocked, Dealt, UpTo, KnownCards, DealTo;
    var e := sc.events[d - 1];
    assert g.seat == e.actorSeat by { WatchingSeat(e.actorSeat, h, d, secret); }
    WaitsUntil(sc, g, h, d, secret, d - 1);
    var before := Through(sc, g, sc.events[..d - 1]);
    WatchedStep(sc, g, before, e, h, secret);
    assert sc.events[..d][..d - 1] == sc.events[..d - 1];
    assert Through(sc, g, sc.events[..d]) == Advance(sc, g, before, e);
    UpToSlice(sc.events, k);
    var n := Cut(|sc.events|, k);
    assert sc.events[..n][..d] == sc.events[..d];
    NothingAfterStop(sc, g, sc.events[..n], d);
  }

  lemma WatchingSeat(seat: int, h: Hole, d: int, secret: seq<Card>)
    ensures Watching(seat, h, d, secret).seat == seat
  {}

  /** The board without the cards that the cut-off hides; one that shows no more than the cut-off gains a card. */
  function Altered(board: seq<Card>, shown: nat, c: Card): seq<Card>
    requires shown <= |board|
  {
    if shown < |board| then board[..shown] else board + [c]
  }

  /** An equally visible valid scenario; c is visible at the decision point of one of the two and on no board of the other. */
  lemma AlteredScenario(a: Scenario, k: int) returns (b: Scenario, c: Card)
    requires ValidScenario(a) && HidesAgain(a, k)
    ensures ValidScenario(b) && SameVisible(a, b, k) && BoardAt(a, k) == BoardAt(b, k)
    ensures b.events == a.events && c !in KnownCards(a.known) && forall x :: x in b.board ==> x in a.board || x == c
    ensures var d := a.decision.afterSequence;
            (c in BoardAt(a, d) && c !in b.board) || (c in BoardAt(b, d) && c !in a.board)
  {
    hide UpTo, Dealt;
    var shown, d := RevealedAt(a, k), a.decision.afterSequence;
    if shown < |a.board| {
      c := a.board[shown];
      b := a.(board := a.board[..shown]);
      assert BoardAt(a, d)[shown] == c;
      assert Elements(b.board) <= Elements(a.board);
      ShownLess(a.board, shown, ValidationSize(a));
    } else {
      c :| Free(a, c);
      b := a.(board := a.board + [c]);
      assert BoardAt(b, d)[shown] == c;
      assert forall x :: x in b.board ==> x == c || x in a.board;
      forall s | s in a.known ensures c !in a.known[s] { assert c in a.known[s] ==> c in KnownCards(a.known); }
      assert Shown(a.board, ValidationSize(a)) == a.board;
    }
    forall s | s in a.known ensures c !in a.known[s] {}
  }

  lemma ShownLess(board: seq<Card>, n: nat, size: nat)
    requires n <= |board|
    ensures Elements(Shown(board[..n], size)) <= Elements(Shown(board, size))
  {
    forall x | x in Shown(board[..n], size) ensures x in Shown(board, size) {
      var i :| 0 <= i < |Shown(board[..n], size)| && Shown(board[..n], size)[i] == x;
      assert Shown(board, size)[i] == x;
    }
  }

  /** A pair of unseen cards, and one of an unseen card with c. */
  lemma UnseenPairs(a: Scenario, c: Card) returns (h: Hole, mixed: Hole)
    requires ValidScenario(a)
    ensures Sorted(h) && !Blocked(h, KnownCards(a.known))
    ensures Sorted(mixed) && (mixed.0 == c || mixed.1 == c)
    ensures forall x :: (x == mixed.0 || x == mixed.1) && x != c ==> x !in KnownCards(a.known) && x !in a.board
  {
    hide Contiguous, ValidationSize;
    KnownAtMost(a.known);
    ElementsOfDistinct(a.board);
    var seen := KnownCards(a.known) + Elements(a.board) + {c};
    assert |seen| <= |KnownCards(a.known)| + |Elements(a.board)| + 1;
    h := UnseenPair(seen);
    mixed := if Before(h.0, c) then (h.0, c) else (c, h.0);
  }

  /** A static board that the cut-off hides again interferes: some equally visible scenario has another trace. */
  lemma HiddenBoardInterferes(a: Scenario, k: int) returns (b: Scenario, g: Setting)
    requires ValidScenario(a) && HidesAgain(a, k)
    ensures ValidScenario(b) && SameVisible(a, b, k) && BoardAt(a, k) == BoardAt(b, k)
    ensures TraceAt(a, g, k) != TraceAt(b, g, k)
  {
    hide TraceAt, UpTo, Dealt, BoardAt, Blocked;
    var c;
    b, c := AlteredScenario(a, k);
    var h, mixed := UnseenPairs(a, c);
    var d := a.decision.afterSequence;
    BoardWithin(a, d);
    BoardWithin(b, d);
    if d > 0 {
      g := Watching(a.events[d - 1].actorSeat, h, d, BoardAt(a, d));
      WatchedTrace(a, g, h, d, BoardAt(a, d), k);
      WatchedTrace(b, g, h, d, BoardAt(a, d), k);
    } else {
      g := Setting(0, Lone(mixed), [], None);
      if c in BoardAt(a, d) {
        PairPlays(b, mixed, c, a);
        StartFails(a, g, mixed, c, k);
        StartPlays(b, g, mixed, k);
      } else {
        PairPlays(a, mixed, c, a);
        StartPlays(a, g, mixed, k);
        StartFails(b, g, mixed, c, k);
      }
    }
  }

  lemma BoardWithin(sc: Scenario, d: int)
    ensures forall x :: x in BoardAt(sc, d) ==> x in sc.board
  {
    hide RevealedAt;
  }

  lemma PairPlays(sc: Scenario, mixed: Hole, c: Card, a: Scenario)
    requires (forall x :: (x == mixed.0 || x == mixed.1) && x != c ==> x !in KnownCards(a.known) && x !in a.board)
    requires c !in sc.board && c !in KnownCards(a.known) && sc.known == a.known && forall x :: x in sc.board ==> x in a.board || x == c
    ensures !Blocked(mixed, KnownCards(sc.known) + Elements(sc.board))
  {}

  lemma StartPlays(sc: Scenario, g: Setting, h: Hole, k: int)
    requires Sorted(h) && g == Setting(0, Lone(h), [], None) && !Blocked(h, KnownCards(sc.known) + Elements(sc.board))
    ensures TraceAt(sc, g, k).chain != []
  {
    hide Advance, UpTo, FromRange, Lone, StreetAt, ApplyDeadCards;
    var dead := DeadCards(sc, 0, BoardAt(sc, 0));
    assert dead <= KnownCards(sc.known) + Elements(sc.board);
    LoneStart(h, 0, StreetAt(sc, 0), dead);
    LoneDead(h);
    var events := UpTo(sc.events, k);
    assert events[..0] == [];
    assert Start(sc, g).chain != [];
    hide Start, Through, BoardAt, DeadCards;
    ThroughExtends(sc, g, events, 0);
    assert Through(sc, g, []) == Start(sc, g) by { StartsThere(sc, g); }
    DealExtends(sc, g, Through(sc, g, events), BoardAt(sc, k), StreetAt(sc, k), k);
  }

  lemma StartsThere(sc: Scenario, g: Setting)
    ensures Through(sc, g, []) == Start(sc, g)
  {}

  lemma StartFails(sc: Scenario, g: Setting, h: Hole, c: Card, k: int)
    requires Sorted(h) && g == Setting(0, Lone(h), [], None) && (h.0 == c || h.1 == c) && c in BoardAt(sc, 0)
    ensures TraceAt(sc, g, k).chain == []
  {
    hide Advance, UpTo, FromRange, Lone, StreetAt, ApplyDeadCards, BoardAt;
    LoneStart(h, 0, StreetAt(sc, 0), DeadCards(sc, 0, BoardAt(sc, 0)));
    LoneDead(h);
    var events := UpTo(sc.events, k);
    assert events[..0] == [];
    assert Start(sc, g).chain == [];
    NothingAfterStop(sc, g, events, 0);
  }

  /**
   * Exactly when agreeing on everything visible at k is enough for equal traces at k, in every setting and for
   * every other valid scenario.
   */
  lemma CutoffIsEnoughIff(a: Scenario, k: int)
    requires ValidScenario(a) && k >= 0
    ensures (forall b, g :: ValidScenario(b) && SameVisible(a, b, k) && BoardAt(a, k) == BoardAt(b, k)
                            ==> TraceAt(a, g, k) == TraceAt(b, g, k))
            <==> !HidesAgain(a, k)
  {
    hide TraceAt, UpTo, BoardAt, ValidScenario;
    if HidesAgain(a, k) {
      var b, g := HiddenBoardInterferes(a, k);
    } else {
      forall b, g | ValidScenario(b) && SameVisible(a, b, k) && BoardAt(a, k) == BoardAt(b, k)
        ensures TraceAt(a, g, k) == TraceAt(b, g, k)
      {
        CutoffIsEnough(a, b, g, k);
      }
    }
  }

  /** A flop spot without deal events, where seat 0 checked at the decision point. */
  function StaticSpot(): Scenario {
    Scenario([Event(1, Flop, 0, Check, None)], [Card(2, 0), Card(3, 0), Card(4, 0)], Decision(Flop, 1, 1), map[], {}, "")
  }

  /** Such a spot shows its board at 1 and hides it again at 2. */
  lemma StaticSpotHidesAgain()
    ensures ValidScenario(StaticSpot()) && HidesAgain(StaticSpot(), 2)
    ensures BoardAt(StaticSpot(), 1) == StaticSpot().board && BoardAt(StaticSpot(), 2) == []
  {
    var sc := StaticSpot();
    assert sc.events[..0] == [];
    assert UpTo([], 1) == UpTo([], 2) == [] && Dealt([]) == 0 && [] + sc.events == sc.events;
    assert UpTo(sc.events, 1) == sc.events && UpTo(sc.events, 2) == sc.events && Dealt(sc.events) == 0;
  }

  // ---------------------------------------------------------------- earlier cut-offs

  lemma {:induction false} ThroughExtends(sc: Scenario, g: Setting, events: seq<Event>, i: nat)
    requires i <= |events|
    ensures Through(sc, g, events[..i]).chain <= Through(sc, g, events).chain
    decreases |events|
  {
    hide Advance, Start;
    if i == |events| {
      assert events[..i] == events;
    } else {
      var n := |events| - 1;
      assert events[..n][..i] == events[..i];
      ThroughExtends(sc, g, events[..n], i);
      AdvanceExtends(sc, g, Through(sc, g, events[..n]), events[n]);
    }
  }

  lemma AdvanceExtends(sc: Scenario, g: Setting, p: Progress, e: Event)
    ensures p.chain <= Advance(sc, g, p, e).chain
  {
    hide UpdateBelief, ApplyDeadCards, BoardAt, ViewAt, DeadCards, FirstAnswer, ResolveMatch;
  }

  /** While it is available, the loop has applied exactly the board of the deals so far. */
  lemma {:induction false} AppliedIsDealt(sc: Scenario, g: Setting, i: nat)
    requires Contiguous(sc.events) && i <= |sc.events|
    requires Through(sc, g, sc.events[..i]).status.Available? && Through(sc, g, sc.events[..i]).chain != []
    ensures Through(sc, g, sc.events[..i]).applied == |Shown(sc.board, Dealt(sc.events[..i]))|
  {
    var events := sc.events[..i];
    if i > 0 {
      var n, e := i - 1, sc.events[i - 1];
      assert events[..n] == sc.events[..n];
      var before := Through(sc, g, events[..n]);
      StoppedStays(sc, g, before, e);
      AppliedIsDealt(sc, g, n);
      UpToSlice(sc.events, e.sequence);
      assert UpTo(sc.events, e.sequence) == events;
      DealApplies(sc, g, before, e);
    }
  }

  lemma StoppedStays(sc: Scenario, g: Setting, p: Progress, e: Event)
    requires Advance(sc, g, p, e).status.Available? && Advance(sc, g, p, e).chain != []
    ensures p.status.Available? && p.chain != []
  {
    hide UpdateBelief, ApplyDeadCards, BoardAt, ViewAt, DeadCards, FirstAnswer, ResolveMatch;
  }

  lemma DealApplies(sc: Scenario, g: Setting, p: Progress, e: Event)
    requires p.status.Available? && p.chain != []
    ensures Advance(sc, g, p, e).applied
         == if IsDeal(e.kind) && |BoardAt(sc, e.sequence)| > p.applied then |BoardAt(sc, e.sequence)| else p.applied
  {
    hide UpdateBelief, ApplyDeadCards, BoardAt, ViewAt, DeadCards, FirstAnswer, ResolveMatch;
  }

  /** The decision point of a static spot shows board cards that no deal revealed. */
  predicate StaticReveal(sc: Scenario, k: int) {
    Dealt(UpTo(sc.events, k)) == 0 && k == sc.decision.afterSequence && StreetSize(sc.decision.street) > 0 && sc.board != []
  }

  /** Unless the cut-off itself shows a static board, an earlier cut-off gives a prefix of the later chain. */
  lemma EarlierIsPrefix(sc: Scenario, g: Setting, j: int, k: int)
    requires Contiguous(sc.events) && j <= k && !StaticReveal(sc, j)
    ensures TraceAt(sc, g, j).chain <= TraceAt(sc, g, k).chain
  {
    hide Advance, Start;
    UpToSlice(sc.events, j);
    UpToSlice(sc.events, k);
    var n, m := Cut(|sc.events|, j), Cut(|sc.events|, k);
    assert sc.events[..m][..n] == sc.events[..n];
    ThroughExtends(sc, g, sc.events[..m], n);
    var p := Through(sc, g, sc.events[..n]);
    if p.chain != [] && p.status.Available? {
      AppliedIsDealt(sc, g, n);
      assert |BoardAt(sc, j)| <= p.applied;
    }
    hide Through, UpTo, BoardAt;
    DealExtends(sc, g, Through(sc, g, sc.events[..m]), BoardAt(sc, k), StreetAt(sc, k), k);
  }

  lemma DealExtends(sc: Scenario, g: Setting, p: Progress, board: seq<Card>, street: Street, k: int)
    ensures p.chain != [] ==> p.chain <= DealTo(sc, g, p, board, street, k).chain
  {
    hide ApplyDeadCards, DeadCards;
  }

  // ---------------------------------------------------------------- exactly when an earlier trace is a prefix

  lemma NewestSnapshot(sc: Scenario, g: Setting, p: Progress, e: Event)
    ensures Advance(sc, g, p, e).chain == p.chain
         || (|Advance(sc, g, p, e).chain| == |p.chain| + 1 && p.chain <= Advance(sc, g, p, e).chain
             && LastOf(Advance(sc, g, p, e).chain).afterSequence == e.sequence)
  {
    hide BoardAt, ViewAt, DeadCards, FirstAnswer, ResolveMatch, Undead, Total, Normalized, AllKnown, Multiplied, Positive;
  }

  /** Snapshots of later events carry later sequences. */
  lemma {:induction false} LaterSnapshots(sc: Scenario, g: Setting, i: nat, m: nat)
    requires Contiguous(sc.events) && i <= m <= |sc.events|
    ensures var early, late := Through(sc, g, sc.events[..i]).chain, Through(sc, g, sc.events[..m]).chain;
            forall x :: |early| <= x < |late| ==> late[x].afterSequence > i
  {
    hide Advance, Start;
    if i < m {
      assert sc.events[..m][..m - 1] == sc.events[..m - 1];
      LaterSnapshots(sc, g, i, m - 1);
      var before := Through(sc, g, sc.events[..m - 1]);
      var after := Advance(sc, g, before, sc.events[m - 1]);
      assert after == Through(sc, g, sc.events[..m]);
      NewestSnapshot(sc, g, before, sc.events[m - 1]);
      ThroughSame(sc, g, i, m - 1);
      var early := Through(sc, g, sc.events[..i]).chain;
      forall x | |early| <= x < |after.chain| ensures after.chain[x].afterSequence > i {
        if x < |before.chain| { assert after.chain[x] == before.chain[x]; }
      }
    }
  }

  /** The trace at j reaches its end, and the board visible there leaves the seat a combo. */
  predicate EndpointDeals(sc: Scenario, g: Setting, j: int) {
    var p := Through(sc, g, UpTo(sc.events, j));
    p.chain != [] && p.status.Available?
    && ApplyDeadCards(LastOf(p.chain), DeadCards(sc, g.seat, BoardAt(sc, j)), StreetAt(sc, j), j).Done?
  }

  lemma DealtSnapshot(sc: Scenario, g: Setting, p: Progress, board: seq<Card>, street: Street, k: int)
    requires p.chain != []
    ensures var o := ApplyDeadCards(LastOf(p.chain), DeadCards(sc, g.seat, board), street, k);
            DealTo(sc, g, p, board, street, k).chain
            == if |board| > p.applied && o.Done? then p.chain + [o.value] else p.chain
    ensures var o := ApplyDeadCards(LastOf(p.chain), DeadCards(sc, g.seat, board), street, k);
            o.Done? ==> o.value.afterSequence == k
  {
    hide DeadCards, Undead, Total, Normalized;
  }

  /** A static board shown at j adds a snapshot that no later trace has at its place. */
  lemma StaticSnapshot(sc: Scenario, g: Setting, j: int)
    requires Contiguous(sc.events) && StaticReveal(sc, j)
    ensures var p := Through(sc, g, UpTo(sc.events, j));
            if EndpointDeals(sc, g, j) then
              |TraceAt(sc, g, j).chain| == |p.chain| + 1 && LastOf(TraceAt(sc, g, j).chain).afterSequence == j
            else TraceAt(sc, g, j).chain == p.chain
  {
    hide Advance, Start, DealTo, ApplyDeadCards, DeadCards, StreetAt;
    var n := Cut(|sc.events|, j);
    UpToSlice(sc.events, j);
    var p := Through(sc, g, sc.events[..n]);
    if p.chain != [] && p.status.Available? {
      AppliedIsDealt(sc, g, n);
      DealtSnapshot(sc, g, p, BoardAt(sc, j), StreetAt(sc, j), j);
    }
  }

  lemma LaterTrace(sc: Scenario, g: Setting, j: int, k: int)
    requires Contiguous(sc.events) && j < k
    ensures var early, late := Through(sc, g, UpTo(sc.events, j)).chain, TraceAt(sc, g, k).chain;
            forall x :: |early| <= x < |late| ==> late[x].afterSequence > j
  {
    hide Through, UpTo, DealTo, BoardAt, StreetAt;
    UpToSlice(sc.events, j);
    UpToSlice(sc.events, k);
    var n, m := Cut(|sc.events|, j), Cut(|sc.events|, k);
    LaterSnapshots(sc, g, n, m);
    var p := Through(sc, g, sc.events[..m]);
    ThroughSame(sc, g, n, m);
    assert n < m ==> n >= j;
    assert n == m ==> Through(sc, g, sc.events[..n]) == p;
    if p.chain != [] && p.status.Available? {
      AtMostOneMore(sc, g, p, BoardAt(sc, k), StreetAt(sc, k), k);
    }
  }

  lemma AtMostOneMore(sc: Scenario, g: Setting, p: Progress, board: seq<Card>, street: Street, k: int)
    requires p.chain != []
    ensures var late := DealTo(sc, g, p, board, street, k).chain;
            p.chain <= late && forall x :: |p.chain| <= x < |late| ==> late[x].afterSequence == k
  {
    hide DeadCards, ApplyDeadCards, DealTo;
    DealtSnapshot(sc, g, p, board, street, k);
  }

  lemma ThroughSame(sc: Scenario, g: Setting, n: nat, m: nat)
    requires n <= m <= |sc.events|
    ensures |Through(sc, g, sc.events[..n]).chain| <= |Through(sc, g, sc.events[..m]).chain|
  {
    assert sc.events[..m][..n] == sc.events[..n];
    ThroughExtends(sc, g, sc.events[..m], n);
  }

  /** Exactly when an earlier cut-off gives a prefix of the later chain: unless it adds a static board of its own. */
  lemma EarlierIsPrefixIff(sc: Scenario, g: Setting, j: int, k: int)
    requires Contiguous(sc.events) && j < k
    ensures TraceAt(sc, g, j).chain <= TraceAt(sc, g, k).chain <==> !(StaticReveal(sc, j) && EndpointDeals(sc, g, j))
  {
    hide TraceAt, EndpointDeals, StaticReveal, Through, UpTo;
    if !StaticReveal(sc, j) {
      EarlierIsPrefix(sc, g, j, k);
    } else {
      StaticSnapshot(sc, g, j);
      LaterTrace(sc, g, j, k);
      EarlyChain(sc, g, j, k);
    }
  }

  lemma EarlyChain(sc: Scenario, g: Setting, j: int, k: int)
    requires Contiguous(sc.events) && j < k
    ensures Through(sc, g, UpTo(sc.events, j)).chain <= TraceAt(sc, g, k).chain
  {
    hide Advance, Start, DealTo, BoardAt, StreetAt;
    UpToSlice(sc.events, j);
    UpToSlice(sc.events, k);
    var n, m := Cut(|sc.events|, j), Cut(|sc.events|, k);
    assert sc.events[..m][..n] == sc.events[..n];
    ThroughExtends(sc, g, sc.events[..m], n);
    DealExtends(sc, g, Through(sc, g, sc.events[..m]), BoardAt(sc, k), StreetAt(sc, k), k);
  }
}
