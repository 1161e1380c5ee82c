/** What the last snapshot of an available trace holds: the cards it has seen, and the seat's own actions. */
module TraceMeaning {
  import opened Cards
  import opened Combos
  import opened RangeExpansion
  import opened Sums
  import opened RangeBelief
  import opened BeliefChain
  import opened BeliefTrace

  // ---------------------------------------------------------------- the visible board

  /** A deal of this kind shows the board card at position i. */
  predicate Shows(kind: ActionKind, i: int) {
    (kind.DealFlop? && i < 3) || (kind.DealTurn? && i < 4) || (kind.DealRiver? && i < 5)
  }

  predicate DealsBy(e: Event, j: int) {
    e.sequence <= j && (e.kind.DealFlop? || e.kind.DealTurn? || e.kind.DealRiver?)
  }

  /**
   * The board card at position i is visible at j: some deal up to j shows it; without a deal up to j, the decision is
   * at j and its street shows it.
   */
  predicate VisibleAt(sc: Scenario, j: int, i: int) {
    if exists e :: e in sc.events && DealsBy(e, j) then exists e :: e in sc.events && DealsBy(e, j) && Shows(e.kind, i)
    else
      j == sc.decision.afterSequence
      && var street := sc.decision.street;
         ((street.Flop? && i < 3) || (street.Turn? && i < 4) || (street.River? && i < 5))
  }

  lemma {:induction false} UpToMembers(events: seq<Event>, j: int)
    ensures forall e :: e in UpTo(events, j) <==> e in events && e.sequence <= j
  {
    if events != [] {
      var n := |events| - 1;
      UpToMembers(events[..n], j);
      assert events == events[..n] + [events[n]];
    }
  }

  lemma {:induction false} DealtMeans(events: seq<Event>, i: nat)
    ensures i < Dealt(events) <==> exists e :: e in events && Shows(e.kind, i)
  {
    if events != [] {
      var n := |events| - 1;
      DealtMeans(events[..n], i);
      assert events == events[..n] + [events[n]];
      assert i < BoardSize(events[n].kind) <==> Shows(events[n].kind, i);
      hide Shows, BoardSize;
    }
  }

  lemma RevealedMeans(sc: Scenario, j: int, i: nat)
    ensures i < RevealedAt(sc, j) <==> VisibleAt(sc, j, i)
  {
    UpToMembers(sc.events, j);
    DealtMeans(UpTo(sc.events, j), i);
    DealtMeans(UpTo(sc.events, j), 0);
    hide UpTo, Dealt;
    var events := UpTo(sc.events, j);
    if e :| e in sc.events && DealsBy(e, j) {
      assert e in events && Shows(e.kind, 0);
    }
    if Dealt(events) > 0 {
      assert 0 < Dealt(events);
      var e :| e in events && Shows(e.kind, 0);
      assert DealsBy(e, j);
    }
  }

  /** The board at j is the prefix of the visible cards. */
  lemma BoardAtMeans(sc: Scenario, j: int)
    ensures BoardAt(sc, j) <= sc.board
    ensures forall i :: 0 <= i < |sc.board| ==> (i < |BoardAt(sc, j)| <==> VisibleAt(sc, j, i))
  {
    forall i | 0 <= i < |sc.board| ensures i < |BoardAt(sc, j)| <==> VisibleAt(sc, j, i) { RevealedMeans(sc, j, i); }
  }

  // ---------------------------------------------------------------- the cards seen

  /** The events at which the trace looks at the board: deals, and the seat's betting actions. */
  predicate Looks(seat: int, e: Event) {
    e.kind.DealFlop? || e.kind.DealTurn? || e.kind.DealRiver? || OwnAction(seat, e)
  }

  predicate OwnAction(seat: int, e: Event) {
    e.actorSeat == seat
    && (e.kind.Check? || e.kind.Call? || e.kind.Bet? || e.kind.RaiseTo? || e.kind.AllIn? || e.kind.Fold?)
  }

  /** The board card at position i is visible at the start, at the cut-off, or at an event that looks. */
  predicate SeenOnBoard(sc: Scenario, seat: int, k: int, i: int) {
    VisibleAt(sc, 0, i) || VisibleAt(sc, k, i)
    || exists e :: e in sc.events && e.sequence <= k && Looks(seat, e) && VisibleAt(sc, e.sequence, i)
  }

  /** A card that the seat cannot hold: known to be another seat's, or seen on the board. */
  predicate Seen(sc: Scenario, seat: int, k: int, c: Card) {
    (exists s :: s in sc.known && s != seat && c in sc.known[s])
    || exists i :: 0 <= i < |sc.board| && sc.board[i] == c && SeenOnBoard(sc, seat, k, i)
  }

  function Applied(sc: Scenario, g: Setting, events: seq<Event>): set<Card> {
    if events == [] then DeadCards(sc, g.seat, BoardAt(sc, 0))
    else
      var n := |events| - 1;
      Applied(sc, g, events[..n]) + if Reads(g, events[n]) then DeadCards(sc, g.seat, BoardAt(sc, events[n].sequence)) else {}
  }

  function DeadOf(ts: seq<Transition>): set<Card> {
    if ts == [] then {} else DeadOf(ts[..|ts| - 1]) + ts[|ts| - 1].dead
  }

  lemma {:induction false} HitIsBlocked(ts: seq<Transition>, h: Hole)
    ensures Hit(ts, h) <==> Blocked(h, DeadOf(ts))
  {
    if ts != [] {
      var n := |ts| - 1;
      HitIsBlocked(ts[..n], h);
      OneMoreStep(ts[..n], ts[n], h);
      assert ts == ts[..n] + [ts[n]];
    }
  }

  lemma DeadSnoc(ts: seq<Transition>, t: Transition)
    ensures DeadOf(ts + [t]) == DeadOf(ts) + t.dead
  {
    assert (ts + [t])[..|ts|] == ts;
  }

  /** What the loop has removed so far, and the board it has applied. */
  predicate Removed(sc: Scenario, g: Setting, p: Progress, dead: set<Card>) {
    && dead == DeadCards(sc, g.seat, BoardAt(sc, 0)) + DeadOf(p.steps)
    && p.applied <= |sc.board| && Elements(sc.board[..p.applied]) <= dead
  }

  lemma DealRemoves(sc: Scenario, g: Setting, p: Progress, street: Street, j: int, dead: set<Card>)
    requires p.chain != [] && Removed(sc, g, p, dead)
    requires DealTo(sc, g, p, BoardAt(sc, j), street, j).status.Available?
    ensures Removed(sc, g, DealTo(sc, g, p, BoardAt(sc, j), street, j), dead + DeadCards(sc, g.seat, BoardAt(sc, j)))
  {
    var board := BoardAt(sc, j);
    BoardAtMeans(sc, j);
    hide ApplyDeadCards, BoardAt, VisibleAt;
    if |board| <= p.applied {
      assert Elements(board) <= Elements(sc.board[..p.applied]) by {
        forall c | c in board ensures c in sc.board[..p.applied] {
          var i :| 0 <= i < |board| && board[i] == c;
          assert sc.board[..p.applied][i] == c;
        }
      }
      assert DeadCards(sc, g.seat, board) <= dead;
      assert dead + DeadCards(sc, g.seat, board) == dead;
    } else {
      DeadSnoc(p.steps, Deal(DeadCards(sc, g.seat, board)));
      assert sc.board[..|board|] == board;
    }
  }

  lemma ActRemoves(sc: Scenario, g: Setting, p: Progress, e: Event, dead: set<Card>)
    requires p.chain != [] && Removed(sc, g, p, dead) && p.status.Available?
    requires ActOn(sc, g, p, e).status.Available?
    ensures Removed(sc, g, ActOn(sc, g, p, e), dead + DeadCards(sc, g.seat, BoardAt(sc, e.sequence)))
  {
    var more := DeadCards(sc, g.seat, BoardAt(sc, e.sequence));
    hide UpdateBelief, FirstAnswer, ResolveMatch, BoardAt, DeadCards, ViewAt;
    var q := ActOn(sc, g, p, e);
    assert |q.steps| == |p.steps| + 1 && q.steps[..|p.steps|] == p.steps && q.steps[|p.steps|].dead == more;
    assert q.steps == p.steps + [q.steps[|p.steps|]];
    DeadSnoc(p.steps, q.steps[|p.steps|]);
  }

  predicate Running(p: Progress) {
    p.chain != [] && p.status.Available?
  }

  lemma {:induction false} ThroughRemoves(sc: Scenario, g: Setting, events: seq<Event>)
    requires Running(Through(sc, g, events))
    ensures Removed(sc, g, Through(sc, g, events), Applied(sc, g, events))
  {
    hide DealTo, ActOn, BoardAt, DeadCards;
    if events == [] {
      assert Elements(sc.board[..0]) == {};
      hide FromRange;
    } else {
      var n := |events| - 1;
      var e, p := events[n], Through(sc, g, events[..n]);
      ThroughRemoves(sc, g, events[..n]);
      if IsDeal(e.kind) { DealRemoves(sc, g, p, e.street, e.sequence, Applied(sc, g, events[..n])); }
      else if IsPolicyAction(e.kind) && e.actorSeat == g.seat { ActRemoves(sc, g, p, e, Applied(sc, g, events[..n])); }
      else { assert Applied(sc, g, events) == Applied(sc, g, events[..n]); }
    }
  }

  // ---------------------------------------------------------------- the seat's own actions

  function OwnEvents(seat: int, events: seq<Event>): seq<Event> {
    if events == [] then []
    else
      var n := |events| - 1;
      OwnEvents(seat, events[..n]) + if OwnAction(seat, events[n]) then [events[n]] else []
  }

  /** The likelihoods of the chain's updates, in order. */
  function ActFactors(ts: seq<Transition>): seq<Hole -> real> {
    if ts == [] then []
    else
      var n := |ts| - 1;
      ActFactors(ts[..n]) + if ts[n].Act? then [ts[n].factor] else []
  }

  function ProductOf(factors: seq<Hole -> real>, h: Hole): real {
    if factors == [] then 1.0
    else Times(ProductOf(factors[..|factors| - 1], h), factors[|factors| - 1](h))
  }

  lemma {:induction false} ProductOfActs(ts: seq<Transition>, h: Hole)
    ensures FactorProduct(ts, h) == ProductOf(ActFactors(ts), h)
  {
    hide Times;
    if ts != [] {
      var n := |ts| - 1;
      ProductOfActs(ts[..n], h);
      var before := ActFactors(ts[..n]);
      if ts[n].Act? { assert (before + [ts[n].factor])[..|before|] == before; }
      else { assert before + [] == before; }
    }
  }

  /** The first provider that answers, with a policy: the ones before it do not cover the node. */
  ghost predicate Answers(g: Setting, view: Scenario, e: Event, keys: seq<Hole>, policy: Policy) {
    exists x :: 0 <= x < |g.providers|
      && g.providers[x](view, g.seat, e.sequence, keys) == Grounded(policy)
      && forall y :: 0 <= y < x ==>
           g.providers[y](view, g.seat, e.sequence, keys).NotCovered? || g.providers[y](view, g.seat, e.sequence, keys).OtherNode?
  }

  lemma {:induction false} FirstAnswers(providers: seq<Provider>, view: Scenario, seat: int, sequence: int, keys: seq<Hole>) returns (x: nat)
    requires FirstAnswer(providers, view, seat, sequence, keys).Grounded?
    ensures x < |providers| && providers[x](view, seat, sequence, keys) == FirstAnswer(providers, view, seat, sequence, keys)
    ensures forall y :: 0 <= y < x ==>
              providers[y](view, seat, sequence, keys).NotCovered? || providers[y](view, seat, sequence, keys).OtherNode?
  {
    if providers[0](view, seat, sequence, keys).Grounded? {
      x := 0;
    } else {
      var rest := FirstAnswers(providers[1..], view, seat, sequence, keys);
      x := rest + 1;
      forall y | 0 <= y < x ensures providers[y](view, seat, sequence, keys).NotCovered? || providers[y](view, seat, sequence, keys).OtherNode? {
        if y > 0 { assert providers[1..][y - 1] == providers[y]; }
      }
    }
  }

  /** The column that the action maps to. */
  predicate MapsTo(policy: Policy, e: Event, pot: Option<nat>, column: Column) {
    var m := ResolveMatch(policy, e.kind, e.amount, pot);
    m == Done(Exact(column)) || m == Done(NearestSize(column))
  }

  ghost predicate FactorOf(policy: Policy, column: Column, factor: Hole -> real) {
    forall h: Hole :: factor(h)
      == if h in policy.frequencies && column in policy.frequencies[h] then policy.frequencies[h][column] else 0.0
  }

  /** The policy's frequency of the matched column, for the scenario cut off at the action and these combos. */
  ghost predicate FactorOk(sc: Scenario, g: Setting, e: Event, keys: seq<Hole>, factor: Hole -> real) {
    var view := Scenario(UpTo(sc.events, e.sequence), BoardAt(sc, e.sequence), Decision(e.street, e.actorSeat, e.sequence),
                         sc.known, sc.listed, sc.rest);
    var pot := if g.pots.Some? then g.pots.value(e.sequence) else None;
    exists policy, column :: Answers(g, view, e, keys, policy) && MapsTo(policy, e, pot, column) && FactorOf(policy, column, factor)
  }

  /** Each update belongs to the own action of the same number and asks for the combos of the snapshot before it. */
  ghost predicate ActsRight(sc: Scenario, g: Setting, p: Progress, own: seq<Event>) {
    && |p.chain| == |p.steps| + 1 && |ActFactors(p.steps)| == |own|
    && forall m :: 0 <= m < |p.steps| && p.steps[m].Act? ==> ActRight(sc, g, p, own, m)
  }

  ghost predicate ActRight(sc: Scenario, g: Setting, p: Progress, own: seq<Event>, m: int)
    requires 0 <= m < |p.steps| && m < |p.chain| && p.steps[m].Act?
  {
    var i := |ActFactors(p.steps[..m])|;
    i < |own| && FactorOk(sc, g, own[i], ComboKeys(p.chain[m].combos), p.steps[m].factor)
  }

  lemma FactorIsOk(sc: Scenario, g: Setting, e: Event, keys: seq<Hole>, policy: Policy, column: Column)
    requires FirstAnswer(g.providers, ViewAt(sc, e), g.seat, e.sequence, keys) == Grounded(policy)
    requires var m := ResolveMatch(policy, e.kind, e.amount, PotBefore(g, e.sequence)); m.Done? && !m.value.Unsupported? && m.value.column == column
    ensures FactorOk(sc, g, e, keys, Factor(policy, column))
  {
    hide ResolveMatch, BoardAt, UpTo;
    var x := FirstAnswers(g.providers, ViewAt(sc, e), g.seat, e.sequence, keys);
    assert Answers(g, ViewAt(sc, e), e, keys, policy);
    assert MapsTo(policy, e, PotBefore(g, e.sequence), column);
    assert FactorOf(policy, column, Factor(policy, column));
  }

  /** A chain that grows by one step keeps the earlier updates right. */
  lemma GrowsRight(sc: Scenario, g: Setting, p: Progress, q: Progress, own: seq<Event>, more: seq<Event>)
    requires ActsRight(sc, g, p, own) && |q.chain| == |p.chain| + 1 && |q.steps| == |p.steps| + 1
    requires p.chain <= q.chain && p.steps <= q.steps && own <= more
    requires var t := q.steps[|p.steps|];
             if t.Deal? then more == own
             else |more| == |own| + 1 && FactorOk(sc, g, more[|own|], ComboKeys(LastOf(p.chain).combos), t.factor)
    ensures ActsRight(sc, g, q, more)
  {
    hide FactorOk;
    var n := |p.steps|;
    assert q.steps[..n] == p.steps;
    forall m | 0 <= m < |q.steps| && q.steps[m].Act? ensures ActRight(sc, g, q, more, m) {
      if m < n {
        assert q.steps[..m] == p.steps[..m] && p.steps[m] == q.steps[m] && ActRight(sc, g, p, own, m);
      }
    }
  }

  lemma SameRight(sc: Scenario, g: Setting, p: Progress, q: Progress, own: seq<Event>)
    requires ActsRight(sc, g, p, own) && q.chain == p.chain && q.steps == p.steps
    ensures ActsRight(sc, g, q, own)
  {
    hide FactorOk;
    forall m | 0 <= m < |q.steps| && q.steps[m].Act? ensures ActRight(sc, g, q, own, m) { assert ActRight(sc, g, p, own, m); }
  }

  lemma DealKeepsRight(sc: Scenario, g: Setting, p: Progress, board: seq<Card>, street: Street, sequence: int, own: seq<Event>)
    requires p.chain != [] && ActsRight(sc, g, p, own)
    ensures ActsRight(sc, g, DealTo(sc, g, p, board, street, sequence), own)
  {
    hide ActsRight, DeadCards, ApplyDeadCards;
    var q := DealTo(sc, g, p, board, street, sequence);
    if q.chain == p.chain { SameRight(sc, g, p, q, own); } else { GrowsRight(sc, g, p, q, own, own); }
  }

  lemma ActKeepsRight(sc: Scenario, g: Setting, p: Progress, e: Event, own: seq<Event>)
    requires p.chain != [] && p.status.Available? && ActsRight(sc, g, p, own) && ActOn(sc, g, p, e).status.Available?
    ensures ActsRight(sc, g, ActOn(sc, g, p, e), own + [e])
  {
    hide ActsRight, DeadCards, ResolveMatch, FirstAnswer, ViewAt, FactorOk, BoardAt;
    var q, keys := ActOn(sc, g, p, e), ComboKeys(LastOf(p.chain).combos);
    var policy := FirstAnswer(g.providers, ViewAt(sc, e), g.seat, e.sequence, keys).policy;
    var column := ResolveMatch(policy, e.kind, e.amount, PotBefore(g, e.sequence)).value.column;
    FactorIsOk(sc, g, e, keys, policy, column);
    GrowsRight(sc, g, p, q, own, own + [e]);
  }

  lemma {:induction false} ThroughActs(sc: Scenario, g: Setting, events: seq<Event>)
    requires Running(Through(sc, g, events))
    ensures ActsRight(sc, g, Through(sc, g, events), OwnEvents(g.seat, events))
  {
    hide DealTo, ActOn, BoardAt, DeadCards, FactorOk;
    if events == [] {
      hide FromRange;
    } else {
      var n := |events| - 1;
      var e, p := events[n], Through(sc, g, events[..n]);
      ThroughActs(sc, g, events[..n]);
      var own := OwnEvents(g.seat, events[..n]);
      hide ActsRight;
      if IsDeal(e.kind) { DealKeepsRight(sc, g, p, BoardAt(sc, e.sequence), e.street, e.sequence, own); }
      else if IsPolicyAction(e.kind) && e.actorSeat == g.seat { ActKeepsRight(sc, g, p, e, own); }
    }
  }

  // ---------------------------------------------------------------- the last snapshot

  lemma {:induction false} AppliedMeans(sc: Scenario, g: Setting, events: seq<Event>, c: Card)
    ensures c in Applied(sc, g, events) <==>
              (exists s :: s in sc.known && s != g.seat && c in sc.known[s])
              || c in BoardAt(sc, 0)
              || exists e :: e in events && Looks(g.seat, e) && c in BoardAt(sc, e.sequence)
  {
    hide BoardAt;
    if events != [] {
      var n := |events| - 1;
      AppliedMeans(sc, g, events[..n], c);
      assert events == events[..n] + [events[n]];
      assert Reads(g, events[n]) <==> Looks(g.seat, events[n]);
      hide Reads, Looks, Applied;
    }
  }

  lemma OnBoard(sc: Scenario, j: int, c: Card)
    ensures c in BoardAt(sc, j) <==> exists i :: 0 <= i < |sc.board| && sc.board[i] == c && VisibleAt(sc, j, i)
  {
    BoardAtMeans(sc, j);
    hide VisibleAt;
    var board := BoardAt(sc, j);
    if c in board { var i :| 0 <= i < |board| && board[i] == c; assert sc.board[i] == c && VisibleAt(sc, j, i); }
    if i :| 0 <= i < |sc.board| && sc.board[i] == c && VisibleAt(sc, j, i) { assert board[i] == c; }
  }

  /** The removed cards are the seen ones. */
  lemma SeenIsApplied(sc: Scenario, g: Setting, k: int, c: Card)
    ensures Seen(sc, g.seat, k, c) <==> c in Applied(sc, g, UpTo(sc.events, k)) + DeadCards(sc, g.seat, BoardAt(sc, k))
  {
    AppliedMeans(sc, g, UpTo(sc.events, k), c);
    UpToMembers(sc.events, k);
    OnBoard(sc, 0, c);
    OnBoard(sc, k, c);
    forall e | e in sc.events
      ensures c in BoardAt(sc, e.sequence) <==> exists i :: 0 <= i < |sc.board| && sc.board[i] == c && VisibleAt(sc, e.sequence, i)
    {
      OnBoard(sc, e.sequence, c);
    }
    hide BoardAt, VisibleAt, Looks, UpTo, Applied;
  }

  /** The weight that the seat's range gives a combo. */
  function PriorWeight(g: Setting, h: Hole): real {
    RangeWeight(g.prior.(dead := {}), {}, h)
  }

  lemma PriorMembers(g: Setting, dead: set<Card>, w: Weighted)
    ensures w in Weigh(Expanded(g.prior.(dead := {}), dead)) <==> PriorWeight(g, w.key) == w.reach > 0.0 && !Blocked(w.key, dead)
  {
    var r := g.prior.(dead := {});
    ExpansionExact(r, dead);
    assert !Blocked(w.key, dead) ==> RangeWeight(r, dead, w.key) == RangeWeight(r, {}, w.key);
    assert Blocked(w.key, dead) ==> RangeWeight(r, dead, w.key) == 0.0;
    hide Expanded, RangeWeight, Blocked;
    var entries := Expanded(r, dead);
    if w in Weigh(entries) {
      var i :| 0 <= i < |entries| && Weigh(entries)[i] == w;
      assert entries[i] in entries;
    }
    if RangeWeight(r, dead, w.key) == w.reach > 0.0 {
      var e := EntryOf(w);
      assert e in entries;
      var i :| 0 <= i < |entries| && entries[i] == e;
      assert Weigh(entries)[i] == w;
    }
  }

  function EntryOf(w: Weighted): (e: Entry)
    ensures e.Pair() == w.key && e.weight == w.reach
  {
    Entry(w.key.0, w.key.1, w.reach)
  }

  lemma LastMembers(sc: Scenario, g: Setting, p: Progress, dead: set<Card>, x: Weighted)
    requires Removed(sc, g, p, dead)
    ensures x in ClosedForm(PriorWeights(sc, g), p.steps) <==>
              var product := ProductOf(ActFactors(p.steps), x.key);
              PriorWeight(g, x.key) > 0.0 && product > 0.0 && !Blocked(x.key, dead) && x.reach == Times(PriorWeight(g, x.key), product)
  {
    var start := DeadCards(sc, g.seat, BoardAt(sc, 0));
    ClosedFormMembers(PriorWeights(sc, g), p.steps, x);
    ProductOfActs(p.steps, x.key);
    HitIsBlocked(p.steps, x.key);
    assert Blocked(x.key, dead) <==> Blocked(x.key, start) || Blocked(x.key, DeadOf(p.steps));
    hide ClosedForm, Hit, FactorProduct, ProductOf, ActFactors, DeadCards, BoardAt, Blocked, Times, PriorWeight, Removed;
    if x in ClosedForm(PriorWeights(sc, g), p.steps) {
      var w :| w in PriorWeights(sc, g) && w.key == x.key && x.reach == Times(w.reach, FactorProduct(p.steps, x.key));
      PriorMembers(g, start, w);
    }
    PriorMembers(g, start, Weighted(x.key, PriorWeight(g, x.key)));
  }

  /**
   * While a trace is available: its updates are the seat's own actions up to the cut-off, in order, each with the
   * matched column of the first policy that covers it; and the last snapshot holds exactly the combos of the seat's
   * range whose cards are not seen and whose likelihoods are positive, with weight times likelihoods as reach.
   */
  lemma TraceMeans(sc: Scenario, g: Setting, k: int)
    requires SoundProviders(g.providers) && Running(TraceAt(sc, g, k))
    ensures var p := TraceAt(sc, g, k);
            && ActsRight(sc, g, p, OwnEvents(g.seat, UpTo(sc.events, k)))
            && forall x :: x in WeightsOf(LastOf(p.chain).combos) <==>
                 var product := ProductOf(ActFactors(p.steps), x.key);
                 PriorWeight(g, x.key) > 0.0 && product > 0.0 && x.reach == Times(PriorWeight(g, x.key), product)
                 && !Seen(sc, g.seat, k, x.key.0) && !Seen(sc, g.seat, k, x.key.1)
  {
    var events, p := UpTo(sc.events, k), TraceAt(sc, g, k);
    TraceIsClosedForm(sc, g, k);
    TraceSplits(sc, g, k);
    ThroughRemoves(sc, g, events);
    ThroughActs(sc, g, events);
    var dead := Applied(sc, g, events) + DeadCards(sc, g.seat, BoardAt(sc, k));
    hide TraceAt, Through, UpTo, DealTo, BoardAt, DeadCards, ActsRight, Applied;
    DealKeepsRight(sc, g, Through(sc, g, events), BoardAt(sc, k), StreetAt(sc, k), k, OwnEvents(g.seat, events));
    DealRemoves(sc, g, Through(sc, g, events), StreetAt(sc, k), k, Applied(sc, g, events));
    assert p.steps[..|p.chain| - 1] == p.steps;
    hide ClosedForm, PriorWeights, IsNormalized, Removed;
    forall x ensures x in WeightsOf(LastOf(p.chain).combos) <==>
                 var product := ProductOf(ActFactors(p.steps), x.key);
                 PriorWeight(g, x.key) > 0.0 && product > 0.0 && x.reach == Times(PriorWeight(g, x.key), product)
                 && !Seen(sc, g.seat, k, x.key.0) && !Seen(sc, g.seat, k, x.key.1)
    {
      LastMembers(sc, g, p, dead, x);
      SeenIsApplied(sc, g, k, x.key.0);
      SeenIsApplied(sc, g, k, x.key.1);
    }
  }

  lemma TraceSplits(sc: Scenario, g: Setting, k: int)
    requires Running(TraceAt(sc, g, k))
    ensures Running(Through(sc, g, UpTo(sc.events, k)))
    ensures TraceAt(sc, g, k) == DealTo(sc, g, Through(sc, g, UpTo(sc.events, k)), BoardAt(sc, k), StreetAt(sc, k), k)
  {
    hide Through, ApplyDeadCards, BoardAt, DeadCards;
  }

  /** The own actions are exactly the seat's checks, calls, bets, raises, all-ins and folds. */
  lemma {:induction false} OwnEventsAre(seat: int, events: seq<Event>)
    ensures forall e :: e in OwnEvents(seat, events) <==> e in events && OwnAction(seat, e)
  {
    if events != [] {
      var n := |events| - 1;
      OwnEventsAre(seat, events[..n]);
      assert events == events[..n] + [events[n]];
    }
  }
}
