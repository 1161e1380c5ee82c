/** What the beliefs of a public prefix hold: every seat's prior combos, its dealt cards and its own actions. */
module BeliefMeaning {
  import opened Cards
  import opened RangeExpansion
  import opened RangeBelief
  import opened Likelihood
  import opened Sums
  import opened BeliefReplay

  // ---------------------------------------------------------------- normalised combos

  predicate KeysOnce(ws: seq<Weighted>) {
    forall i, j :: 0 <= i < j < |ws| ==> ws[i].key != ws[j].key
  }

  lemma {:induction false} InsertMembers(w: Weighted, ws: seq<Weighted>)
    ensures multiset(InsertByKey(w, ws)) == multiset(ws) + multiset{w}
  {
    hide CodeOf;
    if ws != [] && CodeOf(w.key) > CodeOf(ws[0].key) {
      InsertMembers(w, ws[1..]);
      assert ws == [ws[0]] + ws[1..];
    }
  }

  lemma {:induction false} SortMembers(ws: seq<Weighted>)
    ensures multiset(SortByKey(ws)) == multiset(ws)
  {
    if ws != [] {
      SortMembers(ws[1..]);
      InsertMembers(ws[0], SortByKey(ws[1..]));
      assert ws == [ws[0]] + ws[1..];
    }
  }

  /** A reordering keeps every key once. */
  lemma KeysOnceReordered(a: seq<Weighted>, b: seq<Weighted>)
    requires multiset(a) == multiset(b) && KeysOnce(a)
    ensures KeysOnce(b)
  {
    forall i, j | 0 <= i < j < |b| ensures b[i].key != b[j].key {
      assert b[i] in multiset(a) && b[j] in multiset(a);
      var x :| 0 <= x < |a| && a[x] == b[i];
      var y :| 0 <= y < |a| && a[y] == b[j];
      OnceEach(a, x);
      if b[i] == b[j] { Twice(b, i, j); }
    }
  }

  lemma Twice(b: seq<Weighted>, i: nat, j: nat)
    requires i < j < |b| && b[i] == b[j]
    ensures multiset(b)[b[i]] >= 2
  {
    assert b == b[..i] + [b[i]] + b[i + 1..j] + [b[j]] + b[j + 1..];
  }

  lemma OnceEach(a: seq<Weighted>, x: nat)
    requires x < |a| && KeysOnce(a)
    ensures multiset(a)[a[x]] == 1
  {
    assert a == a[..x] + [a[x]] + a[x + 1..];
    assert a[x] !in a[..x] && a[x] !in a[x + 1..];
  }

  lemma NormalizedWeights(ws: seq<Weighted>, mass: real, combos: seq<ComboBelief>)
    requires NormalizedCombos(ws, mass) == Some(combos)
    ensures WeightsOf(combos) == SortByKey(ws) && ws != []
  {
    SortKeepsTotal(ws);
    hide SortByKey, Ratio, Total, Sum;
    var sorted := SortByKey(ws);
    var n := |sorted| - 1;
    var others := if n > 0 then Normalized(sorted[..n], mass) else [];
    assert combos == others + [ComboBelief(sorted[n].key, sorted[n].reach, 1.0 - Sum(Probabilities(others)))];
  }

  lemma NormalizedShares(ws: seq<Weighted>, combos: seq<ComboBelief>)
    requires NormalizedCombos(ws, Total(ws)) == Some(combos) && Total(ws) > 0.0
    ensures forall c :: c in combos ==> c.probability == Ratio(c.reach, Total(ws))
  {
    LastShareIsRest(ws, Total(ws));
    hide SortByKey, Ratio, Total, NormalizedCombos;
  }

  /** Normalising keeps every key with its reach, and with positive mass gives each its share. */
  lemma NormalizedMeans(ws: seq<Weighted>, combos: seq<ComboBelief>)
    requires NormalizedCombos(ws, Total(ws)) == Some(combos) && KeysOnce(ws)
    ensures multiset(WeightsOf(combos)) == multiset(ws) && KeysOnce(WeightsOf(combos)) && ws != []
    ensures Total(WeightsOf(combos)) == Total(ws)
    ensures Total(ws) > 0.0 ==> forall c :: c in combos ==> c.probability == Ratio(c.reach, Total(ws))
  {
    NormalizedWeights(ws, Total(ws), combos);
    SortMembers(ws);
    SortKeepsTotal(ws);
    hide SortByKey, Total, Ratio, NormalizedCombos, KeysOnce;
    KeysOnceReordered(ws, SortByKey(ws));
    if Total(ws) > 0.0 { NormalizedShares(ws, combos); }
  }

  // ---------------------------------------------------------------- the closed form of a seat

  /** The cards that the events deal. */
  function DealtCards(events: seq<StreamEvent>): set<Card> {
    set i, c | 0 <= i < |events| && events[i].payload.BoardDealt? && c in events[i].payload.cards :: c
  }

  predicate ActsAt(events: seq<StreamEvent>, i: int, seat: int) {
    0 <= i < |events| && events[i].payload.ActionTaken? && events[i].payload.action.actor == seat
  }

  /** The product of the factors of the seat's own actions. */
  function OwnProduct(events: seq<StreamEvent>, seat: int, factors: seq<Hole -> real>, h: Hole): real
    requires |factors| >= |events|
  {
    if events == [] then 1.0
    else
      var n := |events| - 1;
      var before := OwnProduct(events[..n], seat, factors, h);
      if ActsAt(events, n, seat) then Times(before, factors[n](h)) else before
  }

  /** Some event dealt cards or was the seat's own action. */
  predicate Touched(events: seq<StreamEvent>, seat: int) {
    exists i :: 0 <= i < |events| && (events[i].payload.BoardDealt? || ActsAt(events, i, seat))
  }

  /** The table after an event. */
  function TableStep(g: Started, t: Table, e: StreamEvent): Table {
    match e.payload
    case BoardDealt(_, cards) => TableDealt(g, t, cards)
    case ActionTaken(a) => if a.actor in t.stacks && a.actor in t.contributions then TableAfter(t, a) else t
    case _ => t
  }

  /** The table that the events lead to. */
  function TableOf(w: World, g: Started, events: seq<StreamEvent>): Table {
    if events == [] then Opening(w, g, g.active)
    else TableStep(g, TableOf(w, g, events[..|events| - 1]), events[|events| - 1])
  }

  predicate Holds(ws: seq<Weighted>, h: Hole) {
    exists i :: 0 <= i < |ws| && ws[i].key == h
  }

  ghost predicate SameFactor(f: Hole -> real, g: Hole -> real) {
    forall h: Hole :: f(h) == g(h)
  }

  /** The likelihood of action i: of its size, street and table, or of the policy for the actor's combos left by then. */
  ghost predicate FactorAt(w: World, g: Started, prior: Snapshot, events: seq<StreamEvent>, i: int, factor: Hole -> real) {
    0 <= i < |events| && events[i].payload.ActionTaken?
    && var a, t := events[i].payload.action, TableOf(w, g, events[..i]);
    a.actor in t.stacks && a.actor in t.contributions
    && exists keys: seq<Hole> :: KeysLeft(prior, events[..i], keys)
         && var policy := if a.street.Preflop? then w.policyFor(g, t.preflop, a, keys) else None;
            FactorIs(w, g, t, a, policy, factor)
  }

  /**
   * With a policy the table's value for the combo in the matched column, 0 without one; otherwise the heuristic
   * likelihood on the board, pot and stack before the action.
   */
  ghost predicate FactorIs(w: World, g: Started, t: Table, a: Action, policy: Option<PolicyUse>, factor: Hole -> real)
    requires a.actor in t.stacks && a.actor in t.contributions
  {
    var c := ContextOf(w, g, t, a);
    && c.board == t.board && c.potBefore == t.pot && c.stackBefore == t.stacks[a.actor]
    && (match w.position(g, a.actor) case Seated(position) => c.position == position case _ => c.position.OtherPosition?)
    && forall h: Hole :: factor(h) == match policy {
         case None => LikelihoodOf(h, a.action, a.street, LikelihoodAmount(t, a), c)
         case Some(p) =>
           var table := w.table(p.fingerprint, p.node);
           if p.column.Some? && h in table && p.column.value in table[h] then table[h][p.column.value] else 0.0
       }
  }

  lemma LikelihoodIs(w: World, g: Started, t: Table, a: Action, policy: Option<PolicyUse>)
    requires a.actor in t.stacks && a.actor in t.contributions
    ensures FactorIs(w, g, t, a, policy, ActionLikelihood(w, a, LikelihoodAmount(t, a), ContextOf(w, g, t, a), policy))
  {
    hide LikelihoodOf, LikelihoodAmount;
  }

  /** The keys of the prior combos that hold no dealt card. */
  ghost predicate KeysLeft(prior: Snapshot, events: seq<StreamEvent>, keys: seq<Hole>) {
    forall h :: h in keys <==> Holds(WeightsOf(prior.combos), h) && !Blocked(h, DealtCards(events))
  }

  /** Every action's factor is its likelihood. */
  ghost predicate FactorsRight(w: World, g: Started, visible: set<Card>, events: seq<StreamEvent>, factors: seq<Hole -> real>) {
    |factors| == |events|
    && forall i :: 0 <= i < |events| && events[i].payload.ActionTaken? ==>
         events[i].payload.action.actor in g.active
         && FactorAt(w, g, PriorValue(w, g, visible, events[i].payload.action.actor), events, i, factors[i])
  }

  /**
   * A seat's combos are its prior combos without a dealt card, each once; a reach is the prior reach times the factors
   * of the seat's own actions; and once an event has touched the seat and its mass is positive, a probability is the
   * reach over the mass.
   */
  ghost predicate SeatRight(prior: Snapshot, now: Snapshot, events: seq<StreamEvent>, seat: int, factors: seq<Hole -> real>)
    requires |factors| >= |events|
  {
    var before, after := WeightsOf(prior.combos), WeightsOf(now.combos);
    && KeysOnce(after) && KeysRight(before, after, DealtCards(events)) && ReachesRight(before, after, events, seat, factors)
    && (if Touched(events, seat) then SharesRight(now) else now == prior)
  }

  ghost predicate KeysRight(before: seq<Weighted>, after: seq<Weighted>, dealt: set<Card>) {
    forall h :: Holds(after, h) <==> Holds(before, h) && !Blocked(h, dealt)
  }

  ghost predicate ReachesRight(before: seq<Weighted>, after: seq<Weighted>, events: seq<StreamEvent>, seat: int, factors: seq<Hole -> real>)
    requires |factors| >= |events|
  {
    forall c :: c in after ==> exists p :: p in before && p.key == c.key && c.reach == Times(p.reach, OwnProduct(events, seat, factors, c.key))
  }

  ghost predicate SharesRight(now: Snapshot) {
    var mass := Total(WeightsOf(now.combos));
    now.retainedMass == mass && (mass > 0.0 ==> forall c :: c in now.combos ==> c.probability == Ratio(c.reach, mass))
  }

  // ---------------------------------------------------------------- one event

  lemma {:induction false} UndeadMembers(ws: seq<Weighted>, dead: set<Card>)
    requires KeysOnce(ws)
    ensures forall x :: x in Undead(ws, dead) <==> x in ws && !Blocked(x.key, dead)
    ensures KeysOnce(Undead(ws, dead))
  {
    hide Blocked;
    if ws != [] {
      var n := |ws| - 1;
      UndeadMembers(ws[..n], dead);
      assert ws == ws[..n] + [ws[n]];
      var kept := Undead(ws[..n], dead);
      forall i | 0 <= i < |kept| ensures kept[i].key != ws[n].key {
        assert kept[i] in ws[..n];
        var j :| 0 <= j < n && ws[j] == kept[i];
      }
    }
  }

  lemma HoldsMember(ws: seq<Weighted>, h: Hole)
    ensures Holds(ws, h) <==> exists x :: x in ws && x.key == h
  {
    if x :| x in ws && x.key == h { var i :| 0 <= i < |ws| && ws[i] == x; }
  }

  lemma SameMembers(a: seq<Weighted>, b: seq<Weighted>)
    requires multiset(a) == multiset(b)
    ensures forall x :: x in a <==> x in b
    ensures forall h :: Holds(a, h) <==> Holds(b, h)
  {
    forall x ensures x in a <==> x in b { assert x in multiset(a) <==> x in multiset(b); }
    forall h ensures Holds(a, h) <==> Holds(b, h) {
      HoldsMember(a, h);
      HoldsMember(b, h);
    }
  }

  lemma DealtMore(events: seq<StreamEvent>)
    requires events != []
    ensures var n := |events| - 1;
            DealtCards(events) == DealtCards(events[..n])
              + if events[n].payload.BoardDealt? then Elements(events[n].payload.cards) else {}
  {
    var n := |events| - 1;
    forall c ensures c in DealtCards(events) <==>
                       c in DealtCards(events[..n]) || (events[n].payload.BoardDealt? && c in events[n].payload.cards)
    {
      if c in DealtCards(events) {
        var i :| 0 <= i < |events| && events[i].payload.BoardDealt? && c in events[i].payload.cards;
        if i < n { assert events[..n][i] == events[i]; }
      }
      if c in DealtCards(events[..n]) {
        var i :| 0 <= i < n && events[..n][i].payload.BoardDealt? && c in events[..n][i].payload.cards;
        assert events[i] == events[..n][i];
      }
    }
  }

  lemma TouchedMore(events: seq<StreamEvent>, seat: int)
    requires events != []
    ensures var n := |events| - 1;
            Touched(events, seat) <==> Touched(events[..n], seat) || events[n].payload.BoardDealt? || ActsAt(events, n, seat)
  {
    var n := |events| - 1;
    if Touched(events[..n], seat) {
      var i :| 0 <= i < n && (events[..n][i].payload.BoardDealt? || ActsAt(events[..n], i, seat));
      assert events[i] == events[..n][i];
    }
    if Touched(events, seat) && !events[n].payload.BoardDealt? && !ActsAt(events, n, seat) {
      var i :| 0 <= i < |events| && (events[i].payload.BoardDealt? || ActsAt(events, i, seat));
      assert events[..n][i] == events[i];
    }
  }

  lemma BlockedMore(h: Hole, a: set<Card>, b: set<Card>)
    ensures Blocked(h, a + b) <==> Blocked(h, a) || Blocked(h, b)
  {}

  lemma KeysFewer(before: seq<Weighted>, ws: seq<Weighted>, after: seq<Weighted>, dealt: set<Card>, cards: set<Card>)
    requires KeysRight(before, ws, dealt) && KeysOnce(ws) && multiset(after) == multiset(Undead(ws, cards))
    ensures KeysRight(before, after, dealt + cards)
  {
    UndeadMembers(ws, cards);
    SameMembers(after, Undead(ws, cards));
    hide Undead, Blocked, KeysOnce, Holds;
    forall h ensures Holds(after, h) <==> Holds(before, h) && !Blocked(h, dealt + cards) {
      HoldsMember(after, h);
      HoldsMember(ws, h);
      BlockedMore(h, dealt, cards);
    }
  }

  lemma ReachesFewer(before: seq<Weighted>, ws: seq<Weighted>, after: seq<Weighted>, events: seq<StreamEvent>, seat: int,
                     factors: seq<Hole -> real>, cards: set<Card>)
    requires events != [] && |factors| >= |events| && !ActsAt(events, |events| - 1, seat)
    requires ReachesRight(before, ws, events[..|events| - 1], seat, factors) && KeysOnce(ws)
    requires multiset(after) == multiset(Undead(ws, cards))
    ensures ReachesRight(before, after, events, seat, factors)
  {
    UndeadMembers(ws, cards);
    SameMembers(after, Undead(ws, cards));
    assert forall h :: OwnProduct(events, seat, factors, h) == OwnProduct(events[..|events| - 1], seat, factors, h);
    hide Undead, Blocked, KeysOnce, OwnProduct, Holds, Times;
  }

  /** A deal drops the combos that hold one of its cards. */
  lemma DealSeat(prior: Snapshot, now: Snapshot, events: seq<StreamEvent>, seat: int, factors: seq<Hole -> real>,
                 sequence: int, street: Street, next: Snapshot)
    requires events != [] && |factors| == |events| && events[|events| - 1].payload.BoardDealt?
    requires SeatRight(prior, now, events[..|events| - 1], seat, factors)
    requires BlockValue(now, events[|events| - 1].payload.cards, sequence, street) == Some(next)
    ensures SeatRight(prior, next, events, seat, factors)
  {
    var n := |events| - 1;
    var cards := Elements(events[n].payload.cards);
    var before, ws, after := WeightsOf(prior.combos), WeightsOf(now.combos), WeightsOf(next.combos);
    UndeadMembers(ws, cards);
    NormalizedMeans(Undead(ws, cards), next.combos);
    DealtMore(events);
    TouchedMore(events, seat);
    hide NormalizedCombos, Undead, DealtCards, Touched, KeysOnce, Total, Ratio, Elements, KeysRight, ReachesRight, WeightsOf;
    KeysFewer(before, ws, after, DealtCards(events[..n]), cards);
    ReachesFewer(before, ws, after, events, seat, factors, cards);
  }

  lemma KeysSame(before: seq<Weighted>, ws: seq<Weighted>, after: seq<Weighted>, dealt: set<Card>, factor: Hole -> real)
    requires KeysRight(before, ws, dealt) && multiset(after) == multiset(Multiplied(ws, factor))
    ensures KeysRight(before, after, dealt)
  {
    var weighted := Multiplied(ws, factor);
    SameMembers(after, weighted);
    assert forall i :: 0 <= i < |ws| ==> weighted[i].key == ws[i].key;
    hide Multiplied, Blocked, Times;
  }

  lemma ReachesTimes(before: seq<Weighted>, ws: seq<Weighted>, after: seq<Weighted>, events: seq<StreamEvent>, seat: int,
                     factors: seq<Hole -> real>, likelihood: Hole -> real)
    requires events != [] && |factors| >= |events| && ActsAt(events, |events| - 1, seat)
    requires ReachesRight(before, ws, events[..|events| - 1], seat, factors)
    requires SameFactor(factors[|events| - 1], likelihood) && multiset(after) == multiset(Multiplied(ws, likelihood))
    ensures ReachesRight(before, after, events, seat, factors)
  {
    var n := |events| - 1;
    var weighted := Multiplied(ws, likelihood);
    SameMembers(after, weighted);
    MultipliedReaches(ws, likelihood, factors[n]);
    assert forall h :: OwnProduct(events, seat, factors, h) == Times(OwnProduct(events[..n], seat, factors, h), factors[n](h));
    hide OwnProduct, Holds, Multiplied, SameFactor, Times;
    forall x | x in after
      ensures exists p :: p in before && p.key == x.key && x.reach == Times(p.reach, OwnProduct(events, seat, factors, x.key))
    {
      var y :| y in ws && y.key == x.key && x.reach == Times(y.reach, factors[n](x.key));
      var p :| p in before && p.key == y.key && y.reach == Times(p.reach, OwnProduct(events[..n], seat, factors, y.key));
      Associates(p.reach, OwnProduct(events[..n], seat, factors, p.key), factors[n](p.key));
    }
  }

  ghost predicate ScaledReaches(ws: seq<Weighted>, weighted: seq<Weighted>, factor: Hole -> real) {
    forall x :: x in weighted ==> exists y :: y in ws && y.key == x.key && x.reach == Times(y.reach, factor(x.key))
  }

  lemma MultipliedReaches(ws: seq<Weighted>, likelihood: Hole -> real, factor: Hole -> real)
    requires SameFactor(factor, likelihood)
    ensures ScaledReaches(ws, Multiplied(ws, likelihood), factor)
  {
    hide Times;
    var weighted := Multiplied(ws, likelihood);
    forall x | x in weighted ensures exists y :: y in ws && y.key == x.key && x.reach == Times(y.reach, factor(x.key)) {
      var i :| 0 <= i < |weighted| && weighted[i] == x;
      assert ws[i] in ws;
    }
  }

  lemma MultipliedOnce(ws: seq<Weighted>, factor: Hole -> real)
    requires KeysOnce(ws)
    ensures KeysOnce(Multiplied(ws, factor))
  {
    hide Times;
  }

  /** An own action multiplies every reach by its factor. */
  lemma ActSeat(prior: Snapshot, now: Snapshot, events: seq<StreamEvent>, seat: int, factors: seq<Hole -> real>,
                w: World, c: Context, amount: Option<nat>, policy: Option<PolicyUse>, next: Snapshot)
    requires events != [] && |factors| == |events| && ActsAt(events, |events| - 1, seat)
    requires SeatRight(prior, now, events[..|events| - 1], seat, factors)
    requires ActionValue(w, now, events[|events| - 1].payload.action, events[|events| - 1].sequence, c, amount, policy) == Some(next)
    requires SameFactor(factors[|events| - 1], ActionLikelihood(w, events[|events| - 1].payload.action, amount, c, policy))
    ensures SeatRight(prior, next, events, seat, factors)
  {
    hide ActionLikelihood;
    var n := |events| - 1;
    var before, ws, after := WeightsOf(prior.combos), WeightsOf(now.combos), WeightsOf(next.combos);
    var likelihood := ActionLikelihood(w, events[n].payload.action, amount, c, policy);
    MultipliedOnce(ws, likelihood);
    NormalizedMeans(Multiplied(ws, likelihood), next.combos);
    DealtMore(events);
    TouchedMore(events, seat);
    hide NormalizedCombos, Multiplied, DealtCards, Touched, KeysOnce, Total, Ratio, KeysRight, ReachesRight, WeightsOf, SameFactor;
    assert DealtCards(events) == DealtCards(events[..n]);
    KeysSame(before, ws, after, DealtCards(events), likelihood);
    ReachesTimes(before, ws, after, events, seat, factors, likelihood);
  }

  lemma Associates(a: real, b: real, c: real)
    ensures Times(Times(a, b), c) == Times(a, Times(b, c))
  {}

  /** Events that are neither deals nor the seat's own actions leave it alone. */
  lemma RestSeat(prior: Snapshot, now: Snapshot, events: seq<StreamEvent>, seat: int, factors: seq<Hole -> real>)
    requires events != [] && |factors| == |events| && !events[|events| - 1].payload.BoardDealt? && !ActsAt(events, |events| - 1, seat)
    requires SeatRight(prior, now, events[..|events| - 1], seat, factors)
    ensures SeatRight(prior, now, events, seat, factors)
  {
    DealtMore(events);
    TouchedMore(events, seat);
    hide DealtCards, Touched, KeysOnce, Total, Times, Ratio, Blocked;
    forall h ensures OwnProduct(events, seat, factors, h) == OwnProduct(events[..|events| - 1], seat, factors, h) {}
    hide OwnProduct;
  }

  // ---------------------------------------------------------------- the replay of a prefix

  /** The priors are dictionaries: every key once. */
  ghost predicate PriorsOnce(w: World, g: Started, visible: set<Card>) {
    forall seat :: seat in g.active ==> KeysOnce(WeightsOf(PriorValue(w, g, visible, seat).combos))
  }

  /** Every active seat has the snapshot that the events give it. */
  ghost predicate SeatsRight(w: World, g: Started, visible: set<Card>, snapshots: Snapshots, events: seq<StreamEvent>, factors: seq<Hole -> real>)
    requires |factors| >= |events|
  {
    (forall seat :: seat in snapshots <==> seat in g.active)
    && forall seat :: seat in snapshots ==> SeatRight(PriorValue(w, g, visible, seat), snapshots[seat], events, seat, factors)
  }

  lemma {:induction false} ProductExtends(events: seq<StreamEvent>, seat: int, factors: seq<Hole -> real>, more: seq<Hole -> real>, h: Hole)
    requires |factors| >= |events| && factors <= more
    ensures OwnProduct(events, seat, factors, h) == OwnProduct(events, seat, more, h)
  {
    if events != [] { ProductExtends(events[..|events| - 1], seat, factors, more, h); }
  }

  lemma SeatsExtend(w: World, g: Started, visible: set<Card>, snapshots: Snapshots, events: seq<StreamEvent>,
                    factors: seq<Hole -> real>, more: seq<Hole -> real>)
    requires |factors| >= |events| && factors <= more && SeatsRight(w, g, visible, snapshots, events, factors)
    ensures SeatsRight(w, g, visible, snapshots, events, more)
  {
    forall seat | seat in snapshots ensures SeatRight(PriorValue(w, g, visible, seat), snapshots[seat], events, seat, more) {
      forall h ensures OwnProduct(events, seat, factors, h) == OwnProduct(events, seat, more, h) {
        ProductExtends(events, seat, factors, more, h);
      }
      hide OwnProduct, KeysOnce, KeysRight, SharesRight, Touched, PriorValue, Times;
    }
  }

  lemma FactorsExtend(w: World, g: Started, visible: set<Card>, events: seq<StreamEvent>, factors: seq<Hole -> real>, factor: Hole -> real)
    requires events != [] && FactorsRight(w, g, visible, events[..|events| - 1], factors)
    requires events[|events| - 1].payload.ActionTaken? ==>
               events[|events| - 1].payload.action.actor in g.active
               && FactorAt(w, g, PriorValue(w, g, visible, events[|events| - 1].payload.action.actor), events, |events| - 1, factor)
    ensures FactorsRight(w, g, visible, events, factors + [factor])
  {
    var n, more := |events| - 1, factors + [factor];
    forall i | 0 <= i < |events| && events[i].payload.ActionTaken?
      ensures events[i].payload.action.actor in g.active
      ensures FactorAt(w, g, PriorValue(w, g, visible, events[i].payload.action.actor), events, i, more[i])
    {
      if i < n {
        assert events[..n][i] == events[i] && events[..n][..i] == events[..i];
      }
    }
  }

  lemma SeatStarts(prior: Snapshot, seat: int)
    requires KeysOnce(WeightsOf(prior.combos))
    ensures SeatRight(prior, prior, [], seat, [])
  {
    var ws := WeightsOf(prior.combos);
    assert forall h :: !Blocked(h, DealtCards([]));
    forall c | c in ws ensures c.reach == Times(c.reach, OwnProduct([], seat, [], c.key)) {}
    hide KeysOnce, Times, OwnProduct;
  }

  /** One public event on seats that are right so far. */
  lemma DealStep(w: World, g: Started, visible: set<Card>, events: seq<StreamEvent>, factors: seq<Hole -> real>, before: Replay, after: Replay)
    requires events != [] && |factors| == |events| && events[|events| - 1].payload.BoardDealt?
    requires SeatsRight(w, g, visible, before.snapshots, events[..|events| - 1], factors)
    requires ReplayStep(w, g, before, Dealt(events[|events| - 1].sequence, events[|events| - 1].payload.street, events[|events| - 1].payload.cards)) == Some(after)
    ensures SeatsRight(w, g, visible, after.snapshots, events, factors)
    ensures after.table == TableDealt(g, before.table, events[|events| - 1].payload.cards)
  {
    hide SeatRight, BlockValue, PriorValue, TableDealt;
    var e := events[|events| - 1];
    forall seat | seat in after.snapshots ensures SeatRight(PriorValue(w, g, visible, seat), after.snapshots[seat], events, seat, factors) {
      DealSeat(PriorValue(w, g, visible, seat), before.snapshots[seat], events, seat, factors, e.sequence, e.payload.street, after.snapshots[seat]);
    }
  }

  lemma ActStep(w: World, g: Started, visible: set<Card>, events: seq<StreamEvent>, factors: seq<Hole -> real>, before: Replay, after: Replay)
    requires events != [] && |factors| == |events| && events[|events| - 1].payload.ActionTaken?
    requires SeatsRight(w, g, visible, before.snapshots, events[..|events| - 1], factors)
    requires ReplayStep(w, g, before, Acted(events[|events| - 1].sequence, events[|events| - 1].payload.action)) == Some(after)
    requires var a := events[|events| - 1].payload.action;
             KnowsSeat(before.snapshots.Keys, before.table, a.actor)
             && SameFactor(factors[|events| - 1],
                           ActionLikelihood(w, a, LikelihoodAmount(before.table, a), ContextOf(w, g, before.table, a),
                                            PolicyOf(w, g, before.table, a, before.snapshots[a.actor])))
    ensures SeatsRight(w, g, visible, after.snapshots, events, factors)
    ensures after.table == TableAfter(before.table, events[|events| - 1].payload.action)
  {
    hide SeatRight, ActionValue, PriorValue, TableAfter, ActionLikelihood, ContextOf, PolicyOf, LikelihoodAmount, SameFactor;
    var n := |events| - 1;
    var a := events[n].payload.action;
    forall seat | seat in after.snapshots ensures SeatRight(PriorValue(w, g, visible, seat), after.snapshots[seat], events, seat, factors) {
      var prior := PriorValue(w, g, visible, seat);
      if seat == a.actor {
        ActSeat(prior, before.snapshots[seat], events, seat, factors, w, ContextOf(w, g, before.table, a), LikelihoodAmount(before.table, a),
                PolicyOf(w, g, before.table, a, before.snapshots[seat]), after.snapshots[seat]);
      } else {
        RestSeat(prior, before.snapshots[seat], events, seat, factors);
      }
    }
  }

  lemma RestStep(w: World, g: Started, visible: set<Card>, events: seq<StreamEvent>, factors: seq<Hole -> real>, snapshots: Snapshots)
    requires events != [] && |factors| == |events| && !events[|events| - 1].payload.BoardDealt? && !events[|events| - 1].payload.ActionTaken?
    requires SeatsRight(w, g, visible, snapshots, events[..|events| - 1], factors)
    ensures SeatsRight(w, g, visible, snapshots, events, factors)
  {
    hide SeatRight, PriorValue;
    forall seat | seat in snapshots ensures SeatRight(PriorValue(w, g, visible, seat), snapshots[seat], events, seat, factors) {
      RestSeat(PriorValue(w, g, visible, seat), snapshots[seat], events, seat, factors);
    }
  }

  /** The combos that the actor has left are the keys that its policy is asked about. */
  lemma KeysAreLeft(prior: Snapshot, now: Snapshot, events: seq<StreamEvent>, seat: int, factors: seq<Hole -> real>)
    requires |factors| >= |events| && SeatRight(prior, now, events, seat, factors)
    ensures KeysLeft(prior, events, ComboKeys(now.combos))
  {
    var keys, ws := ComboKeys(now.combos), WeightsOf(now.combos);
    hide KeysOnce, ReachesRight, SharesRight, Blocked, DealtCards, Touched;
    forall h ensures h in keys <==> Holds(ws, h) {
      if Holds(ws, h) { var i :| 0 <= i < |ws| && ws[i].key == h; assert keys[i] == h; }
      if h in keys { var i :| 0 <= i < |keys| && keys[i] == h; assert ws[i].key == h; }
    }
  }

  lemma StepsOf(events: seq<StreamEvent>)
    requires events != []
    ensures var n := |events| - 1;
            PublicSteps(events) == PublicSteps(events[..n])
              + match events[n].payload
                case BoardDealt(street, cards) => [Dealt(events[n].sequence, street, cards)]
                case ActionTaken(a) => [Acted(events[n].sequence, a)]
                case _ => []
  {}

  lemma ReplaySnoc(w: World, g: Started, visible: set<Card>, steps: seq<Step>, step: Step)
    ensures var before := ReplayAll(w, g, visible, steps);
            ReplayAll(w, g, visible, steps + [step]) == if before.None? then None else ReplayStep(w, g, before.value, step)
  {
    hide ReplayStep, PriorSnapshots, Opening;
    assert (steps + [step])[..|steps|] == steps;
  }

  /** What a replay that raises nothing leaves: the table of its events, and every seat in closed form. */
  lemma {:induction false} ReplayIsClosedForm(w: World, g: Started, visible: set<Card>, events: seq<StreamEvent>) returns (factors: seq<Hole -> real>)
    requires PriorsOnce(w, g, visible) && ReplayAll(w, g, visible, PublicSteps(events)).Some?
    ensures FactorsRight(w, g, visible, events, factors)
    ensures var r := ReplayAll(w, g, visible, PublicSteps(events)).value;
            r.table == TableOf(w, g, events) && SeatsRight(w, g, visible, r.snapshots, events, factors)
  {
    hide SeatRight, ReplayStep, PriorValue, Opening, FactorAt, TableAfter, TableDealt, ContextOf, PolicyOf, LikelihoodAmount, ActionLikelihood;
    if events == [] {
      factors := [];
      forall seat | seat in g.active ensures SeatRight(PriorValue(w, g, visible, seat), PriorValue(w, g, visible, seat), [], seat, []) {
        SeatStarts(PriorValue(w, g, visible, seat), seat);
      }
    } else {
      var n := |events| - 1;
      StepsOf(events);
      var steps := PublicSteps(events[..n]);
      hide PublicSteps, ReplayAll;
      match events[n].payload {
        case BoardDealt(street, cards) =>
          ReplaySnoc(w, g, visible, steps, Dealt(events[n].sequence, street, cards));
          var earlier := ReplayIsClosedForm(w, g, visible, events[..n]);
          var before, after := ReplayAll(w, g, visible, steps).value, ReplayAll(w, g, visible, PublicSteps(events)).value;
          factors := earlier + [NoFactor()];
          SeatsExtend(w, g, visible, before.snapshots, events[..n], earlier, factors);
          FactorsExtend(w, g, visible, events, earlier, NoFactor());
          DealStep(w, g, visible, events, factors, before, after);
        case ActionTaken(a) =>
          ReplaySnoc(w, g, visible, steps, Acted(events[n].sequence, a));
          var earlier := ReplayIsClosedForm(w, g, visible, events[..n]);
          var before, after := ReplayAll(w, g, visible, steps).value, ReplayAll(w, g, visible, PublicSteps(events)).value;
          var factor := NewFactor(w, g, visible, events, earlier, before, after);
          factors := earlier + [factor];
          SeatsExtend(w, g, visible, before.snapshots, events[..n], earlier, factors);
          FactorsExtend(w, g, visible, events, earlier, factor);
          ActStep(w, g, visible, events, factors, before, after);
        case _ =>
          assert steps + [] == steps;
          assert PublicSteps(events) == steps;
          var earlier := ReplayIsClosedForm(w, g, visible, events[..n]);
          factors := earlier + [NoFactor()];
          SeatsExtend(w, g, visible, ReplayAll(w, g, visible, steps).value.snapshots, events[..n], earlier, factors);
          FactorsExtend(w, g, visible, events, earlier, NoFactor());
          RestStep(w, g, visible, events, factors, ReplayAll(w, g, visible, steps).value.snapshots);
      }
    }
  }

  function NoFactor(): Hole -> real {
    h => 1.0
  }

  /** The factor of a new action is right for the combos that its actor has left. */
  lemma NewFactor(w: World, g: Started, visible: set<Card>, events: seq<StreamEvent>, earlier: seq<Hole -> real>, before: Replay, after: Replay)
    returns (factor: Hole -> real)
    requires events != [] && |earlier| == |events| - 1 && events[|events| - 1].payload.ActionTaken?
    requires SeatsRight(w, g, visible, before.snapshots, events[..|events| - 1], earlier)
    requires before.table == TableOf(w, g, events[..|events| - 1])
    requires ReplayStep(w, g, before, Acted(events[|events| - 1].sequence, events[|events| - 1].payload.action)) == Some(after)
    ensures var a := events[|events| - 1].payload.action;
            && KnowsSeat(before.snapshots.Keys, before.table, a.actor) && a.actor in g.active
            && factor == ActionLikelihood(w, a, LikelihoodAmount(before.table, a), ContextOf(w, g, before.table, a),
                                          PolicyOf(w, g, before.table, a, before.snapshots[a.actor]))
            && SameFactor(factor, factor)
            && FactorAt(w, g, PriorValue(w, g, visible, a.actor), events, |events| - 1, factor)
  {
    var n := |events| - 1;
    var a := events[n].payload.action;
    hide SeatRight, ActionValue, PriorValue, ActionLikelihood, ContextOf, LikelihoodAmount, KeysLeft, FactorIs;
    factor := ActionLikelihood(w, a, LikelihoodAmount(before.table, a), ContextOf(w, g, before.table, a),
                               PolicyOf(w, g, before.table, a, before.snapshots[a.actor]));
    LikelihoodIs(w, g, before.table, a, PolicyOf(w, g, before.table, a, before.snapshots[a.actor]));
    KeysAreLeft(PriorValue(w, g, visible, a.actor), before.snapshots[a.actor], events[..n], a.actor, earlier);
  }

  // ---------------------------------------------------------------- the answer

  /** The prefix holds exactly the events up to the target. */
  lemma {:induction false} PrefixIs(events: seq<StreamEvent>, k: int)
    ensures forall e :: e in Prefix(events, k) <==> e in events && e.sequence <= k
  {
    if events != [] {
      var n := |events| - 1;
      PrefixIs(events[..n], k);
      assert events == events[..n] + [events[n]];
    }
  }

  ghost predicate Folds(events: seq<StreamEvent>, seat: int) {
    exists i :: ActsAt(events, i, seat) && events[i].payload.action.action.SimFold?
  }

  lemma {:induction false} InactiveAreFolded(w: World, g: Started, visible: set<Card>, events: seq<StreamEvent>, factors: seq<Hole -> real>, seat: int)
    requires FactorsRight(w, g, visible, events, factors)
    ensures seat in TableOf(w, g, events).inactive <==> Folds(events, seat)
    decreases |events|
  {
    if events == [] {
      OpeningInactive(w, g, g.active);
    } else {
      var n := |events| - 1;
      FactorsShorter(w, g, visible, events, factors);
      InactiveAreFolded(w, g, visible, events[..n], factors[..n], seat);
      FoldsMore(events, seat);
      hide Folds, FactorsRight, Opening, Contribution;
    }
  }

  lemma {:induction false} OpeningInactive(w: World, g: Started, seats: seq<int>)
    ensures Opening(w, g, seats).inactive == {} && Opening(w, g, seats).board == []
  {
    if seats != [] { OpeningInactive(w, g, seats[..|seats| - 1]); }
  }

  lemma FoldsMore(events: seq<StreamEvent>, seat: int)
    requires events != []
    ensures var n := |events| - 1;
            Folds(events, seat) <==> Folds(events[..n], seat) || (ActsAt(events, n, seat) && events[n].payload.action.action.SimFold?)
  {
    var n := |events| - 1;
    if Folds(events[..n], seat) {
      var i :| ActsAt(events[..n], i, seat) && events[..n][i].payload.action.action.SimFold?;
      assert ActsAt(events, i, seat) && events[i] == events[..n][i];
    }
    if Folds(events, seat) && !(ActsAt(events, n, seat) && events[n].payload.action.action.SimFold?) {
      var i :| ActsAt(events, i, seat) && events[i].payload.action.action.SimFold?;
      assert ActsAt(events[..n], i, seat) && events[i] == events[..n][i];
    }
  }

  lemma FactorsShorter(w: World, g: Started, visible: set<Card>, events: seq<StreamEvent>, factors: seq<Hole -> real>)
    requires events != [] && FactorsRight(w, g, visible, events, factors)
    ensures FactorsRight(w, g, visible, events[..|events| - 1], factors[..|events| - 1])
    ensures events[|events| - 1].payload.ActionTaken? ==>
              var t := TableOf(w, g, events[..|events| - 1]);
              events[|events| - 1].payload.action.actor in t.stacks && events[|events| - 1].payload.action.actor in t.contributions
  {
    var n := |events| - 1;
    hide TableOf;
    forall i | 0 <= i < n && events[..n][i].payload.ActionTaken?
      ensures events[..n][i].payload.action.actor in g.active
      ensures FactorAt(w, g, PriorValue(w, g, visible, events[..n][i].payload.action.actor), events[..n], i, factors[..n][i])
    {
      assert events[..n][i] == events[i] && events[..n][..i] == events[..i];
      assert FactorAt(w, g, PriorValue(w, g, visible, events[i].payload.action.actor), events, i, factors[i]);
    }
    if events[n].payload.ActionTaken? {
      assert FactorAt(w, g, PriorValue(w, g, visible, events[n].payload.action.actor), events, n, factors[n]);
    }
  }

  /** The values that the answer gives for the active seats of a hand. */
  ghost predicate SeatsMean(w: World, g: Started, visible: set<Card>, seats: map<int, SeatValue>, events: seq<StreamEvent>, factors: seq<Hole -> real>)
    requires |factors| >= |events|
  {
    (forall s :: s in seats <==> s in g.active)
    && forall s :: s in seats ==>
         seats[s].prior == PriorValue(w, g, visible, s)
         && SeatRight(seats[s].prior, seats[s].current, events, s, factors)
         && (seats[s].inactive <==> Folds(events, s))
  }

  predicate NumberedFromOne(prefix: seq<StreamEvent>) {
    prefix != [] && forall i :: 0 <= i < |prefix| ==> prefix[i].sequence == i + 1
  }

  /**
   * What beliefs_at answers for a started hand: a reason for a stream that is not numbered from 1, that shows private
   * cards, or whose priors do not cover an active seat; otherwise, unless an exception is raised, every active seat in
   * closed form over the events up to the target and nothing later.
   */
  lemma BeliefsMean(w: World, events: seq<StreamEvent>, visible: seq<Card>, after: Option<int>) returns (factors: seq<Hole -> real>)
    requires events != [] && events[0].payload.HandStarted?
    ensures var prefix := Prefix(events, if after.None? then events[|events| - 1].sequence else after.value);
            var answer := BeliefsValue(w, events, visible, after);
            if !NumberedFromOne(prefix) then answer == Some(Unavailable(InvalidStream))
            else if exists e :: e in prefix && e.payload.HoleCardsRecorded? then answer == Some(Unavailable(PrivateEventForbidden))
            else if !prefix[0].payload.HandStarted? then answer == None
            else
              var g := prefix[0].payload.started;
              if exists s :: s in g.active && w.family(g, s).None? then answer == Some(Unavailable(PriorUnavailable))
              else
                PriorsOnce(w, g, Elements(visible)) && answer.Some? ==>
                  answer.value.Ready? && FactorsRight(w, g, Elements(visible), prefix[1..], factors)
                  && SeatsMean(w, g, Elements(visible), answer.value.seats, prefix[1..], factors)
  {
    factors := [];
    var prefix := Prefix(events, if after.None? then events[|events| - 1].sequence else after.value);
    if NumberedFromOne(prefix) && (forall e :: e in prefix ==> !e.payload.HoleCardsRecorded?) && prefix[0].payload.HandStarted? {
      factors := PrefixMeans(w, prefix[0].payload.started, Elements(visible), prefix[1..]);
    }
    hide PrefixBeliefs, SeatsMean, FactorsRight, PriorsOnce, Prefix, PublicSteps;
  }

  lemma PrefixMeans(w: World, g: Started, visible: set<Card>, rest: seq<StreamEvent>) returns (factors: seq<Hole -> real>)
    ensures var answer := PrefixBeliefs(w, g, visible, PublicSteps(rest));
            if exists s :: s in g.active && w.family(g, s).None? then answer == Some(Unavailable(PriorUnavailable))
            else
              PriorsOnce(w, g, visible) && answer.Some? ==>
                answer.value.Ready? && FactorsRight(w, g, visible, rest, factors)
                && SeatsMean(w, g, visible, answer.value.seats, rest, factors)
  {
    factors := [];
    hide PriorsOnce, SeatRight, FactorsRight, PublicSteps, Folds, PriorValue, ReplayAll;
    var answer := ReplayAll(w, g, visible, PublicSteps(rest));
    if PriorsOnce(w, g, visible) && PriorsAvailable(w, g) && answer.Some? {
      factors := ReplayIsClosedForm(w, g, visible, rest);
      forall s ensures s in answer.value.table.inactive <==> Folds(rest, s) { InactiveAreFolded(w, g, visible, rest, factors, s); }
    }
  }

  // ---------------------------------------------------------------- when nothing is raised

  lemma PositiveTotal(ws: seq<Weighted>, x: Weighted)
    requires x in ws && x.reach > 0.0 && forall y :: y in ws ==> y.reach >= 0.0
    ensures Total(ws) > 0.0
  {
    var i :| 0 <= i < |ws| && ws[i] == x;
    var rs := Reaches(ws);
    forall k | 0 <= k < |rs| ensures rs[k] >= 0.0 { assert ws[k] in ws; }
    SumNonNegative(rs);
    assert 0.0 < rs[i] <= Sum(rs);
  }

  /** A deal that leaves every seat a combo of positive reach raises nothing. */
  lemma DealSucceeds(w: World, g: Started, r: Replay, sequence: int, street: Street, cards: seq<Card>)
    requires forall s :: s in r.snapshots ==>
               KeysOnce(WeightsOf(r.snapshots[s].combos))
               && (forall x :: x in WeightsOf(r.snapshots[s].combos) ==> x.reach >= 0.0)
               && exists x :: x in WeightsOf(r.snapshots[s].combos) && x.reach > 0.0 && !Blocked(x.key, Elements(cards))
    ensures ReplayStep(w, g, r, Dealt(sequence, street, cards)).Some?
  {
    hide KeysOnce, Total, Blocked, NormalizedCombos;
    forall s | s in r.snapshots ensures BlockValue(r.snapshots[s], cards, sequence, street).Some? {
      var ws := WeightsOf(r.snapshots[s].combos);
      var x :| x in ws && x.reach > 0.0 && !Blocked(x.key, Elements(cards));
      UndeadMembers(ws, Elements(cards));
      PositiveTotal(Undead(ws, Elements(cards)), x);
      LastShareIsRest(Undead(ws, Elements(cards)), Total(Undead(ws, Elements(cards))));
    }
  }

  /** An action of an active seat that keeps some reach positive raises nothing. */
  lemma ActionSucceeds(w: World, g: Started, r: Replay, sequence: int, a: Action, x: Weighted)
    requires KnowsSeat(r.snapshots.Keys, r.table, a.actor) && x in WeightsOf(r.snapshots[a.actor].combos)
    requires var likelihood := ActionLikelihood(w, a, LikelihoodAmount(r.table, a), ContextOf(w, g, r.table, a),
                                                PolicyOf(w, g, r.table, a, r.snapshots[a.actor]));
             Times(x.reach, likelihood(x.key)) > 0.0
             && forall y :: y in WeightsOf(r.snapshots[a.actor].combos) ==> Times(y.reach, likelihood(y.key)) >= 0.0
    ensures ReplayStep(w, g, r, Acted(sequence, a)).Some?
  {
    var s := r.snapshots[a.actor];
    var likelihood := ActionLikelihood(w, a, LikelihoodAmount(r.table, a), ContextOf(w, g, r.table, a), PolicyOf(w, g, r.table, a, s));
    hide Total, Times, ActionLikelihood, ContextOf, LikelihoodAmount, PolicyOf, NormalizedCombos;
    var ws := WeightsOf(s.combos);
    var weighted := Multiplied(ws, likelihood);
    var i :| 0 <= i < |ws| && ws[i] == x;
    assert weighted[i] in weighted;
    forall y | y in weighted ensures y.reach >= 0.0 {
      var k :| 0 <= k < |weighted| && weighted[k] == y;
      assert ws[k] in ws;
    }
    PositiveTotal(weighted, weighted[i]);
    LastShareIsRest(weighted, Total(weighted));
  }

  /** The active seats stay known to the table. */
  lemma {:induction false} ActiveSeatsAreKnown(w: World, g: Started, events: seq<StreamEvent>, seat: int)
    requires seat in g.active && forall s :: s in g.active ==> s in g.stacks
    ensures seat in TableOf(w, g, events).stacks && seat in TableOf(w, g, events).contributions
  {
    if events == [] {
      OpeningKnows(w, g, g.active, seat);
    } else {
      ActiveSeatsAreKnown(w, g, events[..|events| - 1], seat);
    }
  }

  lemma {:induction false} OpeningKnows(w: World, g: Started, seats: seq<int>, seat: int)
    requires seat in g.active && seat in g.stacks
    ensures seat in Opening(w, g, seats).stacks && seat in Opening(w, g, seats).contributions
  {
    if seats != [] { OpeningKnows(w, g, seats[..|seats| - 1], seat); }
  }

  // ---------------------------------------------------------------- chips

  /**
   * An action moves chips from the actor's stack to the pot, and nothing else: up to the amount on the street for a
   * total, the amount itself for a cost, nothing without an amount, and never more than the stack.
   */
  lemma ActionMovesChips(t: Table, a: Action)
    requires a.actor in t.stacks && a.actor in t.contributions && t.stacks[a.actor] >= 0 && t.contributions[a.actor] >= 0
    ensures var u, paid := TableAfter(t, a), TableAfter(t, a).pot - t.pot;
            && 0 <= paid <= t.stacks[a.actor]
            && u.stacks == t.stacks[a.actor := t.stacks[a.actor] - paid]
            && u.contributions == t.contributions[a.actor := t.contributions[a.actor] + paid]
            && u.board == t.board
            && u.preflop == t.preflop + (if a.street.Preflop? then [a] else [])
            && (a.semantics.NoAmount? || a.amount.None? ==> paid == 0)
            && (a.amount.Some? && a.semantics.To? ==>
                  (paid > 0 ==> t.contributions[a.actor] + paid <= a.amount.value)
                  && (t.contributions[a.actor] + paid >= a.amount.value || paid == t.stacks[a.actor]))
            && (a.amount.Some? && (a.semantics.By? || a.semantics.Cost?) ==>
                  paid <= a.amount.value && (paid == a.amount.value || paid == t.stacks[a.actor]))
            && LikelihoodAmount(t, a) == if a.amount.Some? then Some(paid) else None
  {}

  lemma TableSnoc(w: World, g: Started, events: seq<StreamEvent>, e: StreamEvent)
    ensures TableOf(w, g, events + [e]) == TableStep(g, TableOf(w, g, events), e)
  {
    assert (events + [e])[..|events|] == events;
    hide TableStep;
  }

  /**
   * After a deal the amounts on the street are what the seats have paid since it, the pot has grown by nothing else,
   * and the board is the one that lay there then.
   */
  lemma {:induction false} StreetPayments(w: World, g: Started, before: seq<StreamEvent>, deal: StreamEvent, after: seq<StreamEvent>, seat: int)
    requires deal.payload.BoardDealt? && forall e :: e in after ==> !e.payload.BoardDealt?
    requires seat in g.active && forall s :: s in g.active ==> s in g.stacks
    ensures var t, u := TableOf(w, g, before), TableOf(w, g, before + [deal] + after);
            && seat in t.stacks && seat in u.stacks && seat in u.contributions
            && u.contributions[seat] == t.stacks[seat] - u.stacks[seat]
            && u.board == t.board + deal.payload.cards
            && u.pot - t.pot == PaidSince(w, g, before + [deal], after)
  {
    ActiveSeatsAreKnown(w, g, before, seat);
    ActiveSeatsAreKnown(w, g, before + [deal] + after, seat);
    if after == [] {
      TableSnoc(w, g, before, deal);
      assert before + [deal] + [] == before + [deal];
    } else {
      var n := |after| - 1;
      var shorter := before + [deal] + after[..n];
      StreetPayments(w, g, before, deal, after[..n], seat);
      assert after[n] in after && before + [deal] + after == shorter + [after[n]];
      TableSnoc(w, g, shorter, after[n]);
      hide TableOf;
    }
  }

  /** What the actors of these events pay. */
  function PaidSince(w: World, g: Started, before: seq<StreamEvent>, events: seq<StreamEvent>): int {
    if events == [] then 0
    else
      var n := |events| - 1;
      var t, e := TableOf(w, g, before + events[..n]), events[n];
      PaidSince(w, g, before, events[..n])
      + if e.payload.ActionTaken? && e.payload.action.actor in t.stacks && e.payload.action.actor in t.contributions
        then t.stacks[e.payload.action.actor] - TableAfter(t, e.payload.action).stacks[e.payload.action.actor] else 0
  }

  /** The blinds and antes: the pot holds them all, and every stack is reduced but not below zero. */
  lemma {:induction false} OpeningPays(w: World, g: Started, seats: seq<int>)
    requires Distinct(seats) && forall s :: s in seats ==> s in g.stacks
    ensures forall s :: s in g.stacks ==>
              s in Opening(w, g, seats).stacks
              && Opening(w, g, seats).stacks[s]
                 == if s !in seats then g.stacks[s]
                    else if g.stacks[s] > g.ante + BlindOf(w, g, s) then g.stacks[s] - g.ante - BlindOf(w, g, s) else 0
    ensures Opening(w, g, seats).pot == g.ante * |g.active| + BlindsOf(w, g, seats)
  {
    if seats != [] {
      var n := |seats| - 1;
      OpeningPays(w, g, seats[..n]);
      assert seats == seats[..n] + [seats[n]];
      assert seats[n] !in seats[..n];
    }
  }

  /** The forced bet of a seat. */
  function BlindOf(w: World, g: Started, seat: int): nat {
    if w.position(g, seat) == SmallBlindSeat then g.smallBlind
    else if w.position(g, seat) == BigBlindSeat then g.bigBlind
    else 0
  }

  function BlindsOf(w: World, g: Started, seats: seq<int>): nat {
    if seats == [] then 0 else BlindsOf(w, g, seats[..|seats| - 1]) + BlindOf(w, g, seats[|seats| - 1])
  }
}
