/** Candidate EVs as functions of equity, and the interval-based recommendation. */
module Recommendation {
  import opened Cards
  import opened Sums
  import opened RangeBelief
  import opened Likelihood
  import opened ResponseMix

  datatype Candidate = Candidate(action: SimAction, semantics: Semantics, amount: Option<nat>, cost: int,
                                 opponentCallTotal: nat, continuationPot: int, ev: real, mix: Mix,
                                 potPercentage: Option<real>, isJam: bool, overbet: bool, interval: Option<(real, real)>)

  /** A legal action with one of its amounts, which is ignored when the action has none. */
  datatype Choice = Choice(action: SimAction, semantics: Semantics, amount: nat)

  predicate Betting(action: SimAction) {
    action.SimBet? || action.SimRaise?
  }

  /** What one opponent adds to call: up to the target, capped by the stack. */
  function CallOf(o: Spot, target: int, seat: int): (paid: nat)
    requires seat in o.stacks && seat in o.commitments
    ensures paid <= o.stacks[seat] && (paid > 0 ==> o.commitments[seat] + paid <= target)
    ensures o.commitments[seat] + paid >= target || paid == o.stacks[seat]
  {
    var missing := if target > o.commitments[seat] then target - o.commitments[seat] else 0;
    if missing < o.stacks[seat] then missing else o.stacks[seat]
  }

  /** What the active opponents add when all of them call. */
  function OpponentCalls(o: Spot, target: int, seats: seq<int>): nat
    requires forall s :: s in seats ==> s in o.stacks && s in o.commitments
  {
    if seats == [] then 0
    else
      var seat := seats[|seats| - 1];
      OpponentCalls(o, target, seats[..|seats| - 1]) + if seat == o.observer then 0 else CallOf(o, target, seat)
  }

  /** Every opponent adds a call of its own, the observer nothing, in any split of the seats. */
  lemma {:induction false} CallsAdd(o: Spot, target: int, a: seq<int>, b: seq<int>)
    requires forall s :: s in a + b ==> s in o.stacks && s in o.commitments
    ensures forall s :: s in a || s in b ==> s in a + b
    ensures OpponentCalls(o, target, a + b) == OpponentCalls(o, target, a) + OpponentCalls(o, target, b)
    ensures |b| == 1 && b[0] == o.observer ==> OpponentCalls(o, target, b) == 0
    ensures |b| == 1 && b[0] != o.observer ==>
              var paid := OpponentCalls(o, target, b);
              paid <= o.stacks[b[0]] && (paid > 0 ==> o.commitments[b[0]] + paid <= target)
              && (o.commitments[b[0]] + paid >= target || paid == o.stacks[b[0]])
    decreases |b|
  {
    if b == [] {
      assert a + b == a;
    } else {
      var n := |b| - 1;
      assert (a + b)[..|a| + n] == a + b[..n];
      CallsAdd(o, target, a, b[..n]);
    }
  }

  // ---------------------------------------------------------------- EV as a function of equity

  /** The branches of _candidate's EV, for any equity. */
  function EvAt(pot: nat, c: Candidate, equity: real): real {
    match c.action
    case SimFold => 0.0
    case SimCheck => Times(equity, pot as real)
    case SimCall => Times(equity, pot as real + c.cost as real) - c.cost as real
    case _ =>
      Times(c.mix.fold, pot as real)
      + Times(c.mix.call, Times(equity, c.continuationPot as real) - c.cost as real)
      - Times(c.mix.raise_, c.cost as real)
  }

  /** _equity_sensitivity. */
  function Sensitivity(c: Candidate): real {
    match c.action
    case SimFold => 0.0
    case SimCheck => c.continuationPot as real
    case SimCall => c.continuationPot as real
    case _ => Times(c.mix.call, c.continuationPot as real)
  }

  /** How _candidate fills the pot fields. */
  predicate WellFormed(pot: nat, c: Candidate) {
    && c.continuationPot == pot + c.cost + c.opponentCallTotal && c.continuationPot >= 0
    && (!Betting(c.action) ==> c.opponentCallTotal == 0)
    && (c.action.SimCheck? || c.action.SimFold? ==> c.cost == 0)
    && c.mix.call >= 0.0
  }

  /** The amounts that the legal actions carry; a raise goes at least to what is committed. */
  predicate ValidChoice(x: Choice, o: Spot)
    requires ValidSpot(o)
  {
    && x.semantics == (match x.action case SimCall => Cost case SimBet => By case SimRaise => To case _ => NoAmount)
    && (x.semantics.To? ==> x.amount >= o.commitments[o.observer])
  }

  function CostOf(x: Choice, o: Spot): int
    requires ValidSpot(o)
  {
    match x.semantics
    case NoAmount => 0
    case To => x.amount - o.commitments[o.observer]
    case _ => x.amount
  }

  /** The numbers of _candidate that do not depend on the equity. */
  function Draft(x: Choice, o: Spot, mix: Mix): Candidate
    requires ValidSpot(o)
  {
    var cost := CostOf(x, o);
    var target := if x.semantics.To? then x.amount else o.commitments[o.observer] + x.amount;
    var calls := if Betting(x.action) then OpponentCalls(o, target, o.active) else 0;
    var percentage := if x.semantics.NoAmount? || o.pot == 0 then None else Some(Ratio(cost as real * 100.0, o.pot as real));
    var jam := Betting(x.action) && cost == o.stacks[o.observer];
    Candidate(x.action, x.semantics, if x.semantics.NoAmount? then None else Some(x.amount), cost, calls, o.pot + cost + calls, 0.0,
              mix, percentage, jam, !x.semantics.NoAmount? && !jam && percentage.Some? && percentage.value > 100.0, None)
  }

  /** _candidate; ci is the equity interval. */
  function CandidateFor(x: Choice, o: Spot, mix: Mix, equity: real, ci: Option<(real, real)>): Candidate
    requires ValidSpot(o)
  {
    var c := Draft(x, o, mix);
    var priced := c.(ev := EvAt(o.pot, c, equity));
    priced.(interval := if ci.None? then None
                        else Some((EvLower(priced, equity, ci.value.0), EvUpper(priced, equity, ci.value.1))))
  }

  /**
   * A candidate of a legal choice has the EV of its own branch at the equity, and its interval is exactly the set of
   * its EVs over the equity interval.
   */
  lemma CandidateIsPriced(x: Choice, o: Spot, mix: Mix, equity: real, ci: Option<(real, real)>)
    requires ValidSpot(o) && ValidChoice(x, o) && mix.call >= 0.0
    requires ci.Some? ==> ci.value.0 <= ci.value.1
    ensures var c := CandidateFor(x, o, mix, equity, ci);
            && WellFormed(o.pot, c) && c.ev == EvAt(o.pot, c, equity) && (c.interval.Some? <==> ci.Some?)
            && (ci.Some? ==> forall y :: Attained(o.pot, c, ci.value.0, ci.value.1, y) <==>
                               c.interval.value.0 <= y <= c.interval.value.1)
  {
    var c := CandidateFor(x, o, mix, equity, ci);
    assert WellFormed(o.pot, c) && c.ev == EvAt(o.pot, c, equity);
    if ci.Some? {
      forall y ensures Attained(o.pot, c, ci.value.0, ci.value.1, y) <==> c.interval.value.0 <= y <= c.interval.value.1
      {
        IntervalIsImage(o.pot, c, equity, ci.value.0, ci.value.1, y);
      }
    }
  }

  lemma TimesSpread(a: real, b: real, c: real, x: real, y: real)
    ensures Times(x, c) - Times(y, c) == Times(c, x - y)
    ensures Times(a, Times(x, c) - b) - Times(a, Times(y, c) - b) == Times(Times(a, c), x - y)
  {}

  /** A candidate's EV is affine in equity, with its sensitivity as the slope. */
  lemma EvIsAffine(pot: nat, c: Candidate, x: real, y: real)
    requires WellFormed(pot, c)
    ensures EvAt(pot, c, x) - EvAt(pot, c, y) == Times(Sensitivity(c), x - y)
    ensures Sensitivity(c) >= 0.0
  {
    TimesSpread(c.mix.call, c.cost as real, c.continuationPot as real, x, y);
    CallSensitivity(c.mix.call, c.continuationPot as real);
    assert Times(0.0, x - y) == 0.0;
    hide Times;
  }

  lemma CallSensitivity(call: real, pot: real)
    requires call >= 0.0 && pot >= 0.0
    ensures Times(call, pot) >= 0.0
  {}

  /** The EV interval of a candidate for an equity interval. */
  function EvLower(c: Candidate, equity: real, lower: real): real {
    c.ev - Times(equity - lower, Sensitivity(c))
  }

  function EvUpper(c: Candidate, equity: real, upper: real): real {
    c.ev + Times(upper - equity, Sensitivity(c))
  }

  /** Some equity of the interval gives the EV y. */
  ghost predicate Attained(pot: nat, c: Candidate, lower: real, upper: real, y: real) {
    exists e :: lower <= e <= upper && EvAt(pot, c, e) == y
  }

  lemma SlopeSteps(s: real, x: real, y: real)
    ensures Times(x, s) == Times(s, x) && Times(s, x - y) == Times(s, x) - Times(s, y)
    ensures s >= 0.0 && x >= 0.0 ==> Times(s, x) >= 0.0
  {}

  lemma DivideBack(s: real, y: real) returns (x: real)
    requires s > 0.0
    ensures Times(s, x) == y
    ensures y >= 0.0 ==> x >= 0.0
    ensures y <= 0.0 ==> x <= 0.0
  {
    x := y / s;
    assert x * s == y;
    assert x < 0.0 ==> x * s < 0.0;
    assert x > 0.0 ==> x * s > 0.0;
  }

  /** The EV interval is exactly the set of EVs over the equity interval. */
  lemma IntervalIsImage(pot: nat, c: Candidate, equity: real, lower: real, upper: real, y: real)
    requires WellFormed(pot, c) && c.ev == EvAt(pot, c, equity) && lower <= upper
    ensures EvLower(c, equity, lower) <= y <= EvUpper(c, equity, upper) <==> Attained(pot, c, lower, upper, y)
  {
    hide EvAt, Sensitivity, Times;
    var s := Sensitivity(c);
    EvIsAffine(pot, c, lower, equity);
    EvIsAffine(pot, c, upper, equity);
    SlopeSteps(s, equity - lower, 0.0);
    SlopeSteps(s, lower - equity, 0.0);
    SlopeSteps(s, upper - equity, 0.0);
    SlopeSteps(s, lower, equity);
    SlopeSteps(s, equity, lower);
    assert EvLower(c, equity, lower) == EvAt(pot, c, lower);
    assert EvUpper(c, equity, upper) == EvAt(pot, c, upper);
    EvIsAffine(pot, c, upper, lower);
    if exists e :: lower <= e <= upper && EvAt(pot, c, e) == y {
      var e :| lower <= e <= upper && EvAt(pot, c, e) == y;
      EvIsAffine(pot, c, e, lower);
      EvIsAffine(pot, c, upper, e);
      SlopeSteps(s, e - lower, 0.0);
      SlopeSteps(s, upper - e, 0.0);
    }
    if EvAt(pot, c, lower) <= y <= EvAt(pot, c, upper) {
      if s > 0.0 {
        var x := DivideBack(s, y - EvAt(pot, c, lower));
        EvIsAffine(pot, c, lower + x, lower);
        EvIsAffine(pot, c, upper, lower + x);
        var z := DivideBack(s, EvAt(pot, c, upper) - y);
        SlopeUnique(s, upper - (lower + x), z);
        assert EvAt(pot, c, lower + x) == y;
      } else {
        ZeroSlope(s, upper - lower);
        assert EvAt(pot, c, lower) == y;
      }
    }
  }

  lemma SlopeUnique(s: real, x: real, y: real)
    requires s > 0.0 && Times(s, x) == Times(s, y)
    ensures x == y
  {
    assert s * (x - y) == 0.0;
  }

  lemma ZeroSlope(s: real, x: real)
    requires s == 0.0
    ensures Times(s, x) == 0.0
  {}

  // ---------------------------------------------------------------- differences

  function Abs(x: real): (r: real)
    ensures r >= 0.0 && (r == x || r == -x)
  {
    if x < 0.0 then -x else x
  }

  /** The lower end of _difference_interval for a sampling radius. */
  function DifferenceLower(first: Candidate, second: Candidate, radius: real): real {
    first.ev - second.ev - Times(Abs(Sensitivity(first) - Sensitivity(second)), radius)
  }

  function DifferenceUpper(first: Candidate, second: Candidate, radius: real): real {
    first.ev - second.ev + Times(Abs(Sensitivity(first) - Sensitivity(second)), radius)
  }

  /** first is strictly better at every equity within the radius. */
  ghost predicate StrictlyBeats(pot: nat, first: Candidate, second: Candidate, equity: real, radius: real) {
    forall e :: equity - radius <= e <= equity + radius ==> EvAt(pot, first, e) > EvAt(pot, second, e)
  }

  /** The difference of two EVs moves by the difference of the slopes. */
  lemma DifferenceIsAffine(pot: nat, first: Candidate, second: Candidate, equity: real, e: real)
    requires WellFormed(pot, first) && WellFormed(pot, second)
    requires first.ev == EvAt(pot, first, equity) && second.ev == EvAt(pot, second, equity)
    ensures EvAt(pot, first, e) - EvAt(pot, second, e)
         == first.ev - second.ev + Times(Sensitivity(first) - Sensitivity(second), e - equity)
  {
    EvIsAffine(pot, first, e, equity);
    EvIsAffine(pot, second, e, equity);
    hide EvAt, Sensitivity;
    SlopeDifference(Sensitivity(first), Sensitivity(second), e - equity);
    hide Times;
  }

  lemma SlopeDifference(a: real, b: real, x: real)
    ensures Times(a - b, x) == Times(a, x) - Times(b, x)
  {}

  lemma WorstStep(slope: real, radius: real, x: real)
    requires -radius <= x <= radius
    ensures Times(slope, x) >= -Times(Abs(slope), radius)
  {
    if slope >= 0.0 {
      assert slope * (x + radius) >= 0.0;
    } else {
      assert (-slope) * (radius - x) >= 0.0;
    }
  }

  lemma WorstPoint(slope: real, radius: real) returns (x: real)
    requires radius >= 0.0
    ensures -radius <= x <= radius && Times(slope, x) == -Times(Abs(slope), radius)
  {
    x := if slope >= 0.0 then -radius else radius;
  }

  /** The difference interval is strictly positive exactly when one action beats the other throughout the radius. */
  lemma SeparatedIffBeats(pot: nat, first: Candidate, second: Candidate, equity: real, radius: real)
    requires WellFormed(pot, first) && WellFormed(pot, second) && radius >= 0.0
    requires first.ev == EvAt(pot, first, equity) && second.ev == EvAt(pot, second, equity)
    ensures DifferenceLower(first, second, radius) > 0.0 <==> StrictlyBeats(pot, first, second, equity, radius)
  {
    hide EvAt, Sensitivity, Times, WellFormed, Abs;
    var slope := Sensitivity(first) - Sensitivity(second);
    forall e | equity - radius <= e <= equity + radius
      ensures EvAt(pot, first, e) - EvAt(pot, second, e) >= DifferenceLower(first, second, radius)
    {
      DifferenceIsAffine(pot, first, second, equity, e);
      WorstStep(slope, radius, e - equity);
    }
    var x := WorstPoint(slope, radius);
    DifferenceIsAffine(pot, first, second, equity, equity + x);
    assert equity + x - equity == x;
    assert EvAt(pot, first, equity + x) - EvAt(pot, second, equity + x) == DifferenceLower(first, second, radius);
  }

  // ---------------------------------------------------------------- the recommendation

  /** Action names in character order. */
  function ActionOrder(a: SimAction): int {
    match a
    case SimBet => 0
    case SimCall => 1
    case SimCheck => 2
    case SimFold => 3
    case SimRaise => 4
  }

  function AmountOrder(amount: Option<nat>): int {
    if amount.None? then -1 else amount.value
  }

  /** _point_estimate_key order. */
  predicate PointLe(a: Candidate, b: Candidate) {
    a.ev < b.ev
    || (a.ev == b.ev && (ActionOrder(a.action) < ActionOrder(b.action)
                         || (a.action == b.action && AmountOrder(a.amount) <= AmountOrder(b.amount))))
  }

  /** max with the point-estimate key; the first of equals. */
  function PointBest(cs: seq<Candidate>): (best: Candidate)
    requires cs != []
    ensures best in cs && forall c :: c in cs ==> PointLe(c, best)
  {
    assert cs == [cs[0]] + cs[1..];
    if |cs| == 1 then cs[0]
    else
      var best := PointBest(cs[1..]);
      if PointLe(best, cs[0]) then cs[0] else best
  }

  predicate SameCandidate(a: Candidate, b: Candidate) {
    a.action == b.action && a.semantics == b.semantics && a.amount == b.amount
  }

  predicate IsExtreme(c: Candidate) {
    c.isJam || c.overbet
  }

  function ActionRisk(a: SimAction): int {
    match a
    case SimCheck => 0
    case SimCall => 1
    case SimBet => 2
    case SimRaise => 2
    case SimFold => 3
  }

  function SizingDistance(c: Candidate): real {
    if c.potPercentage.None? then 0.0 else Abs(c.potPercentage.value - 66.0)
  }

  function IncrementalCost(c: Candidate): int {
    if c.cost > 0 then c.cost else 0
  }

  /** _conservative_key order. */
  predicate ConservativeLe(a: Candidate, b: Candidate) {
    var x, y := if IsExtreme(a) then 1 else 0, if IsExtreme(b) then 1 else 0;
    x < y
    || (x == y && (ActionRisk(a.action) < ActionRisk(b.action)
        || (ActionRisk(a.action) == ActionRisk(b.action) && (SizingDistance(a) < SizingDistance(b)
            || (SizingDistance(a) == SizingDistance(b) && IncrementalCost(a) <= IncrementalCost(b))))))
  }

  /** min with the conservative key; the first of equals. */
  function MostConservative(cs: seq<Candidate>): (best: Candidate)
    requires cs != []
    ensures best in cs && forall c :: c in cs ==> ConservativeLe(best, c)
  {
    assert cs == [cs[0]] + cs[1..];
    if |cs| == 1 then cs[0]
    else
      var best := MostConservative(cs[1..]);
      if ConservativeLe(cs[0], best) then cs[0] else best
  }

  datatype Tier = Robust | Close | NotAvailable | NotRecommended

  datatype Row = Row(candidate: Candidate, delta: real, interval: Option<(real, real)>, tier: Tier)

  /** Candidates of one spot, all priced at one equity. */
  predicate FromEquity(pot: nat, cs: seq<Candidate>, equity: real) {
    cs != [] && forall c :: c in cs ==> WellFormed(pot, c) && c.ev == EvAt(pot, c, equity)
  }

  /** The alternatives that the sample does not separate from the point estimate. */
  method CloseAlternatives(cs: seq<Candidate>, best: Candidate, radius: real) returns (close: seq<Candidate>)
    ensures forall c :: c in close <==> c in cs && !SameCandidate(c, best) && DifferenceLower(best, c, radius) <= 0.0
  {
    hide DifferenceLower, SameCandidate;
    close := [];
    for i := 0 to |cs|
      invariant forall c :: c in close <==> c in cs[..i] && !SameCandidate(c, best) && DifferenceLower(best, c, radius) <= 0.0
    {
      assert cs[..i + 1] == cs[..i] + [cs[i]];
      if !SameCandidate(cs[i], best) && DifferenceLower(best, cs[i], radius) <= 0.0 {
        close := close + [cs[i]];
      }
    }
    assert cs[..|cs|] == cs;
  }

  /** The first loop of _calibrate_recommendation: differences to the point estimate, before the tiers. */
  method Compare(cs: seq<Candidate>, best: Candidate, available: bool, radius: real) returns (rows: seq<Row>)
    ensures |rows| == |cs|
    ensures forall i :: 0 <= i < |cs| ==>
              rows[i] == Row(cs[i], cs[i].ev - best.ev,
                             if available then Some(Difference(cs[i], best, radius)) else None,
                             NotRecommended)
  {
    rows := [];
    for i := 0 to |cs|
      invariant |rows| == i
      invariant forall j :: 0 <= j < i ==>
                  rows[j] == Row(cs[j], cs[j].ev - best.ev,
                                 if available then Some(Difference(cs[j], best, radius)) else None,
                                 NotRecommended)
    {
      var interval := if available then Some(Difference(cs[i], best, radius)) else None;
      rows := rows + [Row(cs[i], cs[i].ev - best.ev, interval, NotRecommended)];
    }
  }

  function NotExtreme(cs: seq<Candidate>): (r: seq<Candidate>)
    ensures forall c :: c in r <==> c in cs && !IsExtreme(c)
  {
    if cs == [] then []
    else
      assert cs == [cs[0]] + cs[1..];
      (if IsExtreme(cs[0]) then [] else [cs[0]]) + NotExtreme(cs[1..])
  }

  /** Without uncertainty the best one that is not extreme; else the best, or the most conservative that it is not separated from. */
  ghost predicate Chosen(cs: seq<Candidate>, best: Candidate, available: bool, radius: real, choice: Candidate, tier: Tier) {
    && choice in cs && !tier.NotRecommended? && (tier.NotAvailable? <==> !available)
    && (!available ==> forall c :: c in cs && !IsExtreme(c) ==> !IsExtreme(choice) && PointLe(c, choice))
    && (!available && (forall c :: c in cs ==> IsExtreme(c)) ==> forall c :: c in cs ==> PointLe(c, choice))
    && (tier.Robust? ==> choice == best)
    && (tier.Robust? <==> available && forall c :: c in cs && !SameCandidate(c, best) ==> DifferenceLower(best, c, radius) > 0.0)
    && (tier.Close? ==> choice == best || DifferenceLower(best, choice, radius) <= 0.0)
    && (tier.Close? ==>
          ConservativeLe(choice, best)
          && forall c :: c in cs && !SameCandidate(c, best) && DifferenceLower(best, c, radius) <= 0.0 ==> ConservativeLe(choice, c))
  }

  /** The choice among the candidates. */
  method Choose(cs: seq<Candidate>, best: Candidate, available: bool, radius: real) returns (choice: Candidate, tier: Tier)
    requires cs != [] && best in cs
    ensures Chosen(cs, best, available, radius, choice, tier)
  {
    hide DifferenceLower, PointLe, ConservativeLe, IsExtreme, SameCandidate;
    if !available {
      var eligible := NotExtreme(cs);
      return PointBest(if eligible == [] then cs else eligible), NotAvailable;
    }
    var close := CloseAlternatives(cs, best, radius);
    if close == [] {
      return best, Robust;
    }
    assert close[0] in close;
    choice, tier := MostConservative([best] + close), Close;
  }

  function Difference(first: Candidate, second: Candidate, radius: real): (real, real) {
    (DifferenceLower(first, second, radius), DifferenceUpper(first, second, radius))
  }

  function Alternatives(cs: seq<Candidate>, best: Candidate): (r: seq<Candidate>)
    ensures forall c :: c in r <==> c in cs && !SameCandidate(c, best)
  {
    if cs == [] then []
    else
      assert cs == [cs[0]] + cs[1..];
      (if SameCandidate(cs[0], best) then [] else [cs[0]]) + Alternatives(cs[1..], best)
  }

  /** The best alternative to the point estimate, or the point estimate itself. */
  function Challenger(cs: seq<Candidate>, best: Candidate): (c: Candidate)
    ensures c == best || c in cs
    ensures if exists x :: x in cs && !SameCandidate(x, best) then
              !SameCandidate(c, best) && forall x :: x in cs && !SameCandidate(x, best) ==> PointLe(x, c)
            else c == best
  {
    var others := Alternatives(cs, best);
    if others == [] then best
    else
      assert others[0] in others;
      PointBest(others)
  }

  /** The candidate that the margin interval compares the point estimate with. */
  function Against(cs: seq<Candidate>, choice: Candidate, tier: Tier): Candidate
    requires cs != []
  {
    if tier.Close? && !SameCandidate(PointBest(cs), choice) then choice else Challenger(cs, PointBest(cs))
  }

  /**
   * _calibrate_recommendation, with radius standing for the sampling radius of equity.
   * Robust means that the recommended action strictly beats every alternative at every equity within the radius
   * (at the computed equity, for an exact result); close picks the best or one that is not so beaten.
   */
  method Calibrate(pot: nat, cs: seq<Candidate>, ghost equity: real, sampleCount: nat, exact: bool, radius: real)
    returns (rows: seq<Row>, choice: Candidate, tier: Tier, margin: Option<(real, real)>)
    requires FromEquity(pot, cs, equity) && radius >= 0.0
    ensures Calibrated(pot, cs, equity, exact || sampleCount >= 2, if exact then 0.0 else radius, rows, choice, tier, margin)
  {
    assert cs != [];
    hide Calibrated, Chosen, FromEquity, Difference, SameCandidate;
    var best, width, available := PointBest(cs), if exact then 0.0 else radius, exact || sampleCount >= 2;
    var compared := Compare(cs, best, available, width);
    choice, tier := Choose(cs, best, available, width);
    rows := Tiered(compared, choice, tier);
    margin := if available then Some(Difference(best, Against(cs, choice, tier), width)) else None;
    RowsAreCalibrated(cs, available, width, compared, choice, tier, rows);
    ChoiceIsCalibrated(pot, cs, equity, available, width, rows, choice, tier, margin);
  }

  lemma RowsAreCalibrated(cs: seq<Candidate>, available: bool, width: real, compared: seq<Row>, choice: Candidate, tier: Tier, rows: seq<Row>)
    requires cs != [] && |compared| == |rows| == |cs|
    requires forall i :: 0 <= i < |cs| ==>
               compared[i] == Row(cs[i], cs[i].ev - PointBest(cs).ev, if available then Some(Difference(cs[i], PointBest(cs), width)) else None,
                                  NotRecommended)
    requires forall i :: 0 <= i < |cs| ==>
               rows[i] == compared[i].(tier := if SameCandidate(compared[i].candidate, choice) then tier else NotRecommended)
    ensures RightRows(cs, available, width, rows, choice, tier)
  {
    forall i | 0 <= i < |cs| ensures cs[i].ev <= PointBest(cs).ev {
      assert PointLe(cs[i], PointBest(cs));
    }
  }

  lemma ChoiceIsCalibrated(pot: nat, cs: seq<Candidate>, equity: real, available: bool, width: real,
                           rows: seq<Row>, choice: Candidate, tier: Tier, margin: Option<(real, real)>)
    requires FromEquity(pot, cs, equity) && width >= 0.0 && RightRows(cs, available, width, rows, choice, tier)
    requires Chosen(cs, PointBest(cs), available, width, choice, tier)
    requires margin == if available then Some(Difference(PointBest(cs), Against(cs, choice, tier), width)) else None
    ensures Calibrated(pot, cs, equity, available, width, rows, choice, tier, margin)
  {
    var best := PointBest(cs);
    forall c | c in cs ensures DifferenceLower(best, c, width) > 0.0 <==> StrictlyBeats(pot, best, c, equity, width) {
      SeparatedIffBeats(pot, best, c, equity, width);
    }
    SelfSame(best);
    hide DifferenceLower, DifferenceUpper, StrictlyBeats, WellFormed, EvAt, SameCandidate, ConservativeLe, IsExtreme, PointLe, RightRows;
  }

  lemma SelfSame(c: Candidate)
    ensures SameCandidate(c, c)
  {}

  /** Every candidate with its difference to the point estimate, the interval of that difference, and its tier. */
  predicate RightRows(cs: seq<Candidate>, available: bool, width: real, rows: seq<Row>, choice: Candidate, tier: Tier)
    requires cs != []
  {
    var best := PointBest(cs);
    |rows| == |cs|
    && forall i :: 0 <= i < |cs| ==>
         rows[i].candidate == cs[i] && rows[i].delta == cs[i].ev - best.ev <= 0.0
         && rows[i].interval == (if available then Some(Difference(cs[i], best, width)) else None)
         && rows[i].tier == (if SameCandidate(cs[i], choice) then tier else NotRecommended)
  }

  /** What the calibration promises for its candidates: the rows, the choice, its tier and the margin. */
  ghost predicate Calibrated(pot: nat, cs: seq<Candidate>, equity: real, available: bool, width: real,
                             rows: seq<Row>, choice: Candidate, tier: Tier, margin: Option<(real, real)>)
    requires cs != []
  {
    var best := PointBest(cs);
    && RightRows(cs, available, width, rows, choice, tier)
    && Chosen(cs, best, available, width, choice, tier)
    && (tier.Robust? <==>
          available && forall c :: c in cs && !SameCandidate(c, best) ==> StrictlyBeats(pot, best, c, equity, width))
    && (tier.Close? ==> choice == best || !StrictlyBeats(pot, best, choice, equity, width))
    && (margin.Some? <==> available)
    && (available ==>
          margin.value == Difference(best, Against(cs, choice, tier), width)
          && (tier.Close? && !SameCandidate(best, choice) ==> margin.value.0 <= 0.0)
          && (tier.Robust? && (exists x :: x in cs && !SameCandidate(x, best)) ==> margin.value.0 > 0.0))
  }

  /** The last loop: the recommended candidate gets the tier. */
  method Tiered(rows: seq<Row>, choice: Candidate, tier: Tier) returns (r: seq<Row>)
    requires forall i :: 0 <= i < |rows| ==> rows[i].tier == NotRecommended
    ensures |r| == |rows|
    ensures forall i :: 0 <= i < |rows| ==>
              r[i] == rows[i].(tier := if SameCandidate(rows[i].candidate, choice) then tier else NotRecommended)
  {
    r := [];
    for i := 0 to |rows|
      invariant |r| == i
      invariant forall j :: 0 <= j < i ==>
                  r[j] == rows[j].(tier := if SameCandidate(rows[j].candidate, choice) then tier else NotRecommended)
    {
      r := r + [rows[i].(tier := if SameCandidate(rows[i].candidate, choice) then tier else NotRecommended)];
    }
  }

  // ---------------------------------------------------------------- from a spot to its recommendation

  /** Every choice with its response mix, priced at one equity; None when a response mix fails. */
  function Candidates(xs: seq<Choice>, o: Spot, ranges: Option<seq<seq<real>>>, equity: real, ci: Option<(real, real)>): Option<seq<Candidate>>
    requires ValidSpot(o)
    requires ranges.Some? ==> forall i :: 0 <= i < |ranges.value| ==> AllPositive(ranges.value[i])
  {
    if xs == [] then Some([])
    else
      var x := xs[|xs| - 1];
      var before := Candidates(xs[..|xs| - 1], o, ranges, equity, ci);
      var mix := ResponseMixOf(Betting(x.action), CostOf(x, o), o, ranges);
      if before.None? || mix.None? then None else Some(before.value + [CandidateFor(x, o, mix.value, equity, ci)])
  }

  /** _confidence_interval. */
  function EquityInterval(equity: real, radius: real): (real, real) {
    (MaxReal(0.0, equity - radius), MinReal(1.0, equity + radius))
  }

  predicate ValidChoices(xs: seq<Choice>, o: Spot)
    requires ValidSpot(o)
  {
    forall i :: 0 <= i < |xs| ==> ValidChoice(xs[i], o)
  }

  /** The candidates of legal choices are priced at the equity, whatever the opponents' ranges. */
  lemma {:induction false} CandidatesFromEquity(xs: seq<Choice>, o: Spot, ranges: Option<seq<seq<real>>>, equity: real, ci: Option<(real, real)>)
    requires ValidSpot(o) && ValidChoices(xs, o) && (ci.Some? ==> ci.value.0 <= ci.value.1)
    requires ranges.Some? ==> forall i :: 0 <= i < |ranges.value| ==> AllPositive(ranges.value[i])
    ensures var cs := Candidates(xs, o, ranges, equity, ci);
            cs.Some? ==> |cs.value| == |xs|
    ensures var cs := Candidates(xs, o, ranges, equity, ci);
            cs.Some? && xs != [] ==> FromEquity(o.pot, cs.value, equity)
  {
    hide CandidateFor, WellFormed, EvAt, ResponseMixOf, ValidSpot, ValidChoice, CostOf;
    if xs != [] {
      var n := |xs| - 1;
      CandidatesFromEquity(xs[..n], o, ranges, equity, ci);
      var mix := ResponseMixOf(Betting(xs[n].action), CostOf(xs[n], o), o, ranges);
      if mix.Some? {
        ResponseIsDistribution(Betting(xs[n].action), CostOf(xs[n], o), o, ranges);
        CandidateIsPriced(xs[n], o, mix.value, equity, ci);
      }
    }
  }

  lemma RowsOfCandidates(pot: nat, cs: seq<Candidate>, equity: real, available: bool, width: real,
                         rows: seq<Row>, choice: Candidate, tier: Tier, margin: Option<(real, real)>)
    requires cs != [] && Calibrated(pot, cs, equity, available, width, rows, choice, tier, margin)
    ensures |rows| == |cs| && (forall i :: 0 <= i < |cs| ==> rows[i].candidate == cs[i])
    ensures exists i :: 0 <= i < |cs| && choice == rows[i].candidate
  {
    var i :| 0 <= i < |cs| && cs[i] == choice;
    assert choice == rows[i].candidate;
  }

  datatype Advice = Advice(rows: seq<Row>, choice: Candidate, tier: Tier, margin: Option<(real, real)>)

  /**
   * The end of solve: candidates for every legal choice at the estimated equity, and the calibrated recommendation.
   * Robust means that the recommended choice strictly beats every other legal choice at every equity within the radius.
   */
  method Recommend(xs: seq<Choice>, o: Spot, ranges: Option<seq<seq<real>>>, equity: real, sampleCount: nat, exact: bool, radius: real)
    returns (advice: Option<Advice>)
    requires ValidSpot(o) && ValidChoices(xs, o) && xs != [] && radius >= 0.0 && 0.0 <= equity <= 1.0
    requires ranges.Some? ==> forall i :: 0 <= i < |ranges.value| ==> AllPositive(ranges.value[i])
    ensures var width, available := if exact then 0.0 else radius, exact || sampleCount >= 2;
            var ci := if available then Some(EquityInterval(equity, width)) else None;
            var cs := Candidates(xs, o, ranges, equity, ci);
            && (advice.None? <==> cs.None?)
            && (advice.Some? ==>
                  |cs.value| == |xs|
                  && Calibrated(o.pot, cs.value, equity, available, width,
                                advice.value.rows, advice.value.choice, advice.value.tier, advice.value.margin))
    ensures advice.Some? ==>
              |advice.value.rows| == |xs| && (exists i :: 0 <= i < |xs| && advice.value.choice == advice.value.rows[i].candidate)
              && forall i :: 0 <= i < |xs| ==>
                   PaysOff(xs[i], o, equity, advice.value.rows[i].candidate)
                   && Some(advice.value.rows[i].candidate.mix) == ResponseMixOf(Betting(xs[i].action), advice.value.rows[i].candidate.cost, o, ranges)
  {
    hide Calibrated, Candidates, ValidSpot, ValidChoices, PaysOff, ResponseMixOf;
    var width, available := if exact then 0.0 else radius, exact || sampleCount >= 2;
    var ci := if available then Some(EquityInterval(equity, width)) else None;
    CandidatesFromEquity(xs, o, ranges, equity, ci);
    var cs := Candidates(xs, o, ranges, equity, ci);
    if cs.None? {
      return None;
    }
    var rows, choice, tier, margin := Calibrate(o.pot, cs.value, equity, sampleCount, exact, radius);
    CandidatesPay(xs, o, ranges, equity, ci);
    RowsOfCandidates(o.pot, cs.value, equity, available, width, rows, choice, tier, margin);
    advice := Some(Advice(rows, choice, tier, margin));
  }

  // ---------------------------------------------------------------- what a choice pays

  /**
   * The payoffs behind a candidate's EV. With the equity as the chance to win, a check wins the pot; a call wins the pot
   * or loses its cost; a bet or raise takes the pot when everyone folds, wins the pot and the calls or loses its cost
   * when it is called, and loses its cost when it is raised. A fold pays nothing.
   */
  predicate PaysOff(x: Choice, o: Spot, equity: real, c: Candidate)
    requires ValidSpot(o)
  {
    var pot, cost, calls, own := o.pot as real, c.cost as real, c.opponentCallTotal as real, o.commitments[o.observer];
    && c.action == x.action && c.semantics == x.semantics && (c.amount == if x.semantics.NoAmount? then None else Some(x.amount))
    && (match x.semantics case NoAmount => c.cost == 0 case To => own + c.cost == x.amount case _ => c.cost == x.amount)
    && c.opponentCallTotal == (if Betting(x.action) then OpponentCalls(o, own + c.cost, o.active) else 0)
    && c.ev == match x.action
               case SimFold => 0.0
               case SimCheck => Times(equity, pot)
               case SimCall => Times(equity, pot) - Times(1.0 - equity, cost)
               case _ => Times(c.mix.fold, pot) + Times(c.mix.call, Times(equity, pot + calls) - Times(1.0 - equity, cost))
                         - Times(c.mix.raise_, cost)
  }

  lemma Payoffs(equity: real, pot: real, cost: real, calls: real)
    ensures Times(equity, pot + cost) - cost == Times(equity, pot) - Times(1.0 - equity, cost)
    ensures Times(equity, pot + cost + calls) - cost == Times(equity, pot + calls) - Times(1.0 - equity, cost)
  {}

  lemma CandidatePays(x: Choice, o: Spot, mix: Mix, equity: real, ci: Option<(real, real)>)
    requires ValidSpot(o) && ValidChoice(x, o)
    ensures CandidateFor(x, o, mix, equity, ci).mix == mix && PaysOff(x, o, equity, CandidateFor(x, o, mix, equity, ci))
  {
    var c := CandidateFor(x, o, mix, equity, ci);
    Payoffs(equity, o.pot as real, c.cost as real, c.opponentCallTotal as real);
    assert c.continuationPot as real == o.pot as real + c.cost as real + c.opponentCallTotal as real;
    hide Times;
  }

  /** Every candidate pays as its choice does, with the response mix of its own size. */
  lemma {:induction false} CandidatesPay(xs: seq<Choice>, o: Spot, ranges: Option<seq<seq<real>>>, equity: real, ci: Option<(real, real)>)
    requires ValidSpot(o) && ValidChoices(xs, o)
    requires ranges.Some? ==> forall i :: 0 <= i < |ranges.value| ==> AllPositive(ranges.value[i])
    ensures var cs := Candidates(xs, o, ranges, equity, ci);
            cs.Some? ==>
              |cs.value| == |xs| && forall i :: 0 <= i < |xs| ==>
                PaysOff(xs[i], o, equity, cs.value[i])
                && Some(cs.value[i].mix) == ResponseMixOf(Betting(xs[i].action), cs.value[i].cost, o, ranges)
  {
    hide CandidateFor, PaysOff, ResponseMixOf, ValidSpot, ValidChoice;
    if xs != [] {
      var n := |xs| - 1;
      CandidatesPay(xs[..n], o, ranges, equity, ci);
      var mix := ResponseMixOf(Betting(xs[n].action), CostOf(xs[n], o), o, ranges);
      if mix.Some? {
        CandidatePays(xs[n], o, mix.value, equity, ci);
        CandidateCost(xs[n], o, mix.value, equity, ci);
      }
    }
  }

  lemma CandidateCost(x: Choice, o: Spot, mix: Mix, equity: real, ci: Option<(real, real)>)
    requires ValidSpot(o)
    ensures CandidateFor(x, o, mix, equity, ci).cost == CostOf(x, o)
  {}

  /** The payoffs at the two ends of equity. */
  lemma PayoffsAtTheEnds(x: Choice, o: Spot, lost: Candidate, won: Candidate)
    requires ValidSpot(o) && PaysOff(x, o, 0.0, lost) && PaysOff(x, o, 1.0, won) && lost.mix == won.mix
    ensures var pot, cost, calls, mix := o.pot as real, lost.cost as real, lost.opponentCallTotal as real, lost.mix;
            && won.cost == lost.cost && won.opponentCallTotal == lost.opponentCallTotal
            && match x.action
               case SimFold => lost.ev == won.ev == 0.0
               case SimCheck => lost.ev == 0.0 && won.ev == pot
               case SimCall => lost.ev == -cost && won.ev == pot
               case _ =>
                 lost.ev == Times(mix.fold, pot) - Times(mix.call + mix.raise_, cost)
                 && won.ev == Times(mix.fold, pot) + Times(mix.call, pot + calls) - Times(mix.raise_, cost)
  {}

  /** A call beats a fold exactly when the pot odds are better than the price. */
  lemma CallBeatsFold(fold: Choice, call: Choice, o: Spot, equity: real, f: Candidate, c: Candidate)
    requires ValidSpot(o) && fold.action.SimFold? && call.action.SimCall?
    requires PaysOff(fold, o, equity, f) && PaysOff(call, o, equity, c)
    ensures c.ev > f.ev <==> Times(equity, o.pot as real + c.cost as real) > c.cost as real
  {
    Payoffs(equity, o.pot as real, c.cost as real, 0.0);
  }

  /** With only a fold and a call, an exact result recommends the better one, and at equal value the call. */
  lemma FoldOrCall(fold: Choice, call: Choice, o: Spot, equity: real, f: Candidate, c: Candidate,
                   rows: seq<Row>, choice: Candidate, tier: Tier, margin: Option<(real, real)>)
    requires ValidSpot(o) && fold.action.SimFold? && call.action.SimCall? && ValidChoice(fold, o) && ValidChoice(call, o)
    requires PaysOff(fold, o, equity, f) && PaysOff(call, o, equity, c) && !IsExtreme(f) && !IsExtreme(c)
    requires FromEquity(o.pot, [f, c], equity) && Calibrated(o.pot, [f, c], equity, true, 0.0, rows, choice, tier, margin)
    ensures Times(equity, o.pot as real + c.cost as real) < c.cost as real ==> choice == f && tier.Robust?
    ensures Times(equity, o.pot as real + c.cost as real) > c.cost as real ==> choice == c && tier.Robust?
    ensures Times(equity, o.pot as real + c.cost as real) == c.cost as real ==> choice == c && tier.Close?
  {
    Payoffs(equity, o.pot as real, c.cost as real, 0.0);
    var cs := [f, c];
    var best := PointBest(cs);
    assert cs[0] == f && cs[1] == c && f in cs && c in cs;
    assert best == f || best == c;
    assert PointLe(f, best) && PointLe(c, best);
    ZeroWidth(f, c);
    ZeroWidth(c, f);
    SelfSame(f);
    SelfSame(c);
    hide EvAt, Times, Sensitivity, StrictlyBeats, DifferenceLower, RightRows, FromEquity, Difference, Against, PaysOff, WellFormed;
  }

  lemma ZeroWidth(a: Candidate, b: Candidate)
    ensures DifferenceLower(a, b, 0.0) == a.ev - b.ev
  {}

  // ---------------------------------------------------------------- sizes and orders

  /** A jam commits the stack; an overbet costs more than the pot without being one; sizes are percentages of the pot. */
  lemma SizesMean(x: Choice, o: Spot, mix: Mix, equity: real, ci: Option<(real, real)>)
    requires ValidSpot(o) && ValidChoice(x, o)
    ensures var c := CandidateFor(x, o, mix, equity, ci);
            && (c.isJam <==> Betting(x.action) && c.cost == o.stacks[o.observer])
            && (c.overbet <==> c.amount.Some? && !c.isJam && c.cost > o.pot > 0)
            && (c.potPercentage.Some? <==> c.amount.Some? && o.pot > 0)
            && (c.potPercentage.Some? ==> Times(c.potPercentage.value, o.pot as real) == 100.0 * c.cost as real)
  {
    if o.pot > 0 { Percent(CostOf(x, o) as real, o.pot as real); }
  }

  lemma Percent(cost: real, pot: real)
    requires pot > 0.0
    ensures Times(Ratio(cost * 100.0, pot), pot) == 100.0 * cost
    ensures Ratio(cost * 100.0, pot) > 100.0 <==> cost > pot
  {
    var r := Ratio(cost * 100.0, pot);
    assert r * pot == cost * 100.0;
    if r > 100.0 { assert (r - 100.0) * pot > 0.0; }
    if cost > pot { assert r * pot > 100.0 * pot; assert (r - 100.0) * pot > 0.0; }
  }

  /** The equity interval is what lies within the radius and between 0 and 1. */
  lemma IntervalIsClamped(equity: real, radius: real, x: real)
    ensures EquityInterval(equity, radius).0 <= x <= EquityInterval(equity, radius).1 <==>
              0.0 <= x <= 1.0 && equity - radius <= x <= equity + radius
  {}

  /** The conservative order is total and transitive: not extreme first, then passive, then near two thirds of the pot, then cheap. */
  lemma ConservativeOrder(a: Candidate, b: Candidate, c: Candidate)
    ensures ConservativeLe(a, b) || ConservativeLe(b, a)
    ensures ConservativeLe(a, b) && ConservativeLe(b, c) ==> ConservativeLe(a, c)
    ensures (a.isJam || a.overbet) && !(b.isJam || b.overbet) ==> !ConservativeLe(a, b)
    ensures IsExtreme(a) == IsExtreme(b) && a.action.SimFold? && !b.action.SimFold? ==> !ConservativeLe(a, b)
    ensures IsExtreme(a) == IsExtreme(b) && Betting(a.action) && (b.action.SimCheck? || b.action.SimCall?) ==> !ConservativeLe(a, b)
    ensures IsExtreme(a) == IsExtreme(b) && a.action.SimCall? && b.action.SimCheck? ==> !ConservativeLe(a, b)
    ensures IsExtreme(a) == IsExtreme(b) && Betting(a.action) && Betting(b.action) && a.potPercentage.Some? && b.potPercentage.Some? ==>
              (Abs(a.potPercentage.value - 66.0) > Abs(b.potPercentage.value - 66.0) ==> !ConservativeLe(a, b))
    ensures IsExtreme(a) == IsExtreme(b) && Betting(a.action) && Betting(b.action) && a.potPercentage == b.potPercentage ==>
              (a.cost > b.cost >= 0 ==> !ConservativeLe(a, b))
  {}

  /** The point estimates are ordered by EV, and equal EVs by action name and amount. */
  lemma PointOrder(a: Candidate, b: Candidate, c: Candidate)
    ensures PointLe(a, b) || PointLe(b, a)
    ensures PointLe(a, b) && PointLe(b, c) ==> PointLe(a, c)
    ensures a.ev < b.ev ==> PointLe(a, b) && !PointLe(b, a)
    ensures a.ev == b.ev && a.action == b.action && a.amount.Some? && b.amount.Some? && a.amount.value < b.amount.value ==> !PointLe(b, a)
    ensures a.ev == b.ev && a.action.SimBet? && b.action.SimCall? ==> !PointLe(b, a)
    ensures a.ev == b.ev && a.action.SimCall? && b.action.SimCheck? ==> !PointLe(b, a)
    ensures a.ev == b.ev && a.action.SimCheck? && b.action.SimFold? ==> !PointLe(b, a)
    ensures a.ev == b.ev && a.action.SimFold? && b.action.SimRaise? ==> !PointLe(b, a)
  {}
}
