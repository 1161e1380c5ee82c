/** The bounded opponent response: fold, call and raise probabilities for any number of opponents. */
module ResponseMix {
  import opened Cards
  import opened RangeBelief
  import opened Sums
  import opened Equity

  datatype Mix = Mix(fold: real, call: real, raise_: real)

  /** The public facts that the response uses. */
  datatype Spot = Spot(pot: nat, observer: int, button: int, tableSize: nat, street: Street,
                       stacks: map<int, nat>, commitments: map<int, nat>, active: seq<int>, visible: set<Card>)

  predicate ValidSpot(o: Spot) {
    && o.observer in o.active && (forall s :: s in o.active ==> s in o.stacks && s in o.commitments)
    && 2 <= o.tableSize <= 8 && |o.visible| <= 7
  }

  function MinReal(a: real, b: real): real { if a < b then a else b }

  function MaxReal(a: real, b: real): real { if a > b then a else b }

  /** min(high, max(low, x)). */
  function Clamp(low: real, x: real, high: real): (r: real)
    requires low <= high
    ensures low <= r <= high
  {
    MinReal(high, MaxReal(low, x))
  }

  // ---------------------------------------------------------------- effective range width

  function Fractions(weights: seq<real>, mass: real): (s: seq<real>)
    requires mass != 0.0
    ensures |s| == |weights| && forall i :: 0 <= i < |weights| ==> s[i] == Ratio(weights[i], mass)
  {
    seq(|weights|, i requires 0 <= i < |weights| => Ratio(weights[i], mass))
  }

  /** One over the sum of squared probabilities: the effective number of combos. */
  function EffectiveCount(weights: seq<real>): real
    requires Sum(weights) > 0.0 && Sum(Squares(Fractions(weights, Sum(weights)))) > 0.0
  {
    Inverse(Sum(Squares(Fractions(weights, Sum(weights)))))
  }

  function Inverse(x: real): real
    requires x != 0.0
  {
    1.0 / x
  }

  predicate AllPositive(s: seq<real>) {
    forall i :: 0 <= i < |s| ==> s[i] > 0.0
  }

  lemma {:induction false} FractionsSum(weights: seq<real>, mass: real)
    requires mass != 0.0
    ensures Sum(Fractions(weights, mass)) == Ratio(Sum(weights), mass)
  {
    if weights != [] {
      var n := |weights| - 1;
      FractionsSum(weights[..n], mass);
      assert Fractions(weights, mass)[..n] == Fractions(weights[..n], mass);
      RatioAdd(Sum(weights[..n]), weights[n], mass);
    } else {
      assert Ratio(0.0, mass) == 0.0;
    }
  }

  lemma RatioPositive(a: real, total: real)
    requires a > 0.0 && total > 0.0
    ensures Ratio(a, total) > 0.0 && Ratio(total, total) == 1.0
  {}

  /** The effective number of combos lies between one and their number. */
  lemma EffectiveBounds(weights: seq<real>)
    requires AllPositive(weights) && weights != []
    ensures Sum(weights) > 0.0 && Sum(Squares(Fractions(weights, Sum(weights)))) > 0.0
    ensures 1.0 <= EffectiveCount(weights) <= |weights| as real
  {
    hide Ratio, Square, Inverse, Times;
    SumNonNegative(weights);
    assert 0.0 < weights[0] <= Sum(weights);
    var mass := Sum(weights);
    var fractions := Fractions(weights, mass);
    FractionsSum(weights, mass);
    RatioPositive(mass, mass);
    forall i | 0 <= i < |fractions| ensures fractions[i] > 0.0 { RatioPositive(weights[i], mass); }
    SquaresOfDistribution(fractions);
    InverseBounds(Sum(Squares(fractions)), |weights| as real);
  }

  /** The squares of n probabilities sum to between 1/n and 1. */
  lemma SquaresOfDistribution(s: seq<real>)
    requires AllPositive(s) && Sum(s) == 1.0
    ensures Sum(Squares(s)) <= 1.0 <= Times(|s| as real, Sum(Squares(s)))
  {
    hide Square;
    CauchySchwarz(s);
    SquaresAtMost(s);
    OneSquared();
  }

  lemma OneSquared()
    ensures Square(1.0) == 1.0
  {}

  lemma InverseBounds(squares: real, n: real)
    requires squares <= 1.0 <= Times(n, squares) && n > 0.0
    ensures squares > 0.0 && 1.0 <= Inverse(squares) <= n
  {
    assert squares <= 0.0 ==> n * squares <= 0.0;
    var inverse := 1.0 / squares;
    assert inverse * squares == 1.0;
    assert inverse < 1.0 ==> inverse * squares < 1.0;
    assert inverse - n > 0.0 ==> (inverse - n) * squares > 0.0;
  }

  /** One opponent's effective width as a fraction of the feasible combos, at most one. */
  function Width(weights: seq<real>, feasible: nat): (w: real)
    requires AllPositive(weights) && weights != [] && feasible > 0
    ensures 0.0 < w <= 1.0
  {
    EffectiveBounds(weights);
    RatioPositive(EffectiveCount(weights), feasible as real);
    MinReal(1.0, Ratio(EffectiveCount(weights), feasible as real))
  }

  function Widths(ranges: seq<seq<real>>, feasible: nat): (s: seq<real>)
    requires feasible > 0 && forall i :: 0 <= i < |ranges| ==> AllPositive(ranges[i])
    ensures forall i :: 0 <= i < |s| ==> 0.0 < s[i] <= 1.0
  {
    if ranges == [] then []
    else if ranges[0] == [] then Widths(ranges[1..], feasible)
    else [Width(ranges[0], feasible)] + Widths(ranges[1..], feasible)
  }

  /** ranges holds the positive eligible weights of every opponent; None is a missing belief map. */
  function RangeStrength(ranges: Option<seq<seq<real>>>, feasible: nat): real
    requires feasible > 0
    requires ranges.Some? ==> forall i :: 0 <= i < |ranges.value| ==> AllPositive(ranges.value[i])
  {
    if ranges.None? then 0.5
    else
      var widths := Widths(ranges.value, feasible);
      if widths == [] then 0.5 else 1.0 - Ratio(Sum(widths), |widths| as real)
  }

  // ---------------------------------------------------------------- single-opponent rates

  function LeastStack(o: Spot, seats: seq<int>): nat
    requires seats != [] && forall s :: s in seats ==> s in o.stacks
  {
    var seat := seats[0];
    assert seat in seats;
    if |seats| == 1 then o.stacks[seat]
    else
      var rest := LeastStack(o, seats[1..]);
      if o.stacks[seat] < rest then o.stacks[seat] else rest
  }

  function StreetFactor(street: Street): Option<real> {
    match street
    case Preflop => Some(0.0)
    case Flop => Some(0.03)
    case Turn => Some(0.06)
    case River => Some(0.09)
    case _ => None
  }

  datatype Rates = Rates(fold: real, raise_: real)

  /** The least active stack in units of three pots, at most one. */
  function Leverage(o: Spot): real
    requires ValidSpot(o)
  {
    MinReal(1.0, Ratio(Ratio(LeastStack(o, o.active) as real, if o.pot > 1 then o.pot as real else 1.0), 3.0))
  }

  /** One on the button, falling with the distance to it. */
  function Closeness(o: Spot): real
    requires ValidSpot(o)
  {
    Clamp(0.0, 1.0 - Ratio(((o.button - o.observer) % o.tableSize) as real, (o.tableSize - 1) as real), 1.0)
  }

  function FoldRate(pressure: real, leverage: real, street: real, position: real, strength: real): (rate: real)
    ensures 0.04 <= rate <= 0.68
  {
    Clamp(0.04, 0.1 + 0.4 * Times(pressure, 0.75 + 0.25 * leverage) + street + 0.04 * position - 0.14 * strength, 0.68)
  }

  function RaiseRate(pressure: real, leverage: real, strength: real): (rate: real)
    ensures 0.02 <= rate <= 0.18
  {
    Clamp(0.02, 0.04 + 0.1 * strength + 0.02 * leverage - 0.025 * pressure, 0.18)
  }

  /** The clamped fold and raise rates of one opponent; None is a missing street or a division by zero. */
  function SingleRates(cost: int, o: Spot, strength: real): (r: Option<Rates>)
    requires ValidSpot(o)
    ensures r.Some? ==> 0.04 <= r.value.fold <= 0.68 && 0.02 <= r.value.raise_ <= 0.18
  {
    var pot := if o.pot > 1 then o.pot as real else 1.0;
    var ratio := MinReal(4.0, Ratio(cost as real, pot));
    var street := StreetFactor(o.street);
    if street.None? || ratio == -1.0 then None
    else
      var pressure := Ratio(ratio, 1.0 + ratio);
      var leverage := Leverage(o);
      var fold := FoldRate(pressure, leverage, street.value, Closeness(o), strength);
      var raised := RaiseRate(pressure, leverage, strength);
      Some(Rates(fold, if fold + raised > 0.9 then 0.9 - fold else raised))
  }

  // ---------------------------------------------------------------- any number of opponents

  function Pow(x: real, n: nat): real {
    if n == 0 then 1.0 else Times(x, Pow(x, n - 1))
  }

  /** The joint response of independent opponents. */
  function Joint(r: Rates, opponents: nat): Mix {
    var fold := Pow(r.fold, opponents);
    var noRaise := Pow(r.fold + (1.0 - r.fold - r.raise_), opponents);
    Mix(fold, noRaise - fold, 1.0 - noRaise)
  }

  /** _response_mix. */
  function ResponseMixOf(betting: bool, cost: int, o: Spot, ranges: Option<seq<seq<real>>>): Option<Mix>
    requires ValidSpot(o)
    requires ranges.Some? ==> forall i :: 0 <= i < |ranges.value| ==> AllPositive(ranges.value[i])
  {
    if !betting then Some(Mix(0.0, 1.0, 0.0))
    else
      FeasibleCombos(|o.visible|);
      var rates := SingleRates(cost, o, RangeStrength(ranges, Binomial(52 - |o.visible|, 2)));
      if rates.None? then None
      else Some(Joint(rates.value, if |o.active| > 2 then |o.active| - 1 else 1))
  }

  lemma {:induction false} BinomialOne(n: nat)
    ensures Binomial(n, 1) == n
  {
    if n > 0 { BinomialOne(n - 1); }
  }

  lemma FeasibleCombos(visible: nat)
    requires visible <= 7
    ensures Binomial(52 - visible, 2) > 0
  {
    BinomialOne(51 - visible);
  }

  lemma {:induction false} PowBounds(x: real, n: nat)
    requires 0.0 <= x <= 1.0
    ensures 0.0 <= Pow(x, n) <= 1.0 && Pow(x, n + 1) <= Pow(x, n)
  {
    if n > 0 { PowBounds(x, n - 1); }
    UnitTimes(x, Pow(x, n));
    if n > 0 { UnitTimes(x, Pow(x, n - 1)); }
  }

  lemma UnitTimes(x: real, y: real)
    requires 0.0 <= x <= 1.0
    ensures 0.0 <= y <= 1.0 ==> 0.0 <= Times(x, y) <= y
  {
    if 0.0 <= y <= 1.0 {
      assert x * y >= 0.0;
      assert (1.0 - x) * y >= 0.0;
    }
  }

  lemma {:induction false} PowMonotone(x: real, y: real, n: nat)
    requires 0.0 <= x <= y <= 1.0
    ensures Pow(x, n) <= Pow(y, n)
  {
    if n > 0 {
      PowMonotone(x, y, n - 1);
      PowBounds(x, n - 1);
      PowBounds(y, n - 1);
      TimesMonotone(x, y, Pow(x, n - 1), Pow(y, n - 1));
    }
  }

  lemma TimesMonotone(a: real, b: real, c: real, d: real)
    requires 0.0 <= a <= b && 0.0 <= c <= d
    ensures Times(a, c) <= Times(b, d)
  {
    assert (b - a) * c >= 0.0;
    assert b * (d - c) >= 0.0;
  }

  predicate IsDistribution(m: Mix) {
    0.0 <= m.fold <= 1.0 && 0.0 <= m.call <= 1.0 && 0.0 <= m.raise_ <= 1.0 && m.fold + m.call + m.raise_ == 1.0
  }

  lemma JointIsDistribution(r: Rates, opponents: nat)
    requires 0.0 <= r.fold && 0.0 <= r.raise_ && r.fold + r.raise_ <= 1.0
    ensures IsDistribution(Joint(r, opponents))
  {
    PowBounds(r.fold, opponents);
    PowBounds(1.0 - r.raise_, opponents);
    PowMonotone(r.fold, 1.0 - r.raise_, opponents);
  }

  /** For every observation and any number of opponents the response is a probability distribution. */
  lemma ResponseIsDistribution(betting: bool, cost: int, o: Spot, ranges: Option<seq<seq<real>>>)
    requires ValidSpot(o)
    requires ranges.Some? ==> forall i :: 0 <= i < |ranges.value| ==> AllPositive(ranges.value[i])
    requires ResponseMixOf(betting, cost, o, ranges).Some?
    ensures IsDistribution(ResponseMixOf(betting, cost, o, ranges).value)
  {
    hide SingleRates, RangeStrength, Binomial, Joint;
    if betting {
      FeasibleCombos(|o.visible|);
      var rates := SingleRates(cost, o, RangeStrength(ranges, Binomial(52 - |o.visible|, 2)));
      JointIsDistribution(rates.value, if |o.active| > 2 then |o.active| - 1 else 1);
    }
  }

  /** At fixed single-opponent rates a further opponent never raises the fold probability, nor lowers the raise one. */
  lemma FoldNeverRises(r: Rates, opponents: nat)
    requires 0.0 <= r.fold && 0.0 <= r.raise_ && r.fold + r.raise_ <= 1.0
    ensures Joint(r, opponents + 1).fold <= Joint(r, opponents).fold
    ensures Joint(r, opponents + 1).raise_ >= Joint(r, opponents).raise_
  {
    PowBounds(r.fold, opponents);
    PowBounds(1.0 - r.raise_, opponents);
  }

  /** The guard on the sum of the rates never fires: their bounds already keep it below 0.9. */
  lemma RatesNeverMeetTheGuard(cost: int, o: Spot, strength: real)
    requires ValidSpot(o) && SingleRates(cost, o, strength).Some?
    ensures SingleRates(cost, o, strength).value.fold + SingleRates(cost, o, strength).value.raise_ <= 0.86
  {}

  // ---------------------------------------------------------------- what the response means

  /** A bet on a betting street has a response, and every other action is called. */
  lemma ResponseExists(betting: bool, cost: int, o: Spot, ranges: Option<seq<seq<real>>>)
    requires ValidSpot(o) && cost >= 0
    requires ranges.Some? ==> forall i :: 0 <= i < |ranges.value| ==> AllPositive(ranges.value[i])
    ensures ResponseMixOf(betting, cost, o, ranges).Some? <==>
              !betting || o.street.Preflop? || o.street.Flop? || o.street.Turn? || o.street.River?
    ensures !betting ==> ResponseMixOf(betting, cost, o, ranges) == Some(Mix(0.0, 1.0, 0.0))
  {
    var pot := if o.pot > 1 then o.pot as real else 1.0;
    SizeRatio(cost, pot);
  }

  /** The size ratio lies between 0 and 4, and the pressure between 0 and 1. */
  lemma SizeRatio(cost: int, pot: real)
    requires cost >= 0 && pot > 0.0
    ensures 0.0 <= MinReal(4.0, Ratio(cost as real, pot)) <= 4.0
  {
    assert Ratio(cost as real, pot) * pot == cost as real;
  }

  /** Opponents respond independently: all fold with the product of their rates, and nobody raises likewise. */
  lemma JointIsIndependent(r: Rates, opponents: nat)
    ensures Joint(r, 0) == Mix(1.0, 0.0, 0.0)
    ensures Joint(r, 1) == Mix(r.fold, 1.0 - r.fold - r.raise_, r.raise_)
    ensures Joint(r, opponents + 1).fold == Times(r.fold, Joint(r, opponents).fold)
    ensures 1.0 - Joint(r, opponents + 1).raise_ == Times(1.0 - r.raise_, 1.0 - Joint(r, opponents).raise_)
    ensures Joint(r, opponents).fold + Joint(r, opponents).call + Joint(r, opponents).raise_ == 1.0
  {
    assert Pow(r.fold, 1) == Times(r.fold, Pow(r.fold, 0));
    assert Pow(1.0 - r.raise_, 1) == Times(1.0 - r.raise_, Pow(1.0 - r.raise_, 0));
    assert r.fold + (1.0 - r.fold - r.raise_) == 1.0 - r.raise_;
  }

  /** A bet faces every other active player at once, and at least one. */
  lemma ResponseIsJoint(cost: int, o: Spot, ranges: Option<seq<seq<real>>>)
    requires ValidSpot(o)
    requires ranges.Some? ==> forall i :: 0 <= i < |ranges.value| ==> AllPositive(ranges.value[i])
    requires ResponseMixOf(true, cost, o, ranges).Some?
    ensures Binomial(52 - |o.visible|, 2) > 0
    ensures var rates := SingleRates(cost, o, RangeStrength(ranges, Binomial(52 - |o.visible|, 2)));
            rates.Some? && ResponseMixOf(true, cost, o, ranges).value
                           == Joint(rates.value, if |o.active| == 1 then 1 else |o.active| - 1)
  {
    FeasibleCombos(|o.visible|);
  }

  function PotOf(o: Spot): real { if o.pot > 1 then o.pot as real else 1.0 }

  /** The size of a bet as a part of the pot that it makes, with sizes capped at four pots. */
  function PressureOf(o: Spot, cost: int): real
    requires cost >= 0
  {
    SizeRatio(cost, PotOf(o));
    var ratio := MinReal(4.0, Ratio(cost as real, PotOf(o)));
    Ratio(ratio, 1.0 + ratio)
  }

  lemma RatesAre(o: Spot, cost: int, strength: real)
    requires ValidSpot(o) && cost >= 0 && SingleRates(cost, o, strength).Some?
    ensures SingleRates(cost, o, strength).value.fold
         == FoldRate(PressureOf(o, cost), Leverage(o), StreetFactor(o.street).value, Closeness(o), strength)
    ensures SingleRates(cost, o, strength).value.raise_ == RaiseRate(PressureOf(o, cost), Leverage(o), strength)
  {
    hide FoldRate, RaiseRate, Leverage, Closeness, Ratio, LeastStack;
  }

  lemma FoldFollows(p: real, q: real, leverage: real, street: real, position: real, weak: real, strong: real)
    requires 0.0 <= p <= q && 0.0 <= leverage && weak <= strong
    ensures FoldRate(p, leverage, street, position, weak) <= FoldRate(q, leverage, street, position, weak)
    ensures FoldRate(p, leverage, street, position, strong) <= FoldRate(p, leverage, street, position, weak)
  {
    TimesMonotone(p, q, 0.75 + 0.25 * leverage, 0.75 + 0.25 * leverage);
    hide Times;
  }

  lemma RaiseFollows(p: real, q: real, leverage: real, weak: real, strong: real)
    requires p <= q && weak <= strong
    ensures RaiseRate(p, leverage, weak) >= RaiseRate(q, leverage, weak)
    ensures RaiseRate(p, leverage, strong) >= RaiseRate(p, leverage, weak)
  {}

  /** A dearer bet is folded to more and raised less; a stronger range folds less and raises more. */
  lemma RatesFollow(o: Spot, small: int, large: int, weak: real, strong: real)
    requires ValidSpot(o) && 0 <= small <= large && weak <= strong
    requires SingleRates(small, o, weak).Some? && SingleRates(large, o, weak).Some? && SingleRates(small, o, strong).Some?
    ensures SingleRates(small, o, weak).value.fold <= SingleRates(large, o, weak).value.fold
    ensures SingleRates(small, o, weak).value.raise_ >= SingleRates(large, o, weak).value.raise_
    ensures SingleRates(small, o, strong).value.fold <= SingleRates(small, o, weak).value.fold
    ensures SingleRates(small, o, strong).value.raise_ >= SingleRates(small, o, weak).value.raise_
  {
    RatesAre(o, small, weak);
    RatesAre(o, large, weak);
    RatesAre(o, small, strong);
    SizeRatio(small, PotOf(o));
    SizeRatio(large, PotOf(o));
    RatioGrows(small, large, PotOf(o));
    PressureGrows(MinReal(4.0, Ratio(small as real, PotOf(o))), MinReal(4.0, Ratio(large as real, PotOf(o))));
    LeverageBounds(o);
    hide SingleRates, FoldRate, RaiseRate, Leverage, Closeness, StreetFactor, ValidSpot, Ratio;
    var p, q := PressureOf(o, small), PressureOf(o, large);
    FoldFollows(p, q, Leverage(o), StreetFactor(o.street).value, Closeness(o), weak, strong);
    RaiseFollows(p, q, Leverage(o), weak, strong);
  }

  lemma RatioGrows(small: int, large: int, pot: real)
    requires small <= large && pot > 0.0
    ensures MinReal(4.0, Ratio(small as real, pot)) <= MinReal(4.0, Ratio(large as real, pot))
  {
    var x, y := Ratio(small as real, pot), Ratio(large as real, pot);
    assert x * pot == small as real && y * pot == large as real;
    if x > y { assert (x - y) * pot > 0.0; }
  }

  lemma PressureGrows(x: real, y: real)
    requires 0.0 <= x <= y
    ensures 0.0 <= Ratio(x, 1.0 + x) <= Ratio(y, 1.0 + y) <= 1.0
  {
    var p, q := Ratio(x, 1.0 + x), Ratio(y, 1.0 + y);
    assert p * (1.0 + x) == x && q * (1.0 + y) == y;
    assert (q - p) * ((1.0 + x) * (1.0 + y)) == y - x;
    Factor(q - p, (1.0 + x) * (1.0 + y));
    Factor(p, 1.0 + x);
    Factor(1.0 - q, 1.0 + y);
  }

  lemma Factor(a: real, b: real)
    requires b > 0.0 && a * b >= 0.0
    ensures a >= 0.0
  {}

  lemma LeverageBounds(o: Spot)
    requires ValidSpot(o)
    ensures 0.0 <= Leverage(o) <= 1.0
  {
    var stack, pot := LeastStack(o, o.active) as real, PotOf(o);
    assert Ratio(stack, pot) * pot == stack;
    Factor(Ratio(stack, pot), pot);
  }

  /** A pot-sized flop bet from the button, with deep stacks and a middling range. */
  lemma PotSizedBet(o: Spot)
    requires o == Spot(100, 0, 0, 2, Flop, map[0 := 1000, 1 := 1000], map[0 := 0, 1 := 0], [0, 1], {})
    ensures ValidSpot(o) && SingleRates(100, o, 0.5) == Some(Rates(0.3, 0.0975))
  {
    assert o.active[0] == 0 && o.active[1] == 1 && o.active[1..] == [1];
    assert LeastStack(o, [1]) == 1000;
    assert LeastStack(o, o.active) == 1000;
  }

  // ---------------------------------------------------------------- what the width means

  lemma {:induction false} EqualSum(s: seq<real>, x: real)
    requires forall i :: 0 <= i < |s| ==> s[i] == x
    ensures Sum(s) == Times(|s| as real, x)
  {
    if s != [] {
      EqualSum(s[..|s| - 1], x);
      OneMoreTimes((|s| - 1) as real, x);
    }
  }

  /** Equal weights count in full. */
  lemma EqualWeightsCountInFull(weights: seq<real>, x: real)
    requires weights != [] && x > 0.0 && forall i :: 0 <= i < |weights| ==> weights[i] == x
    ensures Sum(weights) > 0.0 && Sum(Squares(Fractions(weights, Sum(weights)))) > 0.0
    ensures EffectiveCount(weights) == |weights| as real
  {
    var n := |weights| as real;
    EffectiveBounds(weights);
    EqualSum(weights, x);
    var part := Ratio(x, Sum(weights));
    EqualSum(Squares(Fractions(weights, Sum(weights))), Square(part));
    EqualParts(n, x, part);
  }

  lemma EqualParts(n: real, x: real, part: real)
    requires n > 0.0 && x > 0.0 && Times(n, x) > 0.0 && part == Ratio(x, Times(n, x))
    ensures Times(n, Square(part)) > 0.0 && Inverse(Times(n, Square(part))) == n
  {
    assert part * (n * x) == x;
    assert (part * n - 1.0) * x == 0.0;
    assert part * n == 1.0;
    var s := n * (part * part);
    assert s == (n * part) * part == part;
    assert s * n == 1.0;
  }

  /** Without opponent ranges the strength is a half; otherwise it is one minus the mean width of those that hold combos. */
  lemma StrengthIsNarrowness(ranges: seq<seq<real>>, feasible: nat)
    requires feasible > 0 && forall i :: 0 <= i < |ranges| ==> AllPositive(ranges[i])
    ensures RangeStrength(None, feasible) == 0.5 && RangeStrength(Some([]), feasible) == 0.5
    ensures 0.0 <= RangeStrength(Some(ranges), feasible) < 1.0
    ensures |ranges| == 1 && ranges[0] != [] ==> RangeStrength(Some(ranges), feasible) == 1.0 - Width(ranges[0], feasible)
  {
    var widths := Widths(ranges, feasible);
    MeanWidth(widths);
    if |ranges| == 1 && ranges[0] != [] {
      assert ranges[1..] == [];
      assert Widths(ranges[1..], feasible) == [];
      assert widths == [Width(ranges[0], feasible)];
      SumSnoc([], widths[0]);
      assert [] + [widths[0]] == widths;
    }
  }

  lemma {:induction false} MeanWidth(widths: seq<real>)
    requires forall i :: 0 <= i < |widths| ==> 0.0 < widths[i] <= 1.0
    ensures 0.0 <= Sum(widths) <= |widths| as real && (widths != [] ==> 0.0 < Sum(widths))
    ensures widths != [] ==> 0.0 < Ratio(Sum(widths), |widths| as real) <= 1.0
  {
    if widths != [] {
      MeanWidth(widths[..|widths| - 1]);
      ShareOf(Sum(widths), |widths| as real);
      PositiveShare(Sum(widths), |widths| as real);
    }
  }

  lemma NotPositive(a: real, b: real)
    requires a <= 0.0 && b > 0.0
    ensures a * b <= 0.0
  {}

  lemma PositiveShare(e: real, n: real)
    requires n > 0.0 && e > 0.0
    ensures Ratio(e, n) > 0.0
  {
    var r := Ratio(e, n);
    assert r * n == e;
    if r <= 0.0 { NotPositive(r, n); }
  }

  /** A range of fewer effective combos than are feasible is that part wide. */
  lemma WidthIsShare(weights: seq<real>, feasible: nat)
    requires AllPositive(weights) && weights != [] && feasible > 0
    ensures Sum(weights) > 0.0 && Sum(Squares(Fractions(weights, Sum(weights)))) > 0.0
    ensures EffectiveCount(weights) <= feasible as real ==> Times(Width(weights, feasible), feasible as real) == EffectiveCount(weights)
    ensures EffectiveCount(weights) >= feasible as real ==> Width(weights, feasible) == 1.0
  {
    EffectiveBounds(weights);
    ShareOf(EffectiveCount(weights), feasible as real);
    hide EffectiveCount, Ratio, Times;
  }

  lemma ShareOf(e: real, n: real)
    requires n > 0.0
    ensures Times(Ratio(e, n), n) == e
    ensures e <= n ==> Ratio(e, n) <= 1.0
    ensures e >= n ==> Ratio(e, n) >= 1.0
  {
    var r := Ratio(e, n);
    assert r * n == e;
    assert (1.0 - r) * n == n - e;
    if e <= n { Factor(1.0 - r, n); }
    assert (r - 1.0) * n == e - n;
    if e >= n { Factor(r - 1.0, n); }
  }
}
