/** The heuristic likelihood of a public action, and the features that it depends on. */
module Likelihood {
  import opened Cards
  import opened RangeExpansion
  import opened RangeBelief
  import opened Sums

  datatype SimAction = SimFold | SimCheck | SimCall | SimBet | SimRaise

  /** What an action's amount means. */
  datatype Semantics = NoAmount | Cost | By | To

  datatype SizeBucket = NoSize | SmallSize | MediumSize | LargeSize | Overbet

  datatype SprBucket = ShortSpr | MediumSpr | DeepSpr

  datatype Position = Utg | Mp | OtherPosition(name: string)

  /** PublicActionContext. */
  datatype Context = Context(board: seq<Card>, potBefore: int, stackBefore: int, position: Position)

  function Spr(c: Context): real {
    if c.potBefore <= 0 then 999.0 else Ratio(c.stackBefore as real, c.potBefore as real)
  }

  function SizeBucketOf(action: SimAction, amount: Option<nat>, potBefore: int): SizeBucket {
    if action.SimCheck? || action.SimFold? || amount.None? || amount.value == 0 then NoSize
    else
      var ratio := Ratio(amount.value as real, (if potBefore > 1 then potBefore else 1) as real);
      if ratio <= 0.4 then SmallSize
      else if ratio <= 0.8 then MediumSize
      else if ratio <= 1.25 then LargeSize
      else Overbet
  }

  function SprBucketOf(spr: real): SprBucket {
    if spr < 4.0 then ShortSpr else if spr < 10.0 then MediumSpr else DeepSpr
  }

  // ---------------------------------------------------------------- runs of ranks

  /** The n consecutive values from low on are all present. */
  predicate HasRun(values: set<int>, low: int, n: nat) {
    forall x :: low <= x < low + n ==> x in values
  }

  /** The longest run that ends at high. */
  function RunDown(values: set<int>, high: int): (n: nat)
    decreases if high < 0 then 0 else high + 1
  {
    if high < 0 || high !in values then 0 else 1 + RunDown(values, high - 1)
  }

  /** The longest run that ends at high or below. */
  function LongestUpTo(values: set<int>, high: int): nat
    decreases if high < 0 then 0 else high + 1
  {
    if high < 0 then 0 else Max(LongestUpTo(values, high - 1), RunDown(values, high))
  }

  function Max(a: nat, b: nat): nat {
    if a > b then a else b
  }

  /** _longest_run: the values in ascending order, with the current run and the longest so far. */
  method LongestRun(values: set<int>) returns (longest: nat)
    requires forall v :: v in values ==> 0 <= v <= 14
    ensures longest == LongestUpTo(values, 14)
  {
    longest := 0;
    var current: nat := 0;
    var previous: Option<int> := None;
    for value := 0 to 15
      invariant longest == LongestUpTo(values, value - 1)
      invariant previous.Some? ==> current == RunDown(values, previous.value) && previous.value < value
      invariant previous.Some? ==> forall v :: previous.value < v < value ==> v !in values
      invariant previous.None? ==> forall v :: v in values ==> v >= value
    {
      if value in values {
        current := if previous.Some? && value == previous.value + 1 then current + 1 else 1;
        longest := Max(longest, current);
        previous := Some(value);
      }
    }
  }

  lemma {:induction false} RunDownIsRun(values: set<int>, high: int)
    ensures HasRun(values, high - RunDown(values, high) + 1, RunDown(values, high))
    decreases if high < 0 then 0 else high + 1
  {
    if high >= 0 && high in values { RunDownIsRun(values, high - 1); }
  }

  lemma {:induction false} RunDownIsLongest(values: set<int>, high: int, n: nat)
    requires n <= high + 1 && HasRun(values, high - n + 1, n)
    ensures n <= RunDown(values, high)
    decreases n
  {
    if n > 0 { RunDownIsLongest(values, high - 1, n - 1); }
  }

  lemma {:induction false} LongestBounds(values: set<int>, high: int, h: int)
    requires 0 <= h <= high
    ensures RunDown(values, h) <= LongestUpTo(values, high)
    decreases high
  {
    if h < high { LongestBounds(values, high - 1, h); }
  }

  /** The result is the length of a run of consecutive values, and no run is longer. */
  lemma {:induction false} LongestIsLongest(values: set<int>, high: int) returns (low: int)
    requires high >= -1
    ensures HasRun(values, low, LongestUpTo(values, high))
    ensures forall l: int, n: nat :: 0 <= l && l + n - 1 <= high && HasRun(values, l, n) ==> n <= LongestUpTo(values, high)
    decreases high + 1
  {
    if high < 0 {
      low := 0;
    } else {
      low := LongestIsLongest(values, high - 1);
      if RunDown(values, high) >= LongestUpTo(values, high - 1) {
        RunDownIsRun(values, high);
        low := high - RunDown(values, high) + 1;
      }
      forall l: int, n: nat | 0 <= l && l + n - 1 <= high && HasRun(values, l, n) ensures n <= LongestUpTo(values, high) {
        if n > 0 {
          RunDownIsLongest(values, l + n - 1, n);
          LongestBounds(values, high, l + n - 1);
        }
      }
    }
  }

  // ---------------------------------------------------------------- combo features

  function CountRank(cards: seq<Card>, r: int): nat {
    if cards == [] then 0 else CountRank(cards[1..], r) + if cards[0].rank == r then 1 else 0
  }

  function CountSuit(cards: seq<Card>, s: int): nat {
    if cards == [] then 0 else CountSuit(cards[1..], s) + if cards[0].suit == s then 1 else 0
  }

  /** The largest rank count among the ranks up to r. */
  function TopCount(cards: seq<Card>, r: int): nat
    decreases r
  {
    if r < 2 then 0 else Max(TopCount(cards, r - 1), CountRank(cards, r))
  }

  /** How many ranks up to r occur at least n times. */
  function RanksWith(cards: seq<Card>, n: nat, r: int): nat
    decreases r
  {
    if r < 2 then 0 else RanksWith(cards, n, r - 1) + if CountRank(cards, r) >= n then 1 else 0
  }

  function TopSuit(cards: seq<Card>): nat {
    Max(Max(CountSuit(cards, 0), CountSuit(cards, 1)), Max(CountSuit(cards, 2), CountSuit(cards, 3)))
  }

  /** The rank values, with an ace also low. */
  function RunValues(cards: seq<Card>): set<int> {
    (set c | c in cards :: c.rank as int) + if exists c :: c in cards && c.rank == 14 then {1} else {}
  }

  datatype Features = Features(made: nat, draw: nat, preflop: nat)

  function PreflopFeature(h: Hole): nat {
    var gap := if h.0.rank > h.1.rank then h.0.rank - h.1.rank else h.1.rank - h.0.rank;
    var score := (if h.0.rank == h.1.rank then 3 else 0) + (if h.0.suit == h.1.suit then 1 else 0)
      + (if h.0.rank >= 10 then 1 else 0) + (if h.1.rank >= 10 then 1 else 0) + if gap <= 1 then 1 else 0;
    if score > 5 then 5 else score
  }

  function MadeFeature(cards: seq<Card>): nat {
    var top := TopCount(cards, 14);
    var grouped :=
      if top >= 4 then 5
      else if top >= 3 then 4
      else if RanksWith(cards, 2, 14) >= 2 then 3
      else if top >= 2 then 2
      else 0;
    if TopSuit(cards) >= 5 || LongestUpTo(RunValues(cards), 14) >= 5 then 5 else grouped
  }

  function DrawFeature(cards: seq<Card>): nat {
    (if TopSuit(cards) == 4 then 2 else 0) + if LongestUpTo(RunValues(cards), 14) == 4 then 1 else 0
  }

  /** _combo_features. */
  function ComboFeatures(h: Hole, board: seq<Card>): (f: Features)
    ensures f.made <= 5 && f.draw <= 3 && f.preflop <= 5
  {
    if board == [] then Features(0, 0, PreflopFeature(h))
    else
      var cards := [h.0, h.1] + board;
      Features(MadeFeature(cards), DrawFeature(cards), PreflopFeature(h))
  }

  // ---------------------------------------------------------------- the likelihood

  function Selectivity(bucket: SizeBucket, position: Position, spr: SprBucket): real {
    var base := match bucket
      case SmallSize => 0.8
      case MediumSize => 1.0
      case LargeSize => 1.25
      case Overbet => 1.5
      case NoSize => 0.7;
    base + (if position.Utg? || position.Mp? then 0.1 else 0.0)
      + (match spr case DeepSpr => 0.08 case ShortSpr => -0.08 case MediumSpr => 0.0)
  }

  function Pressure(bucket: SizeBucket): real {
    match bucket
    case MediumSize => 0.04
    case LargeSize => 0.08
    case Overbet => 0.13
    case _ => 0.0
  }

  function Clip(value: real): (r: real)
    ensures 0.02 <= r <= 0.95
  {
    if value < 0.02 then 0.02 else if value > 0.95 then 0.95 else value
  }

  /** What a street sees of the features: the preflop score, or the made hand and the draws that can still come in. */
  function Strength(f: Features, street: Street): real {
    if street.Preflop? then f.preflop as real / 3.0
    else f.made as real + (if street.River? then 0.0 else f.draw as real) * 0.75
  }

  function Aggression(selectivity: real, strength: real): real {
    0.22 - (selectivity - 0.8) * 0.18 + strength * (0.08 + selectivity * 0.035)
  }

  /** The clipped score of an action for a hand with these features. */
  function Chance(action: SimAction, f: Features, street: Street, selectivity: real, pressure: real): (p: real)
    ensures 0.02 <= p <= 0.95
  {
    var strength, draw := Strength(f, street), if street.River? then 0.0 else f.draw as real;
    Clip(match action
         case SimBet => Aggression(selectivity, strength)
         case SimRaise => Aggression(selectivity, strength)
         case SimCall => 0.34 - pressure + strength * 0.075 + draw * 0.04
         case SimFold => 0.86 - strength * 0.14
         case SimCheck => 0.74 - strength * 0.075 + if f.made >= 3 then 0.04 else 0.0)
  }

  /** likelihood. */
  function LikelihoodOf(h: Hole, action: SimAction, street: Street, amount: Option<nat>, c: Context): real {
    var bucket := SizeBucketOf(action, amount, c.potBefore);
    Chance(action, ComboFeatures(h, c.board), street, Selectivity(bucket, c.position, SprBucketOf(Spr(c))), Pressure(bucket))
  }

  /** Everything about an action and its context that a likelihood may depend on. */
  datatype Bucketed = Bucketed(action: SimAction, street: Street, size: SizeBucket, board: seq<Card>,
                               position: Position, spr: SprBucket)

  function BucketedOf(action: SimAction, street: Street, amount: Option<nat>, c: Context): Bucketed {
    Bucketed(action, street, SizeBucketOf(action, amount, c.potBefore), c.board, c.position, SprBucketOf(Spr(c)))
  }

  /** Amounts, pots and stacks matter only through their buckets; and the result stays in the safe interval. */
  lemma LikelihoodFactors(h: Hole, action: SimAction, street: Street, a: Option<nat>, c: Context, b: Option<nat>, d: Context)
    requires BucketedOf(action, street, a, c) == BucketedOf(action, street, b, d)
    ensures LikelihoodOf(h, action, street, a, c) == LikelihoodOf(h, action, street, b, d)
    ensures 0.02 <= LikelihoodOf(h, action, street, a, c) <= 0.95
  {
    hide Chance, ComboFeatures, SizeBucketOf, SprBucketOf, Spr, Selectivity, Pressure, Clip;
  }

  // ---------------------------------------------------------------- directions

  /** The features that a street looks at: the second hand has at least as much of each. */
  predicate NoBetter(f: Features, g: Features, street: Street, board: seq<Card>) {
    if street.Preflop? then board == [] && f.preflop <= g.preflop
    else f.made <= g.made && (street.River? || f.draw <= g.draw)
  }

  /** One of those features is strictly larger. */
  predicate SomeWorse(f: Features, g: Features, street: Street) {
    if street.Preflop? then f.preflop < g.preflop
    else f.made < g.made || (!street.River? && f.draw < g.draw)
  }

  lemma ScaleKeepsOrder(a: real, b: real, scale: real)
    requires a <= b && scale >= 0.0
    ensures a * scale <= b * scale
    ensures a < b && scale > 0.0 ==> a * scale < b * scale
  {}

  lemma SelectivityBounds(bucket: SizeBucket, position: Position, spr: SprBucket)
    ensures 0.62 <= Selectivity(bucket, position, spr) <= 1.68
  {}

  /**
   * Of two hands in one spot the better one bets, raises and calls at least as often and folds and checks at most as
   * often; strictly so unless both are cut off at 0.02 or 0.95.
   */
  lemma LikelihoodDirection(h: Hole, k: Hole, action: SimAction, street: Street, amount: Option<nat>, c: Context)
    requires NoBetter(ComboFeatures(h, c.board), ComboFeatures(k, c.board), street, c.board)
    ensures var worse, better := LikelihoodOf(h, action, street, amount, c), LikelihoodOf(k, action, street, amount, c);
            var strict := SomeWorse(ComboFeatures(h, c.board), ComboFeatures(k, c.board), street);
            && (action.SimBet? || action.SimRaise? || action.SimCall? ==>
                  worse <= better && (strict ==> worse < better || worse == better == 0.02 || worse == better == 0.95))
            && (action.SimFold? || action.SimCheck? ==>
                  worse >= better && (strict ==> worse > better || worse == better == 0.02 || worse == better == 0.95))
  {
    hide SizeBucketOf, SprBucketOf, Spr, Chance, NoBetter, SomeWorse;
    var bucket := SizeBucketOf(action, amount, c.potBefore);
    SelectivityBounds(bucket, c.position, SprBucketOf(Spr(c)));
    assert c.board == [] ==> (var f, g := ComboFeatures(h, c.board), ComboFeatures(k, c.board); f.made == g.made && f.draw == g.draw);
    hide Selectivity, ComboFeatures;
    ChanceDirection(action, ComboFeatures(h, c.board), ComboFeatures(k, c.board), street, c.board,
                    Selectivity(bucket, c.position, SprBucketOf(Spr(c))), Pressure(bucket));
  }

  lemma ChanceDirection(action: SimAction, f: Features, g: Features, street: Street, board: seq<Card>, selectivity: real, pressure: real)
    requires NoBetter(f, g, street, board) && 0.62 <= selectivity
    requires board == [] ==> f.made == g.made && f.draw == g.draw
    ensures var worse, better := Chance(action, f, street, selectivity, pressure), Chance(action, g, street, selectivity, pressure);
            var strict := SomeWorse(f, g, street);
            && (action.SimBet? || action.SimRaise? || action.SimCall? ==>
                  worse <= better && (strict ==> worse < better || worse == better == 0.02 || worse == better == 0.95))
            && (action.SimFold? || action.SimCheck? ==>
                  worse >= better && (strict ==> worse > better || worse == better == 0.02 || worse == better == 0.95))
  {
    StrengthOrder(f, g, street, board);
    AggressionRises(selectivity, Strength(f, street), Strength(g, street));
    hide Aggression, Strength;
  }

  /** Better features are worth more, and a step of the made hand at least one. */
  lemma StrengthOrder(f: Features, g: Features, street: Street, board: seq<Card>)
    requires NoBetter(f, g, street, board)
    ensures Strength(f, street) <= Strength(g, street)
    ensures SomeWorse(f, g, street) ==> Strength(f, street) < Strength(g, street)
    ensures !street.Preflop? && f.made < g.made ==> Strength(f, street) + 1.0 <= Strength(g, street)
  {}

  lemma AggressionRises(selectivity: real, low: real, high: real)
    requires low <= high && 0.62 <= selectivity
    ensures Aggression(selectivity, low) <= Aggression(selectivity, high)
    ensures low < high ==> Aggression(selectivity, low) < Aggression(selectivity, high)
  {
    ScaleKeepsOrder(low, high, 0.08 + selectivity * 0.035);
  }

  /** A larger amount is never a smaller size. */
  lemma LargerIsNoSmaller(action: SimAction, a: nat, b: nat, pot: int)
    requires a <= b
    ensures Selectivity(SizeBucketOf(action, Some(a), pot), OtherPosition(""), MediumSpr)
         <= Selectivity(SizeBucketOf(action, Some(b), pot), OtherPosition(""), MediumSpr)
    ensures Pressure(SizeBucketOf(action, Some(a), pot)) <= Pressure(SizeBucketOf(action, Some(b), pot))
  {
    RatioOrder(a as real, b as real, (if pot > 1 then pot else 1) as real);
    hide Ratio;
  }

  lemma RatioOrder(a: real, b: real, d: real)
    requires a <= b && d > 0.0
    ensures Ratio(a, d) <= Ratio(b, d)
  {}

  /**
   * A larger size: a call is never more likely; a bet or raise is never more likely with a strength of at most 36/7 and
   * never less likely with more.
   */
  lemma SizeDirection(h: Hole, action: SimAction, street: Street, a: nat, b: nat, c: Context)
    requires a <= b
    ensures var small, large := LikelihoodOf(h, action, street, Some(a), c), LikelihoodOf(h, action, street, Some(b), c);
            && (action.SimCall? ==> large <= small)
            && (action.SimBet? || action.SimRaise? ==>
                  if Strength(ComboFeatures(h, c.board), street) <= 36.0 / 7.0 then large <= small else small <= large)
            && (action.SimFold? || action.SimCheck? ==> large == small)
  {
    LargerIsNoSmaller(action, a, b, c.potBefore);
    hide SizeBucketOf, SprBucketOf, Spr, ComboFeatures;
    var spr := SprBucketOf(Spr(c));
    var low, high := Selectivity(SizeBucketOf(action, Some(a), c.potBefore), c.position, spr), Selectivity(SizeBucketOf(action, Some(b), c.potBefore), c.position, spr);
    assert low <= high;
    hide Selectivity;
    AggressionTurns(low, high, Strength(ComboFeatures(h, c.board), street));
    hide Aggression, Strength;
  }

  lemma AggressionTurns(low: real, high: real, strength: real)
    requires low <= high
    ensures if strength <= 36.0 / 7.0 then Aggression(high, strength) <= Aggression(low, strength)
            else Aggression(low, strength) <= Aggression(high, strength)
  {
    if strength <= 36.0 / 7.0 { ScaleKeepsOrder(low, high, 0.18 - strength * 0.035); }
    else { ScaleKeepsOrder(low, high, strength * 0.035 - 0.18); }
  }

  /** Aces, early and deep: a raise of two thirds of the pot, and a fold. */
  lemma AcesRaise()
    ensures var aces, early := (Card(14, 0), Card(14, 1)), Context([], 150, 2000, Utg);
            && LikelihoodOf(aces, SimRaise, Preflop, Some(100), early) == 0.1516 + 5.0 / 3.0 * 0.1213
            && LikelihoodOf(aces, SimFold, Preflop, None, early) == 0.86 - 5.0 / 3.0 * 0.14
  {
    var early := Context([], 150, 2000, Utg);
    assert SizeBucketOf(SimRaise, Some(100), 150) == MediumSize && SprBucketOf(Spr(early)) == DeepSpr;
    assert ComboFeatures((Card(14, 0), Card(14, 1)), []) == Features(0, 0, 5);
    hide SizeBucketOf, SprBucketOf, ComboFeatures;
  }

  /** One pair with a flush draw on a flop, three pots behind and not in early position. */
  lemma PairAndDraw(h: Hole, board: seq<Card>, position: Position)
    requires ComboFeatures(h, board).made == 2 && ComboFeatures(h, board).draw == 2 && position.OtherPosition?
    ensures var c := Context(board, 100, 300, position);
            && LikelihoodOf(h, SimBet, Flop, Some(100), c) == 0.22 - 0.37 * 0.18 + 3.5 * (0.08 + 1.17 * 0.035)
            && LikelihoodOf(h, SimCall, Flop, Some(100), c) == 0.34 - 0.08 + 3.5 * 0.075 + 0.08
            && LikelihoodOf(h, SimFold, Flop, None, c) == 0.86 - 0.49
            && LikelihoodOf(h, SimCheck, Flop, None, c) == 0.74 - 3.5 * 0.075
  {
    var c := Context(board, 100, 300, position);
    assert SizeBucketOf(SimBet, Some(100), 100) == SizeBucketOf(SimCall, Some(100), 100) == LargeSize && SprBucketOf(Spr(c)) == ShortSpr;
    hide SizeBucketOf, SprBucketOf, Spr, ComboFeatures;
    assert Strength(ComboFeatures(h, board), Flop) == 3.5 && Selectivity(LargeSize, position, ShortSpr) == 1.17;
    hide Strength, Selectivity;
  }
}
