/** Monte Carlo multiway equity: weighted choices, whole-tuple rejection, and equally weighted trials. */
module EquitySampling {
  import opened Cards
  import opened Combos
  import opened HandEvaluator
  import opened Sums
  import opened Showdowns
  import opened Equity
  import opened Multiway
  import opened EquityTheorems

  /** _weighted_choice for a uniform draw u; the index of the chosen combo, None without positive weight. */
  method WeightedChoice(combos: seq<Entry>, u: real) returns (choice: Option<nat>)
    requires 0.0 <= u < 1.0 && forall e :: e in combos ==> e.weight > 0.0
    ensures choice.None? <==> combos == []
    ensures choice.Some? ==>
              choice.value < |combos| && Hits(EntryWeights(combos), choice.value, Target(u, Sum(EntryWeights(combos))))
  {
    hide Target;
    var weights := EntryWeights(combos);
    var total := Sum(weights);
    if combos == [] {
      return None;
    }
    forall i | 0 <= i < |weights| ensures weights[i] > 0.0 { assert combos[i] in combos; }
    SumNonNegative(weights);
    assert 0.0 < weights[0] <= total;
    TargetBelow(u, total);
    var target, cursor, i := Target(u, total), 0.0, 0;
    assert weights[..|weights|] == weights;
    while i < |combos|
      invariant 0 <= i <= |combos| && cursor == Sum(weights[..i]) <= target
    {
      assert weights[..i + 1] == weights[..i] + [weights[i]];
      SumSnoc(weights[..i], weights[i]);
      cursor := cursor + combos[i].weight;
      if target < cursor {
        return Some(i);
      }
      i := i + 1;
    }
    assert false;
  }

  const MAX_SAMPLING_ATTEMPTS: nat := 10000

  /** The tuple that the draws from start on select, one draw per seat. */
  predicate DrawnAt(lists: seq<seq<Entry>>, draws: nat -> real, start: nat, tuple: seq<Entry>) {
    |tuple| == |lists| && forall k :: 0 <= k < |lists| ==> Selected(lists[k], draws(start + k), tuple[k])
  }

  /** A combo at an index whose part of the running sum holds the target. */
  predicate Selected(combos: seq<Entry>, u: real, choice: Entry) {
    var weights := EntryWeights(combos);
    exists i :: 0 <= i < |combos| && Hits(weights, i, Target(u, Sum(weights))) && choice == combos[i]
  }

  lemma SelectedIsListed(lists: seq<seq<Entry>>, draws: nat -> real, start: nat, tuple: seq<Entry>)
    requires DrawnAt(lists, draws, start, tuple)
    ensures FromLists(tuple, lists)
  {
    forall k | 0 <= k < |lists| ensures tuple[k] in lists[k] {
      assert Selected(lists[k], draws(start + k), tuple[k]);
    }
  }

  /** The draws select at most one combo of a list. */
  lemma SelectedOnce(combos: seq<Entry>, u: real, a: Entry, b: Entry)
    requires (forall e :: e in combos ==> e.weight > 0.0) && Selected(combos, u, a) && Selected(combos, u, b)
    ensures a == b
  {
    hide Sum;
    var weights := EntryWeights(combos);
    var target := Target(u, Sum(weights));
    var i :| 0 <= i < |combos| && Hits(weights, i, target) && a == combos[i];
    var j :| 0 <= j < |combos| && Hits(weights, j, target) && b == combos[j];
    assert forall k :: 0 <= k < |weights| ==> weights[k] == combos[k].weight && combos[k] in combos;
    HitsOnce(weights, i, j, target);
  }

  /** So they select at most one tuple. */
  lemma DrawnOnce(lists: seq<seq<Entry>>, draws: nat -> real, start: nat, a: seq<Entry>, b: seq<Entry>)
    requires PositiveLists(lists) && DrawnAt(lists, draws, start, a) && DrawnAt(lists, draws, start, b)
    ensures a == b
  {
    hide Selected;
    forall k | 0 <= k < |lists| ensures a[k] == b[k] {
      SelectedOnce(lists[k], draws(start + k), a[k], b[k]);
    }
  }

  /** One draw per seat. */
  method DrawTuple(lists: seq<seq<Entry>>, draws: nat -> real, start: nat) returns (tuple: Option<seq<Entry>>, next: nat)
    requires PositiveLists(lists) && forall n :: 0.0 <= draws(n) < 1.0
    ensures tuple.Some? ==> DrawnAt(lists, draws, start, tuple.value) && next == start + |lists|
    ensures tuple.None? <==> exists i :: 0 <= i < |lists| && lists[i] == []
  {
    hide Hits, Sum;
    var chosen: seq<Entry> := [];
    next := start;
    for i := 0 to |lists|
      invariant |chosen| == i && next == start + i
      invariant forall k :: 0 <= k < i ==> lists[k] != [] && Selected(lists[k], draws(start + k), chosen[k])
    {
      var choice := WeightedChoice(lists[i], draws(next));
      next := next + 1;
      if choice.None? {
        return None, next;
      }
      assert Selected(lists[i], draws(start + i), lists[i][choice.value]);
      chosen := chosen + [lists[i][choice.value]];
    }
    tuple := Some(chosen);
  }

  /** Where a round starts, with one draw per seat and round. */
  function RoundStart(start: nat, round: nat, seats: nat): nat {
    if round == 0 then start else RoundStart(start, round - 1, seats) + seats
  }

  /** The round's draws select the tuple, and no two of its cards clash. */
  predicate AcceptedIn(lists: seq<seq<Entry>>, board: seq<Card>, draws: nat -> real, start: nat, round: nat, tuple: seq<Entry>) {
    DrawnAt(lists, draws, RoundStart(start, round, |lists|), tuple) && Joined(board, tuple).Some?
  }

  /** The tuple of the first accepted round. */
  ghost predicate FirstAccepted(lists: seq<seq<Entry>>, board: seq<Card>, draws: nat -> real, start: nat, tuple: seq<Entry>, next: nat) {
    exists round: nat :: round < MAX_SAMPLING_ATTEMPTS && AcceptedIn(lists, board, draws, start, round, tuple)
      && next == RoundStart(start, round + 1, |lists|)
      && NoneAccepted(lists, board, draws, start, round)
  }

  ghost predicate NoneAccepted(lists: seq<seq<Entry>>, board: seq<Card>, draws: nat -> real, start: nat, rounds: nat) {
    forall round: nat, t :: round < rounds ==> !AcceptedIn(lists, board, draws, start, round, t)
  }

  /** _sample_non_overlapping_multiway: whole tuples are redrawn until no two cards clash; None when the attempts run out. */
  method SampleTuple(lists: seq<seq<Entry>>, board: seq<Card>, draws: nat -> real, start: nat)
    returns (tuple: Option<seq<Entry>>, next: nat)
    requires PositiveLists(lists) && forall n :: 0.0 <= draws(n) < 1.0
    ensures tuple.Some? ==> tuple.value in TupleProduct(lists) && Joined(board, tuple.value).Some?
                            && FirstAccepted(lists, board, draws, start, tuple.value, next)
    ensures tuple.None? ==> (exists i :: 0 <= i < |lists| && lists[i] == []) || NoneAccepted(lists, board, draws, start, MAX_SAMPLING_ATTEMPTS)
  {
    hide Joined, DrawnAt, PositiveLists;
    next := start;
    for attempt := 0 to MAX_SAMPLING_ATTEMPTS
      invariant next == RoundStart(start, attempt, |lists|)
      invariant NoneAccepted(lists, board, draws, start, attempt)
    {
      var drawn;
      drawn, next := DrawTuple(lists, draws, next);
      if drawn.None? {
        return None, next;
      }
      var known := Join(board, drawn.value);
      if known.Some? {
        SelectedIsListed(lists, draws, RoundStart(start, attempt, |lists|), drawn.value);
        TupleMember(lists, drawn.value);
        assert AcceptedIn(lists, board, draws, start, attempt, drawn.value);
        return drawn, next;
      }
      forall t ensures !AcceptedIn(lists, board, draws, start, attempt, t) {
        if DrawnAt(lists, draws, RoundStart(start, attempt, |lists|), t) {
          DrawnOnce(lists, draws, RoundStart(start, attempt, |lists|), t, drawn.value);
        }
      }
    }
    tuple := None;
  }

  // ---------------------------------------------------------------- the trials of a run

  /** The first accepted round, and with it the next unused draw, is determined by the draws. */
  lemma FirstAcceptedOnce(lists: seq<seq<Entry>>, board: seq<Card>, draws: nat -> real, start: nat,
                          a: seq<Entry>, nextA: nat, b: seq<Entry>, nextB: nat)
    requires PositiveLists(lists)
    requires FirstAccepted(lists, board, draws, start, a, nextA) && FirstAccepted(lists, board, draws, start, b, nextB)
    ensures a == b && nextA == nextB
  {
    hide PositiveLists, Joined, DrawnAt;
    var i: nat :| i < MAX_SAMPLING_ATTEMPTS && AcceptedIn(lists, board, draws, start, i, a)
      && nextA == RoundStart(start, i + 1, |lists|) && NoneAccepted(lists, board, draws, start, i);
    var j: nat :| j < MAX_SAMPLING_ATTEMPTS && AcceptedIn(lists, board, draws, start, j, b)
      && nextB == RoundStart(start, j + 1, |lists|) && NoneAccepted(lists, board, draws, start, j);
    assert i == j;
    DrawnOnce(lists, draws, RoundStart(start, i, |lists|), a, b);
  }

  function PickedRunout(board: seq<Card>, tuple: seq<Entry>, choice: nat): Option<seq<Card>>
    requires |board| <= 5 && Joined(board, tuple).Some?
  {
    var runouts := Runouts(Joined(board, tuple).value, 5 - |board|);
    if runouts == [] then None else Some(runouts[choice % |runouts|])
  }

  /** Trial t, which uses the draws from start on up to next: the first accepted tuple on its picked runout, with weight one. */
  ghost predicate PlaysOne(lists: seq<seq<Entry>>, board: seq<Card>, draws: nat -> real, choice: nat, start: nat, d: Showdown, next: nat)
    requires |board| <= 5
  {
    exists tuple :: FirstAccepted(lists, board, draws, start, tuple, next) && tuple in TupleProduct(lists)
      && Joined(board, tuple).Some? && PickedRunout(board, tuple, choice).Some?
      && d == Showdown(HandKeys(tuple, board + PickedRunout(board, tuple, choice).value), 1.0)
  }

  /** The showdowns of the first trials, and the next unused draw. */
  ghost predicate Plays(lists: seq<seq<Entry>>, board: seq<Card>, draws: nat -> real, pick: nat -> nat, log: seq<Showdown>, next: nat)
    requires |board| <= 5
    decreases |log|
  {
    if log == [] then next == 0
    else
      var n := |log| - 1;
      exists before: nat :: Plays(lists, board, draws, pick, log[..n], before)
                            && PlaysOne(lists, board, draws, pick(n), before, log[n], next)
  }

  /** No round from here on is accepted, or too few cards are left for a runout of the accepted tuple. */
  ghost predicate Stuck(lists: seq<seq<Entry>>, board: seq<Card>, draws: nat -> real, choice: nat, start: nat)
    requires |board| <= 5
  {
    NoneAccepted(lists, board, draws, start, MAX_SAMPLING_ATTEMPTS)
    || exists tuple, next: nat :: FirstAccepted(lists, board, draws, start, tuple, next)
         && Joined(board, tuple).Some? && PickedRunout(board, tuple, choice).None?
  }

  /** Some trial of the run gets stuck. */
  ghost predicate RunsDry(lists: seq<seq<Entry>>, board: seq<Card>, draws: nat -> real, pick: nat -> nat, trials: nat)
    requires |board| <= 5
  {
    exists log: seq<Showdown>, next: nat :: |log| < trials && Plays(lists, board, draws, pick, log, next)
                                            && Stuck(lists, board, draws, pick(|log|), next)
  }

  lemma PlaysNothing(lists: seq<seq<Entry>>, board: seq<Card>, draws: nat -> real, pick: nat -> nat, next: nat)
    requires |board| <= 5
    ensures Plays(lists, board, draws, pick, [], next) <==> next == 0
  {}

  lemma LastPlayed(lists: seq<seq<Entry>>, board: seq<Card>, draws: nat -> real, pick: nat -> nat, log: seq<Showdown>, next: nat)
    returns (before: nat)
    requires |board| <= 5 && log != [] && Plays(lists, board, draws, pick, log, next)
    ensures var n := |log| - 1;
            Plays(lists, board, draws, pick, log[..n], before) && PlaysOne(lists, board, draws, pick(n), before, log[n], next)
  {
    hide PlaysOne;
    var n := |log| - 1;
    before :| Plays(lists, board, draws, pick, log[..n], before) && PlaysOne(lists, board, draws, pick(n), before, log[n], next);
  }

  /** The draws and picks determine every trial. */
  lemma {:induction false} PlaysOnce(lists: seq<seq<Entry>>, board: seq<Card>, draws: nat -> real, pick: nat -> nat,
                                     a: seq<Showdown>, nextA: nat, b: seq<Showdown>, nextB: nat)
    requires PositiveLists(lists) && |board| <= 5 && |a| == |b|
    requires Plays(lists, board, draws, pick, a, nextA) && Plays(lists, board, draws, pick, b, nextB)
    ensures a == b && nextA == nextB
    decreases |a|
  {
    hide Plays, PlaysOne, PositiveLists;
    if a == [] {
      PlaysNothing(lists, board, draws, pick, nextA);
      PlaysNothing(lists, board, draws, pick, nextB);
    } else {
      var n := |a| - 1;
      var i := LastPlayed(lists, board, draws, pick, a, nextA);
      var j := LastPlayed(lists, board, draws, pick, b, nextB);
      PlaysOnce(lists, board, draws, pick, a[..n], i, b[..n], j);
      OneTrial(lists, board, draws, pick(n), i, a[n], nextA, b[n], nextB);
      assert a == a[..n] + [a[n]] && b == b[..n] + [b[n]];
    }
  }

  lemma OneTrial(lists: seq<seq<Entry>>, board: seq<Card>, draws: nat -> real, choice: nat, start: nat,
                 d: Showdown, nextD: nat, e: Showdown, nextE: nat)
    requires PositiveLists(lists) && |board| <= 5
    requires PlaysOne(lists, board, draws, choice, start, d, nextD) && PlaysOne(lists, board, draws, choice, start, e, nextE)
    ensures d == e && nextD == nextE
  {
    hide PositiveLists, FirstAccepted, TupleProduct, Joined, PickedRunout, HandKeys;
    var a :| FirstAccepted(lists, board, draws, start, a, nextD) && Joined(board, a).Some? && PickedRunout(board, a, choice).Some?
      && d == Showdown(HandKeys(a, board + PickedRunout(board, a, choice).value), 1.0);
    var b :| FirstAccepted(lists, board, draws, start, b, nextE) && Joined(board, b).Some? && PickedRunout(board, b, choice).Some?
      && e == Showdown(HandKeys(b, board + PickedRunout(board, b, choice).value), 1.0);
    FirstAcceptedOnce(lists, board, draws, start, a, nextD, b, nextE);
  }

  /** A trial that gets stuck is not played. */
  lemma StuckStops(lists: seq<seq<Entry>>, board: seq<Card>, draws: nat -> real, choice: nat, start: nat, d: Showdown, next: nat)
    requires PositiveLists(lists) && |board| <= 5 && Stuck(lists, board, draws, choice, start)
    ensures !PlaysOne(lists, board, draws, choice, start, d, next)
  {
    hide PositiveLists, TupleProduct, Joined, PickedRunout, HandKeys, DrawnAt;
    if PlaysOne(lists, board, draws, choice, start, d, next) {
      var a :| FirstAccepted(lists, board, draws, start, a, next) && Joined(board, a).Some? && PickedRunout(board, a, choice).Some?;
      if !NoneAccepted(lists, board, draws, start, MAX_SAMPLING_ATTEMPTS) {
        var b, nextB: nat :| FirstAccepted(lists, board, draws, start, b, nextB) && Joined(board, b).Some? && PickedRunout(board, b, choice).None?;
        FirstAcceptedOnce(lists, board, draws, start, a, next, b, nextB);
      }
      assert false;
    }
  }

  /** A run that plays all its trials has no stuck one. */
  lemma {:induction false} PlayedIsNotDry(lists: seq<seq<Entry>>, board: seq<Card>, draws: nat -> real, pick: nat -> nat,
                                          log: seq<Showdown>, next: nat)
    requires PositiveLists(lists) && |board| <= 5 && Plays(lists, board, draws, pick, log, next)
    ensures !RunsDry(lists, board, draws, pick, |log|)
    decreases |log|
  {
    hide Plays, PlaysOne, Stuck, PositiveLists;
    if RunsDry(lists, board, draws, pick, |log|) {
      var early: seq<Showdown>, at: nat :| |early| < |log| && Plays(lists, board, draws, pick, early, at)
                                           && Stuck(lists, board, draws, pick(|early|), at);
      var n := |log| - 1;
      var before := LastPlayed(lists, board, draws, pick, log, next);
      if |early| == n {
        PlaysOnce(lists, board, draws, pick, early, at, log[..n], before);
        StuckStops(lists, board, draws, pick(n), before, log[n], next);
      } else {
        PlayedIsNotDry(lists, board, draws, pick, log[..n], before);
      }
      assert false;
    }
  }

  /**
   * The Monte Carlo loop; pick chooses one of the runouts for every trial. The weights act once, when
   * the tuples are drawn: every accepted trial has weight one.
   */
  method SampleMultiway(seats: seq<int>, lists: seq<seq<Entry>>, board: seq<Card>, weighted: bool, trials: nat,
                        draws: nat -> real, pick: nat -> nat)
    returns (acc: Option<MultiwayAccumulator>, ghost next: nat)
    requires Distinct(seats) && seats != [] && |lists| == |seats| && PositiveLists(lists) && |board| <= 5
    requires forall n :: 0.0 <= draws(n) < 1.0
    ensures acc.None? <==> RunsDry(lists, board, draws, pick, trials)
    ensures acc.Some? ==>
              fresh(acc.value) && acc.value.Valid() && acc.value.seats == seats && acc.value.weighted == weighted
              && |acc.value.log| == trials && Plays(lists, board, draws, pick, acc.value.log, next)
  {
    hide MultiwayAccumulator.Valid, Runouts, BestHandKey, PositiveLists, TupleProduct, Joined, Distinct, FirstAccepted, HandKeys,
         Plays, NoneAccepted;
    var tally := new MultiwayAccumulator(seats, weighted);
    var at := 0;
    next := 0;
    NothingPlayed(lists, board, draws, pick);
    for t := 0 to trials
      invariant fresh(tally) && tally.Valid() && |tally.log| == t
      invariant next == at && Plays(lists, board, draws, pick, tally.log, next)
    {
      var tuple;
      tuple, at := SampleTuple(lists, board, draws, at);
      if tuple.None? {
        NoEmptyDraw(lists, board, draws, next);
        return None, next;
      }
      TupleLength(lists, tuple.value);
      var known := Join(board, tuple.value);
      var runouts := Runouts(known.value, 5 - |board|);
      if runouts == [] {
        return None, next;
      }
      var runout := runouts[pick(t) % |runouts|];
      ghost var log := tally.log;
      tally.Add(SeatKeys(seats, tuple.value, board + runout), 1.0);
      PlaysMore(lists, board, draws, pick, log, next, tuple.value, at, tally.log);
      next := at;
    }
    PlayedIsNotDry(lists, board, draws, pick, tally.log, next);
    acc := Some(tally);
  }

  lemma NothingPlayed(lists: seq<seq<Entry>>, board: seq<Card>, draws: nat -> real, pick: nat -> nat)
    requires |board| <= 5
    ensures Plays(lists, board, draws, pick, [], 0)
  {}

  lemma PlaysMore(lists: seq<seq<Entry>>, board: seq<Card>, draws: nat -> real, pick: nat -> nat,
                  log: seq<Showdown>, at: nat, tuple: seq<Entry>, next: nat, more: seq<Showdown>)
    requires |board| <= 5 && Plays(lists, board, draws, pick, log, at)
    requires FirstAccepted(lists, board, draws, at, tuple, next) && tuple in TupleProduct(lists)
    requires Joined(board, tuple).Some? && PickedRunout(board, tuple, pick(|log|)).Some?
    requires more == log + [Showdown(HandKeys(tuple, board + PickedRunout(board, tuple, pick(|log|)).value), 1.0)]
    ensures Plays(lists, board, draws, pick, more, next)
  {
    hide FirstAccepted, TupleProduct, Joined, PickedRunout, HandKeys;
    assert more[..|log|] == log;
    assert PlaysOne(lists, board, draws, pick(|log|), at, more[|log|], next);
  }

  /** A seat without a combo accepts no round. */
  lemma NoEmptyDraw(lists: seq<seq<Entry>>, board: seq<Card>, draws: nat -> real, start: nat)
    ensures (exists i :: 0 <= i < |lists| && lists[i] == []) ==> NoneAccepted(lists, board, draws, start, MAX_SAMPLING_ATTEMPTS)
  {
    if i :| 0 <= i < |lists| && lists[i] == [] {
      forall round: nat, t | round < MAX_SAMPLING_ATTEMPTS ensures !AcceptedIn(lists, board, draws, start, round, t) {
        assert |t| != |lists| || !Selected(lists[i], draws(RoundStart(start, round, |lists|) + i), t[i]);
      }
    }
  }

  lemma TupleLength(lists: seq<seq<Entry>>, tuple: seq<Entry>)
    requires tuple in TupleProduct(lists)
    ensures |tuple| == |lists|
  {
    TupleMember(lists, tuple);
  }

  // ---------------------------------------------------------------- the sampled result

  /** The equities of the sample, and the square of every standard error. */
  datatype SampledEquity = SampledEquity(equity: MultiwayEquity, squaredErrors: map<int, real>)

  /** The variance of a seat's share over the sample. */
  function Variance(log: seq<Showdown>, players: nat, i: nat): real
    requires ValidLog(log, players) && i < players && TotalWeight(log) > 0.0
  {
    Ratio(Sum(Squares(Shares(log, players, i))), TotalWeight(log)) - Square(EquityOf(log, players, i))
  }

  predicate UnitTrials(log: seq<Showdown>) {
    forall k :: 0 <= k < |log| ==> log[k].weight == 1.0
  }

  /** The shares of the played trials, and their variances over the number of trials, none of them negative. */
  ghost predicate ReportsSampled(r: SampledEquity, seats: seq<int>, log: seq<Showdown>) {
    && log != [] && Distinct(seats) && ReportsMultiway(Some(r.equity), seats, log, |log|)
    && r.squaredErrors.Keys == Elements(seats)
    && forall i :: 0 <= i < |seats| ==>
         seats[i] in Elements(seats) && Variance(log, |seats|, i) >= 0.0
         && r.squaredErrors[seats[i]] == Ratio(Variance(log, |seats|, i), |log| as real)
  }

  lemma {:induction false} PlaysUnits(lists: seq<seq<Entry>>, board: seq<Card>, draws: nat -> real, pick: nat -> nat, log: seq<Showdown>, next: nat)
    requires |board| <= 5 && Plays(lists, board, draws, pick, log, next)
    ensures UnitTrials(log)
    decreases |log|
  {
    hide Plays, FirstAccepted, TupleProduct, HandKeys;
    if log != [] {
      var before := LastPlayed(lists, board, draws, pick, log, next);
      PlaysUnits(lists, board, draws, pick, log[..|log| - 1], before);
      forall k | 0 <= k < |log| ensures log[k].weight == 1.0 {
        if k < |log| - 1 { assert log[k] == log[..|log| - 1][k]; }
      }
    }
  }

  /** One seat's variance, from what the tally holds. */
  lemma SeatVariance(acc: MultiwayAccumulator, i: nat)
    requires acc.Valid() && UnitTrials(acc.log) && acc.log != [] && i < |acc.seats|
    ensures var total := if acc.weighted then acc.totalMass else acc.trials as real;
            && ValidLog(acc.log, |acc.seats|) && TotalWeight(acc.log) == total == |acc.log| as real == acc.trials as real > 0.0
            && Ratio(Tallied(acc.squared, acc.seats[i]), total) - Square(EquityOf(acc.log, |acc.seats|, i))
               == Variance(acc.log, |acc.seats|, i) >= 0.0
  {
    hide Ratio, Sum, Square, Shares, Squares, TotalWeight, EquityOf, BestKey;
    SplitTieVariance(acc.log, |acc.seats|, i);
  }

  lemma SomeSeat(acc: MultiwayAccumulator)
    requires acc.Valid()
    ensures |acc.seats| > 0 && Distinct(acc.seats)
  {}

  /** The loop over the equities that squares the standard errors. */
  method SquaredErrors(acc: MultiwayAccumulator, equities: map<int, real>) returns (errors: map<int, real>)
    requires acc.Valid() && UnitTrials(acc.log) && acc.log != []
    requires TotalWeight(acc.log) > 0.0 && ValidLog(acc.log, |acc.seats|)
    requires forall i :: 0 <= i < |acc.seats| ==>
               acc.seats[i] in equities && equities[acc.seats[i]] == EquityOf(acc.log, |acc.seats|, i)
    ensures forall s :: s in errors <==> s in acc.seats
    ensures forall i :: 0 <= i < |acc.seats| ==>
              acc.seats[i] in errors && Variance(acc.log, |acc.seats|, i) >= 0.0
              && errors[acc.seats[i]] == Ratio(Variance(acc.log, |acc.seats|, i), |acc.log| as real)
  {
    hide MultiwayAccumulator.Valid, Ratio, Square, TotalWeight, EquityOf, TieProbability, Variance, Tallied, ValidLog, UnitTrials, Distinct;
    SomeSeat(acc);
    SeatVariance(acc, 0);
    var total := if acc.weighted then acc.totalMass else acc.trials as real;
    errors := map[];
    for i := 0 to |acc.seats|
      invariant forall s :: s in errors <==> s in acc.seats[..i]
      invariant forall j :: 0 <= j < i ==>
                  acc.seats[j] in errors && Variance(acc.log, |acc.seats|, j) >= 0.0
                  && errors[acc.seats[j]] == Ratio(Variance(acc.log, |acc.seats|, j), |acc.log| as real)
    {
      var seat := acc.seats[i];
      SeatVariance(acc, i);
      NotBefore(acc.seats, i);
      assert acc.seats[..i + 1] == acc.seats[..i] + [seat];
      var variance := Ratio(Tallied(acc.squared, seat), total) - Square(equities[seat]);
      errors := errors[seat := Ratio(if variance > 0.0 then variance else 0.0, acc.trials as real)];
    }
    assert acc.seats[..|acc.seats|] == acc.seats;
  }

  lemma NotBefore(seats: seq<int>, i: nat)
    requires Distinct(seats) && i < |seats|
    ensures forall j :: 0 <= j < i ==> seats[j] != seats[i]
  {}

  /** _multiway_result for a sample. */
  method ReportSample(acc: MultiwayAccumulator) returns (r: SampledEquity)
    requires acc.Valid() && UnitTrials(acc.log) && acc.log != []
    ensures ReportsSampled(r, acc.seats, acc.log)
  {
    hide MultiwayAccumulator.Valid, Ratio, Square, EquityOf, TieProbability, Variance, ValidLog, UnitTrials, Distinct;
    SomeSeat(acc);
    SeatVariance(acc, 0);
    hide TotalWeight;
    var equity := Report(acc);
    var errors := SquaredErrors(acc, equity.value.equityBySeat);
    assert forall s :: s in errors.Keys <==> s in errors;
    assert forall s :: s in errors <==> s in Elements(acc.seats);
    assert errors.Keys == Elements(acc.seats);
    r := SampledEquity(equity.value, errors);
  }

  /** evaluate_multiway with Monte Carlo sampling over a stream of draws: the report of the trials that they determine. */
  method EvaluateMultiwaySampled(seats: seq<int>, players: seq<Player>, board: seq<Card>, trials: nat, draws: nat -> real, pick: nat -> nat)
    returns (r: Option<SampledEquity>)
    requires |seats| == |players| && forall i :: 0 <= i < |players| ==> ValidPlayer(players[i])
    requires forall n :: 0.0 <= draws(n) < 1.0
    ensures var sorted := SortCards(board);
            var lists := ComboLists(players, Elements(sorted));
            && (r.None? <==> !(Distinct(seats) && Known(sorted) && |sorted| <= 5 && |players| >= 2 && AllAdmitted(lists, sorted) && trials > 0)
                             || RunsDry(lists, sorted, draws, pick, trials))
            && (r.Some? ==>
                  exists log, next: nat :: |log| == trials && Plays(lists, sorted, draws, pick, log, next) && ReportsSampled(r.value, seats, log))
  {
    hide MultiwayAccumulator.Valid, ComboLists, AllAdmitted, SortCards, Distinct, Plays, RunsDry, ReportsSampled, PositiveLists, Elements,
         ValidPlayer, Known;
    var sorted := SortCards(board);
    if !Known(sorted) {
      return None;
    }
    var prepared := PrepareSeats(players, sorted);
    if prepared.None? || |players| < 2 || trials == 0 || |sorted| > 5 || !Distinct(seats) {
      return None;
    }
    PlayersPositive(players, Elements(sorted));
    var acc, next := SampleMultiway(seats, prepared.value, sorted, AnyRange(players), trials, draws, pick);
    if acc.None? {
      return None;
    }
    ghost var log := acc.value.log;
    PlaysUnits(prepared.value, sorted, draws, pick, log, next);
    var sampled := ReportSample(acc.value);
    r := Some(sampled);
  }
}
