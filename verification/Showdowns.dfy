/** Showdowns between compared hand keys, and the accumulators that tally them. */
module Showdowns {
  import opened Cards
  import opened Sums

  /** One trial: the hand key of every player and the trial's weight. */
  datatype Showdown = Showdown(keys: seq<Key>, weight: real)

  function BestKey(keys: seq<Key>): (best: Key)
    requires keys != []
    ensures best in keys && forall i :: 0 <= i < |keys| ==> KeyLe(keys[i], best)
  {
    var n := |keys| - 1;
    KeyOrder(keys[n], keys[n], keys[n]);
    if n == 0 then keys[0]
    else
      var best := BestKey(keys[..n]);
      KeyOrder(keys[n], best, best);
      assert forall i :: 0 <= i < n ==> KeyLe(keys[..n][i], best);
      if KeyLe(keys[n], best) then best
      else
        assert forall i :: 0 <= i < n ==> KeyLe(keys[i], keys[n]) by { Above(keys[..n], best, keys[n]); }
        keys[n]
  }

  lemma Above(keys: seq<Key>, a: Key, b: Key)
    requires KeyLe(a, b) && forall i :: 0 <= i < |keys| ==> KeyLe(keys[i], a)
    ensures forall i :: 0 <= i < |keys| ==> KeyLe(keys[i], b)
  {
    forall i | 0 <= i < |keys| ensures KeyLe(keys[i], b) { KeyOrder(keys[i], a, b); }
  }

  function CountKey(keys: seq<Key>, key: Key): nat {
    if keys == [] then 0 else CountKey(keys[..|keys| - 1], key) + if keys[|keys| - 1] == key then 1 else 0
  }

  lemma {:induction false} CountPresent(keys: seq<Key>, key: Key)
    ensures key in keys <==> CountKey(keys, key) > 0
  {
    if keys != [] {
      CountPresent(keys[..|keys| - 1], key);
      assert keys == keys[..|keys| - 1] + [keys[|keys| - 1]];
    }
  }

  predicate ValidShowdown(d: Showdown, players: nat) {
    |d.keys| == players && d.weight > 0.0
  }

  function Winners(d: Showdown): (n: nat)
    requires d.keys != []
    ensures n > 0
  {
    CountPresent(d.keys, BestKey(d.keys));
    CountKey(d.keys, BestKey(d.keys))
  }

  /** What one winner of the showdown receives. */
  function SplitShare(d: Showdown): real
    requires d.keys != []
  {
    d.weight / Winners(d) as real
  }

  /** A player's part of the weight: nothing, or an equal part among the best hands. */
  function Share(d: Showdown, i: nat): real
    requires i < |d.keys|
  {
    if d.keys[i] == BestKey(d.keys) then SplitShare(d) else 0.0
  }

  function TieWeight(d: Showdown): real
    requires d.keys != []
  {
    if Winners(d) > 1 then d.weight else 0.0
  }

  predicate ValidLog(log: seq<Showdown>, players: nat) {
    players > 0 && forall k :: 0 <= k < |log| ==> ValidShowdown(log[k], players)
  }

  function Weights(log: seq<Showdown>): (s: seq<real>)
    ensures |s| == |log| && forall k :: 0 <= k < |log| ==> s[k] == log[k].weight
  {
    seq(|log|, k requires 0 <= k < |log| => log[k].weight)
  }

  function Shares(log: seq<Showdown>, players: nat, i: nat): (s: seq<real>)
    requires ValidLog(log, players) && i < players
    ensures |s| == |log| && forall k :: 0 <= k < |log| ==> s[k] == Share(log[k], i)
  {
    seq(|log|, k requires 0 <= k < |log| => Share(log[k], i))
  }

  function TieWeights(log: seq<Showdown>, players: nat): (s: seq<real>)
    requires ValidLog(log, players)
    ensures |s| == |log| && forall k :: 0 <= k < |log| ==> s[k] == TieWeight(log[k])
  {
    seq(|log|, k requires 0 <= k < |log| => TieWeight(log[k]))
  }

  function TotalWeight(log: seq<Showdown>): real {
    Sum(Weights(log))
  }

  /** The part of the total weight that a player wins. */
  function EquityOf(log: seq<Showdown>, players: nat, i: nat): real
    requires ValidLog(log, players) && i < players && TotalWeight(log) != 0.0
  {
    Ratio(Sum(Shares(log, players, i)), TotalWeight(log))
  }

  function TieProbability(log: seq<Showdown>, players: nat): real
    requires ValidLog(log, players) && TotalWeight(log) != 0.0
  {
    Ratio(Sum(TieWeights(log, players)), TotalWeight(log))
  }

  lemma WeightPositive(log: seq<Showdown>, players: nat)
    requires ValidLog(log, players) && log != []
    ensures TotalWeight(log) > 0.0
  {
    SumNonNegative(Weights(log));
  }

  lemma LogSnoc(log: seq<Showdown>, players: nat, d: Showdown)
    requires ValidLog(log, players) && ValidShowdown(d, players)
    ensures ValidLog(log + [d], players)
    ensures TotalWeight(log + [d]) == TotalWeight(log) + d.weight
    ensures Sum(TieWeights(log + [d], players)) == Sum(TieWeights(log, players)) + TieWeight(d)
    ensures forall i: nat :: i < players ==>
              Sum(Shares(log + [d], players, i)) == Sum(Shares(log, players, i)) + Share(d, i)
              && Sum(Squares(Shares(log + [d], players, i))) == Sum(Squares(Shares(log, players, i))) + Square(Share(d, i))
  {
    hide Share, TieWeight, Square;
    assert Weights(log + [d]) == Weights(log) + [d.weight];
    assert TieWeights(log + [d], players) == TieWeights(log, players) + [TieWeight(d)];
    SumSnoc(Weights(log), d.weight);
    SumSnoc(TieWeights(log, players), TieWeight(d));
    forall i: nat | i < players
      ensures Sum(Shares(log + [d], players, i)) == Sum(Shares(log, players, i)) + Share(d, i)
      ensures Sum(Squares(Shares(log + [d], players, i))) == Sum(Squares(Shares(log, players, i))) + Square(Share(d, i))
    {
      var shares := Shares(log, players, i);
      assert Shares(log + [d], players, i) == shares + [Share(d, i)];
      assert Squares(shares + [Share(d, i)]) == Squares(shares) + [Square(Share(d, i))];
      SumSnoc(shares, Share(d, i));
      SumSnoc(Squares(shares), Square(Share(d, i)));
    }
  }

  // ---------------------------------------------------------------- multiway tallies

  type SeatKey = (int, Key)

  function KeysOf(keys: seq<SeatKey>): (r: seq<Key>)
    ensures |r| == |keys| && forall i :: 0 <= i < |keys| ==> r[i] == keys[i].1
  {
    seq(|keys|, i requires 0 <= i < |keys| => keys[i].1)
  }

  predicate ForSeats(keys: seq<SeatKey>, seats: seq<int>) {
    |keys| == |seats| && forall i :: 0 <= i < |keys| ==> keys[i].0 == seats[i]
  }

  /** The seats whose key is the best one, in order. */
  function WinningSeats(keys: seq<SeatKey>, best: Key): (r: seq<int>)
    ensures |r| == CountKey(KeysOf(keys), best)
    ensures forall s :: s in r <==> exists i :: 0 <= i < |keys| && keys[i] == (s, best)
  {
    if keys == [] then []
    else
      var n := |keys| - 1;
      assert KeysOf(keys)[..n] == KeysOf(keys[..n]);
      WinningSeats(keys[..n], best) + if keys[n].1 == best then [keys[n].0] else []
  }

  lemma WinningSeatsDistinct(keys: seq<SeatKey>, best: Key, seats: seq<int>)
    requires ForSeats(keys, seats) && Distinct(seats)
    ensures Distinct(WinningSeats(keys, best))
  {
    if keys != [] {
      var n := |keys| - 1;
      WinningSeatsDistinct(keys[..n], best, seats[..n]);
      var r := WinningSeats(keys[..n], best);
      forall k | 0 <= k < |r| ensures r[k] != keys[n].0 {
        assert r[k] in r;
      }
    }
  }

  function Tallied(m: map<int, real>, seat: int): real {
    if seat in m then m[seat] else 0.0
  }

  /** Every seat is credited with its shares of the log. */
  ghost predicate Balanced(seats: seq<int>, log: seq<Showdown>, wins: map<int, real>, squared: map<int, real>)
    requires ValidLog(log, |seats|)
  {
    forall i :: 0 <= i < |seats| ==>
      Tallied(wins, seats[i]) == Sum(Shares(log, |seats|, i))
      && Tallied(squared, seats[i]) == Sum(Squares(Shares(log, |seats|, i)))
  }

  /** The seats in winners, and no others, gained the amount. */
  ghost predicate Credited(before: map<int, real>, after: map<int, real>, winners: seq<int>, amount: real) {
    forall s :: Tallied(after, s) == Tallied(before, s) + if s in winners then amount else 0.0
  }

  lemma SquareZero()
    ensures Square(0.0) == 0.0
  {}

  lemma WinnerShare(keys: seq<SeatKey>, best: Key, seats: seq<int>, i: nat)
    requires ForSeats(keys, seats) && Distinct(seats) && i < |seats|
    ensures seats[i] in WinningSeats(keys, best) <==> keys[i].1 == best
  {
    if seats[i] in WinningSeats(keys, best) {
      var k :| 0 <= k < |keys| && keys[k] == (seats[i], best);
      assert seats[k] == seats[i];
    }
    if keys[i].1 == best {
      assert keys[i] == (seats[i], best);
    }
  }

  lemma CreditSeats(seats: seq<int>, log: seq<Showdown>, d: Showdown, winners: seq<int>,
                    wins: map<int, real>, squared: map<int, real>, moreWins: map<int, real>, moreSquared: map<int, real>)
    requires ValidLog(log, |seats|) && Balanced(seats, log, wins, squared) && ValidShowdown(d, |seats|)
    requires forall i :: 0 <= i < |seats| ==> (seats[i] in winners <==> d.keys[i] == BestKey(d.keys))
    requires Credited(wins, moreWins, winners, SplitShare(d)) && Credited(squared, moreSquared, winners, Square(SplitShare(d)))
    ensures ValidLog(log + [d], |seats|) && Balanced(seats, log + [d], moreWins, moreSquared)
  {
    LogSnoc(log, |seats|, d);
    SquareZero();
    hide ValidLog, Sum, Square, SplitShare, Shares, Squares, Tallied, BestKey;
    forall i | 0 <= i < |seats|
      ensures Tallied(moreWins, seats[i]) == Sum(Shares(log + [d], |seats|, i))
      ensures Tallied(moreSquared, seats[i]) == Sum(Squares(Shares(log + [d], |seats|, i)))
    {
      assert Tallied(moreWins, seats[i]) == Tallied(wins, seats[i]) + Share(d, i);
      assert Tallied(moreSquared, seats[i]) == Tallied(squared, seats[i]) + Square(Share(d, i));
    }
  }

  lemma CreditBalances(seats: seq<int>, log: seq<Showdown>, keys: seq<SeatKey>, weight: real,
                       wins: map<int, real>, squared: map<int, real>, moreWins: map<int, real>, moreSquared: map<int, real>)
    requires Distinct(seats) && ValidLog(log, |seats|) && Balanced(seats, log, wins, squared)
    requires ForSeats(keys, seats) && weight > 0.0
    requires var d := Showdown(KeysOf(keys), weight); var winners := WinningSeats(keys, BestKey(d.keys));
             Credited(wins, moreWins, winners, SplitShare(d)) && Credited(squared, moreSquared, winners, Square(SplitShare(d)))
    ensures var d := Showdown(KeysOf(keys), weight);
            ValidLog(log + [d], |seats|) && Balanced(seats, log + [d], moreWins, moreSquared)
  {
    hide Credited, Balanced, BestKey, SplitShare, Square, ValidLog;
    var d := Showdown(KeysOf(keys), weight);
    var best := BestKey(d.keys);
    var winners := WinningSeats(keys, best);
    forall i | 0 <= i < |seats| ensures seats[i] in winners <==> d.keys[i] == best {
      WinnerShare(keys, best, seats, i);
    }
    CreditSeats(seats, log, d, winners, wins, squared, moreWins, moreSquared);
  }

  /** _MultiwayAccumulator: the win mass of every seat, ties split equally. */
  class MultiwayAccumulator {
    const seats: seq<int>
    const weighted: bool
    var trials: nat
    var totalMass: real
    var tieMass: real
    var wins: map<int, real>
    var squared: map<int, real>
    ghost var log: seq<Showdown>

    ghost predicate Valid()
      reads this
    {
      && Distinct(seats) && ValidLog(log, |seats|)
      && trials == |log|
      && totalMass == (if weighted then TotalWeight(log) else 0.0)
      && tieMass == Sum(TieWeights(log, |seats|))
      && Balanced(seats, log, wins, squared)
    }

    constructor (seats: seq<int>, weighted: bool)
      requires Distinct(seats) && seats != []
      ensures Valid() && log == [] && this.seats == seats && this.weighted == weighted
    {
      this.seats, this.weighted := seats, weighted;
      trials, totalMass, tieMass, wins, squared := 0, 0.0, 0.0, map[], map[];
      log := [];
    }

    /** The loop that credits every winner. */
    method Credit(winners: seq<int>, share: real)
      requires Distinct(winners)
      modifies this`wins, this`squared
      ensures Credited(old(wins), wins, winners, share)
      ensures Credited(old(squared), squared, winners, Square(share))
    {
      hide Square;
      for j := 0 to |winners|
        invariant Credited(old(wins), wins, winners[..j], share)
        invariant Credited(old(squared), squared, winners[..j], Square(share))
      {
        var seat := winners[j];
        assert winners[..j + 1] == winners[..j] + [seat];
        assert seat !in winners[..j];
        wins := wins[seat := Tallied(wins, seat) + share];
        squared := squared[seat := Tallied(squared, seat) + Square(share)];
      }
      assert winners[..|winners|] == winners;
    }

    method Add(keys: seq<SeatKey>, weight: real)
      requires Valid() && ForSeats(keys, seats) && weight > 0.0
      modifies this
      ensures Valid() && log == old(log) + [Showdown(KeysOf(keys), weight)]
    {
      hide Square, CountKey, Squares, Shares, TieWeights, Balanced, Credited, Share, WinningSeats, BestKey, KeysOf, Sum;
      ghost var d := Showdown(KeysOf(keys), weight);
      LogSnoc(log, |seats|, d);
      trials := trials + 1;
      var best := BestKey(KeysOf(keys));
      var winners := WinningSeats(keys, best);
      WinningSeatsDistinct(keys, best, seats);
      CountPresent(KeysOf(keys), best);
      var share := weight / |winners| as real;
      Credit(winners, share);
      CreditBalances(seats, log, keys, weight, old(wins), old(squared), wins, squared);
      if |winners| > 1 {
        tieMass := tieMass + weight;
      }
      if weighted {
        totalMass := totalMass + weight;
      }
      log := log + [d];
    }
  }

  // ---------------------------------------------------------------- heads-up tallies

  /** The weight that a player wins outright. */
  function Outright(d: Showdown, i: nat): real
    requires |d.keys| == 2 && i < 2
  {
    if KeyLt(d.keys[1 - i], d.keys[i]) then d.weight else 0.0
  }

  function Outrights(log: seq<Showdown>, i: nat): (s: seq<real>)
    requires ValidLog(log, 2) && i < 2
    ensures |s| == |log| && forall k :: 0 <= k < |log| ==> s[k] == Outright(log[k], i)
  {
    seq(|log|, k requires 0 <= k < |log| => Outright(log[k], i))
  }

  /** The same showdowns, counted once each. */
  function Units(log: seq<Showdown>): (r: seq<Showdown>)
    ensures |r| == |log| && forall k :: 0 <= k < |log| ==> r[k] == log[k].(weight := 1.0)
  {
    seq(|log|, k requires 0 <= k < |log| => log[k].(weight := 1.0))
  }

  lemma CountTwo(a: Key, b: Key, key: Key)
    ensures CountKey([a, b], key) == (if a == key then 1 else 0) + if b == key then 1 else 0
  {
    var both, one := [a, b], [a];
    assert both[..1] == one && one[..0] == [];
    assert CountKey(one, key) == if a == key then 1 else 0;
  }

  /** An equal split of a two-player showdown is the outright win plus half the tie. */
  lemma TwoPlayerShare(d: Showdown, i: nat)
    requires ValidShowdown(d, 2) && i < 2
    ensures Share(d, i) == Outright(d, i) + TieWeight(d) / 2.0
    ensures TieWeight(d) == if d.keys[0] == d.keys[1] then d.weight else 0.0
  {
    var a, b := d.keys[0], d.keys[1];
    assert d.keys == [a, b];
    CountTwo(a, b, BestKey(d.keys));
    KeyOrder(a, b, a);
    assert KeyLe(d.keys[0], BestKey(d.keys)) && KeyLe(d.keys[1], BestKey(d.keys));
  }

  lemma TwoPlayerShares(log: seq<Showdown>, i: nat)
    requires ValidLog(log, 2) && i < 2
    ensures Sum(Shares(log, 2, i)) == Sum(Outrights(log, i)) + Sum(TieWeights(log, 2)) / 2.0
  {
    forall k | 0 <= k < |log| ensures Share(log[k], i) == Outright(log[k], i) + TieWeight(log[k]) / 2.0 {
      TwoPlayerShare(log[k], i);
    }
    var halves := Scale(0.5, TieWeights(log, 2));
    SumScale(0.5, TieWeights(log, 2));
    SumAdd(Outrights(log, i), halves, Shares(log, 2, i));
  }

  lemma OutrightSnoc(log: seq<Showdown>, d: Showdown)
    requires ValidLog(log, 2) && ValidShowdown(d, 2)
    ensures ValidLog(log + [d], 2) && Units(log + [d]) == Units(log) + [d.(weight := 1.0)]
    ensures Sum(Outrights(log + [d], 0)) == Sum(Outrights(log, 0)) + Outright(d, 0)
    ensures Sum(Outrights(log + [d], 1)) == Sum(Outrights(log, 1)) + Outright(d, 1)
  {
    hide Outright;
    assert Outrights(log + [d], 0) == Outrights(log, 0) + [Outright(d, 0)];
    assert Outrights(log + [d], 1) == Outrights(log, 1) + [Outright(d, 1)];
    SumSnoc(Outrights(log, 0), Outright(d, 0));
    SumSnoc(Outrights(log, 1), Outright(d, 1));
  }

  /** The outcome of a heads-up calculation. */
  datatype HeadsUpEquity = HeadsUpEquity(heroWins: nat, villainWins: nat, ties: nat, trials: nat,
                                         heroEquity: real, villainEquity: real, tieProbability: real)

  /** The masses that the heads-up fields hold for a log. */
  ghost predicate Masses(log: seq<Showdown>, hero: real, villain: real, tie: real)
  {
    && ValidLog(log, 2)
    && hero == Sum(Outrights(log, 0)) && villain == Sum(Outrights(log, 1)) && tie == Sum(TieWeights(log, 2))
  }

  lemma OutrightCases(d: Showdown)
    requires ValidShowdown(d, 2)
    ensures Outright(d, 0) == if KeyLt(d.keys[1], d.keys[0]) then d.weight else 0.0
    ensures Outright(d, 1) == if KeyLt(d.keys[0], d.keys[1]) then d.weight else 0.0
    ensures !KeyLt(d.keys[1], d.keys[0]) || !KeyLt(d.keys[0], d.keys[1])
    ensures d.keys[0] == d.keys[1] <==> !KeyLt(d.keys[1], d.keys[0]) && !KeyLt(d.keys[0], d.keys[1])
  {
    KeyOrder(d.keys[0], d.keys[1], d.keys[0]);
  }

  lemma MassesSnoc(log: seq<Showdown>, d: Showdown, hero: real, villain: real, tie: real)
    requires Masses(log, hero, villain, tie) && ValidShowdown(d, 2)
    ensures Masses(log + [d], hero + Outright(d, 0), villain + Outright(d, 1),
                   tie + if d.keys[0] == d.keys[1] then d.weight else 0.0)
    ensures TotalWeight(log + [d]) == TotalWeight(log) + d.weight
  {
    OutrightSnoc(log, d);
    LogSnoc(log, 2, d);
    TwoPlayerShare(d, 0);
  }

  lemma MassesAreEquities(log: seq<Showdown>, hero: real, villain: real, tie: real)
    requires Masses(log, hero, villain, tie) && log != []
    ensures TotalWeight(log) > 0.0
    ensures Ratio(hero + tie / 2.0, TotalWeight(log)) == EquityOf(log, 2, 0)
    ensures Ratio(villain + tie / 2.0, TotalWeight(log)) == EquityOf(log, 2, 1)
    ensures Ratio(tie, TotalWeight(log)) == TieProbability(log, 2)
  {
    hide Ratio, Sum, Shares, Outrights, TieWeights, Weights, TotalWeight, ValidLog;
    WeightPositive(log, 2);
    TwoPlayerShares(log, 0);
    TwoPlayerShares(log, 1);
  }

  /** The numbers of outcomes that the heads-up fields hold for a log. */
  ghost predicate Counts(log: seq<Showdown>, hero: real, villain: real, tie: real, trials: int) {
    && ValidLog(log, 2) && trials == |log|
    && Masses(Units(log), hero, villain, tie) && TotalWeight(Units(log)) == trials as real
  }

  lemma CountsSnoc(log: seq<Showdown>, d: Showdown, hero: real, villain: real, tie: real, trials: int)
    requires Counts(log, hero, villain, tie, trials) && ValidShowdown(d, 2)
    ensures Counts(log + [d], hero + Outright(d.(weight := 1.0), 0), villain + Outright(d.(weight := 1.0), 1),
                   tie + if d.keys[0] == d.keys[1] then 1.0 else 0.0, trials + 1)
  {
    MassesSnoc(Units(log), d.(weight := 1.0), hero, villain, tie);
    OutrightSnoc(log, d);
  }

  /** _Accumulator: outright wins, ties and trials, counted and weighed. */
  class Accumulator {
    const weighted: bool
    var heroWins: nat
    var villainWins: nat
    var ties: nat
    var trials: nat
    var heroMass: real
    var villainMass: real
    var tieMass: real
    var totalMass: real
    ghost var log: seq<Showdown>

    ghost predicate Counted()
      reads this
    {
      Counts(log, heroWins as real, villainWins as real, ties as real, trials)
    }

    ghost predicate Weighed()
      reads this
    {
      Masses(log, heroMass, villainMass, tieMass) && totalMass == TotalWeight(log)
    }

    ghost predicate Valid()
      reads this
    {
      ValidLog(log, 2) && trials == |log| && Counted() && (weighted ==> Weighed())
    }

    constructor (weighted: bool)
      ensures Valid() && log == [] && this.weighted == weighted
    {
      this.weighted := weighted;
      heroWins, villainWins, ties, trials := 0, 0, 0, 0;
      heroMass, villainMass, tieMass, totalMass := 0.0, 0.0, 0.0, 0.0;
      log := [];
    }

    /** The counting half of add. */
    method CountOutcome(d: Showdown)
      requires ValidShowdown(d, 2)
      modifies this`heroWins, this`villainWins, this`ties, this`trials
      ensures trials == old(trials) + 1
      ensures heroWins as real == old(heroWins as real) + Outright(d.(weight := 1.0), 0)
      ensures villainWins as real == old(villainWins as real) + Outright(d.(weight := 1.0), 1)
      ensures ties as real == old(ties as real) + if d.keys[0] == d.keys[1] then 1.0 else 0.0
    {
      OutrightCases(d.(weight := 1.0));
      hide KeyLt, Outright;
      trials := trials + 1;
      if KeyLt(d.keys[1], d.keys[0]) {
        heroWins := heroWins + 1;
      } else if KeyLt(d.keys[0], d.keys[1]) {
        villainWins := villainWins + 1;
      } else {
        ties := ties + 1;
      }
    }

    /** The weighing half of add. */
    method WeighOutcome(d: Showdown)
      requires ValidShowdown(d, 2)
      modifies this`heroMass, this`villainMass, this`tieMass, this`totalMass
      ensures totalMass == old(totalMass) + d.weight
      ensures heroMass == old(heroMass) + Outright(d, 0)
      ensures villainMass == old(villainMass) + Outright(d, 1)
      ensures tieMass == old(tieMass) + if d.keys[0] == d.keys[1] then d.weight else 0.0
    {
      OutrightCases(d);
      hide KeyLt, Outright;
      totalMass := totalMass + d.weight;
      if KeyLt(d.keys[1], d.keys[0]) {
        heroMass := heroMass + d.weight;
      } else if KeyLt(d.keys[0], d.keys[1]) {
        villainMass := villainMass + d.weight;
      } else {
        tieMass := tieMass + d.weight;
      }
    }

    method Add(heroKey: Key, villainKey: Key, weight: real)
      requires Valid() && weight > 0.0
      modifies this
      ensures Valid() && log == old(log) + [Showdown([heroKey, villainKey], weight)]
    {
      hide Masses, TotalWeight, Outright, Outrights, ValidLog, Units, Counts, KeyLt;
      var d := Showdown([heroKey, villainKey], weight);
      CountsSnoc(log, d, heroWins as real, villainWins as real, ties as real, trials);
      if weighted {
        MassesSnoc(log, d, heroMass, villainMass, tieMass);
        WeighOutcome(d);
      }
      CountOutcome(d);
      log := log + [d];
    }

    /** _result for exact trials; None is an InvalidAnalysisInput. */
    method Result() returns (r: Option<HeadsUpEquity>)
      requires Valid()
      ensures r.None? <==> log == []
      ensures r.Some? ==>
                var counted := if weighted then log else Units(log);
                TotalWeight(counted) > 0.0
                && r.value.trials == |log|
                && r.value.heroEquity == EquityOf(counted, 2, 0)
                && r.value.villainEquity == EquityOf(counted, 2, 1)
                && r.value.tieProbability == TieProbability(counted, 2)
    {
      if log != [] {
        WeightPositive(log, 2);
        MassesAreEquities(Units(log), heroWins as real, villainWins as real, ties as real);
        if weighted {
          MassesAreEquities(log, heroMass, villainMass, tieMass);
        }
      }
      hide Masses, Units, TotalWeight, Ratio;
      if trials == 0 || (weighted && totalMass == 0.0) {
        return None;
      }
      var hero, villain, tie, total := heroWins as real, villainWins as real, ties as real, trials as real;
      if weighted {
        hero, villain, tie, total := heroMass, villainMass, tieMass, totalMass;
      }
      r := Some(HeadsUpEquity(heroWins, villainWins, ties, trials,
                              Ratio(hero + tie / 2.0, total), Ratio(villain + tie / 2.0, total), Ratio(tie, total)));
    }
  }
}
