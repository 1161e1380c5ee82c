/** What the rejection rounds of the joint sampler draw, and which round they return. */
module JointDraws {
  import opened Cards
  import opened Combos
  import opened JointSampling
  import opened JointExact
  import opened Sums

  // ---------------------------------------------------------------- accepted rounds

  lemma {:induction false} FlattenCards(seats: seq<int>, a: Assignment, c: Card)
    requires forall x :: x in seats ==> x in a
    ensures c in Flatten(seats, a) <==> exists s :: s in seats && (c == a[s].0 || c == a[s].1)
  {
    if seats != [] {
      var seat := seats[0];
      assert seat in seats && seat in a;
      assert seats == [seat] + seats[1..];
      FlattenCards(seats[1..], a, c);
      var first := [a[seat].0, a[seat].1];
      assert c in first <==> c == a[seat].0 || c == a[seat].1;
    }
  }

  lemma DistinctPairThen(x: Card, y: Card, rest: seq<Card>)
    ensures Distinct([x, y] + rest) <==> x != y && x !in rest && y !in rest && Distinct(rest)
  {
    var all := [x, y] + rest;
    assert all[0] == x && all[1] == y && all[2..] == rest;
    if Distinct(all) {
      forall i | 0 <= i < |rest| ensures rest[i] != x && rest[i] != y {
        assert all[i + 2] == rest[i] && all[0] != all[i + 2] && all[1] != all[i + 2];
      }
      forall i, j | 0 <= i < j < |rest| ensures rest[i] != rest[j] { assert all[i + 2] == rest[i] && all[j + 2] == rest[j]; }
    }
    if x != y && x !in rest && y !in rest && Distinct(rest) {
      forall i, j | 0 <= i < j < |all| ensures all[i] != all[j] {
        assert forall k :: 2 <= k < |all| ==> all[k] == rest[k - 2];
      }
    }
  }

  /** Every hand has two different cards, and no card lies in two hands. */
  predicate NoCardTwice(seats: seq<int>, a: Assignment)
    requires forall x :: x in seats ==> x in a
  {
    (forall s :: s in seats ==> a[s].0 != a[s].1)
    && forall s, t :: s in seats && t in seats && s != t ==> DisjointPairs(a[s], a[t])
  }

  lemma FirstApart(seats: seq<int>, a: Assignment)
    requires (forall x :: x in seats ==> x in a) && Distinct(seats) && seats != []
    ensures NoCardTwice(seats, a) <==>
              a[seats[0]].0 != a[seats[0]].1 && NoCardTwice(seats[1..], a)
              && forall t :: t in seats[1..] ==> DisjointPairs(a[seats[0]], a[t])
  {
    var first, tail := seats[0], seats[1..];
    assert seats == [first] + tail && first in seats;
    assert forall x :: x in seats <==> x == first || x in tail;
    assert first !in tail by { assert forall i :: 0 <= i < |tail| ==> tail[i] == seats[i + 1]; }
    hide Distinct;
    if NoCardTwice(tail, a) && a[first].0 != a[first].1 && forall t :: t in tail ==> DisjointPairs(a[first], a[t]) {
      forall s, t | s in seats && t in seats && s != t ensures DisjointPairs(a[s], a[t]) {
        if t == first { assert DisjointPairs(a[first], a[s]); }
      }
    }
  }

  lemma {:induction false} DistinctCards(seats: seq<int>, a: Assignment)
    requires (forall x :: x in seats ==> x in a) && Distinct(seats)
    ensures Distinct(Flatten(seats, a)) <==> NoCardTwice(seats, a)
  {
    if seats != [] {
      var first, tail := seats[0], seats[1..];
      assert forall i :: 0 <= i < |tail| ==> tail[i] == seats[i + 1];
      DistinctCards(tail, a);
      DistinctPairThen(a[first].0, a[first].1, Flatten(tail, a));
      FlattenCards(tail, a, a[first].0);
      FlattenCards(tail, a, a[first].1);
      FirstApart(seats, a);
      hide Distinct, NoCardTwice;
    }
  }

  // ---------------------------------------------------------------- one round

  /** The part of the running sum that the draw u hits is that of entry m. */
  predicate ChosenBy(s: Sampler, u: real, m: int) {
    0 <= m < |s.entries|
    && u * s.total <= Sum(EntryWeights(s.entries)[..m + 1])
    && (m > 0 ==> Sum(EntryWeights(s.entries)[..m]) < u * s.total)
  }

  lemma DrawChooses(s: Sampler, u: real) returns (m: int)
    requires ValidSampler(s) && 0.0 <= u < 1.0 && s.entries != []
    ensures ChosenBy(s, u, m) && DrawSampler(s, u) == Some(s.entries[m].Pair())
  {
    hide ValidSampler, IndexAt, Target, Sum, EntryWeights;
    EmptyOrPositive(s);
    DrawIsProportional(s, u);
    m := IndexAt(s, Target(u, s.total));
    TargetIsShare(u, s.total);
    IndexIsProportional(s, Target(u, s.total));
  }

  lemma TargetIsShare(u: real, total: real)
    ensures Target(u, total) == u * total
  {}

  ghost predicate DrawnFrom(samplers: map<int, Sampler>, seat: int, u: real, pair: (Card, Card)) {
    seat in samplers && exists m :: ChosenBy(samplers[seat], u, m) && samplers[seat].entries[m].Pair() == pair
  }

  lemma EmptyOrPositive(s: Sampler)
    requires ValidSampler(s)
    ensures s.entries == [] <==> s.total <= 0.0
  {
    TotalPositive(s.entries);
  }

  /**
   * A round fails exactly when some seat has no combo; otherwise seat number i holds the combo that draw number
   * start + i hits, and the round has used one draw per seat.
   */
  lemma {:induction false} RoundDraws(samplers: map<int, Sampler>, seats: seq<int>, draws: nat -> real, start: nat)
    requires ValidSeats(samplers, seats) && forall n :: 0.0 <= draws(n) < 1.0
    ensures var a := Drawn(samplers, seats, draws, start);
            if !Stocked(samplers, seats) then a == None
            else a.Some? && DrawsUsed(samplers, seats) == |seats| && RightDraws(samplers, seats, draws, start, a.value)
  {
    hide ValidSampler, RightDraws, DrawSampler, ChosenBy;
    if seats != [] {
      var n := |seats| - 1;
      var seat := seats[n];
      assert seats == seats[..n] + [seat] && seat in seats;
      StockedSnoc(samplers, seats);
      RoundDraws(samplers, seats[..n], draws, start);
      RoundSnoc(samplers, seats, draws, start);
      assert ValidSampler(samplers[seat]) && Distinct(seats);
      hide Drawn, DrawsUsed, Distinct, Stocked;
      var u := draws(start + DrawsUsed(samplers, seats[..n]));
      EmptyOrPositive(samplers[seat]);
      DrawIsNone(samplers[seat], u);
      if Drawn(samplers, seats[..n], draws, start).Some? && samplers[seat].entries != [] {
        RightSnoc(samplers, seats, draws, start, Drawn(samplers, seats[..n], draws, start).value, DrawSampler(samplers[seat], u).value);
      }
    } else {
      RightNothing(samplers, draws, start);
    }
  }

  /** Every seat has a combo to draw. */
  predicate Stocked(samplers: map<int, Sampler>, seats: seq<int>) {
    forall s :: s in seats ==> s in samplers && samplers[s].entries != []
  }

  lemma StockedSnoc(samplers: map<int, Sampler>, seats: seq<int>)
    requires seats != [] && seats[|seats| - 1] in samplers
    ensures Stocked(samplers, seats) <==> Stocked(samplers, seats[..|seats| - 1]) && samplers[seats[|seats| - 1]].entries != []
  {
    var n := |seats| - 1;
    var seat := seats[n];
    assert seats == seats[..n] + [seat] && seat in seats;
    assert forall s :: s in seats <==> s in seats[..n] || s == seat;
  }

  lemma RoundSnoc(samplers: map<int, Sampler>, seats: seq<int>, draws: nat -> real, start: nat)
    requires KnownSeats(samplers, seats) && seats != [] && seats[|seats| - 1] in samplers
    ensures var n := |seats| - 1; var before, used := Drawn(samplers, seats[..n], draws, start), DrawsUsed(samplers, seats[..n]);
            var pair := DrawSampler(samplers[seats[n]], draws(start + used));
            && Drawn(samplers, seats, draws, start) == (if before.None? || pair.None? then None else Some(before.value[seats[n] := pair.value]))
            && DrawsUsed(samplers, seats) == used + if samplers[seats[n]].total > 0.0 then 1 else 0
  {
    hide DrawSampler;
  }

  lemma DrawIsNone(s: Sampler, u: real)
    requires ValidSampler(s) && 0.0 <= u < 1.0
    ensures DrawSampler(s, u).None? <==> s.entries == []
    ensures s.entries != [] ==> exists m :: ChosenBy(s, u, m) && DrawSampler(s, u) == Some(s.entries[m].Pair())
  {
    DrawIsProportional(s, u);
    if s.entries != [] { var m := DrawChooses(s, u); }
  }

  /** Every seat holds the combo that its own draw hits. */
  ghost predicate RightDraws(samplers: map<int, Sampler>, seats: seq<int>, draws: nat -> real, start: nat, a: Assignment) {
    a.Keys == Elements(seats)
    && forall i :: 0 <= i < |seats| ==> seats[i] in a && DrawnFrom(samplers, seats[i], draws(start + i), a[seats[i]])
  }

  lemma RightNothing(samplers: map<int, Sampler>, draws: nat -> real, start: nat)
    ensures RightDraws(samplers, [], draws, start, map[])
  {}

  lemma RightSnoc(samplers: map<int, Sampler>, seats: seq<int>, draws: nat -> real, start: nat, a: Assignment, pair: (Card, Card))
    requires seats != [] && Distinct(seats) && RightDraws(samplers, seats[..|seats| - 1], draws, start, a)
    requires DrawnFrom(samplers, seats[|seats| - 1], draws(start + |seats| - 1), pair)
    ensures RightDraws(samplers, seats, draws, start, a[seats[|seats| - 1] := pair])
  {
    hide DrawnFrom;
    var n := |seats| - 1;
    assert seats == seats[..n] + [seats[n]];
    forall i | 0 <= i < n ensures seats[i] in a && DrawnFrom(samplers, seats[i], draws(start + i), a[seats[i]]) && seats[i] != seats[n] {
      assert seats[..n][i] == seats[i];
    }
  }

  lemma HandsHaveTwoCards(samplers: map<int, Sampler>, seats: seq<int>, a: Assignment)
    requires ValidSeats(samplers, seats) && forall s :: s in seats ==> s in a && PairIn(samplers[s], a[s])
    ensures forall s :: s in seats ==> a[s].0 != a[s].1
  {
    forall s | s in seats ensures a[s].0 != a[s].1 {
      var e :| e in samplers[s].entries && e.Pair() == a[s];
    }
  }

  /** A round is accepted exactly when its hands are legal: one combo per seat and no card in two hands. */
  lemma AcceptedIff(samplers: map<int, Sampler>, seats: seq<int>, draws: nat -> real, start: nat)
    requires ValidSeats(samplers, seats) && forall n :: 0.0 <= draws(n) < 1.0
    ensures var a := Drawn(samplers, seats, draws, start);
            Accepted(seats, a) <==> a.Some? && Legal(samplers, seats, a.value)
  {
    DrawnPairs(samplers, seats, draws, start);
    var a := Drawn(samplers, seats, draws, start);
    if a.Some? {
      HandsHaveTwoCards(samplers, seats, a.value);
      DistinctCards(seats, a.value);
      if Accepted(seats, a) { AcceptedIsLegal(samplers, seats, draws, start); }
    }
    hide Drawn, Flatten, Distinct, PairIn, ValidSampler;
  }

  // ---------------------------------------------------------------- the rounds

  /** The first draw of round r. */
  function RoundStart(start: nat, per: nat, r: nat): nat {
    if r == 0 then start else RoundStart(start, per, r - 1) + per
  }

  lemma {:induction false} RoundShift(start: nat, per: nat, r: nat)
    ensures RoundStart(start + per, per, r) == RoundStart(start, per, r + 1)
  {
    if r > 0 { RoundShift(start, per, r - 1); }
  }

  predicate RoundAccepted(samplers: map<int, Sampler>, seats: seq<int>, draws: nat -> real, start: nat, r: nat)
    requires KnownSeats(samplers, seats)
  {
    Accepted(seats, Drawn(samplers, seats, draws, RoundStart(start, DrawsUsed(samplers, seats), r)))
  }

  /** The rejection loop returns the first accepted round, or the draw after its last round without one. */
  lemma {:induction false} FirstAccepted(samplers: map<int, Sampler>, seats: seq<int>, draws: nat -> real, start: nat, rounds: nat) returns (r: nat)
    requires KnownSeats(samplers, seats)
    ensures var per := DrawsUsed(samplers, seats);
            && r <= rounds
            && (forall q :: 0 <= q < r ==> !RoundAccepted(samplers, seats, draws, start, q))
            && (r < rounds ==>
                  RoundAccepted(samplers, seats, draws, start, r)
                  && Rejection(samplers, seats, draws, start, rounds)
                     == (Drawn(samplers, seats, draws, RoundStart(start, per, r)), RoundStart(start, per, r + 1)))
            && (r == rounds ==> Rejection(samplers, seats, draws, start, rounds) == (None, RoundStart(start, per, rounds)))
    decreases rounds
  {
    hide Drawn, DrawsUsed, Accepted;
    var per := DrawsUsed(samplers, seats);
    if rounds == 0 || Accepted(seats, Drawn(samplers, seats, draws, start)) {
      r := 0;
      assert RoundStart(start, per, 1) == RoundStart(start, per, 0) + per;
    } else {
      var q := FirstAccepted(samplers, seats, draws, start + per, rounds - 1);
      r := q + 1;
      RoundShift(start, per, q);
      RoundShift(start, per, q + 1);
      RoundShift(start, per, rounds - 1);
      forall x | 0 <= x < r ensures !RoundAccepted(samplers, seats, draws, start, x) {
        if x > 0 { RoundShift(start, per, x - 1); assert !RoundAccepted(samplers, seats, draws, start + per, x - 1); }
      }
    }
  }
}
