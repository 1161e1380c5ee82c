/** Session statistics: the sum of the distinct hands applied to them, each counted as it was first delivered. */
module SessionStats {
  import opened Cards
  import opened Sums

  /** The number of counters per seat. */
  const FIELDS: nat := 14

  /** The counters of every seat, in a fixed field order. */
  datatype Stats = Stats(bySeat: map<int, seq<int>>)

  predicate ValidStats(s: Stats) {
    forall seat :: seat in s.bySeat ==> |s.bySeat[seat]| == FIELDS
  }

  const EMPTY := Stats(map[])

  function CountAt(s: Stats, seat: int, field: nat): int
    requires ValidStats(s) && field < FIELDS
  {
    if seat in s.bySeat then s.bySeat[seat][field] else 0
  }

  function Counters(s: Stats, seat: int): (counts: seq<int>)
    requires ValidStats(s)
    ensures |counts| == FIELDS && forall field: nat :: field < FIELDS ==> counts[field] == CountAt(s, seat, field)
  {
    if seat in s.bySeat then s.bySeat[seat] else seq(FIELDS, i => 0)
  }

  function Added(a: seq<int>, b: seq<int>): (r: seq<int>)
    requires |a| == |b|
    ensures |r| == |a| && forall i :: 0 <= i < |a| ==> r[i] == a[i] + b[i]
  {
    seq(|a|, i requires 0 <= i < |a| => a[i] + b[i])
  }

  function MergedSeat(current: Stats, contribution: Stats, seat: int): seq<int>
    requires ValidStats(current) && ValidStats(contribution)
  {
    Added(Counters(current, seat), Counters(contribution, seat))
  }

  /** The merged counters of every seat of either. */
  function Merged(current: Stats, contribution: Stats): (merged: Stats)
    requires ValidStats(current) && ValidStats(contribution)
    ensures ValidStats(merged)
    ensures forall seat, field: nat :: field < FIELDS ==>
              CountAt(merged, seat, field) == CountAt(current, seat, field) + CountAt(contribution, seat, field)
  {
    var merged := Stats(map seat | seat in current.bySeat.Keys + contribution.bySeat.Keys :: MergedSeat(current, contribution, seat));
    assert forall seat :: seat in merged.bySeat ==> merged.bySeat[seat] == MergedSeat(current, contribution, seat);
    merged
  }

  /** The merge loop of apply_hand. */
  method Merge(current: Stats, contribution: Stats) returns (merged: Stats)
    requires ValidStats(current) && ValidStats(contribution)
    ensures merged == Merged(current, contribution)
  {
    hide MergedSeat, ValidStats;
    var bySeat: map<int, seq<int>> := map[];
    var seats := current.bySeat.Keys + contribution.bySeat.Keys;
    var left := seats;
    while left != {}
      invariant left <= seats
      invariant forall seat :: seat in bySeat <==> seat in seats && seat !in left
      invariant forall seat :: seat in bySeat ==> bySeat[seat] == MergedSeat(current, contribution, seat)
      decreases |left|
    {
      ghost var some := AnyMember(left);
      var seat :| seat in left;
      bySeat := bySeat[seat := MergedSeat(current, contribution, seat)];
      left := left - {seat};
    }
    merged := Stats(bySeat);
    MergedSeats(current, contribution, merged);
  }

  lemma MergedSeats(current: Stats, contribution: Stats, merged: Stats)
    requires ValidStats(current) && ValidStats(contribution)
    requires forall seat :: seat in merged.bySeat <==> seat in current.bySeat || seat in contribution.bySeat
    requires forall seat :: seat in merged.bySeat ==> merged.bySeat[seat] == MergedSeat(current, contribution, seat)
    ensures merged == Merged(current, contribution)
  {
    var same := Merged(current, contribution).bySeat;
    assert forall seat :: seat in same <==> seat in merged.bySeat;
    assert forall seat :: seat in same ==> same[seat] == merged.bySeat[seat];
    assert merged.bySeat == same;
  }

  // ---------------------------------------------------------------- totals

  predicate AllValid(hands: map<string, Stats>) {
    forall h :: h in hands ==> ValidStats(hands[h])
  }

  /** One counter of every hand. */
  ghost function Column(hands: map<string, Stats>, seat: int, field: nat): string -> real
    requires AllValid(hands) && field < FIELDS
  {
    h => if h in hands then CountAt(hands[h], seat, field) as real else 0.0
  }

  /** Every counter is the sum over the distinct hands. */
  ghost predicate Totals(s: Stats, hands: map<string, Stats>) {
    && ValidStats(s) && AllValid(hands)
    && forall seat, field: nat :: field < FIELDS ==>
         CountAt(s, seat, field) as real == SetSum(hands.Keys, Column(hands, seat, field))
  }

  lemma EmptyTotals()
    ensures Totals(EMPTY, map[])
  {
    var none: map<string, Stats> := map[];
    assert none.Keys == {};
  }

  lemma TotalsAdd(before: Stats, hands: map<string, Stats>, hand: string, contribution: Stats, after: Stats)
    requires Totals(before, hands) && hand !in hands && ValidStats(contribution) && ValidStats(after)
    requires forall seat, field: nat :: field < FIELDS ==>
               CountAt(after, seat, field) == CountAt(before, seat, field) + CountAt(contribution, seat, field)
    ensures Totals(after, hands[hand := contribution])
  {
    var more := hands[hand := contribution];
    assert more.Keys == hands.Keys + {hand};
    forall seat, field: nat | field < FIELDS
      ensures CountAt(after, seat, field) as real == SetSum(more.Keys, Column(more, seat, field))
    {
      ColumnAdd(hands, hand, contribution, seat, field);
    }
  }

  lemma ColumnAdd(hands: map<string, Stats>, hand: string, contribution: Stats, seat: int, field: nat)
    requires AllValid(hands) && hand !in hands && ValidStats(contribution) && field < FIELDS
    ensures var more := hands[hand := contribution];
            AllValid(more) && more.Keys == hands.Keys + {hand}
            && SetSum(more.Keys, Column(more, seat, field))
               == SetSum(hands.Keys, Column(hands, seat, field)) + CountAt(contribution, seat, field) as real
  {
    var more := hands[hand := contribution];
    assert more.Keys == hands.Keys + {hand};
    SetSumAdd(hands.Keys, Column(more, seat, field), hand);
    SetSumSame(hands.Keys, Column(more, seat, field), Column(hands, seat, field));
  }

  // ---------------------------------------------------------------- deliveries

  /** The rows of one session: its totals and its applied hands. */
  datatype Tally = Tally(totals: Stats, applied: set<string>)

  const NOTHING := Tally(EMPTY, {})

  /** apply_hand on the rows of its session; a hand that is applied changes nothing. */
  function ApplyStep(t: Tally, hand: string, contribution: Stats): Tally
    requires ValidStats(t.totals) && ValidStats(contribution)
  {
    if hand in t.applied then t else Tally(Merged(t.totals, contribution), t.applied + {hand})
  }

  /** What reaches a session: a hand with its contribution, or a discard. */
  datatype Delivery = Apply(hand: string, contribution: Stats) | Discard

  predicate ValidRun(ds: seq<Delivery>) {
    forall i :: 0 <= i < |ds| && ds[i].Apply? ==> ValidStats(ds[i].contribution)
  }

  function Play(ds: seq<Delivery>): (t: Tally)
    requires ValidRun(ds)
    ensures ValidStats(t.totals)
  {
    if ds == [] then NOTHING
    else
      var before := Play(ds[..|ds| - 1]);
      match ds[|ds| - 1]
      case Apply(hand, contribution) => ApplyStep(before, hand, contribution)
      case Discard => NOTHING
  }

  /** The deliveries of hands since the last discard. */
  function Since(ds: seq<Delivery>): (r: seq<Delivery>)
    ensures forall i :: 0 <= i < |r| ==> r[i].Apply? && r[i] in ds
  {
    if ds == [] || ds[|ds| - 1].Discard? then [] else Since(ds[..|ds| - 1]) + [ds[|ds| - 1]]
  }

  /** Every hand delivered since the last discard, with the contribution that came first. */
  function Firsts(ds: seq<Delivery>): map<string, Stats> {
    if ds == [] then map[]
    else
      var before := Firsts(ds[..|ds| - 1]);
      match ds[|ds| - 1]
      case Apply(hand, contribution) => if hand in before then before else before[hand := contribution]
      case Discard => map[]
  }

  /** Delivery i is the first of its hand. */
  predicate IsFirst(ds: seq<Delivery>, i: int, hand: string) {
    0 <= i < |ds| && ds[i].Apply? && ds[i].hand == hand && forall j :: 0 <= j < i ==> ds[j].Apply? && ds[j].hand != hand
  }

  /** A hand has a contribution exactly if it was delivered since the last discard, namely that of its first delivery. */
  lemma {:induction false} FirstsAreFirst(ds: seq<Delivery>, hand: string)
    ensures hand in Firsts(ds) <==> exists i :: IsFirst(Since(ds), i, hand)
    ensures forall i :: IsFirst(Since(ds), i, hand) ==> hand in Firsts(ds) && Since(ds)[i].contribution == Firsts(ds)[hand]
  {
    if ds != [] && ds[|ds| - 1].Apply? {
      var n := |ds| - 1;
      FirstsAreFirst(ds[..n], hand);
      var early, all := Since(ds[..n]), Since(ds);
      assert all == early + [ds[n]];
      assert forall j :: 0 <= j < |early| ==> all[j] == early[j];
      forall i | 0 <= i < |early| ensures IsFirst(all, i, hand) <==> IsFirst(early, i, hand) {
        if IsFirst(all, i, hand) { assert forall j :: 0 <= j < i ==> early[j] == all[j]; }
      }
      if hand in Firsts(ds[..n]) {
        var i :| IsFirst(early, i, hand);
        assert IsFirst(all, i, hand);
        assert !IsFirst(all, |early|, hand);
      } else {
        assert IsFirst(all, |early|, hand) <==> ds[n].hand == hand by { NotYet(early, hand); }
      }
    }
  }

  lemma {:induction false} NotYet(ds: seq<Delivery>, hand: string)
    requires (forall i :: 0 <= i < |ds| ==> ds[i].Apply?) && !exists i :: IsFirst(ds, i, hand)
    ensures forall i :: 0 <= i < |ds| ==> ds[i].hand != hand
    decreases |ds|
  {
    if ds != [] {
      var n := |ds| - 1;
      forall i | IsFirst(ds[..n], i, hand) ensures false { assert IsFirst(ds, i, hand); }
      NotYet(ds[..n], hand);
      assert !IsFirst(ds, n, hand);
    }
  }

  lemma {:induction false} FirstsValid(ds: seq<Delivery>)
    requires ValidRun(ds)
    ensures AllValid(Firsts(ds))
  {
    if ds != [] { FirstsValid(ds[..|ds| - 1]); }
  }

  /**
   * After any deliveries, repeated, in any order and with discards between them, the applied hands are those delivered
   * since the last discard, and every total is the sum over them, each with its first contribution.
   */
  lemma {:induction false} TotalsAreSum(ds: seq<Delivery>)
    requires ValidRun(ds)
    ensures Play(ds).applied == Firsts(ds).Keys
    ensures Totals(Play(ds).totals, Firsts(ds))
  {
    hide Totals, Merged;
    EmptyTotals();
    if ds != [] {
      var n := |ds| - 1;
      TotalsAreSum(ds[..n]);
      var before := Play(ds[..n]);
      if ds[n].Apply? && ds[n].hand !in before.applied {
        TotalsAdd(before.totals, Firsts(ds[..n]), ds[n].hand, ds[n].contribution, Merged(before.totals, ds[n].contribution));
      }
    }
  }

  // ---------------------------------------------------------------- when the order matters

  ghost predicate SameCounts(a: Stats, b: Stats)
    requires ValidStats(a) && ValidStats(b)
  {
    forall seat, field: nat :: field < FIELDS ==> CountAt(a, seat, field) == CountAt(b, seat, field)
  }

  predicate ValidDeliveries(d: set<Delivery>) {
    forall x :: x in d ==> x.Apply? && ValidStats(x.contribution)
  }

  /** Deliveries of one hand carry the same counters. */
  ghost predicate Agreeing(d: set<Delivery>)
    requires ValidDeliveries(d)
  {
    forall x, y :: x in d && y in d && x.hand == y.hand ==> SameCounts(x.contribution, y.contribution)
  }

  /** The run delivers exactly these since its last discard. */
  predicate Delivers(ds: seq<Delivery>, d: set<Delivery>) {
    ValidRun(ds) && Elements(Since(ds)) == d
  }

  /** The hands of the run are those of the deliveries, each with one of its contributions. */
  lemma FirstsDelivered(ds: seq<Delivery>, d: set<Delivery>, hand: string)
    requires Delivers(ds, d)
    ensures hand in Firsts(ds) <==> exists x :: x in d && x.Apply? && x.hand == hand
    ensures hand in Firsts(ds) ==> Apply(hand, Firsts(ds)[hand]) in d
  {
    FirstsAreFirst(ds, hand);
    var since := Since(ds);
    if hand in Firsts(ds) {
      var i :| IsFirst(since, i, hand);
      assert since[i] == Apply(hand, Firsts(ds)[hand]) && since[i] in d;
    } else {
      NotYet(since, hand);
      forall x | x in d ensures x.hand != hand {
        var i :| 0 <= i < |since| && since[i] == x;
      }
    }
  }

  /** Runs that deliver the same hands, in any order and any number of times, have the same totals when the deliveries agree. */
  lemma AgreeingHandsCommute(a: seq<Delivery>, b: seq<Delivery>, d: set<Delivery>)
    requires ValidDeliveries(d) && Agreeing(d) && Delivers(a, d) && Delivers(b, d)
    ensures SameCounts(Play(a).totals, Play(b).totals)
  {
    hide Firsts, Since, Play;
    TotalsAreSum(a);
    TotalsAreSum(b);
    FirstsValid(a);
    FirstsValid(b);
    forall hand
      ensures hand in Firsts(a) <==> hand in Firsts(b)
      ensures hand in Firsts(a) ==> SameCounts(Firsts(a)[hand], Firsts(b)[hand])
    {
      FirstsDelivered(a, d, hand);
      FirstsDelivered(b, d, hand);
    }
    assert Firsts(a).Keys == Firsts(b).Keys;
    forall seat, field: nat | field < FIELDS
      ensures CountAt(Play(a).totals, seat, field) == CountAt(Play(b).totals, seat, field)
    {
      SetSumSame(Firsts(a).Keys, Column(Firsts(a), seat, field), Column(Firsts(b), seat, field));
    }
  }

  lemma {:induction false} ListOf(d: set<Delivery>) returns (ds: seq<Delivery>)
    ensures Elements(ds) == d
    decreases |d|
  {
    ds := [];
    if d != {} {
      var x := AnyMember(d);
      var rest := ListOf(d - {x});
      ds := rest + [x];
      assert Elements(ds) == Elements(rest) + {x};
    }
  }

  lemma {:induction false} NoDiscards(ds: seq<Delivery>)
    requires forall i :: 0 <= i < |ds| ==> ds[i].Apply?
    ensures Since(ds) == ds
  {
    if ds != [] { NoDiscards(ds[..|ds| - 1]); }
  }

  /** The list with x first and y last, and the same list with the two swapped. */
  function Around(x: Delivery, middle: seq<Delivery>, y: Delivery): seq<Delivery> {
    [x] + middle + [y]
  }

  lemma AroundDelivers(x: Delivery, middle: seq<Delivery>, y: Delivery, d: set<Delivery>)
    requires ValidDeliveries(d) && x in d && y in d && Elements(middle) == d - {x, y}
    ensures Since(Around(x, middle, y)) == Around(x, middle, y) && Delivers(Around(x, middle, y), d)
  {
    var ds := Around(x, middle, y);
    forall i | 0 <= i < |ds| ensures ds[i] in d {
      if 0 < i < |ds| - 1 { assert ds[i] == middle[i - 1] && middle[i - 1] in Elements(middle); }
    }
    forall z | z in d ensures z in ds {
      if z != x && z != y {
        assert z in Elements(middle);
        var i :| 0 <= i < |middle| && middle[i] == z;
        assert ds[i + 1] == z;
      } else {
        assert ds[0] == x && ds[|ds| - 1] == y;
      }
    }
    NoDiscards(ds);
    assert Elements(ds) == d;
  }

  lemma FirstInBoth(x: Delivery, middle: seq<Delivery>, y: Delivery, i: int, hand: string)
    requires x.Apply? && y.Apply? && x.hand == y.hand != hand && IsFirst(Around(x, middle, y), i, hand)
    ensures IsFirst(Around(y, middle, x), i, hand) && Around(x, middle, y)[i] == Around(y, middle, x)[i]
  {
    var a, b := Around(x, middle, y), Around(y, middle, x);
    assert 0 < i < |a| - 1;
    assert forall j :: 0 < j <= i ==> b[j] == a[j];
  }

  /** The hand of x and y counts as x; all other hands count the same whichever of the two comes first. */
  lemma AroundFirsts(x: Delivery, middle: seq<Delivery>, y: Delivery, d: set<Delivery>, hand: string)
    requires ValidDeliveries(d) && x in d && y in d && x.hand == y.hand && Elements(middle) == d - {x, y}
    ensures x.hand in Firsts(Around(x, middle, y)) && Firsts(Around(x, middle, y))[x.hand] == x.contribution
    ensures hand in Firsts(Around(x, middle, y)) <==> hand in Firsts(Around(y, middle, x))
    ensures hand in Firsts(Around(x, middle, y)) && hand != x.hand ==>
              Firsts(Around(x, middle, y))[hand] == Firsts(Around(y, middle, x))[hand]
  {
    hide Firsts, Since, Elements, ValidRun;
    var a, b := Around(x, middle, y), Around(y, middle, x);
    AroundDelivers(x, middle, y, d);
    AroundDelivers(y, middle, x, d);
    FirstsAreFirst(a, x.hand);
    assert IsFirst(a, 0, x.hand);
    hide Around;
    FirstsAreFirst(a, hand);
    FirstsAreFirst(b, hand);
    FirstsDelivered(a, d, hand);
    FirstsDelivered(b, d, hand);
    if hand in Firsts(a) && hand != x.hand {
      var i :| IsFirst(a, i, hand);
      FirstInBoth(x, middle, y, i, hand);
    }
  }

  /** Two deliveries of one hand with different counters: the totals depend on which comes first. */
  lemma DifferingHandsInterfere(d: set<Delivery>, x: Delivery, y: Delivery, seat: int, field: nat)
    returns (a: seq<Delivery>, b: seq<Delivery>)
    requires ValidDeliveries(d) && x in d && y in d && x.hand == y.hand && field < FIELDS
    requires CountAt(x.contribution, seat, field) != CountAt(y.contribution, seat, field)
    ensures Delivers(a, d) && Delivers(b, d)
    ensures CountAt(Play(a).totals, seat, field) != CountAt(Play(b).totals, seat, field)
  {
    hide Firsts, Since, Play;
    var middle := ListOf(d - {x, y});
    a, b := Around(x, middle, y), Around(y, middle, x);
    AroundDelivers(x, middle, y, d);
    AroundDelivers(y, middle, x, d);
    TotalsAreSum(a);
    TotalsAreSum(b);
    FirstsValid(a);
    FirstsValid(b);
    forall hand
      ensures hand in Firsts(a) <==> hand in Firsts(b)
      ensures hand in Firsts(a) && hand != x.hand ==> Firsts(a)[hand] == Firsts(b)[hand]
    {
      AroundFirsts(x, middle, y, d, hand);
    }
    AroundFirsts(x, middle, y, d, x.hand);
    AroundFirsts(y, middle, x, d, x.hand);
    var keys := Firsts(a).Keys;
    assert keys == Firsts(b).Keys;
    var inA, inB := Column(Firsts(a), seat, field), Column(Firsts(b), seat, field);
    SetSumAny(keys, inA, x.hand);
    SetSumAny(keys, inB, x.hand);
    SetSumSame(keys - {x.hand}, inA, inB);
  }

  /**
   * Exactly when the totals do not depend on the order: for given deliveries, every two runs that deliver them since
   * their last discard have equal totals if and only if the deliveries of one hand carry the same counters.
   */
  lemma OrderDoesNotMatterIff(d: set<Delivery>)
    requires ValidDeliveries(d)
    ensures (forall a, b :: Delivers(a, d) && Delivers(b, d) ==> SameCounts(Play(a).totals, Play(b).totals)) <==> Agreeing(d)
  {
    hide Play, Since;
    if Agreeing(d) {
      forall a, b | Delivers(a, d) && Delivers(b, d) ensures SameCounts(Play(a).totals, Play(b).totals) {
        AgreeingHandsCommute(a, b, d);
      }
    } else {
      var x, y :| x in d && y in d && x.hand == y.hand && !SameCounts(x.contribution, y.contribution);
      var seat, field: nat :| field < FIELDS && CountAt(x.contribution, seat, field) != CountAt(y.contribution, seat, field);
      var a, b := DifferingHandsInterfere(d, x, y, seat, field);
      assert !SameCounts(Play(a).totals, Play(b).totals);
    }
  }

  /** One hand played by seat 0, with the given number in every counter. */
  function Corrected(count: int): Stats {
    Stats(map[0 := seq(FIELDS, i => count)])
  }

  /** One hand id with two contributions, in either order. */
  lemma FirstContributionStays(a: seq<Delivery>, b: seq<Delivery>)
    requires a == [Apply("h", Corrected(1)), Apply("h", Corrected(2))] && b == [a[1], a[0]]
    ensures ValidRun(a) && ValidRun(b)
    ensures CountAt(Play(a).totals, 0, 0) == 1 && CountAt(Play(b).totals, 0, 0) == 2
  {
    TwoDeliveries(a);
    TwoDeliveries(b);
  }

  lemma TwoDeliveries(ds: seq<Delivery>)
    requires |ds| == 2 && ValidRun(ds) && ds[0].Apply? && ds[1].Apply? && ds[0].hand == ds[1].hand
    ensures CountAt(Play(ds).totals, 0, 0) == CountAt(ds[0].contribution, 0, 0)
  {
    var one := ds[..1];
    assert one[..0] == [] && one[0] == ds[0];
    assert Play(one) == ApplyStep(Play([]), ds[0].hand, ds[0].contribution);
    assert Play(ds) == ApplyStep(Play(one), ds[1].hand, ds[1].contribution);
  }

  // ---------------------------------------------------------------- the store

  /** SQLiteSessionStatsStore. */
  class SessionStatsStore {
    var snapshots: map<string, Stats>
    var applied: set<(string, string)>

    function Loaded(session: string): Stats
      reads this
    {
      if session in snapshots then snapshots[session] else EMPTY
    }

    /** The rows of a session. */
    function TallyOf(session: string): Tally
      reads this
    {
      Tally(Loaded(session), set pair | pair in applied && pair.0 == session :: pair.1)
    }

    predicate Valid()
      reads this
    {
      forall session :: session in snapshots ==> ValidStats(snapshots[session])
    }

    constructor ()
      ensures Valid() && forall session :: TallyOf(session) == NOTHING
    {
      snapshots, applied := map[], {};
    }

    /** apply_hand; None is a contribution of another session. */
    method ApplyHand(session: string, hand: string, owner: string, contribution: Stats) returns (r: Option<Stats>)
      requires Valid() && ValidStats(contribution)
      modifies this
      ensures Valid() && r == if owner == session then Some(TallyOf(session).totals) else None
      ensures TallyOf(session) == if owner == session then ApplyStep(old(TallyOf(session)), hand, contribution) else old(TallyOf(session))
      ensures forall other :: other != session ==> TallyOf(other) == old(TallyOf(other))
    {
      if owner != session {
        return None;
      }
      var current := Loaded(session);
      if (session, hand) in applied {
        return Some(current);
      }
      var result := Merge(current, contribution);
      hide ValidStats, Merged;
      applied := applied + {(session, hand)};
      snapshots := snapshots[session := result];
      r := Some(result);
      forall other ensures TallyOf(other).applied == old(TallyOf(other).applied) + if other == session then {hand} else {} {}
    }

    method Discard(session: string)
      requires Valid()
      modifies this
      ensures Valid() && TallyOf(session) == NOTHING
      ensures forall other :: other != session ==> TallyOf(other) == old(TallyOf(other))
    {
      applied := set pair | pair in applied && pair.0 != session;
      snapshots := snapshots - {session};
      forall other ensures TallyOf(other).applied == if other == session then {} else old(TallyOf(other).applied) {}
    }
  }
}
