/** Card-disjoint joint hands: weighted samplers, the backtracking enumerator and the scan. */
module JointSampling {
  import opened Cards
  import opened Combos
  import opened Sums

  /** The entries of a seat, their running sums, and the total. */
  datatype Sampler = Sampler(entries: seq<Entry>, cumulative: seq<real>, total: real)

  type Assignment = map<int, (Card, Card)>

  datatype Leaf = Leaf(assignment: Assignment, weight: real)

  predicate Playable(e: Entry, visible: set<Card>) {
    e.first !in visible && e.second !in visible && e.first != e.second && e.weight > 0.0
  }

  predicate ValidEntries(entries: seq<Entry>) {
    DistinctPairs(entries) && forall e :: e in entries ==> e.first != e.second && e.weight > 0.0
  }

  predicate ValidSampler(s: Sampler) {
    && ValidEntries(s.entries)
    && |s.cumulative| == |s.entries|
    && (forall i :: 0 <= i < |s.entries| ==> s.cumulative[i] == Sum(EntryWeights(s.entries)[..i + 1]))
    && s.total == Sum(EntryWeights(s.entries))
  }

  /** _prepare_range_samplers for one seat; combos is the belief sorted by its unique keys. */
  method PrepareSampler(combos: seq<Entry>, visible: set<Card>) returns (s: Sampler)
    requires DistinctPairs(combos)
    ensures ValidSampler(s)
    ensures forall e :: e in s.entries <==> e in combos && Playable(e, visible)
  {
    var entries: seq<Entry> := [];
    for i := 0 to |combos|
      invariant forall e :: e in entries <==> e in combos[..i] && Playable(e, visible)
      invariant DistinctPairs(entries)
    {
      if Playable(combos[i], visible) {
        forall k | 0 <= k < |entries| ensures entries[k].Pair() != combos[i].Pair() {
          assert entries[k] in combos[..i];
          var j :| 0 <= j < i && combos[j] == entries[k];
        }
        entries := entries + [combos[i]];
      }
    }
    ghost var weights := EntryWeights(entries);
    var running := 0.0;
    var cumulative: seq<real> := [];
    for i := 0 to |entries|
      invariant running == Sum(weights[..i]) && |cumulative| == i
      invariant forall j :: 0 <= j < i ==> cumulative[j] == Sum(weights[..j + 1])
    {
      SumTake(weights, i);
      running := running + entries[i].weight;
      cumulative := cumulative + [running];
    }
    assert weights[..|entries|] == weights;
    s := Sampler(entries, cumulative, running);
  }

  // ---------------------------------------------------------------- single draws

  /** bisect_left: the first position whose value is at least t. */
  function BisectLeft(values: seq<real>, t: real): (i: nat)
    ensures i <= |values|
    ensures forall k :: 0 <= k < i ==> values[k] < t
    ensures i < |values| ==> t <= values[i]
  {
    if values == [] || t <= values[0] then 0
    else
      var i := 1 + BisectLeft(values[1..], t);
      assert forall k :: 1 <= k < i ==> values[k] == values[1..][k - 1];
      i
  }

  lemma TotalPositive(entries: seq<Entry>)
    requires forall e :: e in entries ==> e.weight > 0.0
    ensures Sum(EntryWeights(entries)) >= 0.0 && (entries != [] ==> Sum(EntryWeights(entries)) > 0.0)
  {
    var weights := EntryWeights(entries);
    forall k | 0 <= k < |weights| ensures weights[k] > 0.0 { assert entries[k] in entries; }
    SumGrows(weights, 0, |weights|);
    assert weights[..0] == [] && weights[..|weights|] == weights;
  }

  /** The position that _draw_sampler looks up for a threshold. */
  function IndexAt(s: Sampler, t: real): int {
    var i := BisectLeft(s.cumulative, t);
    if i < |s.entries| - 1 then i else |s.entries| - 1
  }

  /** _draw_sampler for a uniform draw u in [0, 1). */
  function DrawSampler(s: Sampler, u: real): Option<(Card, Card)> {
    if s.total <= 0.0 || s.entries == [] then None
    else Some(s.entries[IndexAt(s, Target(u, s.total))].Pair())
  }

  /** A threshold selects the entry whose half-open interval of the running sum holds it. */
  lemma IndexIsProportional(s: Sampler, t: real)
    requires ValidSampler(s) && 0.0 <= t <= s.total && s.entries != []
    ensures var i := IndexAt(s, t);
            0 <= i < |s.entries| && t <= Sum(EntryWeights(s.entries)[..i + 1])
            && (i > 0 ==> Sum(EntryWeights(s.entries)[..i]) < t)
  {
    var n := |s.entries|;
    var weights := EntryWeights(s.entries);
    assert weights[..n] == weights;
    assert s.cumulative[n - 1] == Sum(weights[..n - 1 + 1]);
    var i := IndexAt(s, t);
    assert i > 0 ==> s.cumulative[i - 1] == Sum(weights[..i - 1 + 1]);
  }

  /** A draw fails only on an empty seat, and its threshold stays below the total. */
  lemma DrawIsProportional(s: Sampler, u: real)
    requires ValidSampler(s) && 0.0 <= u < 1.0
    ensures DrawSampler(s, u).None? <==> s.entries == []
    ensures s.entries != [] ==> 0.0 <= Target(u, s.total) < s.total
    ensures s.entries != [] ==> 0 <= IndexAt(s, Target(u, s.total)) < |s.entries|
  {
    TotalPositive(s.entries);
    if s.entries != [] { TargetBelow(u, s.total); }
  }

  // ---------------------------------------------------------------- the enumeration, as a list

  predicate Prefers(samplers: map<int, Sampler>, blocked: set<Card>, a: int, b: int)
    requires a in samplers && b in samplers
  {
    var x, y := |Eligible(samplers[a].entries, blocked)|, |Eligible(samplers[b].entries, blocked)|;
    x < y || (x == y && a <= b)
  }

  /** min(remaining, key=(number of options, seat)). */
  function FewestOptions(samplers: map<int, Sampler>, remaining: seq<int>, blocked: set<Card>): (seat: int)
    requires remaining != [] && forall s :: s in remaining ==> s in samplers
    ensures seat in remaining
    ensures forall s :: s in remaining ==> Prefers(samplers, blocked, seat, s)
  {
    assert remaining == [remaining[0]] + remaining[1..];
    if |remaining| == 1 then remaining[0]
    else
      var best := FewestOptions(samplers, remaining[1..], blocked);
      if Prefers(samplers, blocked, remaining[0], best) then remaining[0] else best
  }

  function Without(seats: seq<int>, seat: int): (r: seq<int>)
    ensures forall s :: s in r <==> s in seats && s != seat
    ensures |r| <= |seats| && (seat in seats ==> |r| < |seats|)
  {
    if seats == [] then []
    else
      assert seats == [seats[0]] + seats[1..];
      (if seats[0] == seat then [] else [seats[0]]) + Without(seats[1..], seat)
  }

  predicate KnownSeats(samplers: map<int, Sampler>, seats: seq<int>) {
    forall s :: s in seats ==> s in samplers
  }

  /** The leaves that the search appends, in order. */
  function Leaves(samplers: map<int, Sampler>, remaining: seq<int>, blocked: set<Card>,
                  assignment: Assignment, weight: real): seq<Leaf>
    requires KnownSeats(samplers, remaining)
    decreases |remaining|, 0
  {
    if remaining == [] then [Leaf(assignment, weight)]
    else
      var seat := FewestOptions(samplers, remaining, blocked);
      LeavesOver(samplers, seat, Eligible(samplers[seat].entries, blocked), Without(remaining, seat),
                 blocked, assignment, weight)
  }

  /** The leaves below the given entries of one seat. */
  function LeavesOver(samplers: map<int, Sampler>, seat: int, entries: seq<Entry>, rest: seq<int>,
                      blocked: set<Card>, assignment: Assignment, weight: real): seq<Leaf>
    requires KnownSeats(samplers, rest)
    decreases |rest|, |entries| + 1
  {
    if entries == [] then []
    else
      var e := entries[0];
      Leaves(samplers, rest, blocked + {e.first, e.second}, assignment[seat := e.Pair()], Times(weight, e.weight))
      + LeavesOver(samplers, seat, entries[1..], rest, blocked, assignment, weight)
  }

  /** How often the search counts a state. */
  function StateCount(samplers: map<int, Sampler>, remaining: seq<int>, blocked: set<Card>): nat
    requires KnownSeats(samplers, remaining)
    decreases |remaining|, 0
  {
    if remaining == [] then 0
    else
      var seat := FewestOptions(samplers, remaining, blocked);
      StatesOver(samplers, Eligible(samplers[seat].entries, blocked), Without(remaining, seat), blocked)
  }

  function StatesOver(samplers: map<int, Sampler>, entries: seq<Entry>, rest: seq<int>, blocked: set<Card>): nat
    requires KnownSeats(samplers, rest)
    decreases |rest|, |entries| + 1
  {
    if entries == [] then 0
    else
      1 + StateCount(samplers, rest, blocked + {entries[0].first, entries[0].second})
      + StatesOver(samplers, entries[1..], rest, blocked)
  }

  lemma OverHead(samplers: map<int, Sampler>, seat: int, entries: seq<Entry>, rest: seq<int>,
                 blocked: set<Card>, assignment: Assignment, weight: real)
    requires KnownSeats(samplers, rest) && entries != []
    ensures LeavesOver(samplers, seat, entries, rest, blocked, assignment, weight)
         == Leaves(samplers, rest, blocked + {entries[0].first, entries[0].second},
                   assignment[seat := entries[0].Pair()], Times(weight, entries[0].weight))
            + LeavesOver(samplers, seat, entries[1..], rest, blocked, assignment, weight)
  {}

  lemma OverStep(samplers: map<int, Sampler>, seat: int, entries: seq<Entry>, i: nat, rest: seq<int>,
                 blocked: set<Card>, assignment: Assignment, weight: real)
    requires KnownSeats(samplers, rest) && i < |entries|
    ensures var e := entries[i];
            LeavesOver(samplers, seat, entries[i..], rest, blocked, assignment, weight)
            == Leaves(samplers, rest, blocked + {e.first, e.second}, assignment[seat := e.Pair()], Times(weight, e.weight))
               + LeavesOver(samplers, seat, entries[i + 1..], rest, blocked, assignment, weight)
    ensures var e := entries[i];
            StatesOver(samplers, entries[i..], rest, blocked)
            == 1 + StateCount(samplers, rest, blocked + {e.first, e.second})
               + StatesOver(samplers, entries[i + 1..], rest, blocked)
  {
    var es := entries[i..];
    assert es[0] == entries[i] && es[1..] == entries[i + 1..];
    OverHead(samplers, seat, es, rest, blocked, assignment, weight);
  }

  // ---------------------------------------------------------------- the search

  /** The mutable accumulators of one exact search. */
  class JointSearch {
    const samplers: map<int, Sampler>
    const stateCap: nat
    const leafCap: nat
    var assignment: Assignment
    var leaves: seq<Leaf>
    var states: nat

    constructor (samplers: map<int, Sampler>, stateCap: nat, leafCap: nat)
      ensures this.samplers == samplers && this.stateCap == stateCap && this.leafCap == leafCap
      ensures assignment == map[] && leaves == [] && states == 0
    {
      this.samplers, this.stateCap, this.leafCap := samplers, stateCap, leafCap;
      assignment, leaves, states := map[], [], 0;
    }

    /** _enumerate_joint; ok is false when a cap raises. */
    method Enumerate(remaining: seq<int>, blocked: set<Card>, weight: real) returns (ok: bool)
      requires KnownSeats(samplers, remaining)
      requires forall s :: s in remaining ==> s !in assignment
      requires states <= stateCap && |leaves| <= leafCap
      modifies this
      ensures ok <==> old(states) + StateCount(samplers, remaining, blocked) <= stateCap
                      && old(|leaves|) + |Leaves(samplers, remaining, blocked, old(assignment), weight)| <= leafCap
      ensures ok ==> leaves == old(leaves) + Leaves(samplers, remaining, blocked, old(assignment), weight)
      ensures ok ==> states == old(states) + StateCount(samplers, remaining, blocked)
      ensures ok ==> assignment == old(assignment)
      decreases |remaining|, 1
    {
      if remaining == [] {
        if |leaves| >= leafCap {
          return false;
        }
        leaves := leaves + [Leaf(assignment, weight)];
        return true;
      }
      var seat := FewestOptions(samplers, remaining, blocked);
      var eligible := Eligible(samplers[seat].entries, blocked);
      if eligible == [] {
        return true;
      }
      ok := TryAll(seat, eligible, Without(remaining, seat), blocked, weight);
      if ok {
        assignment := assignment - {seat};
      }
    }

    /** The loop over the options of the chosen seat. */
    method TryAll(seat: int, eligible: seq<Entry>, rest: seq<int>, blocked: set<Card>, weight: real)
      returns (ok: bool)
      requires KnownSeats(samplers, rest) && seat !in rest
      requires forall s :: s in rest ==> s !in assignment
      requires states <= stateCap && |leaves| <= leafCap
      modifies this
      ensures ok <==> old(states) + StatesOver(samplers, eligible, rest, blocked) <= stateCap
                      && old(|leaves|) + |LeavesOver(samplers, seat, eligible, rest, blocked, old(assignment), weight)| <= leafCap
      ensures ok ==> leaves == old(leaves) + LeavesOver(samplers, seat, eligible, rest, blocked, old(assignment), weight)
      ensures ok ==> states == old(states) + StatesOver(samplers, eligible, rest, blocked)
      ensures ok ==> assignment - {seat} == old(assignment) - {seat}
      decreases |rest|, 3
    {
      hide Times, FewestOptions, Eligible, Without, Leaves, StateCount;
      ghost var base := assignment;
      ghost var found: seq<Leaf>, counted := [], 0;
      assert eligible[0..] == eligible;
      for i := 0 to |eligible|
        invariant states <= stateCap && |leaves| <= leafCap
        invariant leaves == old(leaves) + found && states == old(states) + counted
        invariant found + LeavesOver(samplers, seat, eligible[i..], rest, blocked, base, weight)
               == LeavesOver(samplers, seat, eligible, rest, blocked, base, weight)
        invariant counted + StatesOver(samplers, eligible[i..], rest, blocked)
               == StatesOver(samplers, eligible, rest, blocked)
        invariant assignment - {seat} == base - {seat}
        invariant forall s :: s in rest ==> s !in assignment
      {
        OverStep(samplers, seat, eligible, i, rest, blocked, base, weight);
        var e := eligible[i];
        ghost var inner := Leaves(samplers, rest, blocked + {e.first, e.second}, base[seat := e.Pair()], Times(weight, e.weight));
        assert assignment[seat := e.Pair()] == base[seat := e.Pair()] by { SameRest(assignment, base, seat, e.Pair()); }
        ghost var tail := LeavesOver(samplers, seat, eligible[i + 1..], rest, blocked, base, weight);
        assert found + (inner + tail) == found + inner + tail;
        ok := TryOne(seat, e, rest, blocked, weight);
        if !ok {
          return;
        }
        found := found + inner;
        counted := counted + 1 + StateCount(samplers, rest, blocked + {e.first, e.second});
      }
      assert eligible[|eligible|..] == [];
      ok := true;
    }

    /** One option: count the state, assign the cards, and search on. */
    method TryOne(seat: int, e: Entry, rest: seq<int>, blocked: set<Card>, weight: real) returns (ok: bool)
      requires KnownSeats(samplers, rest) && seat !in rest
      requires forall s :: s in rest ==> s !in assignment
      requires states <= stateCap && |leaves| <= leafCap
      modifies this
      ensures var deeper, placed := blocked + {e.first, e.second}, old(assignment)[seat := e.Pair()];
              ok <==> old(states) + 1 + StateCount(samplers, rest, deeper) <= stateCap
                      && old(|leaves|) + |Leaves(samplers, rest, deeper, placed, Times(weight, e.weight))| <= leafCap
      ensures var deeper, placed := blocked + {e.first, e.second}, old(assignment)[seat := e.Pair()];
              ok ==> leaves == old(leaves) + Leaves(samplers, rest, deeper, placed, Times(weight, e.weight))
                     && states == old(states) + 1 + StateCount(samplers, rest, deeper)
                     && states <= stateCap && |leaves| <= leafCap
                     && assignment == placed
      decreases |rest|, 2
    {
      states := states + 1;
      if states > stateCap {
        return false;
      }
      assignment := assignment[seat := e.Pair()];
      ok := Enumerate(rest, blocked + {e.first, e.second}, Times(weight, e.weight));
    }
  }

  lemma SameRest(a: Assignment, b: Assignment, seat: int, pair: (Card, Card))
    requires a - {seat} == b - {seat}
    ensures a[seat := pair] == b[seat := pair]
  {
    forall s | s != seat
      ensures s in a <==> s in b
      ensures s in a ==> a[s] == b[s]
    {
      assert s in a <==> s in a - {seat};
      assert s in b <==> s in b - {seat};
      assert s in a ==> (a - {seat})[s] == a[s];
      assert s in b ==> (b - {seat})[s] == b[s];
    }
  }
}
