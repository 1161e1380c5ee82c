/** The enumerated joint hands are exactly the card-disjoint ones, and are drawn by their weight. */
module JointExact {
  import opened Cards
  import opened Combos
  import opened JointSampling
  import opened Sums

  // ---------------------------------------------------------------- the reference definition

  ghost predicate PairIn(s: Sampler, pair: (Card, Card)) {
    exists e :: e in s.entries && e.Pair() == pair
  }

  predicate DisjointPairs(a: (Card, Card), b: (Card, Card)) {
    a.0 != b.0 && a.0 != b.1 && a.1 != b.0 && a.1 != b.1
  }

  predicate Avoids(pair: (Card, Card), blocked: set<Card>) {
    pair.0 !in blocked && pair.1 !in blocked
  }

  function PairWeight(entries: seq<Entry>, pair: (Card, Card)): real {
    if entries == [] then 0.0
    else if entries[0].Pair() == pair then entries[0].weight
    else PairWeight(entries[1..], pair)
  }

  /** Every seat holds one of its combos, and no card is blocked or held twice. */
  ghost predicate Fits(samplers: map<int, Sampler>, seats: seq<int>, blocked: set<Card>, a: Assignment) {
    && (forall s :: s in seats ==> s in samplers && s in a && PairIn(samplers[s], a[s]) && Avoids(a[s], blocked))
    && (forall s, t :: s in seats && t in seats && s != t ==> DisjointPairs(a[s], a[t]))
  }

  /** The product of the marginal weights. */
  function JointWeight(samplers: map<int, Sampler>, seats: seq<int>, a: Assignment): real
    requires forall s :: s in seats ==> s in samplers && s in a
  {
    if seats == [] then 1.0
    else
      var seat := seats[0];
      assert seat in seats;
      Times(PairWeight(samplers[seat].entries, a[seat]), JointWeight(samplers, seats[1..], a))
  }

  predicate ValidSeats(samplers: map<int, Sampler>, seats: seq<int>) {
    Distinct(seats) && forall s :: s in seats ==> s in samplers && ValidSampler(samplers[s])
  }

  ghost predicate Legal(samplers: map<int, Sampler>, seats: seq<int>, a: Assignment) {
    a.Keys == Elements(seats) && Fits(samplers, seats, {}, a)
  }

  ghost predicate IsLeaf(samplers: map<int, Sampler>, remaining: seq<int>, blocked: set<Card>,
                         assignment: Assignment, weight: real, leaf: Leaf)
  {
    && leaf.assignment.Keys == assignment.Keys + Elements(remaining)
    && (forall s :: s in assignment ==> leaf.assignment[s] == assignment[s])
    && Fits(samplers, remaining, blocked, leaf.assignment)
    && leaf.weight == Times(weight, JointWeight(samplers, remaining, leaf.assignment))
  }

  // ---------------------------------------------------------------- weights

  lemma {:induction false} PairWeightOf(entries: seq<Entry>, e: Entry)
    requires ValidEntries(entries) && e in entries
    ensures PairWeight(entries, e.Pair()) == e.weight
  {
    if entries[0] != e {
      var i :| 0 <= i < |entries| && entries[i] == e;
      assert entries[0].Pair() != e.Pair();
      assert entries[1..][i - 1] == e;
      PairWeightOf(entries[1..], e);
    }
  }

  lemma {:induction false} WithoutDistinct(seats: seq<int>, seat: int)
    requires Distinct(seats)
    ensures Distinct(Without(seats, seat))
  {
    if seats != [] {
      assert seats == [seats[0]] + seats[1..];
      WithoutDistinct(seats[1..], seat);
      var rest := Without(seats[1..], seat);
      forall i | 0 <= i < |rest| ensures rest[i] != seats[0] {
        assert rest[i] in rest;
      }
    }
  }

  lemma {:induction false} WithoutAbsent(seats: seq<int>, seat: int)
    requires seat !in seats
    ensures Without(seats, seat) == seats
  {
    if seats != [] {
      assert seats == [seats[0]] + seats[1..];
      WithoutAbsent(seats[1..], seat);
    }
  }

  lemma Shuffle(a: real, b: real, c: real)
    ensures Times(a, Times(b, c)) == Times(b, Times(a, c))
    ensures Times(a, Times(b, c)) == Times(Times(a, b), c)
  {}

  lemma JointWeightCons(samplers: map<int, Sampler>, seat: int, rest: seq<int>, a: Assignment)
    requires seat in samplers && seat in a && forall s :: s in rest ==> s in samplers && s in a
    ensures JointWeight(samplers, [seat] + rest, a)
         == Times(PairWeight(samplers[seat].entries, a[seat]), JointWeight(samplers, rest, a))
  {
    assert ([seat] + rest)[1..] == rest;
  }

  /** The order in which seats are taken does not change the product. */
  lemma {:induction false} JointWeightWithout(samplers: map<int, Sampler>, seats: seq<int>, seat: int, a: Assignment)
    requires Distinct(seats) && seat in seats
    requires forall s :: s in seats ==> s in samplers && s in a
    ensures JointWeight(samplers, seats, a)
         == Times(PairWeight(samplers[seat].entries, a[seat]), JointWeight(samplers, Without(seats, seat), a))
  {
    hide Times;
    var first, tail := seats[0], seats[1..];
    assert seats == [first] + tail;
    JointWeightCons(samplers, first, tail, a);
    if first == seat {
      WithoutAbsent(tail, seat);
      assert Without(seats, seat) == tail;
    } else {
      JointWeightWithout(samplers, tail, seat, a);
      assert Without(seats, seat) == [first] + Without(tail, seat);
      JointWeightCons(samplers, first, Without(tail, seat), a);
      Shuffle(PairWeight(samplers[first].entries, a[first]), PairWeight(samplers[seat].entries, a[seat]),
              JointWeight(samplers, Without(tail, seat), a));
    }
  }

  lemma {:induction false} JointWeightPositive(samplers: map<int, Sampler>, seats: seq<int>, a: Assignment)
    requires ValidSeats(samplers, seats) && Fits(samplers, seats, {}, a)
    ensures JointWeight(samplers, seats, a) > 0.0
  {
    if seats != [] {
      var s, rest := seats[0], seats[1..];
      assert seats == [s] + rest;
      JointWeightPositive(samplers, rest, a);
      var e :| e in samplers[s].entries && e.Pair() == a[s];
      PairWeightOf(samplers[s].entries, e);
      TimesPositive(e.weight, JointWeight(samplers, rest, a));
      hide Times;
    }
  }

  // ---------------------------------------------------------------- one seat at a time

  /** Choosing a seat's combo and then filling the others is the same as filling all seats. */
  lemma FitsStep(samplers: map<int, Sampler>, remaining: seq<int>, seat: int, blocked: set<Card>, a: Assignment, e: Entry)
    requires seat in remaining && seat in samplers && seat in a
    requires e in samplers[seat].entries && a[seat] == e.Pair()
    ensures Fits(samplers, remaining, blocked, a) <==>
            Avoids(a[seat], blocked) && Fits(samplers, Without(remaining, seat), blocked + {e.first, e.second}, a)
  {
    var rest := Without(remaining, seat);
    var deeper := blocked + {e.first, e.second};
    if Fits(samplers, remaining, blocked, a) {
      forall s | s in rest ensures Avoids(a[s], deeper) { assert DisjointPairs(a[s], a[seat]); }
    }
    if Avoids(a[seat], blocked) && Fits(samplers, rest, deeper, a) {
      forall s | s in remaining ensures s in samplers && s in a && PairIn(samplers[s], a[s]) && Avoids(a[s], blocked) {
        if s != seat { assert s in rest && Avoids(a[s], deeper); }
      }
      forall s, t | s in remaining && t in remaining && s != t ensures DisjointPairs(a[s], a[t]) {
        if s == seat { assert Avoids(a[t], deeper); } else if t == seat { assert Avoids(a[s], deeper); }
      }
    }
  }

  lemma WeightStep(samplers: map<int, Sampler>, remaining: seq<int>, seat: int, weight: real, a: Assignment, e: Entry)
    requires ValidSeats(samplers, remaining) && seat in remaining && e in samplers[seat].entries
    requires (forall s :: s in remaining ==> s in a) && a[seat] == e.Pair()
    ensures Times(weight, JointWeight(samplers, remaining, a))
         == Times(Times(weight, e.weight), JointWeight(samplers, Without(remaining, seat), a))
  {
    hide Times;
    JointWeightWithout(samplers, remaining, seat, a);
    PairWeightOf(samplers[seat].entries, e);
    Shuffle(weight, e.weight, JointWeight(samplers, Without(remaining, seat), a));
  }

  lemma PlacedKeys(assignment: Assignment, remaining: seq<int>, seat: int, pair: (Card, Card), a: Assignment)
    requires seat in remaining && seat !in assignment
    ensures var placed := assignment[seat := pair];
            a.Keys == placed.Keys + Elements(Without(remaining, seat)) && (forall s :: s in placed ==> a[s] == placed[s])
            <==> a.Keys == assignment.Keys + Elements(remaining) && (forall s :: s in assignment ==> a[s] == assignment[s])
                 && a[seat] == pair
  {
    var placed := assignment[seat := pair];
    assert Elements(remaining) == Elements(Without(remaining, seat)) + {seat};
    assert placed.Keys == assignment.Keys + {seat};
    assert placed.Keys + Elements(Without(remaining, seat)) == assignment.Keys + Elements(remaining);
    assert forall s :: s in assignment ==> s in placed && placed[s] == assignment[s];
    assert seat in placed && placed[seat] == pair;
  }

  lemma LeafStep(samplers: map<int, Sampler>, remaining: seq<int>, seat: int, blocked: set<Card>,
                 assignment: Assignment, weight: real, leaf: Leaf, e: Entry)
    requires ValidSeats(samplers, remaining) && seat in remaining && seat !in assignment
    requires e in samplers[seat].entries && Avoids(e.Pair(), blocked)
    ensures IsLeaf(samplers, Without(remaining, seat), blocked + {e.first, e.second},
                   assignment[seat := e.Pair()], Times(weight, e.weight), leaf)
            <==> IsLeaf(samplers, remaining, blocked, assignment, weight, leaf) && leaf.assignment[seat] == e.Pair()
  {
    hide Times;
    var a := leaf.assignment;
    PlacedKeys(assignment, remaining, seat, e.Pair(), a);
    assert seat in Elements(remaining);
    if a.Keys == assignment.Keys + Elements(remaining) && a[seat] == e.Pair() {
      FitsStep(samplers, remaining, seat, blocked, a, e);
      assert forall s :: s in remaining ==> s in a by { assert forall s :: s in remaining ==> s in Elements(remaining); }
      WeightStep(samplers, remaining, seat, weight, a, e);
    }
  }

  // ---------------------------------------------------------------- exactness

  lemma {:induction false} LeavesExact(samplers: map<int, Sampler>, remaining: seq<int>, blocked: set<Card>,
                                       assignment: Assignment, weight: real, leaf: Leaf)
    requires ValidSeats(samplers, remaining) && forall s :: s in remaining ==> s !in assignment
    ensures leaf in Leaves(samplers, remaining, blocked, assignment, weight)
            <==> IsLeaf(samplers, remaining, blocked, assignment, weight, leaf)
    decreases |remaining|, 0
  {
    if remaining == [] {
      assert Elements(remaining) == {};
      if IsLeaf(samplers, remaining, blocked, assignment, weight, leaf) {
        assert leaf.assignment.Keys == assignment.Keys;
        forall s | s in leaf.assignment ensures leaf.assignment[s] == assignment[s] { assert s in assignment; }
        assert leaf.assignment == assignment;
      }
    } else {
      var seat := FewestOptions(samplers, remaining, blocked);
      var eligible := Eligible(samplers[seat].entries, blocked);
      var rest := Without(remaining, seat);
      WithoutDistinct(remaining, seat);
      OverExact(samplers, remaining, seat, eligible, blocked, assignment, weight, leaf);
      if IsLeaf(samplers, remaining, blocked, assignment, weight, leaf) {
        assert seat in remaining && seat in leaf.assignment;
        var e :| e in samplers[seat].entries && e.Pair() == leaf.assignment[seat];
        assert e in eligible;
      }
    }
  }

  lemma {:induction false} OverExact(samplers: map<int, Sampler>, remaining: seq<int>, seat: int, entries: seq<Entry>,
                                     blocked: set<Card>, assignment: Assignment, weight: real, leaf: Leaf)
    requires ValidSeats(samplers, remaining) && (forall s :: s in remaining ==> s !in assignment) && seat in remaining
    requires Distinct(Without(remaining, seat))
    requires forall e :: e in entries ==> e in samplers[seat].entries && Avoids(e.Pair(), blocked)
    ensures leaf in LeavesOver(samplers, seat, entries, Without(remaining, seat), blocked, assignment, weight)
            <==> IsLeaf(samplers, remaining, blocked, assignment, weight, leaf)
                 && exists e :: e in entries && e.Pair() == leaf.assignment[seat]
    decreases |remaining| - 1, |entries| + 1
  {
    if entries != [] {
      var e, tail, rest := entries[0], entries[1..], Without(remaining, seat);
      assert entries == [e] + tail;
      OverHead(samplers, seat, entries, rest, blocked, assignment, weight);
      OverExact(samplers, remaining, seat, tail, blocked, assignment, weight, leaf);
      LeavesExact(samplers, rest, blocked + {e.first, e.second}, assignment[seat := e.Pair()], Times(weight, e.weight), leaf);
      assert e in entries;
      LeafStep(samplers, remaining, seat, blocked, assignment, weight, leaf, e);
    }
  }

  predicate DistinctAssignments(leaves: seq<Leaf>) {
    forall i, j :: 0 <= i < j < |leaves| ==> leaves[i].assignment != leaves[j].assignment
  }

  lemma AppendDistinct(a: seq<Leaf>, b: seq<Leaf>)
    requires DistinctAssignments(a) && DistinctAssignments(b)
    requires forall x, y :: x in a && y in b ==> x.assignment != y.assignment
    ensures DistinctAssignments(a + b)
  {
    forall i, j | 0 <= i < j < |a + b| ensures (a + b)[i].assignment != (a + b)[j].assignment {
      if i < |a| <= j {
        assert a[i] in a && b[j - |a|] in b;
      }
    }
  }

  /** A search never changes the seats that are already assigned. */
  lemma LeafKeeps(samplers: map<int, Sampler>, remaining: seq<int>, blocked: set<Card>, assignment: Assignment,
                  weight: real, leaf: Leaf, seat: int)
    requires ValidSeats(samplers, remaining) && (forall s :: s in remaining ==> s !in assignment)
    requires leaf in Leaves(samplers, remaining, blocked, assignment, weight) && seat in assignment
    ensures seat in leaf.assignment && leaf.assignment[seat] == assignment[seat]
  {
    LeavesExact(samplers, remaining, blocked, assignment, weight, leaf);
  }

  lemma LeafPicks(samplers: map<int, Sampler>, remaining: seq<int>, seat: int, entries: seq<Entry>,
                  blocked: set<Card>, assignment: Assignment, weight: real, leaf: Leaf) returns (e: Entry)
    requires ValidSeats(samplers, remaining) && (forall s :: s in remaining ==> s !in assignment) && seat in remaining
    requires Distinct(Without(remaining, seat))
    requires forall f :: f in entries ==> f in samplers[seat].entries && Avoids(f.Pair(), blocked)
    requires leaf in LeavesOver(samplers, seat, entries, Without(remaining, seat), blocked, assignment, weight)
    ensures e in entries && seat in leaf.assignment && leaf.assignment[seat] == e.Pair()
  {
    OverExact(samplers, remaining, seat, entries, blocked, assignment, weight, leaf);
    e :| e in entries && e.Pair() == leaf.assignment[seat];
    assert seat in Elements(remaining);
  }

  lemma HeadPairApart(entries: seq<Entry>, f: Entry)
    requires DistinctPairs(entries) && entries != [] && f in entries[1..]
    ensures f.Pair() != entries[0].Pair()
  {
    var i :| 0 <= i < |entries[1..]| && entries[1..][i] == f;
    assert entries[i + 1] == f;
  }

  lemma {:induction false} LeavesDistinct(samplers: map<int, Sampler>, remaining: seq<int>, blocked: set<Card>,
                                          assignment: Assignment, weight: real)
    requires ValidSeats(samplers, remaining) && forall s :: s in remaining ==> s !in assignment
    ensures DistinctAssignments(Leaves(samplers, remaining, blocked, assignment, weight))
    decreases |remaining|, 0
  {
    if remaining != [] {
      var seat := FewestOptions(samplers, remaining, blocked);
      var eligible := Eligible(samplers[seat].entries, blocked);
      WithoutDistinct(remaining, seat);
      assert ValidSampler(samplers[seat]);
      EligibleDistinct(samplers[seat].entries, blocked);
      OverDistinct(samplers, remaining, seat, eligible, blocked, assignment, weight);
    }
  }

  lemma {:induction false} OverDistinct(samplers: map<int, Sampler>, remaining: seq<int>, seat: int, entries: seq<Entry>,
                                        blocked: set<Card>, assignment: Assignment, weight: real)
    requires ValidSeats(samplers, remaining) && (forall s :: s in remaining ==> s !in assignment) && seat in remaining
    requires Distinct(Without(remaining, seat)) && DistinctPairs(entries)
    requires forall e :: e in entries ==> e in samplers[seat].entries && Avoids(e.Pair(), blocked)
    ensures DistinctAssignments(LeavesOver(samplers, seat, entries, Without(remaining, seat), blocked, assignment, weight))
    decreases |remaining| - 1, |entries| + 1
  {
    hide ValidSampler, Times, FewestOptions, Eligible;
    if entries != [] {
      var e, tail, rest := entries[0], entries[1..], Without(remaining, seat);
      assert entries == [e] + tail;
      OverHead(samplers, seat, entries, rest, blocked, assignment, weight);
      var here := Leaves(samplers, rest, blocked + {e.first, e.second}, assignment[seat := e.Pair()], Times(weight, e.weight));
      var there := LeavesOver(samplers, seat, tail, rest, blocked, assignment, weight);
      LeavesDistinct(samplers, rest, blocked + {e.first, e.second}, assignment[seat := e.Pair()], Times(weight, e.weight));
      OverDistinct(samplers, remaining, seat, tail, blocked, assignment, weight);
      forall x, y | x in here && y in there ensures x.assignment != y.assignment {
        var placed := assignment[seat := e.Pair()];
        LeafKeeps(samplers, rest, blocked + {e.first, e.second}, placed, Times(weight, e.weight), x, seat);
        var f := LeafPicks(samplers, remaining, seat, tail, blocked, assignment, weight, y);
        HeadPairApart(entries, f);
      }
      AppendDistinct(here, there);
    }
  }

  /** All leaves of a search from scratch. */
  function AllLeaves(samplers: map<int, Sampler>, seats: seq<int>): seq<Leaf>
    requires ValidSeats(samplers, seats)
  {
    Leaves(samplers, seats, {}, map[], 1.0)
  }

  /**
   * Whichever seat the heuristic expands first, the search lists every card-disjoint assignment,
   * lists it once, and gives it the product of its marginals.
   */
  lemma EnumerationExact(samplers: map<int, Sampler>, seats: seq<int>)
    requires ValidSeats(samplers, seats)
    ensures forall a :: Legal(samplers, seats, a) ==> Leaf(a, JointWeight(samplers, seats, a)) in AllLeaves(samplers, seats)
    ensures forall leaf :: leaf in AllLeaves(samplers, seats) ==>
              Legal(samplers, seats, leaf.assignment)
              && leaf.weight == JointWeight(samplers, seats, leaf.assignment) && leaf.weight > 0.0
    ensures DistinctAssignments(AllLeaves(samplers, seats))
  {
    LeavesDistinct(samplers, seats, {}, map[], 1.0);
    forall a | Legal(samplers, seats, a)
      ensures Leaf(a, JointWeight(samplers, seats, a)) in AllLeaves(samplers, seats)
    {
      LeavesExact(samplers, seats, {}, map[], 1.0, Leaf(a, JointWeight(samplers, seats, a)));
    }
    forall leaf | leaf in AllLeaves(samplers, seats)
      ensures Legal(samplers, seats, leaf.assignment)
              && leaf.weight == JointWeight(samplers, seats, leaf.assignment) && leaf.weight > 0.0
    {
      LeavesExact(samplers, seats, {}, map[], 1.0, leaf);
      JointWeightPositive(samplers, seats, leaf.assignment);
    }
  }

  // ---------------------------------------------------------------- the weighted scan

  function LeafWeights(leaves: seq<Leaf>): (s: seq<real>)
    ensures |s| == |leaves| && forall i :: 0 <= i < |leaves| ==> s[i] == leaves[i].weight
  {
    seq(|leaves|, i requires 0 <= i < |leaves| => leaves[i].weight)
  }

  /** The cumulative scan of the leaves for a uniform draw u in [0, 1): a leaf whose own part of the total holds the target. */
  method ScanLeaves(leaves: seq<Leaf>, u: real) returns (assignment: Assignment, i: nat)
    requires leaves != [] && 0.0 <= u < 1.0 && forall l :: l in leaves ==> l.weight > 0.0
    ensures Hits(LeafWeights(leaves), i, Target(u, Sum(LeafWeights(leaves)))) && assignment == leaves[i].assignment
  {
    hide Target, Sum;
    ghost var weights := LeafWeights(leaves);
    forall k | 0 <= k < |weights| ensures weights[k] > 0.0 { assert leaves[k] in leaves; }
    var total := 0.0;
    NoSum();
    for k := 0 to |leaves|
      invariant total == Sum(weights[..k])
    {
      SumTake(weights, k);
      total := total + leaves[k].weight;
    }
    assert weights[..|leaves|] == weights && weights[..0] == [];
    var target := Target(u, total);
    SumGrows(weights, 0, |leaves|);
    TargetBelow(u, total);
    var cumulative := 0.0;
    i := 0;
    assignment := leaves[|leaves| - 1].assignment;
    while i < |leaves|
      invariant 0 <= i <= |leaves|
      invariant cumulative == Sum(weights[..i]) && cumulative <= target
    {
      SumTake(weights, i);
      cumulative := cumulative + leaves[i].weight;
      if target < cumulative {
        assignment := leaves[i].assignment;
        return;
      }
      i := i + 1;
    }
    assert false;
  }

  lemma NoSum()
    ensures Sum([]) == 0.0
  {}

  // ---------------------------------------------------------------- joint samples

  datatype JointResult = Sampled(assignment: Assignment) | NoSupport | LimitHit

  function Flatten(seats: seq<int>, a: Assignment): seq<Card>
    requires forall s :: s in seats ==> s in a
  {
    if seats == [] then []
    else
      var seat := seats[0];
      assert seat in seats;
      [a[seat].0, a[seat].1] + Flatten(seats[1..], a)
  }

  lemma {:induction false} FlattenHolds(seats: seq<int>, a: Assignment, s: int)
    requires (forall x :: x in seats ==> x in a) && s in seats
    ensures a[s].0 in Flatten(seats, a) && a[s].1 in Flatten(seats, a)
  {
    var cards := Flatten(seats, a);
    assert seats == [seats[0]] + seats[1..];
    assert cards[0] == a[seats[0]].0 && cards[1] == a[seats[0]].1;
    if s != seats[0] {
      FlattenHolds(seats[1..], a, s);
      assert cards[2..] == Flatten(seats[1..], a);
    }
  }

  lemma {:induction false} FlattenDisjoint(seats: seq<int>, a: Assignment, s: int, t: int)
    requires (forall x :: x in seats ==> x in a) && Distinct(Flatten(seats, a))
    requires s in seats && t in seats && s != t
    ensures DisjointPairs(a[s], a[t])
  {
    var cards := Flatten(seats, a);
    var first, tail := seats[0], seats[1..];
    assert seats == [first] + tail;
    assert cards == [a[first].0, a[first].1] + Flatten(tail, a);
    assert forall c :: c in Flatten(tail, a) ==> c != cards[0] && c != cards[1] by {
      forall i | 0 <= i < |Flatten(tail, a)| ensures Flatten(tail, a)[i] == cards[i + 2] {}
    }
    if s == first {
      FlattenHolds(tail, a, t);
    } else if t == first {
      FlattenHolds(tail, a, s);
    } else {
      assert Distinct(Flatten(tail, a)) by {
        forall i, j | 0 <= i < j < |Flatten(tail, a)| ensures Flatten(tail, a)[i] != Flatten(tail, a)[j] {
          assert cards[i + 2] != cards[j + 2];
        }
      }
      FlattenDisjoint(tail, a, s, t);
    }
  }

  /** The uniform draws that one round over the seats uses up: none for a seat without entries. */
  function DrawsUsed(samplers: map<int, Sampler>, seats: seq<int>): nat
    requires KnownSeats(samplers, seats)
  {
    if seats == [] then 0
    else
      var n := |seats| - 1;
      var seat := seats[n];
      assert seat in seats && seat in samplers;
      DrawsUsed(samplers, seats[..n]) + if samplers[seat].total > 0.0 then 1 else 0
  }

  /** What one round over the seats draws; None when some seat has no entries. */
  function Drawn(samplers: map<int, Sampler>, seats: seq<int>, draws: nat -> real, start: nat): Option<Assignment>
    requires KnownSeats(samplers, seats)
  {
    if seats == [] then Some(map[])
    else
      var n := |seats| - 1;
      var seat := seats[n];
      assert seat in seats && seat in samplers;
      var before := Drawn(samplers, seats[..n], draws, start);
      var pair := DrawSampler(samplers[seat], draws(start + DrawsUsed(samplers, seats[..n])));
      if before.None? || pair.None? then None else Some(before.value[seat := pair.value])
  }

  lemma DrawnPair(s: Sampler, u: real)
    requires ValidSampler(s) && 0.0 <= u < 1.0
    ensures DrawSampler(s, u).Some? ==> PairIn(s, DrawSampler(s, u).value)
  {
    DrawIsProportional(s, u);
  }

  lemma {:induction false} DrawnPairs(samplers: map<int, Sampler>, seats: seq<int>, draws: nat -> real, start: nat)
    requires ValidSeats(samplers, seats) && forall n :: 0.0 <= draws(n) < 1.0
    ensures var a := Drawn(samplers, seats, draws, start);
            a.Some? ==> a.value.Keys == Elements(seats) && forall s :: s in seats ==> s in a.value && PairIn(samplers[s], a.value[s])
  {
    hide DrawSampler, PairIn, ValidSampler, DrawsUsed;
    if seats != [] {
      var n := |seats| - 1;
      var seat := seats[n];
      assert seats == seats[..n] + [seat] && seat in seats;
      DrawnPairs(samplers, seats[..n], draws, start);
      assert forall s :: s in seats <==> s in seats[..n] || s == seat;
      assert Elements(seats) == Elements(seats[..n]) + {seat};
      DrawnPair(samplers[seat], draws(start + DrawsUsed(samplers, seats[..n])));
    }
  }

  /** One independent draw per seat. */
  method DrawAll(samplers: map<int, Sampler>, seats: seq<int>, draws: nat -> real, start: nat)
    returns (a: Option<Assignment>, next: nat)
    requires KnownSeats(samplers, seats)
    ensures a == Drawn(samplers, seats, draws, start)
    ensures next == start + DrawsUsed(samplers, seats)
  {
    hide DrawSampler;
    var chosen: Assignment := map[];
    var missing := false;
    next := start;
    for i := 0 to |seats|
      invariant Drawn(samplers, seats[..i], draws, start) == if missing then None else Some(chosen)
      invariant next == start + DrawsUsed(samplers, seats[..i])
    {
      var seat := seats[i];
      assert seats[..i + 1][..i] == seats[..i];
      var pair := DrawSampler(samplers[seat], draws(next));
      if samplers[seat].total > 0.0 {
        next := next + 1;
      }
      if pair.None? {
        missing := true;
      } else {
        chosen := chosen[seat := pair.value];
      }
    }
    assert seats[..|seats|] == seats;
    a := if missing then None else Some(chosen);
  }

  const REJECTION_ROUNDS: nat := 24

  /** A round that gave every seat a hand without using a card twice. */
  predicate Accepted(seats: seq<int>, a: Option<Assignment>) {
    a.Some? && (forall s :: s in seats ==> s in a.value) && Distinct(Flatten(seats, a.value))
  }

  /** The first accepted round, and the position of the next unused draw. */
  function Rejection(samplers: map<int, Sampler>, seats: seq<int>, draws: nat -> real, start: nat, rounds: nat): (Option<Assignment>, nat)
    requires KnownSeats(samplers, seats)
    decreases rounds
  {
    if rounds == 0 then (None, start)
    else
      var a, next := Drawn(samplers, seats, draws, start), start + DrawsUsed(samplers, seats);
      if Accepted(seats, a) then (a, next) else Rejection(samplers, seats, draws, next, rounds - 1)
  }

  lemma AcceptedIsLegal(samplers: map<int, Sampler>, seats: seq<int>, draws: nat -> real, start: nat)
    requires ValidSeats(samplers, seats) && forall n :: 0.0 <= draws(n) < 1.0
    requires Accepted(seats, Drawn(samplers, seats, draws, start))
    ensures Legal(samplers, seats, Drawn(samplers, seats, draws, start).value)
  {
    DrawnPairs(samplers, seats, draws, start);
    var a := Drawn(samplers, seats, draws, start).value;
    forall s, t | s in seats && t in seats && s != t ensures DisjointPairs(a[s], a[t]) {
      FlattenDisjoint(seats, a, s, t);
    }
  }

  /** What the enumeration answers for one draw: a cap, no support, or the leaf whose own part of the total the draw hits. */
  ghost predicate FromLeaves(samplers: map<int, Sampler>, seats: seq<int>, u: real, stateCap: nat, leafCap: nat, result: JointResult)
    requires ValidSeats(samplers, seats)
  {
    var leaves := AllLeaves(samplers, seats);
    if StateCount(samplers, seats, {}) > stateCap || |leaves| > leafCap then result == LimitHit
    else if leaves == [] then result == NoSupport
    else exists i :: Hits(LeafWeights(leaves), i, Target(u, Sum(LeafWeights(leaves)))) && result == Sampled(leaves[i].assignment)
  }

  /** _sample_joint_opponents over a stream of uniform draws: rejection, then the exact enumeration. */
  method SampleJoint(samplers: map<int, Sampler>, seats: seq<int>, draws: nat -> real, stateCap: nat, leafCap: nat)
    returns (result: JointResult)
    requires ValidSeats(samplers, seats) && forall n :: 0.0 <= draws(n) < 1.0
    ensures result.Sampled? ==> Legal(samplers, seats, result.assignment)
    ensures result.NoSupport? ==> forall a :: !Legal(samplers, seats, a)
    ensures var (drawn, next) := Rejection(samplers, seats, draws, 0, REJECTION_ROUNDS);
            if drawn.Some? then result == Sampled(drawn.value)
            else FromLeaves(samplers, seats, draws(next), stateCap, leafCap, result)
  {
    hide Drawn, DrawsUsed, Legal, FromLeaves;
    var next := 0;
    ghost var whole := Rejection(samplers, seats, draws, 0, REJECTION_ROUNDS);
    for attempt := 0 to REJECTION_ROUNDS
      invariant Rejection(samplers, seats, draws, next, REJECTION_ROUNDS - attempt) == whole
    {
      ghost var before := next;
      var a;
      a, next := DrawAll(samplers, seats, draws, next);
      if Accepted(seats, a) {
        AcceptedIsLegal(samplers, seats, draws, before);
        return Sampled(a.value);
      }
    }
    result := SampleLeaf(samplers, seats, draws(next), stateCap, leafCap);
  }

  /** The enumeration after too many rejections. */
  method SampleLeaf(samplers: map<int, Sampler>, seats: seq<int>, u: real, stateCap: nat, leafCap: nat)
    returns (result: JointResult)
    requires ValidSeats(samplers, seats) && 0.0 <= u < 1.0
    ensures result.Sampled? ==> Legal(samplers, seats, result.assignment)
    ensures result.NoSupport? ==> forall a :: !Legal(samplers, seats, a)
    ensures FromLeaves(samplers, seats, u, stateCap, leafCap, result)
  {
    hide Legal, Leaves, StateCount, DistinctAssignments, Target, Sum;
    var search := new JointSearch(samplers, stateCap, leafCap);
    var ok := search.Enumerate(seats, {}, 1.0);
    if !ok {
      return LimitHit;
    }
    assert search.leaves == AllLeaves(samplers, seats);
    EnumerationExact(samplers, seats);
    if search.leaves == [] {
      return NoSupport;
    }
    var assignment, i := ScanLeaves(search.leaves, u);
    assert search.leaves[i] in search.leaves;
    result := Sampled(assignment);
  }
}
