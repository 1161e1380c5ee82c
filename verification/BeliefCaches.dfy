/** The public-event belief consumer with its layered caches, proved equal to the replay without them. */
module BeliefCaches {
  import opened Cards
  import opened RangeExpansion
  import opened RangeBelief
  import opened Likelihood
  import opened LruCaches
  import opened BeliefReplay

  /** A snapshot object: its address, which other objects may share over time, and its frozen value. */
  class Snap {
    const address: int
    const value: Snapshot

    constructor (value: Snapshot, address: int)
      ensures this.value == value && this.address == address
    {
      this.value, this.address := value, address;
    }
  }

  datatype ActionKey = ActionKey(address: int, action: Action, sequence: int, context: Context,
                                 amount: Option<nat>, policy: Option<PolicyUse>)
  datatype SpreadKey = SpreadKey(address: int, bucketed: Bucketed, policy: Option<PolicyUse>)
  datatype BlockKey = BlockKey(address: int, cards: seq<Card>, sequence: int, street: Street)
  datatype PriorKey = PriorKey(seat: int, family: string, visible: seq<Card>)
  datatype BeliefKey = BeliefKey(target: int, visible: multiset<Card>, started: Started, steps: seq<Step>)

  /** A cached distribution: its source, the updated combos, and the probe that must match. */
  datatype SpreadEntry = SpreadEntry(source: Snap, spread: Spread, probe: Hole, probeLikelihood: real)

  datatype SeatBelief = SeatBelief(prior: Snap, current: Snap, inactive: bool)

  datatype Answer = NoAnswer | Refusal(reason: Reason) | Answered(seats: map<int, SeatBelief>)

  function SeatValues(seats: map<int, SeatBelief>): map<int, SeatValue> {
    map s | s in seats :: SeatValue(seats[s].prior.value, seats[s].current.value, seats[s].inactive)
  }

  function AnswerValue(a: Answer): Beliefs {
    match a
    case NoAnswer => NoBeliefs
    case Refusal(reason) => Unavailable(reason)
    case Answered(seats) => Ready(SeatValues(seats))
  }

  const BLOCKER_CACHE_MAX: nat := 48
  const ACTION_CACHE_MAX: nat := 64
  const INACTIVE_CACHE_MAX: nat := 16
  const ACTION_DISTRIBUTION_CACHE_MAX: nat := 64
  const IMMUTABLE_SNAPSHOT_CACHE_MAX: nat := 32
  const BELIEF_CACHE_MAX: nat := 12
  const PRIOR_CACHE_MAX: nat := 96

  // ---------------------------------------------------------------- what a cached entry must satisfy

  predicate ActionSound(w: World, e: (ActionKey, (Snap, Snap))) {
    ActionValue(w, e.1.0.value, e.0.action, e.0.sequence, e.0.context, e.0.amount, e.0.policy) == Some(e.1.1.value)
  }

  /** The distribution is right for every action and context with these buckets. */
  ghost predicate SpreadSound(w: World, e: (SpreadKey, SpreadEntry)) {
    forall a: Action, amount: Option<nat>, c: Context :: BucketedOf(a.action, a.street, amount, c) == e.0.bucketed ==>
      SpreadOf(e.1.source.value, ActionLikelihood(w, a, amount, c, e.0.policy)) == Some(e.1.spread)
  }

  predicate BlockSound(e: (BlockKey, (Snap, Snap))) {
    BlockValue(e.1.0.value, e.0.cards, e.0.sequence, e.0.street) == Some(e.1.1.value)
  }

  predicate SameValue(e: (int, (Snap, Snap))) {
    e.1.0.value == e.1.1.value
  }

  predicate PriorSound(w: World, e: (PriorKey, Snap)) {
    e.1.value == w.prior(e.0.seat, e.0.family, Elements(e.0.visible))
  }

  predicate BeliefSound(w: World, e: (BeliefKey, map<int, SeatBelief>)) {
    PrefixBeliefs(w, e.0.started, MultisetElements(e.0.visible), e.0.steps) == Some(Ready(SeatValues(e.1)))
  }

  function MultisetElements(m: multiset<Card>): set<Card> {
    set c | c in m
  }

  /** The module-level caches. */
  class BeliefConsumer {
    const world: World
    var blockers: seq<(BlockKey, (Snap, Snap))>
    var actions: seq<(ActionKey, (Snap, Snap))>
    var inactives: seq<(int, (Snap, Snap))>
    var spreads: seq<(SpreadKey, SpreadEntry)>
    var immutables: seq<(int, (Snap, Snap))>
    var beliefs: seq<(BeliefKey, map<int, SeatBelief>)>
    var priors: seq<(PriorKey, Snap)>

    /** Every cache is within its bound, and every entry repeats what would be computed. */
    ghost predicate Valid()
      reads this
    {
      && Bounded(blockers, BLOCKER_CACHE_MAX) && Bounded(actions, ACTION_CACHE_MAX)
      && Bounded(inactives, INACTIVE_CACHE_MAX) && Bounded(spreads, ACTION_DISTRIBUTION_CACHE_MAX)
      && Bounded(immutables, IMMUTABLE_SNAPSHOT_CACHE_MAX) && Bounded(beliefs, BELIEF_CACHE_MAX)
      && Bounded(priors, PRIOR_CACHE_MAX)
      && (forall i :: 0 <= i < |blockers| ==> BlockSound(blockers[i]))
      && (forall i :: 0 <= i < |actions| ==> ActionSound(world, actions[i]))
      && (forall i :: 0 <= i < |inactives| ==> SameValue(inactives[i]))
      && (forall i :: 0 <= i < |spreads| ==> SpreadSound(world, spreads[i]))
      && (forall i :: 0 <= i < |immutables| ==> SameValue(immutables[i]))
      && (forall i :: 0 <= i < |beliefs| ==> BeliefSound(world, beliefs[i]))
      && (forall i :: 0 <= i < |priors| ==> PriorSound(world, priors[i]))
    }

    constructor (world: World)
      ensures Valid() && this.world == world
    {
      this.world := world;
      blockers, actions, inactives, spreads, immutables, beliefs, priors := [], [], [], [], [], [], [];
    }

    /** A new object; the allocator may reuse an address of a collected one. */
    method Allocate(value: Snapshot) returns (s: Snap)
      ensures s.value == value
    {
      var address: int := *;
      s := new Snap(value, address);
    }

    method ApplyBlockers(s: Snap, cards: seq<Card>, sequence: int, street: Street) returns (r: Option<Snap>)
      requires Valid()
      modifies this`blockers
      ensures Valid()
      ensures r.None? <==> BlockValue(s.value, cards, sequence, street).None?
      ensures r.Some? ==> Some(r.value.value) == BlockValue(s.value, cards, sequence, street)
    {
      hide BlockValue, Bounded, Find, Touched, Stored, ActionSound, SpreadSound, SameValue, BeliefSound, PriorSound;
      var key := BlockKey(s.address, cards, sequence, street);
      var cached := Find(blockers, key);
      if cached.Some? && cached.value.0 == s {
        TouchKeeps(blockers, key, BLOCKER_CACHE_MAX);
        assert BlockSound((key, cached.value));
        blockers := Touched(blockers, key);
        return Some(cached.value.1);
      }
      var value := BlockValue(s.value, cards, sequence, street);
      if value.None? {
        return None;
      }
      var result := Allocate(value.value);
      assert BlockSound((key, (s, result)));
      StoreKeeps(blockers, key, (s, result), BLOCKER_CACHE_MAX);
      blockers := Store(blockers, key, (s, result), BLOCKER_CACHE_MAX);
      r := Some(result);
    }

    /** The distribution cache: hit only for the same object, probe and probe likelihood. */
    method SpreadFor(s: Snap, a: Action, c: Context, amount: Option<nat>, policy: Option<PolicyUse>)
      returns (r: Option<Spread>)
      requires Valid()
      modifies this`spreads
      ensures Valid()
      ensures r == SpreadOf(s.value, ActionLikelihood(world, a, amount, c, policy))
    {
      hide SpreadOf, ActionLikelihood, BucketedOf, Bounded, Find, Touched, Stored,
           ActionSound, BlockSound, SameValue, BeliefSound, PriorSound;
      var key := SpreadKey(s.address, BucketedOf(a.action, a.street, amount, c), policy);
      if s.value.combos == [] {
        NoCombos(s.value, ActionLikelihood(world, a, amount, c, policy));
        return None;
      }
      var probe := s.value.combos[0].key;
      var probeLikelihood := ActionLikelihood(world, a, amount, c, policy)(probe);
      var cached := Find(spreads, key);
      if cached.Some? && cached.value.source == s && cached.value.probe == probe && cached.value.probeLikelihood == probeLikelihood {
        TouchKeeps(spreads, key, ACTION_DISTRIBUTION_CACHE_MAX);
        assert SpreadSound(world, (key, cached.value));
        spreads := Touched(spreads, key);
        return Some(cached.value.spread);
      }
      r := SpreadOf(s.value, ActionLikelihood(world, a, amount, c, policy));
      if r.Some? {
        var entry := SpreadEntry(s, r.value, probe, probeLikelihood);
        SpreadIsSound(key, entry, a, c, amount);
        StoreKeeps(spreads, key, entry, ACTION_DISTRIBUTION_CACHE_MAX);
        spreads := Store(spreads, key, entry, ACTION_DISTRIBUTION_CACHE_MAX);
      }
    }

    lemma SpreadIsSound(key: SpreadKey, entry: SpreadEntry, a: Action, c: Context, amount: Option<nat>)
      requires key.bucketed == BucketedOf(a.action, a.street, amount, c)
      requires SpreadOf(entry.source.value, ActionLikelihood(world, a, amount, c, key.policy)) == Some(entry.spread)
      ensures SpreadSound(world, (key, entry))
    {
      hide SpreadOf, ActionLikelihood, BucketedOf;
      forall b: Action, other: Option<nat>, d: Context | BucketedOf(b.action, b.street, other, d) == key.bucketed
        ensures SpreadOf(entry.source.value, ActionLikelihood(world, b, other, d, key.policy)) == Some(entry.spread)
      {
        SpreadFactors(world, entry.source.value, a, amount, c, key.policy, b, other, d);
      }
    }

    method ApplyAction(s: Snap, a: Action, sequence: int, c: Context, amount: Option<nat>, cacheTransition: bool,
                       policy: Option<PolicyUse>) returns (r: Option<Snap>)
      requires Valid()
      modifies this`actions, this`spreads
      ensures Valid()
      ensures r.None? <==> ActionValue(world, s.value, a, sequence, c, amount, policy).None?
      ensures r.Some? ==> Some(r.value.value) == ActionValue(world, s.value, a, sequence, c, amount, policy)
    {
      hide SpreadOf, ActionLikelihood, Bounded, Find, Touched, Stored, SpreadSound, BlockSound, SameValue, BeliefSound, PriorSound;
      var key := ActionKey(s.address, a, sequence, c, amount, policy);
      if cacheTransition {
        var cached := Find(actions, key);
        if cached.Some? && cached.value.0 == s {
          TouchKeeps(actions, key, ACTION_CACHE_MAX);
          assert ActionSound(world, (key, cached.value));
          actions := Touched(actions, key);
          return Some(cached.value.1);
        }
      }
      var spread := SpreadFor(s, a, c, amount, policy);
      if spread.None? {
        return None;
      }
      var result := Allocate(Snapshot(s.value.seat, a.street, sequence, s.value.retainedMass, spread.value.mass, spread.value.combos));
      if cacheTransition {
        assert ActionSound(world, (key, (s, result)));
        StoreKeeps(actions, key, (s, result), ACTION_CACHE_MAX);
        actions := Store(actions, key, (s, result), ACTION_CACHE_MAX);
      }
      r := Some(result);
    }

    /** _mark_inactive: the folded snapshot with a note; its numbers stay. */
    method MarkInactive(s: Snap, a: Action, sequence: int, c: Context, amount: Option<nat>, cacheTransition: bool,
                        policy: Option<PolicyUse>) returns (r: Option<Snap>)
      requires Valid()
      modifies this`actions, this`spreads, this`inactives, this`immutables
      ensures Valid()
      ensures r.None? <==> ActionValue(world, s.value, a, sequence, c, amount, policy).None?
      ensures r.Some? ==> Some(r.value.value) == ActionValue(world, s.value, a, sequence, c, amount, policy)
    {
      hide ActionValue, Bounded, Find, Touched, Stored, ActionSound, SpreadSound, BlockSound, BeliefSound, PriorSound;
      var folded := ApplyAction(s, a, sequence, c, amount, cacheTransition, policy);
      if folded.None? {
        return None;
      }
      r := CopyOf(folded.value, cacheTransition, true);
    }

    /** A copy that differs in metadata only, through the inactive or the immutable cache. */
    method CopyOf(s: Snap, cacheValue: bool, inactive: bool) returns (r: Option<Snap>)
      requires Valid()
      modifies this`inactives, this`immutables
      ensures Valid() && r.Some? && r.value.value == s.value
      ensures inactive ==> immutables == old(immutables)
      ensures !inactive ==> inactives == old(inactives)
    {
      hide Bounded, Find, Touched, Stored, ActionSound, SpreadSound, BlockSound, BeliefSound, PriorSound;
      var entries, limit := if inactive then inactives else immutables,
                            if inactive then INACTIVE_CACHE_MAX else IMMUTABLE_SNAPSHOT_CACHE_MAX;
      var key := s.address;
      if cacheValue {
        var cached := Find(entries, key);
        if cached.Some? && cached.value.0 == s {
          TouchKeeps(entries, key, limit);
          assert SameValue((key, cached.value));
          if inactive { inactives := Touched(entries, key); } else { immutables := Touched(entries, key); }
          return Some(cached.value.1);
        }
      }
      var copy := Allocate(s.value);
      if cacheValue {
        assert SameValue((key, (s, copy)));
        StoreKeeps(entries, key, (s, copy), limit);
        var stored := Store(entries, key, (s, copy), limit);
        if inactive { inactives := stored; } else { immutables := stored; }
      }
      r := Some(copy);
    }

    /** The prior provider, whose snapshots are memoised. */
    method PriorFor(g: Started, seat: int, visible: seq<Card>) returns (s: Snap)
      requires Valid() && world.family(g, seat).Some?
      modifies this`priors
      ensures Valid() && s.value == PriorValue(world, g, Elements(visible), seat)
    {
      hide Bounded, Find, Touched, Stored, ActionSound, SpreadSound, BlockSound, BeliefSound, SameValue;
      var family := world.family(g, seat).value;
      var key := PriorKey(seat, family, visible);
      var cached := Find(priors, key);
      if cached.Some? {
        TouchKeeps(priors, key, PRIOR_CACHE_MAX);
        assert PriorSound(world, (key, cached.value));
        priors := Touched(priors, key);
        return cached.value;
      }
      s := Allocate(world.prior(seat, family, Elements(visible)));
      assert PriorSound(world, (key, s));
      StoreKeeps(priors, key, s, PRIOR_CACHE_MAX);
      priors := Store(priors, key, s, PRIOR_CACHE_MAX);
    }

    // -------------------------------------------------------------- the replay with objects

    /** All seats through the blockers of one deal. */
    method BlockSeats(snaps: map<int, Snap>, cards: seq<Card>, sequence: int, street: Street) returns (r: Option<map<int, Snap>>)
      requires Valid()
      modifies this`blockers
      ensures Valid()
      ensures r.None? <==> BlockAll(Values(snaps), cards, sequence, street).None?
      ensures r.Some? ==> Some(Values(r.value)) == BlockAll(Values(snaps), cards, sequence, street)
    {
      hide Valid, BlockValue;
      var done: map<int, Snap> := map[];
      var seats := snaps.Keys;
      while seats != {}
        invariant Valid() && seats <= snaps.Keys && done.Keys == snaps.Keys - seats
        invariant forall s :: s in done ==> BlockValue(snaps[s].value, cards, sequence, street) == Some(done[s].value)
        decreases |seats|
      {
        ghost var some := AnyMember(seats);
        var seat :| seat in seats;
        var blocked := ApplyBlockers(snaps[seat], cards, sequence, street);
        if blocked.None? {
          assert seat in Values(snaps) && BlockValue(Values(snaps)[seat], cards, sequence, street).None?;
          return None;
        }
        done := done[seat := blocked.value];
        seats := seats - {seat};
      }
      r := Some(done);
      BlockedTogether(snaps, done, cards, sequence, street);
    }

    method ActOn(g: Started, snaps: map<int, Snap>, t: Table, a: Action, sequence: int, target: int)
      returns (r: Option<map<int, Snap>>)
      requires Valid() && KnowsSeat(snaps.Keys, t, a.actor)
      modifies this`actions, this`spreads, this`inactives, this`immutables
      ensures Valid()
      ensures var step := ReplayStep(world, g, Replay(Values(snaps), t), Acted(sequence, a));
              (r.None? <==> step.None?) && (r.Some? ==> step == Some(Replay(Values(r.value), TableAfter(t, a))))
    {
      hide Valid, ActionValue, ContextOf, LikelihoodAmount, TableAfter, PolicyOf;
      var s := snaps[a.actor];
      var policy := PolicyOf(world, g, t, a, s.value);
      var updated;
      if a.action.SimFold? {
        updated := MarkInactive(s, a, sequence, ContextOf(world, g, t, a), LikelihoodAmount(t, a), sequence < target, policy);
      } else {
        updated := ApplyAction(s, a, sequence, ContextOf(world, g, t, a), LikelihoodAmount(t, a), sequence < target, policy);
      }
      if updated.None? {
        return None;
      }
      r := Some(snaps[a.actor := updated.value]);
      assert Values(r.value) == Values(snaps)[a.actor := updated.value.value];
    }

    /** The loop over the public events. */
    method ReplayEvents(g: Started, priorSnaps: map<int, Snap>, visible: set<Card>, steps: seq<Step>, target: int)
      returns (r: Option<(map<int, Snap>, Table)>)
      requires Valid() && Values(priorSnaps) == PriorSnapshots(world, g, visible)
      modifies this`blockers, this`actions, this`spreads, this`inactives, this`immutables
      ensures Valid()
      ensures r.None? <==> ReplayAll(world, g, visible, steps).None?
      ensures r.Some? ==> ReplayAll(world, g, visible, steps) == Some(Replay(Values(r.value.0), r.value.1))
    {
      hide Valid, PriorSnapshots, Opening, ReplayStep;
      var snaps, table := priorSnaps, Opening(world, g, g.active);
      for i := 0 to |steps|
        invariant Valid() && ReplayAll(world, g, visible, steps[..i]) == Some(Replay(Values(snaps), table))
      {
        assert steps[..i + 1][..i] == steps[..i];
        var next;
        next, table := OneStep(g, snaps, table, steps[i], target);
        if next.None? {
          FailureStays(world, g, visible, steps, i + 1);
          return None;
        }
        snaps := next.value;
      }
      assert steps[..|steps|] == steps;
      r := Some((snaps, table));
    }

    method OneStep(g: Started, snaps: map<int, Snap>, t: Table, step: Step, target: int)
      returns (next: Option<map<int, Snap>>, table: Table)
      requires Valid()
      modifies this`blockers, this`actions, this`spreads, this`inactives, this`immutables
      ensures Valid()
      ensures var value := ReplayStep(world, g, Replay(Values(snaps), t), step);
              (next.None? <==> value.None?) && (next.Some? ==> value == Some(Replay(Values(next.value), table)))
    {
      hide Valid, ActionValue, BlockAll;
      table := t;
      match step {
        case Dealt(sequence, street, cards) =>
          next := BlockSeats(snaps, cards, sequence, street);
          table := TableDealt(g, t, cards);
        case Acted(sequence, a) =>
          if !KnowsSeat(snaps.Keys, t, a.actor) {
            return None, t;
          }
          next := ActOn(g, snaps, t, a, sequence, target);
          table := TableAfter(t, a);
      }
    }

    /** The results as immutable copies. */
    method Copies(priorSnaps: map<int, Snap>, current: map<int, Snap>, inactive: set<int>, target: int)
      returns (seats: map<int, SeatBelief>)
      requires Valid()
      modifies this`inactives, this`immutables
      ensures Valid()
      ensures SeatValues(seats) == map s | s in Values(current) && s in Values(priorSnaps) ::
                SeatValue(Values(priorSnaps)[s], Values(current)[s], s in inactive)
    {
      hide Valid, SeatValues, Values, Copied;
      seats := map[];
      var left := current.Keys * priorSnaps.Keys;
      while left != {}
        invariant Valid() && left <= current.Keys * priorSnaps.Keys
        invariant forall s :: s in seats <==> s in current && s in priorSnaps && s !in left
        invariant forall s :: s in seats ==> Copied(seats[s], priorSnaps[s], current[s], s in inactive)
        decreases |left|
      {
        ghost var some := AnyMember(left);
        var seat :| seat in left;
        var prior := CopyOf(priorSnaps[seat], true, false);
        var now := CopyOf(current[seat], current[seat].value.afterSequence < target, false);
        var belief := SeatBelief(prior.value, now.value, seat in inactive);
        assert Copied(belief, priorSnaps[seat], current[seat], seat in inactive) by { IsCopy(belief, priorSnaps[seat], current[seat]); }
        seats := seats[seat := belief];
        left := left - {seat};
      }
      CopiesHold(priorSnaps, current, inactive, seats);
    }

    /** beliefs_at for a public prefix, after the stream checks. */
    method PrefixAnswer(g: Started, visible: seq<Card>, steps: seq<Step>, target: int) returns (r: Option<Answer>)
      requires Valid()
      modifies this
      ensures Valid()
      ensures r.None? <==> PrefixBeliefs(world, g, Elements(visible), steps).None?
      ensures r.Some? ==> Some(AnswerValue(r.value)) == PrefixBeliefs(world, g, Elements(visible), steps)
    {
      hide Bounded, Find, Touched, Stored, ActionSound, SpreadSound, BlockSound, SameValue, PriorSound;
      var key := BeliefKey(target, multiset(visible), g, steps);
      assert MultisetElements(key.visible) == Elements(visible);
      var cached := Find(beliefs, key);
      if cached.Some? {
        TouchKeeps(beliefs, key, BELIEF_CACHE_MAX);
        assert BeliefSound(world, (key, cached.value));
        beliefs := Touched(beliefs, key);
        return Some(Answered(cached.value));
      }
      if !PriorsAvailable(world, g) {
        return Some(Refusal(PriorUnavailable));
      }
      var seats := Compute(g, visible, steps, target);
      if seats.None? {
        return None;
      }
      assert BeliefSound(world, (key, seats.value));
      StoreKeeps(beliefs, key, seats.value, BELIEF_CACHE_MAX);
      beliefs := Store(beliefs, key, seats.value, BELIEF_CACHE_MAX);
      r := Some(Answered(seats.value));
    }

    method Compute(g: Started, visible: seq<Card>, steps: seq<Step>, target: int) returns (r: Option<map<int, SeatBelief>>)
      requires Valid() && PriorsAvailable(world, g)
      modifies this`blockers, this`actions, this`spreads, this`inactives, this`immutables, this`priors
      ensures Valid()
      ensures r.None? <==> PrefixBeliefs(world, g, Elements(visible), steps).None?
      ensures r.Some? ==> Some(Ready(SeatValues(r.value))) == PrefixBeliefs(world, g, Elements(visible), steps)
    {
      hide Valid, ReplayAll;
      var priorSnaps: map<int, Snap> := map[];
      for i := 0 to |g.active|
        invariant Valid() && priorSnaps.Keys == Elements(g.active[..i])
        invariant forall s :: s in priorSnaps ==> priorSnaps[s].value == PriorValue(world, g, Elements(visible), s)
      {
        var seat := g.active[i];
        assert Elements(g.active[..i + 1]) == Elements(g.active[..i]) + {seat};
        var prior := PriorFor(g, seat, visible);
        priorSnaps := priorSnaps[seat := prior];
      }
      assert g.active[..|g.active|] == g.active;
      assert Values(priorSnaps) == PriorSnapshots(world, g, Elements(visible));
      var replayed := ReplayEvents(g, priorSnaps, Elements(visible), steps, target);
      if replayed.None? {
        return None;
      }
      var seats := Copies(priorSnaps, replayed.value.0, replayed.value.1.inactive, target);
      r := Some(seats);
    }

    /**
     * beliefs_at: whatever the caches hold after any earlier calls, the answer's reach, probability and mass values
     * are those of the replay without caches, and every cache stays within its bound.
     */
    method BeliefsAt(events: seq<StreamEvent>, visible: seq<Card>, after: Option<int>) returns (r: Option<Answer>)
      requires Valid()
      modifies this
      ensures Valid()
      ensures r.None? <==> BeliefsValue(world, events, visible, after).None?
      ensures r.Some? ==> Some(AnswerValue(r.value)) == BeliefsValue(world, events, visible, after)
    {
      hide Valid, PrefixBeliefs;
      if events == [] || !events[0].payload.HandStarted? {
        return Some(NoAnswer);
      }
      var target := if after.None? then events[|events| - 1].sequence else after.value;
      var prefix := Prefix(events, target);
      if !ValidPrefix(prefix) {
        return Some(Refusal(InvalidStream));
      }
      if exists e :: e in prefix && e.payload.HoleCardsRecorded? {
        return Some(Refusal(PrivateEventForbidden));
      }
      if !prefix[0].payload.HandStarted? {
        return None;
      }
      r := PrefixAnswer(prefix[0].payload.started, visible, PublicSteps(prefix[1..]), target);
    }
  }

  function Values(snaps: map<int, Snap>): Snapshots {
    map s | s in snaps :: snaps[s].value
  }

  predicate Copied(b: SeatBelief, prior: Snap, now: Snap, inactive: bool) {
    b.prior.value == prior.value && b.current.value == now.value && b.inactive == inactive
  }

  lemma IsCopy(b: SeatBelief, prior: Snap, now: Snap)
    requires b.prior.value == prior.value && b.current.value == now.value
    ensures Copied(b, prior, now, b.inactive)
  {}

  lemma CopiesHold(priorSnaps: map<int, Snap>, current: map<int, Snap>, inactive: set<int>, seats: map<int, SeatBelief>)
    requires forall s :: s in seats <==> s in current && s in priorSnaps
    requires forall s :: s in seats ==> Copied(seats[s], priorSnaps[s], current[s], s in inactive)
    ensures SeatValues(seats) == map s | s in Values(current) && s in Values(priorSnaps) ::
              SeatValue(Values(priorSnaps)[s], Values(current)[s], s in inactive)
  {
    assert forall s :: s in SeatValues(seats) <==> s in Values(current) && s in Values(priorSnaps);
    assert forall s :: s in seats ==>
             SeatValues(seats)[s] == SeatValue(Values(priorSnaps)[s], Values(current)[s], s in inactive);
  }

  lemma BlockedTogether(snaps: map<int, Snap>, done: map<int, Snap>, cards: seq<Card>, sequence: int, street: Street)
    requires done.Keys == snaps.Keys
    requires forall s :: s in done ==> BlockValue(snaps[s].value, cards, sequence, street) == Some(done[s].value)
    ensures BlockAll(Values(snaps), cards, sequence, street) == Some(Values(done))
  {
    hide BlockValue;
    assert forall s :: s in Values(snaps) ==> BlockValue(Values(snaps)[s], cards, sequence, street).Some?;
    var all := BlockAll(Values(snaps), cards, sequence, street).value;
    assert forall s :: s in all <==> s in Values(done);
    assert forall s :: s in all ==> all[s] == Values(done)[s];
    assert all == Values(done);
  }

  lemma NoCombos(s: Snapshot, likelihood: Hole -> real)
    requires s.combos == []
    ensures SpreadOf(s, likelihood).None?
  {
    assert Multiplied(WeightsOf(s.combos), likelihood) == [];
  }

  lemma {:induction false} FailureStays(w: World, g: Started, visible: set<Card>, steps: seq<Step>, i: nat)
    requires i <= |steps| && ReplayAll(w, g, visible, steps[..i]).None?
    ensures ReplayAll(w, g, visible, steps).None?
    decreases |steps|
  {
    hide ReplayStep, PriorSnapshots, Opening;
    if i == |steps| {
      assert steps[..i] == steps;
    } else {
      var n := |steps| - 1;
      assert steps[..n][..i] == steps[..i];
      FailureStays(w, g, visible, steps[..n], i);
    }
  }
}
