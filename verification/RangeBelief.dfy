/** One seat's range belief: the prior, policy updates, dead cards, and what a chain of them computes. */
module RangeBelief {
  import opened Cards
  import opened Combos
  import opened RangeExpansion
  import opened Sums

  datatype Street = Preflop | Flop | Turn | River | ShowdownStreet | Complete

  datatype ActionKind =
    | PostBlind | Check | Call | Bet | RaiseTo | Fold | AllIn
    | DealFlop | DealTurn | DealRiver | Showdown | AwardPot

  datatype Event = Event(sequence: int, street: Street, actorSeat: int, kind: ActionKind, amount: Option<nat>)

  /** A combo's reach weight and its conditional probability. */
  datatype ComboBelief = ComboBelief(key: Hole, reach: real, probability: real)

  datatype Weighted = Weighted(key: Hole, reach: real)

  datatype Snapshot = Snapshot(seat: int, street: Street, afterSequence: int,
                               priorMass: real, retainedMass: real, combos: seq<ComboBelief>)

  datatype BeliefError = NoPriorRange | NoPolicy | UnsupportedAction | ZeroProbability | InvalidPolicy | OtherError(code: string)

  /** Crashed stands for an exception outside the belief errors (a missing column, an empty action list). */
  datatype Outcome<T> = Done(value: T) | Refused(error: BeliefError) | Crashed

  // ---------------------------------------------------------------- weights and normalisation

  function Reaches(ws: seq<Weighted>): (s: seq<real>)
    ensures |s| == |ws| && forall i :: 0 <= i < |ws| ==> s[i] == ws[i].reach
  {
    seq(|ws|, i requires 0 <= i < |ws| => ws[i].reach)
  }

  function Total(ws: seq<Weighted>): real {
    Sum(Reaches(ws))
  }

  function Normalized(ws: seq<Weighted>, total: real): (combos: seq<ComboBelief>)
    requires total != 0.0
    ensures |combos| == |ws|
    ensures forall i :: 0 <= i < |ws| ==> combos[i] == ComboBelief(ws[i].key, ws[i].reach, Ratio(ws[i].reach, total))
  {
    seq(|ws|, i requires 0 <= i < |ws| => ComboBelief(ws[i].key, ws[i].reach, Ratio(ws[i].reach, total)))
  }

  function WeightsOf(combos: seq<ComboBelief>): (ws: seq<Weighted>)
    ensures |ws| == |combos| && forall i :: 0 <= i < |combos| ==> ws[i] == Weighted(combos[i].key, combos[i].reach)
  {
    seq(|combos|, i requires 0 <= i < |combos| => Weighted(combos[i].key, combos[i].reach))
  }

  predicate DistinctKeys(combos: seq<ComboBelief>) {
    forall i, j :: 0 <= i < j < |combos| ==> combos[i].key != combos[j].key
  }

  function KeySet(combos: seq<ComboBelief>): set<Hole> {
    set i | 0 <= i < |combos| :: combos[i].key
  }

  function ComboKeys(combos: seq<ComboBelief>): seq<Hole> {
    seq(|combos|, i requires 0 <= i < |combos| => combos[i].key)
  }

  function Probabilities(combos: seq<ComboBelief>): (s: seq<real>)
    ensures |s| == |combos| && forall i :: 0 <= i < |combos| ==> s[i] == combos[i].probability
  {
    seq(|combos|, i requires 0 <= i < |combos| => combos[i].probability)
  }

  /** The entries that hold no dead card, in order. */
  function Undead(ws: seq<Weighted>, dead: set<Card>): seq<Weighted> {
    if ws == [] then []
    else
      var last := ws[|ws| - 1];
      Undead(ws[..|ws| - 1], dead) + if Blocked(last.key, dead) then [] else [last]
  }

  /** Every reach multiplied by its likelihood. */
  function Multiplied(ws: seq<Weighted>, factor: Hole -> real): (r: seq<Weighted>)
    ensures |r| == |ws|
    ensures forall i :: 0 <= i < |ws| ==> r[i] == Weighted(ws[i].key, Times(ws[i].reach, factor(ws[i].key)))
  {
    seq(|ws|, i requires 0 <= i < |ws| => Weighted(ws[i].key, Times(ws[i].reach, factor(ws[i].key))))
  }

  function Positive(ws: seq<Weighted>): seq<Weighted> {
    if ws == [] then []
    else
      var last := ws[|ws| - 1];
      Positive(ws[..|ws| - 1]) + if last.reach > 0.0 then [last] else []
  }

  // ---------------------------------------------------------------- the prior

  function Weigh(entries: seq<Entry>): (ws: seq<Weighted>)
    ensures |ws| == |entries| && forall i :: 0 <= i < |entries| ==> ws[i] == Weighted(entries[i].Pair(), entries[i].weight)
  {
    seq(|entries|, i requires 0 <= i < |entries| => Weighted(entries[i].Pair(), entries[i].weight))
  }

  /** snapshot_from_range. */
  function FromRange(r: RangeSpec, seat: int, street: Street, after: int, dead: set<Card>): Outcome<Snapshot> {
    var ws := Weigh(Expanded(r, dead));
    if ws == [] || Total(ws) <= 0.0 then Refused(NoPriorRange)
    else Done(Snapshot(seat, street, after, Total(ws), Total(ws), Normalized(ws, Total(ws))))
  }

  /** snapshot_from_range, with its loop over the expanded combos. */
  method SnapshotFromRange(r: RangeSpec, seat: int, street: Street, after: int, dead: set<Card>) returns (o: Outcome<Snapshot>)
    requires ValidRange(r)
    ensures o == FromRange(r, seat, street, after, dead)
  {
    hide Expanded, RangeWeight;
    var expanded := ExpandRange(r, dead);
    var total := Total(Weigh(expanded));
    if expanded == [] || total <= 0.0 {
      return Refused(NoPriorRange);
    }
    var combos: seq<ComboBelief> := [];
    for i := 0 to |expanded|
      invariant combos == Normalized(Weigh(expanded), total)[..i]
    {
      var weighted := expanded[i];
      combos := combos + [ComboBelief(weighted.Pair(), weighted.weight, Ratio(weighted.weight, total))];
    }
    assert combos == Normalized(Weigh(expanded), total);
    o := Done(Snapshot(seat, street, after, total, total, combos));
  }

  // ---------------------------------------------------------------- dead cards

  /** apply_dead_cards. */
  function ApplyDeadCards(s: Snapshot, dead: set<Card>, street: Street, after: int): Outcome<Snapshot> {
    var surviving := Undead(WeightsOf(s.combos), dead);
    if surviving == [] || Total(surviving) <= 0.0 then Refused(ZeroProbability)
    else Done(Snapshot(s.seat, street, after, s.retainedMass, Total(surviving), Normalized(surviving, Total(surviving))))
  }

  // ---------------------------------------------------------------- policies

  /** A policy column; Other is a label that does not parse. */
  datatype Column =
    | CheckColumn | CallColumn | FoldColumn
    | BetColumn(size: real) | RaiseColumn(size: real) | AllInColumn(size: real)
    | OtherColumn(text: string)

  datatype Policy = Policy(actions: seq<Column>, frequencies: map<Hole, map<Column, real>>,
                           likelihoodOnly: bool, referencePot: Option<nat>)

  /** validate_frequencies, without the sum of complete tables. */
  predicate ValidPolicy(p: Policy) {
    forall h :: h in p.frequencies ==>
      && p.frequencies[h] != map[]
      && (forall c :: c in p.frequencies[h] ==> c in p.actions && 0.0 <= p.frequencies[h][c] <= 1.0)
      && (!p.likelihoodOnly ==> forall c :: c in p.actions ==> c in p.frequencies[h])
  }

  predicate Sized(c: Column) {
    c.BetColumn? || c.RaiseColumn? || c.AllInColumn?
  }

  /** parse_policy_action succeeds. */
  predicate Parses(c: Column) {
    !c.OtherColumn? && (Sized(c) ==> c.size >= 0.0)
  }

  predicate OfKind(c: Column, kind: ActionKind) {
    match kind
    case Check => c.CheckColumn?
    case Call => c.CallColumn?
    case Fold => c.FoldColumn?
    case Bet => c.BetColumn?
    case RaiseTo => c.RaiseColumn?
    case AllIn => c.AllInColumn?
    case _ => false
  }

  function Matching(actions: seq<Column>, kind: ActionKind): (r: seq<Column>)
    ensures forall c :: c in r <==> c in actions && OfKind(c, kind)
  {
    if actions == [] then []
    else
      assert actions == [actions[0]] + actions[1..];
      (if OfKind(actions[0], kind) then [actions[0]] else []) + Matching(actions[1..], kind)
  }

  /** _family_specs: a raise without raise columns falls back to the all-in columns. */
  function Family(actions: seq<Column>, kind: ActionKind): seq<Column> {
    var own := Matching(actions, kind);
    if kind.RaiseTo? && own == [] then Matching(actions, AllIn) else own
  }

  function Distance(a: real, b: real): (d: real)
    ensures d >= 0.0 && (d == 0.0 <==> a == b)
  {
    if a < b then b - a else a - b
  }

  /** What a column's size is compared with: chips, or a fraction of the reference pot. */
  function Measure(c: Column, pot: real): real
    requires Sized(c) && pot > 0.0
  {
    Ratio(c.size, pot)
  }

  predicate Closer(a: Column, b: Column, observed: real, pot: real)
    requires Sized(a) && Sized(b) && pot > 0.0
  {
    var x, y := Distance(Measure(a, pot), observed), Distance(Measure(b, pot), observed);
    x < y || (x == y && a.size <= b.size)
  }

  /** min with the key (distance, size); the first of equals. */
  function Nearest(cs: seq<Column>, observed: real, pot: real): (best: Column)
    requires cs != [] && pot > 0.0 && forall c :: c in cs ==> Sized(c)
    ensures best in cs && forall c :: c in cs ==> Closer(best, c, observed, pot)
  {
    assert cs == [cs[0]] + cs[1..];
    if |cs| == 1 then cs[0]
    else
      var best := Nearest(cs[1..], observed, pot);
      if Closer(cs[0], best, observed, pot) then cs[0] else best
  }

  function Within(cs: seq<Column>, observed: real, pot: real, tolerance: real): (r: seq<Column>)
    requires pot > 0.0 && forall c :: c in cs ==> Sized(c)
    ensures forall c :: c in r <==> c in cs && Distance(Measure(c, pot), observed) <= tolerance
  {
    if cs == [] then []
    else
      assert cs == [cs[0]] + cs[1..];
      (if Distance(Measure(cs[0], pot), observed) <= tolerance then [cs[0]] else [])
      + Within(cs[1..], observed, pot, tolerance)
  }

  /** The first of the smallest sizes. */
  function Smallest(cs: seq<Column>): (best: Column)
    requires cs != [] && forall c :: c in cs ==> Sized(c)
    ensures best in cs && Sized(best)
    ensures forall c :: c in cs ==> Sized(c) && best.size <= c.size
  {
    assert cs == [cs[0]] + cs[1..];
    var first := cs[0];
    assert Sized(first);
    if |cs| == 1 then first
    else
      var best := Smallest(cs[1..]);
      if first.size <= best.size then first else best
  }

  datatype Match = Exact(column: Column) | NearestSize(column: Column) | Unsupported

  /** The size comparison of match_observed_action. */
  function MatchSize(sized: seq<Column>, observed: real, pot: real, tolerance: real): Match
    requires sized != [] && pot > 0.0 && forall c :: c in sized ==> Sized(c)
  {
    var exact := Within(sized, observed, pot, tolerance);
    if exact != [] then Exact(Smallest(exact)) else NearestSize(Nearest(sized, observed, pot))
  }

  const TOLERANCE := 0.000001

  /** The sizes of a family: compared in chips without an amount or a pot, otherwise as fractions of the pots. */
  function MatchFamily(family: seq<Column>, amount: Option<nat>, potBefore: Option<nat>, referencePot: Option<nat>): Match
    requires family != [] && forall c :: c in family ==> Sized(c)
  {
    if amount.None? || potBefore.None? || potBefore.value == 0 || referencePot.None? || referencePot.value == 0 then
      MatchSize(family, if amount.Some? then amount.value as real else 0.0, 1.0, 0.0)
    else
      MatchSize(family, Ratio(amount.value as real, potBefore.value as real), referencePot.value as real, TOLERANCE)
  }

  /** resolve_action_match. */
  function ResolveMatch(p: Policy, kind: ActionKind, amount: Option<nat>, potBefore: Option<nat>): Outcome<Match> {
    if p.likelihoodOnly then
      if p.actions == [] then Crashed else Done(Exact(p.actions[0]))
    else if exists c :: c in p.actions && !Parses(c) then Refused(InvalidPolicy)
    else
      var family := Family(p.actions, kind);
      if family == [] then Done(Unsupported)
      else if |family| == 1 && !Sized(family[0]) then Done(Exact(family[0]))
      else if !Sized(family[0]) then Done(Unsupported)
      else
        FamilySized(p.actions, kind);
        Done(MatchFamily(family, amount, potBefore, p.referencePot))
  }

  /** A family has sizes throughout, or not at all. */
  lemma FamilySized(actions: seq<Column>, kind: ActionKind)
    ensures forall c, d :: c in Family(actions, kind) && d in Family(actions, kind) && Sized(c) ==> Sized(d)
  {}

  /** An off-tree size maps to a nearest size, ties to the smaller one; an exact match is within the tolerance. */
  lemma SizeIsNearest(sized: seq<Column>, observed: real, pot: real, tolerance: real)
    requires sized != [] && pot > 0.0 && forall c :: c in sized ==> Sized(c)
    ensures var m := MatchSize(sized, observed, pot, tolerance);
            && !m.Unsupported? && m.column in sized && Sized(m.column)
            && (m.Exact? <==> exists c :: c in sized && Distance(Measure(c, pot), observed) <= tolerance)
            && (m.Exact? ==> Distance(Measure(m.column, pot), observed) <= tolerance)
            && (m.NearestSize? ==> forall d :: d in sized ==> Closer(m.column, d, observed, pot))
  {
    hide Closer, Measure;
  }

  /** The observed action maps to a column of its own family; only a raise may map to an all-in. */
  lemma MatchIsOwnFamily(p: Policy, kind: ActionKind, amount: Option<nat>, potBefore: Option<nat>)
    requires !p.likelihoodOnly
    requires var m := ResolveMatch(p, kind, amount, potBefore); m.Done? && !m.value.Unsupported?
    ensures var c := ResolveMatch(p, kind, amount, potBefore).value.column;
            c in p.actions && (OfKind(c, kind) || (kind.RaiseTo? && c.AllInColumn? && forall d :: d in p.actions ==> !d.RaiseColumn?))
  {
    hide MatchSize, Ratio;
    var family := Family(p.actions, kind);
    FamilySized(p.actions, kind);
    assert family[0] in family;
    if Sized(family[0]) {
      if amount.None? || potBefore.None? || potBefore.value == 0 || p.referencePot.None? || p.referencePot.value == 0 {
        SizeIsNearest(family, if amount.Some? then amount.value as real else 0.0, 1.0, 0.0);
      } else {
        SizeIsNearest(family, Ratio(amount.value as real, potBefore.value as real), p.referencePot.value as real, TOLERANCE);
      }
    }
    if kind.RaiseTo? && Matching(p.actions, kind) == [] {
      forall d | d in p.actions ensures !d.RaiseColumn? {
        assert d !in Matching(p.actions, kind);
      }
    }
  }

  /** The columns that an observed action may map to. */
  predicate Candidate(p: Policy, kind: ActionKind, c: Column) {
    c in p.actions
    && match kind
       case Bet => c.BetColumn?
       case AllIn => c.AllInColumn?
       case RaiseTo => c.RaiseColumn? || (c.AllInColumn? && forall d :: d in p.actions ==> !d.RaiseColumn?)
       case _ => false
  }

  /** How far a size, as a fraction of the reference pot, is from the observed one. */
  function SizeGap(size: real, reference: real, observed: real): real
    requires reference > 0.0
  {
    var fraction := size / reference;
    if fraction > observed then fraction - observed else observed - fraction
  }

  /**
   * The matched column: the smallest size among those within the tolerance of the observed size, otherwise the
   * nearest size, ties to the smaller one.
   */
  ghost predicate ClosestColumn(p: Policy, kind: ActionKind, m: Match, reference: real, observed: real, tolerance: real)
    requires reference > 0.0
  {
    !m.Unsupported? && Sized(m.column) && Candidate(p, kind, m.column)
    && (m.Exact? <==> exists c: Column :: Sized(c) && Candidate(p, kind, c) && SizeGap(c.size, reference, observed) <= tolerance)
    && forall c: Column :: Sized(c) && Candidate(p, kind, c) ==>
         var gap, own := SizeGap(c.size, reference, observed), SizeGap(m.column.size, reference, observed);
         if m.Exact? then own <= tolerance && (gap <= tolerance ==> m.column.size <= c.size)
         else own < gap || (own == gap && m.column.size <= c.size)
  }

  lemma GapIsDistance(c: Column, pot: real, observed: real)
    requires Sized(c) && pot > 0.0
    ensures SizeGap(c.size, pot, observed) == Distance(Measure(c, pot), observed)
  {}

  lemma SizesMatch(p: Policy, kind: ActionKind, family: seq<Column>, pot: real, observed: real, tolerance: real)
    requires pot > 0.0 && family != [] && forall c :: c in family <==> Candidate(p, kind, c)
    ensures (forall c :: c in family ==> Sized(c)) && ClosestColumn(p, kind, MatchSize(family, observed, pot, tolerance), pot, observed, tolerance)
  {
    hide SizeGap, Distance, Measure, Candidate, MatchSize;
    CandidatesSized(p, kind);
    SizeIsNearest(family, observed, pot, tolerance);
    SmallestWithin(family, observed, pot, tolerance);
    forall c | c in family ensures SizeGap(c.size, pot, observed) == Distance(Measure(c, pot), observed) { GapIsDistance(c, pot, observed); }
    var m := MatchSize(family, observed, pot, tolerance);
    if m.NearestSize? {
      forall c | c in family ensures Closer(m.column, c, observed, pot) {}
    }
  }

  lemma CandidatesSized(p: Policy, kind: ActionKind)
    ensures forall c :: Candidate(p, kind, c) ==> Sized(c)
  {}

  lemma SmallestWithin(family: seq<Column>, observed: real, pot: real, tolerance: real)
    requires pot > 0.0 && family != [] && forall c :: c in family ==> Sized(c)
    ensures var m := MatchSize(family, observed, pot, tolerance);
            m.Exact? ==> Sized(m.column) && forall c :: c in family && Distance(Measure(c, pot), observed) <= tolerance ==> m.column.size <= c.size
  {
    hide Distance, Measure, Sized;
  }

  lemma FamilyIsCandidates(p: Policy, kind: ActionKind)
    requires kind.Bet? || kind.RaiseTo? || kind.AllIn?
    ensures forall c :: c in Family(p.actions, kind) <==> Candidate(p, kind, c)
  {
    var own := Matching(p.actions, kind);
    if own != [] { assert own[0] in own; }
  }

  /**
   * A bet, raise or all-in: refused on a label that does not parse, unsupported without a candidate, and otherwise the
   * closest column, by fractions of the pots with an amount and two pots, by chips without.
   */
  lemma SizedMatch(p: Policy, kind: ActionKind, amount: Option<nat>, potBefore: Option<nat>)
    requires !p.likelihoodOnly && (kind.Bet? || kind.RaiseTo? || kind.AllIn?)
    ensures var m := ResolveMatch(p, kind, amount, potBefore);
            if exists c :: c in p.actions && !Parses(c) then m == Refused(InvalidPolicy)
            else if forall c :: !Candidate(p, kind, c) then m == Done(Unsupported)
            else
              m.Done?
              && (if HasPots(p, amount, potBefore) then
                    ClosestColumn(p, kind, m.value, p.referencePot.value as real, PotFraction(amount.value, potBefore.value), 0.000001)
                  else
                    ClosestColumn(p, kind, m.value, 1.0, if amount.Some? then amount.value as real else 0.0, 0.0))
  {
    FamilyIsCandidates(p, kind);
    var family := Family(p.actions, kind);
    CandidatesSized(p, kind);
    Resolved(p, kind, amount, potBefore);
    hide ResolveMatch, Family, MatchFamily, MatchSize, ClosestColumn, Candidate, Sized, Parses, PotFraction;
    if family != [] {
      assert family[0] in family;
      FamilyMatch(family, amount, potBefore, p);
      if HasPots(p, amount, potBefore) {
        SizesMatch(p, kind, family, p.referencePot.value as real, PotFraction(amount.value, potBefore.value), 0.000001);
      } else {
        SizesMatch(p, kind, family, 1.0, if amount.Some? then amount.value as real else 0.0, 0.0);
      }
    }
  }

  /** An amount, and the two pots to compare it in. */
  predicate HasPots(p: Policy, amount: Option<nat>, potBefore: Option<nat>) {
    amount.Some? && potBefore.Some? && potBefore.value > 0 && p.referencePot.Some? && p.referencePot.value > 0
  }

  function PotFraction(amount: nat, pot: nat): real
    requires pot > 0
  {
    amount as real / pot as real
  }

  lemma FractionIsRatio(amount: nat, pot: nat)
    requires pot > 0
    ensures PotFraction(amount, pot) == Ratio(amount as real, pot as real)
  {}

  lemma FamilyMatch(family: seq<Column>, amount: Option<nat>, potBefore: Option<nat>, p: Policy)
    requires family != [] && forall c :: c in family ==> Sized(c)
    ensures MatchFamily(family, amount, potBefore, p.referencePot)
            == if HasPots(p, amount, potBefore)
               then MatchSize(family, PotFraction(amount.value, potBefore.value), p.referencePot.value as real, 0.000001)
               else MatchSize(family, if amount.Some? then amount.value as real else 0.0, 1.0, 0.0)
  {
    if HasPots(p, amount, potBefore) { FractionIsRatio(amount.value, potBefore.value); }
    hide MatchSize, Sized, Ratio, PotFraction;
  }

  lemma Resolved(p: Policy, kind: ActionKind, amount: Option<nat>, potBefore: Option<nat>)
    requires !p.likelihoodOnly && forall c :: c in Family(p.actions, kind) ==> Sized(c)
    ensures var m, family := ResolveMatch(p, kind, amount, potBefore), Family(p.actions, kind);
            if exists c :: c in p.actions && !Parses(c) then m == Refused(InvalidPolicy)
            else if family == [] then m == Done(Unsupported)
            else m == Done(MatchFamily(family, amount, potBefore, p.referencePot))
  {
    var family := Family(p.actions, kind);
    if family != [] { assert family[0] in family; }
    hide Family, MatchFamily, Sized, Parses;
  }

  lemma {:induction false} MatchingCounts(actions: seq<Column>, kind: ActionKind, c: Column)
    requires forall d :: OfKind(d, kind) <==> d == c
    ensures |Matching(actions, kind)| == multiset(actions)[c]
  {
    if actions != [] {
      MatchingCounts(actions[1..], kind, c);
      assert actions == [actions[0]] + actions[1..];
    }
  }

  /** A check, call or fold: its own column when the policy lists it exactly once, and unsupported otherwise. */
  lemma UnsizedMatch(p: Policy, kind: ActionKind, c: Column, amount: Option<nat>, potBefore: Option<nat>)
    requires !p.likelihoodOnly
    requires (kind.Check? && c.CheckColumn?) || (kind.Call? && c.CallColumn?) || (kind.Fold? && c.FoldColumn?)
    ensures var m := ResolveMatch(p, kind, amount, potBefore);
            if exists d :: d in p.actions && !Parses(d) then m == Refused(InvalidPolicy)
            else m == Done(if multiset(p.actions)[c] == 1 then Exact(c) else Unsupported)
  {
    MatchingCounts(p.actions, kind, c);
    var family := Matching(p.actions, kind);
    if family != [] { assert family[0] in family; }
    hide Matching, MatchSize;
  }

  /** A policy's likelihood of its matched column; None is a table without that column. */
  function Likelihood(p: Policy, c: Column, h: Hole): Option<real> {
    if h !in p.frequencies then Some(0.0)
    else if c in p.frequencies[h] then Some(p.frequencies[h][c])
    else None
  }

  function Factor(p: Policy, c: Column): Hole -> real {
    h => var l := Likelihood(p, c, h); if l.Some? then l.value else 0.0
  }

  /** Complete policies have a value for every matched column. */
  lemma CompletePoliciesNeverCrash(p: Policy, kind: ActionKind, amount: Option<nat>, potBefore: Option<nat>, h: Hole)
    requires ValidPolicy(p) && !p.likelihoodOnly
    requires var m := ResolveMatch(p, kind, amount, potBefore); m.Done? && !m.value.Unsupported?
    ensures Likelihood(p, ResolveMatch(p, kind, amount, potBefore).value.column, h).Some?
  {
    hide ResolveMatch;
    MatchIsOwnFamily(p, kind, amount, potBefore);
  }

  // ---------------------------------------------------------------- policy updates

  predicate AllKnown(ws: seq<Weighted>, p: Policy, c: Column) {
    forall i :: 0 <= i < |ws| ==> Likelihood(p, c, ws[i].key).Some?
  }

  /** update_range_belief. */
  function UpdateBelief(prior: Snapshot, e: Event, p: Policy, potBefore: Option<nat>, dead: set<Card>): Outcome<Snapshot> {
    if prior.combos == [] then Refused(NoPriorRange)
    else
      var m := ResolveMatch(p, e.kind, e.amount, potBefore);
      if m.Refused? then Refused(m.error)
      else if m.Crashed? then Crashed
      else if m.value.Unsupported? then Refused(UnsupportedAction)
      else
        var kept := Undead(WeightsOf(prior.combos), dead);
        if !AllKnown(kept, p, m.value.column) then Crashed
        else
          var updated := Multiplied(kept, Factor(p, m.value.column));
          if Total(updated) <= 0.0 then Refused(ZeroProbability)
          else Done(Snapshot(prior.seat, e.street, e.sequence, Total(kept), Total(updated),
                             Normalized(Positive(updated), Total(updated))))
  }

  /** update_range_belief, with its loop over the prior's combos. */
  method UpdateRangeBelief(prior: Snapshot, e: Event, p: Policy, potBefore: Option<nat>, dead: set<Card>)
    returns (r: Outcome<Snapshot>)
    ensures r == UpdateBelief(prior, e, p, potBefore, dead)
  {
    hide ResolveMatch, Total, Normalized, Positive, Blocked;
    if prior.combos == [] {
      return Refused(NoPriorRange);
    }
    var m := ResolveMatch(p, e.kind, e.amount, potBefore);
    match m {
      case Refused(error) => return Refused(error);
      case Crashed => return Crashed;
      case Done(value) =>
        if value.Unsupported? {
          return Refused(UnsupportedAction);
        }
        var column := value.column;
        ghost var ws := WeightsOf(prior.combos);
        var newReach: seq<Weighted>, kept: seq<Weighted> := [], [];
        for i := 0 to |prior.combos|
          invariant kept == Undead(ws[..i], dead) && AllKnown(kept, p, column)
          invariant newReach == Multiplied(kept, Factor(p, column))
        {
          var combo := prior.combos[i];
          assert ws[..i + 1][..i] == ws[..i] && ws[i] == Weighted(combo.key, combo.reach);
          if !Blocked(combo.key, dead) {
            var likelihood := Likelihood(p, column, combo.key);
            if likelihood.None? {
              assert Undead(ws[..i + 1], dead)[|kept|].key == combo.key;
              UndeadPrefix(ws, i + 1, dead, p, column);
              return Crashed;
            }
            kept := kept + [Weighted(combo.key, combo.reach)];
            newReach := newReach + [Weighted(combo.key, Times(combo.reach, likelihood.value))];
          }
        }
        assert ws[..|ws|] == ws;
        var retained := Total(newReach);
        if retained <= 0.0 {
          return Refused(ZeroProbability);
        }
        r := Done(Snapshot(prior.seat, e.street, e.sequence, Total(kept), retained, Normalized(Positive(newReach), retained)));
    }
  }

  lemma {:induction false} UndeadPrefix(ws: seq<Weighted>, n: nat, dead: set<Card>, p: Policy, c: Column)
    requires n <= |ws| && !AllKnown(Undead(ws[..n], dead), p, c)
    ensures !AllKnown(Undead(ws, dead), p, c)
    decreases |ws|
  {
    if n == |ws| {
      assert ws[..n] == ws;
    } else {
      var m := |ws| - 1;
      assert ws[..m][..n] == ws[..n];
      UndeadPrefix(ws[..m], n, dead, p, c);
      var i :| 0 <= i < |Undead(ws[..m], dead)| && Likelihood(p, c, Undead(ws[..m], dead)[i].key).None?;
      assert Undead(ws, dead)[i] == Undead(ws[..m], dead)[i];
    }
  }
}
