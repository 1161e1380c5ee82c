/** The belief trace of one seat: its chain of snapshots, and what the trace may depend on. */
module BeliefTrace {
  import opened Cards
  import opened RangeExpansion
  import opened Sums
  import opened RangeBelief
  import opened BeliefChain

  datatype Decision = Decision(street: Street, actorSeat: int, afterSequence: int)

  /**
   * The parts of a scenario that the trace or its providers read: listed holds the cards of the concrete combos in
   * the seats' ranges, rest is everything else.
   */
  datatype Scenario = Scenario(events: seq<Event>, board: seq<Card>, decision: Decision,
                               known: map<int, set<Card>>, listed: set<Card>, rest: string)

  predicate IsDeal(kind: ActionKind) {
    kind.DealFlop? || kind.DealTurn? || kind.DealRiver?
  }

  predicate IsPolicyAction(kind: ActionKind) {
    kind.Check? || kind.Call? || kind.Bet? || kind.RaiseTo? || kind.AllIn? || kind.Fold?
  }

  function BoardSize(kind: ActionKind): nat {
    match kind
    case DealFlop => 3
    case DealTurn => 4
    case DealRiver => 5
    case _ => 0
  }

  function StreetSize(street: Street): nat {
    match street
    case Flop => 3
    case Turn => 4
    case River => 5
    case _ => 0
  }

  /** The events up to a sequence, in order. */
  function UpTo(events: seq<Event>, k: int): seq<Event> {
    if events == [] then []
    else
      var last := events[|events| - 1];
      UpTo(events[..|events| - 1], k) + if last.sequence <= k then [last] else []
  }

  /** The largest board that the deals reveal; 0 without a deal. */
  function Dealt(events: seq<Event>): nat {
    if events == [] then 0
    else
      var before, size := Dealt(events[..|events| - 1]), BoardSize(events[|events| - 1].kind);
      if size > before then size else before
  }

  function Shown(board: seq<Card>, size: nat): seq<Card> {
    if size <= |board| then board[..size] else board
  }

  /** How many board cards are visible at a sequence. */
  function RevealedAt(sc: Scenario, j: int): nat {
    var dealt := Dealt(UpTo(sc.events, j));
    if dealt > 0 then dealt
    else if j == sc.decision.afterSequence then StreetSize(sc.decision.street)
    else 0
  }

  /** board_at_sequence. */
  function BoardAt(sc: Scenario, j: int): seq<Card> {
    Shown(sc.board, RevealedAt(sc, j))
  }

  function LastDealStreet(events: seq<Event>): Option<Street> {
    if events == [] then None
    else if IsDeal(events[|events| - 1].kind) then Some(events[|events| - 1].street)
    else LastDealStreet(events[..|events| - 1])
  }

  /** _street_for_sequence. */
  function StreetAt(sc: Scenario, j: int): Street {
    var dealt := LastDealStreet(UpTo(sc.events, j));
    if dealt.Some? then dealt.value
    else if j == sc.decision.afterSequence then sc.decision.street
    else Preflop
  }

  /** dead_cards_for_belief: the visible board and the other seats' known cards. */
  function DeadCards(sc: Scenario, seat: int, board: seq<Card>): set<Card> {
    Elements(board) + set s, c | s in sc.known && s != seat && c in sc.known[s] :: c
  }

  /** _scenario_at_action: what a provider sees. */
  function ViewAt(sc: Scenario, e: Event): Scenario {
    Scenario(UpTo(sc.events, e.sequence), BoardAt(sc, e.sequence), Decision(e.street, e.actorSeat, e.sequence),
             sc.known, sc.listed, sc.rest)
  }

  // ---------------------------------------------------------------- providers

  datatype Answer = Grounded(policy: Policy) | NotCovered | OtherNode | Failure(error: BeliefError)

  type Provider = (Scenario, int, int, seq<Hole>) -> Answer

  /** The first provider that covers the node; NotCovered without one. */
  function FirstAnswer(providers: seq<Provider>, view: Scenario, seat: int, sequence: int, keys: seq<Hole>): Answer {
    if providers == [] then NotCovered
    else
      var answer := providers[0](view, seat, sequence, keys);
      if answer.Grounded? || answer.Failure? then answer
      else FirstAnswer(providers[1..], view, seat, sequence, keys)
  }

  // ---------------------------------------------------------------- the trace

  datatype Status = Available | Stalled(error: BeliefError, sequence: int) | Raised(error: BeliefError) | CrashedAt(sequence: int)

  /** The loop's variables; steps records the transitions of the chain. */
  datatype Progress = Progress(chain: seq<Snapshot>, steps: seq<Transition>, applied: nat, status: Status)

  datatype Setting = Setting(seat: int, prior: RangeSpec, providers: seq<Provider>, pots: Option<int -> Option<nat>>)

  function PotBefore(g: Setting, sequence: int): Option<nat> {
    if g.pots.Some? then g.pots.value(sequence) else None
  }

  function LastOf(chain: seq<Snapshot>): Snapshot
    requires chain != []
  {
    chain[|chain| - 1]
  }

  function Start(sc: Scenario, g: Setting): Progress {
    var dead := DeadCards(sc, g.seat, BoardAt(sc, 0));
    match FromRange(g.prior.(dead := {}), g.seat, StreetAt(sc, 0), 0, dead)
    case Done(s) => Progress([s], [], 0, Available)
    case Refused(error) => Progress([], [], 0, Raised(error))
    case Crashed => Progress([], [], 0, CrashedAt(0))
  }

  function DealTo(sc: Scenario, g: Setting, p: Progress, board: seq<Card>, street: Street, sequence: int): Progress
    requires p.chain != []
  {
    if |board| <= p.applied then p
    else
      var dead := DeadCards(sc, g.seat, board);
      match ApplyDeadCards(LastOf(p.chain), dead, street, sequence)
      case Done(s) => Progress(p.chain + [s], p.steps + [Deal(dead)], |board|, p.status)
      case Refused(error) => p.(applied := |board|, status := Raised(error))
      case Crashed => p.(applied := |board|, status := CrashedAt(sequence))
  }

  function ActOn(sc: Scenario, g: Setting, p: Progress, e: Event): Progress
    requires p.chain != []
  {
    var last := LastOf(p.chain);
    match FirstAnswer(g.providers, ViewAt(sc, e), g.seat, e.sequence, ComboKeys(last.combos))
    case Failure(error) => p.(status := Stalled(error, e.sequence))
    case NotCovered => p.(status := Stalled(NoPolicy, e.sequence))
    case OtherNode => p.(status := Stalled(NoPolicy, e.sequence))
    case Grounded(policy) =>
      var dead := DeadCards(sc, g.seat, BoardAt(sc, e.sequence));
      match UpdateBelief(last, e, policy, PotBefore(g, e.sequence), dead)
      case Done(s) =>
        var column := ResolveMatch(policy, e.kind, e.amount, PotBefore(g, e.sequence)).value.column;
        Progress(p.chain + [s], p.steps + [Act(dead, Factor(policy, column))], p.applied, p.status)
      case Refused(error) => p.(status := Stalled(error, e.sequence))
      case Crashed => p.(status := CrashedAt(e.sequence))
  }

  /** One turn of the loop. */
  function Advance(sc: Scenario, g: Setting, p: Progress, e: Event): Progress {
    if p.chain == [] || !p.status.Available? then p
    else if IsDeal(e.kind) then DealTo(sc, g, p, BoardAt(sc, e.sequence), e.street, e.sequence)
    else if !IsPolicyAction(e.kind) || e.actorSeat != g.seat then p
    else ActOn(sc, g, p, e)
  }

  function Through(sc: Scenario, g: Setting, events: seq<Event>): Progress {
    if events == [] then Start(sc, g)
    else Advance(sc, g, Through(sc, g, events[..|events| - 1]), events[|events| - 1])
  }

  /** build_range_trace at max_sequence k. */
  function TraceAt(sc: Scenario, g: Setting, k: int): Progress {
    var p := Through(sc, g, UpTo(sc.events, k));
    if p.chain == [] || !p.status.Available? then p
    else DealTo(sc, g, p, BoardAt(sc, k), StreetAt(sc, k), k)
  }

  /** build_range_trace, with its loop and its early returns. */
  method BuildTrace(sc: Scenario, g: Setting, k: int) returns (chain: seq<Snapshot>, status: Status)
    ensures chain == TraceAt(sc, g, k).chain && status == TraceAt(sc, g, k).status
  {
    hide Start, DealTo, ActOn, UpTo;
    var events := UpTo(sc.events, k);
    var p := Start(sc, g);
    assert Through(sc, g, events[..0]) == p;
    if p.chain == [] || !p.status.Available? {
      NothingAfterStop(sc, g, events, 0);
      return p.chain, p.status;
    }
    for i := 0 to |events|
      invariant p.chain != [] && p.status.Available? && Through(sc, g, events[..i]) == p
    {
      var e := events[i];
      assert events[..i + 1][..i] == events[..i];
      if IsDeal(e.kind) {
        p := DealTo(sc, g, p, BoardAt(sc, e.sequence), e.street, e.sequence);
      } else if IsPolicyAction(e.kind) && e.actorSeat == g.seat {
        p := ActOn(sc, g, p, e);
      }
      if p.chain == [] || !p.status.Available? {
        NothingAfterStop(sc, g, events, i + 1);
        return p.chain, p.status;
      }
    }
    assert events[..|events|] == events;
    p := DealTo(sc, g, p, BoardAt(sc, k), StreetAt(sc, k), k);
    return p.chain, p.status;
  }

  /** After a stop the remaining events change nothing. */
  lemma {:induction false} NothingAfterStop(sc: Scenario, g: Setting, events: seq<Event>, i: nat)
    requires i <= |events|
    requires var p := Through(sc, g, events[..i]); p.chain == [] || !p.status.Available?
    ensures Through(sc, g, events) == Through(sc, g, events[..i])
    decreases |events|
  {
    hide DealTo, ActOn, Start;
    if i == |events| {
      assert events[..i] == events;
    } else {
      var n := |events| - 1;
      assert events[..n][..i] == events[..i];
      NothingAfterStop(sc, g, events[..n], i);
    }
  }

  // ---------------------------------------------------------------- what the chain computes

  ghost predicate SoundProviders(providers: seq<Provider>) {
    forall i, view, seat, sequence, keys :: 0 <= i < |providers| && providers[i](view, seat, sequence, keys).Grounded? ==>
      ValidPolicy(providers[i](view, seat, sequence, keys).policy)
  }

  lemma {:induction false} FirstAnswerIsSound(providers: seq<Provider>, view: Scenario, seat: int, sequence: int, keys: seq<Hole>)
    requires SoundProviders(providers)
    ensures var a := FirstAnswer(providers, view, seat, sequence, keys); a.Grounded? ==> ValidPolicy(a.policy)
  {
    if providers != [] {
      assert forall i :: 0 <= i < |providers[1..]| ==> providers[1..][i] == providers[i + 1];
      FirstAnswerIsSound(providers[1..], view, seat, sequence, keys);
    }
  }

  /** The first i snapshots of the trace follow the first i transitions from the prior's weights. */
  ghost predicate Follows(p: Progress, prior: seq<Weighted>) {
    && |p.chain| == |p.steps| + 1
    && FairFactors(p.steps) && PositiveWeights(prior)
    && forall i :: 0 <= i < |p.chain| ==>
         IsNormalized(p.chain[i]) && WeightsOf(p.chain[i].combos) == ClosedForm(prior, p.steps[..i])
  }

  /** Extending the chain by a normalized step. */
  lemma FollowsSnoc(p: Progress, prior: seq<Weighted>, s: Snapshot, t: Transition, applied: nat, status: Status)
    requires Follows(p, prior) && IsNormalized(s) && FairFactors([t])
    requires WeightsOf(s.combos) == Stepped(WeightsOf(LastOf(p.chain).combos), t)
    ensures Follows(Progress(p.chain + [s], p.steps + [t], applied, status), prior)
  {
    hide Stepped, ClosedForm, IsNormalized;
    var more := Progress(p.chain + [s], p.steps + [t], applied, status);
    FairSnoc(p.steps, t);
    StepClosed(prior, p.steps, t);
    assert p.steps[..|p.steps|] == p.steps;
    forall i | 0 <= i < |more.chain|
      ensures IsNormalized(more.chain[i]) && WeightsOf(more.chain[i].combos) == ClosedForm(prior, more.steps[..i])
    {
      if i < |p.chain| {
        assert more.steps[..i] == p.steps[..i];
      } else {
        assert more.steps[..i] == more.steps;
      }
    }
  }

  lemma FairSnoc(ts: seq<Transition>, t: Transition)
    requires FairFactors(ts) && FairFactors([t])
    ensures FairFactors(ts + [t])
  {
    assert [t][0] == t;
    var more := ts + [t];
    forall i | 0 <= i < |more| && more[i].Act? ensures forall h :: more[i].factor(h) >= 0.0 {
      if i < |ts| { assert more[i] == ts[i]; }
    }
  }

  lemma LastIsPositive(p: Progress, prior: seq<Weighted>)
    requires Follows(p, prior)
    ensures PositiveWeights(WeightsOf(LastOf(p.chain).combos))
  {
    hide ClosedForm, IsNormalized;
    ClosedFormPositive(prior, p.steps[..|p.steps|]);
  }

  lemma {:induction false} ClosedFormPositive(ws: seq<Weighted>, ts: seq<Transition>)
    requires PositiveWeights(ws)
    ensures PositiveWeights(ClosedForm(ws, ts))
  {
    hide Times, FactorProduct, Hit;
    if ws != [] {
      var n := |ws| - 1;
      ClosedFormPositive(ws[..n], ts);
      if SurvivesAll(ts, ws[n].key) { TimesSign(ws[n].reach, FactorProduct(ts, ws[n].key)); }
    }
  }

  lemma DealFollows(sc: Scenario, g: Setting, p: Progress, board: seq<Card>, street: Street, sequence: int, prior: seq<Weighted>)
    requires p.chain != [] && Follows(p, prior)
    ensures Follows(DealTo(sc, g, p, board, street, sequence), prior)
  {
    hide Follows, IsNormalized;
    var dead := DeadCards(sc, g.seat, board);
    if |board| > p.applied && ApplyDeadCards(LastOf(p.chain), dead, street, sequence).Done? {
      LastIsPositive(p, prior);
      DealStep(LastOf(p.chain), dead, street, sequence);
      FollowsSnoc(p, prior, ApplyDeadCards(LastOf(p.chain), dead, street, sequence).value, Deal(dead), |board|, p.status);
    } else {
      SameChainFollows(p, DealTo(sc, g, p, board, street, sequence), prior);
    }
  }

  lemma SameChainFollows(p: Progress, q: Progress, prior: seq<Weighted>)
    requires Follows(p, prior) && q.chain == p.chain && q.steps == p.steps
    ensures Follows(q, prior)
  {}

  lemma ActFollows(sc: Scenario, g: Setting, p: Progress, e: Event, prior: seq<Weighted>)
    requires p.chain != [] && Follows(p, prior) && SoundProviders(g.providers)
    ensures Follows(ActOn(sc, g, p, e), prior)
  {
    hide Follows, IsNormalized, ViewAt, FirstAnswer, UpdateBelief, ResolveMatch, SoundProviders;
    var last := LastOf(p.chain);
    var answer := FirstAnswer(g.providers, ViewAt(sc, e), g.seat, e.sequence, ComboKeys(last.combos));
    FirstAnswerIsSound(g.providers, ViewAt(sc, e), g.seat, e.sequence, ComboKeys(last.combos));
    var dead := DeadCards(sc, g.seat, BoardAt(sc, e.sequence));
    var pot := PotBefore(g, e.sequence);
    if answer.Grounded? && UpdateBelief(last, e, answer.policy, pot, dead).Done? {
      LastIsPositive(p, prior);
      ActStep(last, e, answer.policy, pot, dead);
      var column := ResolveMatch(answer.policy, e.kind, e.amount, pot).value.column;
      assert FairFactors([Act(dead, Factor(answer.policy, column))]);
      FollowsSnoc(p, prior, UpdateBelief(last, e, answer.policy, pot, dead).value, Act(dead, Factor(answer.policy, column)), p.applied, p.status);
    } else {
      SameChainFollows(p, ActOn(sc, g, p, e), prior);
    }
  }

  function PriorWeights(sc: Scenario, g: Setting): seq<Weighted> {
    Weigh(Expanded(g.prior.(dead := {}), DeadCards(sc, g.seat, BoardAt(sc, 0))))
  }

  lemma StartFollows(sc: Scenario, g: Setting)
    requires Start(sc, g).chain != []
    ensures Follows(Start(sc, g), PriorWeights(sc, g))
  {
    hide IsNormalized, ClosedForm, Expanded;
    FromRangeStart(g.prior.(dead := {}), g.seat, StreetAt(sc, 0), 0, DeadCards(sc, g.seat, BoardAt(sc, 0)));
    NoSteps(PriorWeights(sc, g));
    var none: seq<Transition> := [];
    assert none[..0] == none;
  }

  lemma {:induction false} ThroughFollows(sc: Scenario, g: Setting, events: seq<Event>)
    requires SoundProviders(g.providers) && Through(sc, g, events).chain != []
    ensures Follows(Through(sc, g, events), PriorWeights(sc, g))
  {
    hide Start, DealTo, ActOn, Follows, PriorWeights, SoundProviders;
    if events == [] {
      StartFollows(sc, g);
    } else {
      var n := |events| - 1;
      var p, e, prior := Through(sc, g, events[..n]), events[n], PriorWeights(sc, g);
      if p.chain != [] {
        ThroughFollows(sc, g, events[..n]);
        if p.status.Available? {
          if IsDeal(e.kind) {
            DealFollows(sc, g, p, BoardAt(sc, e.sequence), e.street, e.sequence, prior);
          } else if IsPolicyAction(e.kind) && e.actorSeat == g.seat {
            ActFollows(sc, g, p, e, prior);
          }
        }
      }
    }
  }

  /**
   * Every snapshot of a trace holds exactly the prior combos that avoid the dead cards applied so far and
   * have no zero likelihood, with reach = prior weight times the likelihoods, and probabilities that sum to one.
   */
  lemma TraceIsClosedForm(sc: Scenario, g: Setting, k: int)
    requires SoundProviders(g.providers) && TraceAt(sc, g, k).chain != []
    ensures var p := TraceAt(sc, g, k);
            && |p.chain| == |p.steps| + 1
            && forall i :: 0 <= i < |p.chain| ==>
                 WeightsOf(p.chain[i].combos) == ClosedForm(PriorWeights(sc, g), p.steps[..i])
                 && IsNormalized(p.chain[i]) && Sum(Probabilities(p.chain[i].combos)) == 1.0
  {
    hide IsNormalized, ClosedForm, DealTo, Through, PriorWeights, SoundProviders;
    var events := UpTo(sc.events, k);
    var before := Through(sc, g, events);
    ThroughFollows(sc, g, events);
    if before.status.Available? {
      DealFollows(sc, g, before, BoardAt(sc, k), StreetAt(sc, k), k, PriorWeights(sc, g));
    }
    var p := TraceAt(sc, g, k);
    forall i | 0 <= i < |p.chain| ensures Sum(Probabilities(p.chain[i].combos)) == 1.0 {
      ProbabilitiesSumToOne(p.chain[i]);
    }
  }

  // ---------------------------------------------------------------- non-interference

  /** What a trace at k may depend on. */
  predicate SameVisible(a: Scenario, b: Scenario, k: int) {
    && a.known == b.known && a.listed == b.listed && a.rest == b.rest && a.decision == b.decision
    && UpTo(a.events, k) == UpTo(b.events, k)
  }

  ghost predicate SameBoards(a: Scenario, b: Scenario, k: int) {
    forall j :: (j <= k || j == 0) ==> BoardAt(a, j) == BoardAt(b, j)
  }

  lemma {:induction false} UpToAgain(events: seq<Event>, j: int, k: int)
    requires j <= k
    ensures UpTo(UpTo(events, k), j) == UpTo(events, j)
  {
    if events != [] {
      var n := |events| - 1;
      UpToAgain(events[..n], j, k);
      var before, last := UpTo(events[..n], k), events[n];
      if last.sequence <= k {
        assert (before + [last])[..|before|] == before;
      } else {
        assert UpTo(events, k) == before;
      }
    }
  }

  lemma SameEarlier(a: Scenario, b: Scenario, j: int, k: int)
    requires SameVisible(a, b, k) && j <= k
    ensures UpTo(a.events, j) == UpTo(b.events, j) && StreetAt(a, j) == StreetAt(b, j)
    ensures RevealedAt(a, j) == RevealedAt(b, j)
  {
    UpToAgain(a.events, j, k);
    UpToAgain(b.events, j, k);
  }

  lemma {:induction false} UpToBound(events: seq<Event>, k: int)
    ensures forall i :: 0 <= i < |UpTo(events, k)| ==> UpTo(events, k)[i].sequence <= k
  {
    if events != [] { UpToBound(events[..|events| - 1], k); }
  }

  /** The events at which the loop reads the board. */
  predicate Reads(g: Setting, e: Event) {
    IsDeal(e.kind) || (IsPolicyAction(e.kind) && e.actorSeat == g.seat)
  }

  ghost predicate SameReads(a: Scenario, b: Scenario, g: Setting, events: seq<Event>) {
    && BoardAt(a, 0) == BoardAt(b, 0)
    && forall i :: 0 <= i < |events| && Reads(g, events[i]) ==> BoardAt(a, events[i].sequence) == BoardAt(b, events[i].sequence)
  }

  lemma AdvanceAgrees(a: Scenario, b: Scenario, g: Setting, p: Progress, e: Event, k: int)
    requires SameVisible(a, b, k) && e.sequence <= k
    requires Reads(g, e) ==> BoardAt(a, e.sequence) == BoardAt(b, e.sequence)
    ensures Advance(a, g, p, e) == Advance(b, g, p, e)
  {
    hide UpTo, RevealedAt, UpdateBelief, ApplyDeadCards, FirstAnswer, ResolveMatch, StreetAt;
    SameEarlier(a, b, e.sequence, k);
    if Reads(g, e) {
      assert ViewAt(a, e) == ViewAt(b, e);
      hide BoardAt, ViewAt;
      assert DeadCards(a, g.seat, BoardAt(a, e.sequence)) == DeadCards(b, g.seat, BoardAt(b, e.sequence));
    }
  }

  lemma {:induction false} ThroughAgrees(a: Scenario, b: Scenario, g: Setting, events: seq<Event>, k: int)
    requires SameVisible(a, b, k) && SameReads(a, b, g, events) && k >= 0
    requires forall i :: 0 <= i < |events| ==> events[i].sequence <= k
    ensures Through(a, g, events) == Through(b, g, events)
  {
    hide Advance, UpTo, RevealedAt;
    if events == [] {
      SameEarlier(a, b, 0, k);
      assert DeadCards(a, g.seat, BoardAt(a, 0)) == DeadCards(b, g.seat, BoardAt(b, 0));
    } else {
      var n := |events| - 1;
      ThroughAgrees(a, b, g, events[..n], k);
      AdvanceAgrees(a, b, g, Through(a, g, events[..n]), events[n], k);
    }
  }

  /** A trace depends on the board only at the events that read it, at the start and at the cut-off. */
  lemma TraceReads(a: Scenario, b: Scenario, g: Setting, k: int)
    requires k >= 0 && SameVisible(a, b, k) && SameReads(a, b, g, UpTo(a.events, k)) && BoardAt(a, k) == BoardAt(b, k)
    ensures TraceAt(a, g, k) == TraceAt(b, g, k)
  {
    hide Through, UpTo, RevealedAt, StreetAt, ApplyDeadCards, BoardAt;
    UpToBound(a.events, k);
    ThroughAgrees(a, b, g, UpTo(a.events, k), k);
    SameEarlier(a, b, k, k);
    assert DeadCards(a, g.seat, BoardAt(a, k)) == DeadCards(b, g.seat, BoardAt(b, k));
  }

  /**
   * A trace sees nothing beyond its cut-off: scenarios that agree on the known cards, the decision point,
   * the events up to k and the boards visible up to k have the same trace at k.
   */
  lemma NonInterference(a: Scenario, b: Scenario, g: Setting, k: int)
    requires k >= 0 && SameVisible(a, b, k) && SameBoards(a, b, k)
    ensures TraceAt(a, g, k) == TraceAt(b, g, k)
  {
    hide TraceAt, UpTo, BoardAt;
    UpToBound(a.events, k);
    TraceReads(a, b, g, k);
  }
}
