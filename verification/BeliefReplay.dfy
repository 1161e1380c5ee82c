/** The beliefs of a public hand prefix, computed without any cache. */
module BeliefReplay {
  import opened Cards
  import opened RangeExpansion
  import opened RangeBelief
  import opened Likelihood
  import opened Sums

  datatype Action = Action(street: Street, actor: int, action: SimAction, amount: Option<nat>, semantics: Semantics)

  datatype Started = Started(tableSize: nat, button: int, smallBlind: nat, bigBlind: nat, ante: nat, rake: nat,
                             active: seq<int>, stacks: map<int, nat>)

  /** A policy, identified by its fingerprint and node, and the matched column. */
  datatype PolicyUse = PolicyUse(fingerprint: string, node: string, column: Option<string>)

  datatype SeatPosition = SmallBlindSeat | BigBlindSeat | Seated(position: Position)

  /** What lies outside: priors, positions, and policies whose tables are fixed by fingerprint and node. */
  datatype World = World(
    table: (string, string) -> map<Hole, map<string, real>>,
    policyFor: (Started, seq<Action>, Action, seq<Hole>) -> Option<PolicyUse>,
    family: (Started, int) -> Option<string>,
    prior: (int, string, set<Card>) -> Snapshot,
    position: (Started, int) -> SeatPosition)

  /** A public payload with its sequence. */
  datatype Step = Dealt(sequence: int, street: Street, cards: seq<Card>) | Acted(sequence: int, action: Action)

  // ---------------------------------------------------------------- one snapshot

  function CodeOf(h: Hole): int {
    100 * (4 * h.1.rank + h.1.suit) + 4 * h.0.rank + h.0.suit
  }

  function InsertByKey(w: Weighted, ws: seq<Weighted>): seq<Weighted> {
    if ws == [] || CodeOf(w.key) <= CodeOf(ws[0].key) then [w] + ws
    else [ws[0]] + InsertByKey(w, ws[1..])
  }

  function SortByKey(ws: seq<Weighted>): seq<Weighted> {
    if ws == [] then [] else InsertByKey(ws[0], SortByKey(ws[1..]))
  }

  /** _normalized_combos: all but the last key get their share, the last one the rest; None is a division error. */
  function NormalizedCombos(ws: seq<Weighted>, mass: real): Option<seq<ComboBelief>> {
    var sorted := SortByKey(ws);
    var n := |sorted| - 1;
    if sorted == [] || (n > 0 && mass == 0.0) then None
    else
      var others := if n > 0 then Normalized(sorted[..n], mass) else [];
      Some(others + [ComboBelief(sorted[n].key, sorted[n].reach, 1.0 - Sum(Probabilities(others)))])
  }

  function TableLikelihood(w: World, p: PolicyUse, h: Hole): real {
    var table := w.table(p.fingerprint, p.node);
    if p.column.None? then 0.0
    else if h in table && p.column.value in table[h] then table[h][p.column.value]
    else 0.0
  }

  /** _action_likelihood. */
  function ActionLikelihood(w: World, a: Action, amount: Option<nat>, c: Context, policy: Option<PolicyUse>): Hole -> real {
    h => if policy.Some? then TableLikelihood(w, policy.value, h) else LikelihoodOf(h, a.action, a.street, amount, c)
  }

  datatype Spread = Spread(combos: seq<ComboBelief>, mass: real)

  /** The updated combos and their mass. */
  function SpreadOf(s: Snapshot, likelihood: Hole -> real): Option<Spread> {
    var weighted := Multiplied(WeightsOf(s.combos), likelihood);
    var combos := NormalizedCombos(weighted, Total(weighted));
    if combos.None? then None else Some(Spread(combos.value, Total(weighted)))
  }

  /** _apply_action without its caches; None is an exception. */
  function ActionValue(w: World, s: Snapshot, a: Action, sequence: int, c: Context, amount: Option<nat>,
                       policy: Option<PolicyUse>): Option<Snapshot>
  {
    var spread := SpreadOf(s, ActionLikelihood(w, a, amount, c, policy));
    if spread.None? then None
    else Some(Snapshot(s.seat, a.street, sequence, s.retainedMass, spread.value.mass, spread.value.combos))
  }

  /** _apply_blockers without its cache. */
  function BlockValue(s: Snapshot, cards: seq<Card>, sequence: int, street: Street): Option<Snapshot> {
    var kept := Undead(WeightsOf(s.combos), Elements(cards));
    var combos := NormalizedCombos(kept, Total(kept));
    if combos.None? then None
    else Some(Snapshot(s.seat, street, sequence, s.retainedMass, Total(kept), combos.value))
  }

  lemma TotalCons(w: Weighted, ws: seq<Weighted>)
    ensures Total([w] + ws) == w.reach + Total(ws)
  {
    assert Reaches([w] + ws) == [w.reach] + Reaches(ws);
    SumAppend([w.reach], Reaches(ws));
    assert Sum([w.reach]) == w.reach by { assert [w.reach][..0] == []; }
  }

  lemma {:induction false} InsertKeepsTotal(w: Weighted, ws: seq<Weighted>)
    ensures Total(InsertByKey(w, ws)) == w.reach + Total(ws)
  {
    hide Total, CodeOf;
    TotalCons(w, ws);
    if ws != [] {
      InsertKeepsTotal(w, ws[1..]);
      TotalCons(ws[0], InsertByKey(w, ws[1..]));
      TotalCons(ws[0], ws[1..]);
      assert ws == [ws[0]] + ws[1..];
    }
  }

  /** Sorting by key changes neither the total nor emptiness. */
  lemma {:induction false} SortKeepsTotal(ws: seq<Weighted>)
    ensures Total(SortByKey(ws)) == Total(ws) && (SortByKey(ws) == [] <==> ws == [])
  {
    hide Total;
    if ws != [] {
      SortKeepsTotal(ws[1..]);
      InsertKeepsTotal(ws[0], SortByKey(ws[1..]));
      TotalCons(ws[0], ws[1..]);
      assert ws == [ws[0]] + ws[1..];
    }
  }

  lemma NothingTotals(ws: seq<Weighted>)
    ensures Total(ws) != 0.0 ==> ws != []
  {}

  /** With positive mass the last combo's rest is its own share: probabilities are reaches over the mass. */
  lemma LastShareIsRest(ws: seq<Weighted>, mass: real)
    requires mass == Total(ws) && mass > 0.0
    ensures NormalizedCombos(ws, mass) == Some(Normalized(SortByKey(ws), mass))
    ensures Sum(Probabilities(Normalized(SortByKey(ws), mass))) == 1.0
  {
    hide SortByKey, Ratio, Total, Sum;
    var sorted := SortByKey(ws);
    SortKeepsTotal(ws);
    NothingTotals(ws);
    LastOfNormalized(sorted, mass);
    ProbabilitySum(sorted, mass);
    RatioAdd(mass, 0.0, mass);
    if |sorted| == 1 { assert Normalized(sorted[..0], mass) == []; }
  }

  lemma LastOfNormalized(ws: seq<Weighted>, mass: real)
    requires mass != 0.0 && ws != []
    ensures var n := |ws| - 1; var others := Normalized(ws[..n], mass);
            && Normalized(ws, mass) == others + [ComboBelief(ws[n].key, ws[n].reach, Ratio(ws[n].reach, mass))]
            && Sum(Probabilities(Normalized(ws, mass))) == Sum(Probabilities(others)) + Ratio(ws[n].reach, mass)
  {
    hide Ratio, Sum;
    var n := |ws| - 1;
    var all, others := Normalized(ws, mass), Normalized(ws[..n], mass);
    assert Probabilities(all) == Probabilities(others) + [Ratio(ws[n].reach, mass)];
    SumSnoc(Probabilities(others), Ratio(ws[n].reach, mass));
  }

  lemma {:induction false} ProbabilitySum(ws: seq<Weighted>, mass: real)
    requires mass != 0.0
    ensures Sum(Probabilities(Normalized(ws, mass))) == Ratio(Total(ws), mass)
  {
    if ws != [] {
      var n := |ws| - 1;
      ProbabilitySum(ws[..n], mass);
      assert Probabilities(Normalized(ws, mass))[..n] == Probabilities(Normalized(ws[..n], mass));
      assert Reaches(ws)[..n] == Reaches(ws[..n]);
      RatioAdd(Total(ws[..n]), ws[n].reach, mass);
    } else {
      assert Ratio(0.0, mass) == 0.0;
    }
  }

  /** Amounts, pots and stacks reach the update only through their buckets. */
  lemma SpreadFactors(w: World, s: Snapshot, a: Action, amount: Option<nat>, c: Context, policy: Option<PolicyUse>,
                      b: Action, other: Option<nat>, d: Context)
    requires BucketedOf(a.action, a.street, amount, c) == BucketedOf(b.action, b.street, other, d)
    ensures SpreadOf(s, ActionLikelihood(w, a, amount, c, policy)) == SpreadOf(s, ActionLikelihood(w, b, other, d, policy))
    ensures forall h :: ActionLikelihood(w, a, amount, c, policy)(h) == ActionLikelihood(w, b, other, d, policy)(h)
  {
    hide LikelihoodOf, NormalizedCombos, SizeBucketOf, SprBucketOf, Spr, Times;
    forall h ensures ActionLikelihood(w, a, amount, c, policy)(h) == ActionLikelihood(w, b, other, d, policy)(h) {
      LikelihoodFactors(h, a.action, a.street, amount, c, other, d);
    }
    assert Multiplied(WeightsOf(s.combos), ActionLikelihood(w, a, amount, c, policy))
        == Multiplied(WeightsOf(s.combos), ActionLikelihood(w, b, other, d, policy));
  }

  // ---------------------------------------------------------------- the public table

  datatype Table = Table(inactive: set<int>, preflop: seq<Action>, board: seq<Card>,
                         contributions: map<int, int>, stacks: map<int, int>, pot: int)

  function Zeroes(seats: seq<int>): map<int, int> {
    map s | s in seats :: 0
  }

  /** The antes and blinds, seat by seat. */
  function Opening(w: World, g: Started, seats: seq<int>): Table {
    if seats == [] then Table({}, [], [], Zeroes(g.active), map s | s in g.stacks :: g.stacks[s] as int, g.ante * |g.active|)
    else
      var seat := seats[|seats| - 1];
      var t := Opening(w, g, seats[..|seats| - 1]);
      var blind := match w.position(g, seat)
        case SmallBlindSeat => g.smallBlind
        case BigBlindSeat => g.bigBlind
        case Seated(_) => 0;
      var stack := if seat in t.stacks then t.stacks[seat] - g.ante - blind else 0;
      t.(contributions := if blind > 0 then t.contributions[seat := blind] else t.contributions,
         stacks := t.stacks[seat := if stack > 0 then stack else 0],
         pot := t.pot + blind)
  }

  function LowerOf(a: int, b: int): int {
    if a < b then a else b
  }

  /** _incremental_contribution for a seat with a stack and a contribution. */
  function Contribution(t: Table, a: Action): int
    requires a.actor in t.stacks && a.actor in t.contributions
  {
    var amount := if a.amount.Some? then a.amount.value as int else 0;
    var raw := match a.semantics
      case To => if amount > t.contributions[a.actor] then amount - t.contributions[a.actor] else 0
      case By => amount
      case Cost => amount
      case NoAmount => 0;
    LowerOf(raw, t.stacks[a.actor])
  }

  function ContextOf(w: World, g: Started, t: Table, a: Action): Context
    requires a.actor in t.stacks
  {
    var position := match w.position(g, a.actor)
      case SmallBlindSeat => OtherPosition("small_blind")
      case BigBlindSeat => OtherPosition("big_blind")
      case Seated(p) => p;
    Context(t.board, t.pot, t.stacks[a.actor], position)
  }

  /** The amount that the likelihood sees. */
  function LikelihoodAmount(t: Table, a: Action): Option<nat>
    requires a.actor in t.stacks && a.actor in t.contributions
  {
    if a.amount.None? then None
    else Some(if Contribution(t, a) > 0 then Contribution(t, a) else 0)
  }

  /** The table after an action. */
  function TableAfter(t: Table, a: Action): Table
    requires a.actor in t.stacks && a.actor in t.contributions
  {
    var contribution := Contribution(t, a);
    t.(inactive := if a.action.SimFold? then t.inactive + {a.actor} else t.inactive,
       stacks := t.stacks[a.actor := t.stacks[a.actor] - contribution],
       contributions := t.contributions[a.actor := t.contributions[a.actor] + contribution],
       pot := t.pot + contribution,
       preflop := if a.street.Preflop? then t.preflop + [a] else t.preflop)
  }

  function TableDealt(g: Started, t: Table, cards: seq<Card>): Table {
    t.(board := t.board + cards, contributions := Zeroes(g.active))
  }

  function PolicyOf(w: World, g: Started, t: Table, a: Action, s: Snapshot): Option<PolicyUse> {
    if a.street.Preflop? then w.policyFor(g, t.preflop, a, ComboKeys(s.combos)) else None
  }

  // ---------------------------------------------------------------- the replay

  type Snapshots = map<int, Snapshot>

  datatype Replay = Replay(snapshots: Snapshots, table: Table)

  /** Every seat's snapshot after a deal; None when some seat keeps no combo. */
  function BlockAll(snapshots: Snapshots, cards: seq<Card>, sequence: int, street: Street): Option<Snapshots> {
    if exists s :: s in snapshots && BlockValue(snapshots[s], cards, sequence, street).None? then None
    else Some(map s | s in snapshots :: BlockValue(snapshots[s], cards, sequence, street).value)
  }

  predicate KnowsSeat(snapshots: set<int>, t: Table, seat: int) {
    seat in snapshots && seat in t.stacks && seat in t.contributions
  }

  /** One event of the prefix; None is an exception. */
  function ReplayStep(w: World, g: Started, r: Replay, step: Step): Option<Replay> {
    match step
    case Dealt(sequence, street, cards) =>
      var blocked := BlockAll(r.snapshots, cards, sequence, street);
      if blocked.None? then None else Some(Replay(blocked.value, TableDealt(g, r.table, cards)))
    case Acted(sequence, a) =>
      if !KnowsSeat(r.snapshots.Keys, r.table, a.actor) then None
      else
        var s := r.snapshots[a.actor];
        var updated := ActionValue(w, s, a, sequence, ContextOf(w, g, r.table, a), LikelihoodAmount(r.table, a),
                                   PolicyOf(w, g, r.table, a, s));
        if updated.None? then None
        else Some(Replay(r.snapshots[a.actor := updated.value], TableAfter(r.table, a)))
  }

  function PriorValue(w: World, g: Started, visible: set<Card>, seat: int): Snapshot {
    var family := w.family(g, seat);
    w.prior(seat, if family.Some? then family.value else "", visible)
  }

  predicate PriorsAvailable(w: World, g: Started) {
    forall s :: s in g.active ==> w.family(g, s).Some?
  }

  function PriorSnapshots(w: World, g: Started, visible: set<Card>): Snapshots {
    map s | s in g.active :: PriorValue(w, g, visible, s)
  }

  /** The replay of a list of public steps. */
  function ReplayAll(w: World, g: Started, visible: set<Card>, steps: seq<Step>): Option<Replay> {
    if steps == [] then Some(Replay(PriorSnapshots(w, g, visible), Opening(w, g, g.active)))
    else
      var before := ReplayAll(w, g, visible, steps[..|steps| - 1]);
      if before.None? then None else ReplayStep(w, g, before.value, steps[|steps| - 1])
  }

  datatype SeatValue = SeatValue(prior: Snapshot, current: Snapshot, inactive: bool)

  datatype Reason = InvalidStream | PrivateEventForbidden | PriorUnavailable

  datatype Beliefs = NoBeliefs | Unavailable(reason: Reason) | Ready(seats: map<int, SeatValue>)

  /** The result for a valid public prefix; None is an exception. */
  function PrefixBeliefs(w: World, g: Started, visible: set<Card>, steps: seq<Step>): Option<Beliefs> {
    if !PriorsAvailable(w, g) then Some(Unavailable(PriorUnavailable))
    else
      var r := ReplayAll(w, g, visible, steps);
      if r.None? then None
      else
        var priors := PriorSnapshots(w, g, visible);
        Some(Ready(map s | s in r.value.snapshots && s in priors ::
                     SeatValue(priors[s], r.value.snapshots[s], s in r.value.table.inactive)))
  }

  // ---------------------------------------------------------------- event streams

  datatype Payload =
    | HandStarted(started: Started)
    | BoardDealt(street: Street, cards: seq<Card>)
    | ActionTaken(action: Action)
    | HoleCardsRecorded
    | OtherPayload

  datatype StreamEvent = StreamEvent(sequence: int, payload: Payload)

  function Prefix(events: seq<StreamEvent>, target: int): seq<StreamEvent> {
    if events == [] then []
    else
      Prefix(events[..|events| - 1], target)
      + if events[|events| - 1].sequence <= target then [events[|events| - 1]] else []
  }

  predicate ValidPrefix(prefix: seq<StreamEvent>) {
    prefix != [] && forall i :: 0 <= i < |prefix| ==> prefix[i].sequence == i + 1
  }

  /** The public payloads after the first event. */
  function PublicSteps(events: seq<StreamEvent>): seq<Step> {
    if events == [] then []
    else
      var e := events[|events| - 1];
      PublicSteps(events[..|events| - 1])
      + match e.payload
        case BoardDealt(street, cards) => [Dealt(e.sequence, street, cards)]
        case ActionTaken(a) => [Acted(e.sequence, a)]
        case _ => []
  }

  /** beliefs_at without any cache. */
  function BeliefsValue(w: World, events: seq<StreamEvent>, visible: seq<Card>, after: Option<int>): Option<Beliefs> {
    if events == [] || !events[0].payload.HandStarted? then Some(NoBeliefs)
    else
      var target := if after.None? then events[|events| - 1].sequence else after.value;
      var prefix := Prefix(events, target);
      if !ValidPrefix(prefix) then Some(Unavailable(InvalidStream))
      else if exists e :: e in prefix && e.payload.HoleCardsRecorded? then Some(Unavailable(PrivateEventForbidden))
      else if !prefix[0].payload.HandStarted? then None
      else PrefixBeliefs(w, prefix[0].payload.started, Elements(visible), PublicSteps(prefix[1..]))
  }
}
