/** Game sessions, their durable store, and the recovery that closes a crash window. */
module Sessions {
  import opened Cards

  datatype HandId = HandId(session: string, sequence: nat)

  datatype Seat = Seat(id: nat, stack: nat, sittingOut: bool)

  datatype ActiveHand = ActiveHand(hand: HandId, sequence: nat, button: nat, stacks: map<nat, nat>)

  datatype Rebuy = Rebuy(sequence: nat, seat: nat, stackBefore: nat, amount: nat)

  datatype GameSession = GameSession(id: string, seats: seq<Seat>, button: nat, handSequence: nat,
                                     completed: seq<HandId>, active: Option<ActiveHand>, rebuys: seq<Rebuy>)

  const BIG_BLIND: nat := 100
  const STARTING_STACK: nat := 10000

  // ---------------------------------------------------------------- validation

  predicate Playing(s: Seat) {
    !s.sittingOut && s.stack > 0
  }

  function PlayersIn(seats: seq<Seat>): nat {
    if seats == [] then 0 else PlayersIn(seats[..|seats| - 1]) + if seats[|seats| - 1].sittingOut then 0 else 1
  }

  /** SeatTopologyV1. */
  predicate ValidTopology(seats: seq<Seat>) {
    (forall i :: 0 <= i < |seats| ==> seats[i].id == i) && PlayersIn(seats) >= 2
  }

  predicate DistinctRebuys(rebuys: seq<Rebuy>) {
    forall i, j :: 0 <= i < j < |rebuys| ==>
      rebuys[i].sequence != rebuys[j].sequence || rebuys[i].seat != rebuys[j].seat
  }

  /** validate_session_ownership. */
  predicate ValidSession(s: GameSession) {
    && ValidTopology(s.seats) && |s.seats| == 6
    && s.button < |s.seats| && Playing(s.seats[s.button])
    && s.handSequence == |s.completed| + (if s.active.Some? then 1 else 0)
    && (forall i :: 0 <= i < |s.completed| ==> s.completed[i] == HandId(s.id, i + 1))
    && (s.active.Some? ==>
          s.active.value.sequence == s.handSequence && s.active.value.hand == HandId(s.id, s.handSequence)
          && s.active.value.button == s.button)
    && DistinctRebuys(s.rebuys)
    && (forall r :: r in s.rebuys ==> r.sequence <= s.handSequence + 1)
  }

  // ---------------------------------------------------------------- completing a hand

  predicate NeedsRebuy(s: Seat) {
    !s.sittingOut && s.stack < BIG_BLIND
  }

  /** _apply_auto_rebuys: the seats. */
  function Refilled(seats: seq<Seat>): (r: seq<Seat>)
    ensures |r| == |seats|
    ensures forall i :: 0 <= i < |seats| ==>
              r[i] == if NeedsRebuy(seats[i]) then seats[i].(stack := STARTING_STACK) else seats[i]
  {
    seq(|seats|, i requires 0 <= i < |seats| => if NeedsRebuy(seats[i]) then seats[i].(stack := STARTING_STACK) else seats[i])
  }

  /** _apply_auto_rebuys: the audit entries. */
  function NewRebuys(seats: seq<Seat>, target: nat): seq<Rebuy> {
    if seats == [] then []
    else
      var s := seats[|seats| - 1];
      NewRebuys(seats[..|seats| - 1], target)
      + if NeedsRebuy(s) then [Rebuy(target, s.id, s.stack, STARTING_STACK - s.stack)] else []
  }

  /** The first playing seat clockwise from the button, starting at an offset. */
  function NextButton(seats: seq<Seat>, button: nat, offset: nat): Option<nat>
    requires seats != []
    decreases |seats| + 1 - offset
  {
    if offset > |seats| then None
    else if Playing(seats[(button + offset) % |seats|]) then Some((button + offset) % |seats|)
    else NextButton(seats, button, offset + 1)
  }

  function Settled(seats: seq<Seat>, ending: map<nat, nat>): (r: seq<Seat>)
    ensures |r| == |seats|
    ensures forall i :: 0 <= i < |seats| ==>
              r[i] == if seats[i].id in ending then seats[i].(stack := ending[seats[i].id]) else seats[i]
  {
    seq(|seats|, i requires 0 <= i < |seats| =>
      if seats[i].id in ending then seats[i].(stack := ending[seats[i].id]) else seats[i])
  }

  /** The chips of a stack map, over the seats 0 to n - 1. */
  function ChipsIn(stacks: map<nat, nat>, n: nat): nat {
    if n == 0 then 0 else ChipsIn(stacks, n - 1) + if n - 1 in stacks then stacks[n - 1] else 0
  }

  /** complete_active_hand; None is a lifecycle or validation error. */
  function CompleteHand(s: GameSession, hand: HandId, ending: map<nat, nat>): Option<GameSession> {
    if s.active.None? || s.active.value.hand != hand then None
    else if ending.Keys != s.active.value.stacks.Keys then None
    else if ChipsIn(ending, |s.seats|) != ChipsIn(s.active.value.stacks, |s.seats|) then None
    else
      var settled := Settled(s.seats, ending);
      var seats := Refilled(settled);
      if !ValidTopology(settled) || !ValidTopology(seats) then None
      else
        var button := NextButton(seats, s.button, 1);
        if button.None? then None
        else
          var next := GameSession(s.id, seats, button.value, s.handSequence, s.completed + [hand], None,
                                  s.rebuys + NewRebuys(settled, s.handSequence + 1));
          if ValidSession(next) then Some(next) else None
  }

  function ChipsOf(seats: seq<Seat>): nat {
    if seats == [] then 0 else ChipsOf(seats[..|seats| - 1]) + seats[|seats| - 1].stack
  }

  function RebuyChips(rebuys: seq<Rebuy>): nat {
    if rebuys == [] then 0 else RebuyChips(rebuys[..|rebuys| - 1]) + rebuys[|rebuys| - 1].amount
  }

  lemma RebuySnoc(rebuys: seq<Rebuy>, r: Rebuy)
    ensures RebuyChips(rebuys + [r]) == RebuyChips(rebuys) + r.amount
  {
    assert (rebuys + [r])[..|rebuys|] == rebuys;
  }

  lemma {:induction false} RefillAddsRebuys(seats: seq<Seat>, target: nat)
    ensures ChipsOf(Refilled(seats)) == ChipsOf(seats) + RebuyChips(NewRebuys(seats, target))
  {
    if seats != [] {
      var n := |seats| - 1;
      RefillAddsRebuys(seats[..n], target);
      assert Refilled(seats)[..n] == Refilled(seats[..n]);
      var before := NewRebuys(seats[..n], target);
      if NeedsRebuy(seats[n]) {
        RebuySnoc(before, Rebuy(target, seats[n].id, seats[n].stack, STARTING_STACK - seats[n].stack));
      } else {
        assert NewRebuys(seats, target) == before;
      }
    }
  }

  /** The stacks that the hand opened with are the seats' own. */
  predicate OpeningMatches(s: GameSession) {
    s.active.Some? ==> forall i :: i in s.active.value.stacks ==>
      i < |s.seats| && s.active.value.stacks[i] == s.seats[i].stack
  }

  lemma {:induction false} SettleMoves(seats: seq<Seat>, opening: map<nat, nat>, ending: map<nat, nat>)
    requires forall i :: 0 <= i < |seats| ==> seats[i].id == i
    requires ending.Keys == opening.Keys && forall i :: i in opening && i < |seats| ==> opening[i] == seats[i].stack
    ensures ChipsOf(Settled(seats, ending)) + ChipsIn(opening, |seats|) == ChipsOf(seats) + ChipsIn(ending, |seats|)
  {
    if seats != [] {
      var n := |seats| - 1;
      SettleMoves(seats[..n], opening, ending);
      assert Settled(seats, ending)[..n] == Settled(seats[..n], ending);
    }
  }

  /** Completing a hand clears it, records it, and adds no chips except the recorded rebuys. */
  lemma CompletionConserves(s: GameSession, hand: HandId, ending: map<nat, nat>)
    requires ValidSession(s) && OpeningMatches(s) && CompleteHand(s, hand, ending).Some?
    ensures var next := CompleteHand(s, hand, ending).value;
            && ValidSession(next) && next.active.None? && next.completed == s.completed + [hand]
            && (exists added :: next.rebuys == s.rebuys + added && ChipsOf(next.seats) == ChipsOf(s.seats) + RebuyChips(added))
            && Playing(next.seats[next.button])
  {
    SettleMoves(s.seats, s.active.value.stacks, ending);
    RefillAddsRebuys(Settled(s.seats, ending), s.handSequence + 1);
  }

  // ---------------------------------------------------------------- when a hand can be completed

  /** The stack of seat i once the hand's stacks are settled. */
  function SettledStack(s: GameSession, ending: map<nat, nat>, i: nat): nat
    requires i < |s.seats|
  {
    if i in ending then ending[i] else s.seats[i].stack
  }

  predicate Broke(s: GameSession, ending: map<nat, nat>, i: nat)
    requires i < |s.seats|
  {
    !s.seats[i].sittingOut && SettledStack(s, ending, i) < 100
  }

  /** The hand is the active one, its chips stay, and no seat that needs a rebuy has one on record for the next hand. */
  predicate Completable(s: GameSession, hand: HandId, ending: map<nat, nat>) {
    s.active.Some? && s.active.value.hand == hand && ending.Keys == s.active.value.stacks.Keys
    && ChipsIn(ending, |s.seats|) == ChipsIn(s.active.value.stacks, |s.seats|)
    && forall r :: r in s.rebuys && r.sequence == s.handSequence + 1 && r.seat < |s.seats| ==> !Broke(s, ending, r.seat)
  }

  lemma {:induction false} SamePlayers(a: seq<Seat>, b: seq<Seat>)
    requires |a| == |b| && forall i :: 0 <= i < |a| ==> a[i].sittingOut == b[i].sittingOut
    ensures PlayersIn(a) == PlayersIn(b)
  {
    if a != [] { SamePlayers(a[..|a| - 1], b[..|b| - 1]); }
  }

  lemma {:induction false} SomePlayer(seats: seq<Seat>) returns (i: nat)
    requires PlayersIn(seats) > 0
    ensures i < |seats| && !seats[i].sittingOut
  {
    if !seats[|seats| - 1].sittingOut { i := |seats| - 1; } else { i := SomePlayer(seats[..|seats| - 1]); }
  }

  /** The seat d places clockwise from the button. */
  function Clockwise(button: nat, d: nat, n: nat): (seat: nat)
    requires n > 0
    ensures seat < n
  {
    (button + d) % n
  }

  ghost predicate FirstPlaying(seats: seq<Seat>, button: nat, from: nat, d: nat)
    requires seats != []
  {
    from <= d && Playing(seats[Clockwise(button, d, |seats|)])
    && forall e: nat :: from <= e < d ==> !Playing(seats[Clockwise(button, e, |seats|)])
  }

  /** The search finds the first playing seat, and finds one when a seat at a distance of at most |seats| plays. */
  lemma {:induction false} NextButtonIsFirst(seats: seq<Seat>, button: nat, offset: nat, some: nat) returns (d: nat)
    requires seats != [] && offset <= some <= |seats| && Playing(seats[Clockwise(button, some, |seats|)])
    ensures d <= |seats| && FirstPlaying(seats, button, offset, d)
    ensures NextButton(seats, button, offset) == Some(Clockwise(button, d, |seats|))
    decreases |seats| + 1 - offset
  {
    hide Playing;
    if Playing(seats[Clockwise(button, offset, |seats|)]) {
      d := offset;
    } else {
      d := NextButtonIsFirst(seats, button, offset + 1, some);
    }
  }

  /** Every seat lies one to six places clockwise. */
  lemma Reaching(button: nat, i: nat) returns (d: nat)
    requires button < 6 && i < 6
    ensures 1 <= d <= 6 && Clockwise(button, d, 6) == i
  {
    d := if i > button then i - button else i + 6 - button;
  }

  predicate RebuyOf(seats: seq<Seat>, target: nat, r: Rebuy) {
    r.seat < |seats| && NeedsRebuy(seats[r.seat]) && r == Rebuy(target, r.seat, seats[r.seat].stack, STARTING_STACK - seats[r.seat].stack)
  }

  /** Exactly the broke seats get a rebuy, for the next hand, up to the starting stack. */
  lemma {:induction false} RebuysAre(seats: seq<Seat>, target: nat)
    requires forall i :: 0 <= i < |seats| ==> seats[i].id == i
    ensures forall r :: r in NewRebuys(seats, target) <==> RebuyOf(seats, target, r)
    ensures DistinctRebuys(NewRebuys(seats, target))
  {
    if seats != [] {
      var n := |seats| - 1;
      RebuysAre(seats[..n], target);
      var before, s := NewRebuys(seats[..n], target), seats[n];
      var added := if NeedsRebuy(s) then [Rebuy(target, n, s.stack, STARTING_STACK - s.stack)] else [];
      assert NewRebuys(seats, target) == before + added;
      hide NewRebuys, NeedsRebuy, DistinctRebuys;
      forall r ensures r in before + added <==> RebuyOf(seats, target, r) {
        assert r in before <==> RebuyOf(seats[..n], target, r);
      }
      DistinctSnoc(before, added);
    }
  }

  lemma DistinctSnoc(a: seq<Rebuy>, b: seq<Rebuy>)
    requires DistinctRebuys(a) && |b| <= 1 && forall x, y :: x in a && y in b ==> x.seat != y.seat
    ensures DistinctRebuys(a + b)
  {}

  lemma DistinctJoin(a: seq<Rebuy>, b: seq<Rebuy>)
    requires DistinctRebuys(a) && DistinctRebuys(b)
    ensures DistinctRebuys(a + b) <==> forall x, y :: x in a && y in b ==> x.sequence != y.sequence || x.seat != y.seat
  {
    if DistinctRebuys(a + b) {
      forall x, y | x in a && y in b ensures x.sequence != y.sequence || x.seat != y.seat {
        var i :| 0 <= i < |a| && a[i] == x;
        var j :| 0 <= j < |b| && b[j] == y;
        assert (a + b)[i] == x && (a + b)[|a| + j] == y;
      }
    }
  }

  /** The button moves to the nearest seat clockwise that is not sitting out. */
  ghost predicate ButtonMoves(s: GameSession, next: GameSession) {
    |s.seats| == 6
    && exists d: nat :: 1 <= d <= 6 && next.button == Clockwise(s.button, d, 6) && !s.seats[next.button].sittingOut
         && forall e: nat :: 1 <= e < d ==> s.seats[Clockwise(s.button, e, 6)].sittingOut
  }

  lemma ButtonIsNext(s: GameSession, seats: seq<Seat>, next: GameSession)
    requires |s.seats| == |seats| == 6 && s.button < 6 && PlayersIn(s.seats) > 0
    requires forall i :: 0 <= i < 6 ==> (Playing(seats[i]) <==> !s.seats[i].sittingOut)
    ensures NextButton(seats, s.button, 1).Some?
    ensures NextButton(seats, s.button, 1) == Some(next.button) ==> ButtonMoves(s, next) && next.button < 6 && Playing(seats[next.button])
  {
    var player := SomePlayer(s.seats);
    var some := Reaching(s.button, player);
    hide Playing, Clockwise, NextButton;
    var d := NextButtonIsFirst(seats, s.button, 1, some);
  }

  /** The seats and the audit entries after the hand. */
  lemma SeatsAfter(s: GameSession, ending: map<nat, nat>)
    requires ValidTopology(s.seats) && |s.seats| == 6
    ensures var settled := Settled(s.seats, ending);
            && ValidTopology(settled) && ValidTopology(Refilled(settled))
            && (forall i :: 0 <= i < 6 ==>
                  Refilled(settled)[i] == Seat(i, if Broke(s, ending, i) then 10000 else SettledStack(s, ending, i), s.seats[i].sittingOut))
            && (forall i :: 0 <= i < 6 ==> (Playing(Refilled(settled)[i]) <==> !s.seats[i].sittingOut))
            && (forall r :: r in NewRebuys(settled, s.handSequence + 1) <==> RebuyAfter(s, ending, r))
            && DistinctRebuys(NewRebuys(settled, s.handSequence + 1))
  {
    var settled := Settled(s.seats, ending);
    SamePlayers(s.seats, settled);
    SamePlayers(s.seats, Refilled(settled));
    RebuysAre(settled, s.handSequence + 1);
    hide NewRebuys, PlayersIn, DistinctRebuys;
  }

  predicate RebuyAfter(s: GameSession, ending: map<nat, nat>, r: Rebuy) {
    r.seat < |s.seats| && Broke(s, ending, r.seat)
    && r == Rebuy(s.handSequence + 1, r.seat, SettledStack(s, ending, r.seat), 10000 - SettledStack(s, ending, r.seat))
  }

  /** The new entries join the old ones exactly when no broke seat has one for the next hand. */
  lemma RebuysJoin(s: GameSession, ending: map<nat, nat>, added: seq<Rebuy>)
    requires DistinctRebuys(s.rebuys) && DistinctRebuys(added) && forall r :: r in added <==> RebuyAfter(s, ending, r)
    ensures DistinctRebuys(s.rebuys + added) <==>
              forall r :: r in s.rebuys && r.sequence == s.handSequence + 1 && r.seat < |s.seats| ==> !Broke(s, ending, r.seat)
  {
    DistinctJoin(s.rebuys, added);
    hide DistinctRebuys;
    forall r | r in s.rebuys && r.sequence == s.handSequence + 1 && r.seat < |s.seats| && Broke(s, ending, r.seat)
      ensures !DistinctRebuys(s.rebuys + added)
    {
      var stack := SettledStack(s, ending, r.seat);
      assert RebuyAfter(s, ending, Rebuy(s.handSequence + 1, r.seat, stack, 10000 - stack));
    }
  }

  /**
   * A hand of a valid session can be completed exactly when it is completable; then every seat has its ending stack,
   * or 10000 chips instead of fewer than 100, the button goes to the next player, and the rebuys are recorded.
   */
  lemma CompletionLaw(s: GameSession, hand: HandId, ending: map<nat, nat>)
    requires ValidSession(s)
    ensures CompleteHand(s, hand, ending).Some? <==> Completable(s, hand, ending)
    ensures Completable(s, hand, ending) ==>
              var next := CompleteHand(s, hand, ending).value;
              (next.id, next.handSequence, next.completed, next.active) == (s.id, s.handSequence, s.completed + [hand], None)
              && |next.seats| == 6
              && (forall i :: 0 <= i < 6 ==>
                    next.seats[i] == Seat(i, if Broke(s, ending, i) then 10000 else SettledStack(s, ending, i), s.seats[i].sittingOut))
              && ButtonMoves(s, next)
              && s.rebuys <= next.rebuys
              && forall r :: r in next.rebuys[|s.rebuys|..] <==> RebuyAfter(s, ending, r)
  {
    var settled := Settled(s.seats, ending);
    var seats, added := Refilled(settled), NewRebuys(settled, s.handSequence + 1);
    SeatsAfter(s, ending);
    RebuysJoin(s, ending, added);
    hide NextButton, NewRebuys, Settled, Refilled, ChipsIn, Broke, SettledStack, ButtonMoves, Playing, DistinctRebuys, PlayersIn, NeedsRebuy;
    assert forall r :: r in added ==> r.sequence <= s.handSequence + 1;
    hide RebuyAfter;
    var button := NextButton(seats, s.button, 1);
    var next := GameSession(s.id, seats, if button.Some? then button.value else 0, s.handSequence, s.completed + [hand], None, s.rebuys + added);
    ButtonIsNext(s, seats, next);
    assert next.rebuys[|s.rebuys|..] == added;
  }

  // ---------------------------------------------------------------- the durable row

  datatype Stored = Stored(session: GameSession, revision: nat)

  datatype SaveError = RevisionConflict | InvalidRevision

  datatype SaveResult = Saved(stored: Stored) | NotSaved(error: SaveError)

  /** save: equal content is accepted before the revision is compared. */
  function SaveStep(row: Option<Stored>, session: GameSession, expected: int): (Option<Stored>, SaveResult) {
    if expected < 0 then (row, NotSaved(InvalidRevision))
    else
      match row
      case None =>
        if expected != 0 then (row, NotSaved(RevisionConflict))
        else (Some(Stored(session, 1)), Saved(Stored(session, 1)))
      case Some(current) =>
        if current.session == session then (row, Saved(current))
        else if current.revision != expected then (row, NotSaved(RevisionConflict))
        else (Some(Stored(session, current.revision + 1)), Saved(Stored(session, current.revision + 1)))
  }

  /** What the event log says about the active hand: nothing terminal, or its ending stacks. */
  type Replayed = HandId -> Option<map<nat, nat>>

  datatype RecoverResult = Recovered(stored: Stored) | NoSession | RecoverFailed | Conflict

  /** The session store: one row per session. */
  class GameSessionStore {
    var rows: map<string, Stored>

    constructor ()
      ensures rows == map[]
    {
      rows := map[];
    }

    function RowOf(id: string): Option<Stored>
      reads this
    {
      if id in rows then Some(rows[id]) else None
    }

    method Save(session: GameSession, expected: int) returns (r: SaveResult)
      modifies this
      ensures (RowOf(session.id), r) == SaveStep(old(RowOf(session.id)), session, expected)
      ensures forall id :: id != session.id ==> RowOf(id) == old(RowOf(id))
    {
      if expected < 0 {
        return NotSaved(InvalidRevision);
      }
      if session.id !in rows {
        if expected != 0 {
          return NotSaved(RevisionConflict);
        }
        rows := rows[session.id := Stored(session, 1)];
        return Saved(rows[session.id]);
      }
      var current := rows[session.id];
      if current.session == session {
        return Saved(current);
      }
      if current.revision != expected {
        return NotSaved(RevisionConflict);
      }
      rows := rows[session.id := Stored(session, current.revision + 1)];
      r := Saved(rows[session.id]);
    }

    /** recover, without interference. */
    method Recover(id: string, replayed: Replayed) returns (r: RecoverResult)
      requires id in rows ==> rows[id].session.id == id
      modifies this
      ensures forall other :: other != id ==> RowOf(other) == old(RowOf(other))
      ensures r == Process(old(RowOf(id)), replayed)
      ensures r.Recovered? ==> RowOf(id) == Some(r.stored)
      ensures !r.Recovered? ==> RowOf(id) == old(RowOf(id))
    {
      if id !in rows {
        return NoSession;
      }
      var stored := rows[id];
      if stored.session.active.None? {
        return Recovered(stored);
      }
      var ending := replayed(stored.session.active.value.hand);
      if ending.None? {
        return Recovered(stored);
      }
      var successor := CompleteHand(stored.session, stored.session.active.value.hand, ending.value);
      if successor.None? {
        return RecoverFailed;
      }
      CompletedDiffers(stored.session, stored.session.active.value.hand, ending.value);
      var saved := Save(successor.value, stored.revision);
      match saved {
        case Saved(now) => return Recovered(now);
        case NotSaved(_) => return Conflict;
      }
    }
  }

  /** The answer of one undisturbed recovery. */
  function Process(row: Option<Stored>, replayed: Replayed): RecoverResult {
    if row.None? then NoSession
    else
      var s := row.value.session;
      if s.active.None? || replayed(s.active.value.hand).None? then Recovered(row.value)
      else
        var successor := CompleteHand(s, s.active.value.hand, replayed(s.active.value.hand).value);
        if successor.None? then RecoverFailed else Recovered(Stored(successor.value, row.value.revision + 1))
  }

  lemma CompletedDiffers(s: GameSession, hand: HandId, ending: map<nat, nat>)
    requires s.active.Some?
    ensures CompleteHand(s, hand, ending).Some? ==>
              CompleteHand(s, hand, ending).value != s && CompleteHand(s, hand, ending).value.active.None?
              && CompleteHand(s, hand, ending).value.id == s.id
  {}

  // ---------------------------------------------------------------- interleaved calls

  /** One recover call, between its transactions. */
  datatype Call = Idle | Loaded(stored: Stored) | Returned(result: RecoverResult)

  /** The row of one session, and the recover calls on it. */
  datatype System = System(row: Option<Stored>, calls: map<int, Call>)

  /** The successor that a loaded recovery wants to save; None when it has nothing to save. */
  function Successor(stored: Stored, replayed: Replayed): Option<Option<GameSession>> {
    var s := stored.session;
    if s.active.None? || replayed(s.active.value.hand).None? then None
    else Some(CompleteHand(s, s.active.value.hand, replayed(s.active.value.hand).value))
  }

  /** The last transaction of a loaded recovery. */
  function Settle(row: Option<Stored>, stored: Stored, replayed: Replayed): (Option<Stored>, RecoverResult) {
    match Successor(stored, replayed)
    case None => (row, Recovered(stored))
    case Some(None) => (row, RecoverFailed)
    case Some(Some(successor)) =>
      var (after, result) := SaveStep(row, successor, stored.revision);
      (after, if result.Saved? then Recovered(result.stored) else Conflict)
  }

  /** The next transaction of a recover call: the load, or the replay and the save. */
  function Advance(s: System, pid: int, replayed: Replayed): System {
    if pid !in s.calls then s.(calls := s.calls[pid := Idle])
    else
      match s.calls[pid]
      case Returned(_) => s
      case Idle => s.(calls := s.calls[pid := if s.row.Some? then Loaded(s.row.value) else Returned(NoSession)])
      case Loaded(stored) =>
        var (after, result) := Settle(s.row, stored, replayed);
        System(after, s.calls[pid := Returned(result)])
  }

  /** A call that runs alone answers as Process says. */
  lemma AloneIsProcess(row: Option<Stored>, pid: int, replayed: Replayed)
    ensures var begun := Advance(System(row, map[]), pid, replayed);
            var loaded := Advance(begun, pid, replayed);
            var ended := Advance(loaded, pid, replayed);
            pid in ended.calls && ended.calls[pid] == Returned(Process(row, replayed))
  {
    if row.Some? && row.value.session.active.Some? {
      var s := row.value.session;
      var ending := replayed(s.active.value.hand);
      if ending.Some? { CompletedDiffers(s, s.active.value.hand, ending.value); }
    }
    hide CompleteHand;
  }

  // ---------------------------------------------------------------- every run of saves and recoveries

  /** Any client saves, or a recover call takes its next step with what the log holds by then. */
  datatype Action = SaveAction(session: GameSession, expected: int) | RecoverAction(pid: int, replayed: Replayed)

  function Apply(s: System, a: Action): System {
    match a
    case SaveAction(session, expected) => s.(row := SaveStep(s.row, session, expected).0)
    case RecoverAction(pid, replayed) => Advance(s, pid, replayed)
  }

  /** The system after a run that starts without a row. */
  function Play(actions: seq<Action>): System {
    if actions == [] then System(None, map[]) else Apply(Play(actions[..|actions| - 1]), actions[|actions| - 1])
  }

  /** The save that an action performs: its content and its expected revision. */
  function SaveOf(s: System, a: Action): Option<(GameSession, int)> {
    match a
    case SaveAction(session, expected) => Some((session, expected))
    case RecoverAction(pid, replayed) =>
      if pid in s.calls && s.calls[pid].Loaded? then
        match Successor(s.calls[pid].stored, replayed)
        case Some(Some(successor)) => Some((successor, s.calls[pid].stored.revision))
        case _ => None
      else None
  }

  /** The expected revision of a save that succeeds and changes the stored content; None for every other action. */
  function ChangedFrom(s: System, a: Action): Option<int> {
    var save := SaveOf(s, a);
    if save.None? then None
    else if SaveStep(s.row, save.value.0, save.value.1).1.Saved? && (s.row.None? || s.row.value.session != save.value.0)
    then Some(save.value.1)
    else None
  }

  /** The expected revisions of all content changes, in order. */
  function Changes(actions: seq<Action>): seq<int> {
    if actions == [] then []
    else
      var n := |actions| - 1;
      var from := ChangedFrom(Play(actions[..n]), actions[n]);
      Changes(actions[..n]) + if from.Some? then [from.value] else []
  }

  function RevisionOf(row: Option<Stored>): nat {
    if row.Some? then row.value.revision else 0
  }

  /** What one action does to the row: a change from exactly the stored revision, or nothing. */
  lemma ActionChanges(s: System, a: Action)
    ensures var from, after := ChangedFrom(s, a), Apply(s, a).row;
            if from.Some? then
              from.value == RevisionOf(s.row) && RevisionOf(after) == RevisionOf(s.row) + 1 && after.Some?
              && Some(after.value.session) != (if s.row.Some? then Some(s.row.value.session) else None)
            else after == s.row
  {
    hide CompleteHand;
  }

  lemma {:induction false} PrefixPlays(actions: seq<Action>, n: nat)
    requires n < |actions|
    ensures Play(actions[..n + 1]) == Apply(Play(actions[..n]), actions[n])
    ensures Changes(actions[..n + 1])
         == Changes(actions[..n]) + match ChangedFrom(Play(actions[..n]), actions[n]) { case Some(e) => [e] case None => [] }
  {
    assert actions[..n + 1][..n] == actions[..n];
  }

  /** The revision is the number of content changes so far, and the i-th change was made from revision i. */
  lemma {:induction false} RevisionCountsChanges(actions: seq<Action>)
    ensures RevisionOf(Play(actions).row) == |Changes(actions)|
    ensures forall i :: 0 <= i < |Changes(actions)| ==> Changes(actions)[i] == i
  {
    hide ChangedFrom, Apply;
    if actions != [] {
      var n := |actions| - 1;
      RevisionCountsChanges(actions[..n]);
      ActionChanges(Play(actions[..n]), actions[n]);
    }
  }

  /** The revision never falls, and while it stays the same so does the row. */
  lemma {:induction false} RevisionNeverFalls(actions: seq<Action>, m: nat, n: nat)
    requires m <= n <= |actions|
    ensures RevisionOf(Play(actions[..m]).row) <= RevisionOf(Play(actions[..n]).row)
    ensures RevisionOf(Play(actions[..m]).row) == RevisionOf(Play(actions[..n]).row) ==>
              Play(actions[..m]).row == Play(actions[..n]).row
  {
    hide ChangedFrom, Apply, Play;
    if m < n {
      RevisionNeverFalls(actions, m, n - 1);
      PrefixPlays(actions, n - 1);
      ActionChanges(Play(actions[..n - 1]), actions[n - 1]);
    }
  }

  function ChangeAt(actions: seq<Action>, i: nat): Option<int>
    requires i < |actions|
  {
    ChangedFrom(Play(actions[..i]), actions[i])
  }

  /**
   * No content change ever succeeds from a stale revision: if it succeeds at j, then since any earlier moment with
   * its expected revision the row has not changed at all, and no earlier moment had a higher revision.
   */
  lemma NoStaleChange(actions: seq<Action>, m: nat, j: nat)
    requires m <= j < |actions| && ChangeAt(actions, j).Some?
    ensures ChangeAt(actions, j).value >= RevisionOf(Play(actions[..m]).row)
    ensures ChangeAt(actions, j).value == RevisionOf(Play(actions[..m]).row) ==> Play(actions[..j]).row == Play(actions[..m]).row
  {
    hide ChangedFrom, Apply, Play;
    ActionChanges(Play(actions[..j]), actions[j]);
    RevisionNeverFalls(actions, m, j);
  }

  /** Of the content changes from one expected revision, by saves or recoveries, at most one succeeds in any run. */
  lemma RacingChanges(actions: seq<Action>, i: nat, j: nat)
    requires i < |actions| && j < |actions| && ChangeAt(actions, i).Some? && ChangeAt(actions, i) == ChangeAt(actions, j)
    ensures i == j
  {
    if i < j { LaterChange(actions, i, j); }
    if j < i { LaterChange(actions, j, i); }
  }

  lemma LaterChange(actions: seq<Action>, i: nat, j: nat)
    requires i < j < |actions| && ChangeAt(actions, i).Some? && ChangeAt(actions, j).Some?
    ensures ChangeAt(actions, i).value < ChangeAt(actions, j).value
  {
    hide ChangedFrom, Apply, Play;
    ActionChanges(Play(actions[..i]), actions[i]);
    PrefixPlays(actions, i);
    NoStaleChange(actions, i + 1, j);
  }

  // ---------------------------------------------------------------- recovery beside other writers

  /** What a loaded recovery knows: a row that was stored, and that is still stored while the revision is the same. */
  ghost predicate LoadsKept(s: System) {
    forall pid :: pid in s.calls && s.calls[pid].Loaded? ==>
      && s.row.Some?
      && s.calls[pid].stored.revision <= s.row.value.revision
      && (s.calls[pid].stored.revision == s.row.value.revision ==> s.row.value == s.calls[pid].stored)
  }

  lemma ActionKeepsLoads(s: System, a: Action)
    requires LoadsKept(s)
    ensures LoadsKept(Apply(s, a))
  {
    hide CompleteHand;
    ActionChanges(s, a);
  }

  lemma {:induction false} RunKeepsLoads(actions: seq<Action>)
    ensures LoadsKept(Play(actions))
  {
    if actions != [] {
      RunKeepsLoads(actions[..|actions| - 1]);
      ActionKeepsLoads(Play(actions[..|actions| - 1]), actions[|actions| - 1]);
    }
  }

  /**
   * What the last step of a recovery does after any run. While the loaded row is still stored it saves the successor
   * with one revision bump. When another writer has changed the row since, it changes nothing: it answers the stored
   * row when that already is the successor, and a conflict otherwise.
   */
  lemma RecoveryBesideWriters(actions: seq<Action>, pid: int, replayed: Replayed, stored: Stored, successor: GameSession)
    requires pid in Play(actions).calls && Play(actions).calls[pid] == Loaded(stored)
    requires Successor(stored, replayed) == Some(Some(successor))
    ensures var before, after := Play(actions), Play(actions + [RecoverAction(pid, replayed)]);
            && before.row.Some? && pid in after.calls
            && (before.row.value == stored ==>
                  after.row == Some(Stored(successor, stored.revision + 1)) && after.calls[pid] == Returned(Recovered(after.row.value)))
            && (before.row.value != stored ==>
                  after.row == before.row && before.row.value.revision > stored.revision
                  && after.calls[pid] == Returned(if before.row.value.session == successor then Recovered(before.row.value) else Conflict))
  {
    var before := Play(actions);
    RunKeepsLoads(actions);
    var hand := stored.session.active.value.hand;
    CompletedDiffers(stored.session, hand, replayed(hand).value);
    hide CompleteHand, Play;
    PrefixPlays(actions + [RecoverAction(pid, replayed)], |actions|);
    assert (actions + [RecoverAction(pid, replayed)])[..|actions|] == actions;
    assert (actions + [RecoverAction(pid, replayed)])[..|actions| + 1] == actions + [RecoverAction(pid, replayed)];
  }

  // ---------------------------------------------------------------- recoveries alone

  function Run(start: Stored, pids: seq<int>, replayed: Replayed): System {
    if pids == [] then System(Some(start), map[])
    else Advance(Run(start, pids[..|pids| - 1], replayed), pids[|pids| - 1], replayed)
  }

  /** The successor row of an interrupted hand. */
  predicate Interrupted(start: Stored, next: GameSession, replayed: Replayed) {
    Successor(start, replayed) == Some(Some(next))
  }

  ghost predicate Converging(s: System, start: Stored, next: GameSession) {
    var after := Stored(next, start.revision + 1);
    && (s.row == Some(start) || s.row == Some(after))
    && forall pid :: pid in s.calls ==>
         match s.calls[pid]
         case Idle => true
         case Loaded(stored) => stored == start || (stored == after && s.row == Some(after))
         case Returned(result) => result == Recovered(after) && s.row == Some(after)
  }

  lemma AdvanceConverges(s: System, pid: int, start: Stored, next: GameSession, replayed: Replayed)
    requires Interrupted(start, next, replayed) && Converging(s, start, next)
    ensures Converging(Advance(s, pid, replayed), start, next)
  {
    CompletedDiffers(start.session, start.session.active.value.hand, replayed(start.session.active.value.hand).value);
    hide CompleteHand;
  }

  /**
   * Whatever number of recoveries run one after another or interleaved, with no other writer, the row is the old
   * session or its successor with one more revision, and every call that returned gave that successor and revision.
   */
  lemma {:induction false} RecoveriesConverge(start: Stored, next: GameSession, pids: seq<int>, replayed: Replayed)
    requires Interrupted(start, next, replayed)
    ensures Converging(Run(start, pids, replayed), start, next)
  {
    hide Interrupted, Converging, Advance;
    if pids == [] {
      StartConverges(start, next);
    } else {
      var n := |pids| - 1;
      RecoveriesConverge(start, next, pids[..n], replayed);
      AdvanceConverges(Run(start, pids[..n], replayed), pids[n], start, next, replayed);
    }
  }

  lemma StartConverges(start: Stored, next: GameSession)
    ensures Converging(System(Some(start), map[]), start, next)
  {}
}
