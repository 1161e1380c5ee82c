/** Safety of the event log and the outbox over every run of calls. */
module EventLogRuns {
  import opened Cards
  import opened EventLog

  // ---------------------------------------------------------------- runs

  /** One call by any caller, with any clock reading and any generated tokens. */
  datatype Call =
    | AppendCall(handId: string, expected: int, batch: seq<Event>, intents: seq<Intent>)
    | ClaimCall(worker: string, now: int, leaseSeconds: int, limit: int, tokens: seq<string>)
    | AckCall(id: int, worker: string, token: string, clock: int)
    | RetryCall(id: int, worker: string, token: string, delay: int, error: string, clock: int)

  predicate EnoughTokens(c: Call) {
    c.ClaimCall? ==> |c.tokens| >= c.limit
  }

  function Step(s: Store, c: Call): (Store, Outcome)
    requires EnoughTokens(c)
  {
    match c
    case AppendCall(hand, expected, batch, intents) => AppendStep(s, hand, expected, batch, intents)
    case ClaimCall(worker, now, lease, limit, tokens) => ClaimStep(s, worker, now, lease, limit, tokens)
    case AckCall(id, worker, token, clock) => AckStep(s, id, worker, token, clock)
    case RetryCall(id, worker, token, delay, error, clock) => RetryStep(s, id, worker, token, delay, error, clock)
  }

  predicate Runnable(calls: seq<Call>) {
    forall i :: 0 <= i < |calls| ==> EnoughTokens(calls[i])
  }

  function After(calls: seq<Call>): Store
    requires Runnable(calls)
  {
    if calls == [] then Store([], map[]) else Step(After(calls[..|calls| - 1]), calls[|calls| - 1]).0
  }

  function OutcomeOf(calls: seq<Call>, i: nat): Outcome
    requires Runnable(calls) && i < |calls|
  {
    Step(After(calls[..i]), calls[i]).1
  }

  /** The outcomes of the first n calls. */
  function History(calls: seq<Call>): (h: seq<Outcome>)
    requires Runnable(calls)
    ensures |h| == |calls|
  {
    if calls == [] then [] else History(calls[..|calls| - 1]) + [OutcomeOf(calls, |calls| - 1)]
  }

  // ---------------------------------------------------------------- the log stays numbered

  lemma {:induction false} HeadIsCount(events: seq<Event>, handId: string)
    requires Numbered(events)
    ensures Head(events, handId) == CountOf(events, handId)
  {
    hide Numbered;
    if events != [] {
      NumberedPrefix(events);
      HeadIsCount(events[..|events| - 1], handId);
    }
  }

  lemma {:induction false} CountAppend(events: seq<Event>, batch: seq<Event>, handId: string)
    requires forall i :: 0 <= i < |batch| ==> batch[i].handId == batch[0].handId
    ensures CountOf(events + batch, handId)
         == CountOf(events, handId) + if batch != [] && batch[0].handId == handId then |batch| else 0
  {
    if batch == [] {
      assert events + batch == events;
    } else {
      var n := |batch| - 1;
      CountAppend(events, batch[..n], handId);
      assert (events + batch)[..|events| + n] == events + batch[..n];
    }
  }

  lemma NumberedAppend(events: seq<Event>, batch: seq<Event>)
    requires Numbered(events) && batch != []
    requires forall i :: 0 <= i < |batch| ==> batch[i].handId == batch[0].handId
    requires Contiguous(batch, Head(events, batch[0].handId))
    ensures Numbered(events + batch)
    ensures forall h :: Head(events + batch, h) == Head(events, h) + if batch[0].handId == h then |batch| else 0
  {
    var all, hand := events + batch, batch[0].handId;
    HeadIsCount(events, hand);
    forall i | 0 <= i < |all| ensures all[i].sequence == CountOf(all[..i], all[i].handId) + 1 {
      if i < |events| {
        assert all[..i] == events[..i];
      } else {
        assert all[..i] == events + batch[..i - |events|];
        CountAppend(events, batch[..i - |events|], hand);
      }
    }
    forall h ensures Head(all, h) == Head(events, h) + if hand == h then |batch| else 0 {
      HeadIsCount(all, h);
      HeadIsCount(events, h);
      CountAppend(events, batch, h);
    }
  }

  lemma DistinctAfter(events: seq<Event>, batch: seq<Event>)
    requires Distinct(EventIds(events)) && Distinct(EventIds(batch)) && !EventClash(events, batch)
    ensures Distinct(EventIds(events + batch))
  {
    var ids := EventIds(events + batch);
    forall i, j | 0 <= i < j < |ids| ensures ids[i] != ids[j] {
      if j < |events| {
        assert ids[i] == EventIds(events)[i] && ids[j] == EventIds(events)[j];
      } else if i >= |events| {
        assert ids[i] == EventIds(batch)[i - |events|] && ids[j] == EventIds(batch)[j - |events|];
      } else {
        assert batch[j - |events|] in batch;
        assert events[i].eventId == ids[i];
      }
    }
  }

  lemma LoggedStays(events: seq<Event>, batch: seq<Event>, id: string)
    requires Logged(events, id) || id in EventIds(batch)
    ensures Logged(events + batch, id)
  {
    var all := events + batch;
    if Logged(events, id) {
      var k :| 0 <= k < |events| && events[k].eventId == id;
      assert all[k].eventId == id;
    } else {
      var k :| 0 <= k < |batch| && EventIds(batch)[k] == id;
      assert all[|events| + k].eventId == id;
    }
  }

  /** The rows after a successful append: the old ones, and one new message per intent. */
  predicate Extended(outbox: Outbox, intents: seq<Intent>, more: Outbox) {
    && (forall id :: id in outbox ==> id in more && more[id] == outbox[id])
    && (forall k :: 0 <= k < |intents| ==>
          intents[k].messageId in more && intents[k].messageId !in outbox && more[intents[k].messageId] == NewMessage(intents[k]))
    && (forall id :: id in more && id !in outbox ==>
          exists k :: 0 <= k < |intents| && intents[k].messageId == id && more[id] == NewMessage(intents[k]))
  }

  lemma ExtendOne(outbox: Outbox, intents: seq<Intent>, before: Outbox, m: Intent)
    requires Extended(outbox, intents, before) && m.messageId !in outbox
    requires forall k :: 0 <= k < |intents| ==> intents[k].messageId != m.messageId
    ensures Extended(outbox, intents + [m], before[m.messageId := NewMessage(m)])
  {
    hide NewMessage;
    var more := intents + [m];
    assert more[|intents|] == m;
    assert forall k :: 0 <= k < |intents| ==> more[k] == intents[k];
  }

  lemma {:induction false} IntentsExtend(outbox: Outbox, intents: seq<Intent>)
    requires Distinct(MessageIds(intents)) && forall k :: 0 <= k < |intents| ==> intents[k].messageId !in outbox
    ensures Extended(outbox, intents, WithIntents(outbox, intents))
  {
    hide NewMessage;
    if intents != [] {
      var n := |intents| - 1;
      assert MessageIds(intents)[..n] == MessageIds(intents[..n]);
      IntentsExtend(outbox, intents[..n]);
      forall k | 0 <= k < n ensures intents[..n][k].messageId != intents[n].messageId {
        assert MessageIds(intents)[k] != MessageIds(intents)[n];
      }
      assert intents == intents[..n] + [intents[n]];
      hide Extended;
      ExtendOne(outbox, intents[..n], WithIntents(outbox, intents[..n]), intents[n]);
    }
  }

  lemma KeysStayUnique(outbox: Outbox, intents: seq<Intent>, more: Outbox, a: int, b: int)
    requires UniqueKeys(outbox) && Distinct(Keys(intents)) && Extended(outbox, intents, more)
    requires forall k :: 0 <= k < |intents| ==> !HasKey(outbox, intents[k].key)
    requires a in more && b in more && more[a].key == more[b].key
    ensures a == b
  {
    hide Distinct;
    if a !in outbox {
      var j :| 0 <= j < |intents| && intents[j].messageId == a && more[a] == NewMessage(intents[j]);
      if b !in outbox {
        var k :| 0 <= k < |intents| && intents[k].messageId == b && more[b] == NewMessage(intents[k]);
        SameKey(intents, j, k);
      }
    } else {
      assert HasKey(outbox, more[b].key);
      assert b in outbox;
    }
  }

  lemma SameKey(intents: seq<Intent>, j: nat, k: nat)
    requires Distinct(Keys(intents)) && j < |intents| && k < |intents| && intents[j].key == intents[k].key
    ensures j == k
  {
    assert Keys(intents)[j] == Keys(intents)[k];
  }

  /** The outbox part of a successful append. */
  lemma NewMessagesConsistent(outbox: Outbox, intents: seq<Intent>)
    requires UniqueKeys(outbox) && !OutboxClash(outbox, intents)
    requires Distinct(MessageIds(intents)) && Distinct(Keys(intents))
    ensures UniqueKeys(WithIntents(outbox, intents)) && Extended(outbox, intents, WithIntents(outbox, intents))
  {
    forall k | 0 <= k < |intents| ensures intents[k].messageId !in outbox && !HasKey(outbox, intents[k].key) {
      assert intents[k] in intents;
    }
    hide OutboxClash, Distinct, Extended, HasKey;
    IntentsExtend(outbox, intents);
    var more := WithIntents(outbox, intents);
    forall a, b | a in more && b in more && more[a].key == more[b].key ensures a == b {
      KeysStayUnique(outbox, intents, more, a, b);
    }
  }

  lemma RowsStayBound(s: Store, batch: seq<Event>, intents: seq<Intent>, more: Outbox)
    requires Extended(s.outbox, intents, more) && IntentError(intents, batch).None?
    requires forall id :: id in s.outbox ==> Logged(s.events, s.outbox[id].sourceEvent) && ClaimFields(s.outbox[id])
    ensures forall id :: id in more ==> Logged(s.events + batch, more[id].sourceEvent) && ClaimFields(more[id])
  {
    hide Logged, Distinct;
    forall id | id in more ensures Logged(s.events + batch, more[id].sourceEvent) && ClaimFields(more[id]) {
      if id in s.outbox {
        LoggedStays(s.events, batch, s.outbox[id].sourceEvent);
      } else {
        var k :| 0 <= k < |intents| && intents[k].messageId == id && more[id] == NewMessage(intents[k]);
        assert intents[k] in intents;
        LoggedStays(s.events, batch, intents[k].sourceEvent);
      }
    }
  }

  lemma AppendKeepsConsistent(s: Store, handId: string, expected: int, batch: seq<Event>, intents: seq<Intent>)
    requires Consistent(s)
    ensures Consistent(AppendStep(s, handId, expected, batch, intents).0)
  {
    hide Numbered, Distinct, UniqueKeys, Logged, ClaimFields, EventClash, OutboxClash, WithIntents, Head, Contiguous, Extended;
    if AppendStep(s, handId, expected, batch, intents).1.Appended? {
      assert forall i :: 0 <= i < |batch| ==> batch[i] in batch;
      NumberedAppend(s.events, batch);
      DistinctAfter(s.events, batch);
      NewMessagesConsistent(s.outbox, intents);
      RowsStayBound(s, batch, intents, WithIntents(s.outbox, intents));
    }
  }

  /** What a claim does to a row: it may be released, and it is granted exactly if it was selected. */
  predicate RowClaimed(before: Message, after: Message, ids: seq<int>, tokens: seq<string>,
                       id: int, worker: string, now: int, lease: int)
    requires |tokens| >= |ids|
  {
    var free := if Expired(before, now) then Released(before) else before;
    && (id !in ids ==> after == free)
    && (forall k :: 0 <= k < |ids| && ids[k] == id ==> Available(free, now) && after == ClaimedBy(free, worker, lease, tokens[k]))
  }

  lemma ClaimRows(s: Store, worker: string, now: int, leaseSeconds: int, limit: int, tokens: seq<string>)
    requires |tokens| >= limit && worker != "" && leaseSeconds > 0 && limit > 0
    ensures var ids := FirstIds(Ready(Reclaimed(s.outbox, now), now), limit);
            var after := ClaimStep(s, worker, now, leaseSeconds, limit, tokens).0;
            && after.events == s.events && after.outbox.Keys == s.outbox.Keys && Distinct(ids)
            && (forall id :: id in ids ==> id in s.outbox)
            && (forall id :: id in s.outbox ==>
                  RowClaimed(s.outbox[id], after.outbox[id], ids, tokens, id, worker, now, now + leaseSeconds))
  {
    hide ClaimedBy, Available, Expired, Released;
    var free := Reclaimed(s.outbox, now);
    var ids := FirstIds(Ready(free, now), limit);
    var after := ClaimStep(s, worker, now, leaseSeconds, limit, tokens).0;
    GrantRows(free, ids, tokens, worker, now + leaseSeconds);
    hide GrantAll, Reclaimed, FirstIds;
    forall id | id in s.outbox
      ensures RowClaimed(s.outbox[id], after.outbox[id], ids, tokens, id, worker, now, now + leaseSeconds)
    {
      assert free[id] == if Expired(s.outbox[id], now) then Released(s.outbox[id]) else s.outbox[id] by { ReclaimedRow(s.outbox, now, id); }
    }
  }

  lemma ReclaimedRow(outbox: Outbox, now: int, id: int)
    requires id in outbox
    ensures Reclaimed(outbox, now)[id] == if Expired(outbox[id], now) then Released(outbox[id]) else outbox[id]
  {}

  lemma ClaimedRowWhole(before: Message, after: Message, ids: seq<int>, tokens: seq<string>,
                        id: int, worker: string, now: int, lease: int)
    requires |tokens| >= |ids| && RowClaimed(before, after, ids, tokens, id, worker, now, lease) && ClaimFields(before)
    ensures after.key == before.key && after.sourceEvent == before.sourceEvent && ClaimFields(after)
    ensures before.status.Dispatched? ==> after == before
  {
    if id in ids {
      var k :| 0 <= k < |ids| && ids[k] == id;
    }
  }

  lemma ClaimKeepsConsistent(s: Store, worker: string, now: int, leaseSeconds: int, limit: int, tokens: seq<string>)
    requires Consistent(s) && |tokens| >= limit
    ensures Consistent(ClaimStep(s, worker, now, leaseSeconds, limit, tokens).0)
  {
    hide Numbered, Distinct, Logged, ClaimFields, RowClaimed;
    if worker != "" && leaseSeconds > 0 && limit > 0 {
      ClaimRows(s, worker, now, leaseSeconds, limit, tokens);
      var ids := FirstIds(Ready(Reclaimed(s.outbox, now), now), limit);
      var after := ClaimStep(s, worker, now, leaseSeconds, limit, tokens).0;
      hide ClaimStep, FirstIds, Ready, Reclaimed;
      forall id | id in after.outbox
        ensures after.outbox[id].key == s.outbox[id].key && after.outbox[id].sourceEvent == s.outbox[id].sourceEvent
        ensures ClaimFields(after.outbox[id])
      {
        ClaimedRowWhole(s.outbox[id], after.outbox[id], ids, tokens, id, worker, now, now + leaseSeconds);
      }
    }
  }

  /** Replacing one row by one with the same identity and whole claim fields. */
  lemma SettleKeepsConsistent(s: Store, id: int, m: Message)
    requires Consistent(s) && id in s.outbox && ClaimFields(m)
    requires m.key == s.outbox[id].key && m.sourceEvent == s.outbox[id].sourceEvent
    ensures Consistent(s.(outbox := s.outbox[id := m]))
  {}

  lemma StepKeepsConsistent(s: Store, c: Call)
    requires Consistent(s) && EnoughTokens(c)
    ensures Consistent(Step(s, c).0)
  {
    hide AppendStep, ClaimStep, Consistent, Holds;
    match c {
      case AppendCall(hand, expected, batch, intents) => AppendKeepsConsistent(s, hand, expected, batch, intents);
      case ClaimCall(worker, now, lease, limit, tokens) => ClaimKeepsConsistent(s, worker, now, lease, limit, tokens);
      case AckCall(id, worker, token, clock) =>
        if AckStep(s, id, worker, token, clock).1.Acked? {
          HeldRow(s.outbox, id, worker, token, clock);
          SettleKeepsConsistent(s, id, AckStep(s, id, worker, token, clock).0.outbox[id]);
        }
      case RetryCall(id, worker, token, delay, error, clock) =>
        if RetryStep(s, id, worker, token, delay, error, clock).1.Retried? {
          HeldRow(s.outbox, id, worker, token, clock);
          SettleKeepsConsistent(s, id, RetryStep(s, id, worker, token, delay, error, clock).0.outbox[id]);
        }
    }
  }

  lemma HeldRow(outbox: Outbox, id: int, worker: string, token: string, clock: int)
    requires Holds(outbox, id, worker, token, clock)
    ensures id in outbox && outbox[id].status.Processing? && outbox[id].token == Some(token)
  {}

  /** Every reachable store is consistent: numbered hands, unique ids and keys, bound messages, whole claims. */
  lemma {:induction false} ReachableConsistent(calls: seq<Call>)
    requires Runnable(calls)
    ensures Consistent(After(calls))
  {
    if calls != [] {
      var n := |calls| - 1;
      ReachableConsistent(calls[..n]);
      StepKeepsConsistent(After(calls[..n]), calls[n]);
    }
  }

  // ---------------------------------------------------------------- appends

  /** A failed call changes nothing; a successful append adds its whole batch and every intent. */
  lemma AppendIsAtomic(s: Store, c: Call)
    requires Consistent(s) && EnoughTokens(c)
    ensures Step(s, c).1.Failed? ==> Step(s, c).0 == s
    ensures Step(s, c).1.Appended? ==>
              c.AppendCall? && c.batch != [] && Head(s.events, c.handId) == c.expected
              && Step(s, c).0.events == s.events + c.batch
              && Step(s, c).1.last == c.expected + |c.batch|
              && (forall h :: Head(Step(s, c).0.events, h) == Head(s.events, h) + if c.handId == h then |c.batch| else 0)
              && (forall id :: id in s.outbox ==> id in Step(s, c).0.outbox && Step(s, c).0.outbox[id] == s.outbox[id])
              && (forall m :: m in c.intents ==> m.messageId !in s.outbox && m.messageId in Step(s, c).0.outbox)
              && (forall m :: m in c.intents ==> Step(s, c).0.outbox[m.messageId] == NewMessage(m))
  {
    if Step(s, c).1.Appended? {
      assert forall i :: 0 <= i < |c.batch| ==> c.batch[i] in c.batch;
      NumberedAppend(s.events, c.batch);
      NewMessagesConsistent(s.outbox, c.intents);
    }
  }

  lemma HeadNeverFalls(s: Store, c: Call, handId: string)
    requires Consistent(s) && EnoughTokens(c)
    ensures Head(Step(s, c).0.events, handId) >= Head(s.events, handId)
  {
    hide Step, Head, Consistent;
    if Step(s, c).1.Appended? {
      AppendIsAtomic(s, c);
    } else {
      EventsKept(s, c);
    }
  }

  lemma EventsKept(s: Store, c: Call)
    requires EnoughTokens(c) && !Step(s, c).1.Appended?
    ensures Step(s, c).0.events == s.events
  {}

  lemma {:induction false} HeadGrows(calls: seq<Call>, i: nat, handId: string)
    requires Runnable(calls) && i <= |calls|
    ensures Head(After(calls).events, handId) >= Head(After(calls[..i]).events, handId)
    decreases |calls|
  {
    if i < |calls| {
      var n := |calls| - 1;
      HeadGrows(calls[..n], i, handId);
      assert calls[..n][..i] == calls[..i];
      ReachableConsistent(calls[..n]);
      HeadNeverFalls(After(calls[..n]), calls[n], handId);
    } else {
      assert calls[..i] == calls;
    }
  }

  /** Of any appends to one hand that race from the same expected sequence, at most one succeeds. */
  lemma RacingAppends(calls: seq<Call>, i: nat, j: nat)
    requires Runnable(calls) && i < |calls| && j < |calls|
    requires calls[i].AppendCall? && calls[j].AppendCall?
    requires calls[i].handId == calls[j].handId && calls[i].expected == calls[j].expected
    requires OutcomeOf(calls, i).Appended? && OutcomeOf(calls, j).Appended?
    ensures i == j
  {
    if i < j {
      LaterAppendFails(calls, i, j);
    } else if j < i {
      LaterAppendFails(calls, j, i);
    }
  }

  lemma LaterAppendFails(calls: seq<Call>, i: nat, j: nat)
    requires Runnable(calls) && i < j < |calls|
    requires calls[i].AppendCall? && calls[j].AppendCall?
    requires calls[i].handId == calls[j].handId && calls[i].expected == calls[j].expected
    requires OutcomeOf(calls, i).Appended?
    ensures OutcomeOf(calls, j).Failed?
  {
    hide Step, Head, Consistent, EnoughTokens;
    var hand := calls[i].handId;
    ReachableConsistent(calls[..i]);
    AppendIsAtomic(After(calls[..i]), calls[i]);
    assert calls[..i + 1][..i] == calls[..i];
    HeadGrows(calls[..j], i + 1, hand);
    assert calls[..j][..i + 1] == calls[..i + 1];
    ReachableConsistent(calls[..j]);
    assert After(calls[..i + 1]) == Step(After(calls[..i]), calls[i]).0;
    WrongHeadFails(After(calls[..j]), calls[j]);
  }

  lemma WrongHeadFails(s: Store, c: Call)
    requires c.AppendCall? && Head(s.events, c.handId) != c.expected
    ensures Step(s, c).1.Failed?
  {}

  // ---------------------------------------------------------------- reads

  /** The hand's events in log order. */
  function HandEvents(events: seq<Event>, handId: string): seq<Event> {
    if events == [] then []
    else
      HandEvents(events[..|events| - 1], handId)
      + if events[|events| - 1].handId == handId then [events[|events| - 1]] else []
  }

  function InsertBySequence(e: Event, sorted: seq<Event>): seq<Event> {
    if sorted == [] || e.sequence < sorted[0].sequence then [e] + sorted
    else [sorted[0]] + InsertBySequence(e, sorted[1..])
  }

  /** read: the rows of the hand, ordered by sequence. */
  function Read(events: seq<Event>, handId: string): seq<Event> {
    if events == [] then []
    else
      var e, rest := events[|events| - 1], Read(events[..|events| - 1], handId);
      if e.handId == handId then InsertBySequence(e, rest) else rest
  }

  lemma {:induction false} InsertLast(e: Event, sorted: seq<Event>)
    requires forall k :: 0 <= k < |sorted| ==> sorted[k].sequence <= e.sequence
    ensures InsertBySequence(e, sorted) == sorted + [e]
  {
    if sorted != [] {
      InsertLast(e, sorted[1..]);
      assert sorted + [e] == [sorted[0]] + (sorted[1..] + [e]);
    }
  }

  lemma NumberedPrefix(events: seq<Event>)
    requires Numbered(events) && events != []
    ensures Numbered(events[..|events| - 1])
    ensures events[|events| - 1].sequence == CountOf(events[..|events| - 1], events[|events| - 1].handId) + 1
  {
    var n := |events| - 1;
    assert forall i :: 0 <= i < n ==> events[..n][..i] == events[..i];
  }

  lemma {:induction false} HandEventsNumbered(events: seq<Event>, handId: string)
    requires Numbered(events)
    ensures |HandEvents(events, handId)| == CountOf(events, handId)
    ensures forall k :: 0 <= k < |HandEvents(events, handId)| ==>
              HandEvents(events, handId)[k].sequence == k + 1 && HandEvents(events, handId)[k].handId == handId
  {
    hide Numbered;
    if events != [] {
      NumberedPrefix(events);
      HandEventsNumbered(events[..|events| - 1], handId);
    }
  }

  /** A read returns the hand's events in the order of their appends, numbered exactly 1 to n. */
  lemma {:induction false} ReadIsGapless(events: seq<Event>, handId: string)
    requires Numbered(events)
    ensures Read(events, handId) == HandEvents(events, handId)
    ensures |Read(events, handId)| == CountOf(events, handId)
    ensures forall k :: 0 <= k < |Read(events, handId)| ==>
              Read(events, handId)[k].sequence == k + 1 && Read(events, handId)[k].handId == handId
  {
    HandEventsNumbered(events, handId);
    hide Numbered, CountOf;
    if events != [] {
      var n := |events| - 1;
      var before := Read(events[..n], handId);
      NumberedPrefix(events);
      ReadIsGapless(events[..n], handId);
      if events[n].handId == handId {
        assert HandEvents(events, handId)[|before|].sequence == |before| + 1;
        InsertLast(events[n], before);
      }
    }
  }

  lemma {:induction false} HandEventsAppend(events: seq<Event>, batch: seq<Event>, handId: string)
    requires forall i :: 0 <= i < |batch| ==> batch[i].handId == batch[0].handId
    ensures HandEvents(events + batch, handId)
         == HandEvents(events, handId) + if batch != [] && batch[0].handId == handId then batch else []
  {
    if batch == [] {
      assert events + batch == events;
    } else {
      var n := |batch| - 1;
      HandEventsAppend(events, batch[..n], handId);
      assert (events + batch)[..|events| + n] == events + batch[..n];
      assert batch == batch[..n] + [batch[n]];
    }
  }

  /** What was appended is what is read: the batch follows the hand's earlier events, other hands are unchanged. */
  lemma ReadAfterAppend(s: Store, c: Call, handId: string)
    requires Consistent(s) && EnoughTokens(c) && Step(s, c).1.Appended?
    ensures Read(Step(s, c).0.events, handId)
         == Read(s.events, handId) + if c.handId == handId then c.batch else []
  {
    StepKeepsConsistent(s, c);
    AppendIsAtomic(s, c);
    assert forall i :: 0 <= i < |c.batch| ==> c.batch[i] in c.batch;
    ReadIsGapless(s.events, handId);
    ReadIsGapless(Step(s, c).0.events, handId);
    HandEventsAppend(s.events, c.batch, handId);
  }

  // ---------------------------------------------------------------- the outbox over a run

  /** A claim takes the least ids, in order, and leaves a ready id out only when the limit is reached. */
  lemma {:induction false} ClaimTakesLeast(ids: set<int>, limit: nat)
    ensures forall i, j :: 0 <= i < j < |FirstIds(ids, limit)| ==> FirstIds(ids, limit)[i] < FirstIds(ids, limit)[j]
    ensures forall id :: id in ids && id !in FirstIds(ids, limit) ==>
              |FirstIds(ids, limit)| == limit && forall k :: 0 <= k < limit ==> FirstIds(ids, limit)[k] < id
    decreases |ids|
  {
    if ids != {} && limit > 0 {
      var m := Least(ids);
      var rest := FirstIds(ids - {m}, limit - 1);
      ClaimTakesLeast(ids - {m}, limit - 1);
      assert FirstIds(ids, limit) == [m] + rest;
      forall id | id in ids && id !in FirstIds(ids, limit)
        ensures |FirstIds(ids, limit)| == limit && forall k :: 0 <= k < limit ==> FirstIds(ids, limit)[k] < id
      {
        assert id != m && id !in rest;
      }
    }
  }

  function TokenIn(grants: seq<Grant>, id: int): Option<string> {
    if grants == [] then None
    else if grants[|grants| - 1].messageId == id then Some(grants[|grants| - 1].token)
    else TokenIn(grants[..|grants| - 1], id)
  }

  function GrantsIn(grants: seq<Grant>, id: int): nat {
    if grants == [] then 0
    else GrantsIn(grants[..|grants| - 1], id) + if grants[|grants| - 1].messageId == id then 1 else 0
  }

  /** The number of claims granted for a message. */
  function GrantCount(history: seq<Outcome>, id: int): nat {
    if history == [] then 0
    else
      var last := history[|history| - 1];
      GrantCount(history[..|history| - 1], id) + if last.Claimed? then GrantsIn(last.grants, id) else 0
  }

  /** The most recently granted token of a message. */
  function LastGrant(history: seq<Outcome>, id: int): Option<string> {
    if history == [] then None
    else
      var last := history[|history| - 1];
      if last.Claimed? && TokenIn(last.grants, id).Some? then TokenIn(last.grants, id)
      else LastGrant(history[..|history| - 1], id)
  }

  function AckCount(history: seq<Outcome>, id: int): nat {
    if history == [] then 0
    else
      var last := history[|history| - 1];
      AckCount(history[..|history| - 1], id) + if last.Acked? && last.messageId == id then 1 else 0
  }

  /** A row agrees with the history of the run. */
  predicate RowAgrees(m: Message, history: seq<Outcome>, id: int) {
    && m.attempts == GrantCount(history, id)
    && (m.status.Processing? ==> m.token == LastGrant(history, id))
    && AckCount(history, id) == (if m.status.Dispatched? then 1 else 0)
  }

  ghost predicate Accounted(s: Store, history: seq<Outcome>) {
    && (forall id :: id in s.outbox ==> RowAgrees(s.outbox[id], history, id))
    && (forall id :: id !in s.outbox ==> GrantCount(history, id) == 0 && AckCount(history, id) == 0)
  }

  lemma HistorySnoc(history: seq<Outcome>, o: Outcome, id: int)
    ensures GrantCount(history + [o], id) == GrantCount(history, id) + if o.Claimed? then GrantsIn(o.grants, id) else 0
    ensures AckCount(history + [o], id) == AckCount(history, id) + if o.Acked? && o.messageId == id then 1 else 0
    ensures LastGrant(history + [o], id)
         == if o.Claimed? && TokenIn(o.grants, id).Some? then TokenIn(o.grants, id) else LastGrant(history, id)
  {
    assert (history + [o])[..|history|] == history;
  }

  lemma {:induction false} GrantsOfIds(ids: seq<int>, tokens: seq<string>, id: int)
    requires |tokens| >= |ids| && Distinct(ids)
    ensures GrantsIn(Grants(ids, tokens), id) == if id in ids then 1 else 0
    ensures id !in ids ==> TokenIn(Grants(ids, tokens), id) == None
  {
    if ids != [] {
      var n := |ids| - 1;
      GrantsOfIds(ids[..n], tokens, id);
      assert Grants(ids, tokens)[..n] == Grants(ids[..n], tokens);
      assert ids == ids[..n] + [ids[n]];
    }
  }

  lemma {:induction false} TokenOfId(ids: seq<int>, tokens: seq<string>, k: nat)
    requires |tokens| >= |ids| && Distinct(ids) && k < |ids|
    ensures TokenIn(Grants(ids, tokens), ids[k]) == Some(tokens[k])
  {
    var n := |ids| - 1;
    if k < n {
      TokenOfId(ids[..n], tokens, k);
      assert Grants(ids, tokens)[..n] == Grants(ids[..n], tokens);
    }
  }

  lemma FailedKeepsAccounts(s: Store, history: seq<Outcome>, o: Outcome)
    requires Accounted(s, history) && o.Failed?
    ensures Accounted(s, history + [o])
  {
    forall id | id in s.outbox ensures RowAgrees(s.outbox[id], history + [o], id) { HistorySnoc(history, o, id); }
    forall id | id !in s.outbox ensures GrantCount(history + [o], id) == 0 && AckCount(history + [o], id) == 0 {
      HistorySnoc(history, o, id);
    }
  }

  /** A claim adds one grant to exactly the rows that it hands out. */
  lemma ClaimRowAgrees(before: Message, after: Message, history: seq<Outcome>, ids: seq<int>, tokens: seq<string>,
                       id: int, worker: string, now: int, lease: int)
    requires ClaimFields(before) && RowAgrees(before, history, id) && Distinct(ids) && |tokens| >= |ids|
    requires RowClaimed(before, after, ids, tokens, id, worker, now, lease)
    ensures RowAgrees(after, history + [Claimed(Grants(ids, tokens))], id)
  {
    hide Grants, GrantsIn, TokenIn, LastGrant, GrantCount, AckCount;
    HistorySnoc(history, Claimed(Grants(ids, tokens)), id);
    GrantsOfIds(ids, tokens, id);
    if id in ids {
      var k :| 0 <= k < |ids| && ids[k] == id;
      TokenOfId(ids, tokens, k);
    }
  }

  lemma GrantedAccounts(s: Store, after: Store, history: seq<Outcome>, ids: seq<int>, tokens: seq<string>,
                        worker: string, now: int, lease: int)
    requires Accounted(s, history) && Distinct(ids) && |tokens| >= |ids| && after.outbox.Keys == s.outbox.Keys
    requires forall id :: id in ids ==> id in s.outbox
    requires forall id :: id in s.outbox ==>
               ClaimFields(s.outbox[id]) && RowClaimed(s.outbox[id], after.outbox[id], ids, tokens, id, worker, now, lease)
    ensures Accounted(after, history + [Claimed(Grants(ids, tokens))])
  {
    hide RowClaimed, RowAgrees, ClaimFields, Grants, GrantCount, AckCount, Distinct;
    var more := history + [Claimed(Grants(ids, tokens))];
    forall id | id in after.outbox ensures RowAgrees(after.outbox[id], more, id) {
      ClaimRowAgrees(s.outbox[id], after.outbox[id], history, ids, tokens, id, worker, now, lease);
    }
    forall id | id !in after.outbox ensures GrantCount(more, id) == 0 && AckCount(more, id) == 0 {
      HistorySnoc(history, Claimed(Grants(ids, tokens)), id);
      GrantsOfIds(ids, tokens, id);
    }
  }

  lemma ClaimKeepsAccounts(s: Store, history: seq<Outcome>, worker: string, now: int, leaseSeconds: int, limit: int,
                           tokens: seq<string>)
    requires Consistent(s) && Accounted(s, history) && |tokens| >= limit
    ensures var (after, outcome) := ClaimStep(s, worker, now, leaseSeconds, limit, tokens);
            Accounted(after, history + [outcome])
  {
    var (after, outcome) := ClaimStep(s, worker, now, leaseSeconds, limit, tokens);
    if outcome.Failed? {
      FailedKeepsAccounts(s, history, outcome);
    } else {
      ClaimRows(s, worker, now, leaseSeconds, limit, tokens);
      var ids := FirstIds(Ready(Reclaimed(s.outbox, now), now), limit);
      hide FirstIds, Ready, Reclaimed, Grants, GrantAll, Accounted, RowClaimed, ClaimFields, Numbered, UniqueKeys;
      GrantedAccounts(s, after, history, ids, tokens, worker, now, now + leaseSeconds);
    }
  }

  lemma AppendKeepsAccounts(s: Store, history: seq<Outcome>, c: Call)
    requires Consistent(s) && Accounted(s, history) && EnoughTokens(c) && Step(s, c).1.Appended?
    ensures Accounted(Step(s, c).0, history + [Step(s, c).1])
  {
    var (after, outcome) := Step(s, c);
    NewMessagesConsistent(s.outbox, c.intents);
    hide AppendStep, GrantCount, AckCount, LastGrant, Consistent, WithIntents;
    forall id | id in after.outbox ensures RowAgrees(after.outbox[id], history + [outcome], id) {
      HistorySnoc(history, outcome, id);
    }
    forall id | id !in after.outbox ensures GrantCount(history + [outcome], id) == 0 && AckCount(history + [outcome], id) == 0 {
      HistorySnoc(history, outcome, id);
    }
  }

  /** An acknowledgement or a retry of one row. */
  lemma SettleKeepsAccounts(s: Store, history: seq<Outcome>, id: int, m: Message, o: Outcome)
    requires Accounted(s, history) && id in s.outbox && s.outbox[id].status.Processing?
    requires m.attempts == s.outbox[id].attempts
    requires (o.Acked? && o.messageId == id && m.status.Dispatched?) || (o.Retried? && m.status.Pending?)
    ensures Accounted(s.(outbox := s.outbox[id := m]), history + [o])
  {
    hide GrantCount, AckCount, LastGrant;
    var after := s.outbox[id := m];
    forall x | x in after ensures RowAgrees(after[x], history + [o], x) {
      HistorySnoc(history, o, x);
      assert RowAgrees(s.outbox[x], history, x);
    }
    forall x | x !in after ensures GrantCount(history + [o], x) == 0 && AckCount(history + [o], x) == 0 {
      HistorySnoc(history, o, x);
    }
  }

  lemma StepKeepsAccounts(s: Store, history: seq<Outcome>, c: Call)
    requires Consistent(s) && Accounted(s, history) && EnoughTokens(c)
    ensures Accounted(Step(s, c).0, history + [Step(s, c).1])
  {
    hide AppendStep, ClaimStep, Holds, Accounted, Consistent;
    match c {
      case AppendCall(hand, expected, batch, intents) =>
        if AppendStep(s, hand, expected, batch, intents).1.Appended? {
          AppendKeepsAccounts(s, history, c);
        } else {
          AppendOutcome(s, hand, expected, batch, intents);
          FailedKeepsAccounts(s, history, Step(s, c).1);
        }
      case ClaimCall(worker, now, lease, limit, tokens) => ClaimKeepsAccounts(s, history, worker, now, lease, limit, tokens);
      case AckCall(id, worker, token, clock) =>
        if AckStep(s, id, worker, token, clock).1.Acked? {
          HeldRow(s.outbox, id, worker, token, clock);
          SettleKeepsAccounts(s, history, id, Step(s, c).0.outbox[id], Step(s, c).1);
        } else {
          FailedKeepsAccounts(s, history, Step(s, c).1);
        }
      case RetryCall(id, worker, token, delay, error, clock) =>
        if RetryStep(s, id, worker, token, delay, error, clock).1.Retried? {
          HeldRow(s.outbox, id, worker, token, clock);
          SettleKeepsAccounts(s, history, id, Step(s, c).0.outbox[id], Step(s, c).1);
        } else {
          FailedKeepsAccounts(s, history, Step(s, c).1);
        }
    }
  }

  lemma AppendOutcome(s: Store, handId: string, expected: int, batch: seq<Event>, intents: seq<Intent>)
    ensures AppendStep(s, handId, expected, batch, intents).1.Appended?
            || (AppendStep(s, handId, expected, batch, intents).1.Failed? && AppendStep(s, handId, expected, batch, intents).0 == s)
  {}

  /**
   * Over every run: attempts equal the claims granted, a processing row carries its last granted token,
   * and a message has been acknowledged exactly once if it is dispatched and never otherwise.
   */
  lemma {:induction false} OutboxAccounts(calls: seq<Call>)
    requires Runnable(calls)
    ensures Accounted(After(calls), History(calls))
    ensures forall id :: AckCount(History(calls), id) <= 1
  {
    if calls != [] {
      var n := |calls| - 1;
      OutboxAccounts(calls[..n]);
      ReachableConsistent(calls[..n]);
      StepKeepsAccounts(After(calls[..n]), History(calls[..n]), calls[n]);
    }
    var s, h := After(calls), History(calls);
    forall id ensures AckCount(h, id) <= 1 {
      if id in s.outbox { assert RowAgrees(s.outbox[id], h, id); }
    }
  }

  /** An acknowledgement or a retry succeeds only with the most recently granted token. */
  lemma OnlyLastTokenSettles(calls: seq<Call>, i: nat)
    requires Runnable(calls) && i < |calls|
    ensures OutcomeOf(calls, i).Acked? || OutcomeOf(calls, i).Retried? ==>
              LastGrant(History(calls[..i]), OutcomeOf(calls, i).messageId) == Some(OutcomeOf(calls, i).token)
              && AckCount(History(calls[..i]), OutcomeOf(calls, i).messageId) == 0
  {
    OutboxAccounts(calls[..i]);
    var s, o := After(calls[..i]), OutcomeOf(calls, i);
    if o.Acked? || o.Retried? {
      assert RowAgrees(s.outbox[o.messageId], History(calls[..i]), o.messageId);
    }
  }

  lemma DispatchedStep(s: Store, c: Call, id: int)
    requires Consistent(s) && EnoughTokens(c) && id in s.outbox && s.outbox[id].status.Dispatched?
    ensures id in Step(s, c).0.outbox && Step(s, c).0.outbox[id] == s.outbox[id]
  {
    if c.AppendCall? {
      AppendRow(s, c, id);
    } else if c.ClaimCall? && Step(s, c).1.Claimed? {
      ClaimRows(s, c.worker, c.now, c.leaseSeconds, c.limit, c.tokens);
      var ids := FirstIds(Ready(Reclaimed(s.outbox, c.now), c.now), c.limit);
      hide RowClaimed, Numbered, UniqueKeys, ClaimStep;
      ClaimedRowWhole(s.outbox[id], Step(s, c).0.outbox[id], ids, c.tokens, id, c.worker, c.now, c.now + c.leaseSeconds);
    }
  }

  lemma AppendRow(s: Store, c: Call, id: int)
    requires Consistent(s) && c.AppendCall? && id in s.outbox
    ensures id in Step(s, c).0.outbox && Step(s, c).0.outbox[id] == s.outbox[id]
  {
    if Step(s, c).1.Appended? {
      NewMessagesConsistent(s.outbox, c.intents);
    }
  }

  /** A dispatched row never changes again. */
  lemma {:induction false} DispatchedIsFinal(calls: seq<Call>, i: nat, id: int)
    requires Runnable(calls) && i <= |calls|
    requires id in After(calls[..i]).outbox && After(calls[..i]).outbox[id].status.Dispatched?
    ensures id in After(calls).outbox && After(calls).outbox[id] == After(calls[..i]).outbox[id]
    decreases |calls|
  {
    hide Step, Consistent;
    if i < |calls| {
      var n := |calls| - 1;
      assert calls[..n][..i] == calls[..i];
      DispatchedIsFinal(calls[..n], i, id);
      ReachableConsistent(calls[..n]);
      DispatchedStep(After(calls[..n]), calls[n], id);
    } else {
      assert calls[..i] == calls;
    }
  }
}
