/** What the calls of the event store answer, row by row, and what a lease protects over every run. */
module OutboxLeases {
  import opened Cards
  import opened EventLog
  import opened EventLogRuns

  // ---------------------------------------------------------------- claims

  /** A row that a claim at now may take: it is due, and it is free or its lease has run out. */
  predicate Claimable(m: Message, now: int) {
    m.availableAt <= now && (m.status.Pending? || (m.status.Processing? && m.leaseExpires.Some? && m.leaseExpires.value <= now))
  }

  predicate LeaseOver(m: Message, now: int) {
    m.status.Processing? && m.leaseExpires.Some? && m.leaseExpires.value <= now
  }

  predicate Granted(grants: seq<Grant>, id: int) {
    exists k :: 0 <= k < |grants| && grants[k].messageId == id
  }

  /** What a successful claim grants and what it does to every row. */
  ghost predicate ClaimedRight(s: Store, after: Store, grants: seq<Grant>, worker: string, now: int, leaseSeconds: int, limit: int, tokens: seq<string>)
    requires |tokens| >= limit
  {
    && after.events == s.events && after.outbox.Keys == s.outbox.Keys && |grants| <= limit
    && (forall i, j :: 0 <= i < j < |grants| ==> grants[i].messageId < grants[j].messageId)
    && (forall k :: 0 <= k < |grants| ==>
          var id := grants[k].messageId;
          id in s.outbox && Claimable(s.outbox[id], now) && grants[k].token == tokens[k] && id in after.outbox
          && after.outbox[id] == s.outbox[id].(status := Processing, attempts := s.outbox[id].attempts + 1, claimedBy := Some(worker),
                                               leaseExpires := Some(now + leaseSeconds), token := Some(tokens[k])))
    && (forall id :: id in s.outbox && Claimable(s.outbox[id], now) && !Granted(grants, id) ==>
          |grants| == limit && forall k :: 0 <= k < |grants| ==> grants[k].messageId < id)
    && (forall id :: id in s.outbox && !Granted(grants, id) ==>
          id in after.outbox
          && after.outbox[id] == if LeaseOver(s.outbox[id], now)
                                 then s.outbox[id].(status := Pending, claimedBy := None, leaseExpires := None, token := None)
                                 else s.outbox[id])
  }

  lemma FreeRow(outbox: Outbox, now: int, id: int)
    requires id in outbox
    ensures id in Reclaimed(outbox, now)
    ensures id in Ready(Reclaimed(outbox, now), now) <==> Claimable(outbox[id], now)
    ensures Reclaimed(outbox, now)[id]
         == if LeaseOver(outbox[id], now) then outbox[id].(status := Pending, claimedBy := None, leaseExpires := None, token := None)
            else outbox[id]
  {}

  lemma GrantsAre(ids: seq<int>, tokens: seq<string>)
    requires |tokens| >= |ids|
    ensures forall id :: Granted(Grants(ids, tokens), id) <==> id in ids
  {
    forall id ensures Granted(Grants(ids, tokens), id) <==> id in ids {
      if id in ids {
        var k :| 0 <= k < |ids| && ids[k] == id;
        assert Grants(ids, tokens)[k].messageId == id;
      }
    }
  }

  /**
   * A claim succeeds for a named worker, a positive lease and a positive limit. It grants the least due ids that are
   * free or whose lease has run out, up to the limit, and leaves every row with a later lease exactly as it was.
   */
  lemma ClaimLaw(s: Store, worker: string, now: int, leaseSeconds: int, limit: int, tokens: seq<string>)
    requires |tokens| >= limit
    ensures var (after, outcome) := ClaimStep(s, worker, now, leaseSeconds, limit, tokens);
            if worker == "" || leaseSeconds <= 0 || limit <= 0 then after == s && outcome == Failed(InvalidArgument)
            else outcome.Claimed? && ClaimedRight(s, after, outcome.grants, worker, now, leaseSeconds, limit, tokens)
  {
    hide ClaimedRight, ClaimStep, Reclaimed, Ready, FirstIds, GrantAll;
    ClaimUnfolds(s, worker, now, leaseSeconds, limit, tokens);
    if worker != "" && leaseSeconds > 0 && limit > 0 {
      var free := Reclaimed(s.outbox, now);
      var ready := Ready(free, now);
      var ids := FirstIds(ready, limit);
      var after := ClaimStep(s, worker, now, leaseSeconds, limit, tokens).0;
      FreeRows(s.outbox, now);
      ClaimTakesLeast(ready, limit);
      GrantRows(free, ids, tokens, worker, now + leaseSeconds);
      GrantsAre(ids, tokens);
      hide Claimable, LeaseOver, Granted, ClaimedBy, Grants;
      GrantedRows(s, after, free, ids, worker, now, leaseSeconds, limit, tokens);
    }
  }

  lemma ClaimUnfolds(s: Store, worker: string, now: int, leaseSeconds: int, limit: int, tokens: seq<string>)
    requires |tokens| >= limit
    ensures var step := ClaimStep(s, worker, now, leaseSeconds, limit, tokens);
            if worker == "" || leaseSeconds <= 0 || limit <= 0 then step == (s, Failed(InvalidArgument))
            else
              var free := Reclaimed(s.outbox, now);
              var ids := FirstIds(Ready(free, now), limit);
              (forall k :: 0 <= k < |ids| ==> ids[k] in free)
              && step == (Store(s.events, GrantAll(free, ids, tokens, worker, now + leaseSeconds)), Claimed(Grants(ids, tokens)))
  {
    hide FirstIds, GrantAll, Reclaimed, Grants;
  }

  lemma FreeRows(outbox: Outbox, now: int)
    ensures Reclaimed(outbox, now).Keys == outbox.Keys
    ensures forall id :: id in outbox ==>
              (id in Ready(Reclaimed(outbox, now), now) <==> Claimable(outbox[id], now))
              && Reclaimed(outbox, now)[id]
                 == if LeaseOver(outbox[id], now) then outbox[id].(status := Pending, claimedBy := None, leaseExpires := None, token := None)
                    else outbox[id]
    ensures forall id :: id in Ready(Reclaimed(outbox, now), now) ==> id in outbox
  {
    forall id | id in outbox
      ensures id in Ready(Reclaimed(outbox, now), now) <==> Claimable(outbox[id], now)
      ensures Reclaimed(outbox, now)[id]
           == if LeaseOver(outbox[id], now) then outbox[id].(status := Pending, claimedBy := None, leaseExpires := None, token := None)
              else outbox[id]
    {
      FreeRow(outbox, now, id);
    }
  }

  lemma GrantedRows(s: Store, after: Store, free: Outbox, ids: seq<int>, worker: string, now: int, leaseSeconds: int, limit: int, tokens: seq<string>)
    requires |tokens| >= limit && |ids| <= limit && after.events == s.events && after.outbox.Keys == free.Keys == s.outbox.Keys
    requires forall i, j :: 0 <= i < j < |ids| ==> ids[i] < ids[j]
    requires forall k :: 0 <= k < |ids| ==> ids[k] in s.outbox && Claimable(s.outbox[ids[k]], now)
    requires forall id :: id in s.outbox && Claimable(s.outbox[id], now) && id !in ids ==> |ids| == limit && forall k :: 0 <= k < limit ==> ids[k] < id
    requires forall id :: id in s.outbox ==>
               free[id] == if LeaseOver(s.outbox[id], now)
                           then s.outbox[id].(status := Pending, claimedBy := None, leaseExpires := None, token := None) else s.outbox[id]
    requires forall id :: id in free && id !in ids ==> after.outbox[id] == free[id]
    requires forall k :: 0 <= k < |ids| ==> after.outbox[ids[k]] == ClaimedBy(free[ids[k]], worker, now + leaseSeconds, tokens[k])
    requires forall id :: Granted(Grants(ids, tokens), id) <==> id in ids
    ensures ClaimedRight(s, after, Grants(ids, tokens), worker, now, leaseSeconds, limit, tokens)
  {
    hide Claimable, Granted, LeaseOver;
    var grants := Grants(ids, tokens);
    assert forall k :: 0 <= k < |grants| ==> grants[k].messageId == ids[k];
    hide Grants;
    forall k | 0 <= k < |grants|
      ensures var id := grants[k].messageId;
              after.outbox[id] == s.outbox[id].(status := Processing, attempts := s.outbox[id].attempts + 1, claimedBy := Some(worker),
                                               leaseExpires := Some(now + leaseSeconds), token := Some(tokens[k]))
    {
      assert after.outbox[ids[k]] == ClaimedBy(free[ids[k]], worker, now + leaseSeconds, tokens[k]);
    }
    hide ClaimedBy;
  }

  // ---------------------------------------------------------------- settling

  /** The message is being processed by this worker under this token, and the lease is still running. */
  predicate HeldBy(s: Store, id: int, worker: string, token: string, clock: int) {
    id in s.outbox && s.outbox[id].status.Processing? && s.outbox[id].claimedBy == Some(worker) && s.outbox[id].token == Some(token)
    && s.outbox[id].leaseExpires.Some? && clock < s.outbox[id].leaseExpires.value
  }

  /** An acknowledgement succeeds exactly while the claim is held, and then the row is dispatched and free of its claim and error. */
  lemma AckLaw(s: Store, id: int, worker: string, token: string, clock: int)
    ensures var (after, outcome) := AckStep(s, id, worker, token, clock);
            if HeldBy(s, id, worker, token, clock) then
              outcome == Acked(id, token)
              && after == s.(outbox := s.outbox[id := s.outbox[id].(status := Dispatched, claimedBy := None, leaseExpires := None,
                                                                    token := None, lastError := None)])
            else outcome == Failed(ClaimLost) && after == s
  {}

  /** A retry needs an error and a delay; it frees the row until the delay from now has passed, and keeps the error's first 512 characters. */
  lemma RetryLaw(s: Store, id: int, worker: string, token: string, delay: int, error: string, clock: int)
    ensures var (after, outcome) := RetryStep(s, id, worker, token, delay, error, clock);
            if error == "" || delay < 0 then outcome == Failed(InvalidArgument) && after == s
            else if HeldBy(s, id, worker, token, clock) then
              outcome == Retried(id, token)
              && (exists reason :: reason <= error && (|reason| == |error| || |reason| == 512) && |reason| <= 512
                    && after == s.(outbox := s.outbox[id := s.outbox[id].(status := Pending, claimedBy := None, leaseExpires := None,
                                                                          token := None, availableAt := clock + delay, lastError := Some(reason))]))
            else outcome == Failed(ClaimLost) && after == s
  {
    var reason := if |error| > 512 then error[..512] else error;
    assert reason <= error && (|reason| == |error| || |reason| == 512) && |reason| <= 512;
  }

  // ---------------------------------------------------------------- appends

  /** The ids of the events, and the ids and keys of the messages, are new and used once. */
  predicate FreshBatch(s: Store, batch: seq<Event>, intents: seq<Intent>) {
    && (forall i, j :: 0 <= i < j < |batch| ==> batch[i].eventId != batch[j].eventId)
    && (forall i, j :: 0 <= i < |batch| && 0 <= j < |s.events| ==> batch[i].eventId != s.events[j].eventId)
    && (forall i, j :: 0 <= i < j < |intents| ==> intents[i].messageId != intents[j].messageId && intents[i].key != intents[j].key)
    && (forall i :: 0 <= i < |intents| ==> intents[i].messageId !in s.outbox)
    && (forall i, id :: 0 <= i < |intents| && id in s.outbox ==> intents[i].key != s.outbox[id].key)
  }

  /** The intent's event is in the batch. */
  predicate Named(m: Intent, batch: seq<Event>) {
    exists j :: 0 <= j < |batch| && m.sourceEvent == batch[j].eventId
  }

  /** A batch of the hand that continues its numbering, with every intent naming one of its events. */
  predicate ProperBatch(s: Store, handId: string, expected: int, batch: seq<Event>, intents: seq<Intent>) {
    && handId != "" && batch != [] && expected == CountOf(s.events, handId)
    && (forall i :: 0 <= i < |batch| ==> batch[i].handId == handId && batch[i].sequence == expected + 1 + i)
    && (forall i :: 0 <= i < |intents| ==> Named(intents[i], batch))
  }

  /** An append succeeds exactly for a proper batch of new ids that starts behind the hand's last event. */
  lemma AppendLaw(s: Store, handId: string, expected: int, batch: seq<Event>, intents: seq<Intent>)
    requires Consistent(s)
    ensures AppendStep(s, handId, expected, batch, intents).1.Appended? <==>
              ProperBatch(s, handId, expected, batch, intents) && FreshBatch(s, batch, intents)
  {
    HeadIsCount(s.events, handId);
    BatchLaw(handId, expected, batch);
    IntentLaw(intents, batch);
    ClashLaw(s, batch, intents);
    hide BatchError, IntentError, EventClash, OutboxClash, Consistent, Head, CountOf;
  }

  lemma BatchLaw(handId: string, expected: int, batch: seq<Event>)
    ensures BatchError(handId, expected, batch).None? <==>
              handId != "" && expected >= 0 && batch != []
              && (forall i :: 0 <= i < |batch| ==> batch[i].handId == handId && batch[i].sequence == expected + 1 + i)
              && (forall i, j :: 0 <= i < j < |batch| ==> batch[i].eventId != batch[j].eventId)
  {
    var ids := EventIds(batch);
    assert Distinct(ids) <==> forall i, j :: 0 <= i < j < |batch| ==> batch[i].eventId != batch[j].eventId;
    if exists e :: e in batch && e.handId != handId {
      var e :| e in batch && e.handId != handId;
      var i :| 0 <= i < |batch| && batch[i] == e;
    } else {
      assert forall i :: 0 <= i < |batch| ==> batch[i] in batch;
    }
  }

  lemma IntentLaw(intents: seq<Intent>, batch: seq<Event>)
    ensures IntentError(intents, batch).None? <==>
              (forall i, j :: 0 <= i < j < |intents| ==> intents[i].messageId != intents[j].messageId && intents[i].key != intents[j].key)
              && (forall i :: 0 <= i < |intents| ==> Named(intents[i], batch))
  {
    IdsDiffer(intents);
    SourcesNamed(intents, batch);
    hide Distinct, EventIds, Named;
  }

  lemma IdsDiffer(intents: seq<Intent>)
    ensures Distinct(MessageIds(intents)) && Distinct(Keys(intents)) <==>
              forall i, j :: 0 <= i < j < |intents| ==> intents[i].messageId != intents[j].messageId && intents[i].key != intents[j].key
  {
    assert Distinct(MessageIds(intents)) <==> forall i, j :: 0 <= i < j < |intents| ==> intents[i].messageId != intents[j].messageId;
    assert Distinct(Keys(intents)) <==> forall i, j :: 0 <= i < j < |intents| ==> intents[i].key != intents[j].key;
    hide Distinct;
  }

  lemma NamedIff(m: Intent, batch: seq<Event>)
    ensures m.sourceEvent in EventIds(batch) <==> Named(m, batch)
  {
    if j :| 0 <= j < |batch| && m.sourceEvent == batch[j].eventId { assert EventIds(batch)[j] == m.sourceEvent; }
  }

  lemma SourcesNamed(intents: seq<Intent>, batch: seq<Event>)
    ensures (exists m :: m in intents && m.sourceEvent !in EventIds(batch)) <==> exists i :: 0 <= i < |intents| && !Named(intents[i], batch)
  {
    hide EventIds, Named;
    if m :| m in intents && m.sourceEvent !in EventIds(batch) {
      var i :| 0 <= i < |intents| && intents[i] == m;
      NamedIff(intents[i], batch);
    }
    if i :| 0 <= i < |intents| && !Named(intents[i], batch) {
      NamedIff(intents[i], batch);
      assert intents[i] in intents;
    }
  }

  lemma ClashLaw(s: Store, batch: seq<Event>, intents: seq<Intent>)
    ensures !EventClash(s.events, batch) <==>
              forall i, j :: 0 <= i < |batch| && 0 <= j < |s.events| ==> batch[i].eventId != s.events[j].eventId
    ensures !OutboxClash(s.outbox, intents) <==>
              (forall i :: 0 <= i < |intents| ==> intents[i].messageId !in s.outbox)
              && (forall i, id :: 0 <= i < |intents| && id in s.outbox ==> intents[i].key != s.outbox[id].key)
  {
    assert forall i :: 0 <= i < |batch| ==> batch[i] in batch;
    assert forall i :: 0 <= i < |intents| ==> intents[i] in intents;
  }

  // ---------------------------------------------------------------- what a lease protects

  /** Neither acknowledged nor retried by the call. */
  predicate Unsettled(o: Outcome, id: int) {
    !(o.Acked? && o.messageId == id) && !(o.Retried? && o.messageId == id)
  }

  /** A call that does not settle a processed row, and no claim whose clock has reached its lease, leaves the row alone. */
  lemma RowWaits(s: Store, c: Call, id: int, lease: int)
    requires Consistent(s) && EnoughTokens(c) && id in s.outbox && s.outbox[id].status.Processing? && s.outbox[id].leaseExpires == Some(lease)
    requires Unsettled(Step(s, c).1, id) && (c.ClaimCall? ==> c.now < lease)
    ensures id in Step(s, c).0.outbox && Step(s, c).0.outbox[id] == s.outbox[id]
    ensures Step(s, c).1.Claimed? ==> !Granted(Step(s, c).1.grants, id)
  {
    hide Consistent, ClaimStep, AppendStep;
    match c {
      case AppendCall(hand, expected, batch, intents) => AppendRow(s, c, id); AppendOutcome(s, hand, expected, batch, intents);
      case ClaimCall(worker, now, leaseSeconds, limit, tokens) => ClaimLaw(s, worker, now, leaseSeconds, limit, tokens);
      case AckCall(other, worker, token, clock) => AckLaw(s, other, worker, token, clock);
      case RetryCall(other, worker, token, delay, error, clock) => RetryLaw(s, other, worker, token, delay, error, clock);
    }
  }

  predicate GrantsTo(o: Outcome, id: int) {
    o.Claimed? && Granted(o.grants, id)
  }

  lemma RowIsGranted(s: Store, c: Call, id: int)
    requires EnoughTokens(c) && c.ClaimCall? && GrantsTo(Step(s, c).1, id)
    ensures id in Step(s, c).0.outbox && Step(s, c).0.outbox[id].status.Processing?
    ensures Step(s, c).0.outbox[id].leaseExpires == Some(c.now + c.leaseSeconds)
  {
    hide ClaimStep;
    ClaimLaw(s, c.worker, c.now, c.leaseSeconds, c.limit, c.tokens);
  }

  lemma NextStore(calls: seq<Call>, n: nat)
    requires Runnable(calls) && n < |calls|
    ensures After(calls[..n + 1]) == Step(After(calls[..n]), calls[n]).0
  {
    assert calls[..n + 1][..n] == calls[..n];
  }

  /**
   * Over every run, between a grant and the end of its lease: as long as the message is not settled and no claim comes
   * with a clock at or past the lease, the row stays exactly as it was granted, and no claim grants it again.
   */
  lemma {:induction false} LeaseIsExclusive(calls: seq<Call>, i: nat, j: nat, id: int)
    requires Runnable(calls) && i < j < |calls| && calls[i].ClaimCall? && GrantsTo(OutcomeOf(calls, i), id)
    requires forall m :: i < m < j ==> Unsettled(OutcomeOf(calls, m), id)
    requires forall m :: i < m <= j && calls[m].ClaimCall? ==> calls[m].now < calls[i].now + calls[i].leaseSeconds
    ensures id in After(calls[..i + 1]).outbox && id in After(calls[..j]).outbox
    ensures After(calls[..j]).outbox[id] == After(calls[..i + 1]).outbox[id]
    ensures After(calls[..j]).outbox[id].status.Processing?
            && After(calls[..j]).outbox[id].leaseExpires == Some(calls[i].now + calls[i].leaseSeconds)
    ensures !GrantsTo(OutcomeOf(calls, j), id)
    decreases j
  {
    hide Step, Consistent, Granted, After;
    NextStore(calls, i);
    RowIsGranted(After(calls[..i]), calls[i], id);
    var lease := calls[i].now + calls[i].leaseSeconds;
    if j > i + 1 {
      LeaseIsExclusive(calls, i, j - 1, id);
      ReachableConsistent(calls[..j - 1]);
      NextStore(calls, j - 1);
      assert calls[j - 1].ClaimCall? ==> calls[j - 1].now < lease;
      RowWaits(After(calls[..j - 1]), calls[j - 1], id, lease);
    }
    ReachableConsistent(calls[..j]);
    NotAgain(After(calls[..j]), calls[j], id, lease);
  }

  lemma NotAgain(s: Store, c: Call, id: int, lease: int)
    requires Consistent(s) && EnoughTokens(c) && id in s.outbox && s.outbox[id].status.Processing? && s.outbox[id].leaseExpires == Some(lease)
    requires c.ClaimCall? ==> c.now < lease
    ensures !GrantsTo(Step(s, c).1, id)
  {
    hide Consistent;
    if Step(s, c).1.Claimed? { RowWaits(s, c, id, lease); }
  }
}
