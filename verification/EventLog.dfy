/** The durable hand event log and its outbox: rows, calls and the outcome of each call. */
module EventLog {
  import opened Cards

  datatype Event = Event(eventId: string, handId: string, sequence: int, raw: string)

  datatype Intent = Intent(messageId: int, sourceEvent: string, key: string, topic: string, payload: string)

  datatype Status = Pending | Processing | Dispatched

  /** An outbox row; its message id is the key of the table, ordered as in the index. */
  datatype Message = Message(sourceEvent: string, key: string, topic: string, payload: string, status: Status,
                             attempts: nat, availableAt: int, claimedBy: Option<string>,
                             leaseExpires: Option<int>, token: Option<string>, lastError: Option<string>)

  type Outbox = map<int, Message>

  datatype Store = Store(events: seq<Event>, outbox: Outbox)

  datatype StoreError =
    | InvalidHandId | InvalidExpectedSequence | EmptyBatch | CrossHandBatch
    | DuplicateEventIdInBatch | NonContiguousBatch
    | DuplicateOutboxIdentityInBatch | OutboxSourceNotInBatch
    | ExpectedSequenceConflict(actual: int) | EventIdConflict | OutboxIdentityConflict
    | InvalidArgument | ClaimLost

  datatype Outcome =
    | Appended(last: int)
    | Claimed(grants: seq<Grant>)
    | Acked(messageId: int, token: string)
    | Retried(messageId: int, token: string)
    | Failed(error: StoreError)

  datatype Grant = Grant(messageId: int, token: string)

  // ---------------------------------------------------------------- append: validation

  function EventIds(events: seq<Event>): (ids: seq<string>)
    ensures |ids| == |events| && forall i :: 0 <= i < |events| ==> ids[i] == events[i].eventId
  {
    seq(|events|, i requires 0 <= i < |events| => events[i].eventId)
  }

  function MessageIds(intents: seq<Intent>): (ids: seq<int>)
    ensures |ids| == |intents| && forall i :: 0 <= i < |intents| ==> ids[i] == intents[i].messageId
  {
    seq(|intents|, i requires 0 <= i < |intents| => intents[i].messageId)
  }

  function Keys(intents: seq<Intent>): (keys: seq<string>)
    ensures |keys| == |intents| && forall i :: 0 <= i < |intents| ==> keys[i] == intents[i].key
  {
    seq(|intents|, i requires 0 <= i < |intents| => intents[i].key)
  }

  predicate Contiguous(batch: seq<Event>, expected: int) {
    forall i :: 0 <= i < |batch| ==> batch[i].sequence == expected + 1 + i
  }

  /** validate_append_batch: the first violated rule, in the order of the checks. */
  function BatchError(handId: string, expected: int, batch: seq<Event>): Option<StoreError> {
    if handId == "" then Some(InvalidHandId)
    else if expected < 0 then Some(InvalidExpectedSequence)
    else if batch == [] then Some(EmptyBatch)
    else if exists e :: e in batch && e.handId != handId then Some(CrossHandBatch)
    else if !Distinct(EventIds(batch)) then Some(DuplicateEventIdInBatch)
    else if !Contiguous(batch, expected) then Some(NonContiguousBatch)
    else None
  }

  /** _validate_outbox_intents. */
  function IntentError(intents: seq<Intent>, batch: seq<Event>): Option<StoreError> {
    if !Distinct(MessageIds(intents)) || !Distinct(Keys(intents)) then Some(DuplicateOutboxIdentityInBatch)
    else if exists m :: m in intents && m.sourceEvent !in EventIds(batch) then Some(OutboxSourceNotInBatch)
    else None
  }

  // ---------------------------------------------------------------- the log

  /** COALESCE(MAX(sequence), 0) of a hand. */
  function Head(events: seq<Event>, handId: string): int {
    if events == [] then 0
    else
      var e, before := events[|events| - 1], Head(events[..|events| - 1], handId);
      if e.handId == handId && e.sequence > before then e.sequence else before
  }

  function CountOf(events: seq<Event>, handId: string): nat {
    if events == [] then 0
    else CountOf(events[..|events| - 1], handId) + if events[|events| - 1].handId == handId then 1 else 0
  }

  /** Within every hand, events are numbered 1, 2, 3 and so on. */
  predicate Numbered(events: seq<Event>) {
    forall i :: 0 <= i < |events| ==> events[i].sequence == CountOf(events[..i], events[i].handId) + 1
  }

  predicate Logged(events: seq<Event>, eventId: string) {
    exists i :: 0 <= i < |events| && events[i].eventId == eventId
  }

  predicate HasKey(outbox: Outbox, key: string) {
    exists id :: id in outbox && outbox[id].key == key
  }

  predicate UniqueKeys(outbox: Outbox) {
    forall a, b :: a in outbox && b in outbox && outbox[a].key == outbox[b].key ==> a == b
  }

  /** Worker, lease and token are set exactly while the message is processed. */
  predicate ClaimFields(m: Message) {
    && (m.status.Processing? <==> m.claimedBy.Some?)
    && (m.status.Processing? <==> m.leaseExpires.Some?)
    && (m.status.Processing? <==> m.token.Some?)
  }

  /** What every reachable store satisfies. */
  predicate Consistent(s: Store) {
    && Numbered(s.events)
    && Distinct(EventIds(s.events))
    && (forall id :: id in s.outbox ==> Logged(s.events, s.outbox[id].sourceEvent))
    && UniqueKeys(s.outbox)
    && (forall id :: id in s.outbox ==> ClaimFields(s.outbox[id]))
  }

  function NewMessage(m: Intent): Message {
    Message(m.sourceEvent, m.key, m.topic, m.payload, Pending, 0, 0, None, None, None, None)
  }

  function WithIntents(outbox: Outbox, intents: seq<Intent>): Outbox {
    if intents == [] then outbox
    else
      var m := intents[|intents| - 1];
      WithIntents(outbox, intents[..|intents| - 1])[m.messageId := NewMessage(m)]
  }

  predicate EventClash(events: seq<Event>, batch: seq<Event>) {
    exists e :: e in batch && Logged(events, e.eventId)
  }

  predicate OutboxClash(outbox: Outbox, intents: seq<Intent>) {
    exists m :: m in intents && (m.messageId in outbox || HasKey(outbox, m.key))
  }

  /** append as one atomic step on a consistent store. */
  function AppendStep(s: Store, handId: string, expected: int, batch: seq<Event>, intents: seq<Intent>): (Store, Outcome) {
    var batchError, intentError := BatchError(handId, expected, batch), IntentError(intents, batch);
    if batchError.Some? then (s, Failed(batchError.value))
    else if intentError.Some? then (s, Failed(intentError.value))
    else if Head(s.events, handId) != expected then (s, Failed(ExpectedSequenceConflict(Head(s.events, handId))))
    else if EventClash(s.events, batch) then (s, Failed(EventIdConflict))
    else if OutboxClash(s.outbox, intents) then (s, Failed(OutboxIdentityConflict))
    else (Store(s.events + batch, WithIntents(s.outbox, intents)), Appended(batch[|batch| - 1].sequence))
  }

  // ---------------------------------------------------------------- claims

  function Released(m: Message): Message {
    m.(status := Pending, claimedBy := None, leaseExpires := None, token := None)
  }

  predicate Expired(m: Message, now: int) {
    m.status.Processing? && m.leaseExpires.Some? && m.leaseExpires.value <= now
  }

  function Reclaimed(outbox: Outbox, now: int): Outbox {
    map id | id in outbox :: if Expired(outbox[id], now) then Released(outbox[id]) else outbox[id]
  }

  predicate Available(m: Message, now: int) {
    m.status.Pending? && m.availableAt <= now
  }

  function Ready(outbox: Outbox, now: int): set<int> {
    set id | id in outbox && Available(outbox[id], now)
  }

  function Least(ids: set<int>): (m: int)
    requires ids != {}
    ensures m in ids && forall x :: x in ids ==> m <= x
  {
    LeastExists(ids);
    var m :| m in ids && forall x :: x in ids ==> m <= x;
    m
  }

  lemma LeastExists(ids: set<int>)
    requires ids != {}
    ensures exists m :: m in ids && forall x :: x in ids ==> m <= x
  {
    var m := LeastMember(ids);
  }

  /** The ids in ascending order, at most limit of them. */
  function FirstIds(ids: set<int>, limit: nat): (r: seq<int>)
    ensures |r| <= limit && Distinct(r)
    ensures forall k :: 0 <= k < |r| ==> r[k] in ids
    decreases |ids|
  {
    if ids == {} || limit == 0 then []
    else
      var m := Least(ids);
      [m] + FirstIds(ids - {m}, limit - 1)
  }

  function ClaimedBy(m: Message, worker: string, lease: int, token: string): Message {
    m.(status := Processing, attempts := m.attempts + 1, claimedBy := Some(worker),
       leaseExpires := Some(lease), token := Some(token))
  }

  function GrantAll(outbox: Outbox, ids: seq<int>, tokens: seq<string>, worker: string, lease: int): (r: Outbox)
    requires |tokens| >= |ids| && forall k :: 0 <= k < |ids| ==> ids[k] in outbox
  {
    if ids == [] then outbox
    else
      var n := |ids| - 1;
      GrantAll(outbox, ids[..n], tokens, worker, lease)[ids[n] := ClaimedBy(outbox[ids[n]], worker, lease, tokens[n])]
  }

  function Grants(ids: seq<int>, tokens: seq<string>): (r: seq<Grant>)
    requires |tokens| >= |ids|
    ensures |r| == |ids| && forall k :: 0 <= k < |ids| ==> r[k] == Grant(ids[k], tokens[k])
  {
    seq(|ids|, k requires 0 <= k < |ids| => Grant(ids[k], tokens[k]))
  }

  /** claim_outbox; tokens are the generated claim tokens, at least limit of them. */
  function ClaimStep(s: Store, worker: string, now: int, leaseSeconds: int, limit: int, tokens: seq<string>): (Store, Outcome)
    requires |tokens| >= limit
  {
    if worker == "" || leaseSeconds <= 0 || limit <= 0 then (s, Failed(InvalidArgument))
    else
      var free := Reclaimed(s.outbox, now);
      var ids := FirstIds(Ready(free, now), limit);
      (Store(s.events, GrantAll(free, ids, tokens, worker, now + leaseSeconds)), Claimed(Grants(ids, tokens)))
  }

  predicate Holds(outbox: Outbox, id: int, worker: string, token: string, clock: int) {
    id in outbox
    && outbox[id].status.Processing?
    && outbox[id].claimedBy == Some(worker) && outbox[id].token == Some(token)
    && outbox[id].leaseExpires.Some? && outbox[id].leaseExpires.value > clock
  }

  /** mark_outbox_dispatched. */
  function AckStep(s: Store, id: int, worker: string, token: string, clock: int): (Store, Outcome) {
    if Holds(s.outbox, id, worker, token, clock) then
      var m := Released(s.outbox[id]).(status := Dispatched, lastError := None);
      (s.(outbox := s.outbox[id := m]), Acked(id, token))
    else (s, Failed(ClaimLost))
  }

  /** retry_outbox. */
  function RetryStep(s: Store, id: int, worker: string, token: string, delay: int, error: string, clock: int): (Store, Outcome) {
    if error == "" || delay < 0 then (s, Failed(InvalidArgument))
    else if Holds(s.outbox, id, worker, token, clock) then
      var reason := if |error| > 512 then error[..512] else error;
      var m := Released(s.outbox[id]).(availableAt := clock + delay, lastError := Some(reason));
      (s.(outbox := s.outbox[id := m]), Retried(id, token))
    else (s, Failed(ClaimLost))
  }

  // ---------------------------------------------------------------- the adapter

  /** SQLiteHandEventStore: every call is one transaction under the lock. */
  class HandEventStore {
    var events: seq<Event>
    var outbox: Outbox

    function Contents(): Store
      reads this
    {
      Store(events, outbox)
    }

    constructor ()
      ensures Contents() == Store([], map[])
    {
      events, outbox := [], map[];
    }

    /** The row inserts of the event batch; false on a violated unique constraint. */
    method InsertEvents(batch: seq<Event>) returns (failure: Option<StoreError>)
      requires Consistent(Contents()) && batch != []
      requires Distinct(EventIds(batch)) && forall e :: e in batch ==> e.handId == batch[0].handId
      requires Contiguous(batch, Head(events, batch[0].handId))
      modifies this`events
      ensures failure == if EventClash(old(events), batch) then Some(EventIdConflict) else None
      ensures failure.None? ==> events == old(events) + batch
    {
      hide Numbered, Head, Contiguous;
      for i := 0 to |batch|
        invariant events == old(events) + batch[..i]
        invariant forall j :: 0 <= j < i ==> !Logged(old(events), batch[j].eventId)
      {
        var e := batch[i];
        LoggedAfter(old(events), batch, i);
        if Logged(events, e.eventId) {
          assert e in batch;
          return Some(EventIdConflict);
        }
        FreshSequence(old(events), batch, i);
        if exists k :: 0 <= k < |events| && events[k].handId == e.handId && events[k].sequence == e.sequence {
          assert false;
        }
        events := events + [e];
        assert batch[..i + 1] == batch[..i] + [e];
      }
      assert batch[..|batch|] == batch;
      failure := None;
    }

    /** The row inserts of the outbox intents. */
    method InsertIntents(intents: seq<Intent>) returns (failure: Option<StoreError>)
      requires Distinct(MessageIds(intents)) && Distinct(Keys(intents))
      modifies this`outbox
      ensures failure == if OutboxClash(old(outbox), intents) then Some(OutboxIdentityConflict) else None
      ensures failure.None? ==> outbox == WithIntents(old(outbox), intents)
    {
      for i := 0 to |intents|
        invariant outbox == WithIntents(old(outbox), intents[..i])
        invariant !OutboxClash(old(outbox), intents[..i])
      {
        var m := intents[i];
        InsertedSoFar(old(outbox), intents, i);
        assert intents[..i + 1] == intents[..i] + [m];
        if m.messageId in outbox || HasKey(outbox, m.key) {
          assert m in intents;
          return Some(OutboxIdentityConflict);
        }
        outbox := outbox[m.messageId := NewMessage(m)];
        assert intents[..i + 1][..i] == intents[..i];
      }
      assert intents[..|intents|] == intents;
      failure := None;
    }

    /** append: validate, compare the head, insert row by row, and roll back on any conflict. */
    method Append(handId: string, expected: int, batch: seq<Event>, intents: seq<Intent>) returns (r: Outcome)
      requires Consistent(Contents())
      modifies this
      ensures (Contents(), r) == AppendStep(old(Contents()), handId, expected, batch, intents)
    {
      var batchError := BatchError(handId, expected, batch);
      if batchError.Some? {
        return Failed(batchError.value);
      }
      var intentError := IntentError(intents, batch);
      if intentError.Some? {
        return Failed(intentError.value);
      }
      var savedEvents, savedOutbox := events, outbox;
      var actual := Head(events, handId);
      if actual != expected {
        return Failed(ExpectedSequenceConflict(actual));
      }
      assert batch[0] in batch;
      var failure := InsertEvents(batch);
      if failure.None? {
        failure := InsertIntents(intents);
      }
      if failure.Some? {
        events, outbox := savedEvents, savedOutbox;
        return Failed(failure.value);
      }
      r := Appended(batch[|batch| - 1].sequence);
    }

    /** claim_outbox: release expired claims, select the ready ids, and grant each a token. */
    method Claim(worker: string, now: int, leaseSeconds: int, limit: int, tokens: seq<string>) returns (r: Outcome)
      requires |tokens| >= limit
      modifies this`outbox
      ensures (Contents(), r) == ClaimStep(old(Contents()), worker, now, leaseSeconds, limit, tokens)
    {
      if worker == "" || leaseSeconds <= 0 || limit <= 0 {
        return Failed(InvalidArgument);
      }
      outbox := Reclaimed(outbox, now);
      var free := outbox;
      var ids := FirstIds(Ready(free, now), limit);
      for k := 0 to |ids|
        invariant outbox == GrantAll(free, ids[..k], tokens, worker, now + leaseSeconds)
      {
        assert ids[..k + 1][..k] == ids[..k];
        GrantOthers(free, ids, k, tokens, worker, now + leaseSeconds);
        if outbox[ids[k]].status.Pending? {
          outbox := outbox[ids[k] := ClaimedBy(outbox[ids[k]], worker, now + leaseSeconds, tokens[k])];
        }
      }
      assert ids[..|ids|] == ids;
      r := Claimed(Grants(ids, tokens));
    }

    method MarkDispatched(id: int, worker: string, token: string, clock: int) returns (r: Outcome)
      modifies this`outbox
      ensures (Contents(), r) == AckStep(old(Contents()), id, worker, token, clock)
    {
      if !Holds(outbox, id, worker, token, clock) {
        return Failed(ClaimLost);
      }
      outbox := outbox[id := Released(outbox[id]).(status := Dispatched, lastError := None)];
      r := Acked(id, token);
    }

    method Retry(id: int, worker: string, token: string, delay: int, error: string, clock: int) returns (r: Outcome)
      modifies this`outbox
      ensures (Contents(), r) == RetryStep(old(Contents()), id, worker, token, delay, error, clock)
    {
      if error == "" || delay < 0 {
        return Failed(InvalidArgument);
      }
      if !Holds(outbox, id, worker, token, clock) {
        return Failed(ClaimLost);
      }
      var reason := if |error| > 512 then error[..512] else error;
      outbox := outbox[id := Released(outbox[id]).(availableAt := clock + delay, lastError := Some(reason))];
      r := Retried(id, token);
    }
  }

  // ---------------------------------------------------------------- supporting facts

  /** Inserted rows of the batch never hide or fake a logged id. */
  lemma LoggedAfter(events: seq<Event>, batch: seq<Event>, i: nat)
    requires Distinct(EventIds(batch)) && i < |batch|
    ensures Logged(events + batch[..i], batch[i].eventId) <==> Logged(events, batch[i].eventId)
  {
    var all := events + batch[..i];
    forall j | 0 <= j < i ensures batch[j].eventId != batch[i].eventId {
      assert EventIds(batch)[j] != EventIds(batch)[i];
    }
    if Logged(all, batch[i].eventId) {
      var k :| 0 <= k < |all| && all[k].eventId == batch[i].eventId;
      assert k < |events| && events[k].eventId == batch[i].eventId;
    }
    if Logged(events, batch[i].eventId) {
      var k :| 0 <= k < |events| && events[k].eventId == batch[i].eventId;
      assert all[k].eventId == batch[i].eventId;
    }
  }

  lemma {:induction false} HeadBounds(events: seq<Event>, handId: string)
    ensures forall k :: 0 <= k < |events| && events[k].handId == handId ==> events[k].sequence <= Head(events, handId)
  {
    if events != [] { HeadBounds(events[..|events| - 1], handId); }
  }

  /** The (hand, sequence) pair of a batch row is never taken. */
  lemma FreshSequence(events: seq<Event>, batch: seq<Event>, i: nat)
    requires i < |batch| && forall e :: e in batch ==> e.handId == batch[0].handId
    requires Contiguous(batch, Head(events, batch[0].handId))
    ensures var all := events + batch[..i];
            !(exists k :: 0 <= k < |all| && all[k].handId == batch[i].handId && all[k].sequence == batch[i].sequence)
  {
    HeadBounds(events, batch[0].handId);
    assert batch[i] in batch;
  }

  lemma {:induction false} InsertedSoFar(outbox: Outbox, intents: seq<Intent>, i: nat)
    requires Distinct(MessageIds(intents)) && Distinct(Keys(intents)) && i < |intents|
    ensures intents[i].messageId in WithIntents(outbox, intents[..i]) <==> intents[i].messageId in outbox
    ensures !OutboxClash(outbox, intents[..i]) ==>
            (HasKey(WithIntents(outbox, intents[..i]), intents[i].key) <==> HasKey(outbox, intents[i].key))
  {
    var m, some := intents[i], intents[..i];
    WithIntentsRows(outbox, some);
    var now := WithIntents(outbox, some);
    forall k | 0 <= k < i ensures some[k].messageId != m.messageId && some[k].key != m.key {
      assert MessageIds(intents)[k] != MessageIds(intents)[i] && Keys(intents)[k] != Keys(intents)[i];
    }
    if !OutboxClash(outbox, some) {
      if HasKey(outbox, m.key) {
        var id :| id in outbox && outbox[id].key == m.key;
        assert forall k :: 0 <= k < i ==> some[k] in some;
        assert now[id] == outbox[id];
      }
      if HasKey(now, m.key) {
        var id :| id in now && now[id].key == m.key;
      }
    }
  }

  /** The rows after the inserts: old ones, or new messages of the intents. */
  lemma {:induction false} WithIntentsRows(outbox: Outbox, intents: seq<Intent>)
    ensures forall id :: id in WithIntents(outbox, intents) <==>
              id in outbox || exists k :: 0 <= k < |intents| && intents[k].messageId == id
    ensures forall id :: id in WithIntents(outbox, intents) ==>
              (id in outbox && WithIntents(outbox, intents)[id] == outbox[id])
              || exists k :: 0 <= k < |intents| && intents[k].messageId == id
                             && WithIntents(outbox, intents)[id] == NewMessage(intents[k])
    ensures forall id :: id in outbox && (forall k :: 0 <= k < |intents| ==> intents[k].messageId != id) ==>
              WithIntents(outbox, intents)[id] == outbox[id]
  {
    if intents != [] {
      var n := |intents| - 1;
      WithIntentsRows(outbox, intents[..n]);
      assert forall k :: 0 <= k < n ==> intents[..n][k] == intents[k];
    }
  }

  /** Granting some ids leaves the other rows alone. */
  lemma {:induction false} GrantRows(outbox: Outbox, ids: seq<int>, tokens: seq<string>, worker: string, lease: int)
    requires |tokens| >= |ids| && Distinct(ids) && forall k :: 0 <= k < |ids| ==> ids[k] in outbox
    ensures GrantAll(outbox, ids, tokens, worker, lease).Keys == outbox.Keys
    ensures forall id :: id in outbox && id !in ids ==> GrantAll(outbox, ids, tokens, worker, lease)[id] == outbox[id]
    ensures forall k :: 0 <= k < |ids| ==>
              GrantAll(outbox, ids, tokens, worker, lease)[ids[k]] == ClaimedBy(outbox[ids[k]], worker, lease, tokens[k])
  {
    if ids != [] {
      var n := |ids| - 1;
      GrantRows(outbox, ids[..n], tokens, worker, lease);
      assert ids == ids[..n] + [ids[n]];
    }
  }

  lemma GrantOthers(outbox: Outbox, ids: seq<int>, k: nat, tokens: seq<string>, worker: string, lease: int)
    requires |tokens| >= |ids| && Distinct(ids) && k < |ids| && forall j :: 0 <= j < |ids| ==> ids[j] in outbox
    ensures ids[k] in outbox && ids[k] in GrantAll(outbox, ids[..k], tokens, worker, lease)
    ensures GrantAll(outbox, ids[..k], tokens, worker, lease)[ids[k]] == outbox[ids[k]]
  {
    GrantRows(outbox, ids[..k], tokens, worker, lease);
    assert ids[k] !in ids[..k];
  }
}
