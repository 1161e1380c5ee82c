/** Projection snapshots with their checkpoints, and the session statistics. */
module Projections {
  import opened Cards

  datatype Event = Event(eventId: string, handId: string, sequence: int, body: string)

  datatype Identity = Identity(name: string, version: nat)

  datatype Key = Key(identity: Identity, stream: string)

  datatype Checkpoint = Checkpoint(sequence: int, eventId: string)

  datatype Snapshot = Snapshot(sequence: int, eventId: string, payload: string)

  datatype ApplyError = MixedStream | CheckpointConflict | ProjectionGap

  datatype ApplyResult = Applied(snapshot: Snapshot) | Rejected(error: ApplyError)

  /** Both rows of one key; an absent checkpoint reads as sequence 0. */
  datatype Rows = Rows(checkpoint: Option<Checkpoint>, snapshot: Option<Snapshot>)

  function Position(r: Rows): int {
    if r.checkpoint.None? then 0 else r.checkpoint.value.sequence
  }

  /** apply, as one transaction on the rows of its key. */
  function ApplyStep(r: Rows, stream: string, expected: int, e: Event, payload: string): (Rows, ApplyResult) {
    if e.handId != stream then (r, Rejected(MixedStream))
    else if Position(r) != expected then (r, Rejected(CheckpointConflict))
    else if e.sequence != expected + 1 then (r, Rejected(ProjectionGap))
    else
      var s := Snapshot(e.sequence, e.eventId, payload);
      (Rows(Some(Checkpoint(e.sequence, e.eventId)), Some(s)), Applied(s))
  }

  /** SQLiteProjectionStore. */
  class ProjectionStore {
    var checkpoints: map<Key, Checkpoint>
    var snapshots: map<Key, Snapshot>

    function RowsOf(key: Key): Rows
      reads this
    {
      Rows(if key in checkpoints then Some(checkpoints[key]) else None,
           if key in snapshots then Some(snapshots[key]) else None)
    }

    constructor ()
      ensures forall key :: RowsOf(key) == Rows(None, None)
    {
      checkpoints, snapshots := map[], map[];
    }

    method LoadCheckpoint(key: Key) returns (c: Option<Checkpoint>)
      ensures c == RowsOf(key).checkpoint
    {
      c := if key in checkpoints then Some(checkpoints[key]) else None;
    }

    method LoadSnapshot(key: Key) returns (s: Option<Snapshot>)
      ensures s == RowsOf(key).snapshot
    {
      s := if key in snapshots then Some(snapshots[key]) else None;
    }

    method Apply(key: Key, expected: int, e: Event, payload: string) returns (r: ApplyResult)
      modifies this
      ensures (RowsOf(key), r) == ApplyStep(old(RowsOf(key)), key.stream, expected, e, payload)
      ensures forall other :: other != key ==> RowsOf(other) == old(RowsOf(other))
    {
      if e.handId != key.stream {
        return Rejected(MixedStream);
      }
      var actual := if key in checkpoints then checkpoints[key].sequence else 0;
      if actual != expected {
        return Rejected(CheckpointConflict);
      }
      if e.sequence != expected + 1 {
        return Rejected(ProjectionGap);
      }
      snapshots := snapshots[key := Snapshot(e.sequence, e.eventId, payload)];
      checkpoints := checkpoints[key := Checkpoint(e.sequence, e.eventId)];
      r := Applied(snapshots[key]);
    }

    method Discard(key: Key)
      modifies this
      ensures RowsOf(key) == Rows(None, None)
      ensures forall other :: other != key ==> RowsOf(other) == old(RowsOf(other))
    {
      snapshots := snapshots - {key};
      checkpoints := checkpoints - {key};
    }
  }

  // ---------------------------------------------------------------- runners and deliveries

  /** A deterministic projector over the stored payload. */
  type Projector = (Option<string>, Event) -> string

  /** The events of one stream are numbered 1, 2, 3 and so on. */
  predicate StreamOf(log: seq<Event>, stream: string) {
    forall i :: 0 <= i < |log| ==> log[i].sequence == i + 1 && log[i].handId == stream
  }

  /** Folding the projector over events. */
  function Folded(f: Projector, events: seq<Event>): Option<string> {
    if events == [] then None
    else Some(f(Folded(f, events[..|events| - 1]), events[|events| - 1]))
  }

  /** A process between its transactions: it has read the checkpoint, or both rows. */
  datatype Process =
    | Starting
    | HasCheckpoint(checkpoint: Option<Checkpoint>)
    | HasBoth(checkpoint: Option<Checkpoint>, snapshot: Option<Snapshot>)
    | Stopped

  datatype System = System(log: seq<Event>, rows: Rows, processes: map<int, Process>)

  /** New events, process steps, deliveries of any logged event at any time, and discards. */
  datatype Action =
    | Append(event: Event)
    | Start(pid: int)
    | ReadCheckpoint(pid: int)
    | ReadSnapshot(pid: int)
    | Deliver(pid: int, index: nat)
    | Discard

  function CheckpointSequence(c: Option<Checkpoint>): int {
    if c.None? then 0 else c.value.sequence
  }

  /** The rows that a runner accepts: no checkpoint without a snapshot, and equal positions. */
  predicate Agree(c: Option<Checkpoint>, s: Option<Snapshot>) {
    && (CheckpointSequence(c) != 0 ==> s.Some?)
    && (s.Some? ==> c.Some? && s.value.sequence == c.value.sequence && s.value.eventId == c.value.eventId)
  }

  function PayloadOf(s: Option<Snapshot>): Option<string> {
    if s.None? then None else Some(s.value.payload)
  }

  function Apply(s: System, a: Action, f: Projector, stream: string): System {
    match a
    case Append(e) =>
      if e.handId == stream && e.sequence == |s.log| + 1 then s.(log := s.log + [e]) else s
    case Discard => s.(rows := Rows(None, None))
    case Start(pid) => s.(processes := s.processes[pid := Starting])
    case ReadCheckpoint(pid) =>
      if pid in s.processes && s.processes[pid].Starting? then
        s.(processes := s.processes[pid := HasCheckpoint(s.rows.checkpoint)])
      else s
    case ReadSnapshot(pid) =>
      if pid in s.processes && s.processes[pid].HasCheckpoint? then
        var c := s.processes[pid].checkpoint;
        s.(processes := s.processes[pid := if Agree(c, s.rows.snapshot) then HasBoth(c, s.rows.snapshot) else Stopped])
      else s
    case Deliver(pid, index) =>
      if pid in s.processes && s.processes[pid].HasBoth? && index < |s.log| then
        var p, e := s.processes[pid], s.log[index];
        if e.sequence <= CheckpointSequence(p.checkpoint) then s
        else
          var (rows, result) := ApplyStep(s.rows, stream, CheckpointSequence(p.checkpoint), e, f(PayloadOf(p.snapshot), e));
          System(s.log, rows, s.processes[pid := if result.Applied? then HasBoth(rows.checkpoint, rows.snapshot) else Stopped])
      else s
  }

  function Run(actions: seq<Action>, f: Projector, stream: string): System {
    if actions == [] then System([], Rows(None, None), map[])
    else Apply(Run(actions[..|actions| - 1], f, stream), actions[|actions| - 1], f, stream)
  }

  /** A snapshot that is the fold of the events up to its position. */
  predicate FoldOf(s: Option<Snapshot>, log: seq<Event>, f: Projector) {
    s.Some? ==>
      1 <= s.value.sequence <= |log|
      && s.value.eventId == log[s.value.sequence - 1].eventId
      && Folded(f, log[..s.value.sequence]) == Some(s.value.payload)
  }

  ghost predicate Consistent(s: System, f: Projector, stream: string) {
    && StreamOf(s.log, stream)
    && (s.rows.checkpoint.Some? <==> s.rows.snapshot.Some?)
    && Agree(s.rows.checkpoint, s.rows.snapshot)
    && FoldOf(s.rows.snapshot, s.log, f)
    && (forall pid :: pid in s.processes && s.processes[pid].HasCheckpoint? ==>
          s.processes[pid].checkpoint.Some? ==> s.processes[pid].checkpoint.value.sequence >= 1)
    && (forall pid :: pid in s.processes && s.processes[pid].HasBoth? ==>
          Agree(s.processes[pid].checkpoint, s.processes[pid].snapshot) && FoldOf(s.processes[pid].snapshot, s.log, f))
  }

  lemma FoldGrows(s: Option<Snapshot>, log: seq<Event>, e: Event, f: Projector)
    requires FoldOf(s, log, f)
    ensures FoldOf(s, log + [e], f)
  {
    if s.Some? {
      assert (log + [e])[..s.value.sequence] == log[..s.value.sequence];
    }
  }

  /** One accepted delivery extends the fold by exactly its event. */
  lemma DeliveryExtends(log: seq<Event>, index: nat, stream: string, c: Option<Checkpoint>, s: Option<Snapshot>, f: Projector)
    requires StreamOf(log, stream) && index < |log| && Agree(c, s) && FoldOf(s, log, f)
    requires log[index].sequence == CheckpointSequence(c) + 1
    ensures FoldOf(Some(Snapshot(log[index].sequence, log[index].eventId, f(PayloadOf(s), log[index]))), log, f)
  {
    var n := index + 1;
    assert log[..n][..index] == log[..index];
    if s.None? { assert log[..0] == []; }
  }

  lemma ActionKeepsConsistent(s: System, a: Action, f: Projector, stream: string)
    requires Consistent(s, f, stream)
    ensures Consistent(Apply(s, a, f, stream), f, stream)
  {
    hide Folded;
    match a {
      case Append(e) =>
        FoldGrows(s.rows.snapshot, s.log, e, f);
        forall pid | pid in s.processes && s.processes[pid].HasBoth? ensures FoldOf(s.processes[pid].snapshot, s.log + [e], f) {
          FoldGrows(s.processes[pid].snapshot, s.log, e, f);
        }
      case Deliver(pid, index) =>
        if pid in s.processes && s.processes[pid].HasBoth? && index < |s.log| {
          var p := s.processes[pid];
          if s.log[index].sequence == CheckpointSequence(p.checkpoint) + 1 {
            DeliveryExtends(s.log, index, stream, p.checkpoint, p.snapshot, f);
          }
        }
      case Discard => NoFold(s.log, f);
      case _ =>
    }
  }

  lemma NoFold(log: seq<Event>, f: Projector)
    ensures FoldOf(None, log, f)
  {}

  /**
   * Under any interleaving of runners, duplicated, reordered or stale deliveries, discards and new events, snapshot and
   * checkpoint carry the same position, and the snapshot is the fold of exactly the events up to it.
   */
  lemma {:induction false} ProjectionIsFold(actions: seq<Action>, f: Projector, stream: string)
    ensures Consistent(Run(actions, f, stream), f, stream)
    ensures var s := Run(actions, f, stream);
            s.rows.snapshot.Some? ==>
              s.rows.checkpoint == Some(Checkpoint(s.rows.snapshot.value.sequence, s.rows.snapshot.value.eventId))
              && Folded(f, s.log[..s.rows.snapshot.value.sequence]) == Some(s.rows.snapshot.value.payload)
  {
    hide Apply, Folded;
    if actions == [] {
      NoFold([], f);
    } else {
      var n := |actions| - 1;
      ProjectionIsFold(actions[..n], f, stream);
      ActionKeepsConsistent(Run(actions[..n], f, stream), actions[n], f, stream);
    }
  }

  // ---------------------------------------------------------------- one undisturbed run

  datatype RunResult = Finished(snapshot: Option<Snapshot>) | NeedsRebuild | SequenceError

  /**
   * ProjectionRunner.run over the events of its stream: from rows that hold a fold, it ends with the fold of the whole
   * stream; rows whose positions disagree are refused and left alone.
   */
  method RunProjection(store: ProjectionStore, key: Key, log: seq<Event>, f: Projector) returns (r: RunResult)
    requires StreamOf(log, key.stream)
    modifies store
    ensures r.NeedsRebuild? <==> !Agree(old(store.RowsOf(key)).checkpoint, old(store.RowsOf(key)).snapshot)
    ensures r.NeedsRebuild? ==> store.RowsOf(key) == old(store.RowsOf(key))
    ensures !r.NeedsRebuild? && FoldOf(old(store.RowsOf(key)).snapshot, log, f)
              && (old(store.RowsOf(key)).checkpoint.Some? ==> old(store.RowsOf(key)).snapshot.Some?) ==>
            r == Finished(store.RowsOf(key).snapshot)
            && PayloadOf(store.RowsOf(key).snapshot) == Folded(f, log)
            && Position(store.RowsOf(key)) == |log| && Agree(store.RowsOf(key).checkpoint, store.RowsOf(key).snapshot)
    ensures forall other :: other != key ==> store.RowsOf(other) == old(store.RowsOf(other))
  {
    var checkpoint := store.LoadCheckpoint(key);
    var snapshot := store.LoadSnapshot(key);
    if !Agree(checkpoint, snapshot) {
      return NeedsRebuild;
    }
    ghost var sound := FoldOf(snapshot, log, f) && (checkpoint.Some? ==> snapshot.Some?);
    hide Folded, FoldOf, StreamOf;
    for i := 0 to |log|
      invariant Agree(checkpoint, snapshot) && store.RowsOf(key) == Rows(checkpoint, snapshot)
      invariant forall other :: other != key ==> store.RowsOf(other) == old(store.RowsOf(other))
      invariant sound ==> FoldOf(snapshot, log, f) && (checkpoint.Some? ==> snapshot.Some?) && CheckpointSequence(checkpoint) >= i
    {
      LogAt(log, key.stream, i);
      var e := log[i];
      if e.sequence > CheckpointSequence(checkpoint) {
        if e.sequence != CheckpointSequence(checkpoint) + 1 {
          return SequenceError;
        }
        SoundDelivery(log, i, key.stream, checkpoint, snapshot, f, sound);
        var applied := store.Apply(key, CheckpointSequence(checkpoint), e, f(PayloadOf(snapshot), e));
        checkpoint, snapshot := Some(Checkpoint(e.sequence, e.eventId)), Some(applied.snapshot);
      }
    }
    if sound { WholeFold(log, snapshot, checkpoint, f); }
    r := Finished(snapshot);
  }

  lemma LogAt(log: seq<Event>, stream: string, i: nat)
    requires StreamOf(log, stream) && i < |log|
    ensures log[i].sequence == i + 1 && log[i].handId == stream
  {}

  lemma SoundDelivery(log: seq<Event>, index: nat, stream: string, c: Option<Checkpoint>, s: Option<Snapshot>, f: Projector, sound: bool)
    requires StreamOf(log, stream) && index < |log| && Agree(c, s) && (sound ==> FoldOf(s, log, f))
    requires log[index].sequence == CheckpointSequence(c) + 1
    ensures sound ==> FoldOf(Some(Snapshot(log[index].sequence, log[index].eventId, f(PayloadOf(s), log[index]))), log, f)
  {
    if sound { DeliveryExtends(log, index, stream, c, s, f); }
  }

  lemma WholeFold(log: seq<Event>, s: Option<Snapshot>, c: Option<Checkpoint>, f: Projector)
    requires FoldOf(s, log, f) && Agree(c, s) && (c.Some? ==> s.Some?) && CheckpointSequence(c) >= |log|
    ensures PayloadOf(s) == Folded(f, log) && CheckpointSequence(c) == |log|
  {
    if s.Some? { assert log[..|log|] == log; }
  }
}
