/** The Redis job queue: the commands, the queue's methods, and every interleaving of its processes. */
module RedisQueue {
  import opened Cards

  type JobId = int

  datatype JobStatus = Queued | Running | Completed | JobFailed | TimedOut | Cancelled | CancellationRequested

  /** The fields of a job's hash that the protocol reads or writes. */
  datatype Job = Job(status: JobStatus, scenario: string, timeout: Option<real>, cancelRequested: bool, error: string)

  /** The keys of the queue: hashes, the list (newest first), the running counter, the results. */
  datatype Keys = Keys(jobs: map<JobId, Job>, queue: seq<JobId>, running: int, results: map<JobId, string>)

  // ---------------------------------------------------------------- single commands

  /** HSET of the whole hash. */
  function Created(k: Keys, id: JobId, job: Job): Keys {
    k.(jobs := k.jobs[id := job])
  }

  function LPush(k: Keys, id: JobId): Keys {
    k.(queue := [id] + k.queue)
  }

  function RPop(k: Keys): (Keys, Option<JobId>) {
    if k.queue == [] then (k, None)
    else (k.(queue := k.queue[..|k.queue| - 1]), Some(k.queue[|k.queue| - 1]))
  }

  function Removed(queue: seq<JobId>, id: JobId): (r: seq<JobId>)
    ensures forall x :: x in r <==> x in queue && x != id
  {
    if queue == [] then []
    else
      assert queue == [queue[0]] + queue[1..];
      (if queue[0] == id then [] else [queue[0]]) + Removed(queue[1..], id)
  }

  /** LREM key 0 id. */
  function LRem(k: Keys, id: JobId): Keys {
    k.(queue := Removed(k.queue, id))
  }

  function SetFlag(k: Keys, id: JobId): Keys {
    if id in k.jobs then k.(jobs := k.jobs[id := k.jobs[id].(cancelRequested := true)]) else k
  }

  function SetStatus(k: Keys, id: JobId, status: JobStatus): Keys {
    if id in k.jobs then k.(jobs := k.jobs[id := k.jobs[id].(status := status)]) else k
  }

  function SetOutcome(k: Keys, id: JobId, status: JobStatus, error: string): Keys {
    if id in k.jobs then k.(jobs := k.jobs[id := k.jobs[id].(status := status, error := error)]) else k
  }

  function SetResult(k: Keys, id: JobId, result: string): Keys {
    k.(results := k.results[id := result])
  }

  function Incr(k: Keys): Keys { k.(running := k.running + 1) }

  function Decr(k: Keys): Keys { k.(running := k.running - 1) }

  // ---------------------------------------------------------------- processes

  /** How an analysis ends. */
  datatype Ending = Finished(result: string) | Stopped(error: string) | OutOfTime(error: string) | Broken(error: string)

  function EndingStatus(e: Ending): JobStatus {
    match e
    case Finished(_) => Completed
    case Stopped(_) => Cancelled
    case OutOfTime(_) => TimedOut
    case Broken(_) => JobFailed
  }

  function EndingError(e: Ending): string {
    if e.Finished? then "" else e.error
  }

  /** A process, named after the command that it issues next. */
  datatype Process =
    | SubmitHset(id: JobId, scenario: string, timeout: Option<real>)
    | SubmitLpush(id: JobId)
    | CancelHgetall(id: JobId)
    | CancelHsetFlag(id: JobId, status: JobStatus)
    | CancelLrem(id: JobId)
    | CancelHsetStatus(id: JobId, status: JobStatus)
    | WorkerRpop
    | WorkerHgetall(id: JobId)
    | WorkerHsetCancelled(id: JobId)
    | WorkerHsetRunning(id: JobId)
    | WorkerIncr(id: JobId)
    | WorkerAnalyze(id: JobId, stopSeen: bool)
    | WorkerHsetOutcome(id: JobId, ending: Ending)
    | WorkerSetResult(id: JobId, result: string)
    | WorkerDecr(id: JobId)
    | Ended

  /** The keys, the processes, the ids generated so far, and the analyses started so far. */
  datatype System = System(keys: Keys, processes: map<int, Process>, used: set<JobId>, started: seq<JobId>)

  /** What the environment decides: who starts, who moves, whether a poll happens, and how an analysis ends. */
  datatype Action =
    | StartSubmit(pid: int, id: JobId, scenario: string, timeout: Option<real>)
    | StartCancel(pid: int, id: JobId)
    | StartWorker(pid: int)
    | Move(pid: int)
    | Poll(pid: int)
    | End(pid: int, ending: Ending)

  /** One command of a process that is not analyzing. */
  function Command(k: Keys, p: Process): (Keys, Process) {
    match p
    case SubmitHset(id, scenario, timeout) => (Created(k, id, Job(Queued, scenario, timeout, false, "")), SubmitLpush(id))
    case SubmitLpush(id) => (LPush(k, id), Ended)
    case CancelHgetall(id) => (k, if id in k.jobs then CancelHsetFlag(id, k.jobs[id].status) else Ended)
    case CancelHsetFlag(id, status) =>
      (SetFlag(k, id),
       if status.Queued? then CancelLrem(id)
       else if status.Running? then CancelHsetStatus(id, CancellationRequested)
       else Ended)
    case CancelLrem(id) => (LRem(k, id), CancelHsetStatus(id, Cancelled))
    case CancelHsetStatus(id, status) => (SetStatus(k, id, status), Ended)
    case WorkerRpop =>
      var popped := RPop(k);
      (popped.0, if popped.1.None? then WorkerRpop else WorkerHgetall(popped.1.value))
    case WorkerHgetall(id) =>
      (k, if id !in k.jobs then WorkerRpop
          else if k.jobs[id].cancelRequested then WorkerHsetCancelled(id)
          else WorkerHsetRunning(id))
    case WorkerHsetCancelled(id) => (SetStatus(k, id, Cancelled), WorkerRpop)
    case WorkerHsetRunning(id) => (SetStatus(k, id, Running), WorkerIncr(id))
    case WorkerIncr(id) => (Incr(k), WorkerAnalyze(id, false))
    case WorkerAnalyze(id, seen) => (k, p)
    case WorkerHsetOutcome(id, ending) =>
      (SetOutcome(k, id, EndingStatus(ending), EndingError(ending)),
       if ending.Finished? then WorkerSetResult(id, ending.result) else WorkerDecr(id))
    case WorkerSetResult(id, result) => (SetResult(k, id, result), WorkerDecr(id))
    case WorkerDecr(id) => (Decr(k), WorkerRpop)
    case Ended => (k, p)
  }

  /** A process that moves n times with no other process between its commands. */
  function Alone(k: Keys, p: Process, n: nat): (Keys, Process)
    decreases n
  {
    if n == 0 then (k, p)
    else
      var (keys, next) := Command(k, p);
      Alone(keys, next, n - 1)
  }

  lemma AloneTwo(k: Keys, p: Process)
    ensures var a := Command(k, p); Alone(k, p, 2) == Command(a.0, a.1)
  {
    var a := Command(k, p);
    var b := Command(a.0, a.1);
    assert Alone(b.0, b.1, 0) == b;
    assert Alone(a.0, a.1, 1) == Alone(b.0, b.1, 0);
  }

  lemma AloneFour(k: Keys, p: Process)
    ensures var a := Alone(k, p, 2); Alone(k, p, 4) == Alone(a.0, a.1, 2)
    ensures var a := Alone(k, p, 2); Alone(k, p, 3) == Command(a.0, a.1)
  {
    hide Command;
    var a := Command(k, p);
    var b := Command(a.0, a.1);
    AloneTwo(k, p);
    assert Alone(a.0, a.1, 3) == Alone(b.0, b.1, 2);
    assert Alone(a.0, a.1, 2) == Alone(b.0, b.1, 1);
    var c := Command(b.0, b.1);
    assert Alone(b.0, b.1, 1) == Alone(c.0, c.1, 0);
  }

  // ---------------------------------------------------------------- the methods, without interference

  datatype Claim = NoClaim | Claimed(id: JobId, scenario: string, timeout: Option<real>)

  /** RedisJobQueue over one client; the client's keys are the only state. */
  class RedisJobQueue {
    var keys: Keys

    constructor (keys: Keys)
      ensures this.keys == keys
    {
      this.keys := keys;
    }

    /** submit with a generated id. */
    method Submit(id: JobId, scenario: string, timeout: Option<real>)
      modifies this
      ensures keys.queue == [id] + old(keys).queue && keys.jobs == old(keys).jobs[id := Job(Queued, scenario, timeout, false, "")]
      ensures keys.running == old(keys).running && keys.results == old(keys).results
      ensures keys == Alone(old(keys), SubmitHset(id, scenario, timeout), 2).0
    {
      AloneTwo(keys, SubmitHset(id, scenario, timeout));
      keys := Created(keys, id, Job(Queued, scenario, timeout, false, ""));
      keys := LPush(keys, id);
    }

    /** cancel; None when the job is unknown. */
    method Cancel(id: JobId) returns (status: Option<JobStatus>)
      modifies this
      ensures status.None? <==> id !in old(keys).jobs
      ensures status.None? ==> keys == old(keys)
      ensures status.Some? ==> id in keys.jobs && keys.jobs[id].cancelRequested
      ensures status.Some? && old(keys).jobs[id].status.Queued? ==>
                status.value == Cancelled == keys.jobs[id].status && id !in keys.queue
      ensures status.Some? && old(keys).jobs[id].status.Running? ==>
                status.value == CancellationRequested == keys.jobs[id].status && keys.queue == old(keys).queue
      ensures status.Some? && !old(keys).jobs[id].status.Queued? && !old(keys).jobs[id].status.Running? ==>
                status.value == old(keys).jobs[id].status && keys == SetFlag(old(keys), id)
      ensures keys.running == old(keys).running && keys.results == old(keys).results
      ensures forall x :: x in old(keys).jobs && x != id ==> x in keys.jobs && keys.jobs[x] == old(keys).jobs[x]
      ensures forall x :: x != id ==> (x in keys.queue <==> x in old(keys).queue)
      ensures keys == Alone(old(keys), CancelHgetall(id), 4).0
    {
      AloneFour(keys, CancelHgetall(id));
      AloneTwo(keys, CancelHgetall(id));
      ghost var flagged := Alone(keys, CancelHgetall(id), 2);
      AloneTwo(flagged.0, flagged.1);
      hide Alone;
      if id !in keys.jobs {
        return None;
      }
      var before := keys.jobs[id].status;
      keys := SetFlag(keys, id);
      if before.Queued? {
        keys := LRem(keys, id);
        keys := SetStatus(keys, id, Cancelled);
        return Some(Cancelled);
      }
      if before.Running? {
        keys := SetStatus(keys, id, CancellationRequested);
        return Some(CancellationRequested);
      }
      status := Some(before);
    }

    /** claim_next. */
    method ClaimNext() returns (claim: Claim)
      modifies this
      ensures claim.Claimed? <==>
                old(keys).queue != []
                && var id := old(keys).queue[|old(keys).queue| - 1];
                   id in old(keys).jobs && !old(keys).jobs[id].cancelRequested
      ensures claim.Claimed? ==>
                claim.id == old(keys).queue[|old(keys).queue| - 1]
                && claim.scenario == old(keys).jobs[claim.id].scenario && claim.timeout == old(keys).jobs[claim.id].timeout
      ensures keys.queue == old(keys).queue[..if old(keys).queue == [] then 0 else |old(keys).queue| - 1]
      ensures keys.results == old(keys).results && keys.running == old(keys).running + if claim.Claimed? then 1 else 0
      ensures old(keys).queue == [] ==> keys.jobs == old(keys).jobs
      ensures old(keys).queue != [] ==>
                var id := old(keys).queue[|old(keys).queue| - 1];
                if id !in old(keys).jobs then keys.jobs == old(keys).jobs
                else keys.jobs == old(keys).jobs[id := old(keys).jobs[id].(status := if claim.Claimed? then Running else Cancelled)]
      ensures claim.Claimed? ==> (keys, WorkerAnalyze(claim.id, false)) == Alone(old(keys), WorkerRpop, 4)
    {
      AloneFour(keys, WorkerRpop);
      AloneTwo(keys, WorkerRpop);
      ghost var read := Alone(keys, WorkerRpop, 2);
      AloneTwo(read.0, read.1);
      hide Alone;
      var popped := RPop(keys);
      keys := popped.0;
      if popped.1.None? {
        return NoClaim;
      }
      var id := popped.1.value;
      if id !in keys.jobs {
        return NoClaim;
      }
      var job := keys.jobs[id];
      if job.cancelRequested {
        keys := SetStatus(keys, id, Cancelled);
        return NoClaim;
      }
      keys := SetStatus(keys, id, Running);
      keys := Incr(keys);
      claim := Claimed(id, job.scenario, job.timeout);
    }

    /** finish. */
    method Finish(id: JobId, ending: Ending)
      modifies this
      ensures keys.running == old(keys).running - 1 && keys.queue == old(keys).queue
      ensures id !in old(keys).jobs ==> keys.jobs == old(keys).jobs
      ensures id in old(keys).jobs ==>
                var status := match ending
                  case Finished(_) => Completed
                  case Stopped(_) => Cancelled
                  case OutOfTime(_) => TimedOut
                  case Broken(_) => JobFailed;
                keys.jobs == old(keys).jobs[id := old(keys).jobs[id].(status := status, error := if ending.Finished? then "" else ending.error)]
      ensures keys.results == if ending.Finished? then old(keys).results[id := ending.result] else old(keys).results
      ensures (keys, WorkerRpop) == Alone(old(keys), WorkerHsetOutcome(id, ending), if ending.Finished? then 3 else 2)
    {
      AloneFour(keys, WorkerHsetOutcome(id, ending));
      AloneTwo(keys, WorkerHsetOutcome(id, ending));
      hide Alone;
      keys := SetOutcome(keys, id, EndingStatus(ending), EndingError(ending));
      if ending.Finished? {
        keys := SetResult(keys, id, ending.result);
      }
      keys := Decr(keys);
    }

    method PendingCount() returns (n: int)
      ensures n == |keys.queue| + keys.running
    {
      n := |keys.queue|;
      n := n + keys.running;
    }
  }

  /** One action; an action that is not enabled changes nothing. */
  function Apply(s: System, a: Action): System {
    match a
    case StartSubmit(pid, id, scenario, timeout) =>
      if pid in s.processes || id in s.used then s
      else s.(processes := s.processes[pid := SubmitHset(id, scenario, timeout)], used := s.used + {id})
    case StartCancel(pid, id) => if pid in s.processes then s else s.(processes := s.processes[pid := CancelHgetall(id)])
    case StartWorker(pid) => if pid in s.processes then s else s.(processes := s.processes[pid := WorkerRpop])
    case Move(pid) =>
      if pid !in s.processes then s
      else
        var p := s.processes[pid];
        var (keys, next) := Command(s.keys, p);
        s.(keys := keys, processes := s.processes[pid := next],
           started := if p.WorkerIncr? then s.started + [p.id] else s.started)
    case Poll(pid) =>
      // The polling thread's HGET of the flag.
      if pid in s.processes && s.processes[pid].WorkerAnalyze? then
        var id := s.processes[pid].id;
        var seen := s.processes[pid].stopSeen || (id in s.keys.jobs && s.keys.jobs[id].cancelRequested);
        s.(processes := s.processes[pid := WorkerAnalyze(id, seen)])
      else s
    case End(pid, ending) =>
      // The analysis stops as cancelled only after its event was set.
      if pid in s.processes && s.processes[pid].WorkerAnalyze? && (ending.Stopped? ==> s.processes[pid].stopSeen) then
        s.(processes := s.processes[pid := WorkerHsetOutcome(s.processes[pid].id, ending)])
      else s
  }

  const START := System(Keys(map[], [], 0, map[]), map[], {}, [])

  /** The state after a run of actions. */
  function Run(actions: seq<Action>): System {
    if actions == [] then START else Apply(Run(actions[..|actions| - 1]), actions[|actions| - 1])
  }

  // ---------------------------------------------------------------- the invariant

  /** Between INCR and DECR. */
  predicate Counted(p: Process) {
    p.WorkerAnalyze? || p.WorkerHsetOutcome? || p.WorkerSetResult? || p.WorkerDecr?
  }

  function CountedWorkers(processes: map<int, Process>): set<int> {
    set pid | pid in processes && Counted(processes[pid])
  }

  /** The id that a process still has to queue, or may still start. */
  function Carried(p: Process): Option<JobId> {
    match p
    case SubmitHset(id, _, _) => Some(id)
    case SubmitLpush(id) => Some(id)
    case WorkerHgetall(id) => Some(id)
    case WorkerHsetRunning(id) => Some(id)
    case WorkerIncr(id) => Some(id)
    case _ => None
  }

  predicate CarriedBy(processes: map<int, Process>, pid: int, id: JobId) {
    pid in processes && Carried(processes[pid]) == Some(id)
  }

  /** Every id is in at most one place: carried by one process, queued once, or started once. */
  ghost predicate OnePlace(queue: seq<JobId>, started: seq<JobId>, processes: map<int, Process>) {
    && Distinct(queue) && Distinct(started)
    && (forall x :: x in queue ==> x !in started)
    && (forall pid, id :: CarriedBy(processes, pid, id) ==> id !in queue && id !in started)
    && (forall a, b, id :: CarriedBy(processes, a, id) && CarriedBy(processes, b, id) ==> a == b)
  }

  /** Ids come from the generator, and those past their HSET have a hash. */
  ghost predicate KnownIds(s: System) {
    && s.keys.jobs.Keys <= s.used
    && (forall x :: x in s.keys.queue || x in s.started ==> x in s.keys.jobs)
    && (forall pid, id :: CarriedBy(s.processes, pid, id) ==>
          id in s.used && (id in s.keys.jobs <==> !s.processes[pid].SubmitHset?))
  }

  predicate FlagSet(k: Keys, id: JobId) {
    id in k.jobs && k.jobs[id].cancelRequested
  }

  /** A worker that saw the flag, or ends as cancelled, holds a job whose flag is set. */
  predicate StopRequested(k: Keys, p: Process) {
    && (p.WorkerAnalyze? && p.stopSeen ==> FlagSet(k, p.id))
    && (p.WorkerHsetOutcome? && p.ending.Stopped? ==> FlagSet(k, p.id))
  }

  ghost predicate Invariant(s: System) {
    && s.keys.running == |CountedWorkers(s.processes)|
    && OnePlace(s.keys.queue, s.started, s.processes)
    && KnownIds(s)
    && (forall pid :: pid in s.processes ==> StopRequested(s.keys, s.processes[pid]))
  }

  // ---------------------------------------------------------------- places

  lemma CountedUpdate(processes: map<int, Process>, pid: int, p: Process)
    ensures var before := pid in processes && Counted(processes[pid]);
            |CountedWorkers(processes[pid := p])|
            == |CountedWorkers(processes)| + (if Counted(p) then 1 else 0) - if before then 1 else 0
  {
    hide Counted;
    var all, after := CountedWorkers(processes), CountedWorkers(processes[pid := p]);
    CountedMember(processes, pid, p);
    hide CountedWorkers;
    var others := all - {pid};
    forall q ensures q in after <==> q in others || (q == pid && Counted(p)) {}
    if Counted(p) {
      assert after == others + {pid};
    } else {
      assert after == others;
    }
    if pid in all {
      assert all == others + {pid};
    } else {
      assert all == others;
    }
  }

  lemma CountedMember(processes: map<int, Process>, pid: int, p: Process)
    ensures pid in CountedWorkers(processes[pid := p]) <==> Counted(p)
    ensures pid in CountedWorkers(processes) <==> pid in processes && Counted(processes[pid])
    ensures forall q :: q != pid ==> (q in CountedWorkers(processes[pid := p]) <==> q in CountedWorkers(processes))
  {
    hide Counted;
    var after := processes[pid := p];
    assert after[pid] == p;
    forall q | q != pid ensures q in CountedWorkers(after) <==> q in CountedWorkers(processes) {
      assert q in after <==> q in processes;
    }
  }

  /** Who carries an id after one process has moved. */
  lemma CarriedUpdate(processes: map<int, Process>, pid: int, p: Process, after: map<int, Process>)
    requires after == processes[pid := p]
    ensures forall q, id :: CarriedBy(after, q, id) ==>
              (q == pid && Carried(p) == Some(id)) || (q != pid && CarriedBy(processes, q, id))
  {
    hide Carried;
    assert after[pid] == p;
    forall q, id | CarriedBy(after, q, id)
      ensures (q == pid && Carried(p) == Some(id)) || (q != pid && CarriedBy(processes, q, id))
    {
      assert q in after;
    }
  }

  /** The process keeps its id, or gives it up without queueing it. */
  lemma PlaceKept(queue: seq<JobId>, started: seq<JobId>, processes: map<int, Process>, pid: int, p: Process,
      after: map<int, Process>)
    requires after == processes[pid := p]
    requires OnePlace(queue, started, processes)
    requires forall id :: Carried(p) == Some(id) ==> CarriedBy(processes, pid, id)
    ensures OnePlace(queue, started, after)
  {
    hide Carried, CarriedBy, Distinct;
    CarriedUpdate(processes, pid, p, after);
  }

  /** A new id is carried by a new process. */
  lemma PlaceNew(queue: seq<JobId>, started: seq<JobId>, processes: map<int, Process>, pid: int, p: Process,
      after: map<int, Process>, id: JobId)
    requires after == processes[pid := p]
    requires OnePlace(queue, started, processes) && Carried(p) == Some(id)
    requires id !in queue && id !in started && forall q :: !CarriedBy(processes, q, id)
    ensures OnePlace(queue, started, after)
  {
    hide Carried, CarriedBy, Distinct;
    CarriedUpdate(processes, pid, p, after);
  }

  lemma PlacePushed(queue: seq<JobId>, started: seq<JobId>, processes: map<int, Process>, pid: int, p: Process,
      after: map<int, Process>, id: JobId)
    requires after == processes[pid := p]
    requires OnePlace(queue, started, processes) && CarriedBy(processes, pid, id) && Carried(p) == None
    ensures OnePlace([id] + queue, started, after)
  {
    hide Carried, CarriedBy;
    CarriedUpdate(processes, pid, p, after);
    assert id !in queue;
    var longer := [id] + queue;
    forall i, j | 0 <= i < j < |longer| ensures longer[i] != longer[j] {
      assert longer[j] == queue[j - 1];
    }
  }

  lemma PlacePopped(queue: seq<JobId>, started: seq<JobId>, processes: map<int, Process>, pid: int, p: Process,
      after: map<int, Process>)
    requires after == processes[pid := p]
    requires OnePlace(queue, started, processes) && queue != [] && Carried(p) == Some(queue[|queue| - 1])
    ensures OnePlace(queue[..|queue| - 1], started, after)
  {
    hide Carried, CarriedBy;
    CarriedUpdate(processes, pid, p, after);
    assert queue[|queue| - 1] in queue;
    assert forall x :: x in queue[..|queue| - 1] ==> x in queue;
  }

  lemma PlaceStarted(queue: seq<JobId>, started: seq<JobId>, processes: map<int, Process>, pid: int, p: Process,
      after: map<int, Process>, id: JobId)
    requires after == processes[pid := p]
    requires OnePlace(queue, started, processes) && CarriedBy(processes, pid, id) && Carried(p) == None
    ensures OnePlace(queue, started + [id], after)
  {
    hide Carried, CarriedBy;
    CarriedUpdate(processes, pid, p, after);
    assert id !in started;
    var longer := started + [id];
    forall i, j | 0 <= i < j < |longer| ensures longer[i] != longer[j] {
      assert longer[i] == started[i];
    }
  }

  lemma {:induction false} RemovedDistinct(queue: seq<JobId>, id: JobId)
    requires Distinct(queue)
    ensures Distinct(Removed(queue, id))
  {
    if queue != [] {
      RemovedDistinct(queue[1..], id);
      assert queue[0] !in queue[1..];
      var rest := Removed(queue[1..], id);
      forall i | 0 <= i < |rest| ensures rest[i] != queue[0] { assert rest[i] in rest; }
    }
  }

  lemma PlaceRemoved(queue: seq<JobId>, started: seq<JobId>, processes: map<int, Process>, pid: int, p: Process,
      after: map<int, Process>, id: JobId)
    requires after == processes[pid := p]
    requires OnePlace(queue, started, processes) && Carried(p) == None
    ensures OnePlace(Removed(queue, id), started, after)
  {
    hide Carried, CarriedBy;
    RemovedDistinct(queue, id);
    CarriedUpdate(processes, pid, p, after);
  }

  // ---------------------------------------------------------------- every command keeps the invariant

  /** The hash updates keep every key and every flag. */
  ghost predicate HashesKept(before: Keys, after: Keys) {
    && before.jobs.Keys <= after.jobs.Keys
    && (forall id :: FlagSet(before, id) ==> FlagSet(after, id))
  }

  lemma CommandKeepsPlaces(s: System, pid: int)
    requires Invariant(s) && pid in s.processes
    ensures var t := Apply(s, Move(pid)); OnePlace(t.keys.queue, t.started, t.processes)
  {
    var p := s.processes[pid];
    var (keys, next) := Command(s.keys, p);
    hide OnePlace, KnownIds, StopRequested, CountedWorkers;
    match p {
      case SubmitLpush(id) =>
        assert CarriedBy(s.processes, pid, id);
        PlacePushed(s.keys.queue, s.started, s.processes, pid, next, s.processes[pid := next], id);
      case WorkerIncr(id) =>
        assert CarriedBy(s.processes, pid, id);
        PlaceStarted(s.keys.queue, s.started, s.processes, pid, next, s.processes[pid := next], id);
      case CancelLrem(id) => PlaceRemoved(s.keys.queue, s.started, s.processes, pid, next, s.processes[pid := next], id);
      case WorkerRpop =>
        if s.keys.queue == [] {
          PlaceKept(s.keys.queue, s.started, s.processes, pid, next, s.processes[pid := next]);
        } else {
          PlacePopped(s.keys.queue, s.started, s.processes, pid, next, s.processes[pid := next]);
        }
      case _ => PlaceKept(s.keys.queue, s.started, s.processes, pid, next, s.processes[pid := next]);
    }
  }

  lemma CommandCounts(s: System, pid: int)
    requires Invariant(s) && pid in s.processes
    ensures var t := Apply(s, Move(pid)); t.keys.running == |CountedWorkers(t.processes)|
  {
    var p := s.processes[pid];
    var (keys, next) := Command(s.keys, p);
    CountedUpdate(s.processes, pid, next);
    hide OnePlace, KnownIds, StopRequested, CountedWorkers, Removed;
    assert keys.running == s.keys.running + (if Counted(next) then 1 else 0) - if Counted(p) then 1 else 0;
  }

  lemma CommandKeepsHashes(s: System, pid: int)
    requires Invariant(s) && pid in s.processes
    ensures HashesKept(s.keys, Command(s.keys, s.processes[pid]).0)
  {
    hide OnePlace, StopRequested, CountedWorkers, Removed;
    var p := s.processes[pid];
    if p.SubmitHset? { assert CarriedBy(s.processes, pid, p.id); }
  }

  /** Which hashes exist after a command. */
  lemma CommandHashes(k: Keys, p: Process)
    ensures Command(k, p).0.jobs.Keys == k.jobs.Keys + if p.SubmitHset? then {p.id} else {}
    ensures forall x :: x in Command(k, p).0.queue ==> x in k.queue || (p.SubmitLpush? && p.id == x)
  {}

  /** Where a process gets the id that it carries. */
  lemma CommandCarries(k: Keys, p: Process)
    ensures var next := Command(k, p).1;
            Carried(next).Some? ==>
              !next.SubmitHset?
              && (Carried(p) == Carried(next) || (p.WorkerRpop? && k.queue != [] && Carried(next).value == k.queue[|k.queue| - 1]))
              && (p.WorkerHgetall? ==> p.id in k.jobs)
  {}

  lemma CommandKeepsKnown(s: System, pid: int)
    requires Invariant(s) && pid in s.processes
    ensures KnownIds(Apply(s, Move(pid)))
  {
    var p := s.processes[pid];
    var (keys, next) := Command(s.keys, p);
    var t := Apply(s, Move(pid));
    CarriedUpdate(s.processes, pid, next, t.processes);
    CommandHashes(s.keys, p);
    CommandCarries(s.keys, p);
    if Carried(p).Some? { assert CarriedBy(s.processes, pid, Carried(p).value); }
    assert forall x :: x in t.started ==> x in s.started || (p.WorkerIncr? && p.id == x);
    hide Command, StopRequested, CountedWorkers, Removed, Apply, Distinct;
    forall q, id | CarriedBy(t.processes, q, id)
      ensures id in t.used && (id in t.keys.jobs <==> !t.processes[q].SubmitHset?)
    {
      if q == pid {
        assert Carried(next) == Some(id);
      } else {
        assert CarriedBy(s.processes, q, id) && t.processes[q] == s.processes[q];
      }
    }
  }

  lemma CommandKeepsStops(s: System, pid: int)
    requires Invariant(s) && pid in s.processes
    ensures var t := Apply(s, Move(pid)); forall q :: q in t.processes ==> StopRequested(t.keys, t.processes[q])
  {
    CommandKeepsHashes(s, pid);
    hide OnePlace, KnownIds, CountedWorkers, Removed, FlagSet;
    var t := Apply(s, Move(pid));
    forall q | q in t.processes ensures StopRequested(t.keys, t.processes[q]) {
      if q != pid { assert StopRequested(s.keys, s.processes[q]); }
    }
  }

  lemma ActionKeepsInvariant(s: System, a: Action)
    requires Invariant(s)
    ensures Invariant(Apply(s, a))
  {
    var t := Apply(s, a);
    match a {
      case Move(pid) =>
        if pid in s.processes {
          hide Apply, Command, OnePlace, KnownIds, StopRequested, CountedWorkers;
          CommandKeepsPlaces(s, pid);
          CommandCounts(s, pid);
          CommandKeepsKnown(s, pid);
          CommandKeepsStops(s, pid);
        }
      case StartSubmit(pid, id, scenario, timeout) =>
        if t != s {
          var p := SubmitHset(id, scenario, timeout);
          CountedUpdate(s.processes, pid, p);
          CarriedUpdate(s.processes, pid, p, s.processes[pid := p]);
          PlaceNew(s.keys.queue, s.started, s.processes, pid, p, s.processes[pid := p], id);
        }
      case StartCancel(pid, id) => if t != s { ProcessKept(s, t, pid, CancelHgetall(id)); }
      case StartWorker(pid) => if t != s { ProcessKept(s, t, pid, WorkerRpop); }
      case Poll(pid) => if t != s { ProcessKept(s, t, pid, t.processes[pid]); }
      case End(pid, ending) => if t != s { ProcessKept(s, t, pid, t.processes[pid]); }
    }
  }

  /** Actions that touch one process and no key. */
  lemma ProcessKept(s: System, t: System, pid: int, p: Process)
    requires Invariant(s) && (t == s || t == s.(processes := s.processes[pid := p]))
    requires Carried(p) == None && StopRequested(s.keys, p)
    requires Counted(p) <==> pid in s.processes && Counted(s.processes[pid])
    ensures Invariant(t)
  {
    hide Carried, Counted, StopRequested, CountedWorkers;
    CountedUpdate(s.processes, pid, p);
    CarriedUpdate(s.processes, pid, p, s.processes[pid := p]);
    PlaceKept(s.keys.queue, s.started, s.processes, pid, p, s.processes[pid := p]);
  }

  /** The invariant holds in every state of every interleaving. */
  lemma {:induction false} RunKeepsInvariant(actions: seq<Action>)
    ensures Invariant(Run(actions))
  {
    if actions != [] {
      RunKeepsInvariant(actions[..|actions| - 1]);
      ActionKeepsInvariant(Run(actions[..|actions| - 1]), actions[|actions| - 1]);
    } else {
      assert CountedWorkers(START.processes) == {};
    }
  }

  // ---------------------------------------------------------------- main results

  /** Under every interleaving each job is started at most once. */
  lemma StartedAtMostOnce(actions: seq<Action>)
    ensures Distinct(Run(actions).started)
  {
    RunKeepsInvariant(actions);
  }

  /** The running counter is the number of workers between INCR and DECR. */
  lemma RunningIsExact(actions: seq<Action>)
    ensures Run(actions).keys.running == |CountedWorkers(Run(actions).processes)|
  {
    RunKeepsInvariant(actions);
  }

  /** Some worker has read the job's hash and goes on to start it, or it is started. */
  predicate Committed(s: System, id: JobId) {
    id in s.started
    || exists pid :: pid in s.processes && (s.processes[pid] == WorkerHsetRunning(id) || s.processes[pid] == WorkerIncr(id))
  }

  lemma CancelledStaysUnstarted(s: System, a: Action, id: JobId)
    requires Invariant(s) && FlagSet(s.keys, id) && !Committed(s, id)
    ensures FlagSet(Apply(s, a).keys, id) && !Committed(Apply(s, a), id)
  {
    hide OnePlace, CountedWorkers, StopRequested;
    var t := Apply(s, a);
    if a.Move? && a.pid in s.processes {
      CommandKeepsHashes(s, a.pid);
      hide KnownIds, Invariant, Removed;
      assert forall pid :: pid in t.processes && pid != a.pid ==> pid in s.processes && t.processes[pid] == s.processes[pid];
      var p := s.processes[a.pid];
      assert p != WorkerIncr(id) && p != WorkerHsetRunning(id);
      assert t.processes[a.pid] != WorkerIncr(id) && t.processes[a.pid] != WorkerHsetRunning(id);
    }
  }

  /** A job whose flag is set before a worker's HGETALL commits to it is never started. */
  lemma {:induction false} CancelledNeverStarts(actions: seq<Action>, n: nat, id: JobId)
    requires n <= |actions|
    requires FlagSet(Run(actions[..n]).keys, id) && !Committed(Run(actions[..n]), id)
    ensures id !in Run(actions).started
    ensures FlagSet(Run(actions).keys, id) && !Committed(Run(actions), id)
    decreases |actions|
  {
    hide Apply, FlagSet;
    if n == |actions| {
      assert actions[..n] == actions;
    } else {
      var m := |actions| - 1;
      assert actions[..m][..n] == actions[..n];
      CancelledNeverStarts(actions[..m], n, id);
      RunKeepsInvariant(actions[..m]);
      CancelledStaysUnstarted(Run(actions[..m]), actions[m], id);
    }
  }

  /** An analysis is settled as cancelled only when its cancellation was requested. */
  lemma CancelledOnlyOnRequest(actions: seq<Action>, pid: int)
    requires pid in Run(actions).processes && Run(actions).processes[pid].WorkerHsetOutcome?
    requires Run(actions).processes[pid].ending.Stopped?
    ensures FlagSet(Run(actions).keys, Run(actions).processes[pid].id)
  {
    RunKeepsInvariant(actions);
  }
}
