/** What the status and the result of a job say about its analysis, in every interleaving. */
module RedisOutcomes {
  import opened Cards
  import opened RedisQueue

  /** Action i ends a running analysis of the job. */
  predicate EndsAt(actions: seq<Action>, i: int, id: JobId, ending: Ending) {
    0 <= i < |actions| && actions[i].End? && actions[i].ending == ending
    && var processes := Run(actions[..i]).processes;
       actions[i].pid in processes && processes[actions[i].pid].WorkerAnalyze? && processes[actions[i].pid].id == id
  }

  /** Some analysis of the job has ended so. */
  ghost predicate Ended(actions: seq<Action>, id: JobId, ending: Ending) {
    exists i :: EndsAt(actions, i, id, ending)
  }

  lemma EndedStays(actions: seq<Action>, id: JobId, ending: Ending)
    requires actions != [] && Ended(actions[..|actions| - 1], id, ending)
    ensures Ended(actions, id, ending)
  {
    var n := |actions| - 1;
    var i :| EndsAt(actions[..n], i, id, ending);
    assert actions[..n][..i] == actions[..i];
    assert EndsAt(actions, i, id, ending);
  }

  /** What a process has yet to write has its cause. */
  ghost predicate Caused(actions: seq<Action>, k: Keys, p: Process) {
    match p
    case WorkerHsetOutcome(id, ending) => Ended(actions, id, ending) && (ending.Stopped? ==> FlagSet(k, id))
    case WorkerSetResult(id, result) => Ended(actions, id, Finished(result))
    case CancelHsetFlag(id, _) => id in k.jobs
    case CancelLrem(id) => FlagSet(k, id)
    case CancelHsetStatus(id, status) => FlagSet(k, id) && (status.Cancelled? || status.CancellationRequested?)
    case WorkerHsetCancelled(id) => FlagSet(k, id)
    case _ => true
  }

  /** A final status names the ending of an analysis of that job, and a cancelled one was asked for. */
  ghost predicate StatusCaused(actions: seq<Action>, id: JobId, job: Job) {
    match job.status
    case Completed => exists result :: Ended(actions, id, Finished(result))
    case TimedOut => Ended(actions, id, OutOfTime(job.error))
    case JobFailed => Ended(actions, id, Broken(job.error))
    case Cancelled => job.cancelRequested
    case CancellationRequested => job.cancelRequested
    case _ => true
  }

  ghost predicate KeysCaused(actions: seq<Action>, k: Keys) {
    (forall id :: id in k.jobs ==> StatusCaused(actions, id, k.jobs[id]))
    && forall id :: id in k.results ==> Ended(actions, id, Finished(k.results[id]))
  }

  ghost predicate ProcessesCaused(actions: seq<Action>, s: System) {
    forall pid :: pid in s.processes ==> Caused(actions, s.keys, s.processes[pid])
  }

  /** Causes stay as the run goes on. */
  lemma CausesStay(actions: seq<Action>, s: System)
    requires actions != []
    requires KeysCaused(actions[..|actions| - 1], s.keys) && ProcessesCaused(actions[..|actions| - 1], s)
    ensures KeysCaused(actions, s.keys) && ProcessesCaused(actions, s)
  {
    forall id, ending | Ended(actions[..|actions| - 1], id, ending) ensures Ended(actions, id, ending) {
      EndedStays(actions, id, ending);
    }
    hide Ended, FlagSet;
  }

  /** No command takes a flag back or removes a job. */
  predicate FlagsStay(k: Keys, after: Keys) {
    forall id :: id in k.jobs ==> id in after.jobs && (k.jobs[id].cancelRequested ==> after.jobs[id].cancelRequested)
  }

  lemma CommandKeepsKeys(actions: seq<Action>, k: Keys, p: Process)
    requires KeysCaused(actions, k) && Caused(actions, k, p) && (p.SubmitHset? ==> p.id !in k.jobs)
    ensures var (after, next) := Command(k, p);
            KeysCaused(actions, after) && FlagsStay(k, after) && Caused(actions, after, next)
  {
    hide Ended, Removed;
  }

  lemma OthersKeepCauses(actions: seq<Action>, k: Keys, after: Keys, p: Process)
    requires Caused(actions, k, p) && FlagsStay(k, after)
    ensures Caused(actions, after, p)
  {
    hide Ended;
  }

  lemma SubmitIsNew(actions: seq<Action>, pid: int)
    requires pid in Run(actions).processes && Run(actions).processes[pid].SubmitHset?
    ensures Run(actions).processes[pid].id !in Run(actions).keys.jobs
  {
    RunKeepsInvariant(actions);
    assert CarriedBy(Run(actions).processes, pid, Run(actions).processes[pid].id);
  }

  lemma MoveKeepsCauses(actions: seq<Action>, s: System, pid: int)
    requires KeysCaused(actions, s.keys) && ProcessesCaused(actions, s)
    requires pid in s.processes && s.processes[pid].SubmitHset? ==> s.processes[pid].id !in s.keys.jobs
    ensures KeysCaused(actions, Apply(s, Move(pid)).keys) && ProcessesCaused(actions, Apply(s, Move(pid)))
  {
    if pid in s.processes {
      var p := s.processes[pid];
      CommandKeepsKeys(actions, s.keys, p);
      var (after, next) := Command(s.keys, p);
      hide Command, Caused, KeysCaused, FlagsStay;
      forall q | q in s.processes && q != pid ensures Caused(actions, after, s.processes[q]) {
        OthersKeepCauses(actions, s.keys, after, s.processes[q]);
      }
    }
  }

  lemma StepKeepsCauses(actions: seq<Action>, s: System)
    requires actions != [] && s == Run(actions[..|actions| - 1])
    requires KeysCaused(actions, s.keys) && ProcessesCaused(actions, s)
    ensures KeysCaused(actions, Run(actions).keys) && ProcessesCaused(actions, Run(actions))
  {
    var n := |actions| - 1;
    var a := actions[n];
    RunKeepsInvariant(actions[..n]);
    if a.Move? {
      if a.pid in s.processes && s.processes[a.pid].SubmitHset? { SubmitIsNew(actions[..n], a.pid); }
      MoveKeepsCauses(actions, s, a.pid);
    } else {
      assert a.End? && a.pid in s.processes && s.processes[a.pid].WorkerAnalyze? ==> EndsAt(actions, n, s.processes[a.pid].id, a.ending);
      assert forall pid :: pid in s.processes ==> StopRequested(s.keys, s.processes[pid]);
      hide Run, EndsAt, KeysCaused, Invariant;
      RestKeepsCauses(actions, s, a);
    }
  }

  /** Starting, polling and ending leave the keys alone. */
  lemma RestKeepsCauses(actions: seq<Action>, s: System, a: Action)
    requires !a.Move? && ProcessesCaused(actions, s)
    requires forall pid :: pid in s.processes ==> StopRequested(s.keys, s.processes[pid])
    requires a.End? && a.pid in s.processes && s.processes[a.pid].WorkerAnalyze? ==> Ended(actions, s.processes[a.pid].id, a.ending)
    ensures Apply(s, a).keys == s.keys && ProcessesCaused(actions, Apply(s, a))
  {
    hide Ended, FlagSet;
    if a.End? && a.pid in s.processes { assert StopRequested(s.keys, s.processes[a.pid]); }
  }

  lemma {:induction false} RunKeepsCauses(actions: seq<Action>)
    ensures KeysCaused(actions, Run(actions).keys) && ProcessesCaused(actions, Run(actions))
  {
    hide Apply, Caused, StatusCaused;
    if actions != [] {
      var s := Run(actions[..|actions| - 1]);
      RunKeepsCauses(actions[..|actions| - 1]);
      hide Run;
      CausesStay(actions, s);
      StepKeepsCauses(actions, s);
    }
  }

  /**
   * In every interleaving: a completed job has an analysis that finished, a timed-out or failed one has an analysis
   * that ended so with the stored error, a cancelled one has its flag set, and a stored result is that of an analysis
   * of that job.
   */
  lemma StatusTellsTheEnding(actions: seq<Action>, id: JobId)
    ensures var k := Run(actions).keys;
            && (id in k.jobs ==>
                  && (k.jobs[id].status.Completed? ==> exists result :: Ended(actions, id, Finished(result)))
                  && (k.jobs[id].status.TimedOut? ==> Ended(actions, id, OutOfTime(k.jobs[id].error)))
                  && (k.jobs[id].status.JobFailed? ==> Ended(actions, id, Broken(k.jobs[id].error)))
                  && (k.jobs[id].status.Cancelled? || k.jobs[id].status.CancellationRequested? ==> FlagSet(k, id)))
            && (id in k.results ==> Ended(actions, id, Finished(k.results[id])))
  {
    RunKeepsCauses(actions);
    hide Run, Ended;
  }

  /** The outcome write of an ended analysis: each ending has its own status, with the error text of the exception. */
  lemma OutcomeIsWritten(actions: seq<Action>, pid: int)
    requires pid in Run(actions).processes && Run(actions).processes[pid].WorkerHsetOutcome?
    ensures var p := Run(actions).processes[pid];
            var after := Run(actions + [Move(pid)]);
            p.id in Run(actions).keys.jobs ==>
              p.id in after.keys.jobs
              && var job := after.keys.jobs[p.id];
                 && (p.ending.Finished? ==> job.status == Completed && job.error == "" && after.processes[pid] == WorkerSetResult(p.id, p.ending.result))
                 && (p.ending.Stopped? ==> job.status == Cancelled && job.error == p.ending.error && job.cancelRequested)
                 && (p.ending.OutOfTime? ==> job.status == TimedOut && job.error == p.ending.error)
                 && (p.ending.Broken? ==> job.status == JobFailed && job.error == p.ending.error)
                 && (!p.ending.Finished? ==> after.processes[pid] == WorkerDecr(p.id))
  {
    RunKeepsInvariant(actions);
    assert (actions + [Move(pid)])[..|actions|] == actions;
    hide OnePlace, KnownIds, CountedWorkers;
  }
}
