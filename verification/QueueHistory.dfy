/**
  What the rows say about the past: which columns are set in which status, whose error a job
  shows, and when a job that is queued, or queued again, can be claimed.
*/
module QueueHistory {
  import opened Text
  import opened Queue
  import opened QueueRuns

  /////////////// Columns and statuses ///////////////

  predicate JobStamped(j: Job) {
    && (j.finishedAt.Some? <==> Terminal(j))
    && (j.startedAt.Some? <==> j.attempts > 0)
  }

  predicate RunStamped(r: Run) {
    && (r.finishedAt.Some? <==> r.status != Running)
    && (r.status != Failed ==> r.error == "")
  }

  predicate CommandStamped(c: Command) {
    && (c.finishedAt.Some? <==> c.status != Running)
    && (c.exitCode.Some? <==> c.status != Running)
  }

  ghost predicate Stamped(t: Tables) {
    && (forall j | j in t.jobs :: JobStamped(t.jobs[j]))
    && (forall r | r in t.runs :: RunStamped(t.runs[r]))
    && (forall c | c in t.commands :: CommandStamped(t.commands[c]))
  }

  lemma StepKeepsStamped(t: Tables, e: Timed)
    requires Inv(t) && Stamped(t)
    ensures Stamped(Step(t, e))
  {
    match e.event
    case EEnqueue(p) => EnqueueKeepsStamped(t, p, e.now);
    case EClaim => if Oldest(t, e.now).Some? { ClaimKeepsStamped(t, Oldest(t, e.now).value, e.now); }
    case ESucceed(j, r) => SucceedKeepsStamped(t, j, r, e.now);
    case EFail(j, r, reason, delay) => FailKeepsStamped(t, j, r, reason, delay, e.now);
    case ERecover => RecoverKeepsStamped(t, e.now);
    case _ => CommandsKeepStamped(t, e);
  }

  lemma EnqueueKeepsStamped(t: Tables, p: EnqueueParams, now: int)
    requires Stamped(t)
    ensures Stamped(Enqueue(t, p, now))
  {
  }

  lemma SucceedKeepsStamped(t: Tables, job: int, run: int, now: int)
    requires Stamped(t)
    ensures Stamped(Succeed(t, job, run, now))
  {
  }

  lemma RecoverKeepsStamped(t: Tables, now: int)
    requires Stamped(t)
    ensures Stamped(Recover(t, now))
  {
  }

  lemma CommandsKeepStamped(t: Tables, e: Timed)
    requires Stamped(t) && (e.event.EStart? || e.event.EComplete?)
    ensures Stamped(Step(t, e))
  {
  }

  lemma ClaimKeepsStamped(t: Tables, id: int, now: int)
    requires Inv(t) && Stamped(t) && id in t.jobs
    ensures Stamped(ClaimJob(t, id, now))
  {
  }

  lemma FailKeepsStamped(t: Tables, job: int, run: int, reason: string, delay: int, now: int)
    requires Inv(t) && Stamped(t)
    ensures Stamped(Fail(t, job, run, reason, delay, now))
  {
  }

  /** In every state: a time of the end is there exactly when the row has ended, and only FAILED runs have an error. */
  lemma {:induction false} ColumnsAgree(trace: seq<Timed>)
    ensures Stamped(After(EMPTY, trace))
    decreases |trace|
  {
    if trace != [] {
      ColumnsAgree(trace[..|trace| - 1]);
      EveryRunKeepsInv(trace[..|trace| - 1]);
      StepKeepsStamped(After(EMPTY, trace[..|trace| - 1]), trace[|trace| - 1]);
    }
  }

  /////////////// Whose error a job shows ///////////////

  /** The attempt of a job that ended last: the newest one, or the one before while the newest is RUNNING. */
  function LastEnded(j: Job): int {
    if j.status == Running then j.attempts - 1 else j.attempts
  }

  /** A job shows the error of its attempt that ended last, and none before one has ended. */
  ghost predicate Explained(t: Tables) {
    && (forall r | r in t.runs :: RunExplains(t, t.runs[r]))
    && (forall j | j in t.jobs && LastEnded(t.jobs[j]) == 0 :: t.jobs[j].lastError == "")
  }

  predicate RunExplains(t: Tables, r: Run) {
    r.jobId in t.jobs && r.attempt == LastEnded(t.jobs[r.jobId]) ==> t.jobs[r.jobId].lastError == r.error
  }

  lemma ClaimKeepsExplained(t: Tables, id: int, now: int)
    requires Inv(t) && Explained(t) && id in t.jobs && t.jobs[id].status == Queued
    ensures Explained(ClaimJob(t, id, now))
  {
    ClaimNeverConflicts(t, id);
    var u := ClaimJob(t, id, now);
    forall r | r in u.runs ensures RunExplains(u, u.runs[r]) {
      if r != t.nextRun { assert RunExplains(t, t.runs[r]); }
    }
  }

  /** A run and its job end together, with the same error. */
  lemma PairKeepsExplained(t: Tables, u: Tables, job: int, run: int)
    requires Inv(t) && Explained(t) && Current(t, job, run) && u.jobs.Keys == t.jobs.Keys && u.runs.Keys == t.runs.Keys
    requires forall j | j in t.jobs && j != job :: u.jobs[j] == t.jobs[j]
    requires forall r | r in t.runs && r != run :: u.runs[r] == t.runs[r]
    requires u.jobs[job].status != Running && u.jobs[job].attempts == t.jobs[job].attempts && u.runs[run].jobId == job
    requires u.jobs[job].lastError == u.runs[run].error && u.runs[run].attempt == t.runs[run].attempt
    ensures Explained(u)
  {
    RunningRunIsNewest(t, run);
    assert t.jobs[job].attempts > 0;
    forall r | r in u.runs ensures RunExplains(u, u.runs[r]) {
      assert RunExplains(t, t.runs[r]);
      assert r != run && u.runs[r].jobId == job ==> t.runs[r].attempt < t.jobs[job].attempts;
    }
  }

  lemma SucceedKeepsExplained(t: Tables, job: int, run: int, now: int)
    requires Inv(t) && Explained(t)
    ensures Explained(Succeed(t, job, run, now))
  {
    if Current(t, job, run) { PairKeepsExplained(t, Succeed(t, job, run, now), job, run); }
  }

  lemma FailKeepsExplained(t: Tables, job: int, run: int, reason: string, delay: int, now: int)
    requires Inv(t) && Explained(t)
    ensures Explained(Fail(t, job, run, reason, delay, now))
  {
    if Current(t, job, run) { PairKeepsExplained(t, Fail(t, job, run, reason, delay, now), job, run); }
  }

  lemma RecoverKeepsExplained(t: Tables, now: int)
    requires Inv(t) && Explained(t)
    ensures Explained(Recover(t, now))
  {
    var u := Recover(t, now);
    forall r | r in u.runs ensures RunExplains(u, u.runs[r]) {
      assert RunExplains(t, t.runs[r]) && RunRow(t, t.runs[r]);
    }
    forall j | j in u.jobs && LastEnded(u.jobs[j]) == 0 ensures u.jobs[j].lastError == "" {
      assert JobRow(t.jobs[j]);
    }
  }

  lemma EnqueueKeepsExplained(t: Tables, p: EnqueueParams, now: int)
    requires Inv(t) && Explained(t)
    ensures Explained(Enqueue(t, p, now))
  {
    var u := Enqueue(t, p, now);
    forall r | r in u.runs ensures RunExplains(u, u.runs[r]) {
      assert RunExplains(t, t.runs[r]) && RunRow(t, t.runs[r]);
    }
  }

  lemma StepKeepsExplained(t: Tables, e: Timed)
    requires Inv(t) && Explained(t)
    ensures Explained(Step(t, e))
  {
    match e.event
    case EEnqueue(p) => EnqueueKeepsExplained(t, p, e.now);
    case EClaim =>
      ClaimTakesOldest(t, e.now);
      if Oldest(t, e.now).Some? { ClaimKeepsExplained(t, Oldest(t, e.now).value, e.now); }
    case ESucceed(j, r) => SucceedKeepsExplained(t, j, r, e.now);
    case EFail(j, r, reason, delay) => FailKeepsExplained(t, j, r, reason, delay, e.now);
    case ERecover => RecoverKeepsExplained(t, e.now);
    case EStart(_, _, _) => CommandsKeepExplained(t, Step(t, e));
    case EComplete(_, _) => CommandsKeepExplained(t, Step(t, e));
  }

  lemma CommandsKeepExplained(t: Tables, u: Tables)
    requires Explained(t) && u.jobs == t.jobs && u.runs == t.runs
    ensures Explained(u)
  {
    forall r | r in u.runs ensures RunExplains(u, u.runs[r]) {
      assert RunExplains(t, t.runs[r]);
    }
  }

  /** In every state a job shows the error of the attempt that ended last: "" if that one SUCCEEDED. */
  lemma {:induction false} JobsShowTheLastError(trace: seq<Timed>)
    ensures Explained(After(EMPTY, trace))
    decreases |trace|
  {
    if trace != [] {
      JobsShowTheLastError(trace[..|trace| - 1]);
      EveryRunKeepsInv(trace[..|trace| - 1]);
      StepKeepsExplained(After(EMPTY, trace[..|trace| - 1]), trace[|trace| - 1]);
    }
  }

  /** Fail gives its reason to the run, to the job, and to each command of the run that was RUNNING; it touches no other row. */
  lemma FailTellsTheReason(t: Tables, job: int, run: int, reason: string, delay: int, now: int)
    requires Inv(t) && Current(t, job, run)
    ensures var u := Fail(t, job, run, reason, delay, now);
      && u.runs[run].error == reason && u.jobs[job].lastError == reason
      && (forall r | r in t.runs && r != run :: u.runs[r] == t.runs[r])
      && (forall j | j in t.jobs && j != job :: u.jobs[j] == t.jobs[j])
      && forall c | c in t.commands ::
           if t.commands[c].runId == run && t.commands[c].status == Running
           then u.commands[c].status == Failed && u.commands[c].error == reason && u.commands[c].exitCode == Some(-1)
           else u.commands[c] == t.commands[c]
  {
  }

  /** Recovery gives its reason to everything that was RUNNING, requeues the jobs, and touches no other row. */
  lemma RecoveryTellsTheReason(t: Tables, now: int)
    requires Inv(t)
    ensures var u, why := Recover(t, now), "interrupted by daemon restart";
      && (forall j | j in t.jobs :: if t.jobs[j].status == Running then u.jobs[j].status == Queued && u.jobs[j].lastError == why
                                    else u.jobs[j] == t.jobs[j])
      && (forall r | r in t.runs :: if t.runs[r].status == Running then u.runs[r].status == Failed && u.runs[r].error == why
                                    else u.runs[r] == t.runs[r])
      && forall c | c in t.commands :: if t.commands[c].status == Running
           then u.commands[c].status == Failed && u.commands[c].error == why && u.commands[c].exitCode == Some(-1)
           else u.commands[c] == t.commands[c]
  {
  }

  /////////////// When a queued job can be claimed ///////////////

  /** The job can be claimed from this time on, and not before. */
  ghost predicate DueFrom(t: Tables, job: int, time: int) {
    forall now: int :: Eligible(t, now, job) <==> now >= time
  }

  /** A job that failed with retries left waits for the delay, a new one for its time, and a recovered one not at all. */
  lemma RetryWaits(t: Tables, job: int, run: int, reason: string, delay: int, now: int)
    requires Current(t, job, run) && t.jobs[job].attempts <= t.jobs[job].maxRetries
    ensures DueFrom(Fail(t, job, run, reason, delay, now), job, now + if delay < 0 then 0 else delay)
  {
  }

  lemma NewJobWaits(t: Tables, p: EnqueueParams, now: int)
    requires ValidParams(p) && !Recorded(t, p)
    ensures DueFrom(Enqueue(t, p, now), t.nextJob, if p.availableAt.Some? then p.availableAt.value else now)
  {
  }

  lemma RecoveredIsDue(t: Tables, job: int, now: int)
    requires job in t.jobs && t.jobs[job].status == Running
    ensures DueFrom(Recover(t, now), job, now)
  {
  }

  lemma QueuedStays(t: Tables, e: Timed, job: int)
    requires Inv(t) && job in t.jobs && t.jobs[job].status == Queued && !TakesJob(t, e, job)
    ensures job in Step(t, e).jobs && Step(t, e).jobs[job] == t.jobs[job]
  {
    var c := RowChange(t, e, job);
  }

  /** Over any run of transactions, the claim that takes a waiting job comes no earlier than its time. */
  lemma {:induction false} ClaimedWhenDue(t: Tables, job: int, time: int, trace: seq<Timed>, e: Timed)
    requires Inv(t) && job in t.jobs && t.jobs[job].status == Queued && DueFrom(t, job, time)
    requires forall k | 0 <= k < |trace| :: !TakesJob(After(t, trace[..k]), trace[k], job)
    ensures job in After(t, trace).jobs && After(t, trace).jobs[job] == t.jobs[job]
    ensures TakesJob(After(t, trace), e, job) ==> e.now >= time
    decreases |trace|
  {
    if trace != [] {
      var before, last := trace[..|trace| - 1], trace[|trace| - 1];
      forall k | 0 <= k < |before| ensures !TakesJob(After(t, before[..k]), before[k], job) {
        assert before[..k] == trace[..k];
      }
      ClaimedWhenDue(t, job, time, before, e);
      OutcomesAreFinal(t, before, job);
      QueuedStays(After(t, before), last, job);
    }
    ClaimTakesOldest(After(t, trace), e.now);
    if TakesJob(After(t, trace), e, job) {
      assert Eligible(After(t, trace), e.now, job);
      assert Eligible(t, e.now, job);
    }
  }
}
