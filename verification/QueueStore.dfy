/**
  The store, statement by statement.  A transaction works on a private copy of the
  tables and assigns it back only at its commit; returning earlier is its rollback.
*/
module QueueStore {
  import opened Text
  import opened Queue
  import QueueRuns

  datatype StoreError = InvalidArgument | NoJob | InvalidTransition | ConstraintViolation

  /** A job row together with its primary key. */
  datatype JobRecord = JobRecord(id: int, row: Job)

  /** A claimed job, with the run reserved for the caller. */
  datatype Claimed = Claimed(id: int, row: Job, runId: int)

  class Store {
    var jobs: map<int, Job>
    var runs: map<int, Run>
    var commands: map<int, Command>
    var nextJob: int
    var nextRun: int
    var nextCommand: int

    function Contents(): Tables
      reads this
    {
      Tables(jobs, runs, commands, nextJob, nextRun, nextCommand)
    }

    ghost predicate Valid()
      reads this
    {
      Inv(Contents())
    }

    constructor ()
      ensures Valid() && Contents() == EMPTY
    {
      jobs, runs, commands := map[], map[], map[];
      nextJob, nextRun, nextCommand := 1, 1, 1;
    }

    method Commit(tx: Tables)
      modifies this
      ensures Contents() == tx
    {
      jobs, runs, commands := tx.jobs, tx.runs, tx.commands;
      nextJob, nextRun, nextCommand := tx.nextJob, tx.nextRun, tx.nextCommand;
    }

    /** Idempotent on (watch, path, fingerprint): a duplicate returns the row already there. */
    method Enqueue(p: EnqueueParams, now: int) returns (r: Result<(JobRecord, bool), StoreError>)
      requires Valid()
      modifies this
      ensures Valid() && Contents() == Queue.Enqueue(old(Contents()), p, now)
      ensures r.Ok? <==> !Blank(p.watch) && !Blank(p.path) && p.maxRetries >= 0
      ensures r.Ok? ==> r.value.0.id in jobs && jobs[r.value.0.id] == r.value.0.row && SameKey(r.value.0.row, p)
      ensures r.Ok? ==> r.value.1 == (r.value.0.id !in old(jobs))
    {
      EnqueueKeepsInv(Contents(), p, now);
      if Blank(p.watch) || Blank(p.path) || p.maxRetries < 0 {
        return Err(InvalidArgument);
      }
      if !Recorded(Contents(), p) {
        var id := Insert(p, now);
        return Ok((JobRecord(id, jobs[id]), true));
      }
      var id :| id in jobs && SameKey(jobs[id], p);
      r := Ok((JobRecord(id, jobs[id]), false));
    }

    method Insert(p: EnqueueParams, now: int) returns (id: int)
      requires ValidParams(p) && Inv(Contents())
      modifies this`jobs, this`nextJob
      ensures id == old(nextJob) == nextJob - 1 && id !in old(jobs) && jobs == old(jobs)[id := NewJob(p, now)]
    {
      id := nextJob;
      jobs, nextJob := jobs[id := NewJob(p, now)], id + 1;
    }

    /** Reserves the oldest due job and creates its run, or reports that none is due. */
    method Claim(now: int) returns (r: Result<Claimed, StoreError>)
      requires Valid()
      modifies this
      ensures Valid() && Contents() == Queue.Claim(old(Contents()), now)
      ensures r.Ok? ==> IsOldest(old(Contents()), now, r.value.id)
      ensures r.Ok? ==> r.value.runId !in old(runs) && Current(Contents(), r.value.id, r.value.runId)
      ensures r.Ok? ==> r.value.row == jobs[r.value.id] && runs[r.value.runId].attempt == r.value.row.attempts
      ensures r.Err? ==> r.error == NoJob && forall i | i in old(jobs) :: !Eligible(old(Contents()), now, i)
    {
      QueueRuns.ClaimTakesOldest(Contents(), now);
      ClaimKeepsInv(Contents(), now);
      if !exists id | id in jobs :: IsOldest(Contents(), now, id) {
        return Err(NoJob);
      }
      var id :| id in jobs && IsOldest(Contents(), now, id);
      r := Reserve(id, now);
    }

    /** The transaction that takes the selected job: its update and the insert of its run commit together. */
    method Reserve(id: int, now: int) returns (r: Result<Claimed, StoreError>)
      requires Valid() && id in jobs && jobs[id].status == Queued
      modifies this
      ensures Contents() == ClaimJob(old(Contents()), id, now)
      ensures r.Ok? && r.value.id == id && r.value.runId !in old(runs) && Current(Contents(), id, r.value.runId)
      ensures r.value.row == jobs[id] && runs[r.value.runId].attempt == r.value.row.attempts
    {
      var tx := Contents();
      var j := tx.jobs[id];
      ClaimedPair(tx, id, now);
      ClaimNeverConflicts(tx, id);
      tx := tx.(jobs := tx.jobs[id := j.(status := Running, attempts := j.attempts + 1, updatedAt := now,
                                         startedAt := Some(now), finishedAt := None)]);
      if AttemptTaken(tx, id, tx.jobs[id].attempts) {
        return Err(ConstraintViolation);
      }
      var runId := tx.nextRun;
      tx := tx.(runs := tx.runs[runId := Run(id, tx.jobs[id].attempts, Running, "", now, None)], nextRun := runId + 1);
      Commit(tx);
      r := Ok(Claimed(id, jobs[id], runId));
    }

    /** Completes a running run and its job together, or changes nothing. */
    method Succeed(job: int, run: int, now: int) returns (r: Result<(), StoreError>)
      requires Valid()
      modifies this
      ensures Valid() && Contents() == Queue.Succeed(old(Contents()), job, run, now)
      ensures r.Ok? <==> Current(old(Contents()), job, run)
      ensures r.Err? ==> Contents() == old(Contents())
    {
      SucceedKeepsInv(Contents(), job, run, now);
      if job <= 0 || run <= 0 { return Err(InvalidArgument); }
      var tx := Contents();
      var updated := 0;
      if run in tx.runs && tx.runs[run].jobId == job && tx.runs[run].status == Running {
        tx := tx.(runs := tx.runs[run := tx.runs[run].(status := Succeeded, error := "", finishedAt := Some(now))]);
        updated := 1;
      }
      if updated != 1 { return Err(InvalidTransition); }
      updated := 0;
      if job in tx.jobs && tx.jobs[job].status == Running {
        tx := tx.(jobs := tx.jobs[job := tx.jobs[job].(status := Succeeded, lastError := "", updatedAt := now, finishedAt := Some(now))]);
        updated := 1;
      }
      if updated != 1 { return Err(InvalidTransition); }
      Commit(tx);
      r := Ok(());
    }

    /**
      Fails a run and requeues or fails its job.  Command rows are updated first, so a
      refusal found later has to undo them: the rollback is what the last clause states.
    */
    method Fail(job: int, run: int, reason: string, delay: int, now: int) returns (r: Result<Status, StoreError>)
      requires Valid()
      modifies this
      ensures Valid() && Contents() == Queue.Fail(old(Contents()), job, run, reason, delay, now)
      ensures r.Ok? <==> Current(old(Contents()), job, run)
      ensures r.Ok? ==> r.value == jobs[job].status && (r.value == Queued <==> jobs[job].attempts <= jobs[job].maxRetries)
      ensures r.Err? ==> Contents() == old(Contents())
    {
      FailKeepsInv(Contents(), job, run, reason, delay, now);
      if job <= 0 || run <= 0 { return Err(InvalidArgument); }
      var wait := if delay < 0 then 0 else delay;
      var tx := Contents();
      tx := tx.(commands := FailRunning(tx.commands, run, reason, now));
      var updated := 0;
      if run in tx.runs && tx.runs[run].jobId == job && tx.runs[run].status == Running {
        tx := tx.(runs := tx.runs[run := tx.runs[run].(status := Failed, error := reason, finishedAt := Some(now))]);
        updated := 1;
      }
      if updated != 1 { return Err(InvalidTransition); }
      if !(job in tx.jobs && tx.jobs[job].status == Running) { return Err(InvalidTransition); }
      var resulting, availableAt, finishedAt := Failed, now, Some(now);
      if tx.jobs[job].attempts <= tx.jobs[job].maxRetries {
        resulting, availableAt, finishedAt := Queued, now + wait, None;
      }
      tx := tx.(jobs := tx.jobs[job := tx.jobs[job].(
        status := resulting, availableAt := availableAt, lastError := reason, updatedAt := now, finishedAt := finishedAt)]);
      Commit(tx);
      r := Ok(resulting);
    }

    /** Fails all interrupted history and requeues every RUNNING job; the count is what it requeued. */
    method RecoverRunning(now: int) returns (count: nat)
      requires Valid()
      modifies this
      ensures Valid() && Contents() == Queue.Recover(old(Contents()), now)
      ensures count == |set j | j in old(jobs) && old(jobs)[j].status == Running|
      ensures forall j | j in jobs :: jobs[j].status != Running
    {
      RecoverKeepsInv(Contents(), now);
      var tx := Contents();
      tx := tx.(commands := map c | c in tx.commands :: RecoveredCommand(tx.commands[c], now));
      tx := tx.(runs := map r | r in tx.runs :: RecoveredRun(tx.runs[r], now));
      count := |set j | j in tx.jobs && tx.jobs[j].status == Running|;
      tx := tx.(jobs := map j | j in tx.jobs :: RecoveredJob(tx.jobs[j], now));
      Commit(tx);
    }

    /** Records a command before it starts, only under a RUNNING run. */
    method StartCommand(run: int, sequence: int, spec: CommandSpec, now: int) returns (r: Result<int, StoreError>)
      requires Valid()
      modifies this
      ensures Valid() && Contents() == Queue.StartCommand(old(Contents()), run, sequence, spec, now)
      ensures r.Ok? <==> StartAllowed(old(Contents()), run, sequence, spec)
      ensures r.Ok? ==> r.value == old(nextCommand) && r.value !in old(commands) && r.value in commands && commands[r.value].status == Running
    {
      StartCommandKeepsInv(Contents(), run, sequence, spec, now);
      if run <= 0 || sequence < 0 || Blank(spec.program) || spec.timeout < 0 { return Err(InvalidArgument); }
      if !(run in runs && runs[run].status == Running) { return Err(InvalidTransition); }
      if SequenceTaken(Contents(), run, sequence) { return Err(ConstraintViolation); }
      var id := nextCommand;
      commands, nextCommand := commands[id := Command(run, sequence, spec, Running, None, "", "", "", now, None)], id + 1;
      r := Ok(id);
    }

    /** Records the result of a RUNNING command. */
    method CompleteCommand(id: int, result: CommandResult, now: int) returns (r: Result<(), StoreError>)
      requires Valid()
      modifies this
      ensures Valid() && Contents() == Queue.CompleteCommand(old(Contents()), id, result, now)
      ensures r.Ok? <==> CompleteAllowed(old(Contents()), id, result)
    {
      CompleteCommandKeepsInv(Contents(), id, result, now);
      if id <= 0 || !(result.status == Succeeded || result.status == Failed) { return Err(InvalidArgument); }
      if !(id in commands && commands[id].status == Running) { return Err(InvalidTransition); }
      commands := commands[id := commands[id].(
        status := result.status, exitCode := Some(result.exitCode), stdout := result.stdout,
        stderr := result.stderr, error := result.error, finishedAt := Some(now))];
      r := Ok(());
    }
  }
}
