/**
  The durable job queue: three SQLite tables and the seven transactions on them.

  A transaction is one atomic step on a value of type Tables.  Each is given by a
  guard and an effect; a refused transaction rolls back and leaves the tables as
  they were.  QueueStore shows that the statement-by-statement code computes them.
*/
module Queue {
  import opened Text

  datatype Status = Queued | Running | Succeeded | Failed

  datatype Job = Job(
    watch: string, path: string, fingerprint: string,
    status: Status, attempts: nat, maxRetries: nat, availableAt: int, lastError: string,
    createdAt: int, updatedAt: int, startedAt: Option<int>, finishedAt: Option<int>)

  datatype Run = Run(
    jobId: int, attempt: nat, status: Status, error: string, startedAt: int, finishedAt: Option<int>)

  /** The immutable metadata of a command, recorded before it starts. */
  datatype CommandSpec = CommandSpec(
    name: string, program: string, args: seq<string>, env: seq<string>, workingDir: string, timeout: int)

  datatype CommandResult = CommandResult(status: Status, exitCode: int, stdout: string, stderr: string, error: string)

  datatype Command = Command(
    runId: int, sequence: int, spec: CommandSpec, status: Status,
    exitCode: Option<int>, stdout: string, stderr: string, error: string, startedAt: int, finishedAt: Option<int>)

  datatype Tables = Tables(
    jobs: map<int, Job>, runs: map<int, Run>, commands: map<int, Command>,
    nextJob: int, nextRun: int, nextCommand: int)

  const EMPTY := Tables(map[], map[], map[], 1, 1, 1)

  datatype EnqueueParams = EnqueueParams(
    watch: string, path: string, fingerprint: string, maxRetries: int, availableAt: Option<int>)

  const RECOVERY_REASON := "interrupted by daemon restart"

  /////////////// Enqueue ///////////////

  predicate ValidParams(p: EnqueueParams) {
    !Blank(p.watch) && !Blank(p.path) && p.maxRetries >= 0
  }

  predicate SameKey(j: Job, p: EnqueueParams) {
    j.watch == p.watch && j.path == p.path && j.fingerprint == p.fingerprint
  }

  predicate Recorded(t: Tables, p: EnqueueParams) {
    exists id | id in t.jobs :: SameKey(t.jobs[id], p)
  }

  function NewJob(p: EnqueueParams, now: int): Job
    requires ValidParams(p)
  {
    Job(p.watch, p.path, p.fingerprint, Queued, 0, p.maxRetries,
        if p.availableAt.Some? then p.availableAt.value else now, "", now, now, None, None)
  }

  function Enqueue(t: Tables, p: EnqueueParams, now: int): Tables {
    if !ValidParams(p) || Recorded(t, p) then t
    else t.(jobs := t.jobs[t.nextJob := NewJob(p, now)], nextJob := t.nextJob + 1)
  }

  /////////////// Claim ///////////////

  predicate Eligible(t: Tables, now: int, id: int) {
    id in t.jobs && t.jobs[id].status == Queued && t.jobs[id].availableAt <= now
  }

  /** ORDER BY available_at, id. */
  predicate NotAfter(t: Tables, a: int, b: int)
    requires a in t.jobs && b in t.jobs
  {
    t.jobs[a].availableAt < t.jobs[b].availableAt || (t.jobs[a].availableAt == t.jobs[b].availableAt && a <= b)
  }

  predicate IsOldest(t: Tables, now: int, id: int) {
    Eligible(t, now, id) && forall o | o in t.jobs && Eligible(t, now, o) :: NotAfter(t, id, o)
  }

  predicate AttemptTaken(t: Tables, job: int, attempt: nat) {
    exists r | r in t.runs :: t.runs[r].jobId == job && t.runs[r].attempt == attempt
  }

  /** Takes job id; the caller has selected it.  UNIQUE (job_id, attempt) makes the insert fail on a taken attempt. */
  function ClaimJob(t: Tables, id: int, now: int): Tables
    requires id in t.jobs
  {
    var j := t.jobs[id];
    if AttemptTaken(t, id, j.attempts + 1) then t
    else t.(jobs := t.jobs[id := j.(status := Running, attempts := j.attempts + 1, updatedAt := now,
                                    startedAt := Some(now), finishedAt := None)],
            runs := t.runs[t.nextRun := Run(id, j.attempts + 1, Running, "", now, None)],
            nextRun := t.nextRun + 1)
  }

  ghost function Oldest(t: Tables, now: int): Option<int> {
    if exists id :: IsOldest(t, now, id) then
      var id :| IsOldest(t, now, id); Some(id)
    else None
  }

  ghost function Claim(t: Tables, now: int): Tables {
    match Oldest(t, now)
    case None => t
    case Some(id) => ClaimJob(t, id, now)
  }

  /////////////// Succeed and Fail ///////////////

  /** The row guards of both Succeed and Fail: a RUNNING run of this job, and the job RUNNING too. */
  predicate Current(t: Tables, job: int, run: int) {
    && job > 0 && run > 0
    && run in t.runs && t.runs[run].jobId == job && t.runs[run].status == Running
    && job in t.jobs && t.jobs[job].status == Running
  }

  function Succeed(t: Tables, job: int, run: int, now: int): Tables {
    if !Current(t, job, run) then t
    else t.(
      runs := t.runs[run := t.runs[run].(status := Succeeded, error := "", finishedAt := Some(now))],
      jobs := t.jobs[job := t.jobs[job].(status := Succeeded, lastError := "", updatedAt := now, finishedAt := Some(now))])
  }

  function FailedCommand(c: Command, reason: string, now: int): Command {
    c.(status := Failed, exitCode := Some(-1), error := reason, finishedAt := Some(now))
  }

  function FailedJob(j: Job, reason: string, delay: int, now: int): Job {
    if j.attempts <= j.maxRetries then
      j.(status := Queued, availableAt := now + (if delay < 0 then 0 else delay),
         lastError := reason, updatedAt := now, finishedAt := None)
    else
      j.(status := Failed, availableAt := now, lastError := reason, updatedAt := now, finishedAt := Some(now))
  }

  /** Fails this run's RUNNING commands and leaves all others. */
  function FailRunning(commands: map<int, Command>, run: int, reason: string, now: int): (r: map<int, Command>)
    ensures r.Keys == commands.Keys
    ensures forall c | c in commands :: SameCommand(commands[c], r[c])
  {
    map c | c in commands ::
      if commands[c].runId == run && commands[c].status == Running
      then FailedCommand(commands[c], reason, now) else commands[c]
  }

  function Fail(t: Tables, job: int, run: int, reason: string, delay: int, now: int): Tables {
    if !Current(t, job, run) then t
    else t.(
      commands := FailRunning(t.commands, run, reason, now),
      runs := t.runs[run := t.runs[run].(status := Failed, error := reason, finishedAt := Some(now))],
      jobs := t.jobs[job := FailedJob(t.jobs[job], reason, delay, now)])
  }

  /////////////// Recovery ///////////////

  function RecoveredJob(j: Job, now: int): Job {
    if j.status == Running then
      j.(status := Queued, availableAt := now, lastError := RECOVERY_REASON, updatedAt := now, finishedAt := None)
    else j
  }

  function RecoveredRun(r: Run, now: int): Run {
    if r.status == Running then r.(status := Failed, error := RECOVERY_REASON, finishedAt := Some(now)) else r
  }

  function RecoveredCommand(c: Command, now: int): Command {
    if c.status == Running then FailedCommand(c, RECOVERY_REASON, now) else c
  }

  function Recover(t: Tables, now: int): Tables {
    t.(jobs := map id | id in t.jobs :: RecoveredJob(t.jobs[id], now),
       runs := map id | id in t.runs :: RecoveredRun(t.runs[id], now),
       commands := map id | id in t.commands :: RecoveredCommand(t.commands[id], now))
  }

  /////////////// Commands ///////////////

  predicate SequenceTaken(t: Tables, run: int, sequence: int) {
    exists c | c in t.commands :: t.commands[c].runId == run && t.commands[c].sequence == sequence
  }

  predicate StartAllowed(t: Tables, run: int, sequence: int, spec: CommandSpec) {
    && run > 0 && sequence >= 0 && !Blank(spec.program) && spec.timeout >= 0
    && run in t.runs && t.runs[run].status == Running
    && !SequenceTaken(t, run, sequence)
  }

  function StartCommand(t: Tables, run: int, sequence: int, spec: CommandSpec, now: int): Tables {
    if !StartAllowed(t, run, sequence, spec) then t
    else t.(
      commands := t.commands[t.nextCommand := Command(run, sequence, spec, Running, None, "", "", "", now, None)],
      nextCommand := t.nextCommand + 1)
  }

  predicate CompleteAllowed(t: Tables, id: int, result: CommandResult) {
    id > 0 && (result.status == Succeeded || result.status == Failed)
    && id in t.commands && t.commands[id].status == Running
  }

  function CompleteCommand(t: Tables, id: int, result: CommandResult, now: int): Tables {
    if !CompleteAllowed(t, id, result) then t
    else t.(commands := t.commands[id := t.commands[id].(
      status := result.status, exitCode := Some(result.exitCode), stdout := result.stdout,
      stderr := result.stderr, error := result.error, finishedAt := Some(now))])
  }

  /////////////// Steps and runs ///////////////

  datatype Event =
    | EEnqueue(params: EnqueueParams)
    | EClaim
    | ESucceed(job: int, run: int)
    | EFail(job: int, run: int, reason: string, delay: int)
    | ERecover
    | EStart(run: int, sequence: int, spec: CommandSpec)
    | EComplete(command: int, result: CommandResult)

  datatype Timed = At(event: Event, now: int)

  ghost function Step(t: Tables, e: Timed): Tables {
    match e.event
    case EEnqueue(p) => Enqueue(t, p, e.now)
    case EClaim => Claim(t, e.now)
    case ESucceed(j, r) => Succeed(t, j, r, e.now)
    case EFail(j, r, reason, delay) => Fail(t, j, r, reason, delay, e.now)
    case ERecover => Recover(t, e.now)
    case EStart(r, s, spec) => StartCommand(t, r, s, spec, e.now)
    case EComplete(c, result) => CompleteCommand(t, c, result, e.now)
  }

  /** Any interleaving of transactions; a crash between two of them loses nothing committed. */
  ghost function After(t: Tables, trace: seq<Timed>): Tables
    decreases |trace|
  {
    if trace == [] then t else Step(After(t, trace[..|trace| - 1]), trace[|trace| - 1])
  }

  /////////////// The invariant across the tables ///////////////

  ghost predicate IdsBelow(t: Tables) {
    && t.nextJob > 0 && t.nextRun > 0 && t.nextCommand > 0
    && (forall id | id in t.jobs :: 0 < id < t.nextJob)
    && (forall id | id in t.runs :: 0 < id < t.nextRun)
    && (forall id | id in t.commands :: 0 < id < t.nextCommand)
  }

  /** UNIQUE (watch_name, path, fingerprint), UNIQUE (job_id, attempt) and UNIQUE (run_id, sequence). */
  ghost predicate Unique(t: Tables) {
    && (forall a, b | a in t.jobs && b in t.jobs && t.jobs[a].watch == t.jobs[b].watch
          && t.jobs[a].path == t.jobs[b].path && t.jobs[a].fingerprint == t.jobs[b].fingerprint :: a == b)
    && (forall a, b | a in t.runs && b in t.runs && t.runs[a].jobId == t.runs[b].jobId
          && t.runs[a].attempt == t.runs[b].attempt :: a == b)
    && (forall a, b | a in t.commands && b in t.commands && t.commands[a].runId == t.commands[b].runId
          && t.commands[a].sequence == t.commands[b].sequence :: a == b)
  }

  ghost predicate JobRows(t: Tables) {
    forall id | id in t.jobs :: JobRow(t.jobs[id])
  }

  predicate JobRow(j: Job) {
    && !Blank(j.watch) && !Blank(j.path)
    && (j.status == Failed ==> j.attempts > j.maxRetries)
    && (j.status == Running || j.status == Succeeded ==> j.attempts > 0)
  }

  /** What the newest run of a job in this status must be. */
  function NewestRunStatus(s: Status): Status {
    match s case Queued => Failed case Running => Running case Succeeded => Succeeded case Failed => Failed
  }

  predicate RunRow(t: Tables, r: Run) {
    && r.jobId in t.jobs
    && 1 <= r.attempt <= t.jobs[r.jobId].attempts
    && r.status == (if r.attempt < t.jobs[r.jobId].attempts then Failed else NewestRunStatus(t.jobs[r.jobId].status))
  }

  ghost predicate RunRows(t: Tables) {
    forall id | id in t.runs :: RunRow(t, t.runs[id])
  }

  /** Together with RunRows: the runs of a job are numbered exactly 1..attempts. */
  ghost predicate RunsComplete(t: Tables) {
    forall j, a: nat | j in t.jobs && 1 <= a <= t.jobs[j].attempts :: AttemptTaken(t, j, a)
  }

  ghost predicate CommandRows(t: Tables) {
    forall id | id in t.commands :: t.commands[id].runId in t.runs && t.commands[id].status != Queued
  }

  ghost predicate Inv(t: Tables) {
    IdsBelow(t) && Unique(t) && JobRows(t) && RunRows(t) && RunsComplete(t) && CommandRows(t)
  }

  /////////////// Every transaction keeps it ///////////////

  lemma EnqueueKeepsInv(t: Tables, p: EnqueueParams, now: int)
    requires Inv(t)
    ensures Inv(Enqueue(t, p, now))
  {
    var u := Enqueue(t, p, now);
    if ValidParams(p) && !Recorded(t, p) {
      forall a, b | a in u.jobs && b in u.jobs && u.jobs[a].watch == u.jobs[b].watch
          && u.jobs[a].path == u.jobs[b].path && u.jobs[a].fingerprint == u.jobs[b].fingerprint
        ensures a == b
      {
        assert a in t.jobs ==> !SameKey(t.jobs[a], p);
        assert b in t.jobs ==> !SameKey(t.jobs[b], p);
      }
      SameRuns(t, u);
    }
  }

  /** AttemptTaken looks only at the runs. */
  lemma SameRuns(t: Tables, u: Tables)
    requires forall r | r in t.runs :: r in u.runs && u.runs[r].jobId == t.runs[r].jobId && u.runs[r].attempt == t.runs[r].attempt
    ensures forall j, a: nat | AttemptTaken(t, j, a) :: AttemptTaken(u, j, a)
  {
    forall j, a: nat | AttemptTaken(t, j, a)
      ensures AttemptTaken(u, j, a)
    {
      var r :| r in t.runs && t.runs[r].jobId == j && t.runs[r].attempt == a;
      assert r in u.runs;
    }
  }

  /** Claim's insert never hits UNIQUE (job_id, attempt). */
  lemma ClaimNeverConflicts(t: Tables, id: int)
    requires Inv(t) && id in t.jobs
    ensures !AttemptTaken(t, id, t.jobs[id].attempts + 1)
  {
    assert forall r | r in t.runs :: RunRow(t, t.runs[r]);
  }

  lemma ClaimJobRows(t: Tables, id: int, now: int)
    requires IdsBelow(t) && JobRows(t) && RunRows(t)
    requires id in t.jobs && t.jobs[id].status == Queued && !AttemptTaken(t, id, t.jobs[id].attempts + 1)
    ensures IdsBelow(ClaimJob(t, id, now)) && JobRows(ClaimJob(t, id, now)) && RunRows(ClaimJob(t, id, now))
  {
    var u := ClaimJob(t, id, now);
    forall r | r in u.runs
      ensures RunRow(u, u.runs[r])
    {
      if r != t.nextRun { assert RunRow(t, t.runs[r]); }
    }
  }

  lemma ClaimJobUnique(t: Tables, id: int, now: int)
    requires IdsBelow(t) && Unique(t) && id in t.jobs && !AttemptTaken(t, id, t.jobs[id].attempts + 1)
    ensures Unique(ClaimJob(t, id, now))
  {
  }

  lemma ClaimJobKeepsInv(t: Tables, id: int, now: int)
    requires Inv(t) && id in t.jobs && t.jobs[id].status == Queued
    ensures Inv(ClaimJob(t, id, now))
  {
    ClaimNeverConflicts(t, id);
    ClaimJobRows(t, id, now);
    ClaimJobUnique(t, id, now);
    var u := ClaimJob(t, id, now);
    SameRuns(t, u);
    assert u.runs[t.nextRun].jobId == id;
    assert AttemptTaken(u, id, t.jobs[id].attempts + 1);
  }

  /** A claimed job is RUNNING under a fresh run that carries its new attempt number. */
  lemma ClaimedPair(t: Tables, id: int, now: int)
    requires Inv(t) && id in t.jobs && t.jobs[id].status == Queued
    ensures var u := ClaimJob(t, id, now);
      t.nextRun !in t.runs && Current(u, id, t.nextRun) && u.runs[t.nextRun].attempt == u.jobs[id].attempts
  {
    ClaimNeverConflicts(t, id);
  }

  lemma ClaimKeepsInv(t: Tables, now: int)
    requires Inv(t)
    ensures Inv(Claim(t, now))
  {
    match Oldest(t, now)
    case None =>
    case Some(id) => ClaimJobKeepsInv(t, id, now);
  }

  /** Only status columns moved: rows, keys and numbering are those of t, and each row is still well formed. */
  ghost predicate Moves(t: Tables, u: Tables) {
    && u.nextJob == t.nextJob && u.nextRun == t.nextRun && u.nextCommand == t.nextCommand
    && u.jobs.Keys == t.jobs.Keys && u.runs.Keys == t.runs.Keys && u.commands.Keys == t.commands.Keys
    && (forall id | id in t.jobs :: SameJob(t.jobs[id], u.jobs[id]) && JobRow(u.jobs[id]))
    && (forall id | id in t.runs :: SameRun(t.runs[id], u.runs[id]) && RunRow(u, u.runs[id]))
    && (forall id | id in t.commands :: SameCommand(t.commands[id], u.commands[id]))
  }

  predicate SameJob(a: Job, b: Job) {
    a.watch == b.watch && a.path == b.path && a.fingerprint == b.fingerprint && a.attempts == b.attempts && a.maxRetries == b.maxRetries
  }

  predicate SameRun(a: Run, b: Run) {
    a.jobId == b.jobId && a.attempt == b.attempt
  }

  predicate SameCommand(a: Command, b: Command) {
    a.runId == b.runId && a.sequence == b.sequence && a.spec == b.spec && (a.status != Queued ==> b.status != Queued)
  }

  lemma MovesKeepInv(t: Tables, u: Tables)
    requires Inv(t) && Moves(t, u)
    ensures Inv(u)
  {
    MovesKeepUnique(t, u);
    assert forall id | id in t.runs :: SameRun(t.runs[id], u.runs[id]);
    SameRuns(t, u);
  }

  lemma MovesKeepUnique(t: Tables, u: Tables)
    requires Unique(t) && Moves(t, u)
    ensures Unique(u)
  {
    assert forall id | id in t.jobs :: SameJob(t.jobs[id], u.jobs[id]);
    assert forall id | id in t.runs :: SameRun(t.runs[id], u.runs[id]);
    assert forall id | id in t.commands :: SameCommand(t.commands[id], u.commands[id]);
  }

  /** Only `run` can hold the newest attempt of `job`. */
  ghost predicate OnlyNewest(t: Tables, job: int, run: int)
    requires job in t.jobs
  {
    forall r | r in t.runs && r != run && t.runs[r].jobId == job :: t.runs[r].attempt < t.jobs[job].attempts
  }

  /** Under the invariant a RUNNING run is its job's newest, so a live pair is determined by either half. */
  lemma RunningRunIsNewest(t: Tables, run: int)
    requires Inv(t) && run in t.runs && t.runs[run].status == Running
    ensures t.runs[run].jobId in t.jobs
    ensures t.jobs[t.runs[run].jobId].status == Running && t.runs[run].attempt == t.jobs[t.runs[run].jobId].attempts
    ensures Current(t, t.runs[run].jobId, run) && OnlyNewest(t, t.runs[run].jobId, run)
  {
    assert forall r | r in t.runs :: RunRow(t, t.runs[r]);
  }

  /** One job and its newest run change status together; nothing else moves but statuses of commands. */
  lemma PairMoves(t: Tables, u: Tables, job: int, run: int, j: Job, r: Run)
    requires JobRows(t) && RunRows(t) && Current(t, job, run) && OnlyNewest(t, job, run)
    requires u == t.(jobs := t.jobs[job := j], runs := t.runs[run := r], commands := u.commands)
    requires u.commands.Keys == t.commands.Keys
    requires forall c | c in t.commands :: SameCommand(t.commands[c], u.commands[c])
    requires SameJob(t.jobs[job], j) && JobRow(j) && SameRun(t.runs[run], r) && r.status == NewestRunStatus(j.status)
    ensures Moves(t, u)
  {
    forall id | id in t.runs
      ensures SameRun(t.runs[id], u.runs[id]) && RunRow(u, u.runs[id])
    {
      assert RunRow(t, t.runs[id]);
    }
  }

  lemma SucceedMoves(t: Tables, job: int, run: int, now: int)
    requires JobRows(t) && RunRows(t) && Current(t, job, run) && OnlyNewest(t, job, run)
    ensures Moves(t, Succeed(t, job, run, now))
  {
    var u := Succeed(t, job, run, now);
    PairMoves(t, u, job, run, u.jobs[job], u.runs[run]);
  }

  lemma FailMoves(t: Tables, job: int, run: int, reason: string, delay: int, now: int)
    requires JobRows(t) && RunRows(t) && Current(t, job, run) && OnlyNewest(t, job, run)
    ensures Moves(t, Fail(t, job, run, reason, delay, now))
  {
    var u := Fail(t, job, run, reason, delay, now);
    assert JobRow(t.jobs[job]);
    PairMoves(t, u, job, run, u.jobs[job], u.runs[run]);
  }

  lemma RecoverMoves(t: Tables, now: int)
    requires JobRows(t) && RunRows(t)
    ensures Moves(t, Recover(t, now))
  {
    var u := Recover(t, now);
    forall id | id in t.runs
      ensures SameRun(t.runs[id], u.runs[id]) && RunRow(u, u.runs[id])
    {
      assert RunRow(t, t.runs[id]);
    }
  }

  lemma RecoverKeepsInv(t: Tables, now: int)
    requires Inv(t)
    ensures Inv(Recover(t, now))
    ensures forall j | j in Recover(t, now).jobs :: Recover(t, now).jobs[j].status != Running
  {
    RecoverMoves(t, now);
    MovesKeepInv(t, Recover(t, now));
  }

  lemma CompleteMoves(t: Tables, id: int, result: CommandResult, now: int)
    requires JobRows(t) && RunRows(t)
    ensures Moves(t, CompleteCommand(t, id, result, now))
  {
    assert forall r | r in t.runs :: RunRow(t, t.runs[r]);
  }

  lemma CompleteCommandKeepsInv(t: Tables, id: int, result: CommandResult, now: int)
    requires Inv(t)
    ensures Inv(CompleteCommand(t, id, result, now))
  {
    CompleteMoves(t, id, result, now);
    MovesKeepInv(t, CompleteCommand(t, id, result, now));
  }

  lemma StartCommandKeepsInv(t: Tables, run: int, sequence: int, spec: CommandSpec, now: int)
    requires Inv(t)
    ensures Inv(StartCommand(t, run, sequence, spec, now))
  {
    var u := StartCommand(t, run, sequence, spec, now);
    var v := u.(commands := t.commands, nextCommand := t.nextCommand);
    assert v == t;
    assert RunRows(u) by { assert forall r | r in t.runs :: RunRow(t, t.runs[r]) && RunRow(u, u.runs[r]); }
    SameRuns(t, u);
  }

  lemma SucceedKeepsInv(t: Tables, job: int, run: int, now: int)
    requires Inv(t)
    ensures Inv(Succeed(t, job, run, now))
  {
    if Current(t, job, run) {
      RunningRunIsNewest(t, run);
      SucceedMoves(t, job, run, now);
      MovesKeepInv(t, Succeed(t, job, run, now));
    }
  }

  lemma FailKeepsInv(t: Tables, job: int, run: int, reason: string, delay: int, now: int)
    requires Inv(t)
    ensures Inv(Fail(t, job, run, reason, delay, now))
  {
    if Current(t, job, run) {
      RunningRunIsNewest(t, run);
      FailMoves(t, job, run, reason, delay, now);
      MovesKeepInv(t, Fail(t, job, run, reason, delay, now));
    }
  }

  lemma StepKeepsInv(t: Tables, e: Timed)
    requires Inv(t)
    ensures Inv(Step(t, e))
  {
    match e.event
    case EEnqueue(p) => EnqueueKeepsInv(t, p, e.now);
    case EClaim => ClaimKeepsInv(t, e.now);
    case ESucceed(j, r) => SucceedKeepsInv(t, j, r, e.now);
    case EFail(j, r, reason, delay) => FailKeepsInv(t, j, r, reason, delay, e.now);
    case ERecover => RecoverKeepsInv(t, e.now);
    case EStart(r, s, spec) => StartCommandKeepsInv(t, r, s, spec, e.now);
    case EComplete(c, result) => CompleteCommandKeepsInv(t, c, result, e.now);
  }

  /** Main result: the history across jobs and runs is consistent after every interleaving. */
  lemma {:induction false} EveryRunKeepsInv(trace: seq<Timed>)
    ensures Inv(After(EMPTY, trace))
    decreases |trace|
  {
    if trace != [] {
      EveryRunKeepsInv(trace[..|trace| - 1]);
      StepKeepsInv(After(EMPTY, trace[..|trace| - 1]), trace[|trace| - 1]);
    }
  }
}
