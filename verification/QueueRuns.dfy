/**
  What the queue promises over whole runs: a consistent attempt history, final
  outcomes, an attempt budget, and bounded overtaking.
*/
module QueueRuns {
  import opened Text
  import opened Queue

  /////////////// Attempt history ///////////////

  /** The runs of a job are numbered exactly 1..attempts, and only the newest can be anything but FAILED. */
  lemma RunHistory(trace: seq<Timed>, job: int)
    requires job in After(EMPTY, trace).jobs
    ensures var t := After(EMPTY, trace); var j := t.jobs[job];
      && (forall a: nat :: 1 <= a <= j.attempts <==> AttemptTaken(t, job, a))
      && (forall r, s | r in t.runs && s in t.runs && t.runs[r].jobId == t.runs[s].jobId == job
            && t.runs[r].attempt == t.runs[s].attempt :: r == s)
      && (forall r | r in t.runs && t.runs[r].jobId == job ::
            && (t.runs[r].status == Running <==> t.runs[r].attempt == j.attempts && j.status == Running)
            && (t.runs[r].status == Succeeded <==> t.runs[r].attempt == j.attempts && j.status == Succeeded)
            && t.runs[r].status != Queued)
  {
    EveryRunKeepsInv(trace);
    var t := After(EMPTY, trace);
    assert forall r | r in t.runs :: RunRow(t, t.runs[r]);
  }

  predicate Terminal(j: Job) {
    j.status == Succeeded || j.status == Failed
  }

  predicate SameIdentity(a: Job, b: Job) {
    a.watch == b.watch && a.path == b.path && a.fingerprint == b.fingerprint && a.maxRetries == b.maxRetries
  }

  datatype Change = Same | Claimed | Requeued | Finished | Interrupted

  /** The only ways a transaction can change the state of an existing job. */
  ghost predicate Changed(a: Job, b: Job, c: Change) {
    match c
    case Same => b == a
    case Claimed => a.status == Queued && b.status == Running && b.attempts == a.attempts + 1
    case Requeued => a.status == Running && b.status == Queued && b.attempts == a.attempts && a.attempts <= a.maxRetries
    case Finished => a.status == Running && Terminal(b) && b.attempts == a.attempts
    case Interrupted => a.status == Running && b.status == Queued && b.attempts == a.attempts
  }

  lemma ClaimedRow(t: Tables, now: int, job: int)
    requires Inv(t) && job in t.jobs
    ensures job in Claim(t, now).jobs
    ensures var a, b := t.jobs[job], Claim(t, now).jobs[job];
            if Oldest(t, now) == Some(job) then SameIdentity(a, b) && Changed(a, b, Claimed) else b == a
  {
    if Oldest(t, now) == Some(job) {
      ClaimNeverConflicts(t, job);
    }
  }

  /** Each transaction changes an existing job in one of these ways, and only Recover interrupts. */
  lemma RowChange(t: Tables, e: Timed, job: int) returns (c: Change)
    requires Inv(t) && job in t.jobs
    ensures job in Step(t, e).jobs && SameIdentity(t.jobs[job], Step(t, e).jobs[job])
    ensures Changed(t.jobs[job], Step(t, e).jobs[job], c)
    ensures c == Interrupted ==> e.event == ERecover
    ensures e.event == ERecover ==> c == Same || c == Interrupted
    ensures c == Claimed <==> e.event == EClaim && Oldest(t, e.now) == Some(job)
  {
    c := Same;
    match e.event
    case EEnqueue(p) =>
    case EClaim =>
      ClaimedRow(t, e.now, job);
      if Oldest(t, e.now) == Some(job) { c := Claimed; }
    case ESucceed(j, r) => if Current(t, j, r) && j == job { c := Finished; }
    case EFail(j, r, _, _) =>
      if Current(t, j, r) && j == job { c := if t.jobs[job].attempts <= t.jobs[job].maxRetries then Requeued else Finished; }
    case ERecover => if t.jobs[job].status == Running { c := Interrupted; }
    case EStart(_, _, _) =>
    case EComplete(_, _) =>
  }

  /** No transaction touches a job that has SUCCEEDED or FAILED, and no row is ever deleted or renamed. */
  lemma TerminalJobsAreFinal(t: Tables, e: Timed, job: int)
    requires Inv(t) && job in t.jobs
    ensures job in Step(t, e).jobs
    ensures Terminal(t.jobs[job]) ==> Step(t, e).jobs[job] == t.jobs[job]
    ensures SameIdentity(t.jobs[job], Step(t, e).jobs[job])
  {
    var _ := RowChange(t, e, job);
  }

  lemma {:induction false} OutcomesAreFinal(t: Tables, trace: seq<Timed>, job: int)
    requires Inv(t) && job in t.jobs
    ensures Inv(After(t, trace)) && job in After(t, trace).jobs
    ensures SameIdentity(t.jobs[job], After(t, trace).jobs[job])
    ensures Terminal(t.jobs[job]) ==> After(t, trace).jobs[job] == t.jobs[job]
    decreases |trace|
  {
    if trace != [] {
      var before := trace[..|trace| - 1];
      OutcomesAreFinal(t, before, job);
      StepKeepsInv(After(t, before), trace[|trace| - 1]);
      TerminalJobsAreFinal(After(t, before), trace[|trace| - 1], job);
    }
  }

  /** A job is FAILED only after its last permitted retry. */
  lemma FailedMeansExhausted(trace: seq<Timed>, job: int)
    requires job in After(EMPTY, trace).jobs && After(EMPTY, trace).jobs[job].status == Failed
    ensures After(EMPTY, trace).jobs[job].attempts > After(EMPTY, trace).jobs[job].maxRetries
  {
    EveryRunKeepsInv(trace);
    assert JobRow(After(EMPTY, trace).jobs[job]);
  }

  /////////////// Attempt budget ///////////////

  /** How often recovery requeued this job. */
  ghost function Recoveries(trace: seq<Timed>, job: int): nat
    decreases |trace|
  {
    if trace == [] then 0
    else
      var before := trace[..|trace| - 1];
      var t := After(EMPTY, before);
      Recoveries(before, job)
      + if trace[|trace| - 1].event == ERecover && job in t.jobs && t.jobs[job].status == Running then 1 else 0
  }

  /** Attempts are paid for by retries, by the first try, or by a recovery. */
  lemma {:induction false} AttemptBudget(trace: seq<Timed>, job: int)
    requires job in After(EMPTY, trace).jobs
    ensures var j := After(EMPTY, trace).jobs[job];
      j.attempts <= j.maxRetries + Recoveries(trace, job) + if j.status == Queued then 0 else 1
    decreases |trace|
  {
    var before, e := trace[..|trace| - 1], trace[|trace| - 1];
    var t := After(EMPTY, before);
    EveryRunKeepsInv(before);
    if job in t.jobs {
      AttemptBudget(before, job);
      var _ := RowChange(t, e, job);
    }
  }

  /** An upper bound on the state changes left to a job while nothing crashes. */
  function Remaining(j: Job): nat {
    var retries := if j.attempts <= j.maxRetries then j.maxRetries + 1 - j.attempts else 0;
    match j.status
    case Queued => 2 * (if retries == 0 then 1 else retries)
    case Running => 2 * retries + 1
    case Succeeded => 0
    case Failed => 0
  }

  function CountChanges(rows: seq<Job>): nat {
    if |rows| < 2 then 0
    else CountChanges(rows[..|rows| - 1]) + if rows[|rows| - 1] == rows[|rows| - 2] then 0 else 1
  }

  /** The rows this job takes, before the first event and after each one. */
  ghost function Rows(t: Tables, trace: seq<Timed>, job: int): (rows: seq<Job>)
    requires Inv(t) && job in t.jobs
    ensures |rows| == |trace| + 1
    ensures job in After(t, trace).jobs && rows[|trace|] == After(t, trace).jobs[job]
    decreases |trace|
  {
    OutcomesAreFinal(t, trace, job);
    if trace == [] then [t.jobs[job]]
    else Rows(t, trace[..|trace| - 1], job) + [After(t, trace).jobs[job]]
  }

  lemma RowsNext(t: Tables, trace: seq<Timed>, job: int)
    requires Inv(t) && job in t.jobs && trace != []
    ensures var before := trace[..|trace| - 1];
            && Inv(After(t, before)) && job in After(t, before).jobs && job in Step(After(t, before), trace[|trace| - 1]).jobs
            && Rows(t, trace, job) == Rows(t, before, job) + [Step(After(t, before), trace[|trace| - 1]).jobs[job]]
            && Rows(t, before, job)[|before|] == After(t, before).jobs[job]
  {
    OutcomesAreFinal(t, trace, job);
    OutcomesAreFinal(t, trace[..|trace| - 1], job);
  }

  lemma OneMoreRow(rows: seq<Job>, row: Job)
    requires rows != []
    ensures CountChanges(rows + [row]) == CountChanges(rows) + if row == rows[|rows| - 1] then 0 else 1
  {
    assert (rows + [row])[..|rows|] == rows;
  }

  /** Every change but an interruption uses up one of the remaining steps. */
  lemma ChangeIsPaid(a: Job, b: Job, c: Change)
    requires Changed(a, b, c) && SameIdentity(a, b) && c != Interrupted
    ensures Remaining(b) + (if b == a then 0 else 1) <= Remaining(a)
  {
  }

  /** Without crashes, every change of a job uses up its remaining steps: retries terminate. */
  lemma {:induction false} RetriesTerminate(t: Tables, trace: seq<Timed>, job: int)
    requires Inv(t) && job in t.jobs
    requires forall i | 0 <= i < |trace| :: trace[i].event != ERecover
    ensures CountChanges(Rows(t, trace, job)) + Remaining(Rows(t, trace, job)[|trace|]) <= Remaining(t.jobs[job])
    decreases |trace|
  {
    if trace != [] {
      var before, e := trace[..|trace| - 1], trace[|trace| - 1];
      RetriesTerminate(t, before, job);
      RowsNext(t, trace, job);
      var a, b := After(t, before).jobs[job], Step(After(t, before), e).jobs[job];
      var c := RowChange(After(t, before), e, job);
      ChangeIsPaid(a, b, c);
      OneMoreRow(Rows(t, before, job), b);
    }
  }

  /////////////// Bounded overtaking ///////////////

  /** The queued jobs that Claim's order puts before this one. */
  function Ahead(t: Tables, job: int): set<int>
    requires job in t.jobs
  {
    set i | i in t.jobs && i != job && t.jobs[i].status == Queued && NotAfter(t, i, job)
  }

  ghost predicate DefaultAvailability(e: Timed) {
    e.event.EEnqueue? ==> e.event.params.availableAt == None
  }

  ghost predicate Waiting(t: Tables, now: int, job: int) {
    job in t.jobs && t.jobs[job].status == Queued && t.jobs[job].availableAt < now
  }

  /** Some queued job is due, so the smallest one in Claim's order exists. */
  lemma {:induction false} OldestExists(t: Tables, due: set<int>, job: int) returns (id: int)
    requires job in due
    requires due <= t.jobs.Keys
    ensures id in due && forall o | o in due :: NotAfter(t, id, o)
    decreases due
  {
    id := job;
    if other :| other in due - {job} {
      id := OldestExists(t, due - {job}, other);
      if NotAfter(t, job, id) { id := job; }
      assert forall o | o in due :: o == job || o in due - {job};
    } else {
      assert forall o | o in due :: o !in due - {job};
    }
  }

  /** Claim returns ErrNoJob exactly when no queued job is due, and otherwise takes the oldest. */
  lemma ClaimTakesOldest(t: Tables, now: int)
    ensures Oldest(t, now) == None <==> forall i | i in t.jobs :: !Eligible(t, now, i)
    ensures forall id | Oldest(t, now) == Some(id) :: IsOldest(t, now, id)
    ensures forall id | IsOldest(t, now, id) :: Oldest(t, now) == Some(id)
  {
    if job :| job in t.jobs && Eligible(t, now, job) {
      var due := set i | i in t.jobs && Eligible(t, now, i);
      var id := OldestExists(t, due, job);
      assert IsOldest(t, now, id);
    }
  }

  /** While a due job waits, the set ahead of it never grows; a Claim takes it or one of them. */
  lemma AheadOnlyShrinks(t: Tables, e: Timed, job: int)
    requires Inv(t) && Waiting(t, e.now, job) && DefaultAvailability(e)
    ensures e.event == EClaim ==> Oldest(t, e.now).Some? && Oldest(t, e.now).value in Ahead(t, job) + {job}
    ensures Oldest(t, e.now) != Some(job) || e.event != EClaim ==>
      && job in Step(t, e).jobs && Step(t, e).jobs[job] == t.jobs[job]
      && Ahead(Step(t, e), job) <= Ahead(t, job)
      && (e.event == EClaim ==> Ahead(Step(t, e), job) == Ahead(t, job) - {Oldest(t, e.now).value})
  {
    ClaimTakesOldest(t, e.now);
    var c := RowChange(t, e, job);
    if c == Same {
      NobodyOvertakes(t, e, job);
      if e.event == EClaim {
        ClaimTakesOneAhead(t, e.now, job);
      }
    }
  }

  lemma NobodyOvertakes(t: Tables, e: Timed, job: int)
    requires Inv(t) && Waiting(t, e.now, job) && DefaultAvailability(e)
    requires job in Step(t, e).jobs && Step(t, e).jobs[job] == t.jobs[job]
    ensures Ahead(Step(t, e), job) <= Ahead(t, job)
  {
    var u := Step(t, e);
    forall i | i in Ahead(u, job)
      ensures i in Ahead(t, job)
    {
      if i in t.jobs {
        var d := RowChange(t, e, i);
        if u.jobs[i] != t.jobs[i] { RequeuedIsLate(t, e, i); }
      }
    }
  }

  lemma ClaimTakesOneAhead(t: Tables, now: int, job: int)
    requires Inv(t) && job in t.jobs && Oldest(t, now).Some? && Oldest(t, now).value in Ahead(t, job)
    ensures job in Claim(t, now).jobs && Ahead(Claim(t, now), job) == Ahead(t, job) - {Oldest(t, now).value}
  {
    ClaimNeverConflicts(t, Oldest(t, now).value);
  }

  /** A transaction that makes a job available stamps it no earlier than its own clock. */
  lemma RequeuedIsLate(t: Tables, e: Timed, job: int)
    requires Inv(t) && job in t.jobs && job in Step(t, e).jobs
    requires Step(t, e).jobs[job] != t.jobs[job] && Step(t, e).jobs[job].status == Queued
    ensures Step(t, e).jobs[job].availableAt >= e.now
  {
  }

  function Claims(trace: seq<Timed>): nat {
    if trace == [] then 0
    else Claims(trace[..|trace| - 1]) + if trace[|trace| - 1].event == EClaim then 1 else 0
  }

  ghost predicate TakesJob(t: Tables, e: Timed, job: int) {
    e.event == EClaim && Oldest(t, e.now) == Some(job)
  }

  /** Until a due job is taken, every Claim uses up one of the jobs that were ahead of it. */
  lemma {:induction false} BoundedOvertaking(t: Tables, start: int, trace: seq<Timed>, job: int)
    requires Inv(t) && Waiting(t, start, job)
    requires forall i | 0 <= i < |trace| :: trace[i].now >= start && DefaultAvailability(trace[i])
    requires forall k | 0 <= k < |trace| :: !TakesJob(After(t, trace[..k]), trace[k], job)
    ensures job in After(t, trace).jobs && After(t, trace).jobs[job] == t.jobs[job]
    ensures Claims(trace) + |Ahead(After(t, trace), job)| <= |Ahead(t, job)|
    decreases |trace|
  {
    if trace != [] {
      var before, e := trace[..|trace| - 1], trace[|trace| - 1];
      forall k | 0 <= k < |before|
        ensures !TakesJob(After(t, before[..k]), before[k], job)
      {
        assert before[..k] == trace[..k];
      }
      BoundedOvertaking(t, start, before, job);
      var u := After(t, before);
      OutcomesAreFinal(t, before, job);
      assert !TakesJob(u, e, job);
      AheadOnlyShrinks(u, e, job);
      SubsetSize(Ahead(Step(u, e), job), Ahead(u, job));
    }
  }

  /** So a due job is taken within |Ahead| + 1 claims, whatever else happens. */
  lemma DueJobIsTaken(t: Tables, start: int, trace: seq<Timed>, job: int)
    requires Inv(t) && Waiting(t, start, job)
    requires forall i | 0 <= i < |trace| :: trace[i].now >= start && DefaultAvailability(trace[i])
    requires Claims(trace) > |Ahead(t, job)|
    ensures exists k | 0 <= k < |trace| :: TakesJob(After(t, trace[..k]), trace[k], job)
  {
    if forall k | 0 <= k < |trace| :: !TakesJob(After(t, trace[..k]), trace[k], job) {
      BoundedOvertaking(t, start, trace, job);
    }
  }
}
