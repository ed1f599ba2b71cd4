/**
  The worker pool as code over the store.  Each method takes one step of the machine, for
  any worker; faults are injected around each store call.  ProcessJob runs one worker while
  the others, and whoever enqueues, take steps between its calls.
*/
module WorkerPool {
  import opened Text
  import opened Queue
  import QueueRuns
  import opened Worker
  import opened QueueStore

  /** What the executor reports: an error of its own, or how the process ended. */
  datatype Execution = Execution(error: Option<string>, exitCode: int, stdout: string, stderr: string)
  {
    predicate Clean() { error.None? && exitCode == 0 }
  }

  /**
    What the environment decides, per call of one worker: the clock, the store fault, the execution, and what
    others do before it.  Step k of a pipeline is call 2k, which records its start, and call 2k + 1, which
    records its result; `explain` is the text of an execution that failed.
  */
  datatype World = World(clock: nat -> int, fault: nat -> Fault, execution: nat -> Execution,
                         others: nat -> seq<(Label, int)>, explain: Execution -> string)
  {
    ghost predicate Healthy() {
      forall i: nat :: fault(i) == NoFault
    }

    /** What processJob records about the execution of step k. */
    function Result(k: nat): (r: CommandResult)
      ensures r.status == if execution(2 * k + 1).Clean() then Succeeded else Failed
    {
      var x := execution(2 * k + 1);
      if x.Clean() then CommandResult(Succeeded, x.exitCode, x.stdout, x.stderr, "")
      else CommandResult(Failed, x.exitCode, x.stdout, x.stderr, explain(x))
    }
  }

  /** The step is valid after template expansion, and the store accepts its program and timeout. */
  predicate Startable(step: Option<CommandSpec>) {
    step.Some? && !Blank(step.value.program) && step.value.timeout >= 0
  }

  /** Step k is executed, once its record is acknowledged. */
  predicate Executes(plan: Plan, world: World, k: nat)
    requires plan.Steps? && k < |plan.steps|
  {
    Startable(plan.steps[k]) && world.fault(2 * k) == NoFault
  }

  /** Step k is executed, exits with code 0, and that is recorded. */
  predicate Passes(plan: Plan, world: World, k: nat)
    requires plan.Steps? && k < |plan.steps|
  {
    Executes(plan, world, k) && world.execution(2 * k + 1).Clean() && world.fault(2 * k + 1) == NoFault
  }

  predicate AllPass(plan: Plan, world: World) {
    plan.Steps? && forall k | 0 <= k < |plan.steps| :: Passes(plan, world, k)
  }

  lemma HealthyPasses(plan: Plan, world: World)
    requires world.Healthy()
    ensures AllPass(plan, world) <==>
            plan.Steps? && forall k | 0 <= k < |plan.steps| :: Startable(plan.steps[k]) && world.execution(2 * k + 1).Clean()
  {
    if plan.Steps? {
      forall k | 0 <= k < |plan.steps|
        ensures Passes(plan, world, k) <==> Startable(plan.steps[k]) && world.execution(2 * k + 1).Clean()
      {
      }
    }
  }

  /** The first k steps are attempted: all but the last pass, and the last does not unless it is the end. */
  ghost predicate Attempted(plan: Plan, world: World, k: nat) {
    if plan.Unresolved? then k == 0
    else
      && k <= |plan.steps|
      && (forall j | 0 <= j && j + 1 < k :: Passes(plan, world, j))
      && (k == |plan.steps| || (k > 0 && !Passes(plan, world, k - 1)))
  }

  /** The run's command for step k is finished, with this result. */
  ghost predicate ResultRecorded(t: Tables, run: int, k: nat, result: CommandResult) {
    exists c | c in t.commands :: Carries(t.commands[c], run, k, result)
  }

  predicate Carries(c: Command, run: int, k: nat, result: CommandResult) {
    c.runId == run && c.sequence == k + 1 && c.status == result.status && c.status != Running && c.exitCode == Some(result.exitCode)
    && c.stdout == result.stdout && c.stderr == result.stderr && c.error == result.error
  }

  /** Every execution of the first k steps whose result reached the store is recorded as it ended. */
  ghost predicate AllRecorded(t: Tables, run: int, plan: Plan, world: World, k: nat)
    requires plan.Steps? ==> k <= |plan.steps|
  {
    plan.Steps? ==> forall j | 0 <= j < k && Executes(plan, world, j) && world.fault(2 * j + 1) != Lost ::
      ResultRecorded(t, run, j, world.Result(j))
  }

  /** A step of another worker or of the queue's producer. */
  predicate Other(l: Label, w: nat) {
    match l
    case LClaim(v, _, _) => v != w
    case LAdvance(v, _) => v != w
    case LComplete(v, _, _) => v != w
    case LFail(v, _, _, _) => v != w
    case LEnqueue(_) => true
    case _ => false
  }

  // ---- What the steps do ----

  lemma ReachedMore(trace: seq<(Label, int)>, l: Label, now: int)
    ensures Reached(trace + [(l, now)]) == Next(Reached(trace), l, now)
  {
    assert (trace + [(l, now)])[..|trace|] == trace;
  }

  /** The step neither moves worker w nor changes the plan of the run it holds. */
  ghost predicate Leaves(p: System, u: System, w: nat) {
    w in p.workers && w in u.workers && u.workers[w] == p.workers[w]
    && (!p.workers[w].Idle? && p.workers[w].run in p.plans ==>
          p.workers[w].run in u.plans && u.plans[p.workers[w].run] == p.plans[p.workers[w].run])
  }

  lemma OthersLeave(p: System, l: Label, now: int, w: nat)
    requires SysInv(p) && w in p.workers && Other(l, w)
    ensures Leaves(p, Next(p, l, now), w)
  {
    match l
    case LClaim(v, plan, fault) => ClaimLeaves(p, l, now, w);
    case LAdvance(v, fault) => AdvanceLeaves(p, l, now, w);
    case LComplete(v, result, fault) =>
    case LFail(v, reason, delay, fault) =>
    case LEnqueue(params) =>
  }

  lemma ClaimLeaves(p: System, l: Label, now: int, w: nat)
    requires SysInv(p) && w in p.workers && Other(l, w) && l.LClaim?
    ensures Leaves(p, Next(p, l, now), w)
  {
    HolderOk(p, w);
  }

  lemma AdvanceLeaves(p: System, l: Label, now: int, w: nat)
    requires w in p.workers && Other(l, w) && l.LAdvance?
    ensures Leaves(p, Next(p, l, now), w)
  {
  }

  /** No transaction changes a run that has finished. */
  lemma FinishedRunsStand(t: Tables, e: Timed, run: int)
    requires Inv(t) && run in t.runs && t.runs[run].status != Running
    ensures run in Queue.Step(t, e).runs && Queue.Step(t, e).runs[run] == t.runs[run]
  {
    if e.event == EClaim && Oldest(t, e.now).Some? {
      assert run != t.nextRun;
    }
  }

  /** No transaction changes a command that has finished. */
  lemma FinishedCommandsStand(t: Tables, e: Timed, c: int)
    requires Inv(t) && c in t.commands && t.commands[c].status != Running
    ensures c in Queue.Step(t, e).commands && Queue.Step(t, e).commands[c] == t.commands[c]
  {
    if e.event.EStart? {
      assert c != t.nextCommand;
    }
  }

  /** Everything that is finished in t is the same in u. */
  ghost predicate Stands(t: Tables, u: Tables) {
    && (forall r | r in t.runs && t.runs[r].status != Running :: r in u.runs && u.runs[r] == t.runs[r])
    && (forall c | c in t.commands && t.commands[c].status != Running :: c in u.commands && u.commands[c] == t.commands[c])
    && (forall j | j in t.jobs && QueueRuns.Terminal(t.jobs[j]) :: j in u.jobs && u.jobs[j] == t.jobs[j])
  }

  lemma StepStands(t: Tables, e: Timed)
    requires Inv(t)
    ensures Stands(t, Queue.Step(t, e))
  {
    forall r | r in t.runs && t.runs[r].status != Running ensures r in Queue.Step(t, e).runs && Queue.Step(t, e).runs[r] == t.runs[r] {
      FinishedRunsStand(t, e, r);
    }
    forall c | c in t.commands && t.commands[c].status != Running
      ensures c in Queue.Step(t, e).commands && Queue.Step(t, e).commands[c] == t.commands[c]
    {
      FinishedCommandsStand(t, e, c);
    }
    forall j | j in t.jobs && QueueRuns.Terminal(t.jobs[j]) ensures j in Queue.Step(t, e).jobs && Queue.Step(t, e).jobs[j] == t.jobs[j] {
      QueueRuns.TerminalJobsAreFinal(t, e, j);
    }
  }

  /** Whatever is finished stays as it is, over every continuation of a run of the system. */
  lemma {:induction false} OutcomesStand(a: seq<(Label, int)>, b: seq<(Label, int)>)
    requires a <= b
    ensures Stands(Reached(a).tables, Reached(b).tables)
    decreases |b|
  {
    if |b| > |a| {
      var before, last := b[..|b| - 1], b[|b| - 1];
      OutcomesStand(a, before);
      EveryReachedKeeps(before);
      var e := StepsAreTransactions(Reached(before), last.0, last.1);
      if e.Some? {
        StepStands(Reached(before).tables, e.value);
      }
    } else {
      assert a == b;
    }
  }

  lemma RecordsStand(t: Tables, u: Tables, run: int, plan: Plan, world: World, k: nat)
    requires Stands(t, u) && (plan.Steps? ==> k <= |plan.steps|) && AllRecorded(t, run, plan, world, k)
    ensures AllRecorded(u, run, plan, world, k)
  {
    if plan.Steps? {
      forall j | 0 <= j < k && Executes(plan, world, j) && world.fault(2 * j + 1) != Lost
        ensures ResultRecorded(u, run, j, world.Result(j))
      {
        var c :| c in t.commands && Carries(t.commands[c], run, j, world.Result(j));
        assert c in u.commands && u.commands[c] == t.commands[c];
      }
    }
  }

  /** No worker holds the run. */
  ghost predicate Unheld(s: System, run: int) {
    run in s.tables.runs && forall v | v in s.workers :: !Holds(s.workers[v], run)
  }

  lemma ClaimKeepsUnheld(s: System, l: Label, now: int, run: int)
    requires SysInv(s) && l.LClaim? && Unheld(s, run)
    ensures var u := Next(s, l, now); Unheld(u, run) && u.tables.runs[run] == s.tables.runs[run]
  {
    assert run != s.tables.nextRun;
  }

  /** A run that nobody holds is left alone until the next recovery. */
  lemma UnheldStays(s: System, l: Label, now: int, w: nat, run: int)
    requires SysInv(s) && Other(l, w) && Unheld(s, run)
    ensures var u := Next(s, l, now); Unheld(u, run) && u.tables.runs[run] == s.tables.runs[run]
  {
    if l.LClaim? {
      ClaimKeepsUnheld(s, l, now, run);
    } else if l.LAdvance? {
      AdvanceKeepsUnheld(s, l, now, run);
    } else if !l.LEnqueue? && l.w in s.workers {
      assert !Holds(s.workers[l.w], run);
    }
  }

  lemma AdvanceKeepsUnheld(s: System, l: Label, now: int, run: int)
    requires l.LAdvance? && Unheld(s, run)
    ensures var u := Next(s, l, now); Unheld(u, run) && u.tables.runs[run] == s.tables.runs[run]
  {
    if l.w in s.workers {
      assert !Holds(s.workers[l.w], run);
    }
  }

  /** What a step of somebody else means for worker w. */
  lemma OtherStep(trace: seq<(Label, int)>, l: Label, now: int, w: nat)
    requires w in Reached(trace).workers && Other(l, w)
    ensures Leaves(Reached(trace), Next(Reached(trace), l, now), w)
    ensures KeepsUnheld(Reached(trace), Next(Reached(trace), l, now))
  {
    var p := Reached(trace);
    EveryReachedKeeps(trace);
    OthersLeave(p, l, now, w);
    forall run | Unheld(p, run)
      ensures Unheld(Next(p, l, now), run) && Next(p, l, now).tables.runs[run] == p.tables.runs[run]
    {
      UnheldStays(p, l, now, w, run);
    }
  }

  ghost predicate KeepsUnheld(s: System, u: System) {
    forall run | Unheld(s, run) :: Unheld(u, run) && u.tables.runs[run] == s.tables.runs[run]
  }

  /** The store accepts the next command of a run that a worker holds unless its program or timeout is bad. */
  lemma NextIsAllowed(s: System, w: nat, spec: CommandSpec)
    requires SysInv(s) && w in s.workers && s.workers[w].Between?
    ensures StartAllowed(s.tables, s.workers[w].run, s.workers[w].done + 1, spec) <==> Startable(Some(spec))
  {
    var Between(job, run, done) := s.workers[w];
    HolderOk(s, w);
    assert forall c | c in s.tables.commands :: CommandOk(s, s.tables.commands[c]);
  }

  lemma CompletionIsAllowed(s: System, w: nat, result: CommandResult)
    requires SysInv(s) && w in s.workers && s.workers[w].Executing? && (result.status == Succeeded || result.status == Failed)
    ensures var Executing(job, run, done, c) := s.workers[w];
            CompleteAllowed(s.tables, c, result) && s.tables.commands[c].runId == run && s.tables.commands[c].sequence == done + 1
  {
    HolderOk(s, w);
  }

  lemma CompletionIsRecorded(t: Tables, command: int, run: int, k: nat, result: CommandResult, now: int)
    requires CompleteAllowed(t, command, result) && t.commands[command].runId == run && t.commands[command].sequence == k + 1
    ensures ResultRecorded(CompleteCommand(t, command, result, now), run, k, result)
  {
    assert Carries(CompleteCommand(t, command, result, now).commands[command], run, k, result);
  }

  /** The worker lets go of its run, or moves on with it. */
  function Go(s: System, w: nat, phase: Phase): System { s.(workers := s.workers[w := phase]) }

  lemma FailEffect(s: System, w: nat, reason: string, delay: int, fault: Fault, now: int)
    requires w in s.workers && s.workers[w].Failing?
    ensures var Failing(job, run) := s.workers[w];
            Next(s, LFail(w, reason, delay, fault), now) ==
            Go(s, w, Idle).(tables := if fault == Lost then s.tables else Fail(s.tables, job, run, reason, delay, now))
  {
  }

  lemma CompleteEffect(s: System, w: nat, result: CommandResult, fault: Fault, now: int)
    requires w in s.workers && s.workers[w].Executing? && (result.status == Succeeded || result.status == Failed)
    ensures var Executing(job, run, done, c) := s.workers[w];
            var ok := result.status == Succeeded && fault == NoFault && CompleteAllowed(s.tables, c, result);
            Next(s, LComplete(w, result, fault), now) ==
            Go(s, w, if ok then Between(job, run, done + 1) else Failing(job, run)).(
              tables := if fault == Lost then s.tables else CompleteCommand(s.tables, c, result, now))
  {
  }

  lemma SucceedEffect(s: System, w: nat, fault: Fault, now: int)
    requires w in s.workers && s.workers[w].Between? && s.workers[w].run in s.plans && s.plans[s.workers[w].run].Steps?
    requires s.workers[w].done >= |s.plans[s.workers[w].run].steps|
    ensures var Between(job, run, done) := s.workers[w];
            Next(s, LAdvance(w, fault), now) ==
            Go(s, w, Idle).(tables := if fault == Lost then s.tables else Succeed(s.tables, job, run, now))
  {
  }

  lemma RejectEffect(s: System, w: nat, fault: Fault, now: int)
    requires w in s.workers && s.workers[w].Between? && s.workers[w].run in s.plans
    requires var Between(_, run, done) := s.workers[w];
             s.plans[run].Unresolved? || (done < |s.plans[run].steps| && s.plans[run].steps[done].None?)
    ensures var Between(job, run, done) := s.workers[w];
            Next(s, LAdvance(w, fault), now) == Go(s, w, Failing(job, run))
  {
  }

  lemma StartEffect(s: System, w: nat, spec: CommandSpec, fault: Fault, now: int)
    requires w in s.workers && s.workers[w].Between? && s.workers[w].run in s.plans && s.plans[s.workers[w].run].Steps?
    requires var Between(_, run, done) := s.workers[w]; done < |s.plans[run].steps| && s.plans[run].steps[done] == Some(spec)
    ensures var Between(job, run, done) := s.workers[w];
            var committed := fault != Lost && StartAllowed(s.tables, run, done + 1, spec);
            Next(s, LAdvance(w, fault), now) ==
            Go(s, w, if committed && fault == NoFault then Executing(job, run, done, s.tables.nextCommand) else Failing(job, run)).(
              tables := if committed then StartCommand(s.tables, run, done + 1, spec, now) else s.tables,
              depth := if committed then s.depth[run := done + 1] else s.depth)
  {
  }

  lemma ClaimEffect(s: System, w: nat, plan: Plan, fault: Fault, now: int)
    requires w in s.workers && s.workers[w].Idle?
    ensures var u, job, run := Next(s, LClaim(w, plan, fault), now), Oldest(s.tables, now), s.tables.nextRun;
            if job.None? || fault == Lost then u == s
            else
              var t := s.(tables := Claim(s.tables, now), depth := s.depth[run := 0]);
              u == if fault == Unacknowledged then t else Go(t, w, Between(job.value, run, 0)).(plans := s.plans[run := plan])
  {
  }

  class Pool {
    const store: Store
    var up: bool
    var workers: map<nat, Phase>     // where each worker's code stands
    var plans: map<int, Plan>        // the pipeline resolved for each run
    ghost var depth: map<int, nat>
    ghost var trace: seq<(Label, int)>

    ghost function Now(): System
      reads this, store
    {
      System(store.Contents(), up, workers, plans, depth)
    }

    /** The state is the one that the machine reaches by the steps recorded in trace. */
    ghost predicate Valid()
      reads this, store
    {
      Now() == Reached(trace)
    }

    /** So the store is in order too. */
    lemma StoreIsValid()
      requires Valid()
      ensures store.Valid()
    {
      EveryReachedKeeps(trace);
    }

    constructor (store: Store)
      requires store.Valid() && store.Contents() == EMPTY
      ensures Valid() && this.store == store && trace == []
    {
      this.store := store;
      up, workers, plans, depth, trace := false, map[], map[], map[], [];
    }

    ghost method Took(l: Label, now: int, before: System)
      requires before == Reached(trace) && Now() == Next(before, l, now)
      modifies this`trace
      ensures Valid() && trace == old(trace) + [(l, now)]
    {
      ReachedMore(trace, l, now);
      trace := trace + [(l, now)];
    }

    /** The daemon recovers interrupted work before it starts its workers; a recovery that fails starts none. */
    method Boot(n: nat, fault: Fault, now: int)
      requires Valid() && !up
      modifies this, store
      ensures Valid() && trace == old(trace) + [(LBoot(n, fault), now)]
    {
      ghost var before := Now();
      if fault != Lost {
        StoreIsValid();
        var _ := store.RecoverRunning(now);
      }
      if fault == NoFault {
        up, workers := true, IdleWorkers(n);
      }
      Took(LBoot(n, fault), now, before);
    }

    /** The store call of ClaimJob: the reserved job if the store acknowledged it. */
    method TryClaim(fault: Fault, now: int) returns (claimed: Option<Claimed>)
      requires store.Valid()
      modifies store
      ensures var job, run := Oldest(old(store.Contents()), now), old(store.nextRun);
              && store.Contents() == (if job.Some? && fault != Lost then Queue.Claim(old(store.Contents()), now) else old(store.Contents()))
              && (claimed.Some? <==> job.Some? && fault == NoFault)
              && (claimed.Some? ==> claimed.value.id == job.value && claimed.value.runId == run)
    {
      claimed := None;
      if fault != Lost {
        ghost var before := store.Contents();
        var r := store.Claim(now);
        ClaimAnswers(before, now, r);
        if r.Ok? && fault == NoFault {
          claimed := Some(r.value);
        }
      }
    }

    /** consume's claim; a claim that is not acknowledged leaves the run to recovery. */
    method ClaimJob(w: nat, plan: Plan, fault: Fault, now: int) returns (claimed: Option<Claimed>)
      requires Valid() && w in workers && workers[w].Idle?
      modifies this, store
      ensures Valid() && trace == old(trace) + [(LClaim(w, plan, fault), now)]
      ensures claimed.Some? ==>
                workers == old(workers)[w := Between(claimed.value.id, claimed.value.runId, 0)]
                && claimed.value.runId in plans && plans[claimed.value.runId] == plan
    {
      ghost var before := Now();
      ClaimEffect(before, w, plan, fault, now);
      StoreIsValid();
      if fault != Lost && Oldest(before.tables, now).Some? {
        depth := depth[store.nextRun := 0];
      }
      claimed := TryClaim(fault, now);
      if claimed.Some? {
        workers := workers[w := Between(claimed.value.id, claimed.value.runId, 0)];
        plans := plans[claimed.value.runId := plan];
      }
      Took(LClaim(w, plan, fault), now, before);
    }

    /** A step that the worker gives up before it calls the store: no pipeline, or a command that is invalid after expansion. */
    method Reject(w: nat, fault: Fault, now: int)
      requires Valid() && w in workers && workers[w].Between? && workers[w].run in plans
      requires var Between(_, run, done) := workers[w];
               plans[run].Unresolved? || (done < |plans[run].steps| && plans[run].steps[done].None?)
      modifies this
      ensures Valid() && trace == old(trace) + [(LAdvance(w, fault), now)]
      ensures plans == old(plans) && workers == old(workers)[w := Failing(old(workers)[w].job, old(workers)[w].run)]
    {
      ghost var before := Now();
      RejectEffect(before, w, fault, now);
      workers := workers[w := Failing(workers[w].job, workers[w].run)];
      Took(LAdvance(w, fault), now, before);
    }

    /** The store call of BeginCommand: the new row's ID if the store acknowledged it. */
    method TryStart(run: int, sequence: int, spec: CommandSpec, fault: Fault, now: int) returns (id: Option<int>)
      requires store.Valid()
      modifies store
      ensures var committed := fault != Lost && old(StartAllowed(store.Contents(), run, sequence, spec));
              && store.Contents() == (if committed then StartCommand(old(store.Contents()), run, sequence, spec, now) else old(store.Contents()))
              && id == if committed && fault == NoFault then Some(old(store.nextCommand)) else None
    {
      id := None;
      if fault != Lost {
        StartRefused(store.Contents(), run, sequence, spec, now);
        var r := store.StartCommand(run, sequence, spec, now);
        if r.Ok? && fault == NoFault {
          id := Some(r.value);
        }
      }
    }

    /** Records the command that is about to run. */
    method BeginCommand(w: nat, spec: CommandSpec, fault: Fault, now: int) returns (started: bool)
      requires Valid() && w in workers && workers[w].Between? && workers[w].run in plans && plans[workers[w].run].Steps?
      requires var Between(_, run, done) := workers[w]; done < |plans[run].steps| && plans[run].steps[done] == Some(spec)
      modifies this, store
      ensures Valid() && trace == old(trace) + [(LAdvance(w, fault), now)] && plans == old(plans)
      ensures var Between(job, run, done) := old(workers)[w];
              w in workers && if started then workers[w].Executing? && workers[w] == Executing(job, run, done, workers[w].command)
                              else workers[w] == Failing(job, run)
      ensures started <==> fault == NoFault && Startable(Some(spec))
    {
      ghost var before := Now();
      StartEffect(before, w, spec, fault, now);
      EveryReachedKeeps(trace);
      NextIsAllowed(before, w, spec);
      var Between(job, run, done) := workers[w];
      if fault != Lost && StartAllowed(before.tables, run, done + 1, spec) {
        depth := depth[run := done + 1];
      }
      var id := TryStart(run, done + 1, spec, fault, now);
      started := id.Some?;
      workers := workers[w := if started then Executing(job, run, done, id.value) else Failing(job, run)];
      Took(LAdvance(w, fault), now, before);
    }

    /** The store call of FinishCommand; the answer is whether the store acknowledged it. */
    method TryComplete(command: int, result: CommandResult, fault: Fault, now: int) returns (recorded: bool)
      requires store.Valid()
      modifies store
      ensures store.Contents() == if fault == Lost then old(store.Contents()) else CompleteCommand(old(store.Contents()), command, result, now)
      ensures recorded == (fault == NoFault && CompleteAllowed(old(store.Contents()), command, result))
    {
      recorded := false;
      if fault != Lost {
        var r := store.CompleteCommand(command, result, now);
        recorded := fault == NoFault && r.Ok?;
      }
    }

    /** Records the result of the command that ran. */
    method FinishCommand(w: nat, result: CommandResult, fault: Fault, now: int) returns (ok: bool)
      requires Valid() && w in workers && workers[w].Executing? && (result.status == Succeeded || result.status == Failed)
      modifies this, store
      ensures Valid() && trace == old(trace) + [(LComplete(w, result, fault), now)] && plans == old(plans)
      ensures var Executing(job, run, done, _) := old(workers)[w];
              w in workers && (workers[w] == if ok then Between(job, run, done + 1) else Failing(job, run))
              && (fault != Lost ==> ResultRecorded(store.Contents(), run, done, result))
      ensures ok <==> fault == NoFault && result.status == Succeeded
    {
      ghost var before := Now();
      CompleteEffect(before, w, result, fault, now);
      EveryReachedKeeps(trace);
      CompletionIsAllowed(before, w, result);
      var Executing(job, run, done, command) := workers[w];
      CompletionIsRecorded(before.tables, command, run, done, result, now);
      var recorded := TryComplete(command, result, fault, now);
      ok := recorded && result.status == Succeeded;
      workers := workers[w := if ok then Between(job, run, done + 1) else Failing(job, run)];
      Took(LComplete(w, result, fault), now, before);
    }

    /** failJob: whatever the store answers, the worker is free afterwards. */
    method FailJob(w: nat, reason: string, delay: int, fault: Fault, now: int)
      requires Valid() && w in workers && workers[w].Failing?
      modifies this, store
      ensures Valid() && trace == old(trace) + [(LFail(w, reason, delay, fault), now)]
      ensures workers == old(workers)[w := Idle]
      ensures var run := old(workers)[w].run;
              run in store.runs && store.runs[run].status == (if fault == Lost then Running else Failed)
              && (fault != Lost ==> store.runs[run].error == reason)
      ensures Unheld(Now(), old(workers)[w].run)
    {
      ghost var before := Now();
      FailEffect(before, w, reason, delay, fault, now);
      EveryReachedKeeps(trace);
      HeldAlone(before, w);
      var Failing(job, run) := workers[w];
      if fault != Lost {
        StoreIsValid();
        var _ := store.Fail(job, run, reason, delay, now);
      }
      workers := workers[w := Idle];
      Took(LFail(w, reason, delay, fault), now, before);
    }

    /** The last call of processJob. */
    method SucceedJob(w: nat, fault: Fault, now: int) returns (ok: bool)
      requires Valid() && w in workers && workers[w].Between? && workers[w].run in plans && plans[workers[w].run].Steps?
      requires workers[w].done >= |plans[workers[w].run].steps|
      modifies this, store
      ensures Valid() && trace == old(trace) + [(LAdvance(w, fault), now)]
      ensures workers == old(workers)[w := Idle] && (ok <==> fault == NoFault)
      ensures var Between(job, run, _) := old(workers)[w];
              run in store.runs && store.runs[run].status == (if fault == Lost then Running else Succeeded)
              && (fault != Lost ==> job in store.jobs && store.jobs[job].status == Succeeded)
      ensures Unheld(Now(), old(workers)[w].run)
    {
      ghost var before := Now();
      SucceedEffect(before, w, fault, now);
      EveryReachedKeeps(trace);
      HeldAlone(before, w);
      var Between(job, run, done) := workers[w];
      var r := Err(InvalidTransition);
      if fault != Lost {
        StoreIsValid();
        r := store.Succeed(job, run, now);
      }
      ok := fault == NoFault && r.Ok?;
      workers := workers[w := Idle];
      Took(LAdvance(w, fault), now, before);
    }

    method Enqueue(params: EnqueueParams, now: int)
      requires Valid()
      modifies this, store
      ensures Valid() && trace == old(trace) + [(LEnqueue(params), now)]
    {
      ghost var before := Now();
      StoreIsValid();
      var _ := store.Enqueue(params, now);
      Took(LEnqueue(params), now, before);
    }

    /** A step that is not due does not happen. */
    predicate Due(l: Label)
      reads this
    {
      match l
      case LClaim(v, _, _) => v in workers && workers[v].Idle?
      case LAdvance(v, _) => v in workers && workers[v].Between? && workers[v].run in plans
      case LComplete(v, result, _) =>
        v in workers && workers[v].Executing? && (result.status == Succeeded || result.status == Failed)
      case LFail(v, _, _, _) => v in workers && workers[v].Failing?
      case _ => true
    }

    /** Worker v comes to its next call: Succeed, a command, or nothing to call at all. */
    method Advance(v: nat, fault: Fault, now: int)
      requires Valid() && Due(LAdvance(v, fault))
      modifies this, store
      ensures Valid() && trace == old(trace) + [(LAdvance(v, fault), now)]
    {
      var Between(_, run, done) := workers[v];
      if plans[run].Steps? && done >= |plans[run].steps| {
        var _ := SucceedJob(v, fault, now);
      } else if plans[run].Steps? && plans[run].steps[done].Some? {
        var _ := BeginCommand(v, plans[run].steps[done].value, fault, now);
      } else {
        Reject(v, fault, now);
      }
    }

    /** One step of another worker, or an enqueue. */
    method Act(w: nat, l: Label, now: int)
      requires Valid() && Other(l, w)
      modifies this, store
      ensures Valid() && trace == if old(Due(l)) then old(trace) + [(l, now)] else old(trace)
    {
      if Due(l) {
        match l
        case LClaim(v, plan, fault) => var _ := ClaimJob(v, plan, fault, now);
        case LAdvance(v, fault) => Advance(v, fault, now);
        case LComplete(v, result, fault) => var _ := FinishCommand(v, result, fault, now);
        case LFail(v, reason, delay, fault) => FailJob(v, reason, delay, fault, now);
        case LEnqueue(params) => Enqueue(params, now);
      }
    }

    /** Everybody but worker w moves. */
    method Others(w: nat, moves: seq<(Label, int)>)
      requires Valid() && w in workers
      modifies this, store
      ensures Valid() && old(trace) <= trace
      ensures Leaves(old(Now()), Now(), w) && KeepsUnheld(old(Now()), Now())
    {
      for i := 0 to |moves|
        invariant Valid() && old(trace) <= trace
        invariant Leaves(old(Now()), Now(), w) && KeepsUnheld(old(Now()), Now())
      {
        var (l, now) := moves[i];
        if Other(l, w) {
          OtherStep(trace, l, now, w);
          ReachedMore(trace, l, now);
          Act(w, l, now);
        }
      }
    }

    /** Where worker w stands: it holds the run in this phase, and the plan is known. */
    ghost predicate At(w: nat, phase: Phase, plan: Plan)
      reads this
    {
      w in workers && workers[w] == phase && !phase.Idle? && phase.run in plans && plans[phase.run] == plan
    }

    /** Worker w waits for its own call while the others move. */
    method Meanwhile(w: nat, phase: Phase, ghost plan: Plan, moves: seq<(Label, int)>)
      requires Valid() && At(w, phase, plan)
      modifies this, store
      ensures Valid() && old(trace) <= trace && At(w, phase, plan)
    {
      Others(w, moves);
    }

    /** The process of step `done` is running; when it ends, its result is recorded. */
    method RunCommand(w: nat, job: int, run: int, done: nat, ghost plan: Plan, world: World) returns (ok: bool)
      requires Valid() && w in workers && workers[w].Executing?
      requires At(w, Executing(job, run, done, workers[w].command), plan)
      modifies this, store
      ensures Valid() && old(trace) <= trace
      ensures At(w, if ok then Between(job, run, done + 1) else Failing(job, run), plan)
      ensures ok <==> world.execution(2 * done + 1).Clean() && world.fault(2 * done + 1) == NoFault
      ensures world.fault(2 * done + 1) != Lost ==> ResultRecorded(store.Contents(), run, done, world.Result(done))
    {
      Meanwhile(w, workers[w], plan, world.others(2 * done + 1));
      var x := world.execution(2 * done + 1);
      var status, errorText := Succeeded, "";
      if x.error.Some? || x.exitCode != 0 {
        status, errorText := Failed, world.explain(x);
      }
      var result := CommandResult(status, x.exitCode, x.stdout, x.stderr, errorText);
      ok := FinishCommand(w, result, world.fault(2 * done + 1), world.clock(2 * done + 1));
    }

    /** One pipeline step: validate it, record it, run it, record its result. */
    method AttemptStep(w: nat, job: int, run: int, done: nat, plan: Plan, world: World) returns (ok: bool)
      requires Valid() && At(w, Between(job, run, done), plan) && plan.Steps? && done < |plan.steps|
      modifies this, store
      ensures Valid() && old(trace) <= trace
      ensures At(w, if ok then Between(job, run, done + 1) else Failing(job, run), plan)
      ensures ok <==> Passes(plan, world, done)
      ensures Executes(plan, world, done) && world.fault(2 * done + 1) != Lost ==> ResultRecorded(store.Contents(), run, done, world.Result(done))
    {
      if plan.steps[done] == None {
        Reject(w, NoFault, world.clock(2 * done));
        return false;
      }
      Meanwhile(w, Between(job, run, done), plan, world.others(2 * done));
      ok := BeginCommand(w, plan.steps[done].value, world.fault(2 * done), world.clock(2 * done));
      if ok {
        ok := RunCommand(w, job, run, done, plan, world);
      }
    }

    /** The same step, after the earlier ones. */
    method NextStep(w: nat, job: int, run: int, done: nat, plan: Plan, world: World) returns (ok: bool)
      requires Valid() && At(w, Between(job, run, done), plan) && plan.Steps? && done < |plan.steps|
      requires AllRecorded(store.Contents(), run, plan, world, done)
      modifies this, store
      ensures Valid() && old(trace) <= trace
      ensures At(w, if ok then Between(job, run, done + 1) else Failing(job, run), plan)
      ensures (ok <==> Passes(plan, world, done)) && AllRecorded(store.Contents(), run, plan, world, done + 1)
    {
      ghost var earlier, before := trace, store.Contents();
      ok := AttemptStep(w, job, run, done, plan, world);
      OutcomesStand(earlier, trace);
      RecordsStand(before, store.Contents(), run, plan, world, done);
    }

    /** The steps of the pipeline, until one of them fails; k is how many were attempted. */
    method RunPipeline(w: nat, job: int, run: int, plan: Plan, world: World) returns (failed: bool, k: nat)
      requires Valid() && At(w, Between(job, run, 0), plan)
      modifies this, store
      ensures Valid() && old(trace) <= trace && Attempted(plan, world, k) && (!failed ==> plan.Steps? && k == |plan.steps|)
      ensures At(w, if failed then Failing(job, run) else Between(job, run, k), plan)
      ensures (failed <==> !AllPass(plan, world)) && AllRecorded(store.Contents(), run, plan, world, k)
    {
      failed, k := plan.Unresolved?, 0;
      if failed {
        Reject(w, NoFault, world.clock(0));
        return;
      }
      while !failed && k < |plan.steps|
        invariant Valid() && old(trace) <= trace && k <= |plan.steps|
        invariant At(w, if failed then Failing(job, run) else Between(job, run, k), plan)
        invariant forall j | 0 <= j && j + (if failed then 1 else 0) < k :: Passes(plan, world, j)
        invariant failed ==> k > 0 && !Passes(plan, world, k - 1)
        invariant AllRecorded(store.Contents(), run, plan, world, k)
        decreases !failed, |plan.steps| - k
      {
        var done := NextStep(w, job, run, k, plan, world);
        failed, k := !done, k + 1;
      }
    }

    /** The call that ends a job: Succeed after the last step, or Fail. */
    method Settle(w: nat, job: int, run: int, failed: bool, k: nat, reason: string, delay: int, fault: Fault, now: int) returns (ok: bool)
      requires Valid() && w in workers && run in plans && (!failed ==> plans[run].Steps? && k == |plans[run].steps|)
      requires workers[w] == if failed then Failing(job, run) else Between(job, run, k)
      modifies this, store
      ensures Valid() && workers == old(workers)[w := Idle] && (ok <==> !failed && fault == NoFault)
      ensures trace == old(trace) + [(if failed then LFail(w, reason, delay, fault) else LAdvance(w, fault), now)]
      ensures run in store.runs && store.runs[run].status == (if fault == Lost then Running else if failed then Failed else Succeeded)
      ensures failed && fault != Lost ==> store.runs[run].error == reason
      ensures !failed && fault != Lost ==> job in store.jobs && store.jobs[job].status == Succeeded
      ensures Unheld(Now(), run)
    {
      if failed {
        FailJob(w, reason, delay, fault, now);
        ok := false;
      } else {
        ok := SucceedJob(w, fault, now);
      }
    }

    /** The end of a job while everybody else keeps moving before and after it. */
    method EndJob(w: nat, job: int, run: int, failed: bool, k: nat, ghost plan: Plan, reason: string, delay: int, world: World) returns (ok: bool)
      requires Valid() && At(w, if failed then Failing(job, run) else Between(job, run, k), plan)
      requires !failed ==> plan.Steps? && k == |plan.steps|
      modifies this, store
      ensures Valid() && old(trace) <= trace && w in workers && workers[w] == Idle && (ok <==> !failed && world.fault(2 * k) == NoFault)
      ensures run in store.runs && store.runs[run].status ==
                (if world.fault(2 * k) == Lost then Running else if failed then Failed else Succeeded)
      ensures failed && world.fault(2 * k) != Lost ==> store.runs[run].error == reason
      ensures !failed && world.fault(2 * k) != Lost ==> job in store.jobs && store.jobs[job].status == Succeeded
      ensures failed ==> (LFail(w, reason, delay, world.fault(2 * k)), world.clock(2 * k)) in trace[|old(trace)|..]
    {
      Meanwhile(w, if failed then Failing(job, run) else Between(job, run, k), plan, world.others(2 * k));
      ok := Settle(w, job, run, failed, k, reason, delay, world.fault(2 * k), world.clock(2 * k));
      ghost var settled := trace;
      Others(w, world.others(2 * k + 1));
      OutcomesStand(settled, trace);
      assert trace[|settled| - 1] == settled[|settled| - 1];
    }

    /**
      Runs a claimed job to the end while everybody else keeps moving; k is how many steps were attempted.  The
      error is nil exactly if the pipeline resolved, every step was started, exited with code 0 and was recorded,
      and the store acknowledged the end.  Each result that reached the store is in its command's row.  The run is
      SUCCEEDED if every step passed and FAILED for the given reason otherwise, unless the last call was lost.
    */
    method ProcessJob(w: nat, job: int, run: int, reason: string, delay: int, world: World) returns (ok: bool, ghost k: nat)
      requires Valid() && w in workers && workers[w] == Between(job, run, 0) && run in plans
      modifies this, store
      ensures Valid() && old(trace) <= trace && w in workers && workers[w] == Idle
      ensures Attempted(old(plans)[run], world, k) && AllRecorded(store.Contents(), run, old(plans)[run], world, k)
      ensures ok <==> AllPass(old(plans)[run], world) && world.fault(2 * k) == NoFault
      ensures world.Healthy() ==>
                var plan := old(plans)[run];
                ok <==> plan.Steps? && forall j | 0 <= j < |plan.steps| :: Startable(plan.steps[j]) && world.execution(2 * j + 1).Clean()
      ensures run in store.runs && store.runs[run].status ==
                (if world.fault(2 * k) == Lost then Running else if AllPass(old(plans)[run], world) then Succeeded else Failed)
      ensures store.runs[run].status == Failed ==> store.runs[run].error == reason
      ensures store.runs[run].status == Succeeded ==> job in store.jobs && store.jobs[job].status == Succeeded
      ensures !AllPass(old(plans)[run], world) ==> (LFail(w, reason, delay, world.fault(2 * k)), world.clock(2 * k)) in trace[|old(trace)|..]
    {
      ghost var plan := plans[run];
      var failed, attempted := RunPipeline(w, job, run, plans[run], world);
      k := attempted;
      ghost var earlier, before := trace, store.Contents();
      ok := EndJob(w, job, run, failed, attempted, plan, reason, delay, world);
      OutcomesStand(earlier, trace);
      RecordsStand(before, store.Contents(), run, plan, world, k);
      LaterPart(old(trace), earlier, trace);
      if world.Healthy() {
        HealthyPasses(plan, world);
      }
    }
  }

  lemma LaterPart<T>(a: seq<T>, b: seq<T>, c: seq<T>)
    requires a <= b <= c
    ensures forall x | x in c[|b|..] :: x in c[|a|..]
  {
    forall x | x in c[|b|..] ensures x in c[|a|..] {
      var i :| 0 <= i < |c| - |b| && c[|b|..][i] == x;
      assert c[|a|..][|b| - |a| + i] == x;
    }
  }

  lemma StartRefused(t: Tables, run: int, sequence: int, spec: CommandSpec, now: int)
    ensures !StartAllowed(t, run, sequence, spec) ==> StartCommand(t, run, sequence, spec, now) == t
  {
  }

  /** What the store's answer to Claim says about the row it chose. */
  lemma ClaimAnswers(t: Tables, now: int, r: Result<Claimed, StoreError>)
    requires Inv(t)
    requires r.Ok? ==> IsOldest(t, now, r.value.id) && r.value.runId !in t.runs && r.value.runId in Queue.Claim(t, now).runs
    requires r.Err? ==> forall i | i in t.jobs :: !Eligible(t, now, i)
    ensures Oldest(t, now) == if r.Ok? then Some(r.value.id) else None
    ensures r.Ok? ==> r.value.runId == t.nextRun
    ensures r.Err? ==> Queue.Claim(t, now) == t
  {
    QueueRuns.ClaimTakesOldest(t, now);
  }
}
