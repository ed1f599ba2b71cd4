/**
  Workers over the store, as a state machine.  Each store call is one step and may
  fail before or after it committed; a crash drops every worker; a daemon recovers
  before it starts workers.  `plans` and `depth` only record what happened.
*/
module Worker {
  import opened Text
  import opened Queue
  import QueueRuns

  /** Resolve and template expansion for one job: a step that fails validation is None. */
  datatype Plan = Unresolved | Steps(steps: seq<Option<CommandSpec>>)

  datatype Phase =
    | Idle
    | Between(job: int, run: int, done: nat)                  // `done` commands finished; the next call is due
    | Executing(job: int, run: int, done: nat, command: int)  // command done + 1 is recorded and running
    | Failing(job: int, run: int)                             // failJob is due

  /** How a store call can go wrong: lost before the commit, or reported as failed after it. */
  datatype Fault = NoFault | Lost | Unacknowledged

  datatype System = System(
    tables: Tables,
    up: bool,
    workers: map<nat, Phase>,
    plans: map<int, Plan>,   // history: the plan a worker resolved for a run
    depth: map<int, nat>)    // history: how many commands a run has started

  datatype Label =
    | LClaim(w: nat, plan: Plan, fault: Fault)
    | LAdvance(w: nat, fault: Fault)
    | LComplete(w: nat, result: CommandResult, fault: Fault)
    | LFail(w: nat, reason: string, delay: int, fault: Fault)
    | LEnqueue(params: EnqueueParams)
    | LCrash
    | LBoot(workers: nat, fault: Fault)

  const START := System(EMPTY, false, map[], map[], map[])

  /** The tables after a call whose transaction would produce `committed`. */
  function Commit(t: Tables, committed: Tables, fault: Fault): Tables {
    if fault == Lost then t else committed
  }

  ghost function ClaimStep(s: System, w: nat, plan: Plan, fault: Fault, now: int): System
    requires w in s.workers
  {
    if Oldest(s.tables, now) == None || fault == Lost then s
    else
      var run := s.tables.nextRun;
      var t := s.(tables := Claim(s.tables, now), depth := s.depth[run := 0]);
      if fault == Unacknowledged then t
      else t.(workers := s.workers[w := Between(Oldest(s.tables, now).value, run, 0)], plans := s.plans[run := plan])
  }

  function AdvanceStep(s: System, w: nat, fault: Fault, now: int): System
    requires w in s.workers && s.workers[w].Between? && s.workers[w].run in s.plans
  {
    var Between(job, run, done) := s.workers[w];
    var plan := s.plans[run];
    var failing := s.(workers := s.workers[w := Failing(job, run)]);
    if plan.Unresolved? then failing
    else if done >= |plan.steps| then
      s.(tables := Commit(s.tables, Succeed(s.tables, job, run, now), fault), workers := s.workers[w := Idle])
    else if plan.steps[done].None? then failing
    else StartStep(s, w, plan.steps[done].value, fault, now)
  }

  function StartStep(s: System, w: nat, spec: CommandSpec, fault: Fault, now: int): System
    requires w in s.workers && s.workers[w].Between?
  {
    var Between(job, run, done) := s.workers[w];
    if fault == Lost || !StartAllowed(s.tables, run, done + 1, spec) then
      s.(workers := s.workers[w := Failing(job, run)])
    else
      s.(tables := StartCommand(s.tables, run, done + 1, spec, now),
         depth := s.depth[run := done + 1],
         workers := s.workers[w := if fault == NoFault then Executing(job, run, done, s.tables.nextCommand) else Failing(job, run)])
  }

  function CompleteStep(s: System, w: nat, result: CommandResult, fault: Fault, now: int): System
    requires w in s.workers && s.workers[w].Executing?
  {
    var Executing(job, run, done, command) := s.workers[w];
    var ok := fault == NoFault && CompleteAllowed(s.tables, command, result);
    s.(tables := Commit(s.tables, CompleteCommand(s.tables, command, result, now), fault),
       workers := s.workers[w := if ok && result.status == Succeeded then Between(job, run, done + 1) else Failing(job, run)])
  }

  function FailStep(s: System, w: nat, reason: string, delay: int, fault: Fault, now: int): System
    requires w in s.workers && s.workers[w].Failing?
  {
    var Failing(job, run) := s.workers[w];
    s.(tables := Commit(s.tables, Fail(s.tables, job, run, reason, delay, now), fault), workers := s.workers[w := Idle])
  }

  function IdleWorkers(n: nat): (workers: map<nat, Phase>)
    ensures forall w | w in workers :: workers[w] == Idle
    ensures |workers| == n && forall w | w in workers :: w < n
  {
    if n == 0 then map[] else IdleWorkers(n - 1)[n - 1 := Idle]
  }

  function BootStep(s: System, workers: nat, fault: Fault, now: int): System {
    var t := s.(tables := Commit(s.tables, Recover(s.tables, now), fault));
    if fault == NoFault then t.(up := true, workers := IdleWorkers(workers)) else t
  }

  ghost predicate Enabled(s: System, l: Label) {
    match l
    case LClaim(w, _, _) => w in s.workers && s.workers[w].Idle?
    case LAdvance(w, _) => w in s.workers && s.workers[w].Between? && s.workers[w].run in s.plans
    case LComplete(w, result, _) =>
      w in s.workers && s.workers[w].Executing? && (result.status == Succeeded || result.status == Failed)
    case LFail(w, _, _, _) => w in s.workers && s.workers[w].Failing?
    case LEnqueue(_) => true
    case LCrash => true
    case LBoot(_, _) => !s.up
  }

  ghost function Next(s: System, l: Label, now: int): System {
    if !Enabled(s, l) then s
    else match l
      case LClaim(w, plan, fault) => ClaimStep(s, w, plan, fault, now)
      case LAdvance(w, fault) => AdvanceStep(s, w, fault, now)
      case LComplete(w, result, fault) => CompleteStep(s, w, result, fault, now)
      case LFail(w, reason, delay, fault) => FailStep(s, w, reason, delay, fault, now)
      case LEnqueue(p) => s.(tables := Enqueue(s.tables, p, now))
      case LCrash => s.(up := false, workers := map[])
      case LBoot(n, fault) => BootStep(s, n, fault, now)
  }

  ghost function Reached(trace: seq<(Label, int)>): System
    decreases |trace|
  {
    if trace == [] then START
    else Next(Reached(trace[..|trace| - 1]), trace[|trace| - 1].0, trace[|trace| - 1].1)
  }

  /////////////// What every step keeps ///////////////

  predicate AllSucceeded(t: Tables, run: int) {
    forall c | c in t.commands && t.commands[c].runId == run :: t.commands[c].status == Succeeded
  }

  /** A command follows its run's plan, all before it succeeded, and it is RUNNING only under a RUNNING run. */
  predicate CommandOk(s: System, c: Command) {
    && c.runId in s.depth && c.runId in s.tables.runs
    && 1 <= c.sequence <= s.depth[c.runId]
    && (c.sequence < s.depth[c.runId] ==> c.status == Succeeded)
    && (c.status == Running ==> s.tables.runs[c.runId].status == Running)
    && c.runId in s.plans && s.plans[c.runId].Steps? && c.sequence <= |s.plans[c.runId].steps|
    && s.plans[c.runId].steps[c.sequence - 1] == Some(c.spec)
  }

  ghost predicate Started(t: Tables, run: int, n: nat) {
    forall i | 1 <= i <= n :: SequenceTaken(t, run, i)
  }

  ghost predicate RunOk(s: System, run: int)
    requires run in s.tables.runs
  {
    && run in s.depth
    && Started(s.tables, run, s.depth[run])
    && (s.tables.runs[run].status == Succeeded ==>
          run in s.plans && s.plans[run].Steps? && |s.plans[run].steps| == s.depth[run] && AllSucceeded(s.tables, run))
  }

  predicate Holds(p: Phase, run: int) {
    !p.Idle? && p.run == run
  }

  ghost predicate WorkerOk(s: System, p: Phase) {
    p.Idle? ||
    (&& Current(s.tables, p.job, p.run) && p.run in s.plans && p.run in s.depth
     && match p
        case Between(_, run, done) =>
          s.depth[run] == done && AllSucceeded(s.tables, run) && (s.plans[run].Steps? ==> done <= |s.plans[run].steps|)
        case Executing(_, run, done, command) =>
          && s.depth[run] == done + 1 && command in s.tables.commands
          && s.tables.commands[command].runId == run && s.tables.commands[command].sequence == done + 1
          && s.tables.commands[command].status == Running
        case Failing(_, _) => true)
  }

  /** No run is held by two workers. */
  ghost predicate Exclusive(s: System) {
    forall v, w | v in s.workers && w in s.workers && v != w && !s.workers[v].Idle? && !s.workers[w].Idle? ::
      s.workers[v].run != s.workers[w].run
  }

  ghost predicate SysInv(s: System) {
    && Inv(s.tables)
    && (forall c | c in s.tables.commands :: CommandOk(s, s.tables.commands[c]))
    && (forall r | r in s.tables.runs :: RunOk(s, r))
    && (forall w | w in s.workers :: WorkerOk(s, s.workers[w]))
    && Exclusive(s)
    && (!s.up ==> s.workers == map[])
  }

  /////////////// A step acts on one run ///////////////

  /** Both tables hold the same commands for this run. */
  predicate SameCommandsOf(t: Tables, u: Tables, run: int) {
    && (forall c | c in t.commands && t.commands[c].runId == run :: c in u.commands && u.commands[c] == t.commands[c])
    && (forall c | c in u.commands && u.commands[c].runId == run :: c in t.commands && t.commands[c] == u.commands[c])
  }

  predicate SameHistory<T(==)>(a: map<int, T>, b: map<int, T>, run: int) {
    (run in a <==> run in b) && (run in a ==> a[run] == b[run])
  }

  /** This run has the same rows and the same history in both systems. */
  predicate Untouched(s: System, u: System, run: int) {
    && SameHistory(s.tables.runs, u.tables.runs, run)
    && SameHistory(s.depth, u.depth, run) && SameHistory(s.plans, u.plans, run)
    && SameCommandsOf(s.tables, u.tables, run)
  }

  lemma StartedKept(t: Tables, u: Tables, run: int, n: nat)
    requires Started(t, run, n) && forall c | c in t.commands && t.commands[c].runId == run ::
      c in u.commands && u.commands[c].runId == run && u.commands[c].sequence == t.commands[c].sequence
    ensures Started(u, run, n)
  {
    forall i | 1 <= i <= n
      ensures SequenceTaken(u, run, i)
    {
      assert SequenceTaken(t, run, i);
    }
  }

  lemma RunFrame(s: System, u: System, run: int)
    requires run in s.tables.runs && RunOk(s, run) && Untouched(s, u, run)
    ensures RunOk(u, run)
  {
    StartedKept(s.tables, u.tables, run, s.depth[run]);
  }

  lemma WorkerFrame(s: System, u: System, p: Phase)
    requires WorkerOk(s, p) && Inv(u.tables)
    requires !p.Idle? ==> Untouched(s, u, p.run)
    ensures WorkerOk(u, p)
  {
    if !p.Idle? {
      assert u.tables.runs[p.run] == s.tables.runs[p.run];
      RunningRunIsNewest(u.tables, p.run);
    }
  }

  lemma FocusRuns(s: System, u: System, focus: int)
    requires forall run | run != focus :: Untouched(s, u, run)
    requires forall r | r in s.tables.runs :: RunOk(s, r)
    requires focus in u.tables.runs ==> RunOk(u, focus)
    ensures forall r | r in u.tables.runs :: RunOk(u, r)
  {
    forall r | r in u.tables.runs
      ensures RunOk(u, r)
    {
      if r != focus { assert Untouched(s, u, r); RunFrame(s, u, r); }
    }
  }

  lemma FocusCommands(s: System, u: System, focus: int)
    requires forall run | run != focus :: Untouched(s, u, run)
    requires forall c | c in s.tables.commands :: CommandOk(s, s.tables.commands[c])
    requires forall c | c in u.tables.commands && u.tables.commands[c].runId == focus :: CommandOk(u, u.tables.commands[c])
    ensures forall c | c in u.tables.commands :: CommandOk(u, u.tables.commands[c])
  {
    forall c | c in u.tables.commands
      ensures CommandOk(u, u.tables.commands[c])
    {
      var r := u.tables.commands[c].runId;
      if r != focus { assert Untouched(s, u, r); assert CommandOk(s, s.tables.commands[c]); }
    }
  }

  lemma FocusWorkers(s: System, u: System, w: nat, focus: int)
    requires Inv(u.tables) && forall run | run != focus :: Untouched(s, u, run)
    requires forall v | v in s.workers :: WorkerOk(s, s.workers[v])
    requires forall v | v in s.workers && v != w :: !Holds(s.workers[v], focus)
    requires u.workers.Keys == s.workers.Keys && forall v | v in s.workers && v != w :: u.workers[v] == s.workers[v]
    requires w in u.workers ==> WorkerOk(u, u.workers[w])
    ensures forall v | v in u.workers :: WorkerOk(u, u.workers[v])
  {
    forall v | v in u.workers
      ensures WorkerOk(u, u.workers[v])
    {
      if v != w {
        assert !Holds(s.workers[v], focus);
        if !s.workers[v].Idle? { assert Untouched(s, u, s.workers[v].run); }
        WorkerFrame(s, u, s.workers[v]);
      }
    }
  }

  lemma FocusExclusive(s: System, u: System, w: nat, focus: int)
    requires Exclusive(s) && w in s.workers
    requires forall v | v in s.workers && v != w :: !Holds(s.workers[v], focus)
    requires u.workers.Keys == s.workers.Keys && forall v | v in s.workers && v != w :: u.workers[v] == s.workers[v]
    requires u.workers[w].Idle? || u.workers[w].run == focus
    ensures Exclusive(u)
  {
  }

  /**
    The frame argument shared by all worker steps: worker w acts on run `focus`, and every
    other run is untouched.  What is left to show concerns that run and that worker only.
  */
  lemma FocusKeeps(s: System, u: System, w: nat, focus: int)
    requires SysInv(s) && w in s.workers && u.up == s.up && Inv(u.tables)
    requires forall run | run != focus :: Untouched(s, u, run)
    requires forall v | v in s.workers && v != w :: !Holds(s.workers[v], focus)
    requires u.workers.Keys == s.workers.Keys && forall v | v in s.workers && v != w :: u.workers[v] == s.workers[v]
    requires u.workers[w].Idle? || u.workers[w].run == focus
    requires focus in u.tables.runs ==> RunOk(u, focus)
    requires forall c | c in u.tables.commands && u.tables.commands[c].runId == focus :: CommandOk(u, u.tables.commands[c])
    requires WorkerOk(u, u.workers[w])
    ensures SysInv(u)
  {
    FocusRuns(s, u, focus);
    FocusCommands(s, u, focus);
    FocusWorkers(s, u, w, focus);
    FocusExclusive(s, u, w, focus);
  }

  /////////////// Each step ///////////////

  /** A fresh run with no commands appears, and worker w may take it. */
  lemma FreshRunKeeps(s: System, u: System, w: nat, job: int, phase: Phase)
    requires SysInv(s) && w in s.workers && s.workers[w].Idle? && Inv(u.tables)
    requires var run := s.tables.nextRun;
      && u.tables.commands == s.tables.commands && Current(u.tables, job, run)
      && u.tables.runs == s.tables.runs[run := u.tables.runs[run]]
      && u == s.(tables := u.tables, depth := s.depth[run := 0], plans := u.plans, workers := s.workers[w := phase])
      && (forall r | r != run :: SameHistory(s.plans, u.plans, r))
      && (phase == Idle || (phase == Between(job, run, 0) && run in u.plans))
    ensures SysInv(u)
  {
    var run := s.tables.nextRun;
    NotYetUsed(s);
    FreshUntouched(s, u, run);
    FreshRunOk(u, run);
    FocusKeeps(s, u, w, run);
  }

  lemma FreshUntouched(s: System, u: System, run: int)
    requires u.tables.commands == s.tables.commands && run in u.tables.runs
    requires u.tables.runs == s.tables.runs[run := u.tables.runs[run]] && u.depth == s.depth[run := 0]
    requires forall r | r != run :: SameHistory(s.plans, u.plans, r)
    ensures forall r | r != run :: Untouched(s, u, r)
  {
  }

  lemma FreshRunOk(u: System, run: int)
    requires run in u.tables.runs && u.tables.runs[run].status == Running && run in u.depth && u.depth[run] == 0
    ensures RunOk(u, run)
  {
  }

  lemma NotYetUsed(s: System)
    requires SysInv(s)
    ensures s.tables.nextRun !in s.tables.runs
    ensures forall c | c in s.tables.commands :: s.tables.commands[c].runId != s.tables.nextRun
    ensures forall v | v in s.workers :: !Holds(s.workers[v], s.tables.nextRun)
  {
    assert forall v | v in s.workers :: WorkerOk(s, s.workers[v]);
    assert forall c | c in s.tables.commands :: s.tables.commands[c].runId in s.tables.runs;
  }

  lemma ClaimTables(t: Tables, now: int)
    requires Inv(t) && Oldest(t, now).Some?
    ensures var u, run := Claim(t, now), t.nextRun;
      Inv(u) && Current(u, Oldest(t, now).value, run) && u.commands == t.commands && u.runs == t.runs[run := u.runs[run]]
  {
    var id := Oldest(t, now).value;
    ClaimKeepsInv(t, now);
    ClaimedPair(t, id, now);
    ClaimNeverConflicts(t, id);
  }

  lemma ClaimKeeps(s: System, w: nat, plan: Plan, fault: Fault, now: int)
    requires SysInv(s) && w in s.workers && s.workers[w].Idle? && fault != Lost && Oldest(s.tables, now).Some?
    ensures SysInv(ClaimStep(s, w, plan, fault, now))
  {
    ClaimTables(s.tables, now);
    var u := ClaimStep(s, w, plan, fault, now);
    FreshRunKeeps(s, u, w, Oldest(s.tables, now).value, u.workers[w]);
  }

  lemma HolderOk(s: System, w: nat)
    requires SysInv(s) && w in s.workers
    ensures WorkerOk(s, s.workers[w])
  {
  }

  /** Worker w holds `run` alone, so acting on it disturbs nobody. */
  lemma HeldAlone(s: System, w: nat)
    requires SysInv(s) && w in s.workers && !s.workers[w].Idle?
    ensures forall v | v in s.workers && v != w :: !Holds(s.workers[v], s.workers[w].run)
    ensures WorkerOk(s, s.workers[w]) && RunOk(s, s.workers[w].run)
    ensures forall c | c in s.tables.commands && s.tables.commands[c].runId == s.workers[w].run :: CommandOk(s, s.tables.commands[c])
  {
  }

  /** The step changes neither commands nor history: run and job reach their outcome, or only the phase moves. */
  lemma OutcomeKeeps(s: System, u: System, w: nat, phase: Phase)
    requires SysInv(s) && w in s.workers && !s.workers[w].Idle? && Inv(u.tables)
    requires var run := s.workers[w].run;
      && u == s.(tables := u.tables, workers := s.workers[w := phase]) && run in u.tables.runs
      && u.tables.commands == s.tables.commands && u.tables.runs == s.tables.runs[run := u.tables.runs[run]]
      && WorkerOk(u, phase) && (phase.Idle? || phase.run == run)
      && (u.tables.runs[run].status == Running ||
          (u.tables.runs[run].status == Succeeded && AllSucceeded(s.tables, run) && run in s.plans
           && s.plans[run].Steps? && |s.plans[run].steps| == s.depth[run]))
    ensures SysInv(u)
  {
    var run := s.workers[w].run;
    HeldAlone(s, w);
    StartedKept(s.tables, u.tables, run, s.depth[run]);
    FocusKeeps(s, u, w, run);
  }

  lemma AdvanceKeeps(s: System, w: nat, fault: Fault, now: int)
    requires SysInv(s) && w in s.workers && s.workers[w].Between? && s.workers[w].run in s.plans
    ensures SysInv(AdvanceStep(s, w, fault, now))
  {
    var u := AdvanceStep(s, w, fault, now);
    var Between(job, run, done) := s.workers[w];
    var plan := s.plans[run];
    assert WorkerOk(s, s.workers[w]);
    if plan.Unresolved? || (done < |plan.steps| && plan.steps[done].None?) {
      OutcomeKeeps(s, u, w, Failing(job, run));
    } else if done >= |plan.steps| {
      SucceedKeepsInv(s.tables, job, run, now);
      OutcomeKeeps(s, u, w, Idle);
    } else {
      StartKeeps(s, w, plan.steps[done].value, fault, now);
    }
  }

  lemma StartKeeps(s: System, w: nat, spec: CommandSpec, fault: Fault, now: int)
    requires SysInv(s) && w in s.workers && s.workers[w].Between? && s.workers[w].run in s.plans
    requires s.plans[s.workers[w].run].Steps? && s.workers[w].done < |s.plans[s.workers[w].run].steps|
    requires s.plans[s.workers[w].run].steps[s.workers[w].done] == Some(spec)
    ensures SysInv(StartStep(s, w, spec, fault, now))
  {
    var Between(job, run, done) := s.workers[w];
    HolderOk(s, w);
    if fault == Lost || !StartAllowed(s.tables, run, done + 1, spec) {
      OutcomeKeeps(s, StartStep(s, w, spec, fault, now), w, Failing(job, run));
    } else {
      StartedKeeps(s, w, spec, fault, now);
    }
  }

  lemma StartedKeeps(s: System, w: nat, spec: CommandSpec, fault: Fault, now: int)
    requires SysInv(s) && w in s.workers && s.workers[w].Between? && s.workers[w].run in s.plans
    requires s.plans[s.workers[w].run].Steps? && s.workers[w].done < |s.plans[s.workers[w].run].steps|
    requires s.plans[s.workers[w].run].steps[s.workers[w].done] == Some(spec)
    requires fault != Lost && StartAllowed(s.tables, s.workers[w].run, s.workers[w].done + 1, spec)
    ensures SysInv(StartStep(s, w, spec, fault, now))
  {
    var u := StartStep(s, w, spec, fault, now);
    StartCommandKeepsInv(s.tables, s.workers[w].run, s.workers[w].done + 1, spec, now);
    AppendKeeps(s, u, w, u.workers[w], u.tables.commands[s.tables.nextCommand]);
  }

  /** A RUNNING command is appended to the worker's run. */
  lemma AppendKeeps(s: System, u: System, w: nat, phase: Phase, c: Command)
    requires SysInv(s) && w in s.workers && s.workers[w].Between? && Inv(u.tables)
    requires var Between(job, run, done) := s.workers[w];
      var id := s.tables.nextCommand;
      && u == s.(tables := u.tables, depth := s.depth[run := done + 1], workers := s.workers[w := phase])
      && u.tables.commands == s.tables.commands[id := c] && u.tables.runs == s.tables.runs && u.tables.jobs == s.tables.jobs
      && c.runId == run && c.sequence == done + 1 && c.status == Running
      && run in s.plans && s.plans[run].Steps? && done < |s.plans[run].steps| && s.plans[run].steps[done] == Some(c.spec)
      && (phase == Executing(job, run, done, id) || phase == Failing(job, run))
    ensures SysInv(u)
  {
    var Between(job, run, done) := s.workers[w];
    HeldAlone(s, w);
    assert u.tables.commands[s.tables.nextCommand] == c && SequenceTaken(u.tables, run, done + 1);
    StartedKept(s.tables, u.tables, run, done);
    assert s.tables.nextCommand !in s.tables.commands;
    AppendUntouched(s, u, run, s.tables.nextCommand, c);
    FocusKeeps(s, u, w, run);
  }

  lemma AppendUntouched(s: System, u: System, run: int, id: int, c: Command)
    requires u.tables.commands == s.tables.commands[id := c] && id !in s.tables.commands && c.runId == run
    requires u.tables.runs == s.tables.runs && u.plans == s.plans && run in u.depth && u.depth == s.depth[run := u.depth[run]]
    ensures forall r | r != run :: Untouched(s, u, r)
  {
  }

  /** Commands of `run` keep their numbering, and one that changed was its RUNNING command and no longer is. */
  predicate Settles(t: Tables, u: Tables, run: int) {
    && u.commands.Keys == t.commands.Keys
    && (forall c | c in t.commands :: SettledRow(t.commands[c], u.commands[c], run))
    && run in t.runs && run in u.runs && u.runs == t.runs[run := u.runs[run]]
  }

  predicate SettledRow(c: Command, d: Command, run: int) {
    d == c || (c.runId == d.runId == run && c.sequence == d.sequence && c.spec == d.spec && c.status == Running && d.status != Running)
  }

  lemma SettleKeeps(s: System, u: System, w: nat, phase: Phase)
    requires SysInv(s) && w in s.workers && !s.workers[w].Idle? && Inv(u.tables)
    requires var run := s.workers[w].run;
      && u == s.(tables := u.tables, workers := s.workers[w := phase]) && Settles(s.tables, u.tables, run)
      && u.tables.runs[run].status != Succeeded
      && (u.tables.runs[run].status == Running || forall c | c in u.tables.commands && u.tables.commands[c].runId == run ::
           u.tables.commands[c].status != Running)
      && WorkerOk(u, phase) && (phase.Idle? || phase.run == run)
    ensures SysInv(u)
  {
    var run := s.workers[w].run;
    HeldAlone(s, w);
    SettledElsewhere(s, u, run);
    SettledHere(s, u, run);
    FocusKeeps(s, u, w, run);
  }

  lemma SettledHere(s: System, u: System, run: int)
    requires Settles(s.tables, u.tables, run) && u.plans == s.plans && u.depth == s.depth && RunOk(s, run)
    requires forall c | c in s.tables.commands && s.tables.commands[c].runId == run :: CommandOk(s, s.tables.commands[c])
    requires u.tables.runs[run].status != Succeeded
    requires u.tables.runs[run].status == Running || forall c | c in u.tables.commands && u.tables.commands[c].runId == run ::
      u.tables.commands[c].status != Running
    ensures RunOk(u, run)
    ensures forall c | c in u.tables.commands && u.tables.commands[c].runId == run :: CommandOk(u, u.tables.commands[c])
  {
    assert forall c | c in s.tables.commands :: SettledRow(s.tables.commands[c], u.tables.commands[c], run);
    StartedKept(s.tables, u.tables, run, s.depth[run]);
  }

  lemma SettledElsewhere(s: System, u: System, run: int)
    requires Settles(s.tables, u.tables, run) && u.plans == s.plans && u.depth == s.depth
    ensures forall r | r != run :: Untouched(s, u, r)
  {
    assert forall c | c in s.tables.commands :: SettledRow(s.tables.commands[c], u.tables.commands[c], run);
  }

  lemma FailStepKeeps(s: System, w: nat, reason: string, delay: int, fault: Fault, now: int)
    requires SysInv(s) && w in s.workers && s.workers[w].Failing?
    ensures SysInv(FailStep(s, w, reason, delay, fault, now))
  {
    var u := FailStep(s, w, reason, delay, fault, now);
    assert WorkerOk(s, s.workers[w]);
    if fault == Lost {
      OutcomeKeeps(s, u, w, Idle);
    } else {
      var Failing(job, run) := s.workers[w];
      FailKeepsInv(s.tables, job, run, reason, delay, now);
      SettleKeeps(s, u, w, Idle);
    }
  }

  /** Completing the last command of a run whose earlier ones succeeded. */
  lemma CompletedCommand(t: Tables, u: Tables, run: int, command: int, n: nat)
    requires Unique(t) && command in t.commands && t.commands[command].runId == run && t.commands[command].sequence == n
    requires forall c | c in t.commands && t.commands[c].runId == run && t.commands[c].sequence != n :: t.commands[c].status == Succeeded
    requires u.commands.Keys == t.commands.Keys && u.commands[command].status == Succeeded
    requires forall c | c in t.commands && c != command :: u.commands[c] == t.commands[c]
    ensures AllSucceeded(u, run)
  {
  }

  lemma CompleteStepKeeps(s: System, w: nat, result: CommandResult, fault: Fault, now: int)
    requires SysInv(s) && w in s.workers && s.workers[w].Executing?
    requires result.status == Succeeded || result.status == Failed
    ensures SysInv(CompleteStep(s, w, result, fault, now))
  {
    var u := CompleteStep(s, w, result, fault, now);
    var Executing(job, run, done, command) := s.workers[w];
    assert WorkerOk(s, s.workers[w]);
    if fault == Lost {
      OutcomeKeeps(s, u, w, Failing(job, run));
    } else {
      CompleteCommandKeepsInv(s.tables, command, result, now);
      CompletedPhase(s, u, w, result, now);
      CompletedSettles(s.tables, run, command, result, now);
      SettleKeeps(s, u, w, u.workers[w]);
    }
  }

  lemma CompletedSettles(t: Tables, run: int, command: int, result: CommandResult, now: int)
    requires run in t.runs && command in t.commands && t.commands[command].runId == run
    ensures Settles(t, CompleteCommand(t, command, result, now), run)
  {
  }

  lemma CompletedPhase(s: System, u: System, w: nat, result: CommandResult, now: int)
    requires SysInv(s) && w in s.workers && s.workers[w].Executing?
    requires u.tables == CompleteCommand(s.tables, s.workers[w].command, result, now) && u.plans == s.plans && u.depth == s.depth
    requires w in u.workers && var Executing(job, run, done, _) := s.workers[w];
      u.workers[w] == Failing(job, run) || (result.status == Succeeded && u.workers[w] == Between(job, run, done + 1))
    ensures WorkerOk(u, u.workers[w])
  {
    var Executing(job, run, done, command) := s.workers[w];
    HeldAlone(s, w);
    if u.workers[w].Between? {
      CompletedCommand(s.tables, u.tables, run, command, done + 1);
    }
  }

  lemma RecoveredRunOk(s: System, u: System, run: int, now: int)
    requires run in s.tables.runs && RunOk(s, run)
    requires u.tables == Recover(s.tables, now) && u.plans == s.plans && u.depth == s.depth
    ensures RunOk(u, run)
  {
    StartedKept(s.tables, u.tables, run, s.depth[run]);
  }

  lemma RecoveredCommandOk(s: System, u: System, c: int, now: int)
    requires c in s.tables.commands && CommandOk(s, s.tables.commands[c])
    requires u.tables == Recover(s.tables, now) && u.plans == s.plans && u.depth == s.depth
    ensures CommandOk(u, u.tables.commands[c])
  {
  }

  lemma BootKeeps(s: System, n: nat, fault: Fault, now: int)
    requires SysInv(s) && !s.up
    ensures SysInv(BootStep(s, n, fault, now))
  {
    var u := BootStep(s, n, fault, now);
    if fault != Lost {
      RecoverKeepsInv(s.tables, now);
      forall r | r in u.tables.runs ensures RunOk(u, r) { RecoveredRunOk(s, u, r, now); }
      forall c | c in u.tables.commands ensures CommandOk(u, u.tables.commands[c]) { RecoveredCommandOk(s, u, c, now); }
    }
  }

  lemma EnqueueStepKeeps(s: System, p: EnqueueParams, now: int)
    requires SysInv(s)
    ensures SysInv(s.(tables := Enqueue(s.tables, p, now)))
  {
    var u := s.(tables := Enqueue(s.tables, p, now));
    EnqueueKeepsInv(s.tables, p, now);
    UntouchedKeeps(s, u);
  }

  lemma UntouchedKeeps(s: System, u: System)
    requires SysInv(s) && Inv(u.tables) && u == s.(tables := u.tables)
    requires u.tables.runs == s.tables.runs && u.tables.commands == s.tables.commands
    ensures SysInv(u)
  {
    SameRunsKeep(s, u);
    SameCommandsKeep(s, u);
    forall w | w in u.workers ensures WorkerOk(u, u.workers[w]) { WorkerFrame(s, u, s.workers[w]); }
  }

  lemma SameRunsKeep(s: System, u: System)
    requires u == s.(tables := u.tables) && u.tables.runs == s.tables.runs && u.tables.commands == s.tables.commands
    requires forall r | r in s.tables.runs :: RunOk(s, r)
    ensures forall r | r in u.tables.runs :: RunOk(u, r)
  {
    forall r | r in u.tables.runs ensures RunOk(u, r) { RunFrame(s, u, r); }
  }

  lemma SameCommandsKeep(s: System, u: System)
    requires u == s.(tables := u.tables) && u.tables.runs == s.tables.runs && u.tables.commands == s.tables.commands
    requires forall c | c in s.tables.commands :: CommandOk(s, s.tables.commands[c])
    ensures forall c | c in u.tables.commands :: CommandOk(u, u.tables.commands[c])
  {
    assert forall c | c in s.tables.commands :: CommandOk(s, s.tables.commands[c]) && CommandOk(u, u.tables.commands[c]);
  }

  lemma NextKeeps(s: System, l: Label, now: int)
    requires SysInv(s)
    ensures SysInv(Next(s, l, now))
  {
    if Enabled(s, l) {
      match l
      case LClaim(w, plan, fault) =>
        if Oldest(s.tables, now).Some? && fault != Lost { ClaimKeeps(s, w, plan, fault, now); }
      case LAdvance(w, fault) => AdvanceKeeps(s, w, fault, now);
      case LComplete(w, result, fault) => CompleteStepKeeps(s, w, result, fault, now);
      case LFail(w, reason, delay, fault) => FailStepKeeps(s, w, reason, delay, fault, now);
      case LEnqueue(p) => EnqueueStepKeeps(s, p, now);
      case LCrash =>
      case LBoot(n, fault) => BootKeeps(s, n, fault, now);
    }
  }

  /** Seen from the tables, a step of the system is one queue transaction or none, so the queue's own results apply. */
  lemma StepsAreTransactions(s: System, l: Label, now: int) returns (e: Option<Timed>)
    ensures Next(s, l, now).tables == if e.None? then s.tables else Step(s.tables, e.value)
  {
    e := None;
    if !Enabled(s, l) { return; }
    match l
    case LClaim(w, plan, fault) =>
      if fault != Lost { e := Some(At(EClaim, now)); }
    case LAdvance(w, fault) =>
      var Between(job, run, done) := s.workers[w];
      if fault != Lost && s.plans[run].Steps? {
        if done >= |s.plans[run].steps| {
          e := Some(At(ESucceed(job, run), now));
        } else if s.plans[run].steps[done].Some? {
          e := Some(At(EStart(run, done + 1, s.plans[run].steps[done].value), now));
        }
      }
    case LComplete(w, result, fault) =>
      if fault != Lost { e := Some(At(EComplete(s.workers[w].command, result), now)); }
    case LFail(w, reason, delay, fault) =>
      if fault != Lost { e := Some(At(EFail(s.workers[w].job, s.workers[w].run, reason, delay), now)); }
    case LEnqueue(p) => e := Some(At(EEnqueue(p), now));
    case LCrash =>
    case LBoot(n, fault) => if fault != Lost { e := Some(At(ERecover, now)); }
  }

  /////////////// Main results ///////////////

  /** Any number of workers, any store faults, any crashes. */
  lemma {:induction false} EveryReachedKeeps(trace: seq<(Label, int)>)
    ensures SysInv(Reached(trace))
    decreases |trace|
  {
    if trace != [] {
      EveryReachedKeeps(trace[..|trace| - 1]);
      NextKeeps(Reached(trace[..|trace| - 1]), trace[|trace| - 1].0, trace[|trace| - 1].1);
    }
  }

  /** The commands recorded for a run are exactly those numbered 1..n. */
  ghost predicate NumberedTo(t: Tables, run: int, n: nat) {
    forall i :: SequenceTaken(t, run, i) <==> 1 <= i <= n
  }

  /** A SUCCEEDED run recorded exactly its pipeline, in order, and every command of it SUCCEEDED. */
  lemma SucceededRunsAreComplete(trace: seq<(Label, int)>, run: int)
    requires run in Reached(trace).tables.runs && Reached(trace).tables.runs[run].status == Succeeded
    ensures var s := Reached(trace);
      && run in s.plans && s.plans[run].Steps? && NumberedTo(s.tables, run, |s.plans[run].steps|)
      && forall c | c in s.tables.commands && s.tables.commands[c].runId == run ::
           && s.tables.commands[c].status == Succeeded
           && 1 <= s.tables.commands[c].sequence <= |s.plans[run].steps|
           && s.plans[run].steps[s.tables.commands[c].sequence - 1] == Some(s.tables.commands[c].spec)
  {
    EveryReachedKeeps(trace);
    var s := Reached(trace);
    assert RunOk(s, run);
    assert forall c | c in s.tables.commands :: CommandOk(s, s.tables.commands[c]);
  }

  /** A FAILED run recorded a prefix of its pipeline: all but the last SUCCEEDED, and none is left RUNNING. */
  lemma FailedRunsArePrefixes(trace: seq<(Label, int)>, run: int) returns (k: nat)
    requires run in Reached(trace).tables.runs && Reached(trace).tables.runs[run].status == Failed
    ensures NumberedTo(Reached(trace).tables, run, k)
    ensures var t := Reached(trace).tables;
      forall c | c in t.commands && t.commands[c].runId == run ::
        t.commands[c].status != Running && (t.commands[c].sequence < k ==> t.commands[c].status == Succeeded)
  {
    EveryReachedKeeps(trace);
    var s := Reached(trace);
    assert RunOk(s, run);
    assert forall c | c in s.tables.commands :: CommandOk(s, s.tables.commands[c]);
    k := s.depth[run];
  }

  /** A RUNNING command sits under the RUNNING newest run of a RUNNING job, and no run is held by two workers. */
  lemma LiveWorkIsExclusive(trace: seq<(Label, int)>)
    ensures var s := Reached(trace);
      && (forall c | c in s.tables.commands && s.tables.commands[c].status == Running ::
            var run := s.tables.commands[c].runId;
            run in s.tables.runs && Current(s.tables, s.tables.runs[run].jobId, run))
      && Exclusive(s)
  {
    EveryReachedKeeps(trace);
    var s := Reached(trace);
    forall c | c in s.tables.commands && s.tables.commands[c].status == Running
      ensures Current(s.tables, s.tables.runs[s.tables.commands[c].runId].jobId, s.tables.commands[c].runId)
    {
      assert CommandOk(s, s.tables.commands[c]);
      RunningRunIsNewest(s.tables, s.tables.commands[c].runId);
    }
  }
}
