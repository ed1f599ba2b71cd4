/**
  The delivered cache only saves handler calls.  Every run with the cache, whatever it
  evicts and however often the daemon restarts, has a run without the cache that files
  the same jobs: where the first skips, the second calls the handler for nothing.
*/
module WatcherCache {
  import opened Text
  import opened Queue
  import opened Watcher
  import QueueRuns

  /** Validate: watch names are unique, and max_retries is not negative. */
  ghost predicate ValidConfig(cfg: Config) {
    && cfg.maxRetries >= 0
    && forall i, j | 0 <= i < |cfg.watches| && 0 <= j < |cfg.watches| && cfg.watches[i].name == cfg.watches[j].name :: i == j
  }

  predicate Filed(cfg: Config, t: Tables, key: Key, fingerprint: string) {
    key.watch < |cfg.watches| && Recorded(t, Params(cfg, key, fingerprint))
  }

  predicate NeedsJob(p: Phase) {
    p.Skipping? || p.Handled?
  }

  ghost predicate SingleVersions(cfg: Config, t: Tables) {
    forall j, i: nat | j in t.jobs && i < |cfg.watches| && t.jobs[j].watch == cfg.watches[i].name && !cfg.watches[i].reprocess ::
      t.jobs[j].fingerprint == SINGLE_VERSION
  }

  ghost predicate AllFiled(cfg: Config, s: State) {
    && (forall key | key in s.delivered :: Filed(cfg, s.tables, key, s.delivered[key]))
    && (forall t | t in s.live && NeedsJob(s.live[t].phase) :: Filed(cfg, s.tables, s.live[t].key, s.live[t].phase.fingerprint))
  }

  ghost predicate CacheInv(cfg: Config, s: State) {
    Inv(s.tables) && AllFiled(cfg, s) && SingleVersions(cfg, s.tables)
  }

  /** A job once filed stays filed. */
  lemma FiledStays(t: Tables, e: Timed, p: EnqueueParams)
    requires Inv(t) && Recorded(t, p)
    ensures Recorded(Step(t, e), p)
  {
    var id :| id in t.jobs && SameKey(t.jobs[id], p);
    var _ := QueueRuns.RowChange(t, e, id);
    assert SameKey(Step(t, e).jobs[id], p);
  }

  lemma EnqueueFiles(t: Tables, p: EnqueueParams, now: int)
    requires Inv(t) && ValidParams(p)
    ensures Recorded(Enqueue(t, p, now), p)
  {
    if !Recorded(t, p) { assert SameKey(Enqueue(t, p, now).jobs[t.nextJob], p); }
  }

  /** The tables move by one transaction; everything filed stays so. */
  lemma TablesKeepFiled(cfg: Config, s: State, e: Timed)
    requires Inv(s.tables) && AllFiled(cfg, s)
    ensures AllFiled(cfg, s.(tables := Step(s.tables, e)))
  {
    forall key | key in s.delivered
      ensures Filed(cfg, Step(s.tables, e), key, s.delivered[key])
    {
      FiledStays(s.tables, e, Params(cfg, key, s.delivered[key]));
    }
    forall t | t in s.live && NeedsJob(s.live[t].phase)
      ensures Filed(cfg, Step(s.tables, e), s.live[t].key, s.live[t].phase.fingerprint)
    {
      FiledStays(s.tables, e, Params(cfg, s.live[t].key, s.live[t].phase.fingerprint));
    }
  }

  lemma ElsewhereSingle(cfg: Config, t: Tables, e: Timed)
    requires Inv(t) && SingleVersions(cfg, t) && !e.event.EEnqueue?
    ensures SingleVersions(cfg, Step(t, e))
  {
    forall j | j in Step(t, e).jobs
      ensures j in t.jobs && QueueRuns.SameIdentity(t.jobs[j], Step(t, e).jobs[j])
    {
      assert j in t.jobs;
      var _ := QueueRuns.RowChange(t, e, j);
    }
  }

  lemma HandlerSingle(cfg: Config, t: Tables, key: Key, fingerprint: string, now: int)
    requires ValidConfig(cfg) && SingleVersions(cfg, t) && key.watch < |cfg.watches|
    ensures SingleVersions(cfg, Enqueue(t, Params(cfg, key, fingerprint), now))
  {
  }

  /** What the cache remembers as delivered would be filed under the very same job. */
  lemma SkipIsFiled(cfg: Config, s: State, key: Key, fingerprint: string)
    requires AllFiled(cfg, s) && key.watch < |cfg.watches| && Skips(cfg, s, key, fingerprint)
    ensures Filed(cfg, s.tables, key, fingerprint)
  {
    assert Filed(cfg, s.tables, key, s.delivered[key]);
    assert Params(cfg, key, fingerprint) == Params(cfg, key, s.delivered[key]);
  }

  /** A goroutine moves to a phase that needs a job only if the job is there. */
  lemma MoveKeepsFiled(cfg: Config, s: State, t: nat, phase: Phase)
    requires AllFiled(cfg, s) && t in s.live
    requires NeedsJob(phase) ==> Filed(cfg, s.tables, s.live[t].key, phase.fingerprint)
    ensures AllFiled(cfg, To(s, t, phase))
  {
  }

  lemma ExitKeepsFiled(cfg: Config, s: State, t: nat, remove: bool)
    requires AllFiled(cfg, s) && t in s.live
    ensures AllFiled(cfg, Exit(s, t, remove))
  {
  }

  lemma RecordKeepsFiled(cfg: Config, s: State, t: nat, evict: Key)
    requires AllFiled(cfg, s) && Enabled(cfg, s, Record(t, evict))
    ensures AllFiled(cfg, Next(cfg, s, Record(t, evict)))
  {
    var Handled(version, seen, f) := s.live[t].phase;
    RememberKeepsFiled(cfg, s, t, evict);
    var u := if cfg.cache then s.(delivered := RecordDelivered(s.delivered, s.live[t].key, f, evict)) else s;
    if Version(s, t) == version { ExitKeepsFiled(cfg, u, t, true); } else { MoveKeepsFiled(cfg, u, t, Top); }
  }

  lemma RememberKeepsFiled(cfg: Config, s: State, t: nat, evict: Key)
    requires AllFiled(cfg, s) && Enabled(cfg, s, Record(t, evict))
    ensures AllFiled(cfg, s.(delivered := RecordDelivered(s.delivered, s.live[t].key, s.live[t].phase.fingerprint, evict)))
  {
    var d := RecordDelivered(s.delivered, s.live[t].key, s.live[t].phase.fingerprint, evict);
    assert Filed(cfg, s.tables, s.live[t].key, s.live[t].phase.fingerprint);
    forall k | k in d
      ensures Filed(cfg, s.tables, k, d[k])
    {
      if k != s.live[t].key { assert Filed(cfg, s.tables, k, s.delivered[k]); }
    }
  }

  /** Where a goroutine stands once its handler is back. */
  function Returned(l: Label, phase: Phase): Phase
    requires phase.Handling?
  {
    if l.Return? then Handled(phase.version, phase.seen, phase.fingerprint) else Aborting(phase.version, phase.seen)
  }

  lemma HandlerMoves(cfg: Config, s: State, l: Label)
    requires Enabled(cfg, s, l) && (l.Return? || l.Refuse?)
    ensures var p := Params(cfg, s.live[l.t].key, s.live[l.t].phase.fingerprint);
            Next(cfg, s, l) == To(s, l.t, Returned(l, s.live[l.t].phase)).(
              tables := if l.Return? || l.committed then Enqueue(s.tables, p, l.now) else s.tables)
  {
  }

  lemma HandlerKeepsFiled(cfg: Config, s: State, l: Label)
    requires Inv(s.tables) && AllFiled(cfg, s) && Enabled(cfg, s, l) && (l.Return? || l.Refuse?)
    ensures AllFiled(cfg, Next(cfg, s, l))
  {
    var p, phase := Params(cfg, s.live[l.t].key, s.live[l.t].phase.fingerprint), Returned(l, s.live[l.t].phase);
    HandlerMoves(cfg, s, l);
    if l.Return? || l.committed {
      if l.Return? {
        EnqueueFiles(s.tables, p, l.now);
      }
      var u := s.(tables := Enqueue(s.tables, p, l.now));
      EnqueueKeepsFiled(cfg, s, p, l.now);
      MoveKeepsFiled(cfg, u, l.t, phase);
    } else {
      MoveKeepsFiled(cfg, s, l.t, phase);
    }
  }

  lemma EnqueueKeepsFiled(cfg: Config, s: State, p: EnqueueParams, now: int)
    requires Inv(s.tables) && AllFiled(cfg, s)
    ensures AllFiled(cfg, s.(tables := Enqueue(s.tables, p, now)))
  {
    TablesKeepFiled(cfg, s, At(EEnqueue(p), now));
  }

  lemma NextKeepsFiled(cfg: Config, s: State, l: Label)
    requires Inv(s.tables) && AllFiled(cfg, s)
    ensures AllFiled(cfg, Next(cfg, s, l))
  {
    if Enabled(cfg, s, l) {
      if Outside(l) {
        OutsideKeepsFiled(cfg, s, l);
      } else if l.Return? || l.Refuse? {
        HandlerKeepsFiled(cfg, s, l);
      } else {
        GoroutineKeepsFiled(cfg, s, l);
      }
    }
  }

  lemma OutsideKeepsFiled(cfg: Config, s: State, l: Label)
    requires Inv(s.tables) && AllFiled(cfg, s) && Enabled(cfg, s, l) && Outside(l)
    ensures AllFiled(cfg, Next(cfg, s, l))
  {
    match l
    case Elsewhere(e) => TablesKeepFiled(cfg, s, e);
    case Schedule(key) => ScheduleKeepsFiled(cfg, s, key);
    case Restart =>
  }

  lemma GoroutineKeepsFiled(cfg: Config, s: State, l: Label)
    requires Inv(s.tables) && AllFiled(cfg, s) && Enabled(cfg, s, l) && !Outside(l) && !l.Return? && !l.Refuse?
    ensures AllFiled(cfg, Next(cfg, s, l))
  {
    if l.Decide? {
      DecideKeepsFiled(cfg, s, l.t);
    } else if l.Record? {
      RecordKeepsFiled(cfg, s, l.t, l.evict);
    } else if l.Begin? {
      BeginKeepsFiled(cfg, s, l);
    } else if l.FinishSkip? || l.Remove? {
      EndKeepsFiled(cfg, s, l);
    } else {
      PhaseKeepsFiled(cfg, s, l);
    }
  }

  lemma DecideKeepsFiled(cfg: Config, s: State, t: nat)
    requires AllFiled(cfg, s) && Enabled(cfg, s, Decide(t))
    ensures AllFiled(cfg, Next(cfg, s, Decide(t)))
  {
    if Skips(cfg, s, s.live[t].key, s.live[t].phase.fingerprint) {
      SkipIsFiled(cfg, s, s.live[t].key, s.live[t].phase.fingerprint);
    }
    MoveKeepsFiled(cfg, s, t, Next(cfg, s, Decide(t)).live[t].phase);
  }

  lemma ScheduleKeepsFiled(cfg: Config, s: State, key: Key)
    requires AllFiled(cfg, s)
    ensures AllFiled(cfg, ScheduleStep(s, key))
  {
  }

  lemma BeginKeepsFiled(cfg: Config, s: State, l: Label)
    requires AllFiled(cfg, s) && Enabled(cfg, s, l) && l.Begin?
    ensures AllFiled(cfg, Next(cfg, s, l))
  {
    ExitKeepsFiled(cfg, s, l.t, false);
    MoveKeepsFiled(cfg, s, l.t, Waiting(Version(s, l.t), Calls(s, s.live[l.t].key)));
  }

  lemma EndKeepsFiled(cfg: Config, s: State, l: Label)
    requires AllFiled(cfg, s) && Enabled(cfg, s, l) && (l.FinishSkip? || l.Remove?)
    ensures AllFiled(cfg, Next(cfg, s, l))
  {
    if l.Remove? {
      ExitKeepsFiled(cfg, s, l.t, Watcher.Current(s, l.t));
    } else {
      ExitKeepsFiled(cfg, s, l.t, true);
      MoveKeepsFiled(cfg, s, l.t, Top);
    }
  }

  lemma PhaseKeepsFiled(cfg: Config, s: State, l: Label)
    requires AllFiled(cfg, s) && Enabled(cfg, s, l) && (l.Settled? || l.Unstable? || l.Enter? || l.RootLost?)
    ensures AllFiled(cfg, Next(cfg, s, l))
  {
    var phase := Next(cfg, s, l).live[l.t].phase;
    assert Next(cfg, s, l) == To(s, l.t, phase) && !NeedsJob(phase);
    MoveKeepsFiled(cfg, s, l.t, phase);
  }

  lemma HandlerKeepsTables(cfg: Config, t: Tables, key: Key, fingerprint: string, now: int)
    requires ValidConfig(cfg) && Inv(t) && SingleVersions(cfg, t) && key.watch < |cfg.watches|
    ensures var u := Enqueue(t, Params(cfg, key, fingerprint), now); Inv(u) && SingleVersions(cfg, u)
  {
    EnqueueKeepsInv(t, Params(cfg, key, fingerprint), now);
    HandlerSingle(cfg, t, key, fingerprint, now);
  }

  /** The tables move by one queue transaction at most, and it files nothing under a wrong fingerprint. */
  lemma NextKeepsTables(cfg: Config, s: State, l: Label)
    requires ValidConfig(cfg) && Inv(s.tables) && SingleVersions(cfg, s.tables)
    ensures Inv(Next(cfg, s, l).tables) && SingleVersions(cfg, Next(cfg, s, l).tables)
  {
    if Enabled(cfg, s, l) {
      if l.Return? || l.Refuse? {
        HandlerMoves(cfg, s, l);
        HandlerKeepsTables(cfg, s.tables, s.live[l.t].key, s.live[l.t].phase.fingerprint, l.now);
      } else if l.Elsewhere? {
        StepKeepsInv(s.tables, l.e);
        ElsewhereSingle(cfg, s.tables, l.e);
      } else {
        assert Next(cfg, s, l).tables == s.tables;
      }
    }
  }

  lemma {:induction false} EveryReachedKeepsCache(cfg: Config, trace: seq<Label>)
    requires ValidConfig(cfg)
    ensures CacheInv(cfg, Reached(cfg, trace))
    decreases |trace|
  {
    if trace != [] {
      EveryReachedKeepsCache(cfg, trace[..|trace| - 1]);
      NextKeepsFiled(cfg, Reached(cfg, trace[..|trace| - 1]), trace[|trace| - 1]);
      NextKeepsTables(cfg, Reached(cfg, trace[..|trace| - 1]), trace[|trace| - 1]);
    }
  }

  /** A watch without reprocess_on_change never files two jobs for one path, across all restarts. */
  lemma OneJobPerPath(cfg: Config, trace: seq<Label>, i: nat, a: int, b: int)
    requires ValidConfig(cfg) && i < |cfg.watches| && !cfg.watches[i].reprocess
    requires var jobs := Reached(cfg, trace).tables.jobs;
      a in jobs && b in jobs && jobs[a].watch == jobs[b].watch == cfg.watches[i].name && jobs[a].path == jobs[b].path
    ensures a == b
  {
    EveryReachedKeepsCache(cfg, trace);
  }

  /////////////// The run without the cache ///////////////

  function Uncached(cfg: Config): Config {
    cfg.(cache := false)
  }

  function Plain(p: Phase): Phase {
    match p
    case Skipping(version, seen, f) => Delivering(version, seen, f)
    case _ => p
  }

  /** The two daemons agree on everything but the cache and the decision to skip. */
  predicate Agree(s: State, a: State) {
    && a.delivered == map[] && a.live.Keys == s.live.Keys
    && (forall t | t in s.live :: a.live[t] == Settler(s.live[t].key, Plain(s.live[t].phase)))
    && a.pending == s.pending && a.versions == s.versions && a.tables == s.tables
    && a.nextEntry == s.nextEntry && a.calls == s.calls
  }

  /** What the uncached daemon does where the cached one takes step l. */
  function Instead(cfg: Config, s: State, l: Label): seq<Label> {
    if !Enabled(cfg, s, l) then []
    else match l
      case FinishSkip(t) => [Enter(t), Return(t, 0), Record(t, s.live[t].key)]
      case _ => [l]
  }

  ghost function Play(cfg: Config, s: State, labels: seq<Label>): State
    decreases |labels|
  {
    if labels == [] then s else Play(cfg, Next(cfg, s, labels[0]), labels[1..])
  }

  /** The handler call the cache saved: the job is there already, so it changes nothing. */
  lemma SkippedCallIsNoOp(cfg: Config, s: State, t: nat, now: int)
    requires JobRows(s.tables) && AllFiled(cfg, s) && ValidConfig(cfg) && t in s.live && s.live[t].phase.Skipping?
    ensures s.live[t].key.watch < |cfg.watches|
    ensures var p := Params(cfg, s.live[t].key, s.live[t].phase.fingerprint);
      ValidParams(p) && Enqueue(s.tables, p, now) == s.tables
  {
    assert Filed(cfg, s.tables, s.live[t].key, s.live[t].phase.fingerprint);
    var p := Params(cfg, s.live[t].key, s.live[t].phase.fingerprint);
    var id :| id in s.tables.jobs && SameKey(s.tables.jobs[id], p);
    assert JobRow(s.tables.jobs[id]);
  }

  lemma AgreeTo(s: State, a: State, t: nat, phase: Phase)
    requires Agree(s, a) && t in s.live
    ensures Agree(To(s, t, phase), To(a, t, Plain(phase)))
  {
  }

  lemma AgreeExit(s: State, a: State, t: nat, remove: bool)
    requires Agree(s, a) && t in s.live
    ensures Agree(Exit(s, t, remove), Exit(a, t, remove))
  {
    assert a.live[t].key == s.live[t].key;
  }

  lemma PlayThree(cfg: Config, s: State, a: Label, b: Label, c: Label)
    ensures Play(cfg, s, [a, b, c]) == Next(cfg, Next(cfg, Next(cfg, s, a), b), c)
  {
    assert [a, b, c][1..] == [b, c] && [b, c][1..] == [c] && [c][1..] == [];
    assert Play(cfg, Next(cfg, Next(cfg, s, a), b), [c]) == Next(cfg, Next(cfg, Next(cfg, s, a), b), c);
  }

  lemma EnterAndReturn(cfg: Config, a: State, t: nat)
    requires t in a.live && a.live[t].phase.Delivering? && a.live[t].key.watch < |cfg.watches|
    requires var p := Params(cfg, a.live[t].key, a.live[t].phase.fingerprint);
      ValidParams(p) && Enqueue(a.tables, p, 0) == a.tables
    ensures var Delivering(version, seen, f) := a.live[t].phase;
      Next(cfg, Next(cfg, a, Enter(t)), Return(t, 0)) == To(a, t, Handled(version, seen, f))
  {
    var Delivering(version, seen, f) := a.live[t].phase;
    assert Next(cfg, a, Enter(t)) == To(a, t, Handling(version, seen, f));
  }

  lemma SkipSimulated(cfg: Config, s: State, a: State, t: nat)
    requires ValidConfig(cfg) && CacheInv(cfg, s) && Agree(s, a)
    requires Enabled(cfg, s, FinishSkip(t)) && Watcher.Current(s, t)
    ensures Agree(Next(cfg, s, FinishSkip(t)), Play(Uncached(cfg), a, Instead(cfg, s, FinishSkip(t))))
  {
    var off, key := Uncached(cfg), s.live[t].key;
    var Skipping(version, seen, f) := s.live[t].phase;
    SkippedCallIsNoOp(cfg, s, t, 0);
    assert Params(off, key, f) == Params(cfg, key, f);
    EnterAndReturn(off, a, t);
    PlayThree(off, a, Enter(t), Return(t, 0), Record(t, key));
    RecordUncached(cfg, s, a, t);
  }

  lemma RecordUncached(cfg: Config, s: State, a: State, t: nat)
    requires Agree(s, a) && t in s.live && s.live[t].phase.Skipping? && Watcher.Current(s, t)
    ensures var Skipping(version, seen, f) := s.live[t].phase;
      Agree(Next(cfg, s, FinishSkip(t)), Next(Uncached(cfg), To(a, t, Handled(version, seen, f)), Record(t, s.live[t].key)))
  {
    var Skipping(version, seen, f) := s.live[t].phase;
    RecordWithout(cfg, To(a, t, Handled(version, seen, f)), t, s.live[t].key);
    OnlyLastPhaseCounts(a, t, Handled(version, seen, f), Top);
    SkipWith(cfg, s, t);
    if Version(s, t) == version { AgreeExit(s, a, t, true); } else { AgreeTo(s, a, t, Top); }
  }

  lemma SkipWith(cfg: Config, s: State, t: nat)
    requires t in s.live && s.live[t].phase.Skipping? && Watcher.Current(s, t)
    ensures Next(cfg, s, FinishSkip(t)) == if Version(s, t) == s.live[t].phase.version then Exit(s, t, true) else To(s, t, Top)
  {
  }

  lemma OnlyLastPhaseCounts(s: State, t: nat, p: Phase, q: Phase)
    requires t in s.live
    ensures Exit(To(s, t, p), t, true) == Exit(s, t, true) && To(To(s, t, p), t, q) == To(s, t, q)
  {
  }

  lemma RecordWithout(cfg: Config, b: State, t: nat, evict: Key)
    requires t in b.live && b.live[t].phase.Handled? && b.delivered == map[]
    ensures Next(Uncached(cfg), b, Record(t, evict))
         == if Version(b, t) == b.live[t].phase.version then Exit(b, t, true) else To(b, t, Top)
  {
  }

  /** Any step but FinishSkip is taken alike, except that the uncached daemon never decides to skip. */
  lemma SameStep(cfg: Config, s: State, a: State, l: Label)
    requires Agree(s, a) && Enabled(cfg, s, l) && !l.FinishSkip?
    ensures Agree(Next(cfg, s, l), Next(Uncached(cfg), a, l))
  {
    if Outside(l) {
      SameOutside(cfg, s, a, l);
    } else if l.Record? {
      SameRecord(cfg, s, a, l);
    } else if l.Return? || l.Refuse? {
      SameHandler(cfg, s, a, l);
    } else if l.Begin? {
      SameBegin(cfg, s, a, l);
    } else if l.Remove? {
      SameRemove(cfg, s, a, l);
    } else if l.Decide? {
      SameDecide(cfg, s, a, l);
    } else {
      SameMove(cfg, s, a, l);
    }
  }

  lemma SameOutside(cfg: Config, s: State, a: State, l: Label)
    requires Agree(s, a) && Enabled(cfg, s, l) && Outside(l)
    ensures Agree(Next(cfg, s, l), Next(Uncached(cfg), a, l))
  {
    match l
    case Schedule(key) => SameSchedule(s, a, key);
    case Elsewhere(e) => AgreeTables(s, a, Step(s.tables, e));
    case Restart =>
  }

  lemma AgreeTables(s: State, a: State, t: Tables)
    requires Agree(s, a)
    ensures Agree(s.(tables := t), a.(tables := t))
  {
  }

  lemma SameSchedule(s: State, a: State, key: Key)
    requires Agree(s, a)
    ensures Agree(ScheduleStep(s, key), ScheduleStep(a, key))
  {
    if key !in s.pending && |s.pending| < MAX_PENDING {
      AgreeSpawn(s, a, s.nextEntry, Settler(key, Top));
    }
  }

  lemma AgreeSpawn(s: State, a: State, t: nat, g: Settler)
    requires Agree(s, a) && g.phase.Top?
    ensures Agree(s.(live := s.live[t := g]), a.(live := a.live[t := g]))
  {
  }

  lemma SameRecord(cfg: Config, s: State, a: State, l: Label)
    requires Agree(s, a) && Enabled(cfg, s, l) && l.Record?
    ensures Agree(Next(cfg, s, l), Next(Uncached(cfg), a, l))
  {
    var Handled(version, seen, f) := s.live[l.t].phase;
    var u := if cfg.cache then s.(delivered := RecordDelivered(s.delivered, s.live[l.t].key, f, l.evict)) else s;
    assert Agree(u, a);
    RecordWithout(cfg, a, l.t, l.evict);
    if Version(s, l.t) == version { AgreeExit(u, a, l.t, true); } else { AgreeTo(u, a, l.t, Top); }
  }

  lemma SameHandler(cfg: Config, s: State, a: State, l: Label)
    requires Agree(s, a) && Enabled(cfg, s, l) && (l.Return? || l.Refuse?)
    ensures Agree(Next(cfg, s, l), Next(Uncached(cfg), a, l))
  {
    var g := s.live[l.t];
    assert Params(Uncached(cfg), g.key, g.phase.fingerprint) == Params(cfg, g.key, g.phase.fingerprint);
    var phase, tables := Returned(l, g.phase), Next(cfg, s, l).tables;
    HandlerMoves(cfg, s, l);
    HandlerMoves(Uncached(cfg), a, l);
    AgreeTo(s, a, l.t, phase);
    AgreeTables(To(s, l.t, phase), To(a, l.t, phase), tables);
  }

  lemma SameBegin(cfg: Config, s: State, a: State, l: Label)
    requires Agree(s, a) && Enabled(cfg, s, l) && l.Begin?
    ensures Agree(Next(cfg, s, l), Next(Uncached(cfg), a, l))
  {
    AgreeExit(s, a, l.t, false);
    AgreeTo(s, a, l.t, Waiting(Version(s, l.t), Calls(s, s.live[l.t].key)));
  }

  lemma SameRemove(cfg: Config, s: State, a: State, l: Label)
    requires Agree(s, a) && Enabled(cfg, s, l) && l.Remove?
    ensures Agree(Next(cfg, s, l), Next(Uncached(cfg), a, l))
  {
    AgreeExit(s, a, l.t, Watcher.Current(s, l.t));
  }

  /** Where the first daemon decides to skip, the second goes on to its handler. */
  lemma SameDecide(cfg: Config, s: State, a: State, l: Label)
    requires Agree(s, a) && Enabled(cfg, s, l) && l.Decide?
    ensures Agree(Next(cfg, s, l), Next(Uncached(cfg), a, l))
  {
    var Stable(version, seen, f) := s.live[l.t].phase;
    var next := if Version(s, l.t) != version then Top
                else if Skips(cfg, s, s.live[l.t].key, f) then Skipping(version, seen, f) else Delivering(version, seen, f);
    AgreeTo(s, a, l.t, next);
    assert Next(cfg, s, l) == To(s, l.t, next);
    assert Next(Uncached(cfg), a, l) == To(a, l.t, Plain(next));
  }

  lemma SameMove(cfg: Config, s: State, a: State, l: Label)
    requires Agree(s, a) && Enabled(cfg, s, l) && (l.Settled? || l.Unstable? || l.Enter? || l.RootLost?)
    ensures Agree(Next(cfg, s, l), Next(Uncached(cfg), a, l))
  {
    assert a.live[l.t] == s.live[l.t];
    var next := Next(cfg, s, l).live[l.t].phase;
    AgreeTo(s, a, l.t, next);
    assert Next(cfg, s, l) == To(s, l.t, next);
    assert Next(Uncached(cfg), a, l) == To(a, l.t, next);
  }

  /** One step with the cache is Instead(l) without it. */
  lemma StepSimulated(cfg: Config, s: State, a: State, l: Label)
    requires ValidConfig(cfg) && CacheInv(cfg, s) && Protocol(cfg, s) && Agree(s, a)
    ensures Agree(Next(cfg, s, l), Play(Uncached(cfg), a, Instead(cfg, s, l)))
  {
    if Enabled(cfg, s, l) {
      if l.FinishSkip? {
        assert SettlerOk(cfg, s, l.t, s.live[l.t]);
        SkipSimulated(cfg, s, a, l.t);
      } else {
        assert [l][1..] == [];
        SameStep(cfg, s, a, l);
        assert Play(Uncached(cfg), a, [l]) == Next(Uncached(cfg), a, l);
      }
    }
  }

  ghost function InsteadOf(cfg: Config, trace: seq<Label>): seq<Label>
    decreases |trace|
  {
    if trace == [] then []
    else InsteadOf(cfg, trace[..|trace| - 1]) + Instead(cfg, Reached(cfg, trace[..|trace| - 1]), trace[|trace| - 1])
  }

  lemma {:induction false} ReachedThenPlay(cfg: Config, trace: seq<Label>, labels: seq<Label>)
    ensures Reached(cfg, trace + labels) == Play(cfg, Reached(cfg, trace), labels)
    decreases |labels|
  {
    if labels == [] {
      assert trace + labels == trace;
    } else {
      ReachedThenPlay(cfg, trace + [labels[0]], labels[1..]);
      assert trace + [labels[0]] + labels[1..] == trace + labels;
      assert (trace + [labels[0]])[..|trace|] == trace;
    }
  }

  /** Main result: the cache is invisible in the job table. */
  lemma {:induction false} CacheIsInvisible(cfg: Config, trace: seq<Label>)
    requires ValidConfig(cfg)
    ensures Agree(Reached(cfg, trace), Reached(Uncached(cfg), InsteadOf(cfg, trace)))
    ensures Reached(Uncached(cfg), InsteadOf(cfg, trace)).tables == Reached(cfg, trace).tables
    decreases |trace|
  {
    if trace != [] {
      var before, l := trace[..|trace| - 1], trace[|trace| - 1];
      CacheIsInvisible(cfg, before);
      EveryReachedKeepsCache(cfg, before);
      EveryReachedKeeps(cfg, before);
      StepSimulated(cfg, Reached(cfg, before), Reached(Uncached(cfg), InsteadOf(cfg, before)), l);
      ReachedThenPlay(Uncached(cfg), InsteadOf(cfg, before), Instead(cfg, Reached(cfg, before), l));
    }
  }
}
