/**
  Which jobs the watcher files: for every file that was handled or skipped there is a job row
  with the watch's name, the path, the fingerprint that the watch asks for and the configured
  retries, and a file that changed has a job for each of its versions.
*/
module WatcherJobs {
  import opened Text
  import opened Queue
  import opened Watcher
  import opened WatcherCache
  import QueueRuns

  /////////////// Every job is one of a configured watch ///////////////

  ghost predicate Configured(cfg: Config, j: Job) {
    j.maxRetries == cfg.maxRetries && exists i | 0 <= i < |cfg.watches| :: j.watch == cfg.watches[i].name
  }

  ghost predicate AllConfigured(cfg: Config, t: Tables) {
    forall j | j in t.jobs :: Configured(cfg, t.jobs[j])
  }

  /** A step changes the tables by one transaction at most, and an enqueue only when a handler runs. */
  lemma StepIsTransaction(cfg: Config, s: State, l: Label) returns (e: Option<Timed>)
    ensures Next(cfg, s, l).tables == if e.None? then s.tables else Step(s.tables, e.value)
    ensures e.Some? && e.value.event.EEnqueue? ==>
              && (l.Return? || l.Refuse?) && l.t in s.live && s.live[l.t].phase.Handling? && s.live[l.t].key.watch < |cfg.watches|
              && e.value.event.params == Params(cfg, s.live[l.t].key, s.live[l.t].phase.fingerprint)
  {
    e := None;
    if Enabled(cfg, s, l) {
      if l.Elsewhere? {
        e := Some(l.e);
      } else if l.Return? || l.Refuse? {
        HandlerMoves(cfg, s, l);
        if l.Return? || l.committed {
          e := Some(At(EEnqueue(Params(cfg, s.live[l.t].key, s.live[l.t].phase.fingerprint)), l.now));
        }
      } else {
        assert Next(cfg, s, l).tables == s.tables;
      }
    }
  }

  lemma EnqueueKeepsConfigured(cfg: Config, t: Tables, key: Key, fingerprint: string, now: int)
    requires ValidConfig(cfg) && AllConfigured(cfg, t) && key.watch < |cfg.watches|
    ensures AllConfigured(cfg, Enqueue(t, Params(cfg, key, fingerprint), now))
  {
    assert Params(cfg, key, fingerprint).watch == cfg.watches[key.watch].name;
  }

  lemma OthersKeepConfigured(cfg: Config, t: Tables, e: Timed)
    requires Inv(t) && AllConfigured(cfg, t) && !e.event.EEnqueue?
    ensures AllConfigured(cfg, Step(t, e))
  {
    forall j | j in Step(t, e).jobs ensures Configured(cfg, Step(t, e).jobs[j]) {
      assert j in t.jobs && Configured(cfg, t.jobs[j]);
      QueueRuns.TerminalJobsAreFinal(t, e, j);
    }
  }

  lemma {:induction false} EveryJobIsConfigured(cfg: Config, trace: seq<Label>)
    requires ValidConfig(cfg)
    ensures AllConfigured(cfg, Reached(cfg, trace).tables)
    decreases |trace|
  {
    if trace != [] {
      var before, l := trace[..|trace| - 1], trace[|trace| - 1];
      var s := Reached(cfg, before);
      EveryJobIsConfigured(cfg, before);
      EveryReachedKeepsCache(cfg, before);
      var e := StepIsTransaction(cfg, s, l);
      if e.Some? && e.value.event.EEnqueue? {
        EnqueueKeepsConfigured(cfg, s.tables, s.live[l.t].key, s.live[l.t].phase.fingerprint, e.value.now);
      } else if e.Some? {
        OthersKeepConfigured(cfg, s.tables, e.value);
      }
    }
  }

  /////////////// Handled and skipped files have their job ///////////////

  /** This row is the job of a watch's file in the version that the watch distinguishes. */
  predicate IsJobOf(cfg: Config, j: Job, key: Key, fingerprint: string)
    requires key.watch < |cfg.watches|
  {
    && j.watch == cfg.watches[key.watch].name && j.path == key.path && j.maxRetries == cfg.maxRetries
    && j.fingerprint == if cfg.watches[key.watch].reprocess then fingerprint else "onderzeeer:path"
  }

  /** Once the handler has accepted a file, or the cache has skipped it, its job is in the table. */
  lemma HandledIsFiled(cfg: Config, trace: seq<Label>, t: nat) returns (j: int)
    requires ValidConfig(cfg) && t in Reached(cfg, trace).live && NeedsJob(Reached(cfg, trace).live[t].phase)
    ensures var s := Reached(cfg, trace);
            && s.live[t].key.watch < |cfg.watches| && j in s.tables.jobs
            && IsJobOf(cfg, s.tables.jobs[j], s.live[t].key, s.live[t].phase.fingerprint)
  {
    var s := Reached(cfg, trace);
    EveryReachedKeepsCache(cfg, trace);
    EveryJobIsConfigured(cfg, trace);
    assert Filed(cfg, s.tables, s.live[t].key, s.live[t].phase.fingerprint);
    var p := Params(cfg, s.live[t].key, s.live[t].phase.fingerprint);
    j :| j in s.tables.jobs && SameKey(s.tables.jobs[j], p);
    assert Configured(cfg, s.tables.jobs[j]);
  }

  lemma JobStays(cfg: Config, s: State, l: Label, j: int)
    requires Inv(s.tables) && j in s.tables.jobs
    ensures j in Next(cfg, s, l).tables.jobs && QueueRuns.SameIdentity(s.tables.jobs[j], Next(cfg, s, l).tables.jobs[j])
  {
    var e := StepIsTransaction(cfg, s, l);
    if e.Some? {
      QueueRuns.TerminalJobsAreFinal(s.tables, e.value, j);
    }
  }

  lemma ReachedMore(cfg: Config, trace: seq<Label>, more: seq<Label>)
    requires more != []
    ensures Reached(cfg, trace + more) == Next(cfg, Reached(cfg, trace + more[..|more| - 1]), more[|more| - 1])
  {
    assert (trace + more)[..|trace + more| - 1] == trace + more[..|more| - 1];
  }

  /** No job disappears or becomes the job of another file or version. */
  lemma {:induction false} JobsStay(cfg: Config, trace: seq<Label>, more: seq<Label>, j: int)
    requires ValidConfig(cfg) && j in Reached(cfg, trace).tables.jobs
    ensures j in Reached(cfg, trace + more).tables.jobs
    ensures QueueRuns.SameIdentity(Reached(cfg, trace).tables.jobs[j], Reached(cfg, trace + more).tables.jobs[j])
    decreases |more|
  {
    if more == [] {
      assert trace + more == trace;
    } else {
      var before := trace + more[..|more| - 1];
      JobsStay(cfg, trace, more[..|more| - 1], j);
      EveryReachedKeepsCache(cfg, before);
      ReachedMore(cfg, trace, more);
      JobStays(cfg, Reached(cfg, before), more[|more| - 1], j);
    }
  }

  /**
    Main result: when a watch reprocesses changes, two versions of a file that were handled or skipped at any two
    moments of a run, with any evictions and restarts in between, have two jobs.
  */
  lemma ChangedFileIsFiledAgain(cfg: Config, trace: seq<Label>, more: seq<Label>, t: nat, v: nat) returns (a: int, b: int)
    requires ValidConfig(cfg)
    requires t in Reached(cfg, trace).live && NeedsJob(Reached(cfg, trace).live[t].phase)
    requires v in Reached(cfg, trace + more).live && NeedsJob(Reached(cfg, trace + more).live[v].phase)
    requires var g, h := Reached(cfg, trace).live[t], Reached(cfg, trace + more).live[v];
             && g.key == h.key && g.phase.fingerprint != h.phase.fingerprint
             && g.key.watch < |cfg.watches| && cfg.watches[g.key.watch].reprocess
    ensures var g, h := Reached(cfg, trace).live[t], Reached(cfg, trace + more).live[v];
            var jobs := Reached(cfg, trace + more).tables.jobs;
            && a != b && a in jobs && b in jobs
            && IsJobOf(cfg, jobs[a], g.key, g.phase.fingerprint) && IsJobOf(cfg, jobs[b], g.key, h.phase.fingerprint)
  {
    a := HandledIsFiled(cfg, trace, t);
    b := HandledIsFiled(cfg, trace + more, v);
    JobsStay(cfg, trace, more, a);
  }

  /////////////// What the cache is for ///////////////

  lemma RecordRemembers(cfg: Config, s: State, t: nat, evict: Key)
    requires cfg.cache && Enabled(cfg, s, Record(t, evict))
    ensures Next(cfg, s, Record(t, evict)).delivered == RecordDelivered(s.delivered, s.live[t].key, s.live[t].phase.fingerprint, evict)
  {
    var Handled(version, seen, f) := s.live[t].phase;
    var u := s.(delivered := RecordDelivered(s.delivered, s.live[t].key, f, evict));
    assert Next(cfg, s, Record(t, evict)) == if Version(s, t) == version then Exit(u, t, true) else To(u, t, Top);
  }

  /** A file that was just recorded as handled is skipped when it settles with the same fingerprint, and with another exactly if the watch does not reprocess. */
  lemma RecordedIsSkipped(cfg: Config, s: State, t: nat, evict: Key, fingerprint: string)
    requires cfg.cache && Enabled(cfg, s, Record(t, evict)) && s.live[t].key.watch < |cfg.watches|
    ensures Skips(cfg, Next(cfg, s, Record(t, evict)), s.live[t].key, fingerprint) <==>
            !cfg.watches[s.live[t].key.watch].reprocess || fingerprint == s.live[t].phase.fingerprint
  {
    RecordRemembers(cfg, s, t, evict);
  }

  /** Recording evicts nothing but the one entry that was chosen, and that only when a new key meets a full cache. */
  lemma OnlyTheVictimIsEvicted(cfg: Config, s: State, t: nat, evict: Key, key: Key)
    requires cfg.cache && Enabled(cfg, s, Record(t, evict)) && key in s.delivered && key != s.live[t].key
    ensures var d := Next(cfg, s, Record(t, evict)).delivered;
            if s.live[t].key !in s.delivered && |s.delivered| >= 4096 && key == evict then key !in d
            else key in d && d[key] == s.delivered[key]
  {
    RecordRemembers(cfg, s, t, evict);
  }
}
