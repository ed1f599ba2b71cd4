/**
  The watcher's settle protocol.  Each lock region of schedule and settle is one step,
  and so is each return of WaitStable and of the handler; steps of any number of
  goroutines interleave freely.  A goroutine is named by the pending entry it was
  started for.  `calls` only counts schedule calls, for stating what is not lost.
*/
module Watcher {
  import opened Text
  import opened Queue
  import QueueRuns

  const MAX_PENDING: nat := 1024
  const MAX_DELIVERED: nat := 4096
  const SINGLE_VERSION := "onderzeeer:path"

  datatype Watch = Watch(name: string, reprocess: bool)

  datatype Config = Config(watches: seq<Watch>, maxRetries: int, cache: bool)

  /** The map key: watch index and cleaned path. */
  datatype Key = Key(watch: nat, path: string)

  /** Where a settle goroutine stands.  `version` is what it read; `seen` counts the schedule calls made by then. */
  datatype Phase =
    | Top
    | Waiting(version: nat, seen: nat)
    | Stable(version: nat, seen: nat, fingerprint: string)
    | Skipping(version: nat, seen: nat, fingerprint: string)
    | Delivering(version: nat, seen: nat, fingerprint: string)
    | Handling(version: nat, seen: nat, fingerprint: string)
    | Handled(version: nat, seen: nat, fingerprint: string)
    | Aborting(version: nat, seen: nat)

  datatype Settler = Settler(key: Key, phase: Phase)

  datatype State = State(
    pending: map<Key, nat>,
    versions: map<nat, nat>,
    live: map<nat, Settler>,
    delivered: map<Key, string>,
    tables: Tables,
    nextEntry: nat,
    calls: map<Key, nat>)

  const START := State(map[], map[], map[], map[], EMPTY, 0, map[])

  datatype Label =
    | Schedule(key: Key)
    | Begin(t: nat)                       // the top of the loop: is the entry still mine, and at which version
    | Settled(t: nat, fingerprint: string)  // WaitStable returned a snapshot
    | Unstable(t: nat)                    // WaitStable returned an error
    | Decide(t: nat)                      // under the lock: compare versions, then ask the cache
    | FinishSkip(t: nat)                  // finishPendingIfCurrent
    | Enter(t: nat)                       // the root is still valid; the handler is called
    | RootLost(t: nat)
    | Return(t: nat, now: int)            // the handler returned nil
    | Refuse(t: nat, now: int, committed: bool) // the handler returned an error
    | Record(t: nat, evict: Key)          // under the lock: remember the delivery, then compare versions
    | Remove(t: nat)                      // removePending on an error exit
    | Elsewhere(e: Timed)                 // any other transaction on the store
    | Restart

  /** handleFile: the fingerprint a job is filed under. */
  function Params(cfg: Config, key: Key, fingerprint: string): EnqueueParams
    requires key.watch < |cfg.watches|
  {
    var w := cfg.watches[key.watch];
    EnqueueParams(w.name, key.path, if w.reprocess then fingerprint else SINGLE_VERSION, cfg.maxRetries, None)
  }

  predicate Skips(cfg: Config, s: State, key: Key, fingerprint: string)
    requires key.watch < |cfg.watches|
  {
    cfg.cache && key in s.delivered && (!cfg.watches[key.watch].reprocess || s.delivered[key] == fingerprint)
  }

  predicate Current(s: State, t: nat)
    requires t in s.live
  {
    s.live[t].key in s.pending && s.pending[s.live[t].key] == t
  }

  function To(s: State, t: nat, phase: Phase): State
    requires t in s.live
  {
    s.(live := s.live[t := s.live[t].(phase := phase)])
  }

  /** The goroutine returns; it deletes its pending entry first when `remove` holds. */
  function Exit(s: State, t: nat, remove: bool): State
    requires t in s.live
  {
    s.(live := s.live - {t}, pending := if remove then s.pending - {s.live[t].key} else s.pending)
  }

  function ScheduleStep(s: State, key: Key): State {
    var counted := s.calls[key := 1 + if key in s.calls then s.calls[key] else 0];
    if key in s.pending then
      var t := s.pending[key];
      s.(versions := s.versions[t := 1 + if t in s.versions then s.versions[t] else 0], calls := counted)
    else if |s.pending| >= MAX_PENDING then s
    else
      var t := s.nextEntry;
      s.(pending := s.pending[key := t], versions := s.versions[t := 1],
         live := s.live[t := Settler(key, Top)], nextEntry := t + 1, calls := counted)
  }

  /** recordDeliveredLocked, with the evicted entry chosen by the environment. */
  function RecordDelivered(delivered: map<Key, string>, key: Key, fingerprint: string, evict: Key): (r: map<Key, string>)
    requires key !in delivered && |delivered| >= MAX_DELIVERED ==> evict in delivered
    ensures |delivered| <= MAX_DELIVERED ==> |r| <= MAX_DELIVERED
    ensures key in r && r[key] == fingerprint
    ensures forall k | k in r :: k == key || (k in delivered && r[k] == delivered[k])
  {
    (if key !in delivered && |delivered| >= MAX_DELIVERED then
       assert |delivered - {evict}| == |delivered| - 1 by { Removed(delivered, evict); }
       delivered - {evict}
     else delivered)[key := fingerprint]
  }

  lemma Removed<K, V>(m: map<K, V>, k: K)
    requires k in m
    ensures |m - {k}| == |m| - 1
  {
    assert (m - {k}).Keys == m.Keys - {k};
    assert |(m - {k}).Keys| == |m.Keys| - 1;
  }

  predicate Enabled(cfg: Config, s: State, l: Label) {
    match l
    case Schedule(key) => key.watch < |cfg.watches|
    case Begin(t) => t in s.live && s.live[t].phase.Top?
    case Settled(t, _) => t in s.live && s.live[t].phase.Waiting?
    case Unstable(t) => t in s.live && s.live[t].phase.Waiting?
    case Decide(t) => t in s.live && s.live[t].phase.Stable? && s.live[t].key.watch < |cfg.watches|
    case FinishSkip(t) => t in s.live && s.live[t].phase.Skipping?
    case Enter(t) => t in s.live && s.live[t].phase.Delivering?
    case RootLost(t) => t in s.live && s.live[t].phase.Delivering?
    case Return(t, _) =>
      t in s.live && s.live[t].phase.Handling? && s.live[t].key.watch < |cfg.watches|
      && ValidParams(Params(cfg, s.live[t].key, s.live[t].phase.fingerprint))
    case Refuse(t, _, _) => t in s.live && s.live[t].phase.Handling? && s.live[t].key.watch < |cfg.watches|
    case Record(t, evict) =>
      t in s.live && s.live[t].phase.Handled?
      && (s.live[t].key !in s.delivered && |s.delivered| >= MAX_DELIVERED ==> evict in s.delivered)
    case Remove(t) => t in s.live && s.live[t].phase.Aborting?
    case Elsewhere(e) => !e.event.EEnqueue?
    case Restart => true
  }

  function Version(s: State, t: nat): nat {
    if t in s.versions then s.versions[t] else 0
  }

  function Calls(s: State, key: Key): nat {
    if key in s.calls then s.calls[key] else 0
  }

  ghost function Next(cfg: Config, s: State, l: Label): State {
    if !Enabled(cfg, s, l) then s
    else match l
      case Schedule(key) => ScheduleStep(s, key)
      case Begin(t) =>
        if !Current(s, t) then Exit(s, t, false) else To(s, t, Waiting(Version(s, t), Calls(s, s.live[t].key)))
      case Settled(t, f) => To(s, t, Stable(s.live[t].phase.version, s.live[t].phase.seen, f))
      case Unstable(t) => To(s, t, Aborting(s.live[t].phase.version, s.live[t].phase.seen))
      case Decide(t) =>
        var Stable(version, seen, f) := s.live[t].phase;
        To(s, t, if Version(s, t) != version then Top
                 else if Skips(cfg, s, s.live[t].key, f) then Skipping(version, seen, f) else Delivering(version, seen, f))
      case FinishSkip(t) =>
        if Current(s, t) && Version(s, t) == s.live[t].phase.version then Exit(s, t, true) else To(s, t, Top)
      case Enter(t) =>
        var Delivering(version, seen, f) := s.live[t].phase;
        To(s, t, Handling(version, seen, f))
      case RootLost(t) => To(s, t, Aborting(s.live[t].phase.version, s.live[t].phase.seen))
      case Return(t, now) =>
        var Handling(version, seen, f) := s.live[t].phase;
        To(s, t, Handled(version, seen, f)).(tables := Enqueue(s.tables, Params(cfg, s.live[t].key, f), now))
      case Refuse(t, now, committed) =>
        var Handling(version, seen, f) := s.live[t].phase;
        To(s, t, Aborting(version, seen)).(
          tables := if committed then Enqueue(s.tables, Params(cfg, s.live[t].key, f), now) else s.tables)
      case Record(t, evict) =>
        var Handled(version, seen, f) := s.live[t].phase;
        var u := if cfg.cache then s.(delivered := RecordDelivered(s.delivered, s.live[t].key, f, evict)) else s;
        if Version(s, t) == version then Exit(u, t, true) else To(u, t, Top)
      case Remove(t) => Exit(s, t, Current(s, t))
      case Elsewhere(e) => s.(tables := Step(s.tables, e))
      case Restart => s.(pending := map[], live := map[], delivered := map[])
  }

  ghost function Reached(cfg: Config, trace: seq<Label>): State
    decreases |trace|
  {
    if trace == [] then START else Next(cfg, Reached(cfg, trace[..|trace| - 1]), trace[|trace| - 1])
  }

  /////////////// The protocol invariant ///////////////

  /** A goroutine owns its key's entry, and its version lags the entry exactly when schedule was called since. */
  predicate SettlerOk(cfg: Config, s: State, t: nat, g: Settler) {
    && t < s.nextEntry && t in s.versions && g.key in s.calls
    && g.key in s.pending && s.pending[g.key] == t && g.key.watch < |cfg.watches|
    && (!g.phase.Top? ==>
          && g.phase.version <= s.versions[t] && g.phase.seen <= s.calls[g.key]
          && s.versions[t] - g.phase.version == s.calls[g.key] - g.phase.seen)
  }

  ghost predicate Protocol(cfg: Config, s: State) {
    && (forall t | t in s.live :: SettlerOk(cfg, s, t, s.live[t]))
    && (forall key | key in s.pending :: s.pending[key] in s.live && s.live[s.pending[key]].key == key)
    && |s.pending| <= MAX_PENDING
    && |s.delivered| <= MAX_DELIVERED
  }

  /** schedule finds the key pending: only the version and the call count move, together. */
  lemma RescheduleKeeps(cfg: Config, s: State, key: Key)
    requires Protocol(cfg, s) && key in s.pending
    ensures Protocol(cfg, ScheduleStep(s, key))
  {
    var u := ScheduleStep(s, key);
    forall t | t in u.live
      ensures SettlerOk(cfg, u, t, u.live[t])
    {
      assert SettlerOk(cfg, s, t, s.live[t]);
    }
  }

  lemma CreateKeeps(cfg: Config, s: State, key: Key)
    requires Protocol(cfg, s) && key !in s.pending && |s.pending| < MAX_PENDING && key.watch < |cfg.watches|
    ensures Protocol(cfg, ScheduleStep(s, key))
  {
    var u := ScheduleStep(s, key);
    forall t | t in u.live
      ensures SettlerOk(cfg, u, t, u.live[t])
    {
      if t != s.nextEntry { assert SettlerOk(cfg, s, t, s.live[t]); }
    }
    forall k | k in u.pending
      ensures u.pending[k] in u.live && u.live[u.pending[k]].key == k
    {
      if k != key { assert SettlerOk(cfg, s, s.pending[k], s.live[s.pending[k]]); }
    }
  }

  /** A step that only moves one goroutine to another phase, keeping what it read. */
  lemma ToKeeps(cfg: Config, s: State, t: nat, phase: Phase)
    requires Protocol(cfg, s) && t in s.live && SettlerOk(cfg, s, t, Settler(s.live[t].key, phase))
    ensures Protocol(cfg, To(s, t, phase))
  {
    var u := To(s, t, phase);
    assert forall v | v in s.live :: SettlerOk(cfg, s, v, s.live[v]);
    assert forall v | v in u.live :: SettlerOk(cfg, u, v, u.live[v]);
  }

  lemma ExitKeeps(cfg: Config, s: State, t: nat)
    requires Protocol(cfg, s) && t in s.live
    ensures Protocol(cfg, Exit(s, t, true))
  {
    var u := Exit(s, t, true);
    assert forall v | v in s.live :: SettlerOk(cfg, s, v, s.live[v]);
    assert forall v | v in u.live :: SettlerOk(cfg, u, v, u.live[v]);
    Removed(s.pending, s.live[t].key);
  }

  lemma TablesKeep(cfg: Config, s: State, t: Tables)
    requires Protocol(cfg, s)
    ensures Protocol(cfg, s.(tables := t))
  {
    assert forall v | v in s.live :: SettlerOk(cfg, s, v, s.live[v]) && SettlerOk(cfg, s.(tables := t), v, s.live[v]);
  }

  lemma MoveKeeps(cfg: Config, s: State, t: nat, phase: Phase, tables: Tables)
    requires Protocol(cfg, s) && t in s.live
    requires phase.Top? || (!s.live[t].phase.Top? && phase.version == s.live[t].phase.version && phase.seen == s.live[t].phase.seen)
    ensures Protocol(cfg, To(s, t, phase).(tables := tables))
  {
    assert SettlerOk(cfg, s, t, s.live[t]);
    ToKeeps(cfg, s, t, phase);
    TablesKeep(cfg, To(s, t, phase), tables);
  }

  lemma BeginKeeps(cfg: Config, s: State, l: Label)
    requires Protocol(cfg, s) && Enabled(cfg, s, l) && l.Begin?
    ensures Protocol(cfg, Next(cfg, s, l))
  {
    var t := l.t;
    assert SettlerOk(cfg, s, t, s.live[t]);
    ToKeeps(cfg, s, t, Waiting(Version(s, t), Calls(s, s.live[t].key)));
  }

  lemma FinishSkipKeeps(cfg: Config, s: State, l: Label)
    requires Protocol(cfg, s) && Enabled(cfg, s, l) && l.FinishSkip?
    ensures Protocol(cfg, Next(cfg, s, l))
  {
    var t := l.t;
    ExitKeeps(cfg, s, t);
    TopKeeps(cfg, s, t);
  }

  lemma RemoveKeeps(cfg: Config, s: State, l: Label)
    requires Protocol(cfg, s) && Enabled(cfg, s, l) && l.Remove?
    ensures Protocol(cfg, Next(cfg, s, l))
  {
    var t := l.t;
    assert SettlerOk(cfg, s, t, s.live[t]);
    assert Next(cfg, s, l) == Exit(s, t, true);
    ExitKeeps(cfg, s, t);
  }

  lemma TopKeeps(cfg: Config, s: State, t: nat)
    requires Protocol(cfg, s) && t in s.live
    ensures Protocol(cfg, To(s, t, Top))
  {
    assert SettlerOk(cfg, s, t, s.live[t]);
    ToKeeps(cfg, s, t, Top);
  }

  lemma PhaseKeeps(cfg: Config, s: State, l: Label)
    requires Protocol(cfg, s) && Enabled(cfg, s, l) && (l.Settled? || l.Unstable? || l.Decide? || l.Enter? || l.RootLost?)
    ensures Protocol(cfg, Next(cfg, s, l))
  {
    var u := Next(cfg, s, l);
    assert u == To(s, l.t, u.live[l.t].phase).(tables := s.tables);
    MoveKeeps(cfg, s, l.t, u.live[l.t].phase, s.tables);
  }

  lemma HandlerKeeps(cfg: Config, s: State, l: Label)
    requires Protocol(cfg, s) && Enabled(cfg, s, l) && (l.Return? || l.Refuse?)
    ensures Protocol(cfg, Next(cfg, s, l))
  {
    var u := Next(cfg, s, l);
    assert u == To(s, l.t, u.live[l.t].phase).(tables := u.tables);
    MoveKeeps(cfg, s, l.t, u.live[l.t].phase, u.tables);
  }

  lemma ScheduleKeeps(cfg: Config, s: State, l: Label)
    requires Protocol(cfg, s) && Enabled(cfg, s, l) && l.Schedule?
    ensures Protocol(cfg, Next(cfg, s, l))
  {
    var key := l.key;
    assert Next(cfg, s, l) == ScheduleStep(s, key);
    if key in s.pending {
      RescheduleKeeps(cfg, s, key);
    } else if |s.pending| < MAX_PENDING {
      CreateKeeps(cfg, s, key);
    }
  }

  /** Steps that no goroutine takes. */
  lemma OutsideKeeps(cfg: Config, s: State, l: Label)
    requires Protocol(cfg, s) && Enabled(cfg, s, l) && (l.Elsewhere? || l.Restart?)
    ensures Protocol(cfg, Next(cfg, s, l))
  {
    if l.Elsewhere? {
      TablesKeep(cfg, s, Step(s.tables, l.e));
    }
  }

  predicate Outside(l: Label) {
    l.Schedule? || l.Elsewhere? || l.Restart?
  }

  lemma GoroutineKeeps(cfg: Config, s: State, l: Label)
    requires Protocol(cfg, s) && Enabled(cfg, s, l) && !Outside(l)
    ensures Protocol(cfg, Next(cfg, s, l))
  {
    if l.Begin? {
      BeginKeeps(cfg, s, l);
    } else if l.Record? {
      RecordKeeps(cfg, s, l);
    } else if l.FinishSkip? {
      FinishSkipKeeps(cfg, s, l);
    } else if l.Remove? {
      RemoveKeeps(cfg, s, l);
    } else if l.Return? || l.Refuse? {
      HandlerKeeps(cfg, s, l);
    } else {
      PhaseKeeps(cfg, s, l);
    }
  }

  lemma NextKeeps(cfg: Config, s: State, l: Label)
    requires Protocol(cfg, s)
    ensures Protocol(cfg, Next(cfg, s, l))
  {
    if Enabled(cfg, s, l) {
      if l.Schedule? {
        ScheduleKeeps(cfg, s, l);
      } else if Outside(l) {
        OutsideKeeps(cfg, s, l);
      } else {
        GoroutineKeeps(cfg, s, l);
      }
    }
  }

  lemma RecordKeeps(cfg: Config, s: State, l: Label)
    requires Protocol(cfg, s) && Enabled(cfg, s, l) && l.Record?
    ensures Protocol(cfg, Next(cfg, s, l))
  {
    var t, evict := l.t, l.evict;
    assert SettlerOk(cfg, s, t, s.live[t]);
    var Handled(version, seen, f) := s.live[t].phase;
    var v := if cfg.cache then s.(delivered := RecordDelivered(s.delivered, s.live[t].key, f, evict)) else s;
    assert forall g | g in s.live :: SettlerOk(cfg, s, g, s.live[g]) && SettlerOk(cfg, v, g, s.live[g]);
    if Version(s, t) == version { ExitKeeps(cfg, v, t); } else { ToKeeps(cfg, v, t, Top); }
  }

  lemma {:induction false} EveryReachedKeeps(cfg: Config, trace: seq<Label>)
    ensures Protocol(cfg, Reached(cfg, trace))
    decreases |trace|
  {
    if trace != [] {
      EveryReachedKeeps(cfg, trace[..|trace| - 1]);
      NextKeeps(cfg, Reached(cfg, trace[..|trace| - 1]), trace[|trace| - 1]);
    }
  }

  /////////////// No lost event ///////////////

  /** The steps at which settle gives up an entry after handling or skipping its file. */
  predicate FinishesNormally(l: Label) {
    l.FinishSkip? || l.Record?
  }

  /**
    Whenever an entry is removed on a normal exit, the snapshot that was handled or skipped came
    from a WaitStable call begun after the last schedule call for its key.
  */
  lemma NoLostEvent(cfg: Config, trace: seq<Label>, l: Label, key: Key)
    requires var s := Reached(cfg, trace); key in s.pending && key !in Next(cfg, s, l).pending && FinishesNormally(l)
    ensures var s := Reached(cfg, trace);
      s.pending[key] == l.t && l.t in s.live && s.live[l.t].key == key
      && !s.live[l.t].phase.Top? && s.live[l.t].phase.seen == Calls(s, key)
  {
    EveryReachedKeeps(cfg, trace);
    NormalExit(cfg, Reached(cfg, trace), l, key);
  }

  /** The goroutine gives its entry up only when it has seen all calls for its key. */
  lemma SeenAll(cfg: Config, s: State, t: nat)
    requires Protocol(cfg, s) && t in s.live && !s.live[t].phase.Top? && Version(s, t) == s.live[t].phase.version
    ensures s.pending[s.live[t].key] == t && s.live[t].phase.seen == Calls(s, s.live[t].key)
  {
    assert SettlerOk(cfg, s, t, s.live[t]);
  }

  /** Only the goroutine that was started for an entry removes it, and on a normal exit at the version it read. */
  lemma WhoRemoves(cfg: Config, s: State, l: Label, key: Key)
    requires key in s.pending && key !in Next(cfg, s, l).pending && FinishesNormally(l)
    ensures l.t in s.live && s.live[l.t].key == key && !s.live[l.t].phase.Top? && Version(s, l.t) == s.live[l.t].phase.version
  {
  }

  lemma NormalExit(cfg: Config, s: State, l: Label, key: Key)
    requires Protocol(cfg, s) && key in s.pending && key !in Next(cfg, s, l).pending && FinishesNormally(l)
    ensures s.pending[key] == l.t && l.t in s.live && s.live[l.t].key == key
    ensures !s.live[l.t].phase.Top? && s.live[l.t].phase.seen == Calls(s, key)
  {
    WhoRemoves(cfg, s, l, key);
    SeenAll(cfg, s, l.t);
  }

  /** An error exit drops the entry unseen; it loses nothing exactly when the version it read is still current. */
  lemma ErrorExitLosesIffRescheduled(cfg: Config, trace: seq<Label>, t: nat)
    requires var s := Reached(cfg, trace); t in s.live && s.live[t].phase.Aborting?
    ensures var s := Reached(cfg, trace); var key := s.live[t].key;
      && key in s.pending && key !in Next(cfg, s, Remove(t)).pending
      && (s.live[t].phase.seen == Calls(s, key) <==> s.live[t].phase.version == Version(s, t))
  {
    EveryReachedKeeps(cfg, trace);
    var s := Reached(cfg, trace);
    assert SettlerOk(cfg, s, t, s.live[t]);
  }

  /** And it can lose one: a file scheduled again while WaitStable fails on it is forgotten. */
  lemma ErrorExitCanLose()
    ensures var cfg, key := Config([Watch("w", true)], 0, true), Key(0, "/f");
      var s := Reached(cfg, [Schedule(key), Begin(0), Schedule(key), Unstable(0)]);
      && 0 in s.live && s.live[0].phase.Aborting? && s.live[0].phase.seen < Calls(s, key)
      && Next(cfg, s, Remove(0)).pending == map[] && Next(cfg, s, Remove(0)).live == map[]
  {
    var cfg, key := Config([Watch("w", true)], 0, true), Key(0, "/f");
    var t2 := [Schedule(key), Begin(0)];
    assert t2[..1] == [Schedule(key)] && [Schedule(key)][..0] == [];
    var s1 := State(map[key := 0], map[0 := 1], map[0 := Settler(key, Top)], map[], EMPTY, 1, map[key := 1]);
    assert Reached(cfg, [Schedule(key)]) == Next(cfg, START, Schedule(key)) == s1;
    var s2 := s1.(live := map[0 := Settler(key, Waiting(1, 1))]);
    assert Reached(cfg, t2) == Next(cfg, s1, Begin(0)) == s2;
    RescheduledThenLost(cfg, key, t2, s2);
    assert t2 + [Schedule(key), Unstable(0)] == [Schedule(key), Begin(0), Schedule(key), Unstable(0)];
  }

  lemma Rescheduled(cfg: Config, key: Key, s: State)
    requires s.pending == map[key := 0] && s.live == map[0 := Settler(key, Waiting(1, 1))]
    requires key.watch < |cfg.watches| && Calls(s, key) == 1
    ensures var u := Next(cfg, s, Schedule(key)); u.live == s.live && u.pending == s.pending && Calls(u, key) == 2
  {
  }

  lemma ThenLost(cfg: Config, key: Key, s: State)
    requires s.pending == map[key := 0] && s.live == map[0 := Settler(key, Waiting(1, 1))]
    ensures var u := Next(cfg, s, Unstable(0));
      && u.live == map[0 := Settler(key, Aborting(1, 1))] && u.calls == s.calls
      && Next(cfg, u, Remove(0)).pending == map[] && Next(cfg, u, Remove(0)).live == map[]
  {
    var u := Next(cfg, s, Unstable(0));
    assert u == To(s, 0, Aborting(1, 1));
    assert Next(cfg, u, Remove(0)) == Exit(u, 0, true);
  }

  lemma RescheduledThenLost(cfg: Config, key: Key, before: seq<Label>, s: State)
    requires Reached(cfg, before) == s && s.pending == map[key := 0] && s.live == map[0 := Settler(key, Waiting(1, 1))]
    requires key.watch < |cfg.watches| && Calls(s, key) == 1
    ensures var u := Reached(cfg, before + [Schedule(key), Unstable(0)]);
      && u.live == map[0 := Settler(key, Aborting(1, 1))] && Calls(u, key) == 2
      && Next(cfg, u, Remove(0)).pending == map[] && Next(cfg, u, Remove(0)).live == map[]
  {
    var t3 := before + [Schedule(key)];
    var t4 := before + [Schedule(key), Unstable(0)];
    assert t3[..|before|] == before && t4[..|before| + 1] == t3;
    Rescheduled(cfg, key, s);
    ThenLost(cfg, key, Reached(cfg, t3));
  }

  /**
    The handler is called, or the file is skipped, only on a snapshot that no schedule call has overtaken: at the moment
    of that decision, WaitStable had begun after the last schedule call for the key.  Otherwise the loop starts again.
  */
  lemma DecidedOnFreshSnapshot(cfg: Config, trace: seq<Label>, t: nat)
    requires Enabled(cfg, Reached(cfg, trace), Decide(t))
    ensures var s, u := Reached(cfg, trace), Next(cfg, Reached(cfg, trace), Decide(t));
      && t in u.live && u.live[t].key == s.live[t].key && u.live.Keys == s.live.Keys && u.pending == s.pending
      && if s.live[t].phase.seen != Calls(s, s.live[t].key) then u.live[t].phase == Top
         else
           && (u.live[t].phase.Skipping? || u.live[t].phase.Delivering?)
           && u.live[t].phase.fingerprint == s.live[t].phase.fingerprint && u.live[t].phase.seen == s.live[t].phase.seen
  {
    EveryReachedKeeps(cfg, trace);
    var s := Reached(cfg, trace);
    assert SettlerOk(cfg, s, t, s.live[t]);
  }

  /** A schedule call is refused exactly for a new key while 1024 are pending; otherwise its key is pending with a goroutine and the call counts. */
  lemma ScheduleIsRefusedIff(cfg: Config, trace: seq<Label>, key: Key)
    requires key.watch < |cfg.watches|
    ensures var s, u := Reached(cfg, trace), Next(cfg, Reached(cfg, trace), Schedule(key));
      if key !in s.pending && |s.pending| == 1024 then u == s
      else key in u.pending && u.pending[key] in u.live && Calls(u, key) == Calls(s, key) + 1
           && Version(u, u.pending[key]) == (if key in s.pending then Version(s, s.pending[key]) else 0) + 1
  {
    EveryReachedKeeps(cfg, trace);
  }

  /** Every goroutine owns its entry, so the early return at the top of the loop is never taken. */
  lemma OwnersStayCurrent(cfg: Config, trace: seq<Label>, t: nat)
    requires t in Reached(cfg, trace).live
    ensures Current(Reached(cfg, trace), t)
    ensures Next(cfg, Reached(cfg, trace), Begin(t)).live.Keys == Reached(cfg, trace).live.Keys
  {
    EveryReachedKeeps(cfg, trace);
    var s := Reached(cfg, trace);
    assert SettlerOk(cfg, s, t, s.live[t]);
  }

  /** One goroutine per key: the handler never runs concurrently with itself for a key, and the bounds hold. */
  lemma HandlerIsExclusive(cfg: Config, trace: seq<Label>)
    ensures var s := Reached(cfg, trace);
      && (forall t, v | t in s.live && v in s.live && s.live[t].key == s.live[v].key :: t == v)
      && |s.pending| <= 1024 && |s.delivered| <= 4096
  {
    EveryReachedKeeps(cfg, trace);
    var s := Reached(cfg, trace);
    assert forall t | t in s.live :: SettlerOk(cfg, s, t, s.live[t]);
  }
}
