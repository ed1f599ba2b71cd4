/**
 * The in-memory supervisor. Every region under the manager's mutex is one step: a start takes the gate,
 * snapshots the active maps, validates the snapshot with the mutex released, and reserves only if the maps
 * still match it; meanwhile stops, shutdowns and runner exits take their own steps.
 */
module Supervisor {
  import opened Text
  import opened Names

  // ---- The file system, fixed while starts are validated ----

  /** What a canonical path addresses: a file, a missing name under an existing directory, or an error. */
  datatype FileId = Existing(inode: nat) | Missing(name: string) | Unreadable

  datatype FileSystem = FileSystem(id: string -> FileId, fold: string -> string)

  /** os.SameFile on two stats. */
  predicate SameFile(fs: FileSystem, p: string, q: string) { fs.id(p).Existing? && fs.id(p) == fs.id(q) }

  /** config.PathsEquivalent. */
  predicate Equivalent(fs: FileSystem, p: string, q: string) { p == q || (fs.id(p) != Unreadable && fs.id(p) == fs.id(q)) }

  /** Two config paths are of one file: the same text, the same file, or equivalent paths that differ in case only. */
  predicate SameConfig(fs: FileSystem, p: string, q: string) {
    p == q || SameFile(fs, p, q) || (fs.fold(p) == fs.fold(q) && Equivalent(fs, p, q))
  }

  // ---- State ----

  datatype Life = Running | Stopping | Exited | Failed

  datatype Instance = Instance(id: string, name: string, config: string, database: string, life: Life,
                               createdAt: int, finishedAt: int, removeOnExit: bool)
  {
    predicate Active() { life.Running? || life.Stopping? }
  }

  datatype Candidate = Candidate(config: string, database: string, nameBase: string)
  datatype Prepared = Prepared(candidate: Candidate, id: string, name: string)

  /** The start that holds the gate: how many instances were active when it took it, and its rounds so far. */
  datatype Start =
    | Idle
    | Gated(candidates: seq<Candidate>, active: nat, rounds: nat)
    | Snapped(candidates: seq<Candidate>, active: nat, rounds: nat, configs: map<string, string>, databases: map<string, string>)

  datatype State = State(instances: map<string, Instance>, names: map<string, string>, configs: map<string, string>,
                         databases: map<string, string>, shuttingDown: bool, start: Start)

  const EMPTY := State(map[], map[], map[], map[], false, Idle)

  datatype Label =
    | Acquire(candidates: seq<Candidate>)
    | Snapshot
    | Retry
    | Abandon
    | Reserve(items: seq<Prepared>, now: int, removeOnExit: bool)
    | BeginStop(id: string)
    | BeginShutdown
    | Finish(id: string, failed: bool, now: int, victims: set<string>)

  // ---- Validation of candidates ----

  /** No two candidates share a config file or a database. */
  predicate Apart(fs: FileSystem, a: Candidate, b: Candidate) {
    !SameConfig(fs, a.config, b.config) && !Equivalent(fs, a.database, b.database)
  }

  predicate AllApart(fs: FileSystem, candidates: seq<Candidate>) {
    && (forall i | 0 <= i < |candidates| :: fs.id(candidates[i].database) != Unreadable)
    && forall i, j | 0 <= i < j < |candidates| :: Apart(fs, candidates[i], candidates[j])
  }

  /** The candidate's config and database are free: none that is active is the same. */
  predicate Clear(fs: FileSystem, c: Candidate, configs: map<string, string>, databases: map<string, string>) {
    && (forall p | p in configs :: !SameConfig(fs, c.config, p))
    && (forall p | p in databases :: !Equivalent(fs, c.database, p))
  }

  predicate AllClear(fs: FileSystem, candidates: seq<Candidate>, configs: map<string, string>, databases: map<string, string>) {
    forall i | 0 <= i < |candidates| :: Clear(fs, candidates[i], configs, databases)
  }

  // ---- Names and IDs ----

  predicate IsHex(c: char) { '0' <= c <= '9' || 'a' <= c <= 'f' }

  predicate ValidId(id: string) { |id| == 12 && forall i | 0 <= i < |id| :: IsHex(id[i]) }

  predicate Unused(s: State, text: string) { text !in s.names && text !in s.instances }

  /** The prepared IDs and names are usable, unused, and all different. */
  predicate AllFresh(s: State, items: seq<Prepared>) {
    && (forall i | 0 <= i < |items| :: ValidId(items[i].id) && Findable(items[i].name))
    && (forall i | 0 <= i < |items| :: Unused(s, items[i].id) && Unused(s, items[i].name))
    && (forall i, j | 0 <= i < |items| && 0 <= j < |items| :: items[i].id != items[j].name)
    && (forall i, j | 0 <= i < j < |items| :: items[i].id != items[j].id && items[i].name != items[j].name)
  }

  function CandidatesOf(items: seq<Prepared>): (r: seq<Candidate>)
    ensures |r| == |items| && forall i | 0 <= i < |r| :: r[i] == items[i].candidate
  {
    if items == [] then [] else [items[0].candidate] + CandidatesOf(items[1..])
  }

  // ---- Steps ----

  function Register(s: State, item: Prepared, now: int, removeOnExit: bool): State {
    var c := item.candidate;
    var view := Instance(item.id, item.name, c.config, c.database, Running, now, now, removeOnExit);
    s.(instances := s.instances[item.id := view], names := s.names[item.name := item.id],
       configs := s.configs[c.config := item.id], databases := s.databases[c.database := item.id])
  }

  function RegisterAll(s: State, items: seq<Prepared>, now: int, removeOnExit: bool): State
    decreases |items|
  {
    if items == [] then s else RegisterAll(Register(s, items[0], now, removeOnExit), items[1..], now, removeOnExit)
  }

  function Release(owners: map<string, string>, path: string, id: string): map<string, string> {
    if path in owners && owners[path] == id then owners - {path} else owners
  }

  function WithoutIds(names: map<string, string>, ids: set<string>): map<string, string> {
    map n | n in names && names[n] !in ids :: names[n]
  }

  function Ended(i: Instance, failed: bool, now: int): Instance {
    i.(life := if failed then Failed else Exited, finishedAt := now)
  }

  /** The last region of run: publish the final view, release the reservations, and drop what is no longer retained. */
  function FinishStep(s: State, id: string, failed: bool, now: int, victims: set<string>): State
    requires id in s.instances
  {
    var i := Ended(s.instances[id], failed, now);
    var removed := if i.removeOnExit then {id} else victims;
    s.(instances := s.instances[id := i] - removed, names := WithoutIds(s.names, removed),
       configs := Release(s.configs, i.config, id), databases := Release(s.databases, i.database, id))
  }

  function BeginStopping(i: Instance): Instance { if i.life.Running? then i.(life := Stopping) else i }

  function Terminal(instances: map<string, Instance>): set<string> {
    set id | id in instances && !instances[id].Active()
  }

  /** Go's order of strings. */
  predicate Before(a: string, b: string)
    decreases |a|
  {
    b != "" && (a == "" || a[0] < b[0] || (a[0] == b[0] && Before(a[1..], b[1..])))
  }

  /** The order in which terminal instances are dropped: by the time of their end, then of their start, then by ID. */
  predicate Sooner(a: Instance, b: Instance) {
    if a.finishedAt != b.finishedAt then a.finishedAt < b.finishedAt
    else if a.createdAt != b.createdAt then a.createdAt < b.createdAt
    else Before(a.id, b.id)
  }

  /** trimTerminatedLocked: the oldest terminal instances, other than the current one, beyond the retention limit. */
  predicate Trims(instances: map<string, Instance>, current: string, retained: nat, victims: set<string>) {
    var terminal := Terminal(instances);
    var others := terminal - {current};
    && victims <= others
    && |victims| == (if |terminal| <= retained then 0 else if |terminal| - retained <= |others| then |terminal| - retained else |others|)
    && forall v, w | v in victims && w in others - victims :: !Sooner(instances[w], instances[v])
  }

  predicate Enabled(fs: FileSystem, retained: nat, s: State, l: Label) {
    match l
    case Acquire(candidates) => s.start.Idle? && AllApart(fs, candidates)
    case Snapshot => s.start.Gated? && !s.shuttingDown
    case Retry => s.start.Snapped? && (s.configs != s.start.configs || s.databases != s.start.databases)
    case Abandon => !s.start.Idle?
    case Reserve(items, now, remove) =>
      && s.start.Snapped? && s.configs == s.start.configs && s.databases == s.start.databases && !s.shuttingDown
      && AllClear(fs, s.start.candidates, s.start.configs, s.start.databases)
      && CandidatesOf(items) == s.start.candidates && AllFresh(s, items)
    case BeginStop(id) => id in s.instances
    case BeginShutdown => true
    case Finish(id, failed, now, victims) =>
      && id in s.instances && s.instances[id].Active()
      && Trims(s.instances[id := Ended(s.instances[id], failed, now)], id, retained, victims)
  }

  function Next(s: State, l: Label): State
    requires l.BeginStop? || l.Finish? ==> l.id in s.instances
    requires l.Snapshot? ==> s.start.Gated?
    requires l.Retry? ==> s.start.Snapped?
  {
    match l
    case Acquire(candidates) => s.(start := Gated(candidates, |s.databases|, 0))
    case Snapshot => s.(start := Snapped(s.start.candidates, s.start.active, s.start.rounds + 1, s.configs, s.databases))
    case Retry => s.(start := Gated(s.start.candidates, s.start.active, s.start.rounds))
    case Abandon => s.(start := Idle)
    case Reserve(items, now, remove) => RegisterAll(s, items, now, remove).(start := Idle)
    case BeginStop(id) => s.(instances := s.instances[id := BeginStopping(s.instances[id])])
    case BeginShutdown => s.(shuttingDown := true, instances := map id | id in s.instances :: BeginStopping(s.instances[id]))
    case Finish(id, failed, now, victims) => FinishStep(s, id, failed, now, victims)
  }

  ghost predicate Reached(fs: FileSystem, retained: nat, run: seq<Label>, s: State)
    decreases |run|
  {
    if run == [] then s == EMPTY
    else
      var last := run[|run| - 1];
      exists p :: Reached(fs, retained, run[..|run| - 1], p) && Enabled(fs, retained, p, last) && s == Next(p, last)
  }

  // ---- Invariants ----

  /** Names and instances are inverse maps, and no name is an ID. */
  ghost predicate NamesOk(instances: map<string, Instance>, names: map<string, string>) {
    && (forall id | id in instances :: NamedIn(names, id, instances[id]))
    && (forall n | n in names :: names[n] in instances && instances[names[n]].name == n && n !in instances)
  }

  ghost predicate NamedIn(names: map<string, string>, id: string, i: Instance) {
    ValidId(id) && i.id == id && Findable(i.name) && i.name in names && names[i.name] == id
  }

  /** The active maps hold exactly the paths of the active instances, each owned by its instance. */
  ghost predicate ActiveOk(instances: map<string, Instance>, configs: map<string, string>, databases: map<string, string>) {
    OwnersOk(instances, configs, databases) && |configs| == |databases|
  }

  ghost predicate OwnersOk(instances: map<string, Instance>, configs: map<string, string>, databases: map<string, string>) {
    && (forall id | id in instances && instances[id].Active() :: OwnsBoth(configs, databases, id, instances[id]))
    && (forall p | p in configs :: ActiveOwner(instances, configs[p]) && instances[configs[p]].config == p)
    && (forall p | p in databases :: ActiveOwner(instances, databases[p]) && instances[databases[p]].database == p)
  }

  ghost predicate ActiveOwner(instances: map<string, Instance>, id: string) { id in instances && instances[id].Active() }

  ghost predicate OwnsBoth(configs: map<string, string>, databases: map<string, string>, id: string, i: Instance) {
    i.config in configs && configs[i.config] == id && i.database in databases && databases[i.database] == id
  }

  ghost predicate Exclusive(fs: FileSystem, configs: map<string, string>, databases: map<string, string>) {
    && (forall p, q | p in configs && q in configs && p != q :: !SameConfig(fs, p, q))
    && (forall p, q | p in databases && q in databases && p != q :: !Equivalent(fs, p, q))
  }

  ghost predicate Within(a: map<string, string>, b: map<string, string>) { forall k | k in a :: k in b && a[k] == b[k] }

  /** While the gate is held the active maps only shrink, and every round but one has seen them shrink. */
  ghost predicate GateOk(fs: FileSystem, s: State) {
    match s.start
    case Idle => true
    case Gated(candidates, active, rounds) => AllApart(fs, candidates) && rounds + |s.databases| <= active
    case Snapped(candidates, active, rounds, configs, databases) =>
      && AllApart(fs, candidates) && rounds + |databases| <= active + 1 && |configs| == |databases|
      && Within(s.configs, configs) && Within(s.databases, databases)
  }

  ghost predicate Inv(fs: FileSystem, retained: nat, s: State) {
    && NamesOk(s.instances, s.names) && ActiveOk(s.instances, s.configs, s.databases)
    && Exclusive(fs, s.configs, s.databases) && GateOk(fs, s)
    && |Terminal(s.instances)| <= retained
  }

  // ---- A start registers its instances ----

  lemma RegisterKeepsNames(s: State, item: Prepared, now: int, remove: bool)
    requires NamesOk(s.instances, s.names) && ValidId(item.id) && Findable(item.name)
    requires Unused(s, item.id) && Unused(s, item.name) && item.id != item.name
    ensures var u := Register(s, item, now, remove); NamesOk(u.instances, u.names)
  {
    var u := Register(s, item, now, remove);
    forall id | id in u.instances ensures NamedIn(u.names, id, u.instances[id]) {
      if id != item.id {
        assert NamedIn(s.names, id, s.instances[id]);
      }
    }
  }

  lemma OneMoreKey(m: map<string, string>, k: string, v: string)
    requires k !in m
    ensures |m[k := v]| == |m| + 1
  {
    assert m[k := v].Keys == m.Keys + {k};
  }

  lemma RegisterKeepsActive(s: State, item: Prepared, now: int, remove: bool)
    requires ActiveOk(s.instances, s.configs, s.databases) && item.id !in s.instances
    requires item.candidate.config !in s.configs && item.candidate.database !in s.databases
    ensures var u := Register(s, item, now, remove); ActiveOk(u.instances, u.configs, u.databases)
  {
    var u, c := Register(s, item, now, remove), item.candidate;
    var view := Instance(item.id, item.name, c.config, c.database, Running, now, now, remove);
    OwnMore(s.instances, s.configs, s.databases, view, u.instances, u.configs, u.databases);
    OneMoreKey(s.configs, c.config, item.id);
    OneMoreKey(s.databases, c.database, item.id);
  }

  lemma OwnMore(instances: map<string, Instance>, configs: map<string, string>, databases: map<string, string>, i: Instance,
      newInstances: map<string, Instance>, newConfigs: map<string, string>, newDatabases: map<string, string>)
    requires OwnersOk(instances, configs, databases) && i.id !in instances && i.Active()
    requires i.config !in configs && i.database !in databases
    requires newInstances == instances[i.id := i]
    requires newConfigs == configs[i.config := i.id] && newDatabases == databases[i.database := i.id]
    ensures OwnersOk(newInstances, newConfigs, newDatabases)
  {
    forall id | id in newInstances && newInstances[id].Active() ensures OwnsBoth(newConfigs, newDatabases, id, newInstances[id]) {
      if id != i.id {
        assert OwnsBoth(configs, databases, id, instances[id]);
      }
    }
    forall p | p in newConfigs ensures ActiveOwner(newInstances, newConfigs[p]) && newInstances[newConfigs[p]].config == p {
      if p != i.config {
        assert ActiveOwner(instances, configs[p]);
      }
    }
    forall p | p in newDatabases ensures ActiveOwner(newInstances, newDatabases[p]) && newInstances[newDatabases[p]].database == p {
      if p != i.database {
        assert ActiveOwner(instances, databases[p]);
      }
    }
  }

  lemma RegisterKeepsExclusive(fs: FileSystem, s: State, item: Prepared, now: int, remove: bool)
    requires Exclusive(fs, s.configs, s.databases) && Clear(fs, item.candidate, s.configs, s.databases)
    ensures var u := Register(s, item, now, remove); Exclusive(fs, u.configs, u.databases)
    ensures item.candidate.config !in s.configs && item.candidate.database !in s.databases
  {
  }

  lemma TerminalAfterRegister(s: State, item: Prepared, now: int, remove: bool)
    requires item.id !in s.instances
    ensures Terminal(Register(s, item, now, remove).instances) == Terminal(s.instances)
  {
  }

  lemma ClearBeside(fs: FileSystem, first: Candidate, c: Candidate, configs: map<string, string>, databases: map<string, string>, id: string)
    requires Apart(fs, first, c) && Clear(fs, c, configs, databases)
    ensures Clear(fs, c, configs[first.config := id], databases[first.database := id])
  {
  }

  lemma {:induction false} RestStaysApart(fs: FileSystem, items: seq<Prepared>)
    requires items != [] && AllApart(fs, CandidatesOf(items))
    ensures AllApart(fs, CandidatesOf(items[1..]))
    ensures forall i | 0 <= i < |items| - 1 :: Apart(fs, items[0].candidate, CandidatesOf(items[1..])[i])
  {
    var all, rest := CandidatesOf(items), CandidatesOf(items[1..]);
    forall i | 0 <= i < |rest| ensures rest[i] == all[i + 1] {
      assert items[1..][i] == items[i + 1];
    }
    forall i, j | 0 <= i < j < |rest| ensures Apart(fs, rest[i], rest[j]) {
      assert Apart(fs, all[i + 1], all[j + 1]);
    }
    forall i | 0 <= i < |rest| ensures Apart(fs, all[0], rest[i]) {
      assert Apart(fs, all[0], all[i + 1]);
    }
  }

  /** The candidates behind the first are still free once the first is registered. */
  lemma {:induction false} RestStaysClear(fs: FileSystem, s: State, items: seq<Prepared>, now: int, remove: bool)
    requires items != [] && AllApart(fs, CandidatesOf(items)) && AllClear(fs, CandidatesOf(items), s.configs, s.databases)
    ensures var u := Register(s, items[0], now, remove);
            AllApart(fs, CandidatesOf(items[1..])) && AllClear(fs, CandidatesOf(items[1..]), u.configs, u.databases)
  {
    var u, all, rest := Register(s, items[0], now, remove), CandidatesOf(items), CandidatesOf(items[1..]);
    RestStaysApart(fs, items);
    forall i | 0 <= i < |rest| ensures Clear(fs, rest[i], u.configs, u.databases) {
      assert items[1..][i] == items[i + 1];
      assert Clear(fs, all[i + 1], s.configs, s.databases);
      ClearBeside(fs, items[0].candidate, rest[i], s.configs, s.databases, items[0].id);
    }
  }

  lemma RestStaysFresh(s: State, items: seq<Prepared>, now: int, remove: bool)
    requires items != [] && AllFresh(s, items)
    ensures AllFresh(Register(s, items[0], now, remove), items[1..])
  {
    var u, rest := Register(s, items[0], now, remove), items[1..];
    assert forall i | 0 <= i < |rest| :: rest[i] == items[i + 1];
    forall i | 0 <= i < |rest| ensures Unused(u, rest[i].id) && Unused(u, rest[i].name) {
      assert Unused(s, items[i + 1].id) && Unused(s, items[i + 1].name);
      assert items[0].id != items[i + 1].id && items[0].name != items[i + 1].name;
      assert items[0].id != items[i + 1].name && items[i + 1].id != items[0].name;
    }
    forall i, j | 0 <= i < j < |rest| ensures rest[i].id != rest[j].id && rest[i].name != rest[j].name {
      assert items[i + 1].id != items[j + 1].id && items[i + 1].name != items[j + 1].name;
    }
    forall i, j | 0 <= i < |rest| && 0 <= j < |rest| ensures rest[i].id != rest[j].name {
      assert items[i + 1].id != items[j + 1].name;
    }
  }

  ghost predicate Core(fs: FileSystem, s: State) {
    && NamesOk(s.instances, s.names) && ActiveOk(s.instances, s.configs, s.databases)
    && Exclusive(fs, s.configs, s.databases)
  }

  lemma RegisterKeepsCore(fs: FileSystem, s: State, items: seq<Prepared>, now: int, remove: bool)
    requires Core(fs, s) && items != [] && AllFresh(s, items) && AllClear(fs, CandidatesOf(items), s.configs, s.databases)
    ensures var u := Register(s, items[0], now, remove);
            Core(fs, u) && Terminal(u.instances) == Terminal(s.instances)
  {
    assert CandidatesOf(items)[0] == items[0].candidate;
    assert Clear(fs, items[0].candidate, s.configs, s.databases);
    assert Unused(s, items[0].id) && Unused(s, items[0].name) && items[0].id != items[0].name;
    RegisterKeepsNames(s, items[0], now, remove);
    RegisterKeepsExclusive(fs, s, items[0], now, remove);
    RegisterKeepsActive(s, items[0], now, remove);
    TerminalAfterRegister(s, items[0], now, remove);
  }

  lemma {:induction false} RegisterAllKeepsCore(fs: FileSystem, s: State, items: seq<Prepared>, now: int, remove: bool)
    requires Core(fs, s) && AllFresh(s, items)
    requires AllApart(fs, CandidatesOf(items)) && AllClear(fs, CandidatesOf(items), s.configs, s.databases)
    ensures var u := RegisterAll(s, items, now, remove);
            Core(fs, u) && Terminal(u.instances) == Terminal(s.instances)
    decreases |items|
  {
    if items != [] {
      RegisterKeepsCore(fs, s, items, now, remove);
      RestStaysClear(fs, s, items, now, remove);
      RestStaysFresh(s, items, now, remove);
      RegisterAllKeepsCore(fs, Register(s, items[0], now, remove), items[1..], now, remove);
    }
  }

  // ---- Stops ----

  /** Instances that only changed from running to stopping. */
  ghost predicate SameButLife(a: map<string, Instance>, b: map<string, Instance>) {
    a.Keys == b.Keys && forall id | id in a :: b[id] == a[id] || b[id] == BeginStopping(a[id])
  }

  lemma StoppingKeepsCore(fs: FileSystem, s: State, u: State)
    requires Core(fs, s) && SameButLife(s.instances, u.instances)
    requires u.names == s.names && u.configs == s.configs && u.databases == s.databases
    ensures Core(fs, u) && Terminal(u.instances) == Terminal(s.instances)
  {
    StoppingKeepsNames(s.instances, u.instances, s.names);
    StoppingKeepsOwners(s.instances, u.instances, s.configs, s.databases);
    StoppingKeepsTerminal(s.instances, u.instances);
  }

  lemma StoppingKeepsNames(a: map<string, Instance>, b: map<string, Instance>, names: map<string, string>)
    requires NamesOk(a, names) && SameButLife(a, b)
    ensures NamesOk(b, names)
  {
    forall id | id in b ensures NamedIn(names, id, b[id]) {
      assert NamedIn(names, id, a[id]);
    }
  }

  lemma StoppingKeepsTerminal(a: map<string, Instance>, b: map<string, Instance>)
    requires SameButLife(a, b)
    ensures Terminal(b) == Terminal(a)
  {
  }

  lemma StoppingKeepsOwners(a: map<string, Instance>, b: map<string, Instance>, configs: map<string, string>, databases: map<string, string>)
    requires OwnersOk(a, configs, databases) && SameButLife(a, b)
    ensures OwnersOk(b, configs, databases)
  {
    forall id | id in b && b[id].Active() ensures OwnsBoth(configs, databases, id, b[id]) {
      assert OwnsBoth(configs, databases, id, a[id]);
    }
    forall p | p in configs ensures ActiveOwner(b, configs[p]) {
      assert ActiveOwner(a, configs[p]);
    }
    forall p | p in databases ensures ActiveOwner(b, databases[p]) {
      assert ActiveOwner(a, databases[p]);
    }
  }

  // ---- Exits ----

  lemma RemoveKeepsNames(instances: map<string, Instance>, names: map<string, string>, removed: set<string>)
    requires NamesOk(instances, names)
    ensures NamesOk(instances - removed, WithoutIds(names, removed))
  {
    forall id | id in instances - removed ensures NamedIn(WithoutIds(names, removed), id, (instances - removed)[id]) {
      assert NamedIn(names, id, instances[id]);
    }
  }

  lemma EndKeepsNames(instances: map<string, Instance>, names: map<string, string>, id: string, failed: bool, now: int)
    requires NamesOk(instances, names) && id in instances
    ensures NamesOk(instances[id := Ended(instances[id], failed, now)], names)
  {
    var u := instances[id := Ended(instances[id], failed, now)];
    forall k | k in u ensures NamedIn(names, k, u[k]) {
      assert NamedIn(names, k, instances[k]);
    }
  }

  lemma OwnerReleases(instances: map<string, Instance>, configs: map<string, string>, databases: map<string, string>, id: string)
    requires OwnersOk(instances, configs, databases) && ActiveOwner(instances, id)
    ensures var i := instances[id];
            && i.config in configs && Release(configs, i.config, id) == configs - {i.config}
            && i.database in databases && Release(databases, i.database, id) == databases - {i.database}
  {
    assert OwnsBoth(configs, databases, id, instances[id]);
  }

  /** Instances that are not active can go, and an instance that ends gives up its paths. */
  lemma EndKeepsOwners(instances: map<string, Instance>, configs: map<string, string>, databases: map<string, string>,
      id: string, ended: Instance)
    requires OwnersOk(instances, configs, databases) && ActiveOwner(instances, id) && !ended.Active()
    ensures OwnersOk(instances[id := ended], configs - {instances[id].config}, databases - {instances[id].database})
  {
    var i := instances[id];
    assert OwnsBoth(configs, databases, id, i);
    forall k | k in instances[id := ended] && instances[id := ended][k].Active()
      ensures OwnsBoth(configs - {i.config}, databases - {i.database}, k, instances[k])
    {
      assert OwnsBoth(configs, databases, k, instances[k]);
    }
    forall p | p in configs - {i.config} ensures ActiveOwner(instances[id := ended], configs[p]) {
      assert ActiveOwner(instances, configs[p]);
    }
    forall p | p in databases - {i.database} ensures ActiveOwner(instances[id := ended], databases[p]) {
      assert ActiveOwner(instances, databases[p]);
    }
  }

  lemma RemoveKeepsOwners(instances: map<string, Instance>, configs: map<string, string>, databases: map<string, string>,
      removed: set<string>)
    requires OwnersOk(instances, configs, databases) && forall r | r in removed :: r in instances && !instances[r].Active()
    ensures OwnersOk(instances - removed, configs, databases)
  {
    forall k | k in instances - removed && (instances - removed)[k].Active() ensures OwnsBoth(configs, databases, k, (instances - removed)[k]) {
      assert OwnsBoth(configs, databases, k, instances[k]);
    }
    forall p | p in configs ensures ActiveOwner(instances - removed, configs[p]) {
      assert ActiveOwner(instances, configs[p]);
    }
    forall p | p in databases ensures ActiveOwner(instances - removed, databases[p]) {
      assert ActiveOwner(instances, databases[p]);
    }
  }

  lemma FinishKeepsActive(s: State, id: string, failed: bool, now: int, removed: set<string>)
    requires ActiveOk(s.instances, s.configs, s.databases) && ActiveOwner(s.instances, id)
    requires var ended := s.instances[id := Ended(s.instances[id], failed, now)];
             forall r | r in removed :: r in ended && !ended[r].Active()
    ensures var i := s.instances[id];
            ActiveOk(s.instances[id := Ended(i, failed, now)] - removed, Release(s.configs, i.config, id), Release(s.databases, i.database, id))
    ensures |Release(s.databases, s.instances[id].database, id)| == |s.databases| - 1
  {
    var i := s.instances[id];
    var ended := Ended(i, failed, now);
    OwnerReleases(s.instances, s.configs, s.databases, id);
    EndKeepsOwners(s.instances, s.configs, s.databases, id, ended);
    RemoveKeepsOwners(s.instances[id := ended], s.configs - {i.config}, s.databases - {i.database}, removed);
    assert (s.configs - {i.config}).Keys == s.configs.Keys - {i.config};
    assert (s.databases - {i.database}).Keys == s.databases.Keys - {i.database};
  }

  lemma FinishKeepsExclusive(fs: FileSystem, configs: map<string, string>, databases: map<string, string>, c: string, d: string, id: string)
    requires Exclusive(fs, configs, databases)
    ensures Exclusive(fs, Release(configs, c, id), Release(databases, d, id))
    ensures Within(Release(configs, c, id), configs) && Within(Release(databases, d, id), databases)
  {
  }

  lemma TerminalWithout(instances: map<string, Instance>, removed: set<string>)
    ensures Terminal(instances - removed) == Terminal(instances) - removed
  {
  }

  lemma EndedIsTerminal(instances: map<string, Instance>, id: string, failed: bool, now: int)
    requires id in instances && instances[id].Active()
    ensures Terminal(instances[id := Ended(instances[id], failed, now)]) == Terminal(instances) + {id}
    ensures id !in Terminal(instances)
  {
  }

  /** What is left of n terminal instances, at most one of them current. */
  lemma LeftAfterTrim(all: set<string>, id: string, retained: nat, victims: set<string>)
    requires retained >= 1 && id in all && victims <= all - {id}
    requires var others := all - {id};
             |victims| == (if |all| <= retained then 0 else if |all| - retained <= |others| then |all| - retained else |others|)
    ensures |all - victims| <= retained
  {
    assert |all - victims| == |all| - |victims|;
    assert |all - {id}| == |all| - 1;
  }

  lemma TrimKeepsRetention(s: State, retained: nat, id: string, failed: bool, now: int, victims: set<string>)
    requires retained >= 1 && id in s.instances && s.instances[id].Active() && |Terminal(s.instances)| <= retained
    requires Trims(s.instances[id := Ended(s.instances[id], failed, now)], id, retained, victims)
    ensures |Terminal(FinishStep(s, id, failed, now, victims).instances)| <= retained
  {
    var ended := s.instances[id := Ended(s.instances[id], failed, now)];
    EndedIsTerminal(s.instances, id, failed, now);
    if s.instances[id].removeOnExit {
      TerminalWithout(ended, {id});
      assert Terminal(s.instances) + {id} - {id} == Terminal(s.instances);
    } else {
      TerminalWithout(ended, victims);
      LeftAfterTrim(Terminal(ended), id, retained, victims);
    }
  }

  /** Only instances that are over are removed. */
  lemma RemovedAreOver(s: State, retained: nat, id: string, failed: bool, now: int, victims: set<string>)
    requires id in s.instances && Trims(s.instances[id := Ended(s.instances[id], failed, now)], id, retained, victims)
    ensures var ended := s.instances[id := Ended(s.instances[id], failed, now)];
            forall r | r in (if s.instances[id].removeOnExit then {id} else victims) :: r in ended && !ended[r].Active()
  {
    var ended := s.instances[id := Ended(s.instances[id], failed, now)];
    forall r | r in victims ensures r in ended && !ended[r].Active() {
      assert r in Terminal(ended);
    }
  }

  lemma FinishKeepsCore(fs: FileSystem, s: State, retained: nat, id: string, failed: bool, now: int, victims: set<string>)
    requires Core(fs, s) && ActiveOwner(s.instances, id)
    requires Trims(s.instances[id := Ended(s.instances[id], failed, now)], id, retained, victims)
    ensures var u := FinishStep(s, id, failed, now, victims);
            && Core(fs, u) && |u.databases| < |s.databases| && Within(u.configs, s.configs) && Within(u.databases, s.databases)
  {
    var i := s.instances[id];
    var removed := if i.removeOnExit then {id} else victims;
    RemovedAreOver(s, retained, id, failed, now, victims);
    FinishKeepsActive(s, id, failed, now, removed);
    FinishKeepsExclusive(fs, s.configs, s.databases, i.config, i.database, id);
    FinishKeepsNames(s, id, failed, now, removed);
  }

  lemma FinishKeepsNames(s: State, id: string, failed: bool, now: int, removed: set<string>)
    requires NamesOk(s.instances, s.names) && id in s.instances
    ensures NamesOk(s.instances[id := Ended(s.instances[id], failed, now)] - removed, WithoutIds(s.names, removed))
  {
    EndKeepsNames(s.instances, s.names, id, failed, now);
    RemoveKeepsNames(s.instances[id := Ended(s.instances[id], failed, now)], s.names, removed);
  }

  // ---- Every step, every run ----

  lemma WithinSizes(a: map<string, string>, b: map<string, string>)
    requires Within(a, b)
    ensures |a| <= |b| && (|a| == |b| ==> a == b)
  {
    assert a.Keys <= b.Keys;
    assert |b.Keys - a.Keys| == |b.Keys| - |a.Keys|;
    if |a| == |b| {
      assert b.Keys - a.Keys == {};
      assert a.Keys == b.Keys;
    }
  }

  /** A retry happens only after some instance has ended since the snapshot. */
  lemma RetryMeansFewer(s: State)
    requires s.start.Snapped? && (s.configs != s.start.configs || s.databases != s.start.databases)
    requires Within(s.configs, s.start.configs) && Within(s.databases, s.start.databases)
    requires |s.configs| == |s.databases| && |s.start.configs| == |s.start.databases|
    ensures |s.databases| < |s.start.databases|
  {
    WithinSizes(s.configs, s.start.configs);
    WithinSizes(s.databases, s.start.databases);
  }

  lemma GateStaysOk(fs: FileSystem, s: State, u: State)
    requires GateOk(fs, s) && u.start == s.start && |u.databases| <= |s.databases|
    requires Within(u.configs, s.configs) && Within(u.databases, s.databases)
    ensures GateOk(fs, u)
  {
  }

  lemma ReserveKeeps(fs: FileSystem, retained: nat, s: State, items: seq<Prepared>, now: int, remove: bool)
    requires Inv(fs, retained, s) && Enabled(fs, retained, s, Reserve(items, now, remove))
    ensures Inv(fs, retained, Next(s, Reserve(items, now, remove)))
  {
    RegisterAllKeepsCore(fs, s, items, now, remove);
  }

  lemma StopKeeps(fs: FileSystem, retained: nat, s: State, instances: map<string, Instance>, down: bool)
    requires Inv(fs, retained, s) && SameButLife(s.instances, instances)
    ensures Inv(fs, retained, s.(shuttingDown := down, instances := instances))
  {
    var u := s.(shuttingDown := down, instances := instances);
    StoppingKeepsCore(fs, s, u);
    GateStaysOk(fs, s, u);
  }

  lemma FinishKeeps(fs: FileSystem, retained: nat, s: State, id: string, failed: bool, now: int, victims: set<string>)
    requires retained >= 1 && Inv(fs, retained, s) && Enabled(fs, retained, s, Finish(id, failed, now, victims))
    ensures Inv(fs, retained, FinishStep(s, id, failed, now, victims))
  {
    FinishKeepsCore(fs, s, retained, id, failed, now, victims);
    GateStaysOk(fs, s, FinishStep(s, id, failed, now, victims));
    TrimKeepsRetention(s, retained, id, failed, now, victims);
  }

  /** The steps that only move the gate. */
  lemma GateKeeps(fs: FileSystem, retained: nat, s: State, l: Label)
    requires Inv(fs, retained, s) && Enabled(fs, retained, s, l) && (l.Acquire? || l.Snapshot? || l.Retry? || l.Abandon?)
    ensures Inv(fs, retained, Next(s, l))
  {
    if l.Retry? {
      RetryMeansFewer(s);
    }
  }

  lemma LifeKeeps(fs: FileSystem, retained: nat, s: State, l: Label)
    requires Inv(fs, retained, s) && Enabled(fs, retained, s, l) && (l.BeginStop? || l.BeginShutdown?)
    ensures Inv(fs, retained, Next(s, l))
  {
    OnlyLifeChanges(s, l);
    StopKeeps(fs, retained, s, Next(s, l).instances, Next(s, l).shuttingDown);
  }

  lemma OnlyLifeChanges(s: State, l: Label)
    requires l.BeginShutdown? || (l.BeginStop? && l.id in s.instances)
    ensures var u := Next(s, l);
            SameButLife(s.instances, u.instances) && u == s.(shuttingDown := u.shuttingDown, instances := u.instances)
  {
  }

  lemma NextKeeps(fs: FileSystem, retained: nat, s: State, l: Label)
    requires retained >= 1 && Inv(fs, retained, s) && Enabled(fs, retained, s, l)
    ensures Inv(fs, retained, Next(s, l))
  {
    if l.Reserve? {
      ReserveKeeps(fs, retained, s, l.items, l.now, l.removeOnExit);
    } else if l.Finish? {
      FinishKeeps(fs, retained, s, l.id, l.failed, l.now, l.victims);
    } else if l.BeginStop? || l.BeginShutdown? {
      LifeKeeps(fs, retained, s, l);
    } else {
      GateKeeps(fs, retained, s, l);
    }
  }

  lemma {:induction false} EveryReachedKeeps(fs: FileSystem, retained: nat, run: seq<Label>, s: State)
    requires retained >= 1 && Reached(fs, retained, run, s)
    ensures Inv(fs, retained, s)
    decreases |run|
  {
    if run != [] {
      var last := run[|run| - 1];
      var p :| Reached(fs, retained, run[..|run| - 1], p) && Enabled(fs, retained, p, last) && s == Next(p, last);
      EveryReachedKeeps(fs, retained, run[..|run| - 1], p);
      NextKeeps(fs, retained, p, last);
    }
  }

  // ---- What the invariants say ----

  /** No two active instances ever hold the same config file or equivalent databases. */
  lemma ReservationsAreExclusive(fs: FileSystem, retained: nat, run: seq<Label>, s: State, a: string, b: string)
    requires retained >= 1 && Reached(fs, retained, run, s)
    requires ActiveOwner(s.instances, a) && ActiveOwner(s.instances, b) && a != b
    ensures var i, j := s.instances[a], s.instances[b];
            !SameConfig(fs, i.config, j.config) && !Equivalent(fs, i.database, j.database)
  {
    EveryReachedKeeps(fs, retained, run, s);
    assert OwnsBoth(s.configs, s.databases, a, s.instances[a]);
    assert OwnsBoth(s.configs, s.databases, b, s.instances[b]);
  }

  /** A start looks at most once more than the number of instances that were active when it took the gate. */
  lemma RoundsAreBounded(fs: FileSystem, retained: nat, run: seq<Label>, s: State)
    requires retained >= 1 && Reached(fs, retained, run, s) && !s.start.Idle?
    ensures s.start.rounds <= s.start.active + 1
    ensures s.start.Gated? ==> s.start.rounds <= s.start.active
  {
    EveryReachedKeeps(fs, retained, run, s);
  }

  datatype Lookup = NotFound | Ambiguous | Found(id: string)

  /** resolveLocked: an exact name, or the only ID with this prefix. */
  function Resolve(s: State, selector: string): Lookup {
    var text := TrimSpace(selector);
    var matches := set id | id in s.instances && text <= id;
    if text == "" then NotFound
    else if text in s.names then Found(s.names[text])
    else if |matches| == 0 then NotFound
    else if |matches| > 1 then Ambiguous
    else (assert matches != {}; Found(Only(matches)))
  }

  function Only(ids: set<string>): (id: string)
    requires |ids| == 1
    ensures ids == {id}
  {
    OnlyOne(ids);
    var id :| id in ids;
    id
  }

  lemma OnlyOne(ids: set<string>)
    requires |ids| == 1
    ensures exists id :: ids == {id}
    ensures forall a, b | a in ids && b in ids :: a == b
  {
    var id :| id in ids;
    assert |ids - {id}| == 0;
    assert ids == {id};
  }

  /** IDs have one length, so a full ID is a prefix of itself only. */
  lemma FullIdMatchesItself(s: State, id: string)
    requires NamesOk(s.instances, s.names) && id in s.instances
    ensures (set k | k in s.instances && id <= k) == {id}
  {
    assert NamedIn(s.names, id, s.instances[id]);
    forall k | k in s.instances && id <= k ensures k == id {
      assert NamedIn(s.names, k, s.instances[k]);
    }
  }

  lemma IdIsTrimmed(id: string)
    requires ValidId(id)
    ensures TrimSpace(id) == id && id != ""
  {
    assert Findable(id);
    FindableIsTrimmed(id);
  }

  /** Every retained instance is found by its exact name and by its full ID. */
  lemma FoundByNameAndId(fs: FileSystem, retained: nat, run: seq<Label>, s: State, id: string)
    requires retained >= 1 && Reached(fs, retained, run, s) && id in s.instances
    ensures Resolve(s, s.instances[id].name) == Found(id)
    ensures Resolve(s, id) == Found(id)
  {
    EveryReachedKeeps(fs, retained, run, s);
    assert NamedIn(s.names, id, s.instances[id]);
    FindableIsTrimmed(s.instances[id].name);
    IdIsTrimmed(id);
    FullIdMatchesItself(s, id);
  }

  lemma RetentionHolds(fs: FileSystem, retained: nat, run: seq<Label>, s: State)
    requires retained >= 1 && Reached(fs, retained, run, s)
    ensures |Terminal(s.instances)| <= retained
  {
    EveryReachedKeeps(fs, retained, run, s);
  }
}
