/**
 * The supervisor's methods over the manager's maps. Each region under the mutex takes one step of the machine;
 * StartMany runs its snapshot, validate, recheck loop while other goroutines take steps in between.
 */
module SupervisorCode {
  import opened Text
  import opened Names
  import opened Supervisor
  import opened SupervisorChecks

  const MAX_ID_ATTEMPTS: nat := 128

  lemma ReachedMore(fs: FileSystem, retained: nat, run: seq<Label>, p: State, l: Label)
    requires Reached(fs, retained, run, p) && Enabled(fs, retained, p, l)
    ensures Reached(fs, retained, run + [l], Next(p, l))
  {
    var more := run + [l];
    assert more[..|more| - 1] == run && more[|more| - 1] == l;
    assert Reached(fs, retained, more[..|more| - 1], p);
  }

  // ---- Which instances trimTerminatedLocked drops ----

  lemma {:induction false} BeforeIsTotal(a: string, b: string)
    ensures a == b || Before(a, b) || Before(b, a)
    ensures !(Before(a, b) && Before(b, a)) && !Before(a, a)
    decreases |a|
  {
    if a != "" && b != "" && a[0] == b[0] {
      BeforeIsTotal(a[1..], b[1..]);
      assert a == [a[0]] + a[1..] && b == [b[0]] + b[1..];
    }
    if a != "" {
      BeforeIsTotal(a[1..], a[1..]);
    }
  }

  lemma {:induction false} BeforeIsTransitive(a: string, b: string, c: string)
    requires Before(a, b) && Before(b, c)
    ensures Before(a, c)
    decreases |a|
  {
    if a != "" && a[0] == b[0] == c[0] {
      BeforeIsTransitive(a[1..], b[1..], c[1..]);
    }
  }

  lemma NotSoonerIsTransitive(a: Instance, b: Instance, c: Instance)
    requires !Sooner(b, a) && !Sooner(c, b)
    ensures !Sooner(c, a)
  {
    BeforeIsTotal(a.id, b.id);
    BeforeIsTotal(b.id, c.id);
    BeforeIsTotal(a.id, c.id);
    if Before(a.id, b.id) && Before(b.id, c.id) {
      BeforeIsTransitive(a.id, b.id, c.id);
    }
  }

  lemma SoonerIsOneWay(a: Instance, b: Instance)
    ensures !(Sooner(a, b) && Sooner(b, a)) && (a.id != b.id ==> Sooner(a, b) || Sooner(b, a))
  {
    BeforeIsTotal(a.id, b.id);
  }

  lemma EqualSizes(a: set<string>, b: set<string>)
    requires |a| == |b| && a != b
    ensures a - b != {} && b - a != {}
  {
    assert |a - b| == |a| - |a * b| && |b - a| == |b| - |a * b|;
  }

  /** The instances that are dropped are determined, in whatever order the map is visited. */
  lemma TrimIsDetermined(instances: map<string, Instance>, current: string, retained: nat, v: set<string>, w: set<string>)
    requires forall id | id in instances :: instances[id].id == id
    requires Trims(instances, current, retained, v) && Trims(instances, current, retained, w)
    ensures v == w
  {
    if v != w {
      EqualSizes(v, w);
      var a, b :| a in v - w && b in w - v;
      assert a in Terminal(instances) - {current} && b in Terminal(instances) - {current};
      SoonerIsOneWay(instances[a], instances[b]);
    }
  }

  /** sort.Slice by age: the instance at k goes before the first one that finished later. */
  function InsertByAge(ids: seq<string>, k: string, instances: map<string, Instance>): (r: seq<string>)
    requires k in instances && forall id | id in ids :: id in instances
    ensures forall id :: id in r <==> id in ids || id == k
    ensures |r| == |ids| + 1
  {
    if ids == [] then [k]
    else if Sooner(instances[ids[0]], instances[k]) then [ids[0]] + InsertByAge(ids[1..], k, instances)
    else [k] + ids
  }

  ghost predicate ByAge(ids: seq<string>, instances: map<string, Instance>)
    requires forall id | id in ids :: id in instances
  {
    && (forall i, j | 0 <= i < j < |ids| :: !Sooner(instances[ids[j]], instances[ids[i]]))
    && (forall i, j | 0 <= i < j < |ids| :: ids[i] != ids[j])
  }

  lemma {:induction false} InsertKeepsByAge(ids: seq<string>, k: string, instances: map<string, Instance>)
    requires k in instances && (forall id | id in ids :: id in instances) && ByAge(ids, instances) && k !in ids
    ensures ByAge(InsertByAge(ids, k, instances), instances)
  {
    if ids != [] && Sooner(instances[ids[0]], instances[k]) {
      InsertKeepsByAge(ids[1..], k, instances);
      var rest := InsertByAge(ids[1..], k, instances);
      assert ids == [ids[0]] + ids[1..];
      SoonerIsOneWay(instances[ids[0]], instances[k]);
      forall j | 0 <= j < |rest| ensures !Sooner(instances[rest[j]], instances[ids[0]]) && rest[j] != ids[0] {
        assert rest[j] in rest;
      }
    } else if ids != [] {
      forall j | 0 <= j < |ids| ensures !Sooner(instances[ids[j]], instances[k]) {
        SoonerIsOneWay(instances[ids[0]], instances[ids[j]]);
        NotSoonerIsTransitive(instances[k], instances[ids[0]], instances[ids[j]]);
      }
    }
  }

  function Prefix(ids: seq<string>, n: nat): (r: set<string>)
    requires n <= |ids|
  {
    set i | 0 <= i < n :: ids[i]
  }

  lemma {:induction false} PrefixSize(ids: seq<string>, n: nat)
    requires n <= |ids| && forall i, j | 0 <= i < j < |ids| :: ids[i] != ids[j]
    ensures |Prefix(ids, n)| == n
  {
    if n > 0 {
      PrefixSize(ids, n - 1);
      assert Prefix(ids, n) == Prefix(ids, n - 1) + {ids[n - 1]};
    }
  }

  lemma OldestAreTrimmed(instances: map<string, Instance>, current: string, retained: nat, ids: seq<string>, excess: nat)
    requires (forall id :: id in ids <==> id in Terminal(instances) - {current}) && ByAge(ids, instances)
    requires excess == if |Terminal(instances)| <= retained then 0 else if |Terminal(instances)| - retained <= |ids| then |Terminal(instances)| - retained else |ids|
    ensures Trims(instances, current, retained, Prefix(ids, excess))
  {
    var victims, others := Prefix(ids, excess), Terminal(instances) - {current};
    PrefixSize(ids, excess);
    PrefixSize(ids, |ids|);
    assert Prefix(ids, |ids|) == others;
    assert forall id | id in others :: id in instances;
    assert forall id | id in victims :: id in ids;
    forall v, w | v in victims && w in others - victims ensures !Sooner(instances[w], instances[v]) {
      var i :| 0 <= i < excess && ids[i] == v;
      var j :| 0 <= j < |ids| && ids[j] == w;
      assert j >= excess;
    }
  }

  // ---- Prepared instances ----

  function NamesOf(items: seq<Prepared>): set<string> { set i | 0 <= i < |items| :: items[i].name }

  function IdsOf(items: seq<Prepared>): set<string> { set i | 0 <= i < |items| :: items[i].id }

  lemma OneMorePrepared(s: State, items: seq<Prepared>, item: Prepared)
    requires AllFresh(s, items) && ValidId(item.id) && Findable(item.name) && Unused(s, item.id) && Unused(s, item.name)
    requires item.id != item.name
    requires item.name !in NamesOf(items) + IdsOf(items) && item.id !in NamesOf(items) + IdsOf(items)
    ensures AllFresh(s, items + [item])
    ensures NamesOf(items + [item]) == NamesOf(items) + {item.name} && IdsOf(items + [item]) == IdsOf(items) + {item.id}
  {
    var more := items + [item];
    assert more[|items|] == item;
    assert forall i | 0 <= i < |items| :: more[i] == items[i];
    forall i | 0 <= i < |items| ensures Apart4(items[i], item) {
      assert items[i].name in NamesOf(items) && items[i].id in IdsOf(items);
    }
    forall i | 0 <= i < |more| ensures ValidId(more[i].id) && Findable(more[i].name) && Unused(s, more[i].id) && Unused(s, more[i].name) {
    }
    forall i, j | 0 <= i < |more| && 0 <= j < |more| ensures more[i].id != more[j].name {
      if i < |items| && j == |items| {
        assert Apart4(items[i], item);
      } else if j < |items| && i == |items| {
        assert Apart4(items[j], item);
      }
    }
    forall i, j | 0 <= i < j < |more| ensures more[i].id != more[j].id && more[i].name != more[j].name {
      if j == |items| {
        assert Apart4(items[i], item);
      }
    }
    SetsMore(items, item);
  }

  /** Four different texts. */
  predicate Apart4(a: Prepared, b: Prepared) {
    a.id != b.id && a.name != b.name && a.id != b.name && b.id != a.name
  }

  lemma SetsMore(items: seq<Prepared>, item: Prepared)
    ensures NamesOf(items + [item]) == NamesOf(items) + {item.name} && IdsOf(items + [item]) == IdsOf(items) + {item.id}
  {
    var more := items + [item];
    assert more[|items|] == item;
    assert forall i | 0 <= i < |items| :: more[i] == items[i];
  }

  lemma CandidatesOfMore(items: seq<Prepared>, item: Prepared)
    ensures CandidatesOf(items + [item]) == CandidatesOf(items) + [item.candidate]
  {
  }

  lemma {:induction false} OwnTexts(items: seq<Prepared>)
    ensures |NamesOf(items)| <= |items| && |IdsOf(items)| <= |items| && |NamesOf(items) + IdsOf(items)| <= 2 * |items|
  {
    if items != [] {
      var before, last := items[..|items| - 1], items[|items| - 1];
      OwnTexts(before);
      SetsMore(before, last);
      assert items == before + [last];
    }
  }

  lemma OneMoreTaken(candidates: seq<Candidate>, i: nat)
    requires i < |candidates|
    ensures candidates[..i + 1] == candidates[..i] + [candidates[i]]
  {
  }

  // ---- Names and IDs that are not taken ----

  /** This is the first of the numbered names that is not taken. */
  ghost predicate FirstFree(base: string, suffix: nat, taken: set<string>) {
    suffix >= 1 && Numbered(base, suffix) !in taken && forall m | 1 <= m < suffix :: Numbered(base, m) in taken
  }

  /** availableNameLocked: it tries one name per suffix, and at most one more than there are names taken. */
  method AvailableName(base: string, taken: set<string>) returns (name: string, suffix: nat)
    ensures name == Numbered(base, suffix) && suffix <= |taken| + 1
    ensures FirstFree(base, suffix, taken)
  {
    ghost var tried: set<string> := {};
    suffix := 1;
    name := base;
    while name in taken
      invariant suffix >= 1 && name == Numbered(base, suffix)
      invariant tried <= taken && |tried| == suffix - 1
      invariant forall m | 1 <= m < suffix :: Numbered(base, m) in taken
      invariant forall t | t in tried :: exists m | 1 <= m < suffix :: t == Numbered(base, m)
      decreases |taken| - |tried|
    {
      if name in tried {
        var m :| 1 <= m < suffix && name == Numbered(base, m);
        NumberedInjective(base, m, suffix);
      }
      SubsetSize(tried + {name}, taken);
      tried := tried + {name};
      assert forall t | t in tried :: exists m | 1 <= m < suffix + 1 :: t == Numbered(base, m);
      suffix := suffix + 1;
      name := base + "-" + Itoa(suffix);
    }
    SubsetSize(tried, taken);
  }

  /** The ID that a result of the generator stands for. */
  function DrawnId(draws: nat -> Option<string>, i: nat): string {
    if draws(i).Some? then Lower(TrimSpace(draws(i).value)) else ""
  }

  /** The generator failed, or what it gave is no ID. */
  predicate BadDraw(draws: nat -> Option<string>, i: nat) { !ValidId(DrawnId(draws, i)) }

  /** All of these draws are taken. */
  ghost predicate Exhausted(draws: nat -> Option<string>, from: nat, taken: set<string>) {
    forall i | from <= i < from + 128 :: DrawnId(draws, i) in taken
  }

  /** availableIDLocked, with the generator's results given in turn: the first one that is not taken. */
  method AvailableId(draws: nat -> Option<string>, from: nat, taken: set<string>) returns (r: Draw)
    ensures r.Drew? ==> ValidId(r.id) && r.id !in taken && from < r.next <= from + 128 && r.id == DrawnId(draws, r.next - 1)
    ensures r.Drew? ==> forall i | from <= i < r.next - 1 :: DrawnId(draws, i) in taken
    ensures r.Failure? ==> if r.error.NoUniqueId? then Exhausted(draws, from, taken)
                           else r.error.InvalidId? && exists i | from <= i < from + 128 :: BadDraw(draws, i)
  {
    var attempt := 0;
    while attempt < MAX_ID_ATTEMPTS
      invariant 0 <= attempt <= MAX_ID_ATTEMPTS
      invariant forall i | from <= i < from + attempt :: DrawnId(draws, i) in taken
    {
      var drawn := draws(from + attempt);
      if drawn.None? {
        assert BadDraw(draws, from + attempt);
        return Failure(InvalidId);
      }
      var id := Lower(TrimSpace(drawn.value));
      if !ValidId(id) {
        assert BadDraw(draws, from + attempt);
        return Failure(InvalidId);
      }
      attempt := attempt + 1;
      if id !in taken {
        return Drew(id, from + attempt);
      }
    }
    return Failure(NoUniqueId);
  }

  // ---- What a start has prepared ----

  /** Its name is the given one or the first free automatic one. */
  ghost predicate Named(item: Prepared, explicitName: string, taken: set<string>) {
    if explicitName != "" then item.name == explicitName
    else exists suffix: nat :: FirstFree(item.candidate.nameBase, suffix, taken) && item.name == Numbered(item.candidate.nameBase, suffix)
  }

  /** The texts that can be neither a new name nor a new ID. */
  function TakenBeside(s: State, items: seq<Prepared>): set<string> {
    s.names.Keys + s.instances.Keys + NamesOf(items) + IdsOf(items)
  }

  /** Each item is named beside the earlier ones. */
  ghost predicate NamedInTurn(s: State, items: seq<Prepared>, explicitName: string) {
    forall i | 0 <= i < |items| :: Named(items[i], explicitName, TakenBeside(s, items[..i]))
  }

  lemma NamedNext(s: State, items: seq<Prepared>, item: Prepared, explicitName: string)
    requires NamedInTurn(s, items, explicitName) && Named(item, explicitName, TakenBeside(s, items))
    ensures NamedInTurn(s, items + [item], explicitName)
  {
    var more := items + [item];
    forall i | 0 <= i < |more| ensures Named(more[i], explicitName, TakenBeside(s, more[..i])) {
      if i < |items| {
        assert more[..i] == items[..i] && more[i] == items[i];
      } else {
        assert more[..i] == items;
      }
    }
  }

  /** Each item is named as if only the earlier ones and the instances from before the start were there. */
  ghost predicate NamedAmong(u: State, items: seq<Prepared>, explicitName: string) {
    forall i | 0 <= i < |items| ::
      Named(items[i], explicitName, u.names.Keys + u.instances.Keys - NamesOf(items[i..]) - IdsOf(items[i..]))
  }

  /** No ID could be drawn: before this limit the generator failed, or it gave 128 in a row that were taken. */
  ghost predicate BadDraws(draws: nat -> Option<string>, limit: nat, error: StartError, taken: set<string>) {
    match error
    case InvalidId => exists i | 0 <= i < limit :: BadDraw(draws, i)
    case NoUniqueId => exists from | 0 <= from <= limit - 128 :: Exhausted(draws, from, taken)
    case _ => false
  }

  // ---- What others do in the meantime ----

  datatype Move = Stop(id: string) | Shutdown | Exit(id: string, failed: bool, now: int)

  /** What stops, shutdowns and exits leave of a manager: names, instances and active paths only go. */
  ghost predicate Shrinks(s: State, u: State) {
    && u.names.Keys <= s.names.Keys && u.instances.Keys <= s.instances.Keys
    && Within(u.configs, s.configs) && Within(u.databases, s.databases)
  }

  lemma FinishShrinks(s: State, id: string, failed: bool, now: int, victims: set<string>)
    requires id in s.instances
    ensures Shrinks(s, FinishStep(s, id, failed, now, victims))
  {
  }

  datatype StartError =
    | Canceled
    | NoConfigs
    | InvalidName
    | ShuttingDown
    | Refused(check: CheckError)
    | NameInUse(name: string)
    | InvalidId
    | NoUniqueId

  datatype StartResult = Started(items: seq<Prepared>) | NotStarted(error: StartError)

  datatype Draw = Drew(id: string, next: nat) | Failure(error: StartError)

  class Manager {
    const fs: FileSystem
    const word: Alphabet
    const retained: nat
    var instances: map<string, Instance>
    var names: map<string, string>
    var activeConfigs: map<string, string>
    var activeDatabases: map<string, string>
    var shuttingDown: bool
    ghost var start: Start
    ghost var run: seq<Label>

    /** The manager's state is one that the machine reaches, by the steps recorded in run. */
    ghost predicate Valid()
      reads this
    {
      retained >= 1 && Reached(fs, retained, run, Now())
    }

    ghost function Now(): State
      reads this
    {
      State(instances, names, activeConfigs, activeDatabases, shuttingDown, start)
    }

    constructor (fs: FileSystem, word: Alphabet, retained: nat)
      requires retained >= 1
      ensures Valid() && Now() == EMPTY && this.fs == fs && this.word == word && this.retained == retained
    {
      this.fs, this.word, this.retained, run := fs, word, retained, [];
      instances, names, activeConfigs, activeDatabases, shuttingDown, start := map[], map[], map[], map[], false, Idle;
    }

    /** The first region of Stop, once the instance is resolved. */
    method BeginStop(id: string)
      requires id in instances
      modifies this`instances
      ensures Now() == Next(old(Now()), Label.BeginStop(id))
    {
      if instances[id].life.Running? {
        instances := instances[id := instances[id].(life := Stopping)];
      } else {
        assert instances[id := instances[id]] == instances;
      }
    }

    /** The first region of Shutdown. */
    method BeginShutdown()
      modifies this`instances, this`shuttingDown
      ensures Now() == Next(old(Now()), Label.BeginShutdown)
    {
      shuttingDown := true;
      var rest := instances.Keys;
      while rest != {}
        invariant shuttingDown && rest <= instances.Keys == old(instances).Keys
        invariant forall id | id in instances ::
                    instances[id] == if id in rest then old(instances)[id] else BeginStopping(old(instances)[id])
      {
        var id :| id in rest;
        if instances[id].Active() && instances[id].life.Running? {
          instances := instances[id := instances[id].(life := Stopping)];
        }
        rest := rest - {id};
      }
      assert instances == Next(old(Now()), Label.BeginShutdown).instances;
    }

    /** trimTerminatedLocked's choice. */
    method Oldest(current: string) returns (victims: set<string>)
      ensures Trims(instances, current, retained, victims)
    {
      var terminalIds: seq<string> := [];
      var terminal := Terminal(instances);
      var rest := terminal - {current};
      while rest != {}
        invariant rest <= terminal - {current}
        invariant forall id :: id in terminalIds <==> id in terminal - {current} - rest
        invariant ByAge(terminalIds, instances)
      {
        var id :| id in rest;
        InsertKeepsByAge(terminalIds, id, instances);
        terminalIds := InsertByAge(terminalIds, id, instances);
        rest := rest - {id};
      }
      var excess := 0;
      if |terminal| > retained {
        excess := if |terminal| - retained > |terminalIds| then |terminalIds| else |terminal| - retained;
      }
      OldestAreTrimmed(instances, current, retained, terminalIds, excess);
      victims := Prefix(terminalIds, excess);
    }

    /** The last region of run. */
    method FinishRun(id: string, failed: bool, now: int) returns (victims: set<string>)
      requires id in instances
      modifies this`instances, this`names, this`activeConfigs, this`activeDatabases
      ensures Now() == FinishStep(old(Now()), id, failed, now, victims)
      ensures Trims(old(instances)[id := Ended(old(instances)[id], failed, now)], id, retained, victims)
    {
      var view := Ended(instances[id], failed, now);
      instances := instances[id := view];
      activeConfigs := Release(activeConfigs, view.config, id);
      activeDatabases := Release(activeDatabases, view.database, id);
      victims := Oldest(id);
      var removed := if view.removeOnExit then {id} else victims;
      instances := instances - removed;
      names := WithoutIds(names, removed);
    }

    /** The texts that can be neither a new name nor a new ID. */
    function Taken(items: seq<Prepared>): (r: set<string>)
      reads this
      ensures r == TakenBeside(Now(), items)
    {
      names.Keys + instances.Keys + NamesOf(items) + IdsOf(items)
    }

    /** A name and an ID for one more candidate. */
    method PrepareOne(c: Candidate, explicitName: string, items: seq<Prepared>, draws: nat -> Option<string>, from: nat)
      returns (item: Prepared, failed: Option<StartError>, next: nat)
      requires Sensible(word) && c.nameBase != "" && NameChars(word, c.nameBase) && AllFresh(Now(), items)
      requires explicitName != "" ==> items == [] && ValidDisplayName(word, explicitName) && Unused(Now(), explicitName)
      ensures failed.None? ==> item.candidate == c && AllFresh(Now(), items + [item]) && Named(item, explicitName, Taken(items))
      ensures failed.None? ==> next <= from + 128
      ensures failed.Some? ==> BadDraws(draws, from + 128, failed.value, Taken(items) + {item.name})
    {
      var name, suffix := explicitName, 1;
      if name == "" {
        name, suffix := AvailableName(c.nameBase, Taken(items));
        NameCharsFindable(word, c.nameBase, suffix);
      } else {
        NameCharsFindable(word, explicitName, 1);
      }
      var drawn := AvailableId(draws, from, Taken(items) + {name});
      if drawn.Failure? {
        return Prepared(c, "", name), Some(drawn.error), from;
      }
      item, failed, next := Prepared(c, drawn.id, name), None, drawn.next;
      OneMorePrepared(Now(), items, item);
    }

    /** No ID could be drawn beside these texts of the start's own. */
    ghost predicate Failing(count: nat, draws: nat -> Option<string>, error: StartError, own: set<string>)
      reads this`names, this`instances
    {
      |own| < 2 * count && BadDraws(draws, 128 * count, error, names.Keys + instances.Keys + own)
    }

    /** Why a start that has the maps to itself can still fail: its name is in use, or no IDs can be drawn. */
    ghost predicate CannotPrepare(count: nat, explicitName: string, draws: nat -> Option<string>, error: StartError)
      reads this`names, this`instances
    {
      if error.NameInUse? then error.name == explicitName && explicitName != "" && (explicitName in names || explicitName in instances)
      else exists own: set<string> :: Failing(count, draws, error, own)
    }

    lemma CannotDraw(count: nat, explicitName: string, draws: nat -> Option<string>, limit: nat, error: StartError, items: seq<Prepared>, name: string)
      requires |items| < count && limit <= 128 * count
      requires |NamesOf(items) + IdsOf(items)| <= 2 * |items| && BadDraws(draws, limit, error, Taken(items) + {name})
      ensures CannotPrepare(count, explicitName, draws, error)
    {
      var own := NamesOf(items) + IdsOf(items) + {name};
      assert Taken(items) + {name} == names.Keys + instances.Keys + own;
      assert Failing(count, draws, error, own);
    }

    /** A name and an ID for every candidate, or nothing. */
    method Prepare(candidates: seq<Candidate>, explicitName: string, draws: nat -> Option<string>) returns (r: StartResult)
      requires Sensible(word) && forall c | c in candidates :: c.nameBase != "" && NameChars(word, c.nameBase)
      requires explicitName != "" ==> |candidates| == 1 && ValidDisplayName(word, explicitName)
      ensures r.Started? ==> CandidatesOf(r.items) == candidates && AllFresh(Now(), r.items)
      ensures r.Started? ==> NamedInTurn(Now(), r.items, explicitName)
      ensures r.NotStarted? ==> CannotPrepare(|candidates|, explicitName, draws, r.error)
    {
      if explicitName != "" && (explicitName in names || explicitName in instances) {
        return NotStarted(NameInUse(explicitName));
      }
      var items: seq<Prepared> := [];
      var next: nat := 0;
      var i := 0;
      while i < |candidates|
        invariant 0 <= i <= |candidates| && CandidatesOf(items) == candidates[..i]
        invariant AllFresh(Now(), items)
        invariant |items| == i && next <= 128 * i && NamedInTurn(Now(), items, explicitName)
      {
        var item, failed;
        ghost var from := next;
        item, failed, next := PrepareOne(candidates[i], explicitName, items, draws, next);
        if failed.Some? {
          OwnTexts(items);
          CannotDraw(|candidates|, explicitName, draws, from + 128, failed.value, items, item.name);
          return NotStarted(failed.value);
        }
        CandidatesOfMore(items, item);
        OneMoreTaken(candidates, i);
        NamedNext(Now(), items, item, explicitName);
        items := items + [item];
        i := i + 1;
      }
      assert candidates[..i] == candidates;
      return Started(items);
    }

    /** The loop that publishes and launches the prepared instances. */
    method Publish(items: seq<Prepared>, now: int, removeOnExit: bool)
      modifies this`instances, this`names, this`activeConfigs, this`activeDatabases
      ensures Now() == RegisterAll(old(Now()), items, now, removeOnExit)
    {
      var i := 0;
      while i < |items|
        invariant 0 <= i <= |items|
        invariant RegisterAll(old(Now()), items, now, removeOnExit) == RegisterAll(Now(), items[i..], now, removeOnExit)
      {
        var c := items[i].candidate;
        ghost var before := Now();
        instances := instances[items[i].id :=
          Instance(items[i].id, items[i].name, c.config, c.database, Running, now, now, removeOnExit)];
        names := names[items[i].name := items[i].id];
        activeConfigs := activeConfigs[c.config := items[i].id];
        activeDatabases := activeDatabases[c.database := items[i].id];
        assert items[i..][1..] == items[i + 1..];
        assert Now() == Register(before, items[i], now, removeOnExit);
        i := i + 1;
      }
    }

    /** Records the step that the code has just taken from before. */
    ghost method Took(l: Label, before: State)
      requires retained >= 1 && Reached(fs, retained, run, before)
      requires Enabled(fs, retained, before, l) && Now() == Next(before, l)
      modifies this`run
      ensures Valid() && run == old(run) + [l]
    {
      ReachedMore(fs, retained, run, before, l);
      run := run + [l];
    }

    /** Another goroutine sees its runner exit. */
    method SeeExit(id: string, failed: bool, now: int)
      requires Valid() && id in instances && instances[id].Active()
      modifies this
      ensures Valid() && start == old(start) && shuttingDown == old(shuttingDown) && Shrinks(old(Now()), Now())
      ensures exists l: Label :: !l.Reserve? && run == old(run) + [l]
    {
      ghost var before := Now();
      var victims := FinishRun(id, failed, now);
      FinishShrinks(before, id, failed, now, victims);
      Took(Finish(id, failed, now, victims), before);
    }

    /** Another goroutine stops an instance, begins the shutdown, or sees its runner exit. */
    method Other(move: Move)
      requires Valid()
      modifies this
      ensures Valid() && start == old(start) && (run == old(run) || exists l: Label :: !l.Reserve? && run == old(run) + [l])
      ensures Shrinks(old(Now()), Now()) && (old(shuttingDown) ==> shuttingDown)
    {
      ghost var before := Now();
      match move {
        case Stop(id) =>
          if id in instances {
            BeginStop(id);
            Took(Label.BeginStop(id), before);
          }
        case Shutdown =>
          BeginShutdown();
          Took(Label.BeginShutdown, before);
        case Exit(id, failed, now) =>
          if id in instances && instances[id].Active() {
            SeeExit(id, failed, now);
          }
      }
    }

    method Others(moves: seq<Move>)
      requires Valid()
      modifies this
      ensures Valid() && start == old(start) && QuietSince(old(run), run)
      ensures Shrinks(old(Now()), Now()) && (old(shuttingDown) ==> shuttingDown)
    {
      var i := 0;
      while i < |moves|
        invariant Valid() && start == old(start) && QuietSince(old(run), run)
        invariant Shrinks(old(Now()), Now()) && (old(shuttingDown) ==> shuttingDown)
      {
        Other(moves[i]);
        i := i + 1;
      }
    }

    /** acquireStartGate. */
    ghost method TakeGate(candidates: seq<Candidate>)
      requires Valid() && start.Idle? && AllApart(fs, candidates)
      modifies this`start, this`run
      ensures Valid() && start == Gated(candidates, |activeDatabases|, 0) && QuietSince(old(run), run)
    {
      ghost var before := Now();
      start := Gated(candidates, |activeDatabases|, 0);
      Took(Acquire(candidates), before);
    }

    /** releaseStartGate on an error return. */
    ghost method GiveUp()
      requires Valid() && !start.Idle?
      modifies this`start, this`run
      ensures Valid() && start.Idle? && QuietSince(old(run), run)
    {
      ghost var before := Now();
      start := Idle;
      Took(Abandon, before);
    }

    ghost method LookAt()
      requires Valid() && start.Gated? && !shuttingDown
      modifies this`start, this`run
      ensures Valid() && QuietSince(old(run), run)
      ensures start == Snapped(old(start).candidates, old(start).active, old(start).rounds + 1, activeConfigs, activeDatabases)
    {
      ghost var before := Now();
      start := Snapped(start.candidates, start.active, start.rounds + 1, activeConfigs, activeDatabases);
      Took(Snapshot, before);
    }

    ghost method LookAgain()
      requires Valid() && start.Snapped? && (activeConfigs != start.configs || activeDatabases != start.databases)
      modifies this`start, this`run
      ensures Valid() && QuietSince(old(run), run)
      ensures start == Gated(old(start).candidates, old(start).active, old(start).rounds)
    {
      ghost var before := Now();
      start := Gated(start.candidates, start.active, start.rounds);
      Took(Retry, before);
    }

    /** One turn of the loop: snapshot, validate without the mutex while others go on, recheck. */
    method Round(candidates: seq<Candidate>, expiredBefore: bool, expiredAfter: bool, others: seq<Move>) returns (outcome: Turn)
      requires Valid() && start.Gated? && start.candidates == candidates
      modifies this
      ensures Valid() && QuietSince(old(run), run) && Shrinks(old(Now()), Now())
      ensures outcome.Again? ==> start == Gated(candidates, old(start).active, old(start).rounds + 1)
      ensures outcome.Go? ==>
                && start.Snapped? && start.candidates == candidates && !shuttingDown
                && activeConfigs == start.configs && activeDatabases == start.databases
                && AllClear(fs, candidates, activeConfigs, activeDatabases)
      ensures outcome.Give? ==> start.Idle? && GivesWay(candidates, expiredBefore || expiredAfter, outcome.error)
    {
      if expiredBefore || shuttingDown {
        GiveUp();
        return Give(if expiredBefore then Canceled else ShuttingDown);
      }
      var configs, databases := activeConfigs, activeDatabases;
      LookAt();
      ghost var looked := run;
      var reservationError := ValidateActiveCandidates(fs, candidates, configs, databases);
      Others(others);
      if expiredAfter || shuttingDown {
        GiveUp();
        return Give(if expiredAfter then Canceled else ShuttingDown);
      }
      if configs != activeConfigs || databases != activeDatabases {
        LookAgain();
        return Again;
      }
      if reservationError.Some? {
        GiveUp();
        HoldersAreActive(fs, retained, run, Now());
        return Give(Refused(reservationError.value));
      }
      return Go;
    }

    /** A refusal is real: the reported paths clash, or clash with a path that is active when the start returns. */
    ghost predicate RefusalIsReal(candidates: seq<Candidate>, check: CheckError)
      reads this`instances, this`activeConfigs, this`activeDatabases
    {
      match check
      case AlreadyActive(c, id) => c in candidates && ActiveOwner(instances, id) && Holds(fs, id, c, activeConfigs, activeDatabases)
      case CannotInspect(p) => CannotSee(fs, p, candidates, activeConfigs, activeDatabases)
      case _ => Justified(fs, candidates, check)
    }

    /** Why a start gives way before it reserves: it was canceled, the manager shuts down, or a refusal that is real. */
    ghost predicate GivesWay(candidates: seq<Candidate>, canceled: bool, error: StartError)
      reads this`instances, this`activeConfigs, this`activeDatabases, this`shuttingDown
    {
      match error
      case Canceled => canceled
      case ShuttingDown => shuttingDown
      case Refused(check) => RefusalIsReal(candidates, check)
      case _ => false
    }

    /** The loop of startManyContext; it ends because every further turn has seen an instance end. */
    method Settle(candidates: seq<Candidate>, expired: nat -> bool, others: nat -> seq<Move>) returns (stopped: Option<StartError>)
      requires Valid() && start.Gated? && start.candidates == candidates && start.rounds == 0
      modifies this
      ensures Valid() && QuietSince(old(run), run) && Shrinks(old(Now()), Now())
      ensures stopped.None? ==>
                && start.Snapped? && start.candidates == candidates && !shuttingDown
                && activeConfigs == start.configs && activeDatabases == start.databases
                && AllClear(fs, candidates, activeConfigs, activeDatabases)
      ensures stopped.Some? ==> start.Idle? && GivesWay(candidates, exists i: nat :: i > 0 && expired(i), stopped.value)
    {
      ghost var active := start.active;
      var round: nat := 0;
      while true
        invariant Valid() && start.Gated? && start.candidates == candidates && start.active == active && start.rounds == round
        invariant QuietSince(old(run), run) && Shrinks(old(Now()), Now())
        decreases active + 1 - round
      {
        RoundsAreBounded(fs, retained, run, Now());
        ghost var before := run;
        var turn := Round(candidates, expired(2 * round + 1), expired(2 * round + 2), others(round));
        QuietFurther(old(run), before, run);
        if turn.Give? {
          return Some(turn.error);
        }
        if turn.Go? {
          return None;
        }
        round := round + 1;
      }
    }

    /** The reservation, in the region that rechecked the snapshot. */
    method ReserveAndLaunch(candidates: seq<Candidate>, explicitName: string, now: int, removeOnExit: bool, expired: bool,
        draws: nat -> Option<string>) returns (r: StartResult)
      requires Valid() && start.Snapped? && start.candidates == candidates && !shuttingDown
      requires activeConfigs == start.configs && activeDatabases == start.databases
      requires AllClear(fs, candidates, activeConfigs, activeDatabases)
      requires Sensible(word) && forall c | c in candidates :: c.nameBase != "" && NameChars(word, c.nameBase)
      requires explicitName != "" ==> |candidates| == 1 && ValidDisplayName(word, explicitName)
      modifies this
      ensures Valid() && start.Idle?
      ensures r.Started? ==>
                && CandidatesOf(r.items) == candidates && run == old(run) + [Reserve(r.items, now, removeOnExit)]
                && NamedAmong(Now(), r.items, explicitName)
      ensures r.NotStarted? ==> QuietSince(old(run), run) && Now() == old(Now()).(start := Idle)
      ensures r.NotStarted? ==> if r.error.Canceled? then expired else CannotPrepare(|candidates|, explicitName, draws, r.error)
    {
      r := Prepare(candidates, explicitName, draws);
      if r.Started? && expired {
        r := NotStarted(Canceled);
      }
      if r.NotStarted? {
        GiveUp();
        return;
      }
      LaunchPrepared(candidates, r.items, explicitName, now, removeOnExit);
    }

    /** The loop over the prepared instances; the gate is released when it returns. */
    method LaunchPrepared(candidates: seq<Candidate>, items: seq<Prepared>, explicitName: string, now: int, removeOnExit: bool)
      requires Valid() && start.Snapped? && start.candidates == candidates && !shuttingDown
      requires activeConfigs == start.configs && activeDatabases == start.databases
      requires AllClear(fs, candidates, activeConfigs, activeDatabases)
      requires CandidatesOf(items) == candidates && AllFresh(Now(), items) && NamedInTurn(Now(), items, explicitName)
      modifies this
      ensures Valid() && start.Idle? && run == old(run) + [Reserve(items, now, removeOnExit)]
      ensures NamedAmong(Now(), items, explicitName)
    {
      ghost var before := Now();
      Publish(items, now, removeOnExit);
      RegisterKeepsStart(before, items, now, removeOnExit);
      NamedAfterwards(before, items, explicitName, now, removeOnExit);
      start := Idle;
      Took(Reserve(items, now, removeOnExit), before);
    }

    /** A name is given, but for several configs, or one that is not acceptable. */
    predicate BadName(candidates: seq<Candidate>, explicitName: string) {
      explicitName != "" && (|candidates| != 1 || !ValidDisplayName(word, explicitName))
    }

    /** What startManyContext checks before it takes the gate. */
    method Preflight(candidates: seq<Candidate>, explicitName: string) returns (refused: Option<StartError>)
      ensures refused.None? ==> AllApart(fs, candidates) && candidates != [] && !shuttingDown && !BadName(candidates, explicitName)
      ensures refused == Some(ShuttingDown) <==> shuttingDown
      ensures refused == Some(NoConfigs) <==> !shuttingDown && candidates == []
      ensures refused == Some(InvalidName) <==> !shuttingDown && candidates != [] && BadName(candidates, explicitName)
      ensures refused.Some? ==> match refused.value
                                case Refused(check) => RefusalIsReal(candidates, check)
                                case error => error.ShuttingDown? || error.NoConfigs? || error.InvalidName?
    {
      if shuttingDown {
        return Some(ShuttingDown);
      }
      if candidates == [] {
        return Some(NoConfigs);
      }
      if explicitName != "" && (|candidates| != 1 || !ValidDisplayName(word, explicitName)) {
        return Some(InvalidName);
      }
      var clash := CheckConfigs(fs, candidates);
      if clash.None? {
        clash := ValidateDatabaseCandidates(fs, candidates);
      }
      if clash.Some? {
        return Some(Refused(clash.value));
      }
      return None;
    }

    /** The only reasons for which a start fails, as they are when it returns. */
    ghost predicate Warranted(candidates: seq<Candidate>, explicitName: string, canceled: bool, draws: nat -> Option<string>, error: StartError)
      reads this`instances, this`names, this`activeConfigs, this`activeDatabases, this`shuttingDown
    {
      match error
      case NoConfigs => candidates == []
      case InvalidName => BadName(candidates, explicitName)
      case NameInUse(_) => CannotPrepare(|candidates|, explicitName, draws, error)
      case InvalidId => CannotPrepare(|candidates|, explicitName, draws, error)
      case NoUniqueId => CannotPrepare(|candidates|, explicitName, draws, error)
      case _ => GivesWay(candidates, canceled, error)
    }

    /** From taking the gate to the region in which the reservation is made. */
    method Contend(candidates: seq<Candidate>, expired: nat -> bool, others: nat -> seq<Move>) returns (stopped: Option<StartError>)
      requires Valid() && start.Idle? && AllApart(fs, candidates)
      modifies this
      ensures Valid() && QuietSince(old(run), run) && Shrinks(old(Now()), Now())
      ensures stopped.None? ==>
                && start.Snapped? && start.candidates == candidates && !shuttingDown
                && activeConfigs == start.configs && activeDatabases == start.databases
                && AllClear(fs, candidates, activeConfigs, activeDatabases)
      ensures stopped.Some? ==> start.Idle? && GivesWay(candidates, exists i: nat :: i > 0 && expired(i), stopped.value)
    {
      TakeGate(candidates);
      var clash := ValidateDatabaseCandidates(fs, candidates);
      if clash.Some? {
        GiveUp();
        return Some(Refused(clash.value));
      }
      stopped := Settle(candidates, expired, others);
    }

    /** The part of startManyContext that holds the gate. */
    method StartAtGate(candidates: seq<Candidate>, explicitName: string, now: int, removeOnExit: bool,
        expired: nat -> bool, expiredAtEnd: bool, others: nat -> seq<Move>, draws: nat -> Option<string>) returns (r: StartResult)
      requires Valid() && start.Idle? && AllApart(fs, candidates) && candidates != [] && !BadName(candidates, explicitName)
      requires Sensible(word) && forall c | c in candidates :: c.nameBase != "" && NameChars(word, c.nameBase)
      modifies this
      ensures Valid() && start.Idle?
      ensures r.Started? ==>
                && CandidatesOf(r.items) == candidates && |run| > 0 && QuietSince(old(run), run[..|run| - 1])
                && run[|run| - 1] == Reserve(r.items, now, removeOnExit) && NamedAmong(Now(), r.items, explicitName)
      ensures r.NotStarted? ==> QuietSince(old(run), run) && Shrinks(old(Now()), Now())
      ensures r.NotStarted? ==> !r.error.NoConfigs? && !r.error.InvalidName?
      ensures r.NotStarted? ==> Warranted(candidates, explicitName, expiredAtEnd || exists i: nat :: expired(i), draws, r.error)
    {
      var stopped := Contend(candidates, expired, others);
      if stopped.Some? {
        return NotStarted(stopped.value);
      }
      r := ReserveAndLaunch(candidates, explicitName, now, removeOnExit, expiredAtEnd, draws);
    }

    /**
     * startManyContext without a registry. Whatever others do between the regions, it returns, and either
     * registers an instance for every candidate in one step, or registers nothing for a reason that is real;
     * so it succeeds when nothing hinders it, nothing cancels it and no shutdown overtakes it.
     */
    method StartMany(candidates: seq<Candidate>, explicitName: string, now: int, removeOnExit: bool,
        expired: nat -> bool, expiredAtEnd: bool, waiting: seq<Move>, others: nat -> seq<Move>, draws: nat -> Option<string>)
      returns (r: StartResult)
      requires Valid() && start.Idle?
      requires Sensible(word) && forall c | c in candidates :: c.nameBase != "" && NameChars(word, c.nameBase)
      modifies this
      ensures Valid() && start.Idle?
      ensures r.Started? ==>
                && CandidatesOf(r.items) == candidates && |run| > 0 && QuietSince(old(run), run[..|run| - 1])
                && run[|run| - 1] == Reserve(r.items, now, removeOnExit) && NamedAmong(Now(), r.items, explicitName)
      ensures r.NotStarted? ==> QuietSince(old(run), run)
      ensures r.NotStarted? ==> Warranted(candidates, explicitName, expiredAtEnd || exists i: nat :: expired(i), draws, r.error)
      ensures r == NotStarted(NoConfigs) <==> !expired(0) && !old(shuttingDown) && candidates == []
      ensures r == NotStarted(InvalidName) <==> !expired(0) && !old(shuttingDown) && candidates != [] && BadName(candidates, explicitName)
      ensures old(Unhindered(fs, Now(), candidates, explicitName) && GoodDraws(Now(), |candidates|, draws)) ==>
                candidates == [] || BadName(candidates, explicitName) || shuttingDown || expiredAtEnd || (exists i: nat :: expired(i)) || r.Started?
    {
      if expired(0) {
        return NotStarted(Canceled);
      }
      var refused := Preflight(candidates, explicitName);
      if refused.None? {
        Others(waiting);
        ghost var waited := run;
        r := StartAtGate(candidates, explicitName, now, removeOnExit, expired, expiredAtEnd, others, draws);
        QuietFurther(old(run), waited, if r.Started? then run[..|run| - 1] else run);
      } else {
        r := NotStarted(refused.value);
      }
      if r.NotStarted? && old(Unhindered(fs, Now(), candidates, explicitName)) && old(GoodDraws(Now(), |candidates|, draws))
         && candidates != [] && !BadName(candidates, explicitName) && !shuttingDown {
        UnhinderedStarts(this, old(Now()), candidates, explicitName, draws, r.error);
      }
    }
  }

  // ---- When a start succeeds ----

  /** Nothing in the manager or the file system stands in the way of this start. */
  ghost predicate Unhindered(fs: FileSystem, s: State, candidates: seq<Candidate>, explicitName: string) {
    && AllApart(fs, candidates) && AllClear(fs, candidates, s.configs, s.databases)
    && (forall c | c in candidates :: fs.id(c.config) != Unreadable && fs.id(c.database) != Unreadable)
    && (forall p | p in s.configs || p in s.databases :: fs.id(p) != Unreadable)
    && (explicitName != "" ==> Unused(s, explicitName))
  }

  /** What the generator can be asked for are valid IDs, all different and not in use, and the start is not for over 64 configs. */
  ghost predicate GoodDraws(s: State, count: nat, draws: nat -> Option<string>) {
    && (forall i | 0 <= i < 128 * count :: !BadDraw(draws, i) && Unused(s, DrawnId(draws, i)))
    && (forall i, j | 0 <= i < j < 128 * count :: DrawnId(draws, i) != DrawnId(draws, j))
    && 2 * count <= 128
  }

  lemma {:induction false} DifferentDraws(draws: nat -> Option<string>, from: nat, n: nat, own: set<string>)
    requires forall i, j | from <= i < j < from + n :: DrawnId(draws, i) != DrawnId(draws, j)
    requires forall i | from <= i < from + n :: DrawnId(draws, i) in own
    ensures n <= |own|
  {
    if n > 0 {
      var id := DrawnId(draws, from + n - 1);
      DifferentDraws(draws, from, n - 1, own - {id});
    }
  }

  /** So no start fails that is not hindered, not canceled, and not overtaken by a shutdown. */
  lemma UnhinderedStarts(m: Manager, s: State, candidates: seq<Candidate>, explicitName: string, draws: nat -> Option<string>, error: StartError)
    requires Unhindered(m.fs, s, candidates, explicitName) && GoodDraws(s, |candidates|, draws) && Shrinks(s, m.Now())
    requires candidates != [] && !m.BadName(candidates, explicitName) && !m.shuttingDown
    ensures !m.Warranted(candidates, explicitName, false, draws, error)
  {
    if error.Refused? {
      UnhinderedIsNotRefused(m, s, candidates, explicitName, error.check);
    } else if error.InvalidId? || error.NoUniqueId? {
      if own: set<string> :| m.Failing(|candidates|, draws, error, own) {
        if error.NoUniqueId? {
          var from :| 0 <= from <= 128 * |candidates| - 128 && Exhausted(draws, from, m.names.Keys + m.instances.Keys + own);
          forall i | from <= i < from + 128 ensures DrawnId(draws, i) in own {
            assert Unused(s, DrawnId(draws, i));
          }
          DifferentDraws(draws, from, 128, own);
        }
      }
    }
  }

  lemma UnhinderedIsNotRefused(m: Manager, s: State, candidates: seq<Candidate>, explicitName: string, check: CheckError)
    requires Unhindered(m.fs, s, candidates, explicitName) && Shrinks(s, m.Now())
    ensures !m.RefusalIsReal(candidates, check)
  {
    match check
    case AlreadyActive(c, id) =>
      if c in candidates {
        var i :| 0 <= i < |candidates| && candidates[i] == c;
        assert Clear(m.fs, c, s.configs, s.databases);
      }
    case DuplicateConfig(a, b) =>
      forall i, j | 0 <= i < j < |candidates| ensures !(SamePair(candidates, i, j, a, b) && SameConfig(m.fs, a.config, b.config)) {
        assert Apart(m.fs, candidates[i], candidates[j]);
      }
    case DuplicateDatabase(a, b) =>
      forall i, j | 0 <= i < j < |candidates| ensures !(SamePair(candidates, i, j, a, b) && Equivalent(m.fs, a.database, b.database)) {
        assert Apart(m.fs, candidates[i], candidates[j]);
      }
    case CannotInspect(p) =>
  }

  /** The names and IDs that a reservation adds. */
  lemma {:induction false} RegisterAllAdds(s: State, items: seq<Prepared>, now: int, removeOnExit: bool)
    ensures var u := RegisterAll(s, items, now, removeOnExit);
            u.names.Keys == s.names.Keys + NamesOf(items) && u.instances.Keys == s.instances.Keys + IdsOf(items)
    decreases |items|
  {
    if items != [] {
      RegisterAllAdds(Register(s, items[0], now, removeOnExit), items[1..], now, removeOnExit);
      assert items == [items[0]] + items[1..];
      FirstText(items);
    }
  }

  lemma FirstText(items: seq<Prepared>)
    requires items != []
    ensures NamesOf(items) == {items[0].name} + NamesOf(items[1..]) && IdsOf(items) == {items[0].id} + IdsOf(items[1..])
  {
    forall t | t in NamesOf(items) ensures t in {items[0].name} + NamesOf(items[1..]) {
      var i :| 0 <= i < |items| && items[i].name == t;
      if i > 0 { assert items[1..][i - 1].name == t; }
    }
    forall t | t in IdsOf(items) ensures t in {items[0].id} + IdsOf(items[1..]) {
      var i :| 0 <= i < |items| && items[i].id == t;
      if i > 0 { assert items[1..][i - 1].id == t; }
    }
    forall i | 0 <= i < |items[1..]| ensures items[1..][i] == items[i + 1] {
    }
  }

  lemma TakeAway(base: set<string>, names: set<string>, moreNames: set<string>, ids: set<string>, moreIds: set<string>, all: set<string>)
    requires (names + ids + base) !! (moreNames + moreIds) && all == base + (names + moreNames) + (ids + moreIds)
    ensures base + names + ids == all - moreNames - moreIds
  {
  }

  lemma PublishedKeys(s: State, items: seq<Prepared>, now: int, removeOnExit: bool)
    ensures var u := RegisterAll(s, items, now, removeOnExit);
            u.names.Keys + u.instances.Keys == s.names.Keys + s.instances.Keys + NamesOf(items) + IdsOf(items)
  {
    RegisterAllAdds(s, items, now, removeOnExit);
  }

  /** What was taken when item i was named: everything that is there afterwards but it and the later ones. */
  lemma PublishedTexts(s: State, items: seq<Prepared>, i: nat, now: int, removeOnExit: bool)
    requires i < |items| && AllFresh(s, items)
    ensures var u := RegisterAll(s, items, now, removeOnExit);
            TakenBeside(s, items[..i]) == u.names.Keys + u.instances.Keys - NamesOf(items[i..]) - IdsOf(items[i..])
  {
    var u := RegisterAll(s, items, now, removeOnExit);
    PublishedKeys(s, items, now, removeOnExit);
    SplitTexts(items, i);
    FreshApart(s, items, i);
    TakeAway(s.names.Keys + s.instances.Keys, NamesOf(items[..i]), NamesOf(items[i..]), IdsOf(items[..i]), IdsOf(items[i..]),
             u.names.Keys + u.instances.Keys);
  }

  lemma NamedAfterwards(s: State, items: seq<Prepared>, explicitName: string, now: int, removeOnExit: bool)
    requires AllFresh(s, items) && NamedInTurn(s, items, explicitName)
    ensures NamedAmong(RegisterAll(s, items, now, removeOnExit), items, explicitName)
  {
    var u := RegisterAll(s, items, now, removeOnExit);
    forall i | 0 <= i < |items|
      ensures Named(items[i], explicitName, u.names.Keys + u.instances.Keys - NamesOf(items[i..]) - IdsOf(items[i..]))
    {
      PublishedTexts(s, items, i, now, removeOnExit);
    }
  }

  lemma SplitTexts(items: seq<Prepared>, i: nat)
    requires i <= |items|
    ensures NamesOf(items) == NamesOf(items[..i]) + NamesOf(items[i..]) && IdsOf(items) == IdsOf(items[..i]) + IdsOf(items[i..])
  {
    forall k | 0 <= k < |items|
      ensures items[k].name in NamesOf(items[..i]) + NamesOf(items[i..]) && items[k].id in IdsOf(items[..i]) + IdsOf(items[i..])
    {
      if k < i {
        assert items[..i][k] == items[k];
      } else {
        assert items[i..][k - i] == items[k];
      }
    }
    assert forall k | 0 <= k < i :: items[..i][k] == items[k];
    assert forall k | 0 <= k < |items| - i :: items[i..][k] == items[i + k];
  }

  lemma FreshApart(s: State, items: seq<Prepared>, i: nat)
    requires i < |items| && AllFresh(s, items)
    ensures (NamesOf(items[..i]) + IdsOf(items[..i]) + s.names.Keys + s.instances.Keys) !! (NamesOf(items[i..]) + IdsOf(items[i..]))
  {
    forall k | 0 <= k < |items| - i
      ensures items[i..][k].name !in NamesOf(items[..i]) + IdsOf(items[..i]) + s.names.Keys + s.instances.Keys
      ensures items[i..][k].id !in NamesOf(items[..i]) + IdsOf(items[..i]) + s.names.Keys + s.instances.Keys
    {
      var item := items[i + k];
      assert items[i..][k] == item && Unused(s, item.id) && Unused(s, item.name);
      forall j | 0 <= j < i ensures Apart4(items[..i][j], item) {
        assert items[..i][j] == items[j];
      }
    }
  }

  /** Whoever holds a path is an active instance. */
  lemma HoldersAreActive(fs: FileSystem, retained: nat, run: seq<Label>, s: State)
    requires retained >= 1 && Reached(fs, retained, run, s)
    ensures forall id, c: Candidate | Holds(fs, id, c, s.configs, s.databases) :: ActiveOwner(s.instances, id)
  {
    EveryReachedKeeps(fs, retained, run, s);
  }

  lemma QuietFurther(a: seq<Label>, b: seq<Label>, c: seq<Label>)
    requires QuietSince(a, b) && QuietSince(b, c)
    ensures QuietSince(a, c)
  {
    forall i | |a| <= i < |c| ensures !c[i].Reserve? {
      if i < |b| {
        assert c[i] == b[i];
      }
    }
  }

  datatype Turn = Again | Go | Give(error: StartError)

  lemma {:induction false} RegisterKeepsStart(s: State, items: seq<Prepared>, now: int, removeOnExit: bool)
    ensures RegisterAll(s, items, now, removeOnExit).start == s.start
    decreases |items|
  {
    if items != [] {
      RegisterKeepsStart(Register(s, items[0], now, removeOnExit), items[1..], now, removeOnExit);
    }
  }

  /** The run went on from there without a reservation. */
  ghost predicate QuietSince(before: seq<Label>, run: seq<Label>) {
    before <= run && forall i | |before| <= i < |run| :: !run[i].Reserve?
  }

  function Lower(s: string): string {
    if s == "" then "" else [if 'A' <= s[0] <= 'Z' then (s[0] as int + 32) as char else s[0]] + Lower(s[1..])
  }
}
