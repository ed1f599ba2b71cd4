/**
 * The durable supervisor's transactions and mutex regions as code over the instances table and the manager's
 * maps. Each method takes exactly one step of the machine, so what every step keeps holds across it.
 */
module RegistryCode {
  import opened Text
  import opened Names
  import Supervisor
  import opened Registry
  import SupervisorCode

  // ---- Saving and publishing are separate loops ----

  /** Launching does not look at the disk or the history. */
  lemma {:induction false} LaunchAllApart(s: System, items: seq<Item>, d: map<string, Row>, l: map<string, Desired>)
    requires s.up.Some?
    ensures LaunchAll(s.(disk := d, last := l), items) == LaunchAll(s, items).(disk := d, last := l)
    decreases |items|
  {
    if items != [] {
      assert Launch(s.(disk := d, last := l), items[0]) == Launch(s, items[0]).(disk := d, last := l);
      LaunchAllApart(Launch(s, items[0]), items[1..], d, l);
    }
  }

  // ---- Building the registrations of a start ----

  /** A config file that a start has read: its identity, the instance it belongs to, if any, its content and its name. */
  datatype Source = Source(identity: string, existing: Option<string>, snapshot: string, base: string)

  datatype PrepareError = AlreadyActive(name: string) | NameInUse(name: string) | NoId | InvalidSnapshot

  /** What the identity comparisons of startRegistered establish about one source. */
  predicate Matched(instances: map<string, Runtime>, source: Source) {
    && source.identity != ""
    && match source.existing
       case Some(id) => id in instances && instances[id].identity == source.identity
       case None => forall id | id in instances :: instances[id].identity != source.identity
  }

  function NamesIn(instances: map<string, Runtime>): set<string> { set id | id in instances :: instances[id].view.name }

  function NamesOf(items: seq<Item>): set<string> { set i | 0 <= i < |items| :: items[i].name }

  function IdsOf(items: seq<Item>): set<string> { set i | 0 <= i < |items| :: items[i].id }

  lemma {:induction false} OwnTexts(items: seq<Item>)
    ensures |NamesOf(items)| <= |items| && |IdsOf(items)| <= |items| && |NamesOf(items) + IdsOf(items)| <= 2 * |items|
  {
    if items != [] {
      var before, last := items[..|items| - 1], items[|items| - 1];
      OwnTexts(before);
      assert forall i | 0 <= i < |before| :: before[i] == items[i];
      assert NamesOf(items) == NamesOf(before) + {last.name} && IdsOf(items) == IdsOf(before) + {last.id};
    }
  }

  /** No ID can be drawn: the generator failed, or it gave 128 IDs in a row that are in use or among the start's own texts. */
  ghost predicate NoIdBeside(instances: map<string, Runtime>, draws: nat -> Option<string>, earlier: nat, own: set<string>) {
    && |own| <= 2 * earlier + 1
    && ((exists i | 0 <= i < 128 * (earlier + 1) :: SupervisorCode.BadDraw(draws, i))
        || exists from | 0 <= from <= 128 * earlier :: SupervisorCode.Exhausted(draws, from, NamesIn(instances) + instances.Keys + own))
  }

  /** The only reasons for which a source gets no ID and name. */
  ghost predicate CannotName(instances: map<string, Runtime>, source: Source, name: string, draws: nat -> Option<string>, earlier: nat,
                             error: PrepareError)
  {
    match error
    case AlreadyActive(n) =>
      && source.existing.Some? && source.existing.value in instances
      && instances[source.existing.value].view.Active() && instances[source.existing.value].view.name == n
    case NameInUse(n) =>
      && name != ""
      && if source.existing.Some? then source.existing.value in instances && instances[source.existing.value].view.name == n != name
         else n == name && (name in NamesIn(instances) || name in instances)
    case NoId => source.existing.None? && exists own: set<string> :: NoIdBeside(instances, draws, earlier, own)
    case InvalidSnapshot => false
  }

  /** A snapshot of this source that cannot be validated. */
  ghost predicate Rejected(source: Source, validates: Item -> bool, item: Item) {
    item.identity == source.identity && item.snapshot == source.snapshot && !validates(item)
  }

  /** The only reasons for which a source cannot be registered. */
  ghost predicate CannotBegin(instances: map<string, Runtime>, source: Source, name: string, draws: nat -> Option<string>,
                              validates: Item -> bool, earlier: nat, error: PrepareError)
  {
    if error.InvalidSnapshot? then exists item: Item :: Rejected(source, validates, item)
    else CannotName(instances, source, name, draws, earlier, error)
  }

  lemma {:induction false} NoIdIsAReason(instances: map<string, Runtime>, draws: nat -> Option<string>, items: seq<Item>, chosen: string)
    requires (exists i | 0 <= i < 128 * (|items| + 1) :: SupervisorCode.BadDraw(draws, i))
             || exists from | 0 <= from <= 128 * |items| ::
                  SupervisorCode.Exhausted(draws, from, NamesIn(instances) + instances.Keys + NamesOf(items) + IdsOf(items) + {chosen})
    ensures NoIdBeside(instances, draws, |items|, NamesOf(items) + IdsOf(items) + {chosen})
  {
    var own := NamesOf(items) + IdsOf(items) + {chosen};
    OwnTexts(items);
    assert NamesIn(instances) + instances.Keys + NamesOf(items) + IdsOf(items) + {chosen} == NamesIn(instances) + instances.Keys + own;
    assert |own| <= |NamesOf(items) + IdsOf(items)| + 1;
  }

  lemma OneMoreItem(word: Alphabet, m: Memory, items: seq<Item>, item: Item)
    requires CanBeginAll(word, m, items) && CanBegin(word, m, item) && forall i | 0 <= i < |items| :: Different(items[i], item)
    ensures CanBeginAll(word, m, items + [item])
  {
    var more := items + [item];
    assert forall i | 0 <= i < |items| :: more[i] == items[i];
    forall i | 0 <= i < |more| ensures CanBegin(word, m, more[i]) {
    }
    forall i, j | 0 <= i < j < |more| ensures Different(more[i], more[j]) {
      if j < |items| {
        assert Different(items[i], items[j]);
      }
    }
  }

  /** Registrations of different configurations differ in ID and name, unless two new ones were given the same. */
  lemma ConfigsTellApart(word: Alphabet, s: System, a: Item, b: Item)
    requires Inv(s) && s.up.Some? && CanBegin(word, s.up.value, a) && CanBegin(word, s.up.value, b) && a.identity != b.identity
    requires a.id !in s.up.value.instances && b.id !in s.up.value.instances ==> a.id != b.id && a.name != b.name
    ensures Different(a, b)
  {
    var m := s.up.value;
    if a.id in m.instances && b.id in m.instances {
      assert Agrees(s.disk[a.id], m.instances[a.id]) && Agrees(s.disk[b.id], m.instances[b.id]);
    }
  }

  class Daemon {
    const word: Alphabet
    var rows: map<string, Row>
    var isUp: bool
    var instances: map<string, Runtime>
    var shuttingDown: bool
    var next: nat
    ghost var runners: map<nat, Runner>
    ghost var last: map<string, Desired>

    ghost function Now(): System
      reads this
    {
      System(rows, if isUp then Some(Memory(instances, shuttingDown)) else None, runners, next, last)
    }

    constructor (word: Alphabet)
      ensures Now() == NEW && this.word == word
    {
      this.word := word;
      rows, isUp, instances, shuttingDown, next := map[], false, map[], false, 0;
      runners, last := map[], map[];
    }

    /** An instance that is registered already keeps its ID and name; it must not be active. */
    method PrepareExisting(source: Source, id: string, name: string) returns (item: Item, failed: Option<PrepareError>)
      requires Inv(Now()) && isUp && Matched(instances, source) && source.existing == Some(id)
      ensures failed.None? <==> !instances[id].view.Active() && (name == "" || name == instances[id].view.name)
      ensures failed.Some? ==> if instances[id].view.Active() then failed == Some(AlreadyActive(instances[id].view.name))
                               else failed == Some(NameInUse(instances[id].view.name))
      ensures item == Item(id, instances[id].view.name, source.identity, source.snapshot, Kept)
      ensures failed.None? ==> CanBegin(word, Memory(instances, shuttingDown), item)
    {
      assert Agrees(rows[id], instances[id]) && RowOk(id, rows[id]);
      item := Item(id, instances[id].view.name, source.identity, source.snapshot, Kept);
      failed := None;
      if instances[id].view.Active() {
        failed := Some(AlreadyActive(instances[id].view.name));
      } else if name != "" && name != instances[id].view.name {
        failed := Some(NameInUse(instances[id].view.name));
      }
    }

    function Taken(items: seq<Item>): set<string>
      reads this`instances
    {
      NamesIn(instances) + instances.Keys + NamesOf(items) + IdsOf(items)
    }

    /** An ID that is not in use and not among the texts of the start's own. */
    method DrawId(items: seq<Item>, chosen: string, draws: nat -> Option<string>, from: nat) returns (r: SupervisorCode.Draw)
      requires from <= 128 * |items|
      ensures r.Drew? ==> Supervisor.ValidId(r.id) && r.id !in Taken(items) + {chosen} && r.next <= from + 128
      ensures r.Failure? ==> exists own: set<string> :: NoIdBeside(instances, draws, |items|, own)
    {
      r := SupervisorCode.AvailableId(draws, from, Taken(items) + {chosen});
      if r.Failure? {
        NoIdIsAReason(instances, draws, items, chosen);
      }
    }

    /** A new instance gets the requested or an automatic name, and an ID. */
    method PrepareNew(source: Source, name: string, items: seq<Item>, draws: nat -> Option<string>, from: nat)
      returns (item: Item, failed: Option<PrepareError>, next: nat)
      requires isUp && Matched(instances, source) && source.existing.None?
      requires name != "" ==> items == [] && ValidDisplayName(word, name)
      requires from <= 128 * |items|
      ensures failed.None? ==> next <= from + 128
      ensures failed.None? ==> CanBegin(word, Memory(instances, shuttingDown), item) && (name != "" ==> item.name == name)
      ensures failed.None? ==> item == Item(item.id, item.name, source.identity, source.snapshot, item.origin)
      ensures failed.None? ==> item.id !in instances && item.id !in IdsOf(items) && item.name !in NamesOf(items)
      ensures failed.None? && name == "" ==>
                item.origin.FromFile? && item.origin.base == source.base && SupervisorCode.FirstFree(AutomaticName(word, source.base), item.origin.suffix, Taken(items))
      ensures failed.Some? ==> CannotName(instances, source, name, draws, |items|, failed.value)
    {
      var taken := Taken(items);
      var chosen, origin := name, Given;
      if chosen == "" {
        var suffix;
        chosen, suffix := SupervisorCode.AvailableName(AutomaticName(word, source.base), taken);
        origin := FromFile(source.base, suffix);
      } else if chosen in NamesIn(instances) || chosen in instances {
        return Item("", chosen, source.identity, source.snapshot, Given), Some(NameInUse(chosen)), from;
      }
      var drawn := DrawId(items, chosen, draws, from);
      if drawn.Failure? {
        return Item("", chosen, source.identity, source.snapshot, origin), Some(NoId), from;
      }
      item, failed, next := Item(drawn.id, chosen, source.identity, source.snapshot, origin), None, drawn.next;
      NewNameIsFree(instances, chosen);
    }

    /** One turn of the loop that builds the registrations; the snapshot is validated under its own database path. */
    method PrepareOne(source: Source, name: string, items: seq<Item>, draws: nat -> Option<string>, from: nat, validates: Item -> bool)
      returns (item: Item, failed: Option<PrepareError>, next: nat)
      requires Inv(Now()) && isUp && Matched(instances, source) && CanBeginAll(word, Memory(instances, shuttingDown), items)
      requires name != "" ==> items == [] && ValidDisplayName(word, name)
      requires from <= 128 * |items|
      ensures failed.None? ==> next <= from + 128
      requires forall i | 0 <= i < |items| :: items[i].identity != source.identity
      ensures failed.None? ==> validates(item) && CanBeginAll(word, Memory(instances, shuttingDown), items + [item])
      ensures failed.None? ==> item.identity == source.identity && item.snapshot == source.snapshot
      ensures failed.None? && source.existing.Some? ==> item.id == source.existing.value
      ensures failed.Some? ==> CannotBegin(instances, source, name, draws, validates, |items|, failed.value)
    {
      next := from;
      if source.existing.Some? {
        item, failed := PrepareExisting(source, source.existing.value, name);
      } else {
        item, failed, next := PrepareNew(source, name, items, draws, from);
      }
      if failed.Some? {
        return;
      }
      if !validates(item) {
        failed := Some(InvalidSnapshot);
        assert Rejected(source, validates, item);
        return;
      }
      forall j | 0 <= j < |items| ensures Different(items[j], item) {
        assert items[j].id in IdsOf(items) && items[j].name in NamesOf(items);
        ConfigsTellApart(word, Now(), items[j], item);
      }
      OneMoreItem(word, Memory(instances, shuttingDown), items, item);
    }

    /** The loop of startRegistered's last region that builds the registrations. */
    method PrepareAll(sources: seq<Source>, name: string, draws: nat -> Option<string>, validates: Item -> bool)
      returns (items: seq<Item>, failed: Option<PrepareError>)
      requires Inv(Now()) && isUp && (name != "" ==> |sources| == 1 && ValidDisplayName(word, name))
      requires forall i | 0 <= i < |sources| :: Matched(instances, sources[i])
      requires forall i, j | 0 <= i < j < |sources| :: sources[i].identity != sources[j].identity
      ensures failed.None? ==> |items| == |sources| && CanBeginAll(word, Memory(instances, shuttingDown), items)
      ensures failed.None? ==> forall i | 0 <= i < |items| ::
                validates(items[i]) && items[i].identity == sources[i].identity && items[i].snapshot == sources[i].snapshot
                && (sources[i].existing.Some? ==> items[i].id == sources[i].existing.value)
      ensures failed.Some? ==> exists i | 0 <= i < |sources| :: CannotBegin(instances, sources[i], name, draws, validates, i, failed.value)
    {
      items, failed := [], None;
      var next: nat := 0;
      var i := 0;
      while i < |sources|
        invariant failed.None? && next <= 128 * i && 0 <= i == |items| <= |sources| && CanBeginAll(word, Memory(instances, shuttingDown), items)
        invariant forall j | 0 <= j < i ::
                    validates(items[j]) && items[j].identity == sources[j].identity && items[j].snapshot == sources[j].snapshot
                    && (sources[j].existing.Some? ==> items[j].id == sources[j].existing.value)
      {
        var item;
        item, failed, next := PrepareOne(sources[i], name, items, draws, next, validates);
        if failed.Some? {
          assert CannotBegin(instances, sources[i], name, draws, validates, i, failed.value);
          return;
        }
        items := items + [item];
        i := i + 1;
      }
    }

    /** registry.save: one transaction of upserts under the table's UNIQUE constraints. */
    method Save(items: seq<Item>, write: Write) returns (ok: bool)
      modifies this`rows
      ensures var saved := SaveAll(old(rows), items);
              if write.Lost? || saved.None? then !ok && rows == old(rows) else ok == write.Written? && rows == saved.value
    {
      var tx := rows;
      var i := 0;
      while i < |items|
        invariant 0 <= i <= |items| && rows == old(rows)
        invariant SaveAll(rows, items) == SaveAll(tx, items[i..])
      {
        var item := items[i];
        assert items[i..][0] == item && items[i..][1..] == items[i + 1..];
        if Clashes(tx, item) {
          return false;
        }
        tx := Put(tx, item);
        i := i + 1;
      }
      if !write.Lost? {
        rows := tx;
      }
      return write.Written?;
    }

    /** registry.saveViews of one view. */
    method SaveOneView(id: string, view: View, write: Write) returns (ok: bool)
      modifies this`rows
      ensures ok == write.Written? && rows == if write.Lost? then old(rows) else SaveView(old(rows), id, view)
    {
      if !write.Lost? && id in rows {
        rows := rows[id := rows[id].(view := view)];
      }
      return write.Written?;
    }

    /** registerRuntime with launch. */
    method LaunchOne(item: Item)
      requires isUp
      modifies this`instances, this`next, this`runners
      ensures Now() == Launch(old(Now()), item)
    {
      var view := View(item.name, WantRunning, Supervisor.Running);
      instances := instances[item.id := Runtime(view, item.identity, Some(item.snapshot), next)];
      runners := runners[next := Working(item.id)];
      next := next + 1;
    }

    /** The loop that publishes and launches what has been saved. */
    method LaunchEach(items: seq<Item>)
      requires isUp
      modifies this`instances, this`next, this`runners
      ensures Now() == LaunchAll(old(Now()), items)
    {
      var i := 0;
      while i < |items|
        invariant 0 <= i <= |items| && isUp
        invariant LaunchAll(old(Now()), items) == LaunchAll(Now(), items[i..])
      {
        assert items[i..][1..] == items[i + 1..];
        LaunchOne(items[i]);
        i := i + 1;
      }
    }

    /** The last region of startRegistered: commit first, then publish and launch. */
    method StartRegistered(items: seq<Item>, write: Write) returns (ok: bool)
      requires Enabled(word, Now(), Start(items, write))
      modifies this
      ensures ok <==> write.Written? && SaveAll(old(rows), items).Some?
      ensures Now() == StartStep(old(Now()), items, write)
    {
      ok := Save(items, write);
      if !write.Lost? && SaveAll(old(rows), items).Some? {
        last := AskAll(last, items);
      }
      if ok {
        LaunchEach(items);
      }
    }

    /** resumeRegisteredLocked. */
    method ResumeRegistered(id: string, write: Write) returns (ok: bool)
      requires Enabled(word, Now(), Resume(id, write))
      modifies this
      ensures ok == write.Written? && Now() == Registry.Next(word, old(Now()), Resume(id, write))
    {
      var runtime := instances[id];
      ok := SaveOneView(id, View(runtime.view.name, WantRunning, Supervisor.Running), write);
      if !write.Lost? {
        last := last[id := WantRunning];
      }
      if ok {
        LaunchOne(Item(id, runtime.view.name, runtime.identity, runtime.config.value, Kept));
      }
    }

    /** Stop's region; it reports whether the caller has a runner to cancel and wait for. */
    method StopRegistered(id: string, write: Write) returns (ok: bool, wait: bool)
      requires Enabled(word, Now(), Stop(id, write))
      modifies this
      ensures ok == write.Written? && Now() == StopStep(old(Now()), id, write)
      ensures wait <==> ok && old(instances)[id].view.Active()
    {
      var runtime := instances[id];
      var view := runtime.view.(desired := WantStopped);
      ok := SaveOneView(id, view, write);
      wait := ok && view.Active();
      if !write.Lost? {
        last := last[id := WantStopped];
      }
      if ok {
        if view.Active() && view.life.Running? {
          view := view.(life := Supervisor.Stopping);
        }
        instances := instances[id := runtime.(view := view)];
      }
    }

    /** The last region of run. A final write that fails is remembered, and the exit goes on. */
    method EndRun(token: nat, id: string, returned: View, write: Write) returns (persistenceFailed: bool)
      requires isUp && token in runners && runners[token] == Returned(id, returned) && id in instances
      modifies this`instances, this`rows, this`runners
      ensures Now() == EndStep(old(Now()), token, write)
      ensures persistenceFailed <==> !write.Written?
    {
      var view := returned.(desired := instances[id].view.desired);
      instances := instances[id := instances[id].(view := view)];
      var saved := SaveOneView(id, view, write);
      persistenceFailed := !saved;
      runners := runners - {token};
    }

    /** The loop of Restore that collects what is to be resumed. */
    method CollectPending() returns (order: seq<string>)
      ensures Enumerates(Memory(instances, shuttingDown), order)
    {
      order := [];
      var rest := instances.Keys;
      while rest != {}
        invariant rest <= instances.Keys
        invariant forall id :: id in order <==> Pending(Memory(instances, shuttingDown), id) && id !in rest
        invariant forall i, j | 0 <= i < j < |order| :: order[i] != order[j]
      {
        var id :| id in rest;
        if Pending(Memory(instances, shuttingDown), id) {
          order := order + [id];
        }
        rest := rest - {id};
      }
    }

    /** registry.saveViews of the running views of these instances, in one transaction. */
    method SaveRunningViews(items: seq<Item>, write: Write) returns (ok: bool)
      modifies this`rows
      ensures ok == write.Written? && rows == if write.Lost? then old(rows) else SaveRunning(old(rows), items)
    {
      var tx := rows;
      var i := 0;
      while i < |items|
        invariant 0 <= i <= |items| && rows == old(rows)
        invariant SaveRunning(rows, items) == SaveRunning(tx, items[i..])
      {
        var item := items[i];
        assert items[i..][0] == item && items[i..][1..] == items[i + 1..];
        tx := SaveView(tx, item.id, View(item.name, WantRunning, Supervisor.Running));
        i := i + 1;
      }
      if !write.Lost? {
        rows := tx;
      }
      return write.Written?;
    }

    /** Restore. */
    method RestoreDesired(write: Write) returns (order: seq<string>, ok: bool)
      requires isUp && !shuttingDown
      modifies this
      ensures Enabled(word, old(Now()), Restore(order, write)) && Now() == Registry.Next(word, old(Now()), Restore(order, write))
      ensures ok == write.Written?
    {
      order := CollectPending();
      var items := AgainAll(Memory(instances, shuttingDown), order);
      ok := SaveRunningViews(items, write);
      if ok {
        LaunchEach(items);
      }
    }

    /** loadRegistered: every row in turn, and none if one is not acceptable. */
    method LoadRegistered(valid: string -> bool, order: seq<string>) returns (ok: bool)
      requires !isUp && forall id :: id in order <==> id in rows
      modifies this
      ensures Now() == Registry.Next(word, old(Now()), Open(valid))
      ensures ok <==> AllAcceptable(word, rows)
    {
      var loaded: map<string, Runtime> := map[];
      var i := 0;
      while i < |order|
        invariant 0 <= i <= |order| && Now() == old(Now())
        invariant forall id :: id in loaded <==> id in order[..i]
        invariant forall id | id in loaded :: id in rows && Acceptable(word, id, rows[id])
        invariant forall id | id in loaded :: loaded[id] == Loaded(rows[id], valid(rows[id].snapshot))
      {
        var id := order[i];
        assert order[..i + 1] == order[..i] + [id];
        if !Acceptable(word, id, rows[id]) {
          return false;
        }
        loaded := loaded[id := Loaded(rows[id], valid(rows[id].snapshot))];
        i := i + 1;
      }
      assert order[..i] == order;
      assert loaded == LoadedMemory(rows, valid).instances;
      instances, shuttingDown, isUp := loaded, false, true;
      return true;
    }
  }

  lemma NewNameIsFree(instances: map<string, Runtime>, name: string)
    requires name !in NamesIn(instances)
    ensures forall id | id in instances :: instances[id].view.name != name
  {
    assert forall id | id in instances :: instances[id].view.name in NamesIn(instances);
  }
}
