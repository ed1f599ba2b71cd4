/**
 * The durable supervisor: registrations on disk, the instances a daemon holds in memory, and its runners, over
 * starts, stops, runner exits, shutdowns, crashes and reopenings. Each transaction with the region around it is
 * one step, and every save may take effect and be reported as failed. `last` is history: what the last committed
 * start or stop of an instance asked for.
 */
module Registry {
  import opened Text
  import opened Names
  import opened Supervisor

  datatype Desired = WantRunning | WantStopped

  datatype View = View(name: string, desired: Desired, life: Life)
  {
    predicate Active() { life.Running? || life.Stopping? }
  }

  /** A row of the instances table; snapshot is the saved configuration. */
  datatype Row = Row(name: string, identity: string, view: View, snapshot: string)

  /** config is None when the saved configuration was rejected. */
  datatype Runtime = Runtime(view: View, identity: string, config: Option<string>, token: nat)

  datatype Memory = Memory(instances: map<string, Runtime>, shuttingDown: bool)

  /** A goroutine in run: before and after its runner has returned. */
  datatype Runner = Working(id: string) | Returned(id: string, view: View)

  datatype System = System(disk: map<string, Row>, up: Option<Memory>, runners: map<nat, Runner>, next: nat,
                           last: map<string, Desired>)

  const NEW := System(map[], None, map[], 0, map[])

  /** Where a new instance's name comes from; a registered instance keeps the one it has. */
  datatype Origin = Kept | Given | FromFile(base: string, suffix: nat)

  /** One registration of a start: a new instance, or an inactive one with its configuration read again. */
  datatype Item = Item(id: string, name: string, identity: string, snapshot: string, origin: Origin)

  /** What a save reports, and whether it took effect. */
  datatype Write = Written | Lost | WrittenButFailed

  datatype Event =
    | Open(valid: string -> bool)
    | Restore(order: seq<string>, write: Write)
    | Start(items: seq<Item>, write: Write)
    | Resume(id: string, write: Write)
    | Stop(id: string, write: Write)
    | Return(token: nat, failed: bool)
    | End(token: nat, write: Write)
    | BeginClose
    | Close
    | Crash

  // ---- Opening ----

  /** loadRegistered rejects the whole registry over one row that is not acceptable. */
  predicate Acceptable(word: Alphabet, id: string, row: Row) {
    ValidId(id) && ValidDisplayName(word, row.name) && row.view.name == row.name && row.identity != ""
  }

  predicate AllAcceptable(word: Alphabet, disk: map<string, Row>) {
    forall id | id in disk :: Acceptable(word, id, disk[id])
  }

  /** The view of a row before Restore: nothing runs, and a rejected configuration shows as a failure. */
  function Loaded(row: Row, ok: bool): Runtime {
    var life := if !ok then Failed else if row.view.Active() then Exited else row.view.life;
    Runtime(row.view.(life := life), row.identity, if ok then Some(row.snapshot) else None, 0)
  }

  function LoadedMemory(disk: map<string, Row>, valid: string -> bool): Memory {
    Memory(map id | id in disk :: Loaded(disk[id], valid(disk[id].snapshot)), false)
  }

  // ---- Saving ----

  function Put(disk: map<string, Row>, item: Item): map<string, Row> {
    disk[item.id := Row(item.name, item.identity, View(item.name, WantRunning, Running), item.snapshot)]
  }

  /** The table's UNIQUE constraints refuse the item: another row has its name or its configuration. */
  predicate Clashes(disk: map<string, Row>, item: Item) {
    exists id | id in disk :: id != item.id && (disk[id].name == item.name || disk[id].identity == item.identity)
  }

  /** registry.save: upserts in turn, all or nothing. */
  function SaveAll(disk: map<string, Row>, items: seq<Item>): Option<map<string, Row>>
    decreases |items|
  {
    if items == [] then Some(disk)
    else if Clashes(disk, items[0]) then None
    else SaveAll(Put(disk, items[0]), items[1..])
  }

  function AskAll(last: map<string, Desired>, items: seq<Item>): map<string, Desired>
    decreases |items|
  {
    if items == [] then last else AskAll(last[items[0].id := WantRunning], items[1..])
  }

  /** registry.saveViews of one view: only a row that exists is updated. */
  function SaveView(disk: map<string, Row>, id: string, view: View): map<string, Row> {
    if id in disk then disk[id := disk[id].(view := view)] else disk
  }

  /** registry.saveViews of the views that Restore is about to run. */
  function SaveRunning(disk: map<string, Row>, items: seq<Item>): map<string, Row>
    decreases |items|
  {
    if items == [] then disk
    else SaveRunning(SaveView(disk, items[0].id, View(items[0].name, WantRunning, Running)), items[1..])
  }

  // ---- Launching ----

  /** registerRuntime: publish a running instance and launch its runner. */
  function Launch(s: System, item: Item): (u: System)
    requires s.up.Some?
    ensures u.up.Some? && u.disk == s.disk && u.last == s.last
  {
    var runtime := Runtime(View(item.name, WantRunning, Running), item.identity, Some(item.snapshot), s.next);
    s.(up := Some(s.up.value.(instances := s.up.value.instances[item.id := runtime])),
       runners := s.runners[s.next := Working(item.id)], next := s.next + 1)
  }

  function LaunchAll(s: System, items: seq<Item>): (u: System)
    requires s.up.Some?
    ensures u.up.Some? && u.disk == s.disk && u.last == s.last
    decreases |items|
  {
    if items == [] then s else LaunchAll(Launch(s, items[0]), items[1..])
  }

  /** The registration under which an instance that has a configuration is started again. */
  function Again(m: Memory, id: string): Item
    requires id in m.instances && m.instances[id].config.Some?
  {
    Item(id, m.instances[id].view.name, m.instances[id].identity, m.instances[id].config.value, Kept)
  }

  function AgainAll(m: Memory, order: seq<string>): (items: seq<Item>)
    requires forall id | id in order :: id in m.instances && m.instances[id].config.Some?
    ensures |items| == |order| && forall i | 0 <= i < |order| :: items[i] == Again(m, order[i])
  {
    if order == [] then [] else [Again(m, order[0])] + AgainAll(m, order[1..])
  }

  /** A new name was given and is accepted, or derived from the file name and numbered. */
  predicate OriginOk(word: Alphabet, item: Item) {
    match item.origin
    case Kept => false
    case Given => ValidDisplayName(word, item.name)
    case FromFile(base, suffix) => item.name == Numbered(AutomaticName(word, base), suffix)
  }

  /** The item is this inactive instance, or new: then its ID, name and configuration are not in use in memory. */
  predicate CanBegin(word: Alphabet, m: Memory, item: Item) {
    && ValidId(item.id) && item.identity != ""
    && (if item.id in m.instances then
          var r := m.instances[item.id];
          !r.view.Active() && r.view.name == item.name && r.identity == item.identity && item.origin.Kept?
        else
          OriginOk(word, item)
          && forall id | id in m.instances :: m.instances[id].view.name != item.name && m.instances[id].identity != item.identity)
  }

  predicate Different(a: Item, b: Item) { a.id != b.id && a.name != b.name && a.identity != b.identity }

  predicate CanBeginAll(word: Alphabet, m: Memory, items: seq<Item>) {
    && (forall i | 0 <= i < |items| :: CanBegin(word, m, items[i]))
    && forall i, j | 0 <= i < j < |items| :: Different(items[i], items[j])
  }

  /** What Restore resumes. */
  predicate Pending(m: Memory, id: string) {
    id in m.instances && m.instances[id].view.desired.WantRunning? && !m.instances[id].view.Active() && m.instances[id].config.Some?
  }

  ghost predicate Enumerates(m: Memory, order: seq<string>) {
    (forall id :: id in order <==> Pending(m, id)) && forall i, j | 0 <= i < j < |order| :: order[i] != order[j]
  }

  // ---- Starting and restoring ----

  function StartStep(s: System, items: seq<Item>, write: Write): System
    requires s.up.Some?
  {
    var saved := SaveAll(s.disk, items);
    if write.Lost? || saved.None? then s
    else
      var committed := s.(disk := saved.value, last := AskAll(s.last, items));
      if write.Written? then LaunchAll(committed, items) else committed
  }

  /** resumeRegisteredLocked, with the registration that is in memory. */
  function ResumeStep(s: System, item: Item, write: Write): System
    requires s.up.Some?
  {
    var view := View(item.name, WantRunning, Running);
    if write.Lost? then s
    else
      var committed := s.(disk := SaveView(s.disk, item.id, view), last := s.last[item.id := WantRunning]);
      if write.Written? then Launch(committed, item) else committed
  }

  /** Restore asks for nothing new: it repeats what memory holds. */
  function RestoreStep(s: System, items: seq<Item>, write: Write): System
    requires s.up.Some?
  {
    if write.Lost? then s
    else
      var committed := s.(disk := SaveRunning(s.disk, items));
      if write.Written? then LaunchAll(committed, items) else committed
  }

  // ---- Stopping and exiting ----

  function BeginStopping(v: View): View { if v.life.Running? then v.(life := Stopping) else v }

  /** Stop's region: the view is saved as wanted stopped first, and an active instance starts stopping. */
  function StopStep(s: System, id: string, write: Write): System
    requires s.up.Some? && id in s.up.value.instances
  {
    var m, r := s.up.value, s.up.value.instances[id];
    var view := r.view.(desired := WantStopped);
    if write.Lost? then s
    else
      var committed := s.(disk := SaveView(s.disk, id, view), last := s.last[id := WantStopped]);
      if write.Written? then committed.(up := Some(m.(instances := m.instances[id := r.(view := BeginStopping(view))])))
      else committed
  }

  /** run's first region: the terminal view, from the view of that moment. */
  function ReturnStep(s: System, token: nat, failed: bool): System
    requires s.up.Some? && token in s.runners && s.runners[token].id in s.up.value.instances
  {
    var id := s.runners[token].id;
    var view := s.up.value.instances[id].view.(life := if failed then Failed else Exited);
    s.(runners := s.runners[token := Returned(id, view)])
  }

  /** run's last region: the wanted state is read again, and the final write may fail. */
  function EndStep(s: System, token: nat, write: Write): System
    requires s.up.Some? && token in s.runners && s.runners[token].Returned? && s.runners[token].id in s.up.value.instances
  {
    var m, id := s.up.value, s.runners[token].id;
    var view := s.runners[token].view.(desired := m.instances[id].view.desired);
    s.(runners := s.runners - {token},
       up := Some(m.(instances := m.instances[id := m.instances[id].(view := view)])),
       disk := if write.Lost? then s.disk else SaveView(s.disk, id, view))
  }

  function StopAll(m: Memory): Memory {
    Memory(map id | id in m.instances :: m.instances[id].(view := BeginStopping(m.instances[id].view)), true)
  }

  // ---- The machine ----

  ghost predicate Enabled(word: Alphabet, s: System, e: Event) {
    match e
    case Open(valid) => s.up.None?
    case Crash => true
    case Return(token, failed) => s.up.Some? && token in s.runners && s.runners[token].Working? && s.runners[token].id in s.up.value.instances
    case End(token, write) => s.up.Some? && token in s.runners && s.runners[token].Returned? && s.runners[token].id in s.up.value.instances
    case BeginClose => s.up.Some?
    case Close => s.up.Some? && s.up.value.shuttingDown && s.runners == map[]
    case _ => s.up.Some? && !s.up.value.shuttingDown && Accepts(word, s.up.value, e)
  }

  /** What the manager checks in memory before it saves. */
  ghost predicate Accepts(word: Alphabet, m: Memory, e: Event) {
    match e
    case Restore(order, write) => Enumerates(m, order)
    case Start(items, write) => CanBeginAll(word, m, items)
    case Resume(id, write) => id in m.instances && !m.instances[id].view.Active() && m.instances[id].config.Some?
    case Stop(id, write) => id in m.instances
    case _ => false
  }

  /** A refused open leaves the daemon down, and a save that did not take effect changes nothing. */
  ghost function Next(word: Alphabet, s: System, e: Event): System
    requires Enabled(word, s, e)
  {
    match e
    case Open(valid) => if AllAcceptable(word, s.disk) then s.(up := Some(LoadedMemory(s.disk, valid))) else s
    case Restore(order, write) => RestoreStep(s, AgainAll(s.up.value, order), write)
    case Start(items, write) => StartStep(s, items, write)
    case Resume(id, write) => ResumeStep(s, Again(s.up.value, id), write)
    case Stop(id, write) => StopStep(s, id, write)
    case Return(token, failed) => ReturnStep(s, token, failed)
    case End(token, write) => EndStep(s, token, write)
    case BeginClose => s.(up := Some(StopAll(s.up.value)))
    case Close => s.(up := None)
    case Crash => s.(up := None, runners := map[])
  }

  /** The state after a run of events; one that is not enabled does not happen. */
  ghost function After(word: Alphabet, run: seq<Event>): System {
    if run == [] then NEW
    else
      var p, e := After(word, run[..|run| - 1]), run[|run| - 1];
      if Enabled(word, p, e) then Next(word, p, e) else p
  }

  // ---- Invariants ----

  /** Rows are keyed by valid IDs, and their names and configurations are unique. */
  ghost predicate DiskOk(disk: map<string, Row>) {
    && (forall id | id in disk :: RowOk(id, disk[id]))
    && (forall a, b | a in disk && b in disk && a != b :: disk[a].name != disk[b].name && disk[a].identity != disk[b].identity)
  }

  ghost predicate RowOk(id: string, row: Row) { ValidId(id) && row.view.name == row.name && row.identity != "" }

  /** What memory knows is on disk, under the same name and configuration. */
  ghost predicate MemoryOk(disk: map<string, Row>, instances: map<string, Runtime>) {
    forall id | id in instances :: id in disk && Agrees(disk[id], instances[id])
  }

  ghost predicate Agrees(row: Row, r: Runtime) { r.view.name == row.name && r.identity == row.identity }

  /** A saved wish that is not the last committed one is the one in memory. */
  ghost predicate WishesOk(disk: map<string, Row>, last: map<string, Desired>, instances: map<string, Runtime>) {
    forall id | id in instances && id in disk && id in last ::
      disk[id].view.desired == last[id] || disk[id].view.desired == instances[id].view.desired
  }

  /** A live runner is the current one of an active instance, and every active instance has it. */
  ghost predicate RunnersOk(instances: map<string, Runtime>, runners: map<nat, Runner>, next: nat) {
    && (forall t | t in runners :: t < next && RunnerOk(instances, t, runners[t]))
    && (forall id | id in instances && instances[id].view.Active() ::
          instances[id].token in runners && runners[instances[id].token].id == id)
  }

  ghost predicate RunnerOk(instances: map<string, Runtime>, t: nat, r: Runner) {
    && r.id in instances && instances[r.id].token == t && instances[r.id].view.Active()
    && (r.Returned? ==> !r.view.Active() && r.view.name == instances[r.id].view.name)
  }

  ghost predicate Inv(s: System) {
    && s.disk.Keys == s.last.Keys && DiskOk(s.disk)
    && (if s.up.None? then s.runners == map[]
        else
          var instances := s.up.value.instances;
          MemoryOk(s.disk, instances) && WishesOk(s.disk, s.last, instances) && RunnersOk(instances, s.runners, s.next))
  }

  // ---- Saves keep the invariants ----

  lemma PutKeepsDisk(disk: map<string, Row>, item: Item)
    requires DiskOk(disk) && ValidId(item.id) && item.identity != "" && !Clashes(disk, item)
    ensures DiskOk(Put(disk, item))
  {
    forall id | id in Put(disk, item) ensures RowOk(id, Put(disk, item)[id]) {
      if id != item.id {
        assert RowOk(id, disk[id]);
      }
    }
  }

  lemma PutKeepsMemory(word: Alphabet, disk: map<string, Row>, last: map<string, Desired>, m: Memory, item: Item)
    requires MemoryOk(disk, m.instances) && WishesOk(disk, last, m.instances) && CanBegin(word, m, item)
    ensures MemoryOk(Put(disk, item), m.instances)
    ensures WishesOk(Put(disk, item), last[item.id := WantRunning], m.instances)
  {
    forall id | id in m.instances ensures id in Put(disk, item) && Agrees(Put(disk, item)[id], m.instances[id]) {
      assert Agrees(disk[id], m.instances[id]);
    }
  }

  /** The item's row says what its launch will say. */
  ghost predicate Saved(disk: map<string, Row>, item: Item) {
    item.id in disk && disk[item.id].name == item.name && disk[item.id].identity == item.identity && disk[item.id].view.desired == WantRunning
  }

  lemma {:induction false} SaveAllKeeps(word: Alphabet, disk: map<string, Row>, last: map<string, Desired>, m: Memory, items: seq<Item>)
    requires disk.Keys == last.Keys && DiskOk(disk) && MemoryOk(disk, m.instances) && WishesOk(disk, last, m.instances)
    requires CanBeginAll(word, m, items) && SaveAll(disk, items).Some?
    ensures var d, l := SaveAll(disk, items).value, AskAll(last, items);
            d.Keys == l.Keys && DiskOk(d) && MemoryOk(d, m.instances) && WishesOk(d, l, m.instances)
    decreases |items|
  {
    if items != [] {
      assert CanBegin(word, m, items[0]);
      PutKeepsDisk(disk, items[0]);
      PutKeepsMemory(word, disk, last, m, items[0]);
      RestCanBegin(word, m, items);
      SaveAllKeeps(word, Put(disk, items[0]), last[items[0].id := WantRunning], m, items[1..]);
    }
  }

  lemma RestCanBegin(word: Alphabet, m: Memory, items: seq<Item>)
    requires items != [] && CanBeginAll(word, m, items)
    ensures CanBeginAll(word, m, items[1..])
  {
    forall i | 0 <= i < |items[1..]| ensures CanBegin(word, m, items[1..][i]) {
      assert items[1..][i] == items[i + 1];
    }
    forall i, j | 0 <= i < j < |items[1..]| ensures Different(items[1..][i], items[1..][j]) {
      assert Different(items[i + 1], items[j + 1]);
    }
  }

  lemma {:induction false} SaveAllLeaves(disk: map<string, Row>, items: seq<Item>, id: string)
    requires SaveAll(disk, items).Some? && id in disk && forall i | 0 <= i < |items| :: items[i].id != id
    ensures id in SaveAll(disk, items).value && SaveAll(disk, items).value[id] == disk[id]
    decreases |items|
  {
    if items != [] {
      assert items[0].id != id;
      SaveAllLeaves(Put(disk, items[0]), items[1..], id);
    }
  }

  lemma {:induction false} SaveAllSaves(disk: map<string, Row>, items: seq<Item>, i: nat)
    requires SaveAll(disk, items).Some? && i < |items|
    requires forall i, j | 0 <= i < j < |items| :: Different(items[i], items[j])
    ensures Saved(SaveAll(disk, items).value, items[i])
    decreases |items|
  {
    forall i, j | 0 <= i < j < |items[1..]| ensures Different(items[1..][i], items[1..][j]) {
      assert Different(items[i + 1], items[j + 1]);
    }
    if i == 0 {
      forall j | 0 <= j < |items[1..]| ensures items[1..][j].id != items[0].id {
        assert Different(items[0], items[j + 1]);
      }
      SaveAllLeaves(Put(disk, items[0]), items[1..], items[0].id);
    } else {
      SaveAllSaves(Put(disk, items[0]), items[1..], i - 1);
    }
  }

  lemma SaveViewKeeps(s: System, id: string, view: View)
    requires DiskOk(s.disk) && id in s.disk && view.name == s.disk[id].name
    ensures DiskOk(SaveView(s.disk, id, view)) && SaveView(s.disk, id, view).Keys == s.disk.Keys
    ensures s.up.Some? && MemoryOk(s.disk, s.up.value.instances) ==> MemoryOk(SaveView(s.disk, id, view), s.up.value.instances)
  {
    var u := SaveView(s.disk, id, view);
    forall k | k in u ensures RowOk(k, u[k]) {
      assert RowOk(k, s.disk[k]);
    }
    if s.up.Some? && MemoryOk(s.disk, s.up.value.instances) {
      forall k | k in s.up.value.instances ensures k in u && Agrees(u[k], s.up.value.instances[k]) {
        assert Agrees(s.disk[k], s.up.value.instances[k]);
      }
    }
  }

  // ---- Launches keep the invariants ----

  ghost predicate Idle(instances: map<string, Runtime>, id: string) { id in instances ==> !instances[id].view.Active() }

  lemma LaunchKeepsRunners(s: System, item: Item)
    requires s.up.Some? && RunnersOk(s.up.value.instances, s.runners, s.next) && Idle(s.up.value.instances, item.id)
    ensures RunnersOk(Launch(s, item).up.value.instances, Launch(s, item).runners, Launch(s, item).next)
  {
    var u := Launch(s, item);
    forall t | t in u.runners ensures t < u.next && RunnerOk(u.up.value.instances, t, u.runners[t]) {
      if t != s.next {
        assert RunnerOk(s.up.value.instances, t, s.runners[t]);
      }
    }
  }

  lemma LaunchKeepsMemory(s: System, item: Item)
    requires s.up.Some? && MemoryOk(s.disk, s.up.value.instances) && WishesOk(s.disk, s.last, s.up.value.instances) && Saved(s.disk, item)
    ensures MemoryOk(s.disk, Launch(s, item).up.value.instances) && WishesOk(s.disk, s.last, Launch(s, item).up.value.instances)
  {
    var u := Launch(s, item).up.value.instances;
    forall id | id in u ensures id in s.disk && Agrees(s.disk[id], u[id]) {
      if id != item.id {
        assert Agrees(s.disk[id], s.up.value.instances[id]);
      }
    }
  }

  lemma {:induction false} LaunchAllKeeps(s: System, items: seq<Item>)
    requires Inv(s) && s.up.Some?
    requires forall i | 0 <= i < |items| :: Saved(s.disk, items[i]) && Idle(s.up.value.instances, items[i].id)
    requires forall i, j | 0 <= i < j < |items| :: items[i].id != items[j].id
    ensures Inv(LaunchAll(s, items))
    decreases |items|
  {
    if items != [] {
      assert Saved(s.disk, items[0]) && Idle(s.up.value.instances, items[0].id);
      LaunchKeepsRunners(s, items[0]);
      LaunchKeepsMemory(s, items[0]);
      var u := Launch(s, items[0]);
      forall i | 0 <= i < |items[1..]| ensures Saved(u.disk, items[1..][i]) && Idle(u.up.value.instances, items[1..][i].id) {
        assert Saved(s.disk, items[i + 1]) && Idle(s.up.value.instances, items[i + 1].id);
      }
      LaunchAllKeeps(u, items[1..]);
    }
  }

  // ---- The steps ----

  lemma StartKeeps(word: Alphabet, s: System, items: seq<Item>, write: Write)
    requires Inv(s) && s.up.Some? && CanBeginAll(word, s.up.value, items)
    ensures Inv(StartStep(s, items, write))
  {
    if !write.Lost? && SaveAll(s.disk, items).Some? {
      var committed := s.(disk := SaveAll(s.disk, items).value, last := AskAll(s.last, items));
      SaveAllKeeps(word, s.disk, s.last, s.up.value, items);
      forall i | 0 <= i < |items| ensures Saved(committed.disk, items[i]) && Idle(s.up.value.instances, items[i].id) {
        SaveAllSaves(s.disk, items, i);
        assert CanBegin(word, s.up.value, items[i]);
      }
      forall i, j | 0 <= i < j < |items| ensures items[i].id != items[j].id {
        assert Different(items[i], items[j]);
      }
      LaunchAllKeeps(committed, items);
    }
  }

  /** The item is an instance in memory that is not active. */
  ghost predicate Resumable(m: Memory, item: Item) {
    item.id in m.instances && !m.instances[item.id].view.Active()
    && item.name == m.instances[item.id].view.name && item.identity == m.instances[item.id].identity
  }

  /** A saved view with memory's own wish, or with a wish that is now the last committed one. */
  lemma SaveKeepsWishes(disk: map<string, Row>, last: map<string, Desired>, instances: map<string, Runtime>, id: string, view: View,
      newLast: map<string, Desired>)
    requires WishesOk(disk, last, instances)
    requires newLast == last[id := view.desired] || (newLast == last && id in instances && view.desired == instances[id].view.desired)
    ensures WishesOk(SaveView(disk, id, view), newLast, instances)
  {
  }

  /** A committed wish: the row and the history agree on it. */
  lemma CommitKeeps(s: System, id: string, view: View)
    requires Inv(s) && s.up.Some? && id in s.up.value.instances && view.name == s.up.value.instances[id].view.name
    ensures Inv(s.(disk := SaveView(s.disk, id, view), last := s.last[id := view.desired]))
    ensures id in s.disk && Agrees(s.disk[id], s.up.value.instances[id])
  {
    assert Agrees(s.disk[id], s.up.value.instances[id]);
    SaveViewKeeps(s, id, view);
    SaveKeepsWishes(s.disk, s.last, s.up.value.instances, id, view, s.last[id := view.desired]);
  }

  lemma ResumeKeeps(s: System, item: Item, write: Write)
    requires Inv(s) && s.up.Some? && Resumable(s.up.value, item)
    ensures Inv(ResumeStep(s, item, write))
  {
    var view := View(item.name, WantRunning, Running);
    CommitKeeps(s, item.id, view);
    var committed := s.(disk := SaveView(s.disk, item.id, view), last := s.last[item.id := WantRunning]);
    LaunchKeeps(committed, item);
  }

  lemma LaunchKeeps(s: System, item: Item)
    requires Inv(s) && s.up.Some? && Saved(s.disk, item) && Idle(s.up.value.instances, item.id)
    ensures Inv(Launch(s, item))
  {
    LaunchKeepsRunners(s, item);
    LaunchKeepsMemory(s, item);
  }

  ghost predicate AllPending(m: Memory, items: seq<Item>) {
    && (forall i | 0 <= i < |items| :: Resumable(m, items[i]) && m.instances[items[i].id].view.desired == WantRunning)
    && forall i, j | 0 <= i < j < |items| :: items[i].id != items[j].id
  }

  lemma {:induction false} SaveRunningKeeps(s: System, items: seq<Item>)
    requires Inv(s) && s.up.Some? && AllPending(s.up.value, items)
    ensures Inv(s.(disk := SaveRunning(s.disk, items)))
    decreases |items|
  {
    if items != [] {
      var m, item := s.up.value, items[0];
      var view := View(item.name, WantRunning, Running);
      assert Resumable(m, item) && Agrees(s.disk[item.id], m.instances[item.id]);
      SaveViewKeeps(s, item.id, view);
      SaveKeepsWishes(s.disk, s.last, m.instances, item.id, view, s.last);
      RestPending(m, items);
      SaveRunningKeeps(s.(disk := SaveView(s.disk, item.id, view)), items[1..]);
    }
  }

  lemma RestPending(m: Memory, items: seq<Item>)
    requires items != [] && AllPending(m, items)
    ensures AllPending(m, items[1..])
  {
    assert forall i | 0 <= i < |items[1..]| :: items[1..][i] == items[i + 1];
  }

  /** What SaveRunning does to one row. */
  lemma {:induction false} SaveRunningRow(disk: map<string, Row>, items: seq<Item>, id: string)
    requires id in disk && forall i, j | 0 <= i < j < |items| :: items[i].id != items[j].id
    ensures id in SaveRunning(disk, items)
    ensures forall i | 0 <= i < |items| && items[i].id == id ::
              SaveRunning(disk, items)[id] == disk[id].(view := View(items[i].name, WantRunning, Running))
    ensures (forall i | 0 <= i < |items| :: items[i].id != id) ==> SaveRunning(disk, items)[id] == disk[id]
    decreases |items|
  {
    if items != [] {
      assert forall i | 0 <= i < |items[1..]| :: items[1..][i] == items[i + 1];
      SaveRunningRow(SaveView(disk, items[0].id, View(items[0].name, WantRunning, Running)), items[1..], id);
    }
  }

  lemma RestoreKeeps(s: System, items: seq<Item>, write: Write)
    requires Inv(s) && s.up.Some? && AllPending(s.up.value, items)
    ensures Inv(RestoreStep(s, items, write))
  {
    var committed := s.(disk := SaveRunning(s.disk, items));
    SaveRunningKeeps(s, items);
    forall i | 0 <= i < |items| ensures Saved(committed.disk, items[i]) && Idle(s.up.value.instances, items[i].id) {
      assert Resumable(s.up.value, items[i]) && Agrees(s.disk[items[i].id], s.up.value.instances[items[i].id]);
      SaveRunningRow(s.disk, items, items[i].id);
    }
    LaunchAllKeeps(committed, items);
  }

  lemma AgainAllPending(m: Memory, order: seq<string>)
    requires Enumerates(m, order)
    ensures AllPending(m, AgainAll(m, order))
  {
    forall i | 0 <= i < |order| ensures Pending(m, order[i]) {
      assert order[i] in order;
    }
  }

  lemma OpenKeeps(s: System, valid: string -> bool)
    requires Inv(s) && s.up.None?
    ensures Inv(s.(up := Some(LoadedMemory(s.disk, valid))))
  {
    var m := LoadedMemory(s.disk, valid);
    forall id | id in m.instances ensures id in s.disk && Agrees(s.disk[id], m.instances[id]) {
      assert RowOk(id, s.disk[id]);
    }
  }

  lemma StopKeeps(s: System, id: string, write: Write)
    requires Inv(s) && s.up.Some? && id in s.up.value.instances
    ensures Inv(StopStep(s, id, write))
  {
    var m := s.up.value;
    var view := m.instances[id].view.(desired := WantStopped);
    CommitKeeps(s, id, view);
    ReplaceKeepsMemory(SaveView(s.disk, id, view), s.last[id := WantStopped], m.instances, id, BeginStopping(view));
    ReplaceKeepsRunners(m.instances, s.runners, s.next, id, BeginStopping(view));
  }

  /** A view under the same name, with memory's wish or that of a row that is right, can replace the one in memory. */
  lemma ReplaceKeepsMemory(disk: map<string, Row>, last: map<string, Desired>, instances: map<string, Runtime>, id: string, view: View)
    requires MemoryOk(disk, instances) && WishesOk(disk, last, instances) && id in instances && view.name == instances[id].view.name
    requires view.desired == instances[id].view.desired || (id in last && disk[id].view.desired == last[id])
    ensures MemoryOk(disk, instances[id := instances[id].(view := view)])
    ensures WishesOk(disk, last, instances[id := instances[id].(view := view)])
  {
    var u := instances[id := instances[id].(view := view)];
    forall k | k in u ensures k in disk && Agrees(disk[k], u[k]) {
      assert Agrees(disk[k], instances[k]);
    }
  }

  lemma ReplaceKeepsRunners(instances: map<string, Runtime>, runners: map<nat, Runner>, next: nat, id: string, view: View)
    requires RunnersOk(instances, runners, next) && id in instances
    requires view.name == instances[id].view.name && (view.Active() <==> instances[id].view.Active())
    ensures RunnersOk(instances[id := instances[id].(view := view)], runners, next)
  {
    var u := instances[id := instances[id].(view := view)];
    forall t | t in runners ensures t < next && RunnerOk(u, t, runners[t]) {
      assert RunnerOk(instances, t, runners[t]);
    }
  }

  lemma ReturnKeeps(s: System, token: nat, failed: bool)
    requires Inv(s) && s.up.Some? && token in s.runners && s.runners[token].id in s.up.value.instances
    ensures Inv(ReturnStep(s, token, failed))
  {
    var u := ReturnStep(s, token, failed);
    forall t | t in u.runners ensures t < u.next && RunnerOk(u.up.value.instances, t, u.runners[t]) {
      assert RunnerOk(s.up.value.instances, t, s.runners[t]);
    }
  }

  /** The instance that a runner ends leaves, under the terminal view. */
  lemma EndKeepsRunners(instances: map<string, Runtime>, runners: map<nat, Runner>, next: nat, token: nat, view: View)
    requires RunnersOk(instances, runners, next) && token in runners && runners[token].id in instances && !view.Active()
    ensures var id := runners[token].id;
            RunnersOk(instances[id := instances[id].(view := view)], runners - {token}, next)
  {
    var id := runners[token].id;
    var u := instances[id := instances[id].(view := view)];
    assert RunnerOk(instances, token, runners[token]);
    forall t | t in runners - {token} ensures t < next && RunnerOk(u, t, runners[t]) {
      assert RunnerOk(instances, t, runners[t]);
    }
  }

  lemma EndKeeps(s: System, token: nat, write: Write)
    requires Inv(s) && s.up.Some? && token in s.runners && s.runners[token].Returned? && s.runners[token].id in s.up.value.instances
    ensures Inv(EndStep(s, token, write))
  {
    var m, id := s.up.value, s.runners[token].id;
    var view := s.runners[token].view.(desired := m.instances[id].view.desired);
    assert RunnerOk(m.instances, token, s.runners[token]) && Agrees(s.disk[id], m.instances[id]);
    SaveViewKeeps(s, id, view);
    SaveKeepsWishes(s.disk, s.last, m.instances, id, view, s.last);
    EndKeepsRunners(m.instances, s.runners, s.next, token, view);
    ReplaceKeepsMemory(s.disk, s.last, m.instances, id, view);
    ReplaceKeepsMemory(SaveView(s.disk, id, view), s.last, m.instances, id, view);
  }

  lemma StopAllKeeps(s: System)
    requires Inv(s) && s.up.Some?
    ensures Inv(s.(up := Some(StopAll(s.up.value))))
  {
    var m, n := s.up.value, StopAll(s.up.value);
    forall k | k in n.instances ensures k in s.disk && Agrees(s.disk[k], n.instances[k]) {
      assert Agrees(s.disk[k], m.instances[k]);
    }
    forall t | t in s.runners ensures t < s.next && RunnerOk(n.instances, t, s.runners[t]) {
      assert RunnerOk(m.instances, t, s.runners[t]);
    }
  }

  lemma NextKeeps(word: Alphabet, s: System, e: Event)
    requires Inv(s) && Enabled(word, s, e)
    ensures Inv(Next(word, s, e))
  {
    match e
    case Open(valid) => OpenKeeps(s, valid);
    case Restore(order, write) =>
      AgainAllPending(s.up.value, order);
      RestoreKeeps(s, AgainAll(s.up.value, order), write);
    case Start(items, write) => StartKeeps(word, s, items, write);
    case Resume(id, write) => ResumeKeeps(s, Again(s.up.value, id), write);
    case Stop(id, write) => StopKeeps(s, id, write);
    case Return(token, failed) => ReturnKeeps(s, token, failed);
    case End(token, write) => EndKeeps(s, token, write);
    case BeginClose => StopAllKeeps(s);
    case _ =>
  }

  lemma {:induction false} EveryRunKeeps(word: Alphabet, run: seq<Event>)
    ensures Inv(After(word, run))
  {
    if run != [] {
      var p, e := After(word, run[..|run| - 1]), run[|run| - 1];
      EveryRunKeeps(word, run[..|run| - 1]);
      if Enabled(word, p, e) {
        NextKeeps(word, p, e);
      }
    }
  }
}
