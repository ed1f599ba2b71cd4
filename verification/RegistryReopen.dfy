/**
 * Reopening the durable supervisor: which instances it launches, when it opens at all, and what saves that were not
 * reported leave behind until then.
 */
module RegistryReopen {
  import opened Text
  import opened Names
  import Supervisor
  import opened Registry
  import opened RegistryRuns

  ghost function Step(word: Alphabet, s: System, e: Event): System {
    if Enabled(word, s, e) then Next(word, s, e) else s
  }

  lemma AfterMore(word: Alphabet, run: seq<Event>, e: Event)
    ensures After(word, run + [e]) == Step(word, After(word, run), e)
  {
    assert (run + [e])[..|run + [e]| - 1] == run;
  }

  // ---- Runners ----

  lemma OneRunnerPerId(word: Alphabet, run: seq<Event>, a: nat, b: nat)
    requires var s := After(word, run); a in s.runners && b in s.runners && s.runners[a].id == s.runners[b].id
    ensures a == b
  {
    var s := After(word, run);
    EveryRunKeeps(word, run);
    assert RunnerOk(s.up.value.instances, a, s.runners[a]) && RunnerOk(s.up.value.instances, b, s.runners[b]);
  }

  ghost predicate Runs(s: System, id: string) { exists t | t in s.runners :: s.runners[t].id == id }

  lemma {:induction false} LaunchAllRuns(s: System, items: seq<Item>, id: string)
    requires s.up.Some? && forall t | t in s.runners :: t < s.next
    ensures Runs(LaunchAll(s, items), id) <==> Runs(s, id) || Starts(items, id)
    decreases |items|
  {
    if items != [] {
      var u := Launch(s, items[0]);
      LaunchAllRuns(u, items[1..], id);
      assert Runs(u, id) <==> Runs(s, id) || items[0].id == id by {
        assert s.next in u.runners;
        if t :| t in s.runners && s.runners[t].id == id {
          assert t in u.runners && u.runners[t].id == id;
        }
      }
      assert Starts(items, id) <==> items[0].id == id || Starts(items[1..], id) by {
        assert forall i | 1 <= i < |items| :: items[i] == items[1..][i - 1];
      }
    }
  }

  lemma AgainAllStarts(m: Memory, order: seq<string>, id: string)
    requires Enumerates(m, order)
    ensures Starts(AgainAll(m, order), id) <==> Pending(m, id)
  {
    var items := AgainAll(m, order);
    if id in order {
      var i :| 0 <= i < |order| && order[i] == id;
      assert items[i].id == id;
    }
    if Starts(items, id) {
      RestoreStartsPending(m, order, id);
    }
  }

  /** Restore runs what ran before and what was pending. */
  lemma RestoreRuns(s: System, order: seq<string>, id: string)
    requires s.up.Some? && Enumerates(s.up.value, order) && forall t | t in s.runners :: t < s.next
    ensures Runs(RestoreStep(s, AgainAll(s.up.value, order), Written), id) <==> Runs(s, id) || Pending(s.up.value, id)
  {
    var items := AgainAll(s.up.value, order);
    LaunchAllRuns(s.(disk := SaveRunning(s.disk, items)), items, id);
    AgainAllStarts(s.up.value, order, id);
  }

  /** Opening and restoring launches exactly the instances saved as wanted running whose snapshot is accepted. */
  lemma RestoreLaunchesSaved(word: Alphabet, s: System, valid: string -> bool, order: seq<string>, id: string)
    requires Inv(s) && s.up.None? && AllAcceptable(word, s.disk)
    requires Enabled(word, Next(word, s, Open(valid)), Restore(order, Written))
    ensures Runs(Next(word, Next(word, s, Open(valid)), Restore(order, Written)), id) <==>
            id in s.disk && s.disk[id].view.desired == WantRunning && valid(s.disk[id].snapshot)
  {
    var loaded := s.(up := Some(LoadedMemory(s.disk, valid)));
    assert Next(word, s, Open(valid)) == loaded;
    RestoreRuns(loaded, order, id);
    assert Next(word, loaded, Restore(order, Written)) == RestoreStep(loaded, AgainAll(loaded.up.value, order), Written);
  }

  /**
   * So Restore launches an instance with an accepted snapshot exactly if its last committed start or stop was a
   * start, unless the saved wish was spoiled, and then exactly if it was a stop.
   */
  lemma RestoreLaunchesExactly(word: Alphabet, run: seq<Event>, valid: string -> bool, order: seq<string>, id: string)
    requires After(word, run).up.None? && AllAcceptable(word, After(word, run).disk)
    requires Enabled(word, Next(word, After(word, run), Open(valid)), Restore(order, Written))
    ensures var s := After(word, run);
            Runs(Next(word, Next(word, s, Open(valid)), Restore(order, Written)), id) <==>
            id in s.disk && valid(s.disk[id].snapshot) && (LastCommitted(word, run, id) == Some(WantRunning)) != Spoiled(word, run, id)
  {
    EveryRunKeeps(word, run);
    SavedIsLastCommitted(word, run, id);
    RestoreLaunchesSaved(word, After(word, run), valid, order, id);
  }

  // ---- When the registry opens ----

  /** Where a name that a start commits for a new instance comes from. */
  ghost function OriginIn(items: seq<Item>, id: string): Option<Origin> {
    if exists i :: 0 <= i < |items| && items[i].id == id && !items[i].origin.Kept? then
      var i :| 0 <= i < |items| && items[i].id == id && !items[i].origin.Kept?;
      Some(items[i].origin)
    else None
  }

  ghost function NewOrigin(word: Alphabet, p: System, e: Event, id: string): Option<Origin> {
    if Enabled(word, p, e) && e.Start? && !e.write.Lost? && SaveAll(p.disk, e.items).Some? then OriginIn(e.items, id) else None
  }

  /** Where the name of an instance comes from: the last committed start that registered it as new. */
  ghost function LastOrigin(word: Alphabet, run: seq<Event>, id: string): Option<Origin> {
    if run == [] then None
    else
      var before, e := run[..|run| - 1], run[|run| - 1];
      var origin := NewOrigin(word, After(word, before), e, id);
      if origin.Some? then origin else LastOrigin(word, before, id)
  }

  ghost predicate NamedBy(word: Alphabet, name: string, origin: Option<Origin>) {
    origin.Some? &&
    match origin.value
    case Kept => false
    case Given => ValidDisplayName(word, name)
    case FromFile(base, suffix) => name == Numbered(AutomaticName(word, base), suffix)
  }

  /** A committed start gives new instances their names and leaves the others'. */
  lemma StartNames(word: Alphabet, s: System, items: seq<Item>, write: Write, id: string)
    requires Inv(s) && Enabled(word, s, Start(items, write)) && id in StartStep(s, items, write).disk
    ensures var u, origin := StartStep(s, items, write), NewOrigin(word, s, Start(items, write), id);
            if origin.Some? then NamedBy(word, u.disk[id].name, origin) else id in s.disk && u.disk[id].name == s.disk[id].name
  {
    var m := s.up.value;
    AskAllAsks(s.last, items, id);
    if !write.Lost? && SaveAll(s.disk, items).Some? {
      SaveAllKeeps(word, s.disk, s.last, m, items);
      if Starts(items, id) {
        var i := SaveAllSavesOne(s.disk, items, id);
        assert CanBegin(word, m, items[i]);
        OnlyOrigin(items, i);
        if items[i].origin.Kept? {
          assert id in s.disk && Agrees(s.disk[id], m.instances[id]);
        }
      } else {
        assert id in s.disk;
        SaveAllLeaves(s.disk, items, id);
      }
    }
  }

  lemma OnlyOrigin(items: seq<Item>, i: nat)
    requires i < |items| && forall i, j | 0 <= i < j < |items| :: Different(items[i], items[j])
    ensures OriginIn(items, items[i].id) == if items[i].origin.Kept? then None else Some(items[i].origin)
  {
    forall j, k | 0 <= j < k < |items| ensures items[j].id != items[k].id {
      assert Different(items[j], items[k]);
    }
    if !items[i].origin.Kept? {
      assert 0 <= i < |items| && items[i].id == items[i].id && !items[i].origin.Kept?;
    }
  }

  /** No other event names an instance. */
  lemma OthersKeepNames(word: Alphabet, s: System, e: Event, id: string)
    requires Inv(s) && Enabled(word, s, e) && !e.Start?
    ensures id in Next(word, s, e).disk <==> id in s.disk
    ensures id in s.disk ==> Next(word, s, e).disk[id].name == s.disk[id].name
  {
    if e.Restore? {
      EveryRowOfRestore(s, e.order, id);
      assert Next(word, s, e) == RestoreStep(s, AgainAll(s.up.value, e.order), e.write);
    } else if SavesOneView(e) {
      OneViewKeepsNames(word, s, e, id);
    } else {
      NoSaveLeavesDisk(word, s, e);
    }
  }

  lemma EveryRowOfRestore(s: System, order: seq<string>, id: string)
    requires Inv(s) && s.up.Some? && Enumerates(s.up.value, order)
    ensures var d := SaveRunning(s.disk, AgainAll(s.up.value, order));
            (id in d <==> id in s.disk) && (id in s.disk ==> d[id].name == s.disk[id].name)
  {
    SaveRunningKeepsNames(s.disk, AgainAll(s.up.value, order), id);
  }

  lemma {:induction false} SaveRunningKeepsNames(disk: map<string, Row>, items: seq<Item>, id: string)
    ensures id in SaveRunning(disk, items) <==> id in disk
    ensures id in disk ==> SaveRunning(disk, items)[id].name == disk[id].name
    decreases |items|
  {
    if items != [] {
      SaveRunningKeepsNames(SaveView(disk, items[0].id, View(items[0].name, WantRunning, Supervisor.Running)), items[1..], id);
    }
  }

  lemma OneViewKeepsNames(word: Alphabet, s: System, e: Event, id: string)
    requires Enabled(word, s, e) && SavesOneView(e)
    ensures id in Next(word, s, e).disk <==> id in s.disk
    ensures id in s.disk ==> Next(word, s, e).disk[id].name == s.disk[id].name
  {
  }

  /** Every saved name is the one its origin gives. */
  lemma {:induction false} NamesHaveOrigins(word: Alphabet, run: seq<Event>, id: string)
    requires id in After(word, run).disk
    ensures NamedBy(word, After(word, run).disk[id].name, LastOrigin(word, run, id))
  {
    if run != [] {
      var before, e := run[..|run| - 1], run[|run| - 1];
      var p := After(word, before);
      EveryRunKeeps(word, before);
      if Enabled(word, p, e) {
        if e.Start? {
          StartNames(word, p, e.items, e.write, id);
          assert Next(word, p, e) == StartStep(p, e.items, e.write);
        } else {
          OthersKeepNames(word, p, e, id);
        }
      }
      if NewOrigin(word, p, e, id).None? {
        NamesHaveOrigins(word, before, id);
      }
    }
  }

  /** The name of this instance comes from a file whose first usable character is "_". */
  ghost predicate Underscored(word: Alphabet, run: seq<Event>, id: string) {
    var origin := LastOrigin(word, run, id);
    origin.Some? && origin.value.FromFile? && FirstKept(word, origin.value.base) == Some('_')
  }

  lemma NameIsValidIff(word: Alphabet, run: seq<Event>, id: string)
    requires Sensible(word) && id in After(word, run).disk
    ensures ValidDisplayName(word, After(word, run).disk[id].name) <==> !Underscored(word, run, id)
  {
    NamesHaveOrigins(word, run, id);
    var origin := LastOrigin(word, run, id).value;
    if origin.FromFile? {
      NumberedIsValid(word, AutomaticName(word, origin.base), origin.suffix);
      AutomaticNameReloads(word, origin.base);
    }
  }

  /**
   * After any run the registry opens exactly if no registered instance was named after a file whose first usable
   * character is "_"; everything else that opening checks always holds.
   */
  lemma ReopensIff(word: Alphabet, run: seq<Event>, valid: string -> bool)
    requires Sensible(word) && After(word, run).up.None?
    ensures Next(word, After(word, run), Open(valid)).up.Some? <==>
            forall id | id in After(word, run).disk :: !Underscored(word, run, id)
  {
    var s := After(word, run);
    EveryRunKeeps(word, run);
    forall id | id in s.disk ensures Acceptable(word, id, s.disk[id]) <==> !Underscored(word, run, id) {
      assert RowOk(id, s.disk[id]);
      NameIsValidIff(word, run, id);
    }
  }

  /** One start under the derived name of "_a.yaml" is enough to keep a restarted daemon down. */
  lemma UnderscoreKeepsDaemonDown(word: Alphabet, id: string, valid: string -> bool)
    requires Sensible(word) && Supervisor.ValidId(id)
    ensures var item := Item(id, AutomaticName(word, "_a"), "/_a.yaml", "", FromFile("_a", 1));
            var run := [Open(valid)] + [Start([item], Written)] + [Crash];
            id in After(word, run).disk && After(word, run + [Open(valid)]).up.None?
  {
    UnderscoreDoesNotReload(word);
    var item := Item(id, AutomaticName(word, "_a"), "/_a.yaml", "", FromFile("_a", 1));
    FirstStart(word, item, valid, Written);
    var started := [Open(valid)] + [Start([item], Written)];
    AfterMore(word, started, Crash);
    AfterMore(word, started + [Crash], Open(valid));
    var s := After(word, started + [Crash]);
    assert !Acceptable(word, id, s.disk[id]);
  }

  // ---- The first start of a daemon ----

  /** What the first two events of a run leave: the row, and memory and a runner if the start was reported. */
  lemma FirstStart(word: Alphabet, item: Item, valid: string -> bool, write: Write)
    requires Supervisor.ValidId(item.id) && item.identity != "" && OriginOk(word, item) && !write.Lost?
    ensures var run := [Open(valid)] + [Start([item], write)];
            var s0 := NEW.(up := Some(Memory(map[], false)));
            Enabled(word, s0, Start([item], write)) && After(word, [Open(valid)]) == s0
            && After(word, run) == StartStep(s0, [item], write) && SaveAll(s0.disk, [item]) == Some(Put(map[], item))
    ensures var run := [Open(valid)] + [Start([item], write)];
            var s := After(word, run);
            s.disk == Put(map[], item) && s.last == map[item.id := WantRunning] && s.up.Some? && !s.up.value.shuttingDown
            && s.up.value.instances == (if write.Written? then
                 map[item.id := Runtime(View(item.name, WantRunning, Supervisor.Running), item.identity, Some(item.snapshot), 0)] else map[])
            && s.runners == (if write.Written? then map[0 := Working(item.id)] else map[])
  {
    var s0 := NEW.(up := Some(Memory(map[], false)));
    var m: map<string, Runtime> := map[];
    assert [Open(valid)] == [] + [Open(valid)];
    AfterMore(word, [], Open(valid));
    assert LoadedMemory(map[], valid).instances == m;
    AfterMore(word, [Open(valid)], Start([item], write));
    assert [item][1..] == [];
    assert SaveAll(s0.disk, [item]) == SaveAll(Put(s0.disk, item), []);
    assert AskAll(s0.last, [item]) == AskAll(s0.last[item.id := WantRunning], []);
    if write.Written? {
      var committed := s0.(disk := Put(s0.disk, item), last := s0.last[item.id := WantRunning]);
      assert LaunchAll(committed, [item]) == LaunchAll(Launch(committed, item), []);
    }
  }

  // ---- An unreported stop ----

  /** A running instance, a stop of it that is saved and reported as failed, and its exit. */
  lemma StopThenExit(word: Alphabet, s: System, id: string)
    requires s.up.Some? && !s.up.value.shuttingDown && s.disk.Keys == {id} && s.runners == map[0 := Working(id)]
    requires id in s.up.value.instances && s.up.value.instances[id].view.desired == WantRunning
    ensures var a := Step(word, s, Stop(id, WrittenButFailed));
            var b := Step(word, a, Return(0, false));
            var c := Step(word, b, End(0, Written));
            c.last == s.last[id := WantStopped] && id in c.disk && c.disk[id].view.desired == WantRunning
  {
    var a := Step(word, s, Stop(id, WrittenButFailed));
    assert a.up == s.up && a.runners == s.runners;
    var b := Step(word, a, Return(0, false));
    assert b.up == s.up && b.runners[0].Returned? && b.runners[0].id == id;
  }

  /**
   * A run in which the saved wish is not the last committed one: a stop that is saved and reported as failed is undone
   * by the runner's final write, and the next restore launches the instance again.
   */
  lemma UnreportedStopIsUndone(word: Alphabet, id: string, valid: string -> bool)
    requires Sensible(word) && Supervisor.ValidId(id)
    ensures var item := Item(id, "a", "/a.yaml", "", Given);
            var run := [Open(valid)] + [Start([item], Written)] + [Stop(id, WrittenButFailed)] + [Return(0, false)] + [End(0, Written)];
            && LastCommitted(word, run, id) == Some(WantStopped) && Spoiled(word, run, id)
            && id in After(word, run).disk && After(word, run).disk[id].view.desired == WantRunning
  {
    var item := Item(id, "a", "/a.yaml", "", Given);
    assert ValidDisplayName(word, "a") by {
      assert word('a');
    }
    FirstStart(word, item, valid, Written);
    var r2 := [Open(valid)] + [Start([item], Written)];
    var r3 := r2 + [Stop(id, WrittenButFailed)];
    var r4 := r3 + [Return(0, false)];
    AfterMore(word, r2, Stop(id, WrittenButFailed));
    AfterMore(word, r3, Return(0, false));
    AfterMore(word, r4, End(0, Written));
    StopThenExit(word, After(word, r2), id);
    RunAsks(word, r4 + [End(0, Written)], id);
    SavedIsLastCommitted(word, r4 + [End(0, Written)], id);
  }

  // ---- An unreported start ----

  /** A row that the running daemon does not know. */
  ghost predicate Hidden(s: System, id: string) { s.up.Some? && id in s.disk && id !in s.up.value.instances }

  /** A run that leaves one: a start that is saved and reported as failed. */
  lemma UnreportedStartIsHidden(word: Alphabet, item: Item, valid: string -> bool)
    requires Supervisor.ValidId(item.id) && item.identity != "" && OriginOk(word, item)
    ensures Hidden(After(word, [Open(valid)] + [Start([item], WrittenButFailed)]), item.id)
  {
    FirstStart(word, item, valid, WrittenButFailed);
  }

  /** While it is hidden, a start under its name or of its configuration is refused and changes nothing. */
  lemma HiddenRowRefuses(s: System, id: string, item: Item, write: Write)
    requires Hidden(s, id) && item.id != id && (s.disk[id].name == item.name || s.disk[id].identity == item.identity)
    ensures StartStep(s, [item], write) == s
  {
    assert Clashes(s.disk, item);
  }

  lemma StartKeepsHidden(s: System, items: seq<Item>, write: Write, id: string)
    requires Hidden(s, id) && !Starts(items, id)
    ensures Hidden(StartStep(s, items, write), id) && StartStep(s, items, write).disk[id] == s.disk[id]
  {
    if !write.Lost? && SaveAll(s.disk, items).Some? {
      SaveAllLeaves(s.disk, items, id);
      LaunchAllWishes(s.(disk := SaveAll(s.disk, items).value, last := AskAll(s.last, items)), items, id);
    }
  }

  lemma RestoreKeepsHidden(s: System, order: seq<string>, write: Write, id: string)
    requires Hidden(s, id) && Enumerates(s.up.value, order)
    ensures var u := RestoreStep(s, AgainAll(s.up.value, order), write); Hidden(u, id) && u.disk[id] == s.disk[id]
  {
    var items := AgainAll(s.up.value, order);
    AgainAllStarts(s.up.value, order, id);
    AgainAllPending(s.up.value, order);
    LaunchAllWishes(s.(disk := SaveRunning(s.disk, items)), items, id);
    SaveRunningRow(s.disk, items, id);
  }

  lemma OneViewKeepsHidden(word: Alphabet, s: System, e: Event, id: string)
    requires Enabled(word, s, e) && Hidden(s, id) && SavesOneView(e)
    ensures Hidden(Next(word, s, e), id) && Next(word, s, e).disk[id] == s.disk[id]
  {
  }

  lemma QuietKeepsHidden(word: Alphabet, s: System, e: Event, id: string)
    requires Enabled(word, s, e) && Hidden(s, id) && !SavesOneView(e) && !e.Start? && !e.Restore?
    ensures Next(word, s, e).up.None? || (Hidden(Next(word, s, e), id) && Next(word, s, e).disk[id] == s.disk[id])
  {
  }

  /** It stays hidden, unless a start happens to draw its ID, until the daemon goes down. */
  lemma HiddenUntilDown(word: Alphabet, s: System, e: Event, id: string)
    requires Enabled(word, s, e) && Hidden(s, id) && !(e.Start? && Starts(e.items, id))
    ensures Next(word, s, e).up.None? || (Hidden(Next(word, s, e), id) && Next(word, s, e).disk[id] == s.disk[id])
  {
    if e.Start? {
      StartKeepsHidden(s, e.items, e.write, id);
      assert Next(word, s, e) == StartStep(s, e.items, e.write);
    } else if e.Restore? {
      RestoreKeepsHidden(s, e.order, e.write, id);
      assert Next(word, s, e) == RestoreStep(s, AgainAll(s.up.value, e.order), e.write);
    } else if SavesOneView(e) {
      OneViewKeepsHidden(word, s, e, id);
    } else {
      QuietKeepsHidden(word, s, e, id);
    }
  }

  /** Row id has the name or the configuration of items[i] when that is saved: no item so far has written it. */
  ghost predicate ClashesAt(disk: map<string, Row>, items: seq<Item>, i: nat, id: string)
    requires i < |items|
  {
    && id in disk && (disk[id].name == items[i].name || disk[id].identity == items[i].identity)
    && forall j | 0 <= j <= i :: items[j].id != id
  }

  lemma {:induction false} ClashIsRefused(disk: map<string, Row>, items: seq<Item>, i: nat, id: string)
    requires i < |items| && ClashesAt(disk, items, i, id)
    ensures SaveAll(disk, items).None?
    decreases |items|
  {
    assert items[0].id != id && items[i].id != id;
    if i > 0 && !Clashes(disk, items[0]) {
      assert forall j | 0 <= j <= i - 1 :: items[1..][j] == items[j + 1];
      ClashIsRefused(Put(disk, items[0]), items[1..], i - 1, id);
    } else if i == 0 {
      assert Clashes(disk, items[0]);
    }
  }

  lemma {:induction false} NoClashIsSaved(disk: map<string, Row>, items: seq<Item>)
    requires forall i, j | 0 <= i < j < |items| :: Different(items[i], items[j])
    requires forall i, id | 0 <= i < |items| :: !ClashesAt(disk, items, i, id)
    ensures SaveAll(disk, items).Some?
    decreases |items|
  {
    if items != [] {
      forall id | id in disk && id != items[0].id ensures disk[id].name != items[0].name && disk[id].identity != items[0].identity {
        assert !ClashesAt(disk, items, 0, id);
      }
      forall i, id | 0 <= i < |items[1..]| ensures !ClashesAt(Put(disk, items[0]), items[1..], i, id) {
        assert !ClashesAt(disk, items, i + 1, id) && Different(items[0], items[i + 1]);
        assert forall j | 1 <= j <= i + 1 :: items[j] == items[1..][j - 1];
      }
      forall i, j | 0 <= i < j < |items[1..]| ensures Different(items[1..][i], items[1..][j]) {
        assert Different(items[i + 1], items[j + 1]);
      }
      NoClashIsSaved(Put(disk, items[0]), items[1..]);
    }
  }

  /** A row that clashes with an item that memory lets through is hidden. */
  lemma ClashIsHidden(word: Alphabet, s: System, item: Item, id: string)
    requires Inv(s) && s.up.Some? && CanBegin(word, s.up.value, item) && id != item.id
    requires id in s.disk && (s.disk[id].name == item.name || s.disk[id].identity == item.identity)
    ensures Hidden(s, id)
  {
  }

  /** The UNIQUE constraints refuse a start that memory lets through exactly if it meets a hidden row. */
  lemma StartIsRefusedIff(word: Alphabet, s: System, items: seq<Item>)
    requires Inv(s) && s.up.Some? && CanBeginAll(word, s.up.value, items)
    ensures SaveAll(s.disk, items).None? <==> exists i, id | 0 <= i < |items| && Hidden(s, id) :: ClashesAt(s.disk, items, i, id)
  {
    if i, id :| 0 <= i < |items| && Hidden(s, id) && ClashesAt(s.disk, items, i, id) {
      ClashIsRefused(s.disk, items, i, id);
    } else {
      forall i, id | 0 <= i < |items| ensures !ClashesAt(s.disk, items, i, id) {
        if ClashesAt(s.disk, items, i, id) {
          assert items[i].id != id && CanBegin(word, s.up.value, items[i]);
          ClashIsHidden(word, s, items[i], id);
        }
      }
      NoClashIsSaved(s.disk, items);
    }
  }

  /** Reopening repairs it: nothing is hidden, memory holds every saved wish, and no start is refused by the table. */
  lemma ReopeningRepairs(word: Alphabet, s: System, valid: string -> bool, items: seq<Item>)
    requires Inv(s) && s.up.None? && AllAcceptable(word, s.disk)
    ensures var u := Next(word, s, Open(valid));
            && (forall id :: !Hidden(u, id))
            && (forall id | id in u.disk :: u.up.value.instances[id].view.desired == u.disk[id].view.desired)
            && (CanBeginAll(word, u.up.value, items) ==> SaveAll(u.disk, items).Some?)
  {
    var u := Next(word, s, Open(valid));
    OpenKeeps(s, valid);
    if CanBeginAll(word, u.up.value, items) {
      StartIsRefusedIff(word, u, items);
    }
  }
}
