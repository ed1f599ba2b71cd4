/**
 * What the instances table and the manager show: the registration that is saved for an instance and the configuration
 * it is launched with, and the states that exits, stops and reopenings leave.
 */
module RegistrySaved {
  import opened Text
  import opened Names
  import Supervisor
  import opened Registry
  import opened RegistryRuns
  import opened RegistryReopen

  // ---- The registration that is saved ----

  ghost function RegistrationIn(items: seq<Item>, id: string): Option<Item> {
    if exists i :: 0 <= i < |items| && items[i].id == id then
      var i :| 0 <= i < |items| && items[i].id == id;
      Some(items[i])
    else None
  }

  /** What an event registers for an instance: a start that is committed does, whatever it reports. */
  ghost function Registers(word: Alphabet, p: System, e: Event, id: string): Option<Item> {
    if Enabled(word, p, e) && e.Start? && !e.write.Lost? && SaveAll(p.disk, e.items).Some? then RegistrationIn(e.items, id) else None
  }

  /** The last registration of an instance that was committed. */
  ghost function LastRegistration(word: Alphabet, run: seq<Event>, id: string): Option<Item> {
    if run == [] then None
    else
      var before, e := run[..|run| - 1], run[|run| - 1];
      var item := Registers(word, After(word, before), e, id);
      if item.Some? then item else LastRegistration(word, before, id)
  }

  lemma {:induction false} SaveAllWrites(disk: map<string, Row>, items: seq<Item>, i: nat)
    requires SaveAll(disk, items).Some? && i < |items|
    requires forall i, j | 0 <= i < j < |items| :: Different(items[i], items[j])
    ensures var d, item := SaveAll(disk, items).value, items[i];
            item.id in d && d[item.id] == Row(item.name, item.identity, View(item.name, WantRunning, Supervisor.Running), item.snapshot)
    decreases |items|
  {
    forall i, j | 0 <= i < j < |items[1..]| ensures Different(items[1..][i], items[1..][j]) {
      assert Different(items[i + 1], items[j + 1]);
    }
    if i == 0 {
      forall j | 0 <= j < |items[1..]| ensures items[1..][j].id != items[0].id {
        assert Different(items[0], items[j + 1]);
      }
      SaveAllLeaves(Put(disk, items[0]), items[1..], items[0].id);
    } else {
      SaveAllWrites(Put(disk, items[0]), items[1..], i - 1);
    }
  }

  /** The row says what the registration said. */
  predicate RowOf(row: Row, item: Item) {
    row.name == item.name && row.identity == item.identity && row.snapshot == item.snapshot
  }

  lemma StartSavesRegistrations(word: Alphabet, s: System, items: seq<Item>, write: Write, id: string)
    requires Enabled(word, s, Start(items, write)) && !write.Lost? && SaveAll(s.disk, items).Some?
    ensures var d, item := StartStep(s, items, write).disk, RegistrationIn(items, id);
            if item.Some? then id in d && RowOf(d[id], item.value) else (id in d <==> id in s.disk) && (id in d ==> d[id] == s.disk[id])
  {
    assert forall i, j | 0 <= i < j < |items| :: Different(items[i], items[j]);
    var item := RegistrationIn(items, id);
    if item.Some? {
      var i :| 0 <= i < |items| && items[i].id == id && items[i] == item.value;
      SaveAllWrites(s.disk, items, i);
    } else {
      SaveAllAdds(s.disk, items, id);
      if id in s.disk {
        SaveAllLeaves(s.disk, items, id);
      }
    }
  }

  lemma {:induction false} SaveAllAdds(disk: map<string, Row>, items: seq<Item>, id: string)
    requires SaveAll(disk, items).Some?
    ensures id in SaveAll(disk, items).value <==> id in disk || exists i :: 0 <= i < |items| && items[i].id == id
    decreases |items|
  {
    if items != [] {
      SaveAllAdds(Put(disk, items[0]), items[1..], id);
      if i :| 0 <= i < |items| && items[i].id == id && i > 0 {
        assert items[1..][i - 1].id == id;
      }
      if j :| 0 <= j < |items[1..]| && items[1..][j].id == id {
        assert items[j + 1].id == id;
      }
    }
  }

  /** No other event touches the name, the configuration file or the snapshot of a row. */
  lemma OthersKeepRegistration(word: Alphabet, s: System, e: Event, id: string)
    requires Inv(s) && Enabled(word, s, e) && !e.Start?
    ensures id in Next(word, s, e).disk <==> id in s.disk
    ensures id in s.disk ==> Next(word, s, e).disk[id] == s.disk[id].(view := Next(word, s, e).disk[id].view)
  {
    if e.Restore? {
      RestoreKeepsRegistration(s, e.order, e.write, id);
      assert Next(word, s, e) == RestoreStep(s, AgainAll(s.up.value, e.order), e.write);
    } else if SavesOneView(e) {
      OneViewKeepsRegistration(word, s, e, id);
    } else {
      NoSaveLeavesDisk(word, s, e);
    }
  }

  lemma {:induction false} SaveRunningKeepsRegistration(disk: map<string, Row>, items: seq<Item>, id: string)
    ensures id in SaveRunning(disk, items) <==> id in disk
    ensures id in disk ==> SaveRunning(disk, items)[id] == disk[id].(view := SaveRunning(disk, items)[id].view)
    decreases |items|
  {
    if items != [] {
      SaveRunningKeepsRegistration(SaveView(disk, items[0].id, View(items[0].name, WantRunning, Supervisor.Running)), items[1..], id);
    }
  }

  lemma RestoreKeepsRegistration(s: System, order: seq<string>, write: Write, id: string)
    requires s.up.Some? && Enumerates(s.up.value, order)
    ensures var d := RestoreStep(s, AgainAll(s.up.value, order), write).disk;
            (id in d <==> id in s.disk) && (id in d ==> d[id] == s.disk[id].(view := d[id].view))
  {
    SaveRunningKeepsRegistration(s.disk, AgainAll(s.up.value, order), id);
  }

  lemma OneViewKeepsRegistration(word: Alphabet, s: System, e: Event, id: string)
    requires Enabled(word, s, e) && SavesOneView(e)
    ensures id in Next(word, s, e).disk <==> id in s.disk
    ensures id in s.disk ==> Next(word, s, e).disk[id] == s.disk[id].(view := Next(word, s, e).disk[id].view)
  {
  }

  /** Over every run: an instance is saved exactly if it was registered, and as it was registered last. */
  lemma {:induction false} SavedRegistrationIsLast(word: Alphabet, run: seq<Event>, id: string)
    ensures id in After(word, run).disk <==> LastRegistration(word, run, id).Some?
    ensures id in After(word, run).disk ==> RowOf(After(word, run).disk[id], LastRegistration(word, run, id).value)
  {
    if run != [] {
      var before, e := run[..|run| - 1], run[|run| - 1];
      var p := After(word, before);
      SavedRegistrationIsLast(word, before, id);
      if Enabled(word, p, e) {
        if e.Start? {
          assert Next(word, p, e) == StartStep(p, e.items, e.write);
          if !e.write.Lost? && SaveAll(p.disk, e.items).Some? {
            StartSavesRegistrations(word, p, e.items, e.write, id);
          }
        } else {
          EveryRunKeeps(word, before);
          OthersKeepRegistration(word, p, e, id);
        }
      }
    }
  }

  // ---- The configuration that is launched ----

  lemma {:induction false} LaunchAllLeaves(s: System, items: seq<Item>, id: string)
    requires s.up.Some? && forall i | 0 <= i < |items| :: items[i].id != id
    ensures var m, n := s.up.value.instances, LaunchAll(s, items).up.value.instances;
            (id in n <==> id in m) && (id in n ==> n[id] == m[id])
    decreases |items|
  {
    if items != [] {
      assert items[0].id != id;
      LaunchAllLeaves(Launch(s, items[0]), items[1..], id);
    }
  }

  /** Each item is published as running, with its configuration, under a runner of its own. */
  lemma {:induction false} LaunchAllPublishes(s: System, items: seq<Item>, i: nat)
    requires s.up.Some? && i < |items| && forall i, j | 0 <= i < j < |items| :: items[i].id != items[j].id
    ensures var u, item := LaunchAll(s, items), items[i];
            && item.id in u.up.value.instances
            && u.up.value.instances[item.id] == Runtime(View(item.name, WantRunning, Supervisor.Running), item.identity, Some(item.snapshot), s.next + i)
    decreases |items|
  {
    forall i, j | 0 <= i < j < |items[1..]| ensures items[1..][i].id != items[1..][j].id {
      assert items[i + 1].id != items[j + 1].id;
    }
    var u := Launch(s, items[0]);
    if i == 0 {
      forall j | 0 <= j < |items[1..]| ensures items[1..][j].id != items[0].id {
        assert items[0].id != items[j + 1].id;
      }
      LaunchAllLeaves(u, items[1..], items[0].id);
    } else {
      LaunchAllPublishes(u, items[1..], i - 1);
    }
  }

  /** A start that is reported runs each instance with the configuration it has just saved. */
  lemma StartLaunchesWhatItSaved(word: Alphabet, s: System, items: seq<Item>, i: nat)
    requires Enabled(word, s, Start(items, Written)) && SaveAll(s.disk, items).Some? && i < |items|
    ensures var u, id := StartStep(s, items, Written), items[i].id;
            && id in u.disk && u.disk[id].snapshot == items[i].snapshot
            && id in u.up.value.instances && u.up.value.instances[id].config == Some(items[i].snapshot)
            && u.up.value.instances[id].view == View(items[i].name, WantRunning, Supervisor.Running)
  {
    assert forall i, j | 0 <= i < j < |items| :: Different(items[i], items[j]);
    SaveAllWrites(s.disk, items, i);
    LaunchAllPublishes(s.(disk := SaveAll(s.disk, items).value, last := AskAll(s.last, items)), items, i);
  }

  /** After a reopening and a Restore, every instance that runs does so with its last registered configuration. */
  lemma RestoreLaunchesLastConfig(word: Alphabet, run: seq<Event>, valid: string -> bool, order: seq<string>, id: string)
    requires After(word, run).up.None? && AllAcceptable(word, After(word, run).disk)
    requires Enabled(word, Next(word, After(word, run), Open(valid)), Restore(order, Written))
    requires Runs(Next(word, Next(word, After(word, run), Open(valid)), Restore(order, Written)), id)
    ensures var u := Next(word, Next(word, After(word, run), Open(valid)), Restore(order, Written));
            && LastRegistration(word, run, id).Some? && id in u.up.value.instances
            && u.up.value.instances[id].config == Some(LastRegistration(word, run, id).value.snapshot)
            && u.up.value.instances[id].view == View(LastRegistration(word, run, id).value.name, WantRunning, Supervisor.Running)
            && u.up.value.instances[id].identity == LastRegistration(word, run, id).value.identity
  {
    var s := After(word, run);
    EveryRunKeeps(word, run);
    SavedRegistrationIsLast(word, run, id);
    RestoreLaunchesSaved(word, s, valid, order, id);
    var loaded := Next(word, s, Open(valid));
    assert loaded == s.(up := Some(LoadedMemory(s.disk, valid)));
    RestoreConfigs(loaded, order, id);
    assert Next(word, loaded, Restore(order, Written)) == RestoreStep(loaded, AgainAll(loaded.up.value, order), Written);
    assert RowOk(id, s.disk[id]);
  }

  lemma RestoreConfigs(s: System, order: seq<string>, id: string)
    requires s.up.Some? && Enumerates(s.up.value, order) && Pending(s.up.value, id)
    ensures var u, m := RestoreStep(s, AgainAll(s.up.value, order), Written).up.value.instances, s.up.value.instances;
            && id in u && u[id].config == m[id].config && u[id].identity == m[id].identity
            && u[id].view == View(m[id].view.name, WantRunning, Supervisor.Running)
  {
    var items := AgainAll(s.up.value, order);
    assert id in order;
    var i :| 0 <= i < |order| && order[i] == id;
    LaunchAllPublishes(s.(disk := SaveRunning(s.disk, items)), items, i);
  }

  /** A resume that is reported runs the instance with the configuration it had, and leaves its registration alone. */
  lemma ResumeIsShown(word: Alphabet, s: System, id: string, write: Write)
    requires Inv(s) && Enabled(word, s, Resume(id, write))
    ensures var u, r := Next(word, s, Resume(id, write)), s.up.value.instances[id];
            && (!write.Written? ==> u.up == s.up && u.runners == s.runners)
            && (write.Written? ==>
                  && u.up.value.instances == s.up.value.instances[id := Runtime(View(r.view.name, WantRunning, Supervisor.Running), r.identity, r.config, s.next)]
                  && u.runners == s.runners[s.next := Working(id)]
                  && id in u.disk && u.disk[id] == s.disk[id].(view := View(r.view.name, WantRunning, Supervisor.Running)))
  {
    assert Agrees(s.disk[id], s.up.value.instances[id]);
  }

  /** The instance is still there, with the name and the configuration it had. */
  ghost predicate SameConfig(before: map<string, Runtime>, after: map<string, Runtime>, id: string) {
    && id in before && id in after && after[id].config == before[id].config && after[id].identity == before[id].identity
    && after[id].view.name == before[id].view.name
  }

  /** While the daemon is up only a start changes the configuration that an instance runs with. */
  lemma OthersKeepConfig(word: Alphabet, s: System, e: Event, id: string)
    requires Inv(s) && Enabled(word, s, e) && s.up.Some? && Next(word, s, e).up.Some? && id in s.up.value.instances
    requires e.Start? ==> forall i | 0 <= i < |e.items| :: e.items[i].id != id
    ensures SameConfig(s.up.value.instances, Next(word, s, e).up.value.instances, id)
  {
    if e.Start? {
      StartKeepsConfig(s, e.items, e.write, id);
    } else if e.Restore? {
      RestoreKeepsConfig(s, e.order, e.write, id);
    } else if e.Resume? {
      ResumeIsShown(word, s, e.id, e.write);
    } else if e.Stop? {
      StopKeepsConfig(s, e.id, e.write, id);
    } else if e.End? {
      EndKeepsConfig(s, e.token, e.write, id);
    } else {
      QuietKeepsConfig(word, s, e, id);
    }
  }

  lemma QuietKeepsConfig(word: Alphabet, s: System, e: Event, id: string)
    requires Enabled(word, s, e) && s.up.Some? && Next(word, s, e).up.Some? && id in s.up.value.instances
    requires e.Return? || e.BeginClose? || e.Open? || e.Close? || e.Crash?
    ensures SameConfig(s.up.value.instances, Next(word, s, e).up.value.instances, id)
  {
  }

  lemma StopKeepsConfig(s: System, stopped: string, write: Write, id: string)
    requires s.up.Some? && stopped in s.up.value.instances && id in s.up.value.instances
    ensures SameConfig(s.up.value.instances, StopStep(s, stopped, write).up.value.instances, id)
  {
  }

  lemma StartKeepsConfig(s: System, items: seq<Item>, write: Write, id: string)
    requires s.up.Some? && id in s.up.value.instances && forall i | 0 <= i < |items| :: items[i].id != id
    ensures SameConfig(s.up.value.instances, StartStep(s, items, write).up.value.instances, id)
  {
    if SaveAll(s.disk, items).Some? {
      LaunchAllLeaves(s.(disk := SaveAll(s.disk, items).value, last := AskAll(s.last, items)), items, id);
    }
  }

  lemma RestoreKeepsConfig(s: System, order: seq<string>, write: Write, id: string)
    requires s.up.Some? && id in s.up.value.instances && Enumerates(s.up.value, order)
    ensures SameConfig(s.up.value.instances, RestoreStep(s, AgainAll(s.up.value, order), write).up.value.instances, id)
  {
    var items := AgainAll(s.up.value, order);
    if id in order {
      RestoreConfigs(s, order, id);
    } else {
      assert forall i | 0 <= i < |items| :: items[i].id == order[i] && order[i] in order;
      LaunchAllLeaves(s.(disk := SaveRunning(s.disk, items)), items, id);
    }
  }

  lemma EndKeepsConfig(s: System, token: nat, write: Write, id: string)
    requires Inv(s) && s.up.Some? && token in s.runners && s.runners[token].Returned? && s.runners[token].id in s.up.value.instances
    requires id in s.up.value.instances
    ensures SameConfig(s.up.value.instances, EndStep(s, token, write).up.value.instances, id)
  {
  }

  // ---- The states that are shown ----

  /** Stopping an active instance publishes that it is stopping; stopping any other leaves its state. */
  lemma StopIsShown(s: System, id: string)
    requires s.up.Some? && id in s.up.value.instances
    ensures var u, v := StopStep(s, id, Written).up.value.instances[id].view, s.up.value.instances[id].view;
            u.desired == WantStopped && u.name == v.name && u.life == if v.Active() then Supervisor.Stopping else v.life
  {
  }

  /** When the daemon begins to close, every active instance is stopping and no other has changed. */
  lemma CloseIsShown(word: Alphabet, s: System, id: string)
    requires s.up.Some? && id in s.up.value.instances
    ensures var u, v := Next(word, s, BeginClose).up.value, s.up.value.instances[id].view;
            && u.shuttingDown && id in u.instances && u.instances[id].view.desired == v.desired
            && u.instances[id].view.life == if v.Active() then Supervisor.Stopping else v.life
  {
  }

  /** A reopened daemon shows nothing as active, and a failure exactly for a rejected configuration or an earlier failure. */
  lemma ReopeningIsShown(s: System, valid: string -> bool, id: string)
    requires id in s.disk
    ensures var r, row := LoadedMemory(s.disk, valid).instances[id], s.disk[id];
            && (r.view.life.Failed? <==> !valid(row.snapshot) || row.view.life.Failed?) && (r.view.life.Failed? || r.view.life.Exited?)
            && r.view.desired == row.view.desired && r.view.name == row.view.name && r.identity == row.identity
            && r.config == if valid(row.snapshot) then Some(row.snapshot) else None
  {
  }

  /** No runner is given this token, and the one that has it is as it was, if it is still there. */
  ghost predicate KeepsToken(s: System, u: System, token: nat) {
    u.next >= s.next && (token in u.runners ==> token in s.runners && u.runners[token] == s.runners[token])
  }

  lemma {:induction false} LaunchAllKeepsToken(s: System, items: seq<Item>, token: nat)
    requires s.up.Some? && token < s.next
    ensures KeepsToken(s, LaunchAll(s, items), token)
    decreases |items|
  {
    if items != [] {
      LaunchAllKeepsToken(Launch(s, items[0]), items[1..], token);
    }
  }

  lemma StartKeepsToken(s: System, items: seq<Item>, write: Write, token: nat)
    requires s.up.Some? && token < s.next
    ensures KeepsToken(s, StartStep(s, items, write), token)
  {
    if write.Written? && SaveAll(s.disk, items).Some? {
      LaunchAllKeepsToken(s.(disk := SaveAll(s.disk, items).value, last := AskAll(s.last, items)), items, token);
    }
  }

  lemma RestoreKeepsToken(s: System, items: seq<Item>, write: Write, token: nat)
    requires s.up.Some? && token < s.next
    ensures KeepsToken(s, RestoreStep(s, items, write), token)
  {
    LaunchAllKeepsToken(s.(disk := SaveRunning(s.disk, items)), items, token);
  }

  lemma OneViewKeepsToken(word: Alphabet, s: System, e: Event, token: nat)
    requires Enabled(word, s, e) && SavesOneView(e) && token < s.next
    ensures KeepsToken(s, Next(word, s, e), token)
  {
  }

  lemma QuietKeepsToken(word: Alphabet, s: System, e: Event, token: nat)
    requires Enabled(word, s, e) && !SavesOneView(e) && !e.Start? && !e.Restore?
    requires token in s.runners ==> s.runners[token].Returned?
    ensures KeepsToken(s, Next(word, s, e), token)
  {
  }

  /** A runner that has returned keeps what it returned with, until it ends or the daemon crashes. */
  lemma ReturnedStays(word: Alphabet, s: System, e: Event, token: nat)
    requires Enabled(word, s, e) && token < s.next && (token in s.runners ==> s.runners[token].Returned?)
    ensures KeepsToken(s, Next(word, s, e), token)
  {
    if e.Start? {
      StartKeepsToken(s, e.items, e.write, token);
      assert Next(word, s, e) == StartStep(s, e.items, e.write);
    } else if e.Restore? {
      RestoreKeepsToken(s, AgainAll(s.up.value, e.order), e.write, token);
      assert Next(word, s, e) == RestoreStep(s, AgainAll(s.up.value, e.order), e.write);
    } else if SavesOneView(e) {
      OneViewKeepsToken(word, s, e, token);
    } else {
      QuietKeepsToken(word, s, e, token);
    }
  }

  lemma {:induction false} ReturnedUntilTheEnd(word: Alphabet, run: seq<Event>, between: seq<Event>, token: nat)
    requires token < After(word, run).next && (token in After(word, run).runners ==> After(word, run).runners[token].Returned?)
    ensures KeepsToken(After(word, run), After(word, run + between), token)
    decreases |between|
  {
    if between == [] {
      assert run + between == run;
    } else {
      var before, e := between[..|between| - 1], between[|between| - 1];
      ReturnedUntilTheEnd(word, run, before, token);
      assert run + between == run + before + [e];
      AfterMore(word, run + before, e);
      if Enabled(word, After(word, run + before), e) {
        ReturnedStays(word, After(word, run + before), e, token);
      }
    }
  }

  /** Whatever happens between the two regions of an exit, memory and, if the write took effect, the disk show how the runner returned. */
  lemma ExitIsShown(word: Alphabet, run: seq<Event>, token: nat, failed: bool, between: seq<Event>, write: Write)
    requires Enabled(word, After(word, run), Return(token, failed))
    requires Enabled(word, After(word, run + [Return(token, failed)] + between), End(token, write))
    ensures var id := After(word, run).runners[token].id;
            var u := Next(word, After(word, run + [Return(token, failed)] + between), End(token, write));
            var life := if failed then Supervisor.Failed else Supervisor.Exited;
            && u.up.Some? && id in u.up.value.instances && u.up.value.instances[id].view.life == life
            && (!write.Lost? && id in u.disk ==> u.disk[id].view == u.up.value.instances[id].view)
  {
    var returned := run + [Return(token, failed)];
    AfterMore(word, run, Return(token, failed));
    EveryRunKeeps(word, returned);
    var s := After(word, returned);
    assert token in s.runners && s.runners[token].Returned?;
    assert RunnerOk(s.up.value.instances, token, s.runners[token]);
    ReturnedUntilTheEnd(word, returned, between, token);
  }
}
