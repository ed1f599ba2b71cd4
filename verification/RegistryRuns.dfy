/** What the durable supervisor guarantees over whole runs, and exactly when. */
module RegistryRuns {
  import opened Text
  import opened Names
  import Supervisor
  import opened Registry

  // ---- The last committed start or stop ----

  ghost predicate Starts(items: seq<Item>, id: string) { exists i | 0 <= i < |items| :: items[i].id == id }

  /** What an event commits for an instance in state p. Restoring is not a start: it repeats what memory holds. */
  ghost function Commits(word: Alphabet, p: System, e: Event, id: string): Option<Desired> {
    if !Enabled(word, p, e) then None
    else
      match e
      case Start(items, write) =>
        if !write.Lost? && SaveAll(p.disk, items).Some? && Starts(items, id) then Some(WantRunning) else None
      case Resume(k, write) => if !write.Lost? && k == id then Some(WantRunning) else None
      case Stop(k, write) => if !write.Lost? && k == id then Some(WantStopped) else None
      case _ => None
  }

  ghost function LastCommitted(word: Alphabet, run: seq<Event>, id: string): Option<Desired> {
    if run == [] then None
    else
      var before, e := run[..|run| - 1], run[|run| - 1];
      var wish := Commits(word, After(word, before), e, id);
      if wish.Some? then wish else LastCommitted(word, before, id)
  }

  function Asked(last: map<string, Desired>, id: string): Option<Desired> { if id in last then Some(last[id]) else None }

  lemma {:induction false} AskAllAsks(last: map<string, Desired>, items: seq<Item>, id: string)
    ensures Asked(AskAll(last, items), id) == if Starts(items, id) then Some(WantRunning) else Asked(last, id)
    decreases |items|
  {
    if items != [] {
      AskAllAsks(last[items[0].id := WantRunning], items[1..], id);
      assert Starts(items, id) <==> items[0].id == id || Starts(items[1..], id) by {
        assert forall i | 1 <= i < |items| :: items[i] == items[1..][i - 1];
      }
    }
  }

  lemma StepAsks(word: Alphabet, s: System, e: Event, id: string)
    requires Enabled(word, s, e)
    ensures Asked(Next(word, s, e).last, id) == if Commits(word, s, e, id).Some? then Commits(word, s, e, id) else Asked(s.last, id)
  {
    if e.Start? {
      AskAllAsks(s.last, e.items, id);
    }
  }

  lemma {:induction false} RunAsks(word: Alphabet, run: seq<Event>, id: string)
    ensures Asked(After(word, run).last, id) == LastCommitted(word, run, id)
  {
    if run != [] {
      var before, e := run[..|run| - 1], run[|run| - 1];
      RunAsks(word, before, id);
      if Enabled(word, After(word, before), e) {
        StepAsks(word, After(word, before), e, id);
      }
    }
  }

  // ---- Exactly when the saved wish is the last committed one ----

  /** A final write, or a restore, of this instance takes effect. */
  ghost predicate Repeats(word: Alphabet, p: System, e: Event, id: string) {
    Enabled(word, p, e) &&
    match e
    case End(token, write) => !write.Lost? && p.runners[token].id == id
    case Restore(order, write) => !write.Lost? && id in order
    case _ => false
  }

  /** Memory holds another wish than the last committed one: a save of a start or stop was not reported. */
  ghost predicate Lags(p: System, id: string) {
    p.up.Some? && id in p.up.value.instances && Some(p.up.value.instances[id].view.desired) != Asked(p.last, id)
  }

  /** Since the last committed start or stop, a final write or a restore took effect while memory lagged. */
  ghost predicate Spoiled(word: Alphabet, run: seq<Event>, id: string) {
    run != [] &&
    var before, e := run[..|run| - 1], run[|run| - 1];
    var p := After(word, before);
    Commits(word, p, e, id).None? && ((Repeats(word, p, e, id) && Lags(p, id)) || Spoiled(word, before, id))
  }

  ghost predicate Right(s: System, id: string) { id in s.disk && id in s.last && s.disk[id].view.desired == s.last[id] }

  lemma SaveAllSavesOne(disk: map<string, Row>, items: seq<Item>, id: string) returns (i: nat)
    requires SaveAll(disk, items).Some? && Starts(items, id)
    requires forall i, j | 0 <= i < j < |items| :: Different(items[i], items[j])
    ensures i < |items| && items[i].id == id && Saved(SaveAll(disk, items).value, items[i])
  {
    i :| 0 <= i < |items| && items[i].id == id;
    SaveAllSaves(disk, items, i);
  }

  lemma StartIsRight(word: Alphabet, s: System, items: seq<Item>, write: Write, id: string)
    requires Enabled(word, s, Start(items, write)) && !write.Lost? && SaveAll(s.disk, items).Some? && Starts(items, id)
    ensures id in StartStep(s, items, write).disk && StartStep(s, items, write).disk[id].view.desired == WantRunning
  {
    forall i, j | 0 <= i < j < |items| ensures Different(items[i], items[j]) {
    }
    var i := SaveAllSavesOne(s.disk, items, id);
  }

  lemma ViewIsRight(word: Alphabet, s: System, e: Event, id: string)
    requires Inv(s) && Enabled(word, s, e) && (e.Resume? || e.Stop?) && Commits(word, s, e, id).Some?
    ensures id in Next(word, s, e).disk && Some(Next(word, s, e).disk[id].view.desired) == Commits(word, s, e, id)
  {
    assert id in s.disk && Agrees(s.disk[id], s.up.value.instances[id]);
  }

  /** A committed start or stop puts the saved wish right. */
  lemma CommitIsRight(word: Alphabet, s: System, e: Event, id: string)
    requires Inv(s) && Enabled(word, s, e) && Commits(word, s, e, id).Some?
    ensures Right(Next(word, s, e), id)
  {
    StepAsks(word, s, e, id);
    if e.Start? {
      StartIsRight(word, s, e.items, e.write, id);
      assert Next(word, s, e) == StartStep(s, e.items, e.write);
    } else {
      ViewIsRight(word, s, e, id);
    }
  }

  lemma RestoredRow(m: Memory, order: seq<string>, id: string) returns (i: nat)
    requires Enumerates(m, order) && id in order
    ensures i < |order| && AgainAll(m, order)[i] == Again(m, id) && Pending(m, id)
  {
    i :| 0 <= i < |order| && order[i] == id;
  }

  lemma NotRestoredRow(m: Memory, order: seq<string>, id: string)
    requires Enumerates(m, order) && id !in order
    ensures forall i | 0 <= i < |AgainAll(m, order)| :: AgainAll(m, order)[i].id != id
  {
    assert forall i | 0 <= i < |order| :: AgainAll(m, order)[i].id == order[i] && order[i] in order;
  }

  /** The rows that Restore writes, and the ones it does not. */
  lemma RestoreRows(s: System, order: seq<string>, id: string)
    requires Inv(s) && s.up.Some? && Enumerates(s.up.value, order) && id in s.disk
    ensures var d := SaveRunning(s.disk, AgainAll(s.up.value, order));
            && id in d && (id !in order ==> d[id] == s.disk[id])
            && (id in order ==> id in s.up.value.instances && d[id].view.desired == s.up.value.instances[id].view.desired == WantRunning)
  {
    var items := AgainAll(s.up.value, order);
    SaveRunningRow(s.disk, items, id);
    if id in order {
      var i := RestoredRow(s.up.value, order, id);
    } else {
      NotRestoredRow(s.up.value, order, id);
    }
  }

  /** A final write or a restore saves memory's wish. */
  lemma RepeatSavesMemory(word: Alphabet, s: System, e: Event, id: string)
    requires Inv(s) && Enabled(word, s, e) && Repeats(word, s, e, id) && id in s.disk
    ensures s.up.Some? && id in s.up.value.instances && id in Next(word, s, e).disk
    ensures Next(word, s, e).disk[id].view.desired == s.up.value.instances[id].view.desired
    ensures Next(word, s, e).last == s.last
  {
    if e.Restore? {
      RestoreRows(s, e.order, id);
    }
  }

  lemma StartLeavesWish(word: Alphabet, s: System, items: seq<Item>, write: Write, id: string)
    requires Inv(s) && Enabled(word, s, Start(items, write)) && Commits(word, s, Start(items, write), id).None? && id in s.disk
    ensures id in StartStep(s, items, write).disk && StartStep(s, items, write).disk[id] == s.disk[id]
  {
    if !write.Lost? && SaveAll(s.disk, items).Some? {
      SaveAllLeaves(s.disk, items, id);
    }
  }

  /** The events whose saves are of one view. */
  ghost predicate SavesOneView(e: Event) { e.Resume? || e.Stop? || e.End? }

  lemma OneViewLeavesWish(word: Alphabet, s: System, e: Event, id: string)
    requires Enabled(word, s, e) && SavesOneView(e) && Commits(word, s, e, id).None? && !Repeats(word, s, e, id) && id in s.disk
    ensures id in Next(word, s, e).disk && Next(word, s, e).disk[id] == s.disk[id]
  {
  }

  lemma NoSaveLeavesDisk(word: Alphabet, s: System, e: Event)
    requires Enabled(word, s, e) && !SavesOneView(e) && !e.Start? && !e.Restore?
    ensures Next(word, s, e).disk == s.disk
  {
  }

  /** Nothing else touches the saved wish. */
  lemma OthersLeaveWish(word: Alphabet, s: System, e: Event, id: string)
    requires Inv(s) && Enabled(word, s, e) && Commits(word, s, e, id).None? && !Repeats(word, s, e, id) && id in s.disk
    ensures id in Next(word, s, e).disk && Next(word, s, e).disk[id].view.desired == s.disk[id].view.desired
  {
    if e.Start? {
      StartLeavesWish(word, s, e.items, e.write, id);
      assert Next(word, s, e) == StartStep(s, e.items, e.write);
    } else if e.Restore? {
      RestoreRows(s, e.order, id);
      assert Next(word, s, e) == RestoreStep(s, AgainAll(s.up.value, e.order), e.write);
    } else if SavesOneView(e) {
      OneViewLeavesWish(word, s, e, id);
    } else {
      NoSaveLeavesDisk(word, s, e);
    }
  }

  lemma {:induction false} RightIffNotSpoiled(word: Alphabet, run: seq<Event>, id: string)
    requires id in After(word, run).disk
    ensures Right(After(word, run), id) <==> !Spoiled(word, run, id)
  {
    EveryRunKeeps(word, run);
    if run != [] {
      var before, e := run[..|run| - 1], run[|run| - 1];
      var p, s := After(word, before), After(word, run);
      EveryRunKeeps(word, before);
      if !Enabled(word, p, e) {
        RightIffNotSpoiled(word, before, id);
      } else if Commits(word, p, e, id).Some? {
        CommitIsRight(word, p, e, id);
      } else if Repeats(word, p, e, id) {
        assert p.up.Some? && id in p.disk by {
          StepAsks(word, p, e, id);
        }
        RepeatSavesMemory(word, p, e, id);
        RightIffNotSpoiled(word, before, id);
      } else {
        StepAsks(word, p, e, id);
        assert id in p.last && id in p.disk;
        OthersLeaveWish(word, p, e, id);
        RightIffNotSpoiled(word, before, id);
      }
    }
  }

  /**
   * Through exits, final writes, shutdowns, crashes and reopenings, with any save failing or unreported, an instance
   * is on disk exactly if a start of it was committed, and its saved wish is the last committed start or stop exactly
   * if no final write and no restore of it took effect while memory lagged.
   */
  lemma SavedIsLastCommitted(word: Alphabet, run: seq<Event>, id: string)
    ensures id in After(word, run).disk <==> LastCommitted(word, run, id).Some?
    ensures id in After(word, run).disk ==>
              (After(word, run).disk[id].view.desired == LastCommitted(word, run, id).value <==> !Spoiled(word, run, id))
  {
    EveryRunKeeps(word, run);
    RunAsks(word, run, id);
    if id in After(word, run).disk {
      RightIffNotSpoiled(word, run, id);
    }
  }

  /** A start or stop of this instance is saved and reported as failed. */
  ghost predicate Unreported(e: Event, id: string) {
    match e
    case Start(items, write) => write.WrittenButFailed? && Starts(items, id)
    case Resume(k, write) => write.WrittenButFailed? && k == id
    case Stop(k, write) => write.WrittenButFailed? && k == id
    case _ => false
  }

  lemma {:induction false} LaunchAllWishes(s: System, items: seq<Item>, id: string)
    requires s.up.Some?
    ensures var u := LaunchAll(s, items).up.value.instances;
            if Starts(items, id) then id in u && u[id].view.desired == WantRunning
            else (id in u <==> id in s.up.value.instances) && (id in u ==> u[id] == s.up.value.instances[id])
    decreases |items|
  {
    if items != [] {
      LaunchAllWishes(Launch(s, items[0]), items[1..], id);
      assert Starts(items, id) <==> items[0].id == id || Starts(items[1..], id) by {
        assert forall i | 1 <= i < |items| :: items[i] == items[1..][i - 1];
      }
    }
  }

  lemma RestoreStartsPending(m: Memory, order: seq<string>, id: string)
    requires Enumerates(m, order) && Starts(AgainAll(m, order), id)
    ensures Pending(m, id)
  {
    var i :| 0 <= i < |order| && AgainAll(m, order)[i].id == id;
    assert order[i] in order;
  }

  lemma StartKeepsUpToDate(word: Alphabet, s: System, items: seq<Item>, write: Write, id: string)
    requires Enabled(word, s, Start(items, write)) && !Unreported(Start(items, write), id) && !Lags(s, id)
    ensures !Lags(StartStep(s, items, write), id)
  {
    AskAllAsks(s.last, items, id);
    if write.Written? && SaveAll(s.disk, items).Some? {
      LaunchAllWishes(s.(disk := SaveAll(s.disk, items).value, last := AskAll(s.last, items)), items, id);
    }
  }

  lemma RestoreKeepsUpToDate(word: Alphabet, s: System, order: seq<string>, write: Write, id: string)
    requires Enabled(word, s, Restore(order, write)) && !Lags(s, id)
    ensures !Lags(RestoreStep(s, AgainAll(s.up.value, order), write), id)
  {
    var items := AgainAll(s.up.value, order);
    LaunchAllWishes(s.(disk := SaveRunning(s.disk, items)), items, id);
    if Starts(items, id) {
      RestoreStartsPending(s.up.value, order, id);
    }
  }

  lemma OpenIsUpToDate(s: System, valid: string -> bool, id: string)
    requires Inv(s) && (id in s.disk ==> Right(s, id))
    ensures !Lags(s.(up := Some(LoadedMemory(s.disk, valid))), id)
  {
  }

  lemma OneViewKeepsUpToDate(word: Alphabet, s: System, e: Event, id: string)
    requires Enabled(word, s, e) && SavesOneView(e) && !Unreported(e, id) && !Lags(s, id)
    ensures !Lags(Next(word, s, e), id)
  {
  }

  lemma QuietKeepsUpToDate(word: Alphabet, s: System, e: Event, id: string)
    requires Enabled(word, s, e) && !Lags(s, id) && (e.Return? || e.BeginClose? || e.Close? || e.Crash?)
    ensures !Lags(Next(word, s, e), id)
  {
  }

  /** A step that does not hide a start or stop from memory leaves memory up to date. */
  lemma StepKeepsUpToDate(word: Alphabet, s: System, e: Event, id: string)
    requires Inv(s) && Enabled(word, s, e) && !Unreported(e, id) && !Lags(s, id) && (id in s.disk ==> Right(s, id))
    ensures !Lags(Next(word, s, e), id)
  {
    if e.Start? {
      StartKeepsUpToDate(word, s, e.items, e.write, id);
      assert Next(word, s, e) == StartStep(s, e.items, e.write);
    } else if e.Restore? {
      RestoreKeepsUpToDate(word, s, e.order, e.write, id);
      assert Next(word, s, e) == RestoreStep(s, AgainAll(s.up.value, e.order), e.write);
    } else if e.Open? {
      OpenIsUpToDate(s, e.valid, id);
    } else if SavesOneView(e) {
      OneViewKeepsUpToDate(word, s, e, id);
    } else {
      QuietKeepsUpToDate(word, s, e, id);
    }
  }

  /** When every committed start and stop of an instance is reported, its saved wish is always the last committed one. */
  lemma {:induction false} HonestSavesAreKept(word: Alphabet, run: seq<Event>, id: string)
    requires forall i | 0 <= i < |run| :: !Unreported(run[i], id)
    ensures !Spoiled(word, run, id) && !Lags(After(word, run), id)
  {
    if run != [] {
      var before, e := run[..|run| - 1], run[|run| - 1];
      var p := After(word, before);
      assert forall i | 0 <= i < |before| :: before[i] == run[i];
      HonestSavesAreKept(word, before, id);
      if Enabled(word, p, e) {
        EveryRunKeeps(word, before);
        if id in p.disk {
          RightIffNotSpoiled(word, before, id);
        }
        StepKeepsUpToDate(word, p, e, id);
      }
    }
  }
}
