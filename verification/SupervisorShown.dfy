/**
 * What a user of the supervisor sees: what a start, a stop and an exit change in the listed instances and in the
 * reservations, that nothing else changes, and which instance a selector finds.
 */
module SupervisorShown {
  import opened Text
  import opened Names
  import opened Supervisor

  // ---- Starting ----

  /** A new instance runs under its name, on its config and database, from now on. */
  ghost predicate JustStarted(i: Instance, item: Prepared, now: int, removeOnExit: bool) {
    && i.id == item.id && i.name == item.name && i.config == item.candidate.config && i.database == item.candidate.database
    && i.life == Running && i.createdAt == now && i.removeOnExit == removeOnExit
  }

  /** The items from here on are registered, and whatever they do not name is as it was. */
  ghost predicate Added(s: State, u: State, items: seq<Prepared>, now: int, removeOnExit: bool) {
    && (forall i | 0 <= i < |items| :: items[i].id in u.instances && JustStarted(u.instances[items[i].id], items[i], now, removeOnExit))
    && (forall i | 0 <= i < |items| :: items[i].name in u.names && u.names[items[i].name] == items[i].id)
    && (forall id | forall i | 0 <= i < |items| :: items[i].id != id :: SameInstance(s, u, id))
    && (forall n | forall i | 0 <= i < |items| :: items[i].name != n :: SameName(s, u, n))
  }

  ghost predicate SameInstance(s: State, u: State, id: string) {
    (id in u.instances <==> id in s.instances) && (id in s.instances ==> u.instances[id] == s.instances[id])
  }

  ghost predicate SameName(s: State, u: State, n: string) {
    (n in u.names <==> n in s.names) && (n in s.names ==> u.names[n] == s.names[n])
  }

  /** All IDs differ, and all names. */
  ghost predicate Different(items: seq<Prepared>) {
    forall i, j | 0 <= i < j < |items| :: items[i].id != items[j].id && items[i].name != items[j].name
  }

  lemma {:induction false} RegisterAllAdds(s: State, items: seq<Prepared>, now: int, removeOnExit: bool)
    requires Different(items)
    ensures Added(s, RegisterAll(s, items, now, removeOnExit), items, now, removeOnExit)
    decreases |items|
  {
    if items != [] {
      var rest := items[1..];
      var first := Register(s, items[0], now, removeOnExit);
      assert forall i | 0 <= i < |rest| :: rest[i] == items[i + 1];
      assert forall i | 0 < i < |items| :: items[i] == rest[i - 1];
      RegisterAllAdds(first, rest, now, removeOnExit);
      var u := RegisterAll(first, rest, now, removeOnExit);
      assert SameInstance(first, u, items[0].id) && SameName(first, u, items[0].name);
      forall id | forall i | 0 <= i < |items| :: items[i].id != id ensures SameInstance(s, u, id) {
        assert items[0].id != id && SameInstance(first, u, id);
      }
      forall n | forall i | 0 <= i < |items| :: items[i].name != n ensures SameName(s, u, n) {
        assert items[0].name != n && SameName(first, u, n);
      }
    }
  }

  /** Main result: a start shows exactly its own instances as running, and changes no other. */
  lemma StartIsShown(fs: FileSystem, retained: nat, s: State, items: seq<Prepared>, now: int, removeOnExit: bool)
    requires Enabled(fs, retained, s, Reserve(items, now, removeOnExit))
    ensures var u := Next(s, Reserve(items, now, removeOnExit));
            Added(s, u, items, now, removeOnExit) && u.start == Idle && u.shuttingDown == s.shuttingDown
  {
    RegisterAllAdds(s, items, now, removeOnExit);
    OnlyTheMaps(s, items, now, removeOnExit);
    var r := RegisterAll(s, items, now, removeOnExit);
    assert forall id :: SameInstance(s, r, id) <==> SameInstance(s, r.(start := Idle), id);
    assert forall n :: SameName(s, r, n) <==> SameName(s, r.(start := Idle), n);
  }

  lemma {:induction false} OnlyTheMaps(s: State, items: seq<Prepared>, now: int, removeOnExit: bool)
    ensures RegisterAll(s, items, now, removeOnExit).shuttingDown == s.shuttingDown
    decreases |items|
  {
    if items != [] {
      OnlyTheMaps(Register(s, items[0], now, removeOnExit), items[1..], now, removeOnExit);
    }
  }

  // ---- Stopping ----

  /** A stop turns a running instance into a stopping one and leaves everything else; a shutdown does that to all. */
  lemma StopIsShown(s: State, id: string, other: string)
    requires id in s.instances && other in s.instances
    ensures var u, down := Next(s, BeginStop(id)), Next(s, BeginShutdown);
            && u.names == down.names == s.names && u.configs == down.configs == s.configs && u.databases == down.databases == s.databases
            && u.instances.Keys == down.instances.Keys == s.instances.Keys && down.shuttingDown && u.shuttingDown == s.shuttingDown
            && u.instances[id].life == (if s.instances[id].life == Running then Stopping else s.instances[id].life)
            && (other != id ==> u.instances[other] == s.instances[other])
            && down.instances[other].life == (if s.instances[other].life == Running then Stopping else s.instances[other].life)
  {
  }

  // ---- Ending ----

  /** How far an instance has got. */
  function Stage(life: Life): nat {
    match life
    case Running => 0
    case Stopping => 1
    case Exited => 2
    case Failed => 2
  }

  /** No step changes what an instance is, none turns its life back, and none touches one that has ended. */
  ghost predicate MovesOn(a: Instance, b: Instance) {
    && b.id == a.id && b.name == a.name && b.config == a.config && b.database == a.database
    && b.createdAt == a.createdAt && b.removeOnExit == a.removeOnExit
    && Stage(a.life) <= Stage(b.life) && (Stage(a.life) == 2 ==> b == a)
  }

  /** A reservation leaves every instance that there was. */
  lemma ReservingKeepsInstances(fs: FileSystem, retained: nat, s: State, items: seq<Prepared>, now: int, removeOnExit: bool, id: string)
    requires Enabled(fs, retained, s, Reserve(items, now, removeOnExit)) && id in s.instances
    ensures var u := Next(s, Reserve(items, now, removeOnExit)); id in u.instances && u.instances[id] == s.instances[id]
  {
    StartIsShown(fs, retained, s, items, now, removeOnExit);
    forall i | 0 <= i < |items| ensures items[i].id != id {
      assert Unused(s, items[i].id);
    }
    assert SameInstance(s, Next(s, Reserve(items, now, removeOnExit)), id);
  }

  lemma InstancesMoveOn(fs: FileSystem, retained: nat, s: State, l: Label, id: string)
    requires Enabled(fs, retained, s, l) && id in s.instances && id in Next(s, l).instances
    ensures MovesOn(s.instances[id], Next(s, l).instances[id])
  {
    match l
    case Reserve(items, now, remove) => ReservingKeepsInstances(fs, retained, s, items, now, remove, id);
    case BeginStop(other) => StopIsShown(s, other, id);
    case BeginShutdown => StopIsShown(s, id, id);
    case Finish(other, failed, now, victims) => ExitIsShown(fs, retained, s, other, failed, now, victims);
    case _ =>
  }

  /** Only an exit makes an instance disappear: the one that ends, if it was to be removed, or ones that have ended. */
  lemma OnlyExitsRemove(fs: FileSystem, retained: nat, s: State, l: Label, id: string)
    requires Enabled(fs, retained, s, l) && id in s.instances && id !in Next(s, l).instances
    ensures l.Finish? && if l.id == id then s.instances[id].removeOnExit
                         else Stage(s.instances[id].life) == 2 && !s.instances[l.id].removeOnExit && |Terminal(s.instances)| >= retained
  {
    match l
    case Reserve(items, now, remove) => ReservingKeepsInstances(fs, retained, s, items, now, remove, id);
    case Finish(other, failed, now, victims) =>
      if !s.instances[other].removeOnExit {
        RemovalsAreOver(s, retained, other, failed, now, victims, id);
      }
    case _ =>
  }

  lemma RemovalsAreOver(s: State, retained: nat, id: string, failed: bool, now: int, victims: set<string>, victim: string)
    requires id in s.instances && s.instances[id].Active() && victim in victims
    requires Trims(s.instances[id := Ended(s.instances[id], failed, now)], id, retained, victims)
    ensures victim in s.instances && victim != id && Stage(s.instances[victim].life) == 2 && |Terminal(s.instances)| >= retained
  {
    var ended := s.instances[id := Ended(s.instances[id], failed, now)];
    assert Terminal(ended) == Terminal(s.instances) + {id};
    assert |victims| != 0;
  }

  /** Main result: an exit is shown with its outcome and time, unless the instance was to be removed with it. */
  lemma ExitIsShown(fs: FileSystem, retained: nat, s: State, id: string, failed: bool, now: int, victims: set<string>)
    requires Enabled(fs, retained, s, Finish(id, failed, now, victims))
    ensures var u := Next(s, Finish(id, failed, now, victims));
            if s.instances[id].removeOnExit then u.instances == s.instances - {id}
            else id in u.instances && u.instances[id].life == (if failed then Failed else Exited) && u.instances[id].finishedAt == now
                 && u.instances.Keys == s.instances.Keys - victims
  {
  }

  /** ... and it frees its own config and database, and no others; the names of those that are gone are free. */
  lemma ExitFreesItsOwn(fs: FileSystem, retained: nat, s: State, id: string, failed: bool, now: int, victims: set<string>, text: string)
    requires Inv(fs, retained, s) && Enabled(fs, retained, s, Finish(id, failed, now, victims))
    ensures var u := Next(s, Finish(id, failed, now, victims));
            && (text in u.configs <==> text in s.configs && text != s.instances[id].config)
            && (text in u.databases <==> text in s.databases && text != s.instances[id].database)
            && (text in u.configs ==> u.configs[text] == s.configs[text]) && (text in u.databases ==> u.databases[text] == s.databases[text])
            && (text in u.names <==> text in s.names && s.names[text] in u.instances)
  {
    assert OwnsBoth(s.configs, s.databases, id, s.instances[id]);
  }

  // ---- Finding ----

  /** A selector that is no name finds an instance exactly if that is the only one whose ID begins with it. */
  lemma PrefixFindsTheOnlyOne(s: State, text: string, id: string)
    requires Findable(text) && text !in s.names
    ensures Resolve(s, text) == Found(id) <==> id in s.instances && text <= id && forall k | k in s.instances && text <= k :: k == id
    ensures Resolve(s, text) == NotFound <==> forall k | k in s.instances :: !(text <= k)
    ensures Resolve(s, text) == Ambiguous <==> exists a, b | a in s.instances && b in s.instances && text <= a && text <= b :: a != b
  {
    FindableIsTrimmed(text);
    var matches := set k | k in s.instances && text <= k;
    assert forall k :: k in matches <==> k in s.instances && text <= k;
    if |matches| == 1 {
      OnlyOne(matches);
    } else if |matches| > 1 {
      var a :| a in matches;
      assert |matches - {a}| == |matches| - 1;
      var b :| b in matches - {a};
    } else {
      assert matches == {};
    }
    if k :| k in s.instances && text <= k && matches == {k} {
      assert |matches| == 1;
    }
  }
}
