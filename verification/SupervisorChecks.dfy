/**
 * The checks a start makes before it reserves anything: candidates against each other, and candidates against
 * the paths that are active. They run without the manager's mutex and touch none of its state.
 */
module SupervisorChecks {
  import opened Text
  import opened Supervisor

  datatype CheckError =
    | DuplicateConfig(owner: Candidate, candidate: Candidate)
    | DuplicateDatabase(owner: Candidate, candidate: Candidate)
    | AlreadyActive(candidate: Candidate, id: string)
    | CannotInspect(path: string)

  /** An error names the paths it is about, and they are as it says. */
  ghost predicate Justified(fs: FileSystem, candidates: seq<Candidate>, e: CheckError) {
    match e
    case DuplicateConfig(a, b) => exists i, j | 0 <= i < j < |candidates| :: SamePair(candidates, i, j, a, b) && SameConfig(fs, a.config, b.config)
    case DuplicateDatabase(a, b) => exists i, j | 0 <= i < j < |candidates| :: SamePair(candidates, i, j, a, b) && Equivalent(fs, a.database, b.database)
    case AlreadyActive(_, _) => false
    case CannotInspect(p) => fs.id(p) == Unreadable && OfCandidate(candidates, p)
  }

  predicate SamePair(candidates: seq<Candidate>, i: nat, j: nat, a: Candidate, b: Candidate)
    requires i < j < |candidates|
  {
    candidates[i] == a && candidates[j] == b
  }

  ghost predicate OfCandidate(candidates: seq<Candidate>, p: string) {
    exists c | c in candidates :: p == c.config || p == c.database
  }

  /** The loop of startManyContext over the config paths: each against the earlier ones. */
  method CheckConfigs(fs: FileSystem, candidates: seq<Candidate>) returns (e: Option<CheckError>)
    ensures e.None? ==> forall i, j | 0 <= i < j < |candidates| :: !SameConfig(fs, candidates[i].config, candidates[j].config)
    ensures e.Some? ==> Justified(fs, candidates, e.value)
  {
    var i := 0;
    while i < |candidates|
      invariant 0 <= i <= |candidates|
      invariant forall h, j | 0 <= h < j < i :: !SameConfig(fs, candidates[h].config, candidates[j].config)
    {
      var c := candidates[i];
      if fs.id(c.config) == Unreadable {
        return Some(CannotInspect(c.config));
      }
      var j := 0;
      while j < i
        invariant 0 <= j <= i
        invariant forall h | 0 <= h < j :: !SameConfig(fs, candidates[h].config, c.config)
      {
        var owner := candidates[j];
        assert SamePair(candidates, j, i, owner, c);
        if owner.config == c.config || SameFile(fs, owner.config, c.config)
           || (fs.fold(owner.config) == fs.fold(c.config) && Equivalent(fs, owner.config, c.config)) {
          return Some(DuplicateConfig(owner, c));
        }
        j := j + 1;
      }
      i := i + 1;
    }
    return None;
  }

  /** The first i candidates are sorted into those whose database exists and those whose does not, and none clash. */
  ghost predicate Compared(fs: FileSystem, candidates: seq<Candidate>, i: nat, existing: seq<Candidate>, missing: seq<Candidate>) {
    && i <= |candidates|
    && (forall j | 0 <= j < i :: fs.id(candidates[j].database) != Unreadable)
    && (forall j | 0 <= j < i :: candidates[j] in (if fs.id(candidates[j].database).Existing? then existing else missing))
    && (forall c | c in existing :: c in candidates[..i] && fs.id(c.database).Existing?)
    && (forall c | c in missing :: c in candidates[..i] && fs.id(c.database).Missing?)
    && (forall h, j | 0 <= h < j < i :: !Equivalent(fs, candidates[h].database, candidates[j].database))
  }

  lemma ComparedNext(fs: FileSystem, candidates: seq<Candidate>, i: nat, existing: seq<Candidate>, missing: seq<Candidate>)
    requires Compared(fs, candidates, i, existing, missing) && i < |candidates| && fs.id(candidates[i].database) != Unreadable
    requires forall o | o in (if fs.id(candidates[i].database).Existing? then existing else missing) ::
               !Equivalent(fs, o.database, candidates[i].database)
    ensures if fs.id(candidates[i].database).Existing? then Compared(fs, candidates, i + 1, existing + [candidates[i]], missing)
            else Compared(fs, candidates, i + 1, existing, missing + [candidates[i]])
  {
    assert candidates[..i + 1] == candidates[..i] + [candidates[i]];
    forall h | 0 <= h < i ensures !Equivalent(fs, candidates[h].database, candidates[i].database) {
      assert candidates[h] in (if fs.id(candidates[h].database).Existing? then existing else missing);
    }
  }

  lemma ClashIsDuplicate(fs: FileSystem, candidates: seq<Candidate>, i: nat, owner: Candidate)
    requires i < |candidates| && owner in candidates[..i] && Equivalent(fs, owner.database, candidates[i].database)
    ensures Justified(fs, candidates, DuplicateDatabase(owner, candidates[i]))
  {
    var k :| 0 <= k < i && candidates[..i][k] == owner;
    assert SamePair(candidates, k, i, owner, candidates[i]);
  }

  /** validateDatabaseCandidates: existing databases are compared as files, missing ones by name. */
  method ValidateDatabaseCandidates(fs: FileSystem, candidates: seq<Candidate>) returns (e: Option<CheckError>)
    ensures e.None? ==> forall i | 0 <= i < |candidates| :: fs.id(candidates[i].database) != Unreadable
    ensures e.None? ==> forall i, j | 0 <= i < j < |candidates| :: !Equivalent(fs, candidates[i].database, candidates[j].database)
    ensures e.Some? ==> Justified(fs, candidates, e.value)
  {
    var existing: seq<Candidate>, missing: seq<Candidate> := [], [];
    var i := 0;
    while i < |candidates|
      invariant 0 <= i <= |candidates| && Compared(fs, candidates, i, existing, missing)
    {
      var c := candidates[i];
      var info := fs.id(c.database);
      if info.Unreadable? {
        return Some(CannotInspect(c.database));
      }
      var clash := FindDatabase(fs, c, if info.Existing? then existing else missing);
      if clash.Some? {
        ClashIsDuplicate(fs, candidates, i, clash.value);
        return Some(DuplicateDatabase(clash.value, c));
      }
      ComparedNext(fs, candidates, i, existing, missing);
      if info.Existing? {
        existing := existing + [c];
      } else {
        missing := missing + [c];
      }
      i := i + 1;
    }
    return None;
  }

  method FindDatabase(fs: FileSystem, c: Candidate, owners: seq<Candidate>) returns (clash: Option<Candidate>)
    ensures clash.None? ==> forall o | o in owners :: !Equivalent(fs, o.database, c.database)
    ensures clash.Some? ==> clash.value in owners && Equivalent(fs, clash.value.database, c.database)
  {
    var j := 0;
    while j < |owners|
      invariant 0 <= j <= |owners|
      invariant forall h | 0 <= h < j :: !Equivalent(fs, owners[h].database, c.database)
    {
      if Equivalent(fs, owners[j].database, c.database) {
        return Some(owners[j]);
      }
      j := j + 1;
    }
    return None;
  }

  datatype Owner = Free | OwnedBy(id: string) | Unknown(path: string)

  /** activeConfigOwner; the map is visited in any order. */
  method ActiveConfigOwner(fs: FileSystem, path: string, active: map<string, string>) returns (owner: Owner)
    ensures owner.Free? ==> forall p | p in active :: !SameConfig(fs, path, p)
    ensures owner.OwnedBy? ==> exists p | p in active :: active[p] == owner.id && SameConfig(fs, path, p)
    ensures owner.Unknown? ==> fs.id(owner.path) == Unreadable && (owner.path == path || owner.path in active)
  {
    if path in active {
      return OwnedBy(active[path]);
    }
    if fs.id(path) == Unreadable {
      return Unknown(path);
    }
    var rest := active.Keys;
    while rest != {}
      invariant rest <= active.Keys
      invariant forall p | p in active && p !in rest :: !SameConfig(fs, path, p)
    {
      var p :| p in rest;
      if fs.id(path).Existing? {
        if fs.id(p) == Unreadable {
          return Unknown(p);
        }
        if SameFile(fs, path, p) {
          return OwnedBy(active[p]);
        }
      }
      if fs.fold(path) == fs.fold(p) {
        if fs.id(p) == Unreadable {
          return Unknown(p);
        }
        if Equivalent(fs, path, p) {
          return OwnedBy(active[p]);
        }
      }
      rest := rest - {p};
    }
    return Free;
  }

  /** activeDatabaseOwner. */
  method ActiveDatabaseOwner(fs: FileSystem, path: string, active: map<string, string>) returns (owner: Owner)
    ensures owner.Free? ==> forall p | p in active :: !Equivalent(fs, path, p)
    ensures owner.OwnedBy? ==> exists p | p in active :: active[p] == owner.id && Equivalent(fs, path, p)
    ensures owner.Unknown? ==> fs.id(owner.path) == Unreadable && (owner.path == path || owner.path in active)
  {
    if path in active {
      return OwnedBy(active[path]);
    }
    if fs.id(path) == Unreadable {
      return Unknown(path);
    }
    var rest := active.Keys;
    while rest != {}
      invariant rest <= active.Keys
      invariant forall p | p in active && p !in rest :: !Equivalent(fs, path, p)
    {
      var p :| p in rest;
      if fs.id(p) == Unreadable {
        return Unknown(p);
      }
      if SameFile(fs, path, p) || Equivalent(fs, path, p) {
        return OwnedBy(active[p]);
      }
      rest := rest - {p};
    }
    return Free;
  }

  /** validateActiveCandidates. */
  method ValidateActiveCandidates(fs: FileSystem, candidates: seq<Candidate>, configs: map<string, string>, databases: map<string, string>)
    returns (e: Option<CheckError>)
    ensures e.None? ==> AllClear(fs, candidates, configs, databases)
    ensures e.Some? && e.value.AlreadyActive? ==>
              e.value.candidate in candidates && Holds(fs, e.value.id, e.value.candidate, configs, databases)
    ensures e.Some? ==> e.value.AlreadyActive? || (e.value.CannotInspect? && CannotSee(fs, e.value.path, candidates, configs, databases))
  {
    var i := 0;
    while i < |candidates|
      invariant 0 <= i <= |candidates|
      invariant forall j | 0 <= j < i :: Clear(fs, candidates[j], configs, databases)
    {
      var c := candidates[i];
      var owner := ActiveConfigOwner(fs, c.config, configs);
      if owner.Unknown? {
        return Some(CannotInspect(owner.path));
      }
      if owner.OwnedBy? {
        return Some(AlreadyActive(c, owner.id));
      }
      owner := ActiveDatabaseOwner(fs, c.database, databases);
      if owner.Unknown? {
        return Some(CannotInspect(owner.path));
      }
      if owner.OwnedBy? {
        return Some(AlreadyActive(c, owner.id));
      }
      i := i + 1;
    }
    return None;
  }

  /** The path is one of a candidate or an active one, and it is unreadable. */
  ghost predicate CannotSee(fs: FileSystem, path: string, candidates: seq<Candidate>, configs: map<string, string>, databases: map<string, string>) {
    fs.id(path) == Unreadable && (OfCandidate(candidates, path) || path in configs || path in databases)
  }

  /** The instance with this ID holds the candidate's config file or its database. */
  ghost predicate Holds(fs: FileSystem, id: string, c: Candidate, configs: map<string, string>, databases: map<string, string>) {
    || (exists p | p in configs :: configs[p] == id && SameConfig(fs, c.config, p))
    || (exists p | p in databases :: databases[p] == id && Equivalent(fs, c.database, p))
  }
}
