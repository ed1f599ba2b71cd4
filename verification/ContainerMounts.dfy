/**
 * Bind mounts in a container invocation: reading the values of --mount and --volume, writing --mount, and the
 * law that a written mount reads back.
 */
module ContainerMounts {
  import opened Text
  import Csv

  datatype Mount = Mount(source: string, target: string, options: seq<string>)

  // ---- Fields of a --mount value ----

  function KeyOf(field: string): string { field[..IndexOf(field, '=')] }

  predicate HasValue(field: string) { IndexOf(field, '=') < |field| }

  /** strings.Cut's text after the first "=". */
  function ValueOf(field: string): string {
    if HasValue(field) then field[IndexOf(field, '=') + 1..] else ""
  }

  datatype FieldKind = TypeField | SourceField | TargetField | OptionField

  function KindOf(key: string): FieldKind {
    if key == "type" then TypeField
    else if key == "source" || key == "src" then SourceField
    else if key == "target" || key == "destination" || key == "dest" || key == "dst" then TargetField
    else OptionField
  }

  predicate IsAbs(path: string) { path != "" && path[0] == '/' }

  /** containerMountTargetCanBeAbsolute and containerTargetCanBeAbsolute. */
  predicate CanBeAbsolute(target: string) { IsAbs(target) || "{{file}}" <= target || "{{dir}}" <= target }

  predicate HasNul(s: string) { exists i | 0 <= i < |s| :: s[i] == '\0' }

  predicate FieldOk(field: string) {
    match KindOf(KeyOf(field))
    case TypeField => HasValue(field) && ValueOf(field) == "bind"
    case SourceField => HasValue(field) && !Blank(ValueOf(field))
    case TargetField => HasValue(field) && CanBeAbsolute(ValueOf(field))
    case OptionField => !Blank(field) && !Blank(KeyOf(field)) && !HasNul(field)
  }

  /** The fields of one kind, in order. */
  function OfKind(fields: seq<string>, kind: FieldKind): seq<string> {
    if fields == [] then []
    else
      var n := |fields| - 1;
      OfKind(fields[..n], kind) + (if KindOf(KeyOf(fields[n])) == kind then [fields[n]] else [])
  }

  /** A bind mount has acceptable fields only, among them exactly one type, one source and one target. */
  predicate IsBindMount(fields: seq<string>) {
    && (forall f | f in fields :: FieldOk(f))
    && |OfKind(fields, TypeField)| == 1 && |OfKind(fields, SourceField)| == 1 && |OfKind(fields, TargetField)| == 1
  }

  function LongMount(fields: seq<string>): Option<Mount> {
    if IsBindMount(fields) then
      Some(Mount(ValueOf(OfKind(fields, SourceField)[0]), ValueOf(OfKind(fields, TargetField)[0]),
                 OfKind(fields, OptionField)))
    else None
  }

  function LongBindMount(specification: string): Option<Mount> {
    var records := Csv.ReadAll(specification);
    if records.None? || |records.value| != 1 then None else LongMount(records.value[0])
  }

  lemma {:induction false} OfKindGrows(fields: seq<string>, n: nat, kind: FieldKind)
    requires n <= |fields|
    ensures |OfKind(fields[..n], kind)| <= |OfKind(fields, kind)|
    decreases |fields|
  {
    if n == |fields| {
      assert fields[..n] == fields;
    } else {
      var m := |fields| - 1;
      assert fields[..m][..n] == fields[..n];
      OfKindGrows(fields[..m], n, kind);
    }
  }

  lemma OfKindNext(fields: seq<string>, i: nat, kind: FieldKind)
    requires i < |fields|
    ensures OfKind(fields[..i + 1], kind) ==
            OfKind(fields[..i], kind) + (if KindOf(KeyOf(fields[i])) == kind then [fields[i]] else [])
  {
    assert fields[..i + 1][..i] == fields[..i];
  }

  lemma {:induction false} KindsPartition(fields: seq<string>)
    ensures |fields| == |OfKind(fields, TypeField)| + |OfKind(fields, SourceField)|
                        + |OfKind(fields, TargetField)| + |OfKind(fields, OptionField)|
  {
    if fields != [] {
      KindsPartition(fields[..|fields| - 1]);
    }
  }

  /** Nothing of a --mount record is lost: it is a type, a source, a target and the options, in some order. */
  lemma RecordSaysTheMount(fields: seq<string>) returns (t: string, s: string, d: string)
    requires LongMount(fields).Some?
    ensures var options := LongMount(fields).value.options;
            |fields| == 3 + |options| && forall f :: f in fields <==> f == t || f == s || f == d || f in options
    ensures KindOf(KeyOf(t)).TypeField? && ValueOf(t) == "bind"
    ensures KindOf(KeyOf(s)).SourceField? && ValueOf(s) == LongMount(fields).value.source
    ensures KindOf(KeyOf(d)).TargetField? && ValueOf(d) == LongMount(fields).value.target
  {
    t, s, d := OfKind(fields, TypeField)[0], OfKind(fields, SourceField)[0], OfKind(fields, TargetField)[0];
    KindsPartition(fields);
    assert OfKind(fields, TypeField) == [t] && OfKind(fields, SourceField) == [s] && OfKind(fields, TargetField) == [d];
    forall f ensures f in fields <==> f == t || f == s || f == d || f in OfKind(fields, OptionField) {
      MemberOfMount(fields, f, t, s, d);
    }
    OfKindMembers(fields, t, TypeField);
    OfKindMembers(fields, s, SourceField);
    OfKindMembers(fields, d, TargetField);
  }

  lemma MemberOfMount(fields: seq<string>, f: string, t: string, s: string, d: string)
    requires OfKind(fields, TypeField) == [t] && OfKind(fields, SourceField) == [s] && OfKind(fields, TargetField) == [d]
    ensures f in fields <==> f == t || f == s || f == d || f in OfKind(fields, OptionField)
  {
    OfKindMembers(fields, f, TypeField);
    OfKindMembers(fields, f, SourceField);
    OfKindMembers(fields, f, TargetField);
    OfKindMembers(fields, f, OptionField);
    assert f == t || f == s || f == d ==> f in [t] || f in [s] || f in [d];
    assert t in OfKind(fields, TypeField) && s in OfKind(fields, SourceField) && d in OfKind(fields, TargetField);
  }

  lemma {:induction false} OfKindMembers(fields: seq<string>, f: string, kind: FieldKind)
    ensures f in OfKind(fields, kind) <==> f in fields && KindOf(KeyOf(f)) == kind
  {
    if fields != [] {
      OfKindMembers(fields[..|fields| - 1], f, kind);
      assert fields == fields[..|fields| - 1] + [fields[|fields| - 1]];
    }
  }

  /** What parseLongBindMount has seen after a prefix of the fields. */
  ghost predicate Seen(fields: seq<string>, mount: Mount, hasType: bool, hasSource: bool, hasTarget: bool) {
    && (forall f | f in fields :: FieldOk(f))
    && |OfKind(fields, TypeField)| == (if hasType then 1 else 0)
    && OfKind(fields, OptionField) == mount.options
    && (if hasSource then |OfKind(fields, SourceField)| == 1 && ValueOf(OfKind(fields, SourceField)[0]) == mount.source
        else OfKind(fields, SourceField) == [])
    && (if hasTarget then |OfKind(fields, TargetField)| == 1 && ValueOf(OfKind(fields, TargetField)[0]) == mount.target
        else OfKind(fields, TargetField) == [])
  }

  /** parseLongBindMount. */
  method ParseLongBindMount(specification: string) returns (r: Option<Mount>)
    ensures r == LongBindMount(specification)
  {
    var records := Csv.ReadAll(specification);
    if records.None? || |records.value| != 1 {
      return None;
    }
    r := ParseMountFields(records.value[0]);
  }

  /** The loop over the fields of the record. */
  method ParseMountFields(fields: seq<string>) returns (r: Option<Mount>)
    ensures r == LongMount(fields)
  {
    var mount := Mount("", "", []);
    var hasType, hasSource, hasTarget := false, false, false;
    var i := 0;
    while i < |fields|
      invariant 0 <= i <= |fields|
      invariant Seen(fields[..i], mount, hasType, hasSource, hasTarget)
    {
      var failed;
      failed, mount, hasType, hasSource, hasTarget := ParseMountField(fields, i, mount, hasType, hasSource, hasTarget);
      if failed {
        return None;
      }
      i := i + 1;
    }
    assert fields[..i] == fields;
    if !hasType || !hasSource || !hasTarget {
      return None;
    }
    return Some(mount);
  }

  /** The body of the loop. */
  method ParseMountField(fields: seq<string>, i: nat, before: Mount, hadType: bool, hadSource: bool, hadTarget: bool)
    returns (failed: bool, mount: Mount, hasType: bool, hasSource: bool, hasTarget: bool)
    requires i < |fields| && Seen(fields[..i], before, hadType, hadSource, hadTarget)
    ensures if failed then LongMount(fields).None? else Seen(fields[..i + 1], mount, hasType, hasSource, hasTarget)
  {
    var rawField := fields[i];
    var key, value, hasValue := KeyOf(rawField), ValueOf(rawField), HasValue(rawField);
    failed, mount, hasType, hasSource, hasTarget := false, before, hadType, hadSource, hadTarget;
    match KindOf(key) {
      case TypeField =>
        TypeSeen(fields, i, before, hadType, hadSource, hadTarget);
        failed := hasType || !hasValue || value != "bind";
        hasType := true;
      case SourceField =>
        SourceSeen(fields, i, before, hadType, hadSource, hadTarget);
        failed := hasSource || !hasValue || Blank(value);
        mount := mount.(source := value);
        hasSource := true;
      case TargetField =>
        TargetSeen(fields, i, before, hadType, hadSource, hadTarget);
        failed := hasTarget || !hasValue || !CanBeAbsolute(value);
        mount := mount.(target := value);
        hasTarget := true;
      case OptionField =>
        OptionSeen(fields, i, before, hadType, hadSource, hadTarget);
        failed := Blank(rawField) || Blank(key) || HasNul(rawField);
        mount := mount.(options := mount.options + [rawField]);
    }
  }

  // What one more field means, by its kind.

  lemma TypeSeen(fields: seq<string>, i: nat, mount: Mount, hasType: bool, hasSource: bool, hasTarget: bool)
    requires i < |fields| && Seen(fields[..i], mount, hasType, hasSource, hasTarget) && KindOf(KeyOf(fields[i])).TypeField?
    ensures if hasType || !FieldOk(fields[i]) then LongMount(fields).None?
            else Seen(fields[..i + 1], mount, true, hasSource, hasTarget)
  {
    NextField(fields, i);
  }

  lemma SourceSeen(fields: seq<string>, i: nat, mount: Mount, hasType: bool, hasSource: bool, hasTarget: bool)
    requires i < |fields| && Seen(fields[..i], mount, hasType, hasSource, hasTarget) && KindOf(KeyOf(fields[i])).SourceField?
    ensures if hasSource || !FieldOk(fields[i]) then LongMount(fields).None?
            else Seen(fields[..i + 1], mount.(source := ValueOf(fields[i])), hasType, true, hasTarget)
  {
    NextField(fields, i);
  }

  lemma TargetSeen(fields: seq<string>, i: nat, mount: Mount, hasType: bool, hasSource: bool, hasTarget: bool)
    requires i < |fields| && Seen(fields[..i], mount, hasType, hasSource, hasTarget) && KindOf(KeyOf(fields[i])).TargetField?
    ensures if hasTarget || !FieldOk(fields[i]) then LongMount(fields).None?
            else Seen(fields[..i + 1], mount.(target := ValueOf(fields[i])), hasType, hasSource, true)
  {
    NextField(fields, i);
  }

  lemma OptionSeen(fields: seq<string>, i: nat, mount: Mount, hasType: bool, hasSource: bool, hasTarget: bool)
    requires i < |fields| && Seen(fields[..i], mount, hasType, hasSource, hasTarget) && KindOf(KeyOf(fields[i])).OptionField?
    ensures if !FieldOk(fields[i]) then LongMount(fields).None?
            else Seen(fields[..i + 1], mount.(options := mount.options + [fields[i]]), hasType, hasSource, hasTarget)
  {
    NextField(fields, i);
  }

  lemma NextField(fields: seq<string>, i: nat)
    requires i < |fields|
    ensures forall k :: OfKind(fields[..i + 1], k) ==
                        OfKind(fields[..i], k) + (if KindOf(KeyOf(fields[i])) == k then [fields[i]] else [])
    ensures forall k :: |OfKind(fields[..i + 1], k)| <= |OfKind(fields, k)|
    ensures forall f :: f in fields[..i + 1] <==> f in fields[..i] || f == fields[i]
    ensures fields[i] in fields
  {
    forall k
      ensures OfKind(fields[..i + 1], k) == OfKind(fields[..i], k) + (if KindOf(KeyOf(fields[i])) == k then [fields[i]] else [])
    {
      OfKindNext(fields, i, k);
    }
    forall k ensures |OfKind(fields[..i + 1], k)| <= |OfKind(fields, k)| {
      OfKindGrows(fields, i + 1, k);
    }
    assert fields[..i + 1] == fields[..i] + [fields[i]];
  }

  // ---- --volume ----

  /** strings.Split(s, ":"). */
  function SplitColons(s: string): (parts: seq<string>)
    ensures parts != []
    decreases |s|
  {
    var i := IndexOf(s, ':');
    if i == |s| then [s] else [s[..i]] + SplitColons(s[i + 1..])
  }

  /** hostVolumeSourceLooksLikePath. */
  predicate LooksLikePath(source: string) {
    IsAbs(source) || "." <= source || "{{file}}" <= source || "{{dir}}" <= source
  }

  /** parseVolumeBindMount. */
  function VolumeBindMount(specification: string): (r: Option<Mount>)
    ensures r.Some? ==> LooksLikePath(r.value.source) && CanBeAbsolute(r.value.target)
    ensures r.Some? ==> r.value.options == [] || r.value.options == ["ro"]
  {
    var parts := SplitColons(specification);
    if |parts| < 2 || |parts| > 3 || !LooksLikePath(parts[0]) || !CanBeAbsolute(parts[1]) then None
    else if |parts| == 2 || parts[2] == "rw" then Some(Mount(parts[0], parts[1], []))
    else if parts[2] == "ro" then Some(Mount(parts[0], parts[1], ["ro"]))
    else None
  }

  /** Nothing of a --volume value is lost: it is the source, the target and at most "ro" or the default "rw". */
  lemma VolumeSaysTheMount(specification: string)
    requires VolumeBindMount(specification).Some?
    ensures var m := VolumeBindMount(specification).value;
            if specification == m.source + ":" + m.target || specification == m.source + ":" + m.target + ":rw"
            then m.options == [] else specification == m.source + ":" + m.target + ":ro" && m.options == ["ro"]
  {
    var p, m := SplitColons(specification), VolumeBindMount(specification).value;
    SplitColonsJoins(specification);
    if |p| == 3 {
      ModeIsLast(m.source + ":" + m.target, p[2]);
    }
  }

  lemma ModeIsLast(written: string, mode: string)
    requires mode == "ro" || mode == "rw"
    ensures written + ":" + mode == if mode == "ro" then written + ":ro" else written + ":rw"
    ensures written + ":" + mode != written && written + ":ro" != written + ":rw"
  {
    assert written + ":" + "ro" == written + ":ro" && written + ":" + "rw" == written + ":rw";
    assert |written + ":" + mode| == |written| + 3;
    assert (written + ":ro")[|written| + 2] == 'o' && (written + ":rw")[|written| + 2] == 'w';
  }

  lemma SplitColonsJoins(s: string)
    ensures var p := SplitColons(s);
            && (|p| == 2 ==> s == p[0] + ":" + p[1])
            && (|p| == 3 ==> s == p[0] + ":" + p[1] + ":" + p[2])
  {
    var i := IndexOf(s, ':');
    if i < |s| {
      CutAt(s, i);
      var p, rest := SplitColons(s), SplitColons(s[i + 1..]);
      assert p == [s[..i]] + rest;
      if |p| == 3 {
        TwoColons(s[..i], rest[0], rest[1], s[i + 1..]);
      }
      TwoPartsJoin(s[i + 1..]);
    }
  }

  lemma TwoPartsJoin(s: string)
    ensures var p := SplitColons(s); (|p| == 1 ==> s == p[0]) && (|p| == 2 ==> s == p[0] + ":" + p[1])
  {
    var i := IndexOf(s, ':');
    if i < |s| {
      CutAt(s, i);
    }
  }

  lemma TwoColons(a: string, b: string, c: string, rest: string)
    ensures rest == b + ":" + c ==> a + ":" + rest == a + ":" + b + ":" + c
  {
    assert a + ":" + (b + ":" + c) == a + ":" + b + ":" + c;
  }

  lemma CutAt(s: string, i: nat)
    requires i < |s| && s[i] == ':'
    ensures s == s[..i] + ":" + s[i + 1..]
  {
  }

  lemma NoColonIsOnePart(s: string)
    requires ':' !in s
    ensures SplitColons(s) == [s]
  {
  }

  lemma ColonEndsAPart(part: string, rest: string)
    requires ':' !in part
    ensures SplitColons(part + ":" + rest) == [part] + SplitColons(rest)
  {
    var s := part + ":" + rest;
    assert s[|part|] == ':' && s[..|part|] == part && s[|part| + 1..] == rest;
    assert forall i | 0 <= i < |part| :: s[i] == part[i];
  }

  /** The sources and targets that make a --volume value a bind mount. */
  predicate BindsAPath(source: string, target: string) {
    && source != "" && (source[0] == '/' || source[0] == '.' || "{{file}}" <= source || "{{dir}}" <= source)
    && target != "" && (target[0] == '/' || "{{file}}" <= target || "{{dir}}" <= target)
  }

  lemma BindsWhatLooksRight(source: string, target: string)
    ensures BindsAPath(source, target) <==> LooksLikePath(source) && CanBeAbsolute(target)
  {
  }

  /** Conversely, every value of these forms is read, and a third part other than "ro" and "rw" is not. */
  lemma VolumesAreRead(source: string, target: string, mode: string)
    requires ':' !in source && ':' !in target && ':' !in mode
    ensures VolumeBindMount(source + ":" + target) == if BindsAPath(source, target) then Some(Mount(source, target, [])) else None
    ensures VolumeBindMount(source + ":" + (target + ":" + mode)) ==
            if BindsAPath(source, target) && mode == "rw" then Some(Mount(source, target, []))
            else if BindsAPath(source, target) && mode == "ro" then Some(Mount(source, target, ["ro"]))
            else None
  {
    BindsWhatLooksRight(source, target);
    NoColonIsOnePart(target);
    ColonEndsAPart(source, target);
    TwoPartsDecide(source + ":" + target, source, target);
    NoColonIsOnePart(mode);
    ColonEndsAPart(target, mode);
    ColonEndsAPart(source, target + ":" + mode);
    ThreePartsDecide(source + ":" + (target + ":" + mode), source, target, mode);
  }

  lemma TwoPartsDecide(specification: string, source: string, target: string)
    requires SplitColons(specification) == [source] + [target]
    ensures VolumeBindMount(specification) ==
            if LooksLikePath(source) && CanBeAbsolute(target) then Some(Mount(source, target, [])) else None
  {
  }

  lemma ThreePartsDecide(specification: string, source: string, target: string, mode: string)
    requires SplitColons(specification) == [source] + ([target] + [mode])
    ensures VolumeBindMount(specification) ==
            if LooksLikePath(source) && CanBeAbsolute(target) && mode == "rw" then Some(Mount(source, target, []))
            else if LooksLikePath(source) && CanBeAbsolute(target) && mode == "ro" then Some(Mount(source, target, ["ro"]))
            else None
  {
  }

  // ---- Writing a mount, and reading it back ----

  /** The checks of validateStructuredContainer on one mount. */
  predicate ValidMount(m: Mount) {
    && !Blank(m.source) && !Blank(m.target) && CanBeAbsolute(m.target)
    && forall o | o in m.options :: !Blank(o) && !HasNul(o) && !Blank(KeyOf(o)) && KindOf(KeyOf(o)).OptionField?
  }

  function Field(key: string, value: string): string { key + "=" + value }

  function MountFields(m: Mount): seq<string> {
    [Field("type", "bind"), Field("source", m.source), Field("target", m.target)] + m.options
  }

  function FormatBindMount(m: Mount): string { Csv.WriteRecord(MountFields(m)) }

  /** The mount with LF for every CR LF in its texts. */
  function WithoutPairs(m: Mount): Mount {
    Mount(Csv.DropPairs(m.source), Csv.DropPairs(m.target), Csv.DropAll(m.options))
  }

  lemma {:induction false} KindsOfOptions(options: seq<string>, kind: FieldKind)
    requires forall o | o in options :: KindOf(KeyOf(o)).OptionField?
    ensures OfKind(options, kind) == if kind.OptionField? then options else []
  {
    if options != [] {
      var n := |options| - 1;
      KindsOfOptions(options[..n], kind);
      assert options == options[..n] + [options[n]];
    }
  }

  lemma {:induction false} OfKindJoins(a: seq<string>, b: seq<string>, kind: FieldKind)
    ensures OfKind(a + b, kind) == OfKind(a, kind) + OfKind(b, kind)
  {
    if b == [] {
      assert a + b == a;
    } else {
      var n := |b| - 1;
      assert (a + b)[..|a + b| - 1] == a + b[..n];
      OfKindJoins(a, b[..n], kind);
    }
  }

  lemma CutField(key: string, value: string)
    requires forall i | 0 <= i < |key| :: key[i] != '='
    ensures var f := Field(key, value); KeyOf(f) == key && HasValue(f) && ValueOf(f) == value
  {
    var field := Field(key, value);
    assert field[|key|] == '=';
    assert forall i | 0 <= i < |key| :: field[i] == key[i];
    assert IndexOf(field, '=') == |key|;
  }

  lemma OfKindOne(f: string, kind: FieldKind)
    ensures OfKind([f], kind) == if KindOf(KeyOf(f)) == kind then [f] else []
  {
    assert [f][..0] == [];
  }

  lemma KindsOfThree(t: string, s: string, d: string, kind: FieldKind)
    requires KindOf(KeyOf(t)).TypeField? && KindOf(KeyOf(s)).SourceField? && KindOf(KeyOf(d)).TargetField?
    ensures OfKind([t, s, d], kind) ==
            match kind case TypeField => [t] case SourceField => [s] case TargetField => [d] case OptionField => []
  {
    assert [t, s, d] == [t] + ([s] + [d]);
    OfKindJoins([t], [s] + [d], kind);
    OfKindJoins([s], [d], kind);
    OfKindOne(t, kind);
    OfKindOne(s, kind);
    OfKindOne(d, kind);
  }

  lemma KindsOfFields(t: string, s: string, d: string, options: seq<string>, kind: FieldKind)
    requires KindOf(KeyOf(t)).TypeField? && KindOf(KeyOf(s)).SourceField? && KindOf(KeyOf(d)).TargetField?
    requires OfKind(options, kind) == if kind.OptionField? then options else []
    ensures OfKind([t, s, d] + options, kind) ==
            match kind case TypeField => [t] case SourceField => [s] case TargetField => [d] case OptionField => options
  {
    OfKindJoins([t, s, d], options, kind);
    KindsOfThree(t, s, d, kind);
  }

  /** The fields of a valid mount are read as that mount. */
  lemma FieldsReadBack(m: Mount)
    requires ValidMount(m)
    ensures LongMount(MountFields(m)) == Some(m)
  {
    var t, s, d := Field("type", "bind"), Field("source", m.source), Field("target", m.target);
    CutField("type", "bind");
    CutField("source", m.source);
    CutField("target", m.target);
    LabelledFieldsReadBack(m, t, s, d);
  }

  lemma AllFieldsOk(t: string, s: string, d: string, options: seq<string>)
    requires FieldOk(t) && FieldOk(s) && FieldOk(d) && forall o | o in options :: FieldOk(o)
    ensures forall f | f in [t, s, d] + options :: FieldOk(f)
  {
    forall f | f in [t, s, d] + options ensures FieldOk(f) {
      assert f == t || f == s || f == d || f in options;
    }
  }

  lemma LabelledFieldsReadBack(m: Mount, t: string, s: string, d: string)
    requires ValidMount(m) && KindOf(KeyOf(t)).TypeField? && HasValue(t) && ValueOf(t) == "bind"
    requires KindOf(KeyOf(s)).SourceField? && HasValue(s) && ValueOf(s) == m.source
    requires KindOf(KeyOf(d)).TargetField? && HasValue(d) && ValueOf(d) == m.target
    ensures LongMount([t, s, d] + m.options) == Some(m)
  {
    var fields := [t, s, d] + m.options;
    AllFieldsOk(t, s, d, m.options);
    forall kind ensures OfKind(m.options, kind) == if kind.OptionField? then m.options else [] {
      KindsOfOptions(m.options, kind);
    }
    KindsOfFields(t, s, d, m.options, TypeField);
    KindsOfFields(t, s, d, m.options, SourceField);
    KindsOfFields(t, s, d, m.options, TargetField);
    KindsOfFields(t, s, d, m.options, OptionField);
    Assemble(fields, t, s, d, m.options);
  }

  lemma Assemble(fields: seq<string>, t: string, s: string, d: string, options: seq<string>)
    requires forall f | f in fields :: FieldOk(f)
    requires OfKind(fields, TypeField) == [t] && OfKind(fields, SourceField) == [s]
    requires OfKind(fields, TargetField) == [d] && OfKind(fields, OptionField) == options
    ensures LongMount(fields) == Some(Mount(ValueOf(s), ValueOf(d), options))
  {
  }

  /** Every spelling of the source and target keys is read as the same mount. */
  lemma EverySpellingIsRead(m: Mount, sourceKey: string, targetKey: string)
    requires ValidMount(m) && (sourceKey == "source" || sourceKey == "src")
    requires targetKey == "target" || targetKey == "destination" || targetKey == "dest" || targetKey == "dst"
    ensures LongMount([Field("type", "bind"), Field(sourceKey, m.source), Field(targetKey, m.target)] + m.options) == Some(m)
  {
    CutField("type", "bind");
    SpellingIsKnown(sourceKey);
    SpellingIsKnown(targetKey);
    CutField(sourceKey, m.source);
    CutField(targetKey, m.target);
    LabelledFieldsReadBack(m, Field("type", "bind"), Field(sourceKey, m.source), Field(targetKey, m.target));
  }

  lemma SpellingIsKnown(key: string)
    requires key in ["source", "src", "target", "destination", "dest", "dst"]
    ensures forall i | 0 <= i < |key| :: key[i] != '='
    ensures KindOf(key) == if key == "source" || key == "src" then SourceField else TargetField
  {
  }

  // ---- Dropping CR LF keeps a mount valid ----

  lemma BlankCons(c: char, t: string)
    ensures Blank([c] + t) <==> IsSpace(c) && Blank(t)
  {
    var s := [c] + t;
    assert forall i | 0 <= i < |t| :: t[i] == s[i + 1];
    assert s[0] == c;
  }

  lemma {:induction false} DropPairsKeepsBlank(s: string)
    ensures Blank(Csv.DropPairs(s)) <==> Blank(s)
  {
    if s != "" {
      var c, t := s[0], s[1..];
      assert s == [c] + t;
      DropPairsKeepsBlank(t);
      BlankCons(c, t);
      BlankCons(c, Csv.DropPairs(t));
    }
  }

  lemma {:induction false} DropPairsKeepsPrefix(s: string, prefix: string)
    requires prefix <= s && forall i | 0 <= i < |prefix| :: prefix[i] != '\r'
    ensures prefix <= Csv.DropPairs(s)
  {
    if prefix != "" {
      assert prefix[1..] <= s[1..];
      DropPairsKeepsPrefix(s[1..], prefix[1..]);
      assert prefix == [s[0]] + prefix[1..];
    }
  }

  lemma {:induction false} DropPairsKeepsChars(s: string)
    ensures forall c | c in Csv.DropPairs(s) :: c in s
    ensures '\n' in s ==> '\n' in Csv.DropPairs(s)
  {
    if s != "" {
      DropPairsKeepsChars(s[1..]);
    }
  }

  /** Cutting at "=" and dropping CR LF can be done in either order. */
  lemma KeyOfDropPairs(s: string)
    ensures KeyOf(Csv.DropPairs(s)) == Csv.DropPairs(KeyOf(s))
  {
    var n := IndexOf(s, '=');
    var key, rest := s[..n], s[n..];
    assert s == key + rest;
    Csv.DropPairsApart(key, rest);
    DropPairsKeepsChars(key);
    var r := Csv.DropPairs(key);
    assert forall i | 0 <= i < |r| :: r[i] in r && r[i] in key;
    if rest == "" {
      assert Csv.DropPairs(rest) == "" && Csv.DropPairs(s) == r;
    } else {
      assert Csv.DropPairs(rest)[0] == '=';
      assert Csv.DropPairs(s)[|r|] == '=';
    }
    assert forall i | 0 <= i < |r| :: Csv.DropPairs(s)[i] == r[i];
    assert IndexOf(Csv.DropPairs(s), '=') == |r|;
  }

  /** A key that loses a CR LF still contains LF, so it does not become a reserved one. */
  lemma DropPairsKeepsKind(key: string)
    requires KindOf(key).OptionField?
    ensures KindOf(Csv.DropPairs(key)).OptionField?
  {
    Csv.DropPairsFixes(key);
    if Csv.DropPairs(key) != key {
      assert '\n' in key;
      DropPairsKeepsChars(key);
      assert '\n' in Csv.DropPairs(key);
    }
  }

  lemma WithoutPairsStaysValid(m: Mount)
    requires ValidMount(m)
    ensures ValidMount(WithoutPairs(m))
  {
    DropPairsKeepsBlank(m.source);
    DropPairsKeepsBlank(m.target);
    DropPairsKeepsAbsolute(m.target);
    forall o | o in Csv.DropAll(m.options)
      ensures !Blank(o) && !HasNul(o) && !Blank(KeyOf(o)) && KindOf(KeyOf(o)).OptionField?
    {
      var i :| 0 <= i < |m.options| && o == Csv.DropPairs(m.options[i]);
      OptionStaysValid(m.options[i]);
    }
  }

  lemma DropPairsKeepsAbsolute(target: string)
    requires CanBeAbsolute(target)
    ensures CanBeAbsolute(Csv.DropPairs(target))
  {
    if IsAbs(target) {
      assert "/" <= target;
      DropPairsKeepsPrefix(target, "/");
    } else if "{{file}}" <= target {
      DropPairsKeepsPrefix(target, "{{file}}");
    } else {
      DropPairsKeepsPrefix(target, "{{dir}}");
    }
  }

  lemma OptionStaysValid(o: string)
    requires !Blank(o) && !HasNul(o) && !Blank(KeyOf(o)) && KindOf(KeyOf(o)).OptionField?
    ensures var r := Csv.DropPairs(o); !Blank(r) && !HasNul(r) && !Blank(KeyOf(r)) && KindOf(KeyOf(r)).OptionField?
  {
    var r := Csv.DropPairs(o);
    DropPairsKeepsBlank(o);
    DropPairsKeepsChars(o);
    forall i | 0 <= i < |r| ensures r[i] != '\0' {
      assert r[i] in r;
    }
    KeyOfDropPairs(o);
    DropPairsKeepsBlank(KeyOf(o));
    DropPairsKeepsKind(KeyOf(o));
  }

  /** Reading a written mount gives that mount, with LF for CR LF. */
  lemma WrittenMountReadsBack(m: Mount)
    requires ValidMount(m)
    ensures LongBindMount(FormatBindMount(m)) == Some(WithoutPairs(m))
  {
    Csv.WrittenRecordReadsBack(MountFields(m));
    FieldsWithoutPairs(m);
    WithoutPairsStaysValid(m);
    FieldsReadBack(WithoutPairs(m));
  }

  lemma FieldsWithoutPairs(m: Mount)
    ensures Csv.DropAll(MountFields(m)) == MountFields(WithoutPairs(m))
  {
    DropAllBehindThree(Field("type", "bind"), Field("source", m.source), Field("target", m.target), m.options);
    LabelsWithoutPairs(m);
  }

  lemma LabelsWithoutPairs(m: Mount)
    ensures Csv.DropPairs(Field("type", "bind")) == Field("type", "bind")
    ensures Csv.DropPairs(Field("source", m.source)) == Field("source", Csv.DropPairs(m.source))
    ensures Csv.DropPairs(Field("target", m.target)) == Field("target", Csv.DropPairs(m.target))
  {
    FieldWithoutPairs("type", "bind");
    FieldWithoutPairs("source", m.source);
    FieldWithoutPairs("target", m.target);
    Csv.DropPairsFixes("bind");
  }

  lemma DropAllBehindThree(t: string, s: string, d: string, options: seq<string>)
    ensures Csv.DropAll([t, s, d] + options) ==
            [Csv.DropPairs(t), Csv.DropPairs(s), Csv.DropPairs(d)] + Csv.DropAll(options)
  {
    var fields := [t, s, d] + options;
    forall i | 3 <= i < |fields| ensures Csv.DropAll(fields)[i] == Csv.DropAll(options)[i - 3] {
      assert fields[i] == options[i - 3];
    }
  }

  lemma FieldWithoutPairs(key: string, value: string)
    requires forall i | 0 <= i < |key| :: key[i] != '\r'
    ensures Csv.DropPairs(Field(key, value)) == Field(key, Csv.DropPairs(value))
  {
    Csv.DropPairsApart(key, "=" + value);
    assert Field(key, value) == key + ("=" + value);
    Csv.DropPairsCons('=', value);
    Csv.DropPairsFixes(key);
  }
}
