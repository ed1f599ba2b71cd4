/**
 * What the structured import of a container command line guarantees: its result is valid, nothing of the
 * command line is lost, and the invocation that is printed from it is imported again as the same result.
 */
module ContainerPrint {
  import opened Text
  import opened RunOptions
  import opened ContainerMounts
  import opened ContainerRun
  import Csv

  // ---- The safety rule, read over all options at once ----

  lemma {:induction false} KeysAreBound(groups: seq<Group>, key: string)
    ensures key in Keys(groups) <==>
            exists i | 0 <= i < |groups| :: EnvBinding(groups[i].option).Some? && EnvBinding(groups[i].option).value.0 == key
  {
    if groups != [] {
      var n := |groups| - 1;
      KeysAreBound(groups[..n], key);
      if key in Keys(groups[..n]) {
        var i :| 0 <= i < n && EnvBinding(groups[..n][i].option).Some? && EnvBinding(groups[..n][i].option).value.0 == key;
        assert groups[i] == groups[..n][i];
      }
      if i :| 0 <= i < n && EnvBinding(groups[i].option).Some? && EnvBinding(groups[i].option).value.0 == key {
        assert groups[..n][i] == groups[i];
      }
    }
  }

  ghost predicate SameKey(a: Group, b: Group) {
    && EnvBinding(a.option).Some? && EnvBinding(b.option).Some?
    && EnvBinding(a.option).value.0 == EnvBinding(b.option).value.0
  }

  /** Variables are extracted exactly when every option is harmless and no two options bind one variable. */
  lemma {:induction false} EnvSafeMeaning(groups: seq<Group>)
    ensures EnvSafe(groups) <==>
            && (forall i | 0 <= i < |groups| :: EnvHarmless(groups[i].option))
            && (forall i, j | 0 <= i < j < |groups| :: !SameKey(groups[i], groups[j]))
  {
    if groups != [] {
      var n := |groups| - 1;
      var before, last := groups[..n], groups[n];
      EnvSafeMeaning(before);
      assert forall i | 0 <= i < n :: before[i] == groups[i];
      if EnvBinding(last.option).Some? {
        KeysAreBound(before, EnvBinding(last.option).value.0);
        assert EnvBinding(last.option).value.0 in Keys(before) <==> exists i | 0 <= i < n :: SameKey(before[i], last);
      }
    }
  }

  // ---- Every result is valid ----

  /** validateStructuredContainer, for a configuration without raw args. */
  predicate ValidStructured(r: Structured) {
    && !Blank(r.image) && (r.command != "" ==> !Blank(r.command))
    && (forall m | m in r.mounts :: ValidMount(m))
    && (forall key | key in r.env :: ValidVariable(key))
    && "--" !in r.containerArgs
  }

  lemma ImportedMountIsValid(o: RunOption)
    requires MountOf(o).Some?
    ensures ValidMount(MountOf(o).value)
  {
    var m := MountOf(o).value;
    if o.name == "mount" {
      var fields := Csv.ReadAll(o.value).value[0];
      LongMountIsValid(fields);
    } else {
      assert VolumeBindMount(o.value) == Some(m);
      assert !Blank(m.source) && !Blank(m.target) by {
        assert !IsSpace(m.source[0]) && !IsSpace(m.target[0]);
      }
      ReadOnlyOption();
    }
  }

  lemma ReadOnlyOption()
    ensures !Blank("ro") && !HasNul("ro") && !Blank(KeyOf("ro")) && KindOf(KeyOf("ro")).OptionField?
  {
    assert "ro"[0] == 'r' && "ro"[1] == 'o';
    assert KeyOf("ro") == "ro";
  }

  lemma LongMountIsValid(fields: seq<string>)
    requires LongMount(fields).Some?
    ensures ValidMount(LongMount(fields).value)
  {
    var m := LongMount(fields).value;
    var s, d := OfKind(fields, SourceField)[0], OfKind(fields, TargetField)[0];
    OfKindMembers(fields, s, SourceField);
    OfKindMembers(fields, d, TargetField);
    assert FieldOk(s) && FieldOk(d);
    assert !IsSpace(m.target[0]);
    forall o | o in m.options
      ensures !Blank(o) && !HasNul(o) && !Blank(KeyOf(o)) && KindOf(KeyOf(o)).OptionField?
    {
      OfKindMembers(fields, o, OptionField);
      assert FieldOk(o);
    }
  }

  lemma {:induction false} MountsAreValid(groups: seq<Group>)
    ensures forall m | m in Mounts(groups) :: ValidMount(m)
  {
    if groups != [] {
      var n := |groups| - 1;
      MountsAreValid(groups[..n]);
      if MountOf(groups[n].option).Some? {
        ImportedMountIsValid(groups[n].option);
      }
    }
  }

  lemma {:induction false} BoundKeysAreValid(groups: seq<Group>)
    ensures forall key | key in Keys(groups) :: ValidVariable(key)
  {
    if groups != [] {
      BoundKeysAreValid(groups[..|groups| - 1]);
    }
  }

  lemma {:induction false} NoDashArguments(groups: seq<Group>)
    requires DashOption(groups).None?
    ensures "--" !in Arguments(groups)
  {
    if groups != [] {
      NoDashArguments(groups[..|groups| - 1]);
    }
  }

  /** Whatever is imported passes the validation that runs before execution. */
  lemma ImportedIsValid(g: Grammar, args: seq<string>)
    requires Structure(g, args).Parsed?
    ensures ValidStructured(Structure(g, args).result)
  {
    var scan := Scan(g, args[OptionStart(args)..]).value;
    MountsAreValid(scan.0);
    BoundKeysAreValid(scan.0);
    NoDashArguments(Left(scan.0, EnvSafe(scan.0), MountsSafe(scan.0)));
  }

  // ---- Nothing is lost ----

  /** The group is one option, read the same way whatever follows it. */
  ghost predicate Reads(g: Grammar, group: Group) {
    && group.raw != [] && StartsOption(group.raw[0])
    && OptionAt(g, group.raw) == Ok(group.option) && group.option.consumed == |group.raw|
  }

  ghost predicate AllRead(g: Grammar, groups: seq<Group>) { forall i | 0 <= i < |groups| :: Reads(g, groups[i]) }

  /** The separator that may stand before the image. */
  function Dashes(separated: bool): seq<string> { if separated then ["--"] else [] }

  lemma {:induction false} ArgumentsCons(group: Group, groups: seq<Group>)
    ensures Arguments([group] + groups) == group.raw + Arguments(groups)
  {
    if groups == [] {
      assert [group] + groups == [group] && [group][..0] == [];
      assert group.raw + [] == group.raw;
    } else {
      var n := |groups| - 1;
      assert ([group] + groups)[..n + 1] == [group] + groups[..n];
      ArgumentsCons(group, groups[..n]);
      assert group.raw + (Arguments(groups[..n]) + groups[n].raw) == group.raw + Arguments(groups[..n]) + groups[n].raw;
    }
  }

  lemma ReadsFirst(g: Grammar, args: seq<string>)
    requires args != [] && StartsOption(args[0]) && OptionAt(g, args).Ok?
    ensures Reads(g, Group(args[..OptionAt(g, args).value.consumed], OptionAt(g, args).value))
  {
    OptionsAreLocal(g, args, args[..OptionAt(g, args).value.consumed]);
  }

  predicate StartsImage(rest: seq<string>) { rest == [] || rest[0] == "-" || !HasPrefix(rest[0], "-") }

  /** args is these options, a "--" if separated, and the image with what follows it. */
  ghost predicate Cuts(g: Grammar, args: seq<string>, groups: seq<Group>, separated: bool, rest: seq<string>) {
    args == Arguments(groups) + (Dashes(separated) + rest) && AllRead(g, groups) && StartsImage(rest)
  }

  lemma CutsMore(g: Grammar, group: Group, after: seq<string>, groups: seq<Group>, separated: bool, rest: seq<string>)
    requires Reads(g, group) && Cuts(g, after, groups, separated, rest)
    ensures Cuts(g, group.raw + after, [group] + groups, separated, rest)
  {
    ArgumentsCons(group, groups);
    var tail := Dashes(separated) + rest;
    assert group.raw + (Arguments(groups) + tail) == group.raw + Arguments(groups) + tail;
  }

  lemma CutsNothing(g: Grammar, separated: bool, rest: seq<string>)
    requires StartsImage(rest)
    ensures Cuts(g, Dashes(separated) + rest, [], separated, rest)
  {
    assert Arguments([]) + (Dashes(separated) + rest) == Dashes(separated) + rest;
  }

  lemma ScanStops(g: Grammar, args: seq<string>) returns (separated: bool)
    requires Scan(g, args).Ok? && (args == [] || !StartsOption(args[0]))
    ensures Scan(g, args).value.0 == [] && args == Dashes(separated) + Scan(g, args).value.1
    ensures StartsImage(Scan(g, args).value.1) || separated
  {
    separated := args != [] && args[0] == "--";
  }

  /** The scan reads one option and goes on behind it. */
  lemma ScanReadsOne(g: Grammar, args: seq<string>) returns (group: Group, after: seq<string>)
    requires Scan(g, args).Ok? && args != [] && StartsOption(args[0])
    ensures args == group.raw + after && |after| < |args| && Reads(g, group)
    ensures Scan(g, after).Ok?
    ensures Scan(g, args).value == ([group] + Scan(g, after).value.0, Scan(g, after).value.1)
  {
    var o := OptionAt(g, args).value;
    group, after := Group(args[..o.consumed], o), args[o.consumed..];
    ReadsFirst(g, args);
  }

  lemma {:induction false} ScanCuts(g: Grammar, args: seq<string>) returns (separated: bool)
    requires Scan(g, args).Ok?
    ensures Cuts(g, args, Scan(g, args).value.0, separated, Scan(g, args).value.1)
    decreases |args|
  {
    if args != [] && StartsOption(args[0]) {
      var group, after := ScanReadsOne(g, args);
      separated := ScanCuts(g, after);
      CutsMore(g, group, after, Scan(g, after).value.0, separated, Scan(g, after).value.1);
    } else {
      separated := ScanStops(g, args);
      CutsNothing(g, separated, Scan(g, args).value.1);
    }
  }

  /** An extracted option stands alone and says exactly what is extracted from it. */
  ghost predicate SaysOnly(group: Group) {
    var o := group.option;
    && (EnvBinding(o).Some? ==>
          var text := EnvBinding(o).value.0 + "=" + EnvBinding(o).value.1;
          group.raw in LongForms("env", text) || group.raw in ShortForms('e', text))
    && (o.name == "mount" ==> group.raw in LongForms("mount", o.value))
    && (o.name == "volume" && !o.clustered ==> group.raw in LongForms("volume", o.value) || group.raw in ShortForms('v', o.value))
  }

  lemma GroupSaysOnly(g: Grammar, group: Group)
    requires Knows(g) && Reads(g, group)
    ensures SaysOnly(group)
  {
    var o := group.option;
    assert group.raw[..o.consumed] == group.raw;
    if HasPrefix(group.raw[0], "--") {
      if o.name == "env" || o.name == "mount" || o.name == "volume" {
        LongOptionForms(g, group.raw);
      }
    } else if o.name != "" && !o.clustered {
      ShortOptionForms(g, group.raw);
    }
  }

  lemma {:induction false} BindingsAreBound(groups: seq<Group>, key: string, value: string)
    requires EnvSafe(groups)
    ensures (key in Bindings(groups) && Bindings(groups)[key] == value) <==>
            exists i | 0 <= i < |groups| :: EnvBinding(groups[i].option) == Some((key, value))
  {
    if groups != [] {
      var n := |groups| - 1;
      var before, last := groups[..n], EnvBinding(groups[n].option);
      BindingsAreBound(before, key, value);
      KeysAreBound(before, key);
      assert forall i | 0 <= i < n :: before[i] == groups[i];
      if i :| 0 <= i < n && EnvBinding(groups[i].option) == Some((key, value)) {
        assert EnvBinding(before[i].option) == Some((key, value));
      }
    }
  }

  function Tail(r: Structured): seq<string> { (if r.command == "" then [] else [r.command]) + r.commandArgs }

  lemma TailIsKept(tail: seq<string>)
    ensures (if Command(tail) == "" then [] else [Command(tail)]) + CommandArgs(tail) == tail
  {
    if tail != [] && !Blank(tail[0]) && !HasPrefix(tail[0], "-") {
      assert tail[0] != "";
    }
  }

  lemma RestIsKept(groups: seq<Group>, rest: seq<string>, r: Structured)
    requires Assembled(groups, rest) == Parsed(r)
    ensures rest == [r.image] + Tail(r)
  {
    TailIsKept(rest[1..]);
    assert rest == [rest[0]] + rest[1..];
  }

  lemma EnvIsBound(groups: seq<Group>, env: map<string, string>)
    requires env == if EnvSafe(groups) then Bindings(groups) else map[]
    ensures forall key, value :: (key in env && env[key] == value) <==>
              (EnvSafe(groups) && exists i | 0 <= i < |groups| :: EnvBinding(groups[i].option) == Some((key, value)))
  {
    if EnvSafe(groups) {
      forall key, value
        ensures (key in env && env[key] == value) <==>
                exists i | 0 <= i < |groups| :: EnvBinding(groups[i].option) == Some((key, value))
      {
        BindingsAreBound(groups, key, value);
      }
    }
  }

  /**
   * The command line is the subcommand, the options, perhaps "--", the image and the tail. The options that say
   * exactly one binding or mount give the environment and the mounts, in order; the other options stay, in order.
   */
  lemma ExtractionLosesNothing(g: Grammar, args: seq<string>) returns (groups: seq<Group>, separated: bool)
    requires Knows(g) && Structure(g, args).Parsed?
    ensures var r := Structure(g, args).result;
            && args == args[..OptionStart(args)] + (Arguments(groups) + (Dashes(separated) + ([r.image] + Tail(r))))
            && r.containerArgs == Arguments(Left(groups, EnvSafe(groups), MountsSafe(groups)))
            && r.mounts == (if MountsSafe(groups) then Mounts(groups) else [])
            && (forall key, value :: (key in r.env && r.env[key] == value) <==>
                 (EnvSafe(groups) && exists i | 0 <= i < |groups| :: EnvBinding(groups[i].option) == Some((key, value))))
    ensures forall i | 0 <= i < |groups| :: Reads(g, groups[i]) && SaysOnly(groups[i])
  {
    var start := OptionStart(args);
    var r := Structure(g, args).result;
    groups := Scan(g, args[start..]).value.0;
    separated := ScanCuts(g, args[start..]);
    RestIsKept(groups, Scan(g, args[start..]).value.1, r);
    assert args == args[..start] + args[start..];
    forall i | 0 <= i < |groups| ensures Reads(g, groups[i]) && SaysOnly(groups[i]) {
      GroupSaysOnly(g, groups[i]);
    }
    EnvIsBound(groups, r.env);
  }
}
