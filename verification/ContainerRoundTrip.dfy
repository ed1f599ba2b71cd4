/**
 * Printing an imported container command as process arguments, and importing the printed arguments again.
 */
module ContainerRoundTrip {
  import opened Text
  import opened RunOptions
  import opened ContainerMounts
  import opened ContainerRun
  import opened ContainerPrint
  import Csv

  lemma Reassociate<T>(a: seq<T>, b: seq<T>, c: seq<T>)
    ensures a + b + c == a + (b + c) && a + [] == a
  {
  }

  // ---- ExecutionArgs for Docker and Podman ----

  function MountArgs(mounts: seq<Mount>): seq<string> {
    if mounts == [] then []
    else MountArgs(mounts[..|mounts| - 1]) + ["--mount", FormatBindMount(mounts[|mounts| - 1])]
  }

  function EnvArgs(env: map<string, string>, keys: seq<string>): seq<string>
    requires forall key | key in keys :: key in env
  {
    if keys == [] then []
    else
      var key := keys[|keys| - 1];
      EnvArgs(env, keys[..|keys| - 1]) + ["--env", Field(key, env[key])]
  }

  /** keys lists the variables once each, in any order; the printer uses the sorted one. */
  ghost predicate Lists(keys: seq<string>, env: map<string, string>) {
    (forall key :: key in keys <==> key in env) && forall i, j | 0 <= i < j < |keys| :: keys[i] != keys[j]
  }

  function Print(r: Structured, keys: seq<string>): seq<string>
    requires forall key | key in keys :: key in r.env
  {
    ["run"] + (r.containerArgs + MountArgs(r.mounts) + EnvArgs(r.env, keys) + ([r.image] + Tail(r)))
  }

  /** ExecutionArgs of a structured Docker or Podman command. */
  method ExecutionArgs(r: Structured, keys: seq<string>) returns (args: seq<string>)
    requires forall key | key in keys :: key in r.env
    ensures args == Print(r, keys)
  {
    args := ["run"] + r.containerArgs;
    ghost var start := args;
    var i := 0;
    while i < |r.mounts|
      invariant 0 <= i <= |r.mounts|
      invariant args == start + MountArgs(r.mounts[..i])
    {
      args := args + ["--mount", FormatBindMount(r.mounts[i])];
      assert r.mounts[..i + 1][..i] == r.mounts[..i];
      Reassociate(start, MountArgs(r.mounts[..i]), ["--mount", FormatBindMount(r.mounts[i])]);
      i := i + 1;
    }
    assert r.mounts[..i] == r.mounts;
    ghost var withMounts := args;
    i := 0;
    while i < |keys|
      invariant 0 <= i <= |keys|
      invariant args == withMounts + EnvArgs(r.env, keys[..i])
    {
      args := args + ["--env", Field(keys[i], r.env[keys[i]])];
      assert keys[..i + 1][..i] == keys[..i];
      Reassociate(withMounts, EnvArgs(r.env, keys[..i]), ["--env", Field(keys[i], r.env[keys[i]])]);
      i := i + 1;
    }
    assert keys[..i] == keys;
    args := args + [r.image];
    if r.command != "" {
      args := args + [r.command];
    }
    args := args + r.commandArgs;
    PrintedParts(r, MountArgs(r.mounts), EnvArgs(r.env, keys));
  }

  lemma PrintedParts(r: Structured, mounts: seq<string>, env: seq<string>)
    ensures ["run"] + (r.containerArgs + mounts + env + ([r.image] + Tail(r))) ==
            (if r.command != "" then ["run"] + r.containerArgs + mounts + env + [r.image] + [r.command]
             else ["run"] + r.containerArgs + mounts + env + [r.image]) + r.commandArgs
  {
  }

  // ---- The printed options as groups ----

  function MountGroup(m: Mount): Group {
    Group(["--mount", FormatBindMount(m)], RunOption("mount", FormatBindMount(m), 2, true, false))
  }

  function EnvGroup(key: string, value: string): Group {
    Group(["--env", Field(key, value)], RunOption("env", Field(key, value), 2, true, false))
  }

  function MountGroups(mounts: seq<Mount>): seq<Group> {
    if mounts == [] then [] else MountGroups(mounts[..|mounts| - 1]) + [MountGroup(mounts[|mounts| - 1])]
  }

  function EnvGroups(env: map<string, string>, keys: seq<string>): seq<Group>
    requires forall key | key in keys :: key in env
  {
    if keys == [] then []
    else
      var key := keys[|keys| - 1];
      EnvGroups(env, keys[..|keys| - 1]) + [EnvGroup(key, env[key])]
  }

  lemma ReadsLong(g: Grammar, name: string, text: string)
    requires name in g.long && g.long[name] == Value && name != "" && forall i | 0 <= i < |name| :: name[i] != '='
    ensures Reads(g, Group(["--" + name, text], RunOption(name, text, 2, true, false)))
  {
    var raw := ["--" + name, text];
    assert raw[0][2..] == name;
    assert IndexOf(name, '=') == |name|;
    assert StartsOption(raw[0]) by {
      assert |raw[0]| > 2;
    }
  }

  lemma PrintMore(g: Grammar, groups: seq<Group>, group: Group, args: seq<string>)
    requires AllRead(g, groups) && Reads(g, group) && Arguments(groups) == args
    ensures AllRead(g, groups + [group]) && Arguments(groups + [group]) == args + group.raw
  {
    OneMore(groups, group);
  }

  lemma {:induction false} PrintedMounts(g: Grammar, left: seq<Group>, mounts: seq<Mount>)
    requires Knows(g) && AllRead(g, left)
    ensures AllRead(g, left + MountGroups(mounts))
    ensures Arguments(left + MountGroups(mounts)) == Arguments(left) + MountArgs(mounts)
  {
    Reassociate(left, [], []);
    Reassociate(Arguments(left), [], []);
    if mounts != [] {
      var n := |mounts| - 1;
      var group := MountGroup(mounts[n]);
      PrintedMounts(g, left, mounts[..n]);
      ReadsMount(g, mounts[n]);
      PrintMore(g, left + MountGroups(mounts[..n]), group, Arguments(left) + MountArgs(mounts[..n]));
      Reassociate(left, MountGroups(mounts[..n]), [group]);
      Reassociate(Arguments(left), MountArgs(mounts[..n]), group.raw);
    }
  }

  lemma ReadsMount(g: Grammar, m: Mount)
    requires Knows(g)
    ensures Reads(g, MountGroup(m))
  {
    ReadsLong(g, "mount", FormatBindMount(m));
    assert "--" + "mount" == "--mount";
  }

  lemma ReadsEnv(g: Grammar, key: string, value: string)
    requires Knows(g)
    ensures Reads(g, EnvGroup(key, value))
  {
    ReadsLong(g, "env", Field(key, value));
    assert "--" + "env" == "--env";
  }

  lemma {:induction false} PrintedEnv(g: Grammar, left: seq<Group>, env: map<string, string>, keys: seq<string>)
    requires Knows(g) && AllRead(g, left) && forall key | key in keys :: key in env
    ensures AllRead(g, left + EnvGroups(env, keys))
    ensures Arguments(left + EnvGroups(env, keys)) == Arguments(left) + EnvArgs(env, keys)
  {
    Reassociate(left, [], []);
    Reassociate(Arguments(left), [], []);
    if keys != [] {
      var n := |keys| - 1;
      var group := EnvGroup(keys[n], env[keys[n]]);
      PrintedEnv(g, left, env, keys[..n]);
      ReadsEnv(g, keys[n], env[keys[n]]);
      PrintMore(g, left + EnvGroups(env, keys[..n]), group, Arguments(left) + EnvArgs(env, keys[..n]));
      Reassociate(left, EnvGroups(env, keys[..n]), [group]);
      Reassociate(Arguments(left), EnvArgs(env, keys[..n]), group.raw);
    }
  }

  /** Options that read the same whatever follows them are scanned as they are. */
  lemma {:induction false} ScanReads(g: Grammar, groups: seq<Group>, rest: seq<string>)
    requires AllRead(g, groups) && rest != [] && StartsImage(rest)
    ensures Scan(g, Arguments(groups) + rest) == Ok((groups, rest))
  {
    if groups == [] {
      assert Arguments(groups) + rest == rest;
    } else {
      ScanReads(g, groups[1..], rest);
      FirstApart(groups, rest);
      ScanFirst(g, groups[0], Arguments(groups[1..]) + rest, groups[1..], rest);
      assert groups == [groups[0]] + groups[1..];
    }
  }

  lemma FirstApart(groups: seq<Group>, rest: seq<string>)
    requires groups != []
    ensures Arguments(groups) + rest == groups[0].raw + (Arguments(groups[1..]) + rest)
  {
    assert groups == [groups[0]] + groups[1..];
    ArgumentsCons(groups[0], groups[1..]);
    Reassociate(groups[0].raw, Arguments(groups[1..]), rest);
  }

  lemma ScanFirst(g: Grammar, first: Group, tail: seq<string>, more: seq<Group>, rest: seq<string>)
    requires Reads(g, first) && Scan(g, tail) == Ok((more, rest))
    ensures Scan(g, first.raw + tail) == Ok(([first] + more, rest))
  {
    var args := first.raw + tail;
    var n := first.option.consumed;
    assert args[..n] == first.raw && first.raw[..n] == first.raw && args[n..] == tail;
    assert args[0] == first.raw[0];
    OptionsAreLocal(g, first.raw, args);
  }

  // ---- What is left behind is as safe as the whole ----

  function NewKey(group: Group): set<string> {
    if EnvBinding(group.option).Some? then {EnvBinding(group.option).value.0} else {}
  }

  lemma EnvOneMore(groups: seq<Group>, group: Group)
    ensures EnvSafe(groups + [group]) == (EnvSafe(groups) && EnvHarmless(group.option) && NewKey(group) !! Keys(groups))
    ensures Keys(groups + [group]) == Keys(groups) + NewKey(group)
  {
    assert (groups + [group])[..|groups|] == groups;
  }

  lemma MountsOneMore(groups: seq<Group>, group: Group)
    ensures MountsSafe(groups + [group]) == (MountsSafe(groups) && MountHarmless(group.option))
    ensures MountOf(group.option).None? ==> Mounts(groups + [group]) == Mounts(groups)
    ensures MountOf(group.option).Some? ==> Mounts(groups + [group]) == Mounts(groups) + [MountOf(group.option).value]
  {
    assert forall x :: x in groups + [group] <==> x in groups || x == group;
    assert (groups + [group])[..|groups|] == groups;
  }

  lemma LeftOneMore(groups: seq<Group>, group: Group, e: bool, m: bool)
    ensures Extracted(group.option, e, m) ==> Left(groups + [group], e, m) == Left(groups, e, m)
    ensures !Extracted(group.option, e, m) ==> Left(groups + [group], e, m) == Left(groups, e, m) + [group]
  {
    assert (groups + [group])[..|groups|] == groups;
    Reassociate(Left(groups, e, m), [], []);
  }

  /** What is extracted for one purpose is harmless for both. */
  lemma ExtractedIsHarmless(o: RunOption, e: bool, m: bool)
    requires Extracted(o, e, m) && (e ==> EnvHarmless(o)) && (m ==> MountHarmless(o))
    ensures EnvHarmless(o) && MountHarmless(o)
  {
  }

  lemma {:induction false} LeftEnv(groups: seq<Group>, e: bool, m: bool)
    requires e ==> EnvSafe(groups)
    requires m ==> MountsSafe(groups)
    ensures if e then EnvSafe(Left(groups, e, m)) && Keys(Left(groups, e, m)) == {}
            else Keys(Left(groups, e, m)) == Keys(groups) && EnvSafe(Left(groups, e, m)) == EnvSafe(groups)
  {
    if groups != [] {
      var before, last := groups[..|groups| - 1], groups[|groups| - 1];
      assert groups == before + [last];
      EnvOneMore(before, last);
      MountsOneMore(before, last);
      LeftEnv(before, e, m);
      LeftOneMore(before, last, e, m);
      EnvOneMore(Left(before, e, m), last);
      if Extracted(last.option, e, m) {
        ExtractedIsHarmless(last.option, e, m);
      }
    }
  }

  lemma {:induction false} LeftMounts(groups: seq<Group>, e: bool, m: bool)
    requires e ==> EnvSafe(groups)
    requires m ==> MountsSafe(groups)
    ensures MountsSafe(Left(groups, e, m)) == MountsSafe(groups) && (m ==> Mounts(Left(groups, e, m)) == [])
  {
    if groups != [] {
      var before, last := groups[..|groups| - 1], groups[|groups| - 1];
      assert groups == before + [last];
      EnvOneMore(before, last);
      MountsOneMore(before, last);
      LeftMounts(before, e, m);
      LeftOneMore(before, last, e, m);
      MountsOneMore(Left(before, e, m), last);
      if Extracted(last.option, e, m) {
        ExtractedIsHarmless(last.option, e, m);
      }
    }
  }

  lemma {:induction false} LeftStays(groups: seq<Group>, e: bool, m: bool)
    ensures Left(Left(groups, e, m), e, m) == Left(groups, e, m)
  {
    if groups != [] {
      var n := |groups| - 1;
      LeftStays(groups[..n], e, m);
      var left := Left(groups[..n], e, m);
      assert (left + [groups[n]])[..|left|] == left && left + [] == left;
    }
  }

  lemma {:induction false} LeftReads(g: Grammar, groups: seq<Group>, e: bool, m: bool)
    requires AllRead(g, groups)
    ensures AllRead(g, Left(groups, e, m))
  {
    if groups != [] {
      LeftReads(g, groups[..|groups| - 1], e, m);
    }
  }

  // ---- The printed options are extracted again ----

  function WithoutPairsAll(mounts: seq<Mount>): seq<Mount> {
    if mounts == [] then [] else WithoutPairsAll(mounts[..|mounts| - 1]) + [WithoutPairs(mounts[|mounts| - 1])]
  }

  /** The two lists of options set and allow the same, but for the mounts. */
  ghost predicate SameEnv(a: seq<Group>, b: seq<Group>) {
    EnvSafe(a) == EnvSafe(b) && Bindings(a) == Bindings(b)
  }

  lemma BindingsOneMore(groups: seq<Group>, group: Group)
    ensures Bindings(groups + [group]) ==
            if EnvBinding(group.option).Some? then Bindings(groups)[EnvBinding(group.option).value.0 := EnvBinding(group.option).value.1]
            else Bindings(groups)
  {
    assert (groups + [group])[..|groups|] == groups;
  }

  lemma OneMoreMount(groups: seq<Group>, m: Mount, e: bool)
    requires ValidMount(m)
    ensures var more := groups + [MountGroup(m)];
            && SameEnv(more, groups) && MountsSafe(more) == MountsSafe(groups)
            && Mounts(more) == Mounts(groups) + [WithoutPairs(m)] && Left(more, e, true) == Left(groups, e, true)
  {
    WrittenMountReadsBack(m);
    EnvOneMore(groups, MountGroup(m));
    MountsOneMore(groups, MountGroup(m));
    BindingsOneMore(groups, MountGroup(m));
    LeftOneMore(groups, MountGroup(m), e, true);
  }

  lemma {:induction false} WithMounts(groups: seq<Group>, mounts: seq<Mount>, e: bool)
    requires forall m | m in mounts :: ValidMount(m)
    ensures var more := groups + MountGroups(mounts);
            && SameEnv(more, groups) && MountsSafe(more) == MountsSafe(groups)
            && Mounts(more) == Mounts(groups) + WithoutPairsAll(mounts) && Left(more, e, true) == Left(groups, e, true)
  {
    Reassociate(groups, [], []);
    Reassociate(Mounts(groups), [], []);
    if mounts != [] {
      var before, last := mounts[..|mounts| - 1], mounts[|mounts| - 1];
      WithMounts(groups, before, e);
      OneMoreMount(groups + MountGroups(before), last, e);
      Reassociate(groups, MountGroups(before), [MountGroup(last)]);
      Reassociate(Mounts(groups), WithoutPairsAll(before), [WithoutPairs(last)]);
    }
  }

  lemma BindsField(key: string, value: string)
    requires ValidVariable(key)
    ensures EnvBinding(EnvGroup(key, value).option) == Some((key, value)) && EnvHarmless(EnvGroup(key, value).option)
  {
    CutField(key, value);
  }

  lemma OneMoreVariable(groups: seq<Group>, key: string, value: string, m: bool)
    requires ValidVariable(key) && key !in Keys(groups)
    ensures var more := groups + [EnvGroup(key, value)];
            && EnvSafe(more) == EnvSafe(groups) && Bindings(more) == Bindings(groups)[key := value]
            && MountsSafe(more) == MountsSafe(groups) && Mounts(more) == Mounts(groups)
            && Left(more, true, m) == Left(groups, true, m)
  {
    BindsField(key, value);
    EnvOneMore(groups, EnvGroup(key, value));
    MountsOneMore(groups, EnvGroup(key, value));
    BindingsOneMore(groups, EnvGroup(key, value));
    LeftOneMore(groups, EnvGroup(key, value), true, m);
  }

  lemma {:induction false} WithVariables(groups: seq<Group>, env: map<string, string>, keys: seq<string>, m: bool)
    requires Keys(groups) == {} && (forall i, j | 0 <= i < j < |keys| :: keys[i] != keys[j])
    requires forall key | key in keys :: key in env && ValidVariable(key)
    ensures var more := groups + EnvGroups(env, keys);
            && EnvSafe(more) == EnvSafe(groups) && MountsSafe(more) == MountsSafe(groups) && Mounts(more) == Mounts(groups)
            && (forall key :: key in Bindings(more) <==> key in keys)
            && (forall key | key in keys :: Bindings(more)[key] == env[key])
            && Left(more, true, m) == Left(groups, true, m)
  {
    Reassociate(groups, [], []);
    if keys != [] {
      var before, key := keys[..|keys| - 1], keys[|keys| - 1];
      assert keys == before + [key];
      WithVariables(groups, env, before, m);
      OneMoreVariable(groups + EnvGroups(env, before), key, env[key], m);
      Reassociate(groups, EnvGroups(env, before), [EnvGroup(key, env[key])]);
    }
  }

  /** The options of the printed command line. */
  function PrintedGroups(left: seq<Group>, r: Structured, keys: seq<string>): seq<Group>
    requires forall key | key in keys :: key in r.env
  {
    left + MountGroups(r.mounts) + EnvGroups(r.env, keys)
  }

  lemma PrintedIsScanned(g: Grammar, left: seq<Group>, r: Structured, keys: seq<string>)
    requires Knows(g) && AllRead(g, left) && r.containerArgs == Arguments(left)
    requires (forall key | key in keys :: key in r.env) && StartsImage([r.image])
    ensures OptionStart(Print(r, keys)) == 1
    ensures Scan(g, Print(r, keys)[1..]) == Ok((PrintedGroups(left, r, keys), [r.image] + Tail(r)))
  {
    PrintedMounts(g, left, r.mounts);
    PrintedEnv(g, left + MountGroups(r.mounts), r.env, keys);
    ScanReads(g, PrintedGroups(left, r, keys), [r.image] + Tail(r));
    assert Print(r, keys)[1..] == Arguments(PrintedGroups(left, r, keys)) + ([r.image] + Tail(r));
  }

  lemma MountedIsAsSafe(groups: seq<Group>, r: Structured)
    requires ValidStructured(r) && r.mounts == (if MountsSafe(groups) then Mounts(groups) else [])
    ensures var e, m := EnvSafe(groups), MountsSafe(groups);
            var left := Left(groups, e, m);
            var mounted := left + MountGroups(r.mounts);
            && EnvSafe(mounted) == e && MountsSafe(mounted) == m && Left(mounted, e, m) == left
            && (m ==> Mounts(mounted) == WithoutPairsAll(r.mounts)) && (e ==> Bindings(mounted) == map[])
  {
    var e, m := EnvSafe(groups), MountsSafe(groups);
    var left := Left(groups, e, m);
    LeftEnv(groups, e, m);
    LeftMounts(groups, e, m);
    LeftStays(groups, e, m);
    WithMounts(left, r.mounts, e);
    Reassociate(left, [], []);
  }

  lemma ListsNothing(keys: seq<string>, env: map<string, string>)
    requires Lists(keys, env)
    ensures |keys| > 0 ==> keys[0] in env
  {
    assert |keys| > 0 ==> keys[0] in keys;
  }

  /** The printed options have the same safety, leave the same options behind, and set what the result says. */
  lemma PrintedSetsTheSame(groups: seq<Group>, r: Structured, keys: seq<string>)
    requires ValidStructured(r) && Lists(keys, r.env)
    requires r.mounts == (if MountsSafe(groups) then Mounts(groups) else [])
    requires r.env == (if EnvSafe(groups) then Bindings(groups) else map[])
    ensures var e, m := EnvSafe(groups), MountsSafe(groups);
            var printed := PrintedGroups(Left(groups, e, m), r, keys);
            && EnvSafe(printed) == e && MountsSafe(printed) == m && Left(printed, e, m) == Left(groups, e, m)
            && (m ==> Mounts(printed) == WithoutPairsAll(r.mounts)) && (e ==> Bindings(printed) == r.env)
  {
    var e, m := EnvSafe(groups), MountsSafe(groups);
    var mounted := Left(groups, e, m) + MountGroups(r.mounts);
    MountedIsAsSafe(groups, r);
    if e {
      WithEnvironment(mounted, r.env, keys, m);
    } else {
      ListsNothing(keys, r.env);
      Reassociate(mounted, [], []);
      assert EnvGroups(r.env, keys) == [];
    }
  }

  lemma WithEnvironment(groups: seq<Group>, env: map<string, string>, keys: seq<string>, m: bool)
    requires Bindings(groups) == map[] && Lists(keys, env) && forall key | key in env :: ValidVariable(key)
    ensures var more := groups + EnvGroups(env, keys);
            && EnvSafe(more) == EnvSafe(groups) && MountsSafe(more) == MountsSafe(groups) && Mounts(more) == Mounts(groups)
            && Bindings(more) == env && Left(more, true, m) == Left(groups, true, m)
  {
    assert Keys(groups) == Bindings(groups).Keys;
    WithVariables(groups, env, keys, m);
  }

  /**
   * Importing the printed arguments of an imported command gives that command again, with LF for CR LF in the
   * mount texts: the same image, arguments left behind, mounts, environment and tail.
   */
  lemma ParsePrintParse(g: Grammar, args: seq<string>, keys: seq<string>)
    requires Knows(g) && Structure(g, args).Parsed? && Lists(keys, Structure(g, args).result.env)
    ensures var r := Structure(g, args).result;
            Structure(g, Print(r, keys)) == Parsed(r.(mounts := WithoutPairsAll(r.mounts)))
  {
    var r := Structure(g, args).result;
    var scan := Scan(g, args[OptionStart(args)..]).value;
    var groups, rest := scan.0, scan.1;
    var left := Left(groups, EnvSafe(groups), MountsSafe(groups));
    var separated := ScanCuts(g, args[OptionStart(args)..]);
    LeftReads(g, groups, EnvSafe(groups), MountsSafe(groups));
    ImportedIsValid(g, args);
    PrintedIsScanned(g, left, r, keys);
    PrintedSetsTheSame(groups, r, keys);
    TailIsKept(rest[1..]);
    AssembledAgain(left, groups, r, keys, rest);
  }

  lemma AssembledFrom(groups: seq<Group>, rest: seq<string>, left: seq<Group>, mounts: seq<Mount>, env: map<string, string>)
    requires rest != [] && !Blank(rest[0]) && left == Left(groups, EnvSafe(groups), MountsSafe(groups))
    requires mounts == (if MountsSafe(groups) then Mounts(groups) else []) && DashOption(left).None?
    requires env == (if EnvSafe(groups) then Bindings(groups) else map[])
    ensures Assembled(groups, rest) ==
            Parsed(Structured(rest[0], Arguments(left), mounts, env, Command(rest[1..]), CommandArgs(rest[1..])))
  {
  }

  lemma AssembledAgain(left: seq<Group>, groups: seq<Group>, r: Structured, keys: seq<string>, rest: seq<string>)
    requires Assembled(groups, rest) == Parsed(r) && Lists(keys, r.env)
    requires left == Left(groups, EnvSafe(groups), MountsSafe(groups)) && Tail(r) == rest[1..]
    requires var printed := PrintedGroups(left, r, keys);
             && EnvSafe(printed) == EnvSafe(groups) && MountsSafe(printed) == MountsSafe(groups)
             && Left(printed, EnvSafe(groups), MountsSafe(groups)) == left
             && (MountsSafe(groups) ==> Mounts(printed) == WithoutPairsAll(r.mounts))
             && (EnvSafe(groups) ==> Bindings(printed) == r.env)
    ensures Assembled(PrintedGroups(left, r, keys), [r.image] + Tail(r)) == Parsed(r.(mounts := WithoutPairsAll(r.mounts)))
  {
    var again := [r.image] + Tail(r);
    assert again[1..] == rest[1..] && again[0] == rest[0];
    AssembledFrom(PrintedGroups(left, r, keys), again, left, WithoutPairsAll(r.mounts), r.env);
  }

  ghost predicate NoPairs(m: Mount) {
    Csv.NoPair(m.source) && Csv.NoPair(m.target) && forall o | o in m.options :: Csv.NoPair(o)
  }

  lemma NoPairsFixes(m: Mount)
    ensures WithoutPairs(m) == m <==> NoPairs(m)
  {
    Csv.DropPairsFixes(m.source);
    Csv.DropPairsFixes(m.target);
    forall i | 0 <= i < |m.options| ensures Csv.DropAll(m.options)[i] == m.options[i] <==> Csv.NoPair(m.options[i]) {
      Csv.DropPairsFixes(m.options[i]);
    }
    if WithoutPairs(m) == m {
      forall o | o in m.options ensures Csv.NoPair(o) {
        var i :| 0 <= i < |m.options| && m.options[i] == o;
        assert Csv.DropAll(m.options)[i] == m.options[i];
      }
    }
    assert NoPairs(m) ==> Csv.DropAll(m.options) == m.options;
  }

  lemma {:induction false} NoPairsFixesAll(mounts: seq<Mount>)
    ensures WithoutPairsAll(mounts) == mounts <==> forall m | m in mounts :: NoPairs(m)
  {
    if mounts != [] {
      var before, last := mounts[..|mounts| - 1], mounts[|mounts| - 1];
      assert mounts == before + [last];
      NoPairsFixesAll(before);
      NoPairsFixes(last);
      SameLength(before);
    }
  }

  lemma {:induction false} SameLength(mounts: seq<Mount>)
    ensures |WithoutPairsAll(mounts)| == |mounts|
  {
    if mounts != [] {
      SameLength(mounts[..|mounts| - 1]);
    }
  }

  /** The round trip is the identity exactly when no extracted mount has CR LF in a text. */
  lemma RoundTripIsIdentity(g: Grammar, args: seq<string>, keys: seq<string>)
    requires Knows(g) && Structure(g, args).Parsed? && Lists(keys, Structure(g, args).result.env)
    ensures var r := Structure(g, args).result;
            Structure(g, Print(r, keys)) == Parsed(r) <==> forall m | m in r.mounts :: NoPairs(m)
  {
    ParsePrintParse(g, args, keys);
    NoPairsFixesAll(Structure(g, args).result.mounts);
  }

  /** For the grammars of both executors. */
  lemma DockerAndPodmanRoundTrip(executor: Executor, args: seq<string>, keys: seq<string>)
    requires Structure(GrammarOf(executor), args).Parsed? && Lists(keys, Structure(GrammarOf(executor), args).result.env)
    ensures var r := Structure(GrammarOf(executor), args).result;
            Structure(GrammarOf(executor), Print(r, keys)) == Parsed(r) <==> forall m | m in r.mounts :: NoPairs(m)
  {
    BothGrammarsKnow(executor);
    RoundTripIsIdentity(GrammarOf(executor), args, keys);
  }

  // ---- A command line that does not come back ----

  lemma CrLfVolume()
    ensures VolumeBindMount("/a\r\n:/b") == Some(Mount("/a\r\n", "/b", []))
    ensures !NoPairs(Mount("/a\r\n", "/b", []))
  {
    var s := "/a\r\n:/b";
    assert s[4] == ':' && IndexOf(s, ':') == 4;
    assert s[..4] == "/a\r\n" && s[5..] == "/b";
    assert IndexOf("/b", ':') == 2;
    assert SplitColons("/b") == ["/b"];
    assert SplitColons(s) == ["/a\r\n", "/b"];
    assert "/a\r\n"[2] == '\r' && "/a\r\n"[3] == '\n';
  }

  /** An unclustered -v is read as the volume that its argument says. */
  lemma ReadsVolume(g: Grammar, text: string)
    requires Knows(g)
    ensures Reads(g, Group(["-v", text], RunOption("volume", text, 2, true, false)))
  {
    assert "-v"[1..] == "v" && "v"[1..] == "";
  }

  function VolumeGroup(text: string): Group { Group(["-v", text], RunOption("volume", text, 2, true, false)) }

  lemma OneVolumeIsScanned(g: Grammar, text: string)
    requires Knows(g)
    ensures Scan(g, ["run", "-v", text, "img"][1..]) == Ok(([VolumeGroup(text)], ["img"]))
  {
    var group := VolumeGroup(text);
    ReadsVolume(g, text);
    assert [group][..0] == [] && Arguments([group]) == group.raw;
    assert ["run", "-v", text, "img"][1..] == group.raw + ["img"];
    assert "img"[0] == 'i' && !HasPrefix("img", "-");
    ScanReads(g, [group], ["img"]);
  }

  /** One mount and nothing else is extracted from it. */
  lemma OneVolumeSets(text: string)
    requires VolumeBindMount(text).Some?
    ensures var groups := [VolumeGroup(text)];
            && EnvSafe(groups) && MountsSafe(groups) && Left(groups, true, true) == []
            && Mounts(groups) == [VolumeBindMount(text).value] && Bindings(groups) == map[]
  {
    var group := VolumeGroup(text);
    MountsOneMore([], group);
    EnvOneMore([], group);
    BindingsOneMore([], group);
    LeftOneMore([], group, true, true);
    assert [] + [group] == [group];
  }

  /** The command line with one volume and an image. */
  lemma OneVolumeIsParsed(g: Grammar, text: string)
    requires Knows(g) && VolumeBindMount(text).Some?
    ensures Structure(g, ["run", "-v", text, "img"]) ==
            Parsed(Structured("img", [], [VolumeBindMount(text).value], map[], "", []))
  {
    OneVolumeIsScanned(g, text);
    OneVolumeSets(text);
    assert ["img"][1..] == [];
    AssembledFrom([VolumeGroup(text)], ["img"], [], [VolumeBindMount(text).value], map[]);
  }

  /** Importing, printing and importing this command line again gives another mount: its CR LF has become LF. */
  lemma CrLfDoesNotComeBack(g: Grammar)
    requires Knows(g)
    ensures var args := ["run", "-v", "/a\r\n:/b", "img"];
            && Structure(g, args).Parsed?
            && Structure(g, Print(Structure(g, args).result, [])) != Structure(g, args)
  {
    var args := ["run", "-v", "/a\r\n:/b", "img"];
    CrLfVolume();
    OneVolumeIsParsed(g, "/a\r\n:/b");
    RoundTripIsIdentity(g, args, []);
  }
}
