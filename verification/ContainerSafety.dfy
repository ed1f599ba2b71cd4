/**
 * When importing a command line may take mounts and variables out of it. The rule is stated on the options of the
 * command line alone: what an option is named and what it says.
 */
module ContainerSafety {
  import opened Text
  import opened RunOptions
  import opened ContainerMounts
  import opened ContainerRun
  import opened ContainerPrint
  import opened ContainerRoundTrip

  // ---- Options that say a mount, and options that stand in the way ----

  predicate IsMountOption(o: RunOption) { o.name == "mount" || o.name == "volume" }

  function SaidMount(o: RunOption): Option<Mount> {
    if o.name == "mount" then LongBindMount(o.value)
    else if o.name == "volume" && !o.clustered then VolumeBindMount(o.value)
    else None
  }

  /** An unknown option, one that adds mounts by itself, or a mount that cannot be expressed. */
  predicate BlocksMounts(o: RunOption) {
    || !o.known
    || o.name == "tmpfs" || o.name == "volumes-from" || o.name == "secret"
    || (IsMountOption(o) && SaidMount(o).None?)
  }

  ghost predicate MountsTaken(groups: seq<Group>) { forall i | 0 <= i < |groups| :: !BlocksMounts(groups[i].option) }

  /** The mounts that the options say, in order. */
  function SaidMounts(groups: seq<Group>): seq<Mount> {
    if groups == [] then []
    else
      var n := |groups| - 1;
      SaidMounts(groups[..n]) + (if SaidMount(groups[n].option).Some? then [SaidMount(groups[n].option).value] else [])
  }

  // ---- The same for variables ----

  predicate IsEnvOption(o: RunOption) { o.name == "env" }

  ghost predicate BindsVariable(o: RunOption, key: string, value: string) {
    && o.name == "env" && !o.clustered && o.value == key + "=" + value
    && key != "" && forall i | 0 <= i < |key| :: key[i] != '=' && key[i] != '\0'
  }

  ghost predicate Binds(o: RunOption) { exists key, value :: BindsVariable(o, key, value) }

  /** An unknown option, one that sets or changes variables by itself, or an --env that binds none. */
  ghost predicate BlocksEnv(o: RunOption) {
    || !o.known
    || o.name == "env-file" || o.name == "env-host" || o.name == "env-merge" || o.name == "http-proxy"
    || o.name == "unsetenv" || o.name == "unsetenv-all" || o.name == "secret"
    || (IsEnvOption(o) && !Binds(o))
  }

  /** Two options bind the same variable. */
  ghost predicate BoundTwice(groups: seq<Group>, i: nat, j: nat)
    requires i < j < |groups|
  {
    exists key, v, w :: BindsVariable(groups[i].option, key, v) && BindsVariable(groups[j].option, key, w)
  }

  ghost predicate EnvTaken(groups: seq<Group>) {
    && (forall i | 0 <= i < |groups| :: !BlocksEnv(groups[i].option))
    && forall i, j | 0 <= i < j < |groups| :: !BoundTwice(groups, i, j)
  }

  // ---- What stays ----

  predicate Stays(o: RunOption, env: bool, mounts: bool) {
    !(env && IsEnvOption(o)) && !(mounts && IsMountOption(o))
  }

  /** The options that stay on the command line, in order: without the mount options or the env options, where they are taken. */
  function Without(groups: seq<Group>, env: bool, mounts: bool): seq<Group> {
    if groups == [] then []
    else
      var n := |groups| - 1;
      Without(groups[..n], env, mounts) + (if Stays(groups[n].option, env, mounts) then [groups[n]] else [])
  }

  // ---- The scanner's flags decide exactly this ----

  lemma SaidIsParsed(o: RunOption)
    ensures SaidMount(o) == MountOf(o)
  {
  }

  lemma MountsAreSafe(groups: seq<Group>)
    ensures MountsSafe(groups) <==> MountsTaken(groups)
  {
    forall group: Group ensures MountHarmless(group.option) <==> !BlocksMounts(group.option) {
      SaidIsParsed(group.option);
    }
    if MountsTaken(groups) {
      forall group | group in groups ensures MountHarmless(group.option) {
        var i :| 0 <= i < |groups| && groups[i] == group;
      }
    }
  }

  lemma BindingIsSaid(o: RunOption, key: string, value: string)
    ensures BindsVariable(o, key, value) <==> EnvBinding(o) == Some((key, value))
  {
    var cut := IndexOf(o.value, '=');
    if BindsVariable(o, key, value) {
      assert o.value[|key|] == '=';
      assert forall i | 0 <= i < |key| :: o.value[i] == key[i];
      assert cut == |key|;
      assert o.value[..cut] == key && o.value[cut + 1..] == value;
    }
    if EnvBinding(o) == Some((key, value)) {
      assert o.value == o.value[..cut] + "=" + o.value[cut + 1..];
    }
  }

  lemma BindsIsSaid(o: RunOption)
    ensures Binds(o) <==> EnvBinding(o).Some?
    ensures BlocksEnv(o) <==> !EnvHarmless(o)
  {
    if EnvBinding(o).Some? {
      BindingIsSaid(o, EnvBinding(o).value.0, EnvBinding(o).value.1);
    }
    if key, value :| BindsVariable(o, key, value) {
      BindingIsSaid(o, key, value);
    }
  }

  lemma SameVariable(groups: seq<Group>, i: nat, j: nat)
    requires i < j < |groups|
    ensures BoundTwice(groups, i, j) <==> SameKey(groups[i], groups[j])
  {
    var a, b := EnvBinding(groups[i].option), EnvBinding(groups[j].option);
    if SameKey(groups[i], groups[j]) {
      BindingIsSaid(groups[i].option, a.value.0, a.value.1);
      BindingIsSaid(groups[j].option, b.value.0, b.value.1);
    }
    if key, v, w :| BindsVariable(groups[i].option, key, v) && BindsVariable(groups[j].option, key, w) {
      BindingIsSaid(groups[i].option, key, v);
      BindingIsSaid(groups[j].option, key, w);
    }
  }

  lemma HarmlessIsSaid(groups: seq<Group>)
    ensures (forall i | 0 <= i < |groups| :: EnvHarmless(groups[i].option)) <==> (forall i | 0 <= i < |groups| :: !BlocksEnv(groups[i].option))
  {
    forall i | 0 <= i < |groups| ensures EnvHarmless(groups[i].option) <==> !BlocksEnv(groups[i].option) {
      BindsIsSaid(groups[i].option);
    }
  }

  lemma NoneIsTwice(groups: seq<Group>)
    ensures (forall i, j | 0 <= i < j < |groups| :: !SameKey(groups[i], groups[j])) <==>
            (forall i, j | 0 <= i < j < |groups| :: !BoundTwice(groups, i, j))
  {
    forall i, j | 0 <= i < j < |groups| ensures BoundTwice(groups, i, j) <==> SameKey(groups[i], groups[j]) {
      SameVariable(groups, i, j);
    }
  }

  lemma EnvIsSafe(groups: seq<Group>)
    ensures EnvSafe(groups) <==> EnvTaken(groups)
  {
    EnvSafeMeaning(groups);
    HarmlessIsSaid(groups);
    NoneIsTwice(groups);
  }

  /** Some option binds the variable to this value. */
  ghost predicate BoundIn(groups: seq<Group>, key: string, value: string) {
    exists i | 0 <= i < |groups| :: BindsVariable(groups[i].option, key, value)
  }

  lemma BoundIsSaid(groups: seq<Group>, key: string, value: string)
    ensures BoundIn(groups, key, value) <==> exists i | 0 <= i < |groups| :: EnvBinding(groups[i].option) == Some((key, value))
  {
    forall i | 0 <= i < |groups|
      ensures BindsVariable(groups[i].option, key, value) <==> EnvBinding(groups[i].option) == Some((key, value))
    {
      BindingIsSaid(groups[i].option, key, value);
    }
  }

  lemma {:induction false} SaidMountsAreTaken(groups: seq<Group>)
    ensures Mounts(groups) == SaidMounts(groups)
  {
    if groups != [] {
      SaidMountsAreTaken(groups[..|groups| - 1]);
      SaidIsParsed(groups[|groups| - 1].option);
    }
  }

  lemma ExtractedByName(o: RunOption, env: bool, mounts: bool)
    requires (env ==> !BlocksEnv(o)) && (mounts ==> !BlocksMounts(o))
    ensures Extracted(o, env, mounts) <==> !Stays(o, env, mounts)
  {
    BindsIsSaid(o);
    SaidIsParsed(o);
  }

  lemma {:induction false} LeftIsWithout(groups: seq<Group>, env: bool, mounts: bool)
    requires env ==> forall i | 0 <= i < |groups| :: !BlocksEnv(groups[i].option)
    requires mounts ==> MountsTaken(groups)
    ensures Left(groups, env, mounts) == Without(groups, env, mounts)
  {
    if groups != [] {
      var n := |groups| - 1;
      assert forall i | 0 <= i < n :: groups[..n][i] == groups[i];
      LeftIsWithout(groups[..n], env, mounts);
      ExtractedByName(groups[n].option, env, mounts);
    }
  }

  // ---- Main results ----

  /**
   * Of every command line that is imported: if no option blocks mounts, every mount option is taken out and gives its
   * mount, in order; if one does, no mount is taken and every mount option stays where it is. The same for variables,
   * which are not taken either if one is bound twice. All other options stay, in order.
   */
  lemma ImportTakesExactly(g: Grammar, args: seq<string>) returns (groups: seq<Group>, separated: bool)
    requires Knows(g) && Structure(g, args).Parsed?
    ensures var r := Structure(g, args).result;
            && args == args[..OptionStart(args)] + (Arguments(groups) + (Dashes(separated) + ([r.image] + Tail(r))))
            && (forall i | 0 <= i < |groups| :: Reads(g, groups[i]))
            && r.containerArgs == Arguments(Without(groups, EnvTaken(groups), MountsTaken(groups)))
            && r.mounts == (if MountsTaken(groups) then SaidMounts(groups) else [])
            && forall key, value :: (key in r.env && r.env[key] == value) <==> EnvTaken(groups) && BoundIn(groups, key, value)
  {
    groups, separated := ExtractionLosesNothing(g, args);
    MountsAreSafe(groups);
    EnvIsSafe(groups);
    SaidMountsAreTaken(groups);
    LeftIsWithout(groups, EnvTaken(groups), MountsTaken(groups));
    EnvIsTaken(groups, Structure(g, args).result.env);
  }

  lemma EnvIsTaken(groups: seq<Group>, env: map<string, string>)
    requires forall key, value :: (key in env && env[key] == value) <==>
               (EnvSafe(groups) && exists i | 0 <= i < |groups| :: EnvBinding(groups[i].option) == Some((key, value)))
    ensures forall key, value :: (key in env && env[key] == value) <==> EnvTaken(groups) && BoundIn(groups, key, value)
  {
    EnvIsSafe(groups);
    forall key, value ensures (key in env && env[key] == value) <==> EnvTaken(groups) && BoundIn(groups, key, value) {
      BoundIsSaid(groups, key, value);
    }
  }

  /** And an option line is imported: only an option that stays with an argument "--" can still refuse it. */
  lemma ReadableIsImported(g: Grammar, groups: seq<Group>, separated: bool, rest: seq<string>)
    requires AllRead(g, groups) && rest != [] && StartsImage(rest) && !Blank(rest[0]) && !(separated && rest[0] == "-")
    requires forall i | 0 <= i < |groups| :: "--" !in groups[i].raw
    ensures Structure(g, ["run"] + (Arguments(groups) + (Dashes(separated) + rest))).Parsed?
    ensures Structure(g, ["container", "run"] + (Arguments(groups) + (Dashes(separated) + rest))).Parsed?
  {
    var all := Arguments(groups) + (Dashes(separated) + rest);
    ScanReadsBoth(g, groups, separated, rest);
    NothingDashed(groups, EnvSafe(groups), MountsSafe(groups));
    AfterSubcommand(g, all, groups, rest);
  }

  lemma AfterSubcommand(g: Grammar, all: seq<string>, groups: seq<Group>, rest: seq<string>)
    requires Scan(g, all) == Ok((groups, rest))
    ensures Structure(g, ["run"] + all) == Assembled(groups, rest) && Structure(g, ["container", "run"] + all) == Assembled(groups, rest)
  {
    assert (["run"] + all)[1..] == all && (["container", "run"] + all)[2..] == all;
    assert (["container", "run"] + all)[0] == "container" && (["container", "run"] + all)[1] == "run" && "container" != "run";
  }

  lemma ScanReadsImage(g: Grammar, separated: bool, rest: seq<string>)
    requires rest != [] && StartsImage(rest) && !(separated && rest[0] == "-")
    ensures Scan(g, Dashes(separated) + rest) == Ok(([], rest))
  {
    var tail := Dashes(separated) + rest;
    if separated {
      assert tail[0] == "--" && tail[1..] == rest && tail[1] == rest[0];
    } else {
      assert tail == rest;
    }
  }

  lemma {:induction false} ScanReadsBoth(g: Grammar, groups: seq<Group>, separated: bool, rest: seq<string>)
    requires AllRead(g, groups) && rest != [] && StartsImage(rest) && !(separated && rest[0] == "-")
    ensures Scan(g, Arguments(groups) + (Dashes(separated) + rest)) == Ok((groups, rest))
    decreases |groups|
  {
    var tail := Dashes(separated) + rest;
    if groups == [] {
      ScanReadsImage(g, separated, rest);
      assert Arguments(groups) + tail == tail;
    } else {
      ScanReadsBoth(g, groups[1..], separated, rest);
      FirstApart(groups, tail);
      ScanFirst(g, groups[0], Arguments(groups[1..]) + tail, groups[1..], rest);
      assert groups == [groups[0]] + groups[1..];
    }
  }

  lemma {:induction false} NothingDashed(groups: seq<Group>, env: bool, mounts: bool)
    requires forall i | 0 <= i < |groups| :: "--" !in groups[i].raw
    ensures DashOption(Left(groups, env, mounts)).None?
  {
    if groups != [] {
      var n := |groups| - 1;
      assert forall i | 0 <= i < n :: groups[..n][i] == groups[i];
      NothingDashed(groups[..n], env, mounts);
      LeftNext(groups, n, env, mounts);
      assert groups[..n + 1] == groups;
      OneKept(Left(groups[..n], env, mounts), groups[n], env, mounts);
    }
  }
}
