/**
 * Importing a "docker run" or "podman run" command line: options that can be expressed as mounts and
 * environment entries are extracted when no other option could interact with them, and everything else stays
 * in container_args.
 */
module ContainerRun {
  import opened Text
  import opened RunOptions
  import opened ContainerMounts

  /** One option of the command line: its arguments and what they say. */
  datatype Group = Group(raw: seq<string>, option: RunOption)

  datatype Structured = Structured(image: string, containerArgs: seq<string>, mounts: seq<Mount>, env: map<string, string>,
                                   command: string, commandArgs: seq<string>)

  datatype Refusal =
    | NoImageAfterDashes
    | NeedsDashes(image: string)
    | BadOption(argument: string, reason: Reason)
    | NoImage
    | DashValue(option: string)

  datatype Outcome = NotRun | Refused(refusal: Refusal) | Parsed(result: Structured)

  // ---- The options before the image ----

  predicate StartsOption(argument: string) { HasPrefix(argument, "-") && argument != "-" && argument != "--" }

  /** The options, and the arguments from the image on. */
  function Scan(g: Grammar, args: seq<string>): Result<(seq<Group>, seq<string>), Refusal>
    decreases |args|
  {
    if args == [] then Ok(([], []))
    else if args[0] == "--" then
      if |args| == 1 then Err(NoImageAfterDashes)
      else if HasPrefix(args[1], "-") then Err(NeedsDashes(args[1]))
      else Ok(([], args[1..]))
    else if !StartsOption(args[0]) then Ok(([], args))
    else
      var option := OptionAt(g, args);
      if option.Err? then Err(BadOption(args[0], option.error))
      else
        var rest := Scan(g, args[option.value.consumed..]);
        if rest.Err? then rest
        else Ok(([Group(args[..option.value.consumed], option.value)] + rest.value.0, rest.value.1))
  }

  // ---- What an option sets ----

  /** The variable that an unclustered --env or -e binds; a bare name or a bad name binds nothing. */
  function EnvBinding(o: RunOption): (r: Option<(string, string)>)
    ensures r.Some? ==> o.name == "env" && o.value == r.value.0 + "=" + r.value.1 && ValidVariable(r.value.0)
  {
    var cut := IndexOf(o.value, '=');
    if o.name == "env" && !o.clustered && 0 < cut < |o.value| && !HasNul(o.value[..cut]) then
      Some((o.value[..cut], o.value[cut + 1..]))
    else None
  }

  predicate ValidVariable(key: string) { key != "" && (forall i | 0 <= i < |key| :: key[i] != '=') && !HasNul(key) }

  function MountOf(o: RunOption): (r: Option<Mount>)
    ensures r.Some? ==> (o.name == "mount" || o.name == "volume")
  {
    if o.name == "mount" then LongBindMount(o.value)
    else if o.name == "volume" && !o.clustered then VolumeBindMount(o.value)
    else None
  }

  /** The option cannot change what the other options' variables mean. */
  predicate EnvHarmless(o: RunOption) {
    && o.known
    && (o.name == "env" ==> EnvBinding(o).Some?)
    && o.name !in {"env-file", "env-host", "env-merge", "http-proxy", "unsetenv", "unsetenv-all", "secret"}
  }

  predicate MountHarmless(o: RunOption) {
    && o.known
    && (o.name == "mount" || o.name == "volume" ==> MountOf(o).Some?)
    && o.name !in {"tmpfs", "volumes-from", "secret"}
  }

  function Keys(groups: seq<Group>): set<string> {
    if groups == [] then {}
    else
      var n := |groups| - 1;
      Keys(groups[..n]) + (if EnvBinding(groups[n].option).Some? then {EnvBinding(groups[n].option).value.0} else {})
  }

  /** Every option is harmless and no variable is bound twice. */
  predicate EnvSafe(groups: seq<Group>) {
    groups == [] ||
    var n := |groups| - 1;
    var o := groups[n].option;
    EnvSafe(groups[..n]) && EnvHarmless(o) && (EnvBinding(o).Some? ==> EnvBinding(o).value.0 !in Keys(groups[..n]))
  }

  predicate MountsSafe(groups: seq<Group>) { forall group | group in groups :: MountHarmless(group.option) }

  function Bindings(groups: seq<Group>): (env: map<string, string>)
    ensures env.Keys == Keys(groups)
  {
    if groups == [] then map[]
    else
      var n := |groups| - 1;
      var binding := EnvBinding(groups[n].option);
      var before := Bindings(groups[..n]);
      if binding.Some? then before[binding.value.0 := binding.value.1] else before
  }

  function Mounts(groups: seq<Group>): seq<Mount> {
    if groups == [] then []
    else
      var n := |groups| - 1;
      var mount := MountOf(groups[n].option);
      Mounts(groups[..n]) + (if mount.Some? then [mount.value] else [])
  }

  predicate Extracted(o: RunOption, envSafe: bool, mountsSafe: bool) {
    (envSafe && EnvBinding(o).Some?) || (mountsSafe && MountOf(o).Some?)
  }

  /** The options that are not extracted, in order. */
  function Left(groups: seq<Group>, envSafe: bool, mountsSafe: bool): seq<Group> {
    if groups == [] then []
    else
      var n := |groups| - 1;
      Left(groups[..n], envSafe, mountsSafe) + (if Extracted(groups[n].option, envSafe, mountsSafe) then [] else [groups[n]])
  }

  function Arguments(groups: seq<Group>): seq<string> {
    if groups == [] then [] else Arguments(groups[..|groups| - 1]) + groups[|groups| - 1].raw
  }

  /** The first option with an argument "--", which container_args cannot hold. */
  function DashOption(groups: seq<Group>): Option<Group> {
    if groups == [] then None
    else
      var n := |groups| - 1;
      if DashOption(groups[..n]).Some? then DashOption(groups[..n])
      else if "--" in groups[n].raw then Some(groups[n])
      else None
  }

  // ---- The result ----

  function Command(tail: seq<string>): string {
    if tail == [] || Blank(tail[0]) || HasPrefix(tail[0], "-") then "" else tail[0]
  }

  function CommandArgs(tail: seq<string>): seq<string> {
    if tail == [] || Blank(tail[0]) || HasPrefix(tail[0], "-") then tail else tail[1..]
  }

  function Assembled(groups: seq<Group>, rest: seq<string>): Outcome {
    var e, m := EnvSafe(groups), MountsSafe(groups);
    var left := Left(groups, e, m);
    if rest == [] || Blank(rest[0]) then Refused(NoImage)
    else if DashOption(left).Some? then Refused(DashValue(FirstOf(DashOption(left).value.raw)))
    else
      Parsed(Structured(rest[0], Arguments(left), if m then Mounts(groups) else [], if e then Bindings(groups) else map[],
                        Command(rest[1..]), CommandArgs(rest[1..])))
  }

  function FirstOf(raw: seq<string>): string { if raw == [] then "" else raw[0] }

  /** How many arguments name the run subcommand; none when this is another command. */
  function OptionStart(args: seq<string>): (n: nat)
    ensures n <= |args|
  {
    if args == [] then 0
    else if args[0] == "run" then 1
    else if |args| >= 2 && args[0] == "container" && args[1] == "run" then 2
    else 0
  }

  /** What parseStructuredContainerRun computes. */
  function Structure(g: Grammar, args: seq<string>): Outcome {
    var start := OptionStart(args);
    if start == 0 then NotRun
    else
      var scan := Scan(g, args[start..]);
      if scan.Err? then Refused(scan.error) else Assembled(scan.value.0, scan.value.1)
  }

  // ---- The scanner ----

  datatype ScannedRunOption = ScannedRunOption(raw: seq<string>, mount: Option<Mount>, hasEnv: bool)

  /** The variables of the scanner's loop. */
  datatype Scanned = Scanned(options: seq<ScannedRunOption>, environmentSafe: bool, mountsSafe: bool,
                             environment: map<string, string>)

  /** What they hold once these options have been read. */
  ghost predicate Tracks(groups: seq<Group>, s: Scanned) {
    && |s.options| == |groups|
    && (forall i | 0 <= i < |groups| :: ScansAs(groups[i], s.options[i], s.environmentSafe))
    && s.environmentSafe == EnvSafe(groups) && s.mountsSafe == MountsSafe(groups)
    && s.environment.Keys == Keys(groups) && (s.environmentSafe ==> s.environment == Bindings(groups))
  }

  ghost predicate ScansAs(group: Group, option: ScannedRunOption, environmentSafe: bool) {
    && option.raw == group.raw && option.mount == MountOf(group.option)
    && (environmentSafe ==> option.hasEnv == EnvBinding(group.option).Some?)
  }

  /** The scanner's variables after one more option. */
  function Note(s: Scanned, group: Group): Scanned {
    var o, binding := group.option, EnvBinding(group.option);
    var first := binding.Some? && binding.value.0 !in s.environment;
    Scanned(s.options + [ScannedRunOption(group.raw, MountOf(o), first)],
            s.environmentSafe && EnvHarmless(o) && (binding.Some? ==> first),
            s.mountsSafe && MountHarmless(o),
            if first then s.environment[binding.value.0 := binding.value.1] else s.environment)
  }

  function Noted(groups: seq<Group>): Scanned {
    if groups == [] then Scanned([], true, true, map[])
    else Note(Noted(groups[..|groups| - 1]), groups[|groups| - 1])
  }

  lemma NotedNext(groups: seq<Group>, group: Group)
    ensures Noted(groups + [group]) == Note(Noted(groups), group)
  {
    assert (groups + [group])[..|groups|] == groups;
  }

  lemma NoteTracks(groups: seq<Group>, s: Scanned, group: Group)
    requires Tracks(groups, s)
    ensures Tracks(groups + [group], Note(s, group))
  {
    var more, u := groups + [group], Note(s, group);
    assert more[..|more| - 1] == groups;
    assert u.mountsSafe == MountsSafe(more) by {
      assert forall x :: x in more <==> x in groups || x == group;
    }
    forall i | 0 <= i < |more| ensures ScansAs(more[i], u.options[i], u.environmentSafe) {
      if i < |groups| {
        assert ScansAs(groups[i], s.options[i], s.environmentSafe);
      }
    }
  }

  /** The flags and the environment are what the safety rules say about all options together. */
  lemma {:induction false} NotedTracks(groups: seq<Group>)
    ensures Tracks(groups, Noted(groups))
  {
    if groups != [] {
      var before, last := groups[..|groups| - 1], groups[|groups| - 1];
      assert groups == before + [last];
      NotedTracks(before);
      NoteTracks(before, Noted(before), last);
    }
  }

  function Prepend(groups: seq<Group>, r: Result<(seq<Group>, seq<string>), Refusal>): Result<(seq<Group>, seq<string>), Refusal> {
    if r.Err? then r else Ok((groups + r.value.0, r.value.1))
  }

  lemma ScanNext(g: Grammar, args: seq<string>, index: nat, groups: seq<Group>, o: RunOption)
    requires index < |args| && StartsOption(args[index]) && OptionAt(g, args[index..]) == Ok(o)
    ensures Prepend(groups, Scan(g, args[index..])) ==
            Prepend(groups + [Group(args[index..index + o.consumed], o)], Scan(g, args[index + o.consumed..]))
  {
    var rest := args[index..];
    assert rest[..o.consumed] == args[index..index + o.consumed] && rest[o.consumed..] == args[index + o.consumed..];
    var next := Scan(g, args[index + o.consumed..]);
    if next.Ok? {
      assert groups + ([Group(args[index..index + o.consumed], o)] + next.value.0)
          == groups + [Group(args[index..index + o.consumed], o)] + next.value.0;
    }
  }

  /** The two switches on the option's name. */
  method Classify(s: Scanned, raw: seq<string>, option: RunOption) returns (u: Scanned)
    ensures u == Note(s, Group(raw, option))
  {
    var scanned := ScannedRunOption(raw, None, false);
    var environmentSafe, mountsSafe, environment := s.environmentSafe, s.mountsSafe, s.environment;
    if !option.known {
      environmentSafe, mountsSafe := false, false;
    }
    if option.name == "env" {
      if option.clustered {
        environmentSafe := false;
      } else {
        var cut := IndexOf(option.value, '=');
        var key := option.value[..cut];
        if cut == |option.value| || key == "" || HasNul(key) || key in environment {
          environmentSafe := false;
        } else {
          environment := environment[key := option.value[cut + 1..]];
          scanned := scanned.(hasEnv := true);
        }
      }
    } else if option.name == "mount" {
      var mount := ParseLongBindMount(option.value);
      if mount.None? {
        mountsSafe := false;
      }
      scanned := scanned.(mount := mount);
    } else if option.name == "volume" {
      if option.clustered {
        mountsSafe := false;
      } else {
        var mount := VolumeBindMount(option.value);
        if mount.None? {
          mountsSafe := false;
        }
        scanned := scanned.(mount := mount);
      }
    }
    if option.name in {"env-file", "env-host", "env-merge", "http-proxy", "unsetenv", "unsetenv-all"} {
      environmentSafe := false;
    } else if option.name in {"tmpfs", "volumes-from"} {
      mountsSafe := false;
    } else if option.name == "secret" {
      environmentSafe, mountsSafe := false, false;
    }
    u := Scanned(s.options + [scanned], environmentSafe, mountsSafe, environment);
  }

  lemma ScanEnds(g: Grammar, args: seq<string>, index: nat, groups: seq<Group>)
    requires index <= |args| && (index < |args| ==> args[index] != "--" && !StartsOption(args[index]))
    ensures Prepend(groups, Scan(g, args[index..])) == Ok((groups, args[index..]))
  {
    assert groups + [] == groups;
  }

  lemma ScanDashes(g: Grammar, args: seq<string>, index: nat, groups: seq<Group>)
    requires index < |args| && args[index] == "--"
    ensures Prepend(groups, Scan(g, args[index..])) ==
            if index + 1 == |args| then Err(NoImageAfterDashes)
            else if HasPrefix(args[index + 1], "-") then Err(NeedsDashes(args[index + 1]))
            else Ok((groups, args[index + 1..]))
  {
    assert groups + [] == groups;
    assert args[index..][1..] == args[index + 1..];
  }

  lemma ScanFails(g: Grammar, args: seq<string>, index: nat, groups: seq<Group>)
    requires index < |args| && StartsOption(args[index]) && OptionAt(g, args[index..]).Err?
    ensures Prepend(groups, Scan(g, args[index..])) == Err(BadOption(args[index], OptionAt(g, args[index..]).error))
  {
  }

  lemma PrependNothing(r: Result<(seq<Group>, seq<string>), Refusal>)
    ensures Prepend([], r) == r
  {
    assert r.Ok? ==> [] + r.value.0 == r.value.0;
  }

  /** Where the scan stands: these options have been read, and the rest of the command line is still to be scanned. */
  ghost predicate At(g: Grammar, args: seq<string>, index: nat, groups: seq<Group>, s: Scanned,
      outcome: Result<(seq<Group>, seq<string>), Refusal>)
  {
    index <= |args| && s == Noted(groups) && outcome == Prepend(groups, Scan(g, args[index..]))
  }

  ghost predicate DoneAt(args: seq<string>, index: nat, groups: seq<Group>, s: Scanned,
      outcome: Result<(seq<Group>, seq<string>), Refusal>)
  {
    index <= |args| && s == Noted(groups) && outcome == Ok((groups, args[index..]))
  }

  lemma AtNext(g: Grammar, args: seq<string>, index: nat, groups: seq<Group>, s: Scanned,
      outcome: Result<(seq<Group>, seq<string>), Refusal>, o: RunOption)
    requires index < |args| && StartsOption(args[index]) && OptionAt(g, args[index..]) == Ok(o)
    requires At(g, args, index, groups, s, outcome)
    ensures var group := Group(args[index..index + o.consumed], o);
            At(g, args, index + o.consumed, groups + [group], Note(s, group), outcome)
  {
    ScanNext(g, args, index, groups, o);
    NotedNext(groups, Group(args[index..index + o.consumed], o));
  }

  /** One turn of the loop, at an argument that starts an option. */
  method ScanOption(g: Grammar, args: seq<string>, at: nat, s: Scanned)
    returns (failed: Option<Refusal>, index: nat, u: Scanned)
    requires at < |args|
    ensures match OptionAt(g, args[at..])
            case Err(reason) => failed == Some(BadOption(args[at], reason))
            case Ok(o) => failed.None? && index == at + o.consumed && u == Note(s, Group(args[at..index], o))
  {
    var option := ParseContainerRunOption(g, args[at..]);
    if option.Err? {
      return Some(BadOption(args[at], option.error)), at, s;
    }
    failed, index := None, at + option.value.consumed;
    u := Classify(s, args[at..index], option.value);
  }

  /** The end of the loop, at "--" or at an argument that starts no option. */
  method ScanEnd(g: Grammar, args: seq<string>, at: nat, ghost s: Scanned, ghost groups: seq<Group>,
      ghost outcome: Result<(seq<Group>, seq<string>), Refusal>)
    returns (failed: Option<Refusal>, index: nat)
    requires At(g, args, at, groups, s, outcome) && (at < |args| ==> !StartsOption(args[at]))
    ensures failed.Some? ==> outcome == Err(failed.value)
    ensures failed.None? ==> DoneAt(args, index, groups, s, outcome)
  {
    failed, index := None, at;
    if at < |args| && args[at] == "--" {
      ScanDashes(g, args, at, groups);
      index := at + 1;
      if index >= |args| {
        failed := Some(NoImageAfterDashes);
      } else if HasPrefix(args[index], "-") {
        failed := Some(NeedsDashes(args[index]));
      }
    } else {
      ScanEnds(g, args, at, groups);
    }
  }

  /** The same turn, as a step of the scan. */
  method ScanTurn(g: Grammar, args: seq<string>, at: nat, s: Scanned, ghost groups: seq<Group>,
      ghost outcome: Result<(seq<Group>, seq<string>), Refusal>)
    returns (failed: Option<Refusal>, index: nat, u: Scanned, ghost more: seq<Group>)
    requires at < |args| && StartsOption(args[at]) && At(g, args, at, groups, s, outcome)
    ensures failed.Some? ==> outcome == Err(failed.value)
    ensures failed.None? ==> at < index && At(g, args, index, more, u, outcome)
  {
    more := groups;
    failed, index, u := ScanOption(g, args, at, s);
    if failed.Some? {
      ScanFails(g, args, at, groups);
    } else {
      AtNext(g, args, at, groups, s, outcome, OptionAt(g, args[at..]).value);
      more := groups + [Group(args[at..index], OptionAt(g, args[at..]).value)];
    }
  }

  /** The loop over the options. */
  method ScanOptions(g: Grammar, args: seq<string>, optionStart: nat)
    returns (failed: Option<Refusal>, index: nat, s: Scanned, ghost groups: seq<Group>)
    requires optionStart <= |args|
    ensures failed.Some? ==> Scan(g, args[optionStart..]) == Err(failed.value)
    ensures failed.None? ==> DoneAt(args, index, groups, s, Scan(g, args[optionStart..]))
  {
    failed, index, s, groups := None, optionStart, Scanned([], true, true, map[]), [];
    ghost var outcome := Scan(g, args[optionStart..]);
    PrependNothing(outcome);
    while index < |args| && StartsOption(args[index])
      invariant At(g, args, index, groups, s, outcome)
    {
      failed, index, s, groups := ScanTurn(g, args, index, s, groups, outcome);
      if failed.Some? {
        return;
      }
    }
    failed, index := ScanEnd(g, args, index, s, groups, outcome);
  }

  function Kept(group: Group, e: bool, m: bool): seq<Group> { if Extracted(group.option, e, m) then [] else [group] }

  lemma LeftNext(groups: seq<Group>, i: nat, e: bool, m: bool)
    requires i < |groups|
    ensures Left(groups[..i + 1], e, m) == Left(groups[..i], e, m) + Kept(groups[i], e, m)
    ensures Mounts(groups[..i + 1]) ==
            Mounts(groups[..i]) + (if MountOf(groups[i].option).Some? then [MountOf(groups[i].option).value] else [])
  {
    assert groups[..i + 1][..i] == groups[..i];
  }

  lemma OneMore(groups: seq<Group>, group: Group)
    ensures Arguments(groups + [group]) == Arguments(groups) + group.raw
    ensures DashOption(groups + [group]) ==
            if DashOption(groups).Some? then DashOption(groups) else if "--" in group.raw then Some(group) else None
  {
    assert (groups + [group])[..|groups|] == groups;
  }

  lemma OneKept(left: seq<Group>, group: Group, e: bool, m: bool)
    ensures Arguments(left + Kept(group, e, m)) == Arguments(left) + (if Extracted(group.option, e, m) then [] else group.raw)
    ensures DashOption(left + Kept(group, e, m)) ==
            if DashOption(left).Some? then DashOption(left)
            else if !Extracted(group.option, e, m) && "--" in group.raw then Some(group)
            else None
  {
    if Extracted(group.option, e, m) {
      assert left + [] == left && Arguments(left) + [] == Arguments(left);
    } else {
      OneMore(left, group);
    }
  }

  lemma {:induction false} DashStays(groups: seq<Group>, i: nat, e: bool, m: bool)
    requires i <= |groups| && DashOption(Left(groups[..i], e, m)).Some?
    ensures DashOption(Left(groups, e, m)) == DashOption(Left(groups[..i], e, m))
    decreases |groups| - i
  {
    if i == |groups| {
      assert groups[..i] == groups;
    } else {
      LeftNext(groups, i, e, m);
      var left := Left(groups[..i], e, m);
      OneKept(left, groups[i], e, m);
      DashStays(groups, i + 1, e, m);
    }
  }

  /** What the second loop holds after the first i options. */
  ghost predicate ExtractsTo(groups: seq<Group>, i: nat, e: bool, m: bool, containerArgs: seq<string>, mounts: seq<Mount>)
    requires i <= |groups|
  {
    var left := Left(groups[..i], e, m);
    DashOption(left).None? && containerArgs == Arguments(left) && mounts == if m then Mounts(groups[..i]) else []
  }

  lemma ExtractNext(groups: seq<Group>, i: nat, e: bool, m: bool, containerArgs: seq<string>, mounts: seq<Mount>)
    requires i < |groups| && ExtractsTo(groups, i, e, m, containerArgs, mounts)
    ensures var group, mount := groups[i], MountOf(groups[i].option);
            if Extracted(group.option, e, m) then
              ExtractsTo(groups, i + 1, e, m, containerArgs, if m && mount.Some? then mounts + [mount.value] else mounts)
            else if "--" in group.raw then DashOption(Left(groups, e, m)) == Some(group)
            else ExtractsTo(groups, i + 1, e, m, containerArgs + group.raw, mounts)
  {
    LeftNext(groups, i, e, m);
    var left := Left(groups[..i], e, m);
    OneKept(left, groups[i], e, m);
    if !Extracted(groups[i].option, e, m) && "--" in groups[i].raw {
      DashStays(groups, i + 1, e, m);
    }
  }

  /** The loop over the options that were read: what is extracted and what stays. */
  method Extract(s: Scanned, ghost groups: seq<Group>)
    returns (failed: Option<Refusal>, containerArgs: seq<string>, mounts: seq<Mount>)
    requires s == Noted(groups)
    ensures var left := Left(groups, s.environmentSafe, s.mountsSafe);
            if DashOption(left).Some? then failed == Some(DashValue(FirstOf(DashOption(left).value.raw)))
            else failed.None? && containerArgs == Arguments(left) && mounts == if s.mountsSafe then Mounts(groups) else []
  {
    NotedTracks(groups);
    failed, containerArgs, mounts := None, [], [];
    ghost var e, m := s.environmentSafe, s.mountsSafe;
    var i := 0;
    while i < |s.options|
      invariant 0 <= i <= |groups|
      invariant ExtractsTo(groups, i, e, m, containerArgs, mounts)
    {
      var option := s.options[i];
      assert ScansAs(groups[i], option, e);
      ExtractNext(groups, i, e, m, containerArgs, mounts);
      var extractEnvironment, extractMount := s.environmentSafe && option.hasEnv, s.mountsSafe && option.mount.Some?;
      if extractMount {
        mounts := mounts + [option.mount.value];
      }
      if !extractEnvironment && !extractMount {
        if "--" in option.raw {
          return Some(DashValue(FirstOf(option.raw))), containerArgs, mounts;
        }
        containerArgs := containerArgs + option.raw;
      }
      i := i + 1;
    }
    assert groups[..i] == groups;
  }

  /** parseStructuredContainerRun. */
  method ParseStructuredContainerRun(g: Grammar, args: seq<string>) returns (r: Outcome)
    ensures r == Structure(g, args)
  {
    var optionStart := OptionStart(args);
    if optionStart == 0 {
      return NotRun;
    }
    var failed, index, s, groups := ScanOptions(g, args, optionStart);
    if failed.Some? {
      return Refused(failed.value);
    }
    r := Assemble(args[index..], s, groups);
  }

  /** The result, from the options that were read and the arguments after them. */
  method Assemble(rest: seq<string>, s: Scanned, ghost groups: seq<Group>) returns (r: Outcome)
    requires s == Noted(groups)
    ensures r == Assembled(groups, rest)
  {
    if |rest| == 0 || Blank(rest[0]) {
      return Refused(NoImage);
    }
    NotedTracks(groups);
    var dashes, containerArgs, mounts := Extract(s, groups);
    if dashes.Some? {
      return Refused(dashes.value);
    }
    var result := Structured(rest[0], containerArgs, mounts, if s.environmentSafe then s.environment else map[], "", []);
    if |rest| > 1 {
      if Blank(rest[1]) || HasPrefix(rest[1], "-") {
        result := result.(commandArgs := rest[1..]);
      } else {
        result := result.(command := rest[1], commandArgs := rest[2..]);
      }
    }
    return Parsed(result);
  }
}
