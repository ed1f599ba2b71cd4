/**
 * The options of "docker run" and "podman run": how many arguments each takes, and a scanner that reads one
 * option without touching what follows it.
 */
module RunOptions {
  import opened Text

  datatype Arity = Boolean | Value
  datatype Grammar = Grammar(long: map<string, Arity>, short: map<char, Arity>)
  datatype Executor = Docker | Podman

  const DOCKER_VALUE_LONG: set<string> := {
    "add-host", "annotation", "attach", "blkio-weight", "blkio-weight-device", "cap-add", "cap-drop",
    "cgroup-parent", "cgroupns", "cidfile", "cpu-count", "cpu-percent", "cpu-period", "cpu-quota",
    "cpu-rt-period", "cpu-rt-runtime", "cpu-shares", "cpus", "cpuset-cpus", "cpuset-mems", "detach-keys",
    "device", "device-cgroup-rule", "device-read-bps", "device-read-iops", "device-write-bps",
    "device-write-iops", "dns", "dns-opt", "dns-option", "dns-search", "domainname", "entrypoint", "env",
    "env-file", "expose", "gpus", "group-add", "health-cmd", "health-interval", "health-retries",
    "health-start-interval", "health-start-period", "health-timeout", "hostname", "io-maxbandwidth",
    "io-maxiops", "ip", "ip6", "ipc", "isolation", "kernel-memory", "label", "label-file", "link",
    "link-local-ip", "log-driver", "log-opt", "mac-address", "memory", "memory-reservation", "memory-swap",
    "memory-swappiness", "mount", "name", "net", "net-alias", "network", "network-alias", "oom-score-adj",
    "pid", "pids-limit", "platform", "publish", "pull", "restart", "runtime", "security-opt", "shm-size",
    "stop-signal", "stop-timeout", "storage-opt", "sysctl", "tmpfs", "ulimit", "user", "userns", "uts",
    "volume", "volume-driver", "volumes-from", "workdir"
  }

  const DOCKER_BOOLEAN_LONG: set<string> := {
    "detach", "disable-content-trust", "help", "init", "interactive", "no-healthcheck", "oom-kill-disable",
    "privileged", "publish-all", "quiet", "read-only", "rm", "sig-proxy", "tty", "use-api-socket"
  }

  const PODMAN_VALUE_LONG: set<string> := {
    "arch", "authfile", "cert-dir", "cgroup-conf", "cgroups", "chrootdirs", "conmon-pidfile", "creds",
    "decryption-key", "env-merge", "gidmap", "group-entry", "health-log-destination", "health-max-log-count",
    "health-max-log-size", "health-on-failure", "health-startup-cmd", "health-startup-interval",
    "health-startup-retries", "health-startup-success", "health-startup-timeout", "hosts-file", "hostuser",
    "image-volume", "init-path", "os", "passwd-entry", "personality", "pidfile", "pod", "pod-id-file",
    "preserve-fd", "preserve-fds", "rdt-class", "requires", "retry", "retry-delay", "sdnotify",
    "seccomp-policy", "secret", "shm-size-systemd", "signature-policy", "subgidname", "subuidname", "systemd",
    "timeout", "tz", "uidmap", "umask", "unsetenv", "variant"
  }

  const PODMAN_BOOLEAN_LONG: set<string> := {
    "env-host", "http-proxy", "no-hostname", "no-hosts", "read-only-tmpfs", "replace", "rmi", "rootfs",
    "passwd", "tls-verify", "unsetenv-all"
  }

  function WithLong(long: map<string, Arity>, valueLong: set<string>, booleanLong: set<string>): map<string, Arity> {
    long + (map name | name in valueLong :: Value) + (map name | name in booleanLong :: Boolean)
  }

  function NewGrammar(valueLong: set<string>, booleanLong: set<string>, valueShort: string, booleanShort: string): Grammar {
    Grammar(WithLong(map[], valueLong, booleanLong),
            (map c | c in valueShort :: Value) + (map c | c in booleanShort :: Boolean))
  }

  function GrammarOf(executor: Executor): Grammar {
    var docker := NewGrammar(DOCKER_VALUE_LONG, DOCKER_BOOLEAN_LONG, "acehlmpuvw", "diPqt");
    if executor.Docker? then docker
    else Grammar(WithLong(docker.long, PODMAN_VALUE_LONG, PODMAN_BOOLEAN_LONG), docker.short)
  }

  /** What the structured import relies on: --env, --mount, --volume, -e and -v take a value. */
  predicate Knows(g: Grammar) {
    && (forall name | name in {"env", "mount", "volume"} :: name in g.long && g.long[name] == Value)
    && (forall c | c in {'e', 'v'} :: c in g.short && g.short[c] == Value)
  }

  lemma WithLongKnows(long: map<string, Arity>, valueLong: set<string>, booleanLong: set<string>, name: string)
    requires name !in booleanLong
    requires name in valueLong || (name in long && long[name] == Value)
    ensures name in WithLong(long, valueLong, booleanLong) && WithLong(long, valueLong, booleanLong)[name] == Value
  {
  }

  lemma ListedAsValues(name: string)
    requires name == "env" || name == "mount" || name == "volume"
    ensures name in DOCKER_VALUE_LONG && name !in DOCKER_BOOLEAN_LONG && name !in PODMAN_BOOLEAN_LONG
  {
    assert |name| in {3, 5, 6} && name[0] in {'e', 'm', 'v'};
  }

  lemma BothGrammarsKnow(executor: Executor)
    ensures Knows(GrammarOf(executor))
  {
    var docker := WithLong(map[], DOCKER_VALUE_LONG, DOCKER_BOOLEAN_LONG);
    forall name | name in {"env", "mount", "volume"}
      ensures name in GrammarOf(executor).long && GrammarOf(executor).long[name] == Value
    {
      ListedAsValues(name);
      WithLongKnows(map[], DOCKER_VALUE_LONG, DOCKER_BOOLEAN_LONG, name);
      WithLongKnows(docker, PODMAN_VALUE_LONG, PODMAN_BOOLEAN_LONG, name);
    }
    assert "acehlmpuvw"[2] == 'e' && "acehlmpuvw"[8] == 'v';
  }

  datatype RunOption = RunOption(name: string, value: string, consumed: nat, known: bool, clustered: bool)

  datatype Reason = OptionMissing | BlankName | UnknownArity | ValueMissing | UnknownShorthand(c: char)
  predicate HasPrefix(s: string, prefix: string) { prefix <= s }

  const PLAIN := RunOption("", "", 1, true, false)

  /** The value option shorthands[index], whose value is attached to it or is the next argument. */
  function ShortValue(shorthands: string, index: nat, args: seq<string>): (r: Result<RunOption, Reason>)
    requires index < |shorthands| && args != []
    ensures r.Ok? ==> 0 < r.value.consumed <= |args|
    ensures r.Ok? ==> r.value.name == "" || r.value.name == "env" || r.value.name == "volume"
  {
    var c, attached := shorthands[index], shorthands[index + 1..];
    var name := if c == 'e' then "env" else if c == 'v' then "volume" else "";
    var clustered := name != "" && index != 0;
    if attached == "" then
      if |args| < 2 then Err(ValueMissing) else Ok(RunOption(name, args[1], 2, true, clustered))
    else Ok(RunOption(name, if attached[0] == '=' then attached[1..] else attached, 1, true, clustered))
  }

  /** The shorthands of one argument from index on: booleans, then at most one value option or one boolean=text. */
  function Shorthands(g: Grammar, shorthands: string, index: nat, args: seq<string>): (r: Result<RunOption, Reason>)
    requires index <= |shorthands| && args != []
    ensures r.Ok? ==> 0 < r.value.consumed <= |args|
    ensures r.Ok? ==> r.value.name == "" || r.value.name == "env" || r.value.name == "volume"
    decreases |shorthands| - index
  {
    if index == |shorthands| then Ok(PLAIN)
    else
      var c := shorthands[index];
      if c !in g.short then Err(UnknownShorthand(c))
      else if g.short[c] == Value then ShortValue(shorthands, index, args)
      else if index + 1 < |shorthands| && shorthands[index + 1] == '=' then Ok(PLAIN)
      else Shorthands(g, shorthands, index + 1, args)
  }

  function LongOption(g: Grammar, nameValue: string, args: seq<string>): (r: Result<RunOption, Reason>)
    requires args != []
    ensures r.Ok? ==> 0 < r.value.consumed <= |args|
  {
    var cut := IndexOf(nameValue, '=');
    if nameValue == "" || cut == 0 then Err(BlankName)
    else if cut < |nameValue| then
      Ok(RunOption(nameValue[..cut], nameValue[cut + 1..], 1, nameValue[..cut] in g.long, false))
    else if nameValue !in g.long then Err(UnknownArity)
    else if g.long[nameValue] == Boolean then Ok(RunOption(nameValue, "", 1, true, false))
    else if |args| < 2 then Err(ValueMissing)
    else Ok(RunOption(nameValue, args[1], 2, true, false))
  }

  /** What ParseContainerRunOption computes. */
  function OptionAt(g: Grammar, args: seq<string>): (r: Result<RunOption, Reason>)
    ensures r.Ok? ==> 0 < r.value.consumed <= |args|
  {
    if args == [] then Err(OptionMissing)
    else if HasPrefix(args[0], "--") then LongOption(g, args[0][2..], args)
    else
      var shorthands := if HasPrefix(args[0], "-") then args[0][1..] else args[0];
      if shorthands == "" then Err(BlankName) else Shorthands(g, shorthands, 0, args)
  }

  /** ParseContainerRunOption. */
  method ParseContainerRunOption(g: Grammar, args: seq<string>) returns (r: Result<RunOption, Reason>)
    ensures r == OptionAt(g, args)
  {
    if |args| == 0 {
      return Err(OptionMissing);
    }
    var argument := args[0];
    if HasPrefix(argument, "--") {
      var nameValue := argument[2..];
      if nameValue == "" {
        return Err(BlankName);
      }
      var cut := IndexOf(nameValue, '=');
      if cut < |nameValue| {
        if cut == 0 {
          return Err(BlankName);
        }
        return Ok(RunOption(nameValue[..cut], nameValue[cut + 1..], 1, nameValue[..cut] in g.long, false));
      }
      if nameValue !in g.long {
        return Err(UnknownArity);
      }
      if g.long[nameValue] == Boolean {
        return Ok(RunOption(nameValue, "", 1, true, false));
      }
      if |args| < 2 {
        return Err(ValueMissing);
      }
      return Ok(RunOption(nameValue, args[1], 2, true, false));
    }
    var shorthands := if HasPrefix(argument, "-") then argument[1..] else argument;
    if shorthands == "" {
      return Err(BlankName);
    }
    var index := 0;
    while index < |shorthands|
      invariant 0 <= index <= |shorthands|
      invariant OptionAt(g, args) == Shorthands(g, shorthands, index, args)
    {
      var shortName := shorthands[index];
      if shortName !in g.short {
        return Err(UnknownShorthand(shortName));
      }
      if g.short[shortName] == Boolean {
        if index + 1 < |shorthands| && shorthands[index + 1] == '=' {
          return Ok(PLAIN);
        }
        index := index + 1;
        continue;
      }
      var value := shorthands[index + 1..];
      var hasAttachedValue := value != "";
      var consumed := 1;
      if HasPrefix(value, "=") {
        value := value[1..];
      }
      if !hasAttachedValue {
        if |args| < 2 {
          return Err(ValueMissing);
        }
        value := args[1];
        consumed := 2;
      }
      var name := "";
      match shortName {
        case 'e' => name := "env";
        case 'v' => name := "volume";
        case _ =>
      }
      return Ok(RunOption(name, value, consumed, true, name != "" && index != 0));
    }
    return Ok(PLAIN);
  }

  // ---- Properties ----

  lemma {:induction false} ShorthandsAreLocal(g: Grammar, shorthands: string, index: nat, a: seq<string>, b: seq<string>)
    requires index <= |shorthands| && a != [] && b != [] && a[0] == b[0]
    requires var o := Shorthands(g, shorthands, index, a); o.Ok? && o.value.consumed <= |b| && a[..o.value.consumed] == b[..o.value.consumed]
    ensures Shorthands(g, shorthands, index, a) == Shorthands(g, shorthands, index, b)
    decreases |shorthands| - index
  {
    if index < |shorthands| && shorthands[index] in g.short {
      if g.short[shorthands[index]] == Value {
        var o := ShortValue(shorthands, index, a);
        if o.value.consumed == 2 {
          assert a[1] == a[..2][1] == b[..2][1] == b[1];
        }
      } else if !(index + 1 < |shorthands| && shorthands[index + 1] == '=') {
        ShorthandsAreLocal(g, shorthands, index + 1, a, b);
      }
    }
  }

  /** An option is read from its own arguments alone: any text may follow them. */
  lemma OptionsAreLocal(g: Grammar, a: seq<string>, b: seq<string>)
    requires OptionAt(g, a).Ok? && OptionAt(g, a).value.consumed <= |b|
    requires a[..OptionAt(g, a).value.consumed] == b[..OptionAt(g, a).value.consumed]
    ensures OptionAt(g, b) == OptionAt(g, a)
  {
    var n := OptionAt(g, a).value.consumed;
    assert a[0] == a[..n][0] == b[..n][0] == b[0];
    assert n == 2 ==> a[1] == a[..n][1] == b[..n][1] == b[1];
    if !HasPrefix(a[0], "--") {
      var shorthands := if HasPrefix(a[0], "-") then a[0][1..] else a[0];
      ShorthandsAreLocal(g, shorthands, 0, a, b);
    }
  }

  lemma {:induction false} LaterShorthandsAreClustered(g: Grammar, shorthands: string, index: nat, args: seq<string>)
    requires 0 < index <= |shorthands| && args != []
    ensures var o := Shorthands(g, shorthands, index, args);
            o.Ok? ==> o.value.known && (o.value.name != "" ==> o.value.clustered) && o.value.name != "mount"
    decreases |shorthands| - index
  {
    if index < |shorthands| && shorthands[index] in g.short && g.short[shorthands[index]] == Boolean {
      LaterShorthandsAreClustered(g, shorthands, index + 1, args);
    }
  }

  /** The ways to give value to the option with this long name and shorthand, when it stands alone. */
  function LongForms(name: string, value: string): set<seq<string>> {
    {["--" + name, value], ["--" + name + "=" + value]}
  }

  function ShortForms(c: char, value: string): set<seq<string>> {
    {[['-', c], value], [['-', c] + value], [['-', c] + "=" + value]}
  }

  lemma LongOptionForms(g: Grammar, args: seq<string>)
    requires args != [] && HasPrefix(args[0], "--")
    requires var o := OptionAt(g, args); o.Ok? && o.value.name in g.long && g.long[o.value.name] == Value
    ensures var o := OptionAt(g, args).value;
            args[..o.consumed] in LongForms(o.name, o.value) && o.known && !o.clustered
  {
    var o, nameValue := OptionAt(g, args).value, args[0][2..];
    assert args[0] == "--" + nameValue;
    var cut := IndexOf(nameValue, '=');
    if cut < |nameValue| {
      assert nameValue == o.name + "=" + o.value;
      assert args[0] == "--" + o.name + "=" + o.value;
      assert args[..1] == [args[0]];
    } else {
      assert args[..2] == [args[0], args[1]];
    }
  }

  lemma ShortOptionForms(g: Grammar, args: seq<string>)
    requires args != [] && !HasPrefix(args[0], "--") && HasPrefix(args[0], "-")
    requires var o := OptionAt(g, args); o.Ok? && o.value.name != "" && !o.value.clustered
    ensures var o := OptionAt(g, args).value;
            && (o.name == "env" || o.name == "volume") && o.known
            && args[..o.consumed] in ShortForms(if o.name == "env" then 'e' else 'v', o.value)
  {
    var o, shorthands := OptionAt(g, args).value, args[0][1..];
    assert args[0] == "-" + shorthands;
    if g.short[shorthands[0]] == Boolean {
      if !(1 < |shorthands| && shorthands[1] == '=') {
        LaterShorthandsAreClustered(g, shorthands, 1, args);
      }
      assert false;
    } else {
      var c, attached := shorthands[0], shorthands[1..];
      assert c == if o.name == "env" then 'e' else 'v';
      assert args[0] == ['-', c] + attached;
      if attached == "" {
        assert args[0] == ['-', c];
        assert args[..2] == [args[0], args[1]];
      } else if attached[0] == '=' {
        assert attached == "=" + o.value;
        assert args[0] == ['-', c] + "=" + o.value;
        assert args[..1] == [args[0]];
      } else {
        assert args[..1] == [['-', c] + o.value];
      }
    }
  }

  // ---- Reading what was written ----

  /** The first "=" ends the name; "--name" alone takes what the table says. */
  lemma LongFormsAreRead(g: Grammar, name: string, value: string, rest: seq<string>)
    requires name != "" && '=' !in name
    ensures OptionAt(g, ["--" + name + "=" + value] + rest) == Ok(RunOption(name, value, 1, name in g.long, false))
    ensures OptionAt(g, ["--" + name] + rest) ==
            if name !in g.long then Err(UnknownArity)
            else if g.long[name] == Boolean then Ok(RunOption(name, "", 1, true, false))
            else if rest == [] then Err(ValueMissing)
            else Ok(RunOption(name, rest[0], 2, true, false))
  {
    var written := name + "=" + value;
    assert written[|name|] == '=' && written[..|name|] == name && written[|name| + 1..] == value;
    assert forall i | 0 <= i < |name| :: written[i] == name[i];
    assert "--" + name + "=" + value == "--" + written;
    assert ("--" + written)[2..] == written && ("--" + name)[2..] == name;
  }

  /** These shorthands are all of boolean options. */
  predicate Switches(g: Grammar, flags: string) { forall i | 0 <= i < |flags| :: flags[i] in g.short && g.short[flags[i]] == Boolean }

  /** What a cluster that ends in the value option c gives: only -e and -v have a name. */
  function Given(c: char, flags: string, value: string, consumed: nat): RunOption {
    if c == 'e' then RunOption("env", value, consumed, true, flags != "")
    else if c == 'v' then RunOption("volume", value, consumed, true, flags != "")
    else RunOption("", value, consumed, true, false)
  }

  lemma {:induction false} SwitchesArePassed(g: Grammar, shorthands: string, index: nat, n: nat, args: seq<string>)
    requires index <= n <= |shorthands| && args != [] && Switches(g, shorthands[index..n]) && '=' !in g.short
    requires n < |shorthands| ==> shorthands[n] in g.short
    ensures Shorthands(g, shorthands, index, args) == Shorthands(g, shorthands, n, args)
    decreases n - index
  {
    if index < n {
      assert shorthands[index..n][0] == shorthands[index];
      assert shorthands[index..n][1..] == shorthands[index + 1..n];
      if index + 1 < n {
        assert shorthands[index..n][1] == shorthands[index + 1];
      }
      SwitchesArePassed(g, shorthands, index + 1, n, args);
    }
  }

  /** A value option after any number of switches: its value follows, with or without "=", or is the next argument. */
  lemma ClustersAreRead(g: Grammar, flags: string, c: char, text: string, rest: seq<string>)
    requires '=' !in g.short && '-' !in g.short && Switches(g, flags) && c in g.short && g.short[c] == Value
    ensures OptionAt(g, ["-" + flags + [c] + text] + rest) ==
            if text == "" then (if rest == [] then Err(ValueMissing) else Ok(Given(c, flags, rest[0], 2)))
            else Ok(Given(c, flags, if text[0] == '=' then text[1..] else text, 1))
  {
    var shorthands := flags + [c] + text;
    var args := ["-" + flags + [c] + text] + rest;
    assert args[0] == "-" + shorthands && args[0][1..] == shorthands;
    assert shorthands[0] == if flags == "" then c else flags[0];
    assert shorthands[0] in g.short;
    assert !HasPrefix(args[0], "--") by {
      assert args[0][1] == shorthands[0] != '-';
    }
    assert shorthands[0..|flags|] == flags && shorthands[|flags|] == c && shorthands[|flags| + 1..] == text;
    SwitchesArePassed(g, shorthands, 0, |flags|, args);
  }

  /** Switches alone, the last of them possibly with "=" and a text, are one argument that nothing depends on. */
  lemma SwitchesAreRead(g: Grammar, flags: string, text: string, rest: seq<string>)
    requires '=' !in g.short && '-' !in g.short && flags != "" && Switches(g, flags) && (text == "" || text[0] == '=')
    ensures OptionAt(g, ["-" + flags + text] + rest) == Ok(RunOption("", "", 1, true, false))
  {
    var shorthands := flags + text;
    var args := ["-" + flags + text] + rest;
    assert args[0] == "-" + shorthands && args[0][1..] == shorthands && shorthands[0] == flags[0];
    assert !HasPrefix(args[0], "--") by {
      assert args[0][1] == shorthands[0] != '-';
    }
    var last := |flags| - 1;
    assert shorthands[0..last] == flags[..last] && shorthands[last] == flags[last];
    SwitchesArePassed(g, shorthands, 0, last, args);
    if text != "" {
      assert shorthands[last + 1] == '=';
    }
  }

  lemma ShorthandsAreListed(valueLong: set<string>, booleanLong: set<string>, valueShort: string, booleanShort: string, c: char)
    ensures c in NewGrammar(valueLong, booleanLong, valueShort, booleanShort).short <==> c in valueShort || c in booleanShort
  {
  }

  /** Both tables have what the readings above ask for. */
  lemma NoMarkIsAShorthand(executor: Executor)
    ensures '=' !in GrammarOf(executor).short && '-' !in GrammarOf(executor).short
  {
    ShorthandsAreListed(DOCKER_VALUE_LONG, DOCKER_BOOLEAN_LONG, "acehlmpuvw", "diPqt", '=');
    ShorthandsAreListed(DOCKER_VALUE_LONG, DOCKER_BOOLEAN_LONG, "acehlmpuvw", "diPqt", '-');
  }
}
