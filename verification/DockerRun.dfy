/** A `docker run` token list taken apart into the fields a submission carries
    (backend/app/control/engine_command.py), against the list the ssh driver
    renders (backend/app/control/launch/ssh_docker.py). */
module DockerRun {
  import opened Text

  /** The options that take the next token as their value. */
  predicate TakesValue(opt: string) { opt in CONTAINER_OPTS || opt in HOST_OPTS }

  predicate IsSwitch(opt: string) { opt in BOOL_OPTS }

  /** Set by the platform itself: reported, never stored. */
  predicate IsManaged(opt: string) { opt in MANAGED_OPTS }

  const CONTAINER_OPTS: set<string> := {
    "-e", "--env", "-v", "--volume", "--mount", "--name", "--network", "--net",
    "--gpus", "--ulimit", "--entrypoint", "-p", "--publish", "--expose",
    "--restart", "--runtime", "--shm-size", "--security-opt", "--cap-add",
    "--cap-drop", "--device", "--label", "-l", "-w", "--workdir", "-u", "--user"}

  const HOST_OPTS: set<string> := {
    "--ipc", "--pid", "--uts", "--cpus", "--cpuset-cpus", "-m",
    "--memory", "--memory-swap", "--hostname", "-h", "--add-host", "--dns",
    "--env-file", "--log-driver", "--log-opt", "--stop-signal",
    "--stop-timeout", "--health-cmd", "--health-interval", "--health-retries",
    "--health-timeout"}

  const BOOL_OPTS: set<string> := {
    "-d", "--detach", "--rm", "-i", "-t", "-it", "-ti", "--interactive",
    "--tty", "--privileged", "--init", "--no-healthcheck", "--read-only",
    "-P", "--publish-all"}

  const MANAGED_OPTS: set<string> := {
    "--gpus", "--network", "--net", "--ipc", "--ulimit", "--name", "-d",
    "--detach", "--restart", "--runtime", "--security-opt", "--cap-add",
    "--rm", "-p", "--publish", "--entrypoint"}

  datatype Warning =
    | ReadAsSwitch(opt: string)
    | EnvWithoutValue(key: string)
    | VolumeWithoutPath(value: string)
    | MountDropped(value: string)
    | NotCarried(opt: string, value: string)
    | NoImage

  /** What the walk fills in. A platform-managed option is kept as pasted. */
  datatype Fields = Fields(
    image: string, env: map<string, string>, volumes: map<string, string>,
    managed: seq<(string, string)>, warnings: seq<Warning>)

  const NOTHING := Fields("", map[], map[], [], [])

  // ---- One option ----

  /** An option with its value and the tokens it was read from. */
  datatype Piece = Piece(opt: string, value: string, unknown: bool, tokens: seq<string>)

  predicate IsOption(t: string) { "-" <= t }

  function ReadOption(ts: seq<string>): (p: Piece)
    requires ts != []
    ensures 1 <= |p.tokens| <= |ts| && p.tokens == ts[..|p.tokens|]
  {
    var i := IndexOf(ts[0], '=');
    if i < |ts[0]| then Piece(ts[0][..i], ts[0][i + 1..], false, ts[..1])
    else if TakesValue(ts[0]) && |ts| > 1 then Piece(ts[0], ts[1], false, ts[..2])
    else Piece(ts[0], "", !IsSwitch(ts[0]) && !TakesValue(ts[0]), ts[..1])
  }

  function Before(s: string, c: char): string { s[..IndexOf(s, c)] }

  function After(s: string, c: char): string {
    var i := IndexOf(s, c);
    if i < |s| then s[i + 1..] else ""
  }

  function Warn(f: Fields, w: Warning): Fields { f.(warnings := f.warnings + [w]) }

  predicate IsEnv(opt: string) { opt == "-e" || opt == "--env" }
  predicate IsVolume(opt: string) { opt == "-v" || opt == "--volume" }

  /** What one option does to the fields. */
  function Apply(p: Piece, given: Fields): Fields {
    var f := if p.unknown then Warn(given, ReadAsSwitch(p.opt)) else given;
    if IsEnv(p.opt) then
      var key := Before(p.value, '=');
      var g := if '=' in p.value then f else Warn(f, EnvWithoutValue(key));
      g.(env := g.env[key := After(p.value, '=')])
    else if IsVolume(p.opt) then
      if ':' in p.value then f.(volumes := f.volumes[Before(p.value, ':') := After(p.value, ':')])
      else Warn(f, VolumeWithoutPath(p.value))
    else if p.opt == "--mount" then Warn(f, MountDropped(p.value))
    else if IsManaged(p.opt) then f.(managed := f.managed + [(p.opt, p.value)])
    else if !IsSwitch(p.opt) then Warn(f, NotCarried(p.opt, p.value))
    else f
  }

  // ---- The walk ----

  /** The docker section from here on: the fields, and the command after the
      image. */
  function Walk(ts: seq<string>, f: Fields): (Fields, seq<string>)
    decreases |ts|
  {
    if ts == [] then (Warn(f, NoImage), [])
    else if !IsOption(ts[0]) then (f.(image := ts[0]), ts[1..])
    else
      var p := ReadOption(ts);
      Walk(ts[|p.tokens|..], Apply(p, f))
  }

  method SplitDockerRun(tokens: seq<string>) returns (fields: Fields, command: seq<string>)
    requires "run" in tokens
    ensures exists r :: 0 <= r < |tokens| && tokens[r] == "run" && "run" !in tokens[..r]
                     && (fields, command) == Walk(tokens[r + 1..], NOTHING)
  {
    hide Walk, Apply, ReadOption, TakesValue, IsSwitch, IsManaged;
    var index := 0;
    while tokens[index] != "run"
      invariant 0 <= index < |tokens| && "run" !in tokens[..index]
      invariant "run" in tokens[index..]
      decreases |tokens| - index
    {
      assert tokens[index..] == [tokens[index]] + tokens[index + 1..];
      assert tokens[..index + 1] == tokens[..index] + [tokens[index]];
      index := index + 1;
    }
    ghost var r := index;
    index := index + 1;
    fields := NOTHING;
    while index < |tokens|
      invariant r < index <= |tokens|
      invariant Walk(tokens[index..], fields) == Walk(tokens[r + 1..], NOTHING)
      decreases |tokens| - index
    {
      var token := tokens[index];
      WalkOne(tokens[index..], fields);
      if !IsOption(token) {
        fields := fields.(image := token);
        command := tokens[index + 1..];
        assert tokens[index..][1..] == command;
        return;
      }
      var p := ReadOption(tokens[index..]);
      assert tokens[index..][|p.tokens|..] == tokens[index + |p.tokens|..];
      fields := Apply(p, fields);
      index := index + |p.tokens|;
    }
    assert tokens[index..] == [];
    WalkOne([], fields);
    fields := Warn(fields, NoImage);
    command := [];
  }

  lemma WalkOne(ts: seq<string>, f: Fields)
    ensures ts == [] ==> Walk(ts, f) == (Warn(f, NoImage), [])
    ensures ts != [] && !IsOption(ts[0]) ==> Walk(ts, f) == (f.(image := ts[0]), ts[1..])
    ensures ts != [] && IsOption(ts[0]) ==>
              Walk(ts, f) == Walk(ts[|ReadOption(ts).tokens|..], Apply(ReadOption(ts), f))
  {
    hide TakesValue, IsSwitch, IsManaged;
  }

  // ---- Nothing is dropped without a word ----

  /** The options before the image. */
  ghost function Pieces(ts: seq<string>): seq<Piece>
    decreases |ts|
  {
    if ts == [] || !IsOption(ts[0]) then []
    else [ReadOption(ts)] + Pieces(ts[|ReadOption(ts).tokens|..])
  }

  ghost function Tokens(ps: seq<Piece>): seq<string> {
    if ps == [] then [] else ps[0].tokens + Tokens(ps[1..])
  }

  ghost predicate Keeps(f: Fields, g: Fields) {
    && f.env.Keys <= g.env.Keys && f.volumes.Keys <= g.volumes.Keys
    && f.managed <= g.managed && f.warnings <= g.warnings
  }

  /** The option left its mark: as an env variable, a volume, a platform-managed
      option or a warning. Only the switches of BOOL_OPTS need not. */
  ghost predicate Accounted(p: Piece, f: Fields) {
    && (p.unknown ==> ReadAsSwitch(p.opt) in f.warnings)
    && (if IsEnv(p.opt) then
          Before(p.value, '=') in f.env && ('=' in p.value || EnvWithoutValue(Before(p.value, '=')) in f.warnings)
        else if IsVolume(p.opt) then
          if ':' in p.value then Before(p.value, ':') in f.volumes else VolumeWithoutPath(p.value) in f.warnings
        else if p.opt == "--mount" then MountDropped(p.value) in f.warnings
        else IsSwitch(p.opt) || (p.opt, p.value) in f.managed || NotCarried(p.opt, p.value) in f.warnings)
  }

  lemma AppliedIsAccounted(p: Piece, f: Fields)
    ensures Accounted(p, Apply(p, f)) && Keeps(f, Apply(p, f))
  {
    hide IndexOf, TakesValue, IsSwitch, IsManaged;
  }

  lemma StaysAccounted(p: Piece, f: Fields, g: Fields)
    requires Accounted(p, f) && Keeps(f, g)
    ensures Accounted(p, g)
  {
    hide IndexOf, Before;
  }

  lemma {:induction false} NothingDropped(ts: seq<string>, f: Fields)
    ensures Keeps(f, Walk(ts, f).0)
    ensures forall p :: p in Pieces(ts) ==> Accounted(p, Walk(ts, f).0)
    decreases |ts|
  {
    hide Accounted, Apply, ReadOption, TakesValue, IsSwitch, IsManaged;
    WalkOne(ts, f);
    if ts != [] && IsOption(ts[0]) {
      var p := ReadOption(ts);
      AppliedIsAccounted(p, f);
      NothingDropped(ts[|p.tokens|..], Apply(p, f));
      StaysAccounted(p, Apply(p, f), Walk(ts, f).0);
    }
  }

  /** The image is the first token that is no option's and does not begin with a
      dash; every option begins with one. */
  lemma {:induction false} ImageIsFirst(ts: seq<string>)
    ensures forall p :: p in Pieces(ts) ==> p.tokens != [] && p.tokens[0] != "" && p.tokens[0][0] == '-'
    ensures var n := |Tokens(Pieces(ts))|; n <= |ts| && (n < |ts| ==> ts[n] == "" || ts[n][0] != '-')
    decreases |ts|
  {
    hide ReadOption;
    if ts != [] && IsOption(ts[0]) {
      var p := ReadOption(ts);
      var rest := ts[|p.tokens|..];
      ImageIsFirst(rest);
      assert Pieces(ts) == [p] + Pieces(rest);
      assert Pieces(ts)[1..] == Pieces(rest);
      var n := |Tokens(Pieces(rest))|;
      assert n < |rest| ==> rest[n] == ts[|p.tokens| + n];
    }
  }

  // ---- What is said of each option ----

  ghost predicate Valued(opt: string) { opt in CONTAINER_OPTS + HOST_OPTS }

  ghost predicate Known(opt: string) { opt in CONTAINER_OPTS + HOST_OPTS + BOOL_OPTS }

  lemma OptionKinds(opt: string)
    ensures TakesValue(opt) <==> Valued(opt)
    ensures Known(opt) <==> Valued(opt) || IsSwitch(opt)
    ensures IsSwitch(opt) <==> opt in BOOL_OPTS
    ensures IsManaged(opt) <==> opt in MANAGED_OPTS
  {
  }

  /** An option with an `=` in it is split there. */
  lemma InlineIsRead(ts: seq<string>)
    requires ts != [] && '=' in ts[0]
    ensures var p := ReadOption(ts);
            '=' !in p.opt && ts[0] == p.opt + "=" + p.value && p.tokens == [ts[0]] && !p.unknown
  {
    hide TakesValue, IsSwitch;
    var i := IndexOf(ts[0], '=');
    assert ts[0] == ts[0][..i] + "=" + ts[0][i + 1..];
    assert ts[..1] == [ts[0]];
  }

  /** Another has the next token for its value exactly when it is one that takes
      a value and there is a next. */
  lemma PlainIsRead(ts: seq<string>)
    requires ts != [] && '=' !in ts[0]
    ensures var p := ReadOption(ts);
            && p.opt == ts[0] && (p.unknown <==> !Known(p.opt))
            && p.tokens == (if Valued(p.opt) && |ts| > 1 then [ts[0], ts[1]] else [ts[0]])
            && p.value == if Valued(p.opt) && |ts| > 1 then ts[1] else ""
  {
    OptionKinds(ts[0]);
    hide TakesValue, IsSwitch, Valued, Known;
    assert IndexOf(ts[0], '=') == |ts[0]|;
    hide IndexOf;
    assert ts[..1] == [ts[0]];
    assert |ts| > 1 ==> ts[..2] == [ts[0], ts[1]];
  }

  /** The option is one of those that set a field of their own. */
  ghost predicate Fills(p: Piece) {
    p.opt in {"-e", "--env", "-v", "--volume", "--mount"}
  }

  /** Why the warning is given. */
  ghost predicate Causes(p: Piece, w: Warning) {
    match w
    case ReadAsSwitch(opt) => p.opt == opt && p.tokens == [opt] && !Known(opt)
    case EnvWithoutValue(key) => p.opt in {"-e", "--env"} && '=' !in p.value && key == p.value
    case VolumeWithoutPath(value) => p.opt in {"-v", "--volume"} && ':' !in p.value && value == p.value
    case MountDropped(value) => p.opt == "--mount" && value == p.value
    case NotCarried(opt, value) =>
      !Fills(p) && p.opt !in MANAGED_OPTS && p.opt !in BOOL_OPTS && (opt, value) == (p.opt, p.value)
    case NoImage => false
  }

  lemma UnknownIs(ts: seq<string>)
    requires ts != []
    ensures var p := ReadOption(ts); p.unknown <==> p.tokens == [p.opt] && !Known(p.opt)
  {
    hide ReadOption, Known, Valued;
    OptionKinds(ts[0]);
    if '=' in ts[0] {
      InlineIsRead(ts);
    } else {
      PlainIsRead(ts);
    }
  }

  lemma AppliedWarns(ts: seq<string>, f: Fields, w: Warning)
    requires ts != []
    ensures var p := ReadOption(ts);
            w in Apply(p, f).warnings <==> w in f.warnings || Causes(p, w)
  {
    hide ReadOption, TakesValue, IsManaged, IsSwitch, Known, IndexOf, After, Before;
    UnknownIs(ts);
    var p := ReadOption(ts);
    OptionKinds(p.opt);
    BeforeAll(p.value);
  }

  lemma BeforeAll(s: string)
    ensures '=' !in s ==> Before(s, '=') == s
  {
  }

  lemma AppliedManages(p: Piece, f: Fields, opt: string, value: string)
    ensures (opt, value) in Apply(p, f).managed <==>
      (opt, value) in f.managed || (!Fills(p) && p.opt in MANAGED_OPTS && (opt, value) == (p.opt, p.value))
  {
    hide IndexOf, TakesValue;
  }

  ghost predicate SomeCauses(ps: seq<Piece>, w: Warning) {
    exists p :: p in ps && Causes(p, w)
  }

  lemma MoreCauses(p: Piece, ps: seq<Piece>, w: Warning)
    ensures SomeCauses([p] + ps, w) <==> Causes(p, w) || SomeCauses(ps, w)
  {
    hide Causes;
    assert p in [p] + ps;
    if SomeCauses(ps, w) {
      var x :| x in ps && Causes(x, w);
      assert x in [p] + ps;
    }
  }

  /** Each warning is there because of an option that deserves it, or because no
      image was found, and each that is deserved is there. */
  lemma {:induction false} WarnedExactly(ts: seq<string>, f: Fields, w: Warning)
    ensures w in Walk(ts, f).0.warnings <==>
      w in f.warnings || SomeCauses(Pieces(ts), w) || (w == NoImage && |Tokens(Pieces(ts))| == |ts|)
    decreases |ts|
  {
    hide Apply, ReadOption, TakesValue, IsSwitch, IsManaged, Causes, SomeCauses;
    WalkOne(ts, f);
    if ts != [] && IsOption(ts[0]) {
      var p := ReadOption(ts);
      var rest := ts[|p.tokens|..];
      WarnedExactly(rest, Apply(p, f), w);
      AppliedWarns(ts, f, w);
      MoreCauses(p, Pieces(rest), w);
      assert Pieces(ts) == [p] + Pieces(rest);
      assert Pieces(ts)[1..] == Pieces(rest);
    } else {
      NoneCauses(w);
    }
  }

  lemma NoneCauses(w: Warning)
    ensures !SomeCauses([], w)
  {
  }

  ghost predicate SomeManages(ps: seq<Piece>, opt: string, value: string) {
    exists p :: p in ps && !Fills(p) && p.opt in MANAGED_OPTS && (opt, value) == (p.opt, p.value)
  }

  /** What is reported as set by the platform is what was given of the options
      the platform sets. */
  lemma {:induction false} ManagedExactly(ts: seq<string>, f: Fields, opt: string, value: string)
    ensures (opt, value) in Walk(ts, f).0.managed <==>
      (opt, value) in f.managed || SomeManages(Pieces(ts), opt, value)
    decreases |ts|
  {
    hide Apply, ReadOption, TakesValue, IsSwitch, IsManaged, Fills;
    WalkOne(ts, f);
    if ts != [] && IsOption(ts[0]) {
      var p := ReadOption(ts);
      ManagedExactly(ts[|p.tokens|..], Apply(p, f), opt, value);
      AppliedManages(p, f, opt, value);
    }
  }

  /** Every token is an option's, the image, or the command after it. */
  lemma {:induction false} EveryTokenRead(ts: seq<string>, f: Fields)
    ensures var options, (fields, command) := Tokens(Pieces(ts)), Walk(ts, f);
            ts == options + (if |options| < |ts| then [fields.image] else []) + command
    decreases |ts|
  {
    hide Apply, ReadOption, TakesValue, IsSwitch, IsManaged;
    WalkOne(ts, f);
    if ts != [] && IsOption(ts[0]) {
      var p := ReadOption(ts);
      var rest := ts[|p.tokens|..];
      EveryTokenRead(rest, Apply(p, f));
      assert ts == p.tokens + rest;
      assert Pieces(ts)[1..] == Pieces(rest);
      assert Tokens(Pieces(ts)) == p.tokens + Tokens(Pieces(rest));
    } else if ts != [] {
      assert ts == [ts[0]] + ts[1..];
    }
  }

  /** The value of the last `-e` that names the key. */
  ghost function LastEnv(ps: seq<Piece>, key: string): Option<string> {
    if ps == [] then None
    else
      var last := ps[|ps| - 1];
      if IsEnv(last.opt) && Before(last.value, '=') == key then Some(After(last.value, '='))
      else LastEnv(ps[..|ps| - 1], key)
  }

  ghost function LastVolume(ps: seq<Piece>, host: string): Option<string> {
    if ps == [] then None
    else
      var last := ps[|ps| - 1];
      if IsVolume(last.opt) && ':' in last.value && Before(last.value, ':') == host then Some(After(last.value, ':'))
      else LastVolume(ps[..|ps| - 1], host)
  }

  ghost function Get(m: map<string, string>, k: string): Option<string> {
    if k in m then Some(m[k]) else None
  }

  /** The fields say of every key what the options so far say last. */
  ghost predicate LastWins(ps: seq<Piece>, f: Fields) {
    && (forall k :: Get(f.env, k) == LastEnv(ps, k))
    && (forall h :: Get(f.volumes, h) == LastVolume(ps, h))
  }

  lemma ApplyLastEnv(ps: seq<Piece>, p: Piece, f: Fields, k: string)
    requires Get(f.env, k) == LastEnv(ps, k)
    ensures Get(Apply(p, f).env, k) == LastEnv(ps + [p], k)
  {
    hide IndexOf, Before, After, TakesValue, IsSwitch, IsManaged;
    assert (ps + [p])[..|ps|] == ps;
  }

  lemma ApplyLastVolume(ps: seq<Piece>, p: Piece, f: Fields, h: string)
    requires Get(f.volumes, h) == LastVolume(ps, h)
    ensures Get(Apply(p, f).volumes, h) == LastVolume(ps + [p], h)
  {
    hide IndexOf, Before, After, TakesValue, IsSwitch, IsManaged;
    ShortOptions();
    assert (ps + [p])[..|ps|] == ps;
  }

  lemma ApplyLast(ps: seq<Piece>, p: Piece, f: Fields)
    requires LastWins(ps, f)
    ensures LastWins(ps + [p], Apply(p, f))
  {
    hide Apply, Get, LastEnv, LastVolume, TakesValue, IsSwitch, IsManaged;
    forall k
      ensures Get(Apply(p, f).env, k) == LastEnv(ps + [p], k)
    {
      ApplyLastEnv(ps, p, f, k);
    }
    forall h
      ensures Get(Apply(p, f).volumes, h) == LastVolume(ps + [p], h)
    {
      ApplyLastVolume(ps, p, f, h);
    }
  }

  lemma {:induction false} WalkLast(ts: seq<string>, ps: seq<Piece>, f: Fields)
    requires LastWins(ps, f)
    ensures LastWins(ps + Pieces(ts), Walk(ts, f).0)
    decreases |ts|
  {
    hide Apply, ReadOption, LastEnv, LastVolume, TakesValue, IsSwitch, IsManaged;
    WalkOne(ts, f);
    if ts != [] && IsOption(ts[0]) {
      var p := ReadOption(ts);
      var rest := ts[|p.tokens|..];
      ApplyLast(ps, p, f);
      WalkLast(rest, ps + [p], Apply(p, f));
      assert ps + [p] + Pieces(rest) == ps + Pieces(ts);
    } else {
      assert ps + Pieces(ts) == ps;
    }
  }

  /** Env and volumes hold exactly what the command line says last of each
      key, and no key it does not name. */
  lemma LaterOneWins(ts: seq<string>)
    ensures LastWins(Pieces(ts), Walk(ts, NOTHING).0)
  {
    hide Walk, Pieces, LastWins;
    NothingYet();
    WalkLast(ts, [], NOTHING);
    assert [] + Pieces(ts) == Pieces(ts);
  }

  lemma NothingYet()
    ensures LastWins([], NOTHING)
  {
  }

  // ---- The driver's own command line ----

  /** What the ssh driver is asked to run. `gpus` is the device string, when
      the machine has cards. */
  datatype Launch = Launch(
    name: string, gpus: Option<string>, env: map<string, string>, volumes: map<string, string>,
    entrypoint: string, image: string, args: seq<string>)

  function EnvTokens(ks: seq<string>, m: map<string, string>): seq<string>
    requires forall k :: k in ks ==> k in m
  {
    if ks == [] then [] else ["-e", ks[0] + "=" + m[ks[0]]] + EnvTokens(ks[1..], m)
  }

  function VolumeTokens(ks: seq<string>, m: map<string, string>): seq<string>
    requires forall k :: k in ks ==> k in m
  {
    if ks == [] then [] else ["-v", ks[0] + ":" + m[ks[0]]] + VolumeTokens(ks[1..], m)
  }

  function GpuTokens(l: Launch): seq<string> {
    if l.gpus.Some? then ["--gpus", l.gpus.value, "--runtime=nvidia"] else []
  }

  const HOST_TOKENS: seq<string> := [
    "--ipc=host", "--cap-add=SYS_PTRACE", "--cap-add=SYS_NICE",
    "--ulimit", "memlock=-1", "--ulimit", "stack=67108864",
    "--security-opt", "label=disable", "--restart", "no"]

  ghost predicate Lists(ks: seq<string>, m: map<string, string>) {
    forall k :: k in ks <==> k in m
  }

  /** `env` and `volumes` in the order the keys are listed (the driver sorts
      them). */
  function RenderDocker(l: Launch, envKeys: seq<string>, volumeKeys: seq<string>): seq<string>
    requires forall k :: k in envKeys ==> k in l.env
    requires forall k :: k in volumeKeys ==> k in l.volumes
  {
    ["-d", "--name", l.name, "--network", "host"] + GpuTokens(l) + HOST_TOKENS
    + EnvTokens(envKeys, l.env) + VolumeTokens(volumeKeys, l.volumes)
    + ["--entrypoint", l.entrypoint, l.image] + l.args
  }

  function GpuPairs(l: Launch): seq<(string, string)> {
    if l.gpus.Some? then [("--gpus", l.gpus.value), ("--runtime", "nvidia")] else []
  }

  /** The options the platform sets itself, as they are reported. */
  function ManagedOf(l: Launch): seq<(string, string)> {
    [("-d", ""), ("--name", l.name), ("--network", "host")]
    + GpuPairs(l)
    + [("--ipc", "host"), ("--cap-add", "SYS_PTRACE"), ("--cap-add", "SYS_NICE"), ("--ulimit", "memlock=-1"),
       ("--ulimit", "stack=67108864"), ("--security-opt", "label=disable"), ("--restart", "no"),
       ("--entrypoint", l.entrypoint)]
  }

  /** Walking over some options and then the rest. */
  lemma StepValue(opt: string, value: string, rest: seq<string>, f: Fields)
    requires TakesValue(opt) && '=' !in opt && IsOption(opt)
    ensures Walk([opt, value] + rest, f) == Walk(rest, Apply(Piece(opt, value, false, [opt, value]), f))
  {
    hide Apply, TakesValue, IsSwitch, IsManaged;
    var ts := [opt, value] + rest;
    assert ts[..2] == [opt, value] && ts[2..] == rest;
    WalkOne(ts, f);
  }

  lemma ManagedValue(opt: string, value: string, rest: seq<string>, f: Fields)
    requires TakesValue(opt) && '=' !in opt && IsOption(opt)
    requires IsManaged(opt) && !IsEnv(opt) && !IsVolume(opt) && opt != "--mount"
    ensures Walk([opt, value] + rest, f) == Walk(rest, f.(managed := f.managed + [(opt, value)]))
  {
    hide Walk, TakesValue, IsSwitch, IsManaged;
    StepValue(opt, value, rest, f);
  }

  /** `--opt=value`. */
  lemma ManagedInline(opt: string, value: string, rest: seq<string>, f: Fields)
    requires '=' !in opt && IsOption(opt)
    requires IsManaged(opt) && !IsEnv(opt) && !IsVolume(opt) && opt != "--mount"
    ensures Walk([opt + "=" + value] + rest, f) == Walk(rest, f.(managed := f.managed + [(opt, value)]))
  {
    hide TakesValue, IsSwitch, IsManaged;
    var t := opt + "=" + value;
    IndexAt(opt, '=', value);
    assert t[..|opt|] == opt && t[|opt| + 1..] == value;
    var ts := [t] + rest;
    assert ts[..1] == [t] && ts[1..] == rest;
    WalkOne(ts, f);
  }

  /** The first `c` of `a + c + b` is the one after `a`, when `a` has none. */
  lemma IndexAt(a: string, c: char, b: string)
    requires c !in a
    ensures IndexOf(a + [c] + b, c) == |a| && Before(a + [c] + b, c) == a && After(a + [c] + b, c) == b
  {
    hide IndexOf;
    FirstAfter(a, c, b);
    var s := a + [c] + b;
    assert s[..|a|] == a;
    assert s[|a| + 1..] == b;
  }

  ghost function WithEnv(ks: seq<string>, m: map<string, string>, f: Fields): Fields
    requires forall k :: k in ks ==> k in m
  {
    if ks == [] then f else WithEnv(ks[1..], m, f.(env := f.env[ks[0] := m[ks[0]]]))
  }

  ghost function WithVolumes(ks: seq<string>, m: map<string, string>, f: Fields): Fields
    requires forall k :: k in ks ==> k in m
  {
    if ks == [] then f else WithVolumes(ks[1..], m, f.(volumes := f.volumes[ks[0] := m[ks[0]]]))
  }

  lemma {:induction false} EnvWalk(ks: seq<string>, m: map<string, string>, rest: seq<string>, f: Fields)
    requires forall k :: k in ks ==> k in m && '=' !in k
    ensures Walk(EnvTokens(ks, m) + rest, f) == Walk(rest, WithEnv(ks, m, f))
    decreases |ks|
  {
    hide Walk, TakesValue, IsSwitch, IsManaged;
    if ks == [] {
      assert EnvTokens(ks, m) + rest == rest;
    } else {
      var k := ks[0];
      assert k in ks;
      var after := EnvTokens(ks[1..], m) + rest;
      assert EnvTokens(ks, m) + rest == ["-e", k + "=" + m[k]] + after;
      ShortOptions();
      StepValue("-e", k + "=" + m[k], after, f);
      IndexAt(k, '=', m[k]);
      EnvWalk(ks[1..], m, rest, f.(env := f.env[k := m[k]]));
    }
  }

  lemma {:induction false} VolumeWalk(ks: seq<string>, m: map<string, string>, rest: seq<string>, f: Fields)
    requires forall k :: k in ks ==> k in m && ':' !in k
    ensures Walk(VolumeTokens(ks, m) + rest, f) == Walk(rest, WithVolumes(ks, m, f))
    decreases |ks|
  {
    hide Walk, TakesValue, IsSwitch, IsManaged;
    if ks == [] {
      assert VolumeTokens(ks, m) + rest == rest;
    } else {
      var k := ks[0];
      assert k in ks;
      var after := VolumeTokens(ks[1..], m) + rest;
      assert VolumeTokens(ks, m) + rest == ["-v", k + ":" + m[k]] + after;
      ShortOptions();
      StepValue("-v", k + ":" + m[k], after, f);
      IndexAt(k, ':', m[k]);
      VolumeWalk(ks[1..], m, rest, f.(volumes := f.volumes[k := m[k]]));
    }
  }

  lemma ShortOptions()
    ensures TakesValue("-e") && TakesValue("-v") && '=' !in "-e" && '=' !in "-v"
    ensures IsOption("-e") && IsOption("-v") && forall opt :: IsVolume(opt) ==> !IsEnv(opt)
  {
    assert "-e"[1] == 'e' && "-v"[1] == 'v';
    assert "--env"[1] == '-' && "--env"[2] == 'e' && "--volume"[1] == '-' && "--volume"[2] == 'v';
  }

  lemma {:induction false} WithEnvAll(ks: seq<string>, m: map<string, string>, f: Fields)
    requires forall k :: k in ks ==> k in m
    ensures WithEnv(ks, m, f) == f.(env := WithEnv(ks, m, f).env)
    ensures forall k :: k in WithEnv(ks, m, f).env <==> k in f.env || k in ks
    ensures forall k :: k in ks ==> WithEnv(ks, m, f).env[k] == m[k]
    ensures forall k :: k in f.env && k !in ks ==> WithEnv(ks, m, f).env[k] == f.env[k]
    decreases |ks|
  {
    if ks != [] {
      WithEnvAll(ks[1..], m, f.(env := f.env[ks[0] := m[ks[0]]]));
    }
  }

  lemma {:induction false} WithVolumesAll(ks: seq<string>, m: map<string, string>, f: Fields)
    requires forall k :: k in ks ==> k in m
    ensures WithVolumes(ks, m, f) == f.(volumes := WithVolumes(ks, m, f).volumes)
    ensures forall k :: k in WithVolumes(ks, m, f).volumes <==> k in f.volumes || k in ks
    ensures forall k :: k in ks ==> WithVolumes(ks, m, f).volumes[k] == m[k]
    ensures forall k :: k in f.volumes && k !in ks ==> WithVolumes(ks, m, f).volumes[k] == f.volumes[k]
    decreases |ks|
  {
    if ks != [] {
      WithVolumesAll(ks[1..], m, f.(volumes := f.volumes[ks[0] := m[ks[0]]]));
    }
  }

  predicate Plainly(opt: string) {
    '=' !in opt && IsOption(opt) && IsManaged(opt) && !IsEnv(opt) && !IsVolume(opt) && opt != "--mount"
  }

  lemma ManagedSpelling(opt: string)
    requires opt == "--name" || opt == "--network" || opt == "--gpus" || opt == "--ulimit"
             || opt == "--security-opt" || opt == "--restart" || opt == "--entrypoint"
    ensures Plainly(opt) && TakesValue(opt)
  {
    assert opt[2] != 'e' || opt[3] == 'n';
    assert opt[2] != 'e' || opt[4] == 't';
  }

  lemma InlineSpelling(opt: string)
    requires opt == "--runtime" || opt == "--ipc" || opt == "--cap-add"
    ensures Plainly(opt)
  {
    assert opt[2] != 'e' && opt[2] != 'v' && opt[2] != 'm';
  }

  lemma ValueOptionLetters(x: string)
    requires TakesValue(x)
    ensures |x| > 2 || (|x| == 2 && x[1] != 'd')
  {
  }

  lemma NotAValueOption(opt: string)
    requires |opt| == 2 && opt[1] == 'd'
    ensures !TakesValue(opt)
  {
    if TakesValue(opt) { ValueOptionLetters(opt); }
  }

  lemma DetachedWalk(rest: seq<string>, f: Fields)
    ensures Walk(["-d"] + rest, f) == Walk(rest, f.(managed := f.managed + [("-d", "")]))
  {
    var ts := ["-d"] + rest;
    assert "-d"[1] == 'd' && "-e"[1] == 'e' && "-v"[1] == 'v' && '=' !in "-d";
    assert IsSwitch("-d") && IsManaged("-d");
    hide TakesValue, IsSwitch, IsManaged;
    NotAValueOption("-d");
    assert ts[..1] == ["-d"] && ts[1..] == rest;
    WalkOne(ts, f);
  }

  lemma SpacedWalk(opt: string, value: string, rest: seq<string>, f: Fields)
    requires Plainly(opt) && TakesValue(opt)
    ensures Walk([opt, value] + rest, f) == Walk(rest, f.(managed := f.managed + [(opt, value)]))
  {
    hide TakesValue, IsSwitch, IsManaged;
    ManagedValue(opt, value, rest, f);
  }

  lemma InlineWalk(opt: string, value: string, rest: seq<string>, f: Fields)
    requires Plainly(opt)
    ensures Walk([opt + "=" + value] + rest, f) == Walk(rest, f.(managed := f.managed + [(opt, value)]))
  {
    hide TakesValue, IsSwitch, IsManaged;
    ManagedInline(opt, value, rest, f);
  }

  lemma NameTokens(l: Launch, rest: seq<string>, f: Fields)
    ensures Walk(["-d", "--name", l.name, "--network", "host"] + rest, f)
         == Walk(rest, f.(managed := f.managed + [("-d", ""), ("--name", l.name), ("--network", "host")]))
  {
    hide Walk, Plainly, TakesValue, IsSwitch, IsManaged;
    ManagedSpelling("--name");
    ManagedSpelling("--network");
    var r2 := ["--network", "host"] + rest;
    var r1 := ["--name", l.name] + r2;
    assert ["-d", "--name", l.name, "--network", "host"] + rest == ["-d"] + r1;
    DetachedWalk(r1, f);
    var f1 := f.(managed := f.managed + [("-d", "")]);
    SpacedWalk("--name", l.name, r2, f1);
    var f2 := f1.(managed := f1.managed + [("--name", l.name)]);
    SpacedWalk("--network", "host", rest, f2);
    assert f2.managed + [("--network", "host")] == f.managed + [("-d", ""), ("--name", l.name), ("--network", "host")];
  }

  lemma GpuTokensWalk(l: Launch, rest: seq<string>, f: Fields)
    ensures Walk(GpuTokens(l) + rest, f)
         == Walk(rest, f.(managed := f.managed + GpuPairs(l)))
  {
    hide Walk, Plainly, TakesValue, IsSwitch, IsManaged;
    if l.gpus.Some? {
      ManagedSpelling("--gpus");
      InlineSpelling("--runtime");
      assert "--runtime" + "=" + "nvidia" == "--runtime=nvidia";
      var r1 := ["--runtime=nvidia"] + rest;
      assert GpuTokens(l) + rest == ["--gpus", l.gpus.value] + r1;
      SpacedWalk("--gpus", l.gpus.value, r1, f);
      var f1 := f.(managed := f.managed + [("--gpus", l.gpus.value)]);
      InlineWalk("--runtime", "nvidia", rest, f1);
      assert f1.managed + [("--runtime", "nvidia")] == f.managed + [("--gpus", l.gpus.value), ("--runtime", "nvidia")];
    } else {
      assert GpuTokens(l) + rest == rest && f.managed + [] == f.managed;
    }
  }

  const INLINE_TOKENS: seq<string> := ["--ipc=host", "--cap-add=SYS_PTRACE", "--cap-add=SYS_NICE"]
  const INLINE_PAIRS: seq<(string, string)> := [
    ("--ipc", "host"), ("--cap-add", "SYS_PTRACE"), ("--cap-add", "SYS_NICE")]
  const SPACED_TOKENS: seq<string> := [
    "--ulimit", "memlock=-1", "--ulimit", "stack=67108864", "--security-opt", "label=disable", "--restart", "no"]
  const SPACED_PAIRS: seq<(string, string)> := [
    ("--ulimit", "memlock=-1"), ("--ulimit", "stack=67108864"), ("--security-opt", "label=disable"),
    ("--restart", "no")]

  lemma InlineTokensWalk(rest: seq<string>, f: Fields)
    ensures Walk(INLINE_TOKENS + rest, f) == Walk(rest, f.(managed := f.managed + INLINE_PAIRS))
  {
    hide Walk, Plainly, TakesValue, IsSwitch, IsManaged;
    InlineSpelling("--ipc");
    InlineSpelling("--cap-add");
    assert "--ipc" + "=" + "host" == "--ipc=host";
    assert "--cap-add" + "=" + "SYS_PTRACE" == "--cap-add=SYS_PTRACE";
    assert "--cap-add" + "=" + "SYS_NICE" == "--cap-add=SYS_NICE";
    var r2 := ["--cap-add=SYS_NICE"] + rest;
    var r1 := ["--cap-add=SYS_PTRACE"] + r2;
    assert INLINE_TOKENS + rest == ["--ipc=host"] + r1;
    InlineWalk("--ipc", "host", r1, f);
    var f1 := f.(managed := f.managed + [("--ipc", "host")]);
    InlineWalk("--cap-add", "SYS_PTRACE", r2, f1);
    var f2 := f1.(managed := f1.managed + [("--cap-add", "SYS_PTRACE")]);
    InlineWalk("--cap-add", "SYS_NICE", rest, f2);
    assert f2.managed + [("--cap-add", "SYS_NICE")] == f.managed + INLINE_PAIRS;
  }

  lemma SpacedTokensWalk(rest: seq<string>, f: Fields)
    ensures Walk(SPACED_TOKENS + rest, f) == Walk(rest, f.(managed := f.managed + SPACED_PAIRS))
  {
    hide Walk, Plainly, TakesValue, IsSwitch, IsManaged;
    ManagedSpelling("--ulimit");
    ManagedSpelling("--security-opt");
    ManagedSpelling("--restart");
    var r3 := ["--restart", "no"] + rest;
    var r2 := ["--security-opt", "label=disable"] + r3;
    var r1 := ["--ulimit", "stack=67108864"] + r2;
    assert SPACED_TOKENS + rest == ["--ulimit", "memlock=-1"] + r1;
    SpacedWalk("--ulimit", "memlock=-1", r1, f);
    var f1 := f.(managed := f.managed + [("--ulimit", "memlock=-1")]);
    SpacedWalk("--ulimit", "stack=67108864", r2, f1);
    var f2 := f1.(managed := f1.managed + [("--ulimit", "stack=67108864")]);
    SpacedWalk("--security-opt", "label=disable", r3, f2);
    var f3 := f2.(managed := f2.managed + [("--security-opt", "label=disable")]);
    SpacedWalk("--restart", "no", rest, f3);
    assert f3.managed + [("--restart", "no")] == f.managed + SPACED_PAIRS;
  }

  lemma HostTokensWalk(rest: seq<string>, f: Fields)
    ensures Walk(HOST_TOKENS + rest, f) == Walk(rest, f.(managed := f.managed + INLINE_PAIRS + SPACED_PAIRS))
  {
    hide Walk, TakesValue, IsSwitch, IsManaged;
    assert HOST_TOKENS + rest == INLINE_TOKENS + (SPACED_TOKENS + rest);
    InlineTokensWalk(SPACED_TOKENS + rest, f);
    SpacedTokensWalk(rest, f.(managed := f.managed + INLINE_PAIRS));
  }

  /** What the driver renders the parser takes apart again: the same image,
      env, volumes and command, every option of its own reported, no warning. */
  lemma DockerRoundTrip(l: Launch, envKeys: seq<string>, volumeKeys: seq<string>)
    requires Lists(envKeys, l.env) && Lists(volumeKeys, l.volumes)
    requires forall k :: k in l.env ==> '=' !in k
    requires forall h :: h in l.volumes ==> ':' !in h
    requires !IsOption(l.image)
    ensures Walk(RenderDocker(l, envKeys, volumeKeys), NOTHING)
         == (Fields(l.image, l.env, l.volumes, ManagedOf(l), []), l.args)
  {
    hide Walk, WithEnv, WithVolumes, EnvTokens, VolumeTokens, GpuTokens, TakesValue, IsSwitch, IsManaged;
    var tail := ["--entrypoint", l.entrypoint] + ([l.image] + l.args);
    var r4 := VolumeTokens(volumeKeys, l.volumes) + tail;
    var r3 := EnvTokens(envKeys, l.env) + r4;
    var r2 := HOST_TOKENS + r3;
    var r1 := GpuTokens(l) + r2;
    assert RenderDocker(l, envKeys, volumeKeys) == ["-d", "--name", l.name, "--network", "host"] + r1;
    NameTokens(l, r1, NOTHING);
    var f1 := NOTHING.(managed := [("-d", ""), ("--name", l.name), ("--network", "host")]);
    assert NOTHING.managed + f1.managed == f1.managed;
    GpuTokensWalk(l, r2, f1);
    var f2 := f1.(managed := f1.managed + GpuPairs(l));
    HostTokensWalk(r3, f2);
    var f3 := f2.(managed := f2.managed + INLINE_PAIRS + SPACED_PAIRS);
    EnvWalk(envKeys, l.env, r4, f3);
    WithEnvAll(envKeys, l.env, f3);
    assert WithEnv(envKeys, l.env, f3).env == l.env;
    var f4 := f3.(env := l.env);
    VolumeWalk(volumeKeys, l.volumes, tail, f4);
    WithVolumesAll(volumeKeys, l.volumes, f4);
    assert WithVolumes(volumeKeys, l.volumes, f4).volumes == l.volumes;
    var f5 := f4.(volumes := l.volumes);
    ManagedSpelling("--entrypoint");
    SpacedWalk("--entrypoint", l.entrypoint, [l.image] + l.args, f5);
    var f6 := f5.(managed := f5.managed + [("--entrypoint", l.entrypoint)]);
    assert f6.managed == ManagedOf(l);
    WalkOne([l.image] + l.args, f6);
    assert ([l.image] + l.args)[1..] == l.args;
  }
}
