/** The inverse of the engine adapters: a config read back from its command,
    and the check that it survives the trip
    (backend/app/control/engine_command.py). */
module EngineCommand {
  import opened Text
  import opened Flags
  import opened FlagWords

  // ---- Reading an argv ----

  function FlagToKey(flag: string): string {
    ReplaceChar(LStripDashes(flag), '-', '_')
  }

  /** Each token without its edge whitespace, the empty ones dropped. */
  function CleanTokens(ts: seq<string>): (r: seq<string>)
    ensures |r| <= |ts|
  {
    if ts == [] then []
    else (if Strip(ts[0]) == "" then [] else [Strip(ts[0])]) + CleanTokens(ts[1..])
  }

  predicate EndsInLauncher(t: string) {
    EndsWith(t, "launch_server") || EndsWith(t, "api_server")
  }

  predicate LauncherAt(ts: seq<string>, i: nat)
    requires i < |ts|
  {
    EndsInLauncher(ts[i]) || (ts[i] == "serve" && i > 0 && AfterLast(ts[i - 1], '/') == "sglang")
  }

  /** What follows the first launcher from position `i` on; all of it when
      there is none. */
  function AfterLauncher(ts: seq<string>, i: nat): (r: seq<string>)
    requires i <= |ts|
    ensures |r| <= |ts|
    decreases |ts| - i
  {
    if i == |ts| then ts
    else if LauncherAt(ts, i) then ts[i + 1..]
    else AfterLauncher(ts, i + 1)
  }

  predicate IsFlag(t: string) { "--" <= t }

  /** The flag walk over the tokens, adding to `args`. */
  function Walk(ts: seq<string>, args: Dict): (d: Dict)
    requires args.Valid()
    ensures d.Valid()
    decreases |ts|
  {
    if ts == [] then args
    else if !IsFlag(ts[0]) then Walk(ts[1..], args)
    else if '=' in ts[0] then
      var i := IndexOf(ts[0], '=');
      Walk(ts[1..], args.Put(FlagToKey(ts[0][..i]), Str(ts[0][i + 1..])))
    else if |ts| == 1 || IsFlag(ts[1]) then
      Walk(ts[1..], args.Put(FlagToKey(ts[0]), Switch(true)))
    else
      Walk(ts[2..], args.Put(FlagToKey(ts[0]), Str(ts[1])))
  }

  function Parsed(command: seq<string>): (d: Dict)
    ensures d.Valid()
  {
    Walk(AfterLauncher(CleanTokens(command), 0), EMPTY)
  }

  method DropLauncher(tokens: seq<string>) returns (rest: seq<string>)
    ensures rest == AfterLauncher(tokens, 0)
  {
    var index := 0;
    while index < |tokens|
      invariant 0 <= index <= |tokens|
      invariant AfterLauncher(tokens, index) == AfterLauncher(tokens, 0)
    {
      if LauncherAt(tokens, index) {
        return tokens[index + 1..];
      }
      index := index + 1;
    }
    rest := tokens;
  }

  method ParseEngineArgs(command: seq<string>) returns (args: Dict)
    ensures args == Parsed(command) && args.Valid()
  {
    hide FlagToKey, CleanTokens, AfterLauncher, Dict.Put;
    var tokens := DropLauncher(CleanTokens(command));
    args := EMPTY;
    var index := 0;
    assert tokens[0..] == tokens;
    while index < |tokens|
      invariant 0 <= index <= |tokens| && args.Valid()
      invariant Walk(tokens[index..], args) == Parsed(command)
      decreases |tokens| - index
    {
      var token := tokens[index];
      ghost var rest := tokens[index..];
      assert rest[0] == token && rest[1..] == tokens[index + 1..];
      if !IsFlag(token) {
        index := index + 1;
      } else if '=' in token {
        var i := IndexOf(token, '=');
        PutValid(args, FlagToKey(token[..i]), Str(token[i + 1..]));
        args := args.Put(FlagToKey(token[..i]), Str(token[i + 1..]));
        index := index + 1;
      } else if index + 1 == |tokens| || IsFlag(tokens[index + 1]) {
        PutValid(args, FlagToKey(token), Switch(true));
        args := args.Put(FlagToKey(token), Switch(true));
        index := index + 1;
      } else {
        assert rest[1] == tokens[index + 1] && rest[2..] == tokens[index + 2..];
        PutValid(args, FlagToKey(token), Str(tokens[index + 1]));
        args := args.Put(FlagToKey(token), Str(tokens[index + 1]));
        index := index + 2;
      }
    }
    assert tokens[index..] == [];
  }

  lemma PutValid(d: Dict, k: string, v: Value)
    requires d.Valid()
    ensures d.Put(k, v).Valid()
  {
  }

  // ---- The round-trip check ----

  datatype Kind = BadKey | NotRenderable | RoundTrip
  datatype Problem = Problem(param: string, kind: Kind)

  /** `^[a-z0-9][a-z0-9_]*$`, which also matches before one final line break. */
  predicate KeyGuard(k: string) {
    KeyShaped(k) || (k != "" && k[|k| - 1] == '\n' && KeyShaped(k[..|k| - 1]))
  }

  predicate ValueGuard(v: Value) {
    && !v.Null? && !v.Nested?
    && (v.Str? ==> Strip(v.s) != "" && !IsFlag(v.s))
  }

  function GuardProblem(k: string, v: Value): Option<Problem> {
    if !KeyGuard(k) then Some(Problem(k, BadKey))
    else if !ValueGuard(v) then Some(Problem(k, NotRenderable))
    else None
  }

  /** A snake_case name, or one with a line break behind it. */
  ghost predicate Named(k: string) {
    exists name :: KeyShaped(name) && (k == name || k == name + "\n")
  }

  /** A value that is one token of its own on the command line, or none. */
  ghost predicate OneToken(v: Value) {
    v.Switch? || v.Num? || (v.Str? && !AllSpace(v.s) && !("--" <= v.s))
  }

  /** Whose fault it is that a setting cannot be sent: first its name's, then its
      value's. */
  lemma GuardSays(k: string, v: Value)
    ensures GuardProblem(k, v) ==
      if !Named(k) then Some(Problem(k, BadKey))
      else if !OneToken(v) then Some(Problem(k, NotRenderable))
      else None
  {
    hide Strip, KeyShaped;
    if k != "" && k[|k| - 1] == '\n' {
      assert k == k[..|k| - 1] + "\n";
    }
    forall name | k == name + "\n" ensures name == k[..|k| - 1] {}
    if v.Str? {
      BlankIsSpace(v.s);
    }
  }

  lemma BlankIsSpace(s: string)
    ensures Strip(s) == "" <==> AllSpace(s)
  {
    hide Strip, IsSpace;
    var a, b := StripCuts(s);
    if Strip(s) == "" {
      assert s == a + b;
    }
    if AllSpace(s) {
      Stripped(s, "", "");
      assert s + "" + "" == s;
    }
  }

  /** What the command line gave back for `key`, and what is left of it. */
  function Settle(key: string, value: Value, parsed: Dict): (Option<Value>, Dict) {
    var back := parsed.Get(key);
    var left := parsed.Pop(key);
    if value == Switch(false) && back.None? then
      (if left.Get("no_" + key) == Some(Switch(true)) then Some(Switch(false)) else None,
       left.Pop("no_" + key))
    else
      (back, left)
  }

  predicate Agrees(value: Value, back: Option<Value>) {
    if value.Switch? then back == Some(value) || (value == Switch(false) && back.None?)
    else back.Some? && Shown(back.value) == Shown(value)
  }

  function Gains(ks: seq<string>): (r: seq<Problem>)
    ensures |r| == |ks|
  {
    if ks == [] then [] else [Problem(ks[0], RoundTrip)] + Gains(ks[1..])
  }

  /** The comparison from the `i`-th expected key on. */
  function Compare(expected: Dict, i: nat, parsed: Dict): seq<Problem>
    requires i <= |expected.keys| && forall k :: k in expected.keys ==> k in expected.m
    decreases |expected.keys| - i
  {
    if i == |expected.keys| then Gains(parsed.keys)
    else
      var key := expected.keys[i];
      assert key in expected.keys;
      var (back, left) := Settle(key, expected.m[key], parsed);
      (if Agrees(expected.m[key], back) then [] else [Problem(key, RoundTrip)])
      + Compare(expected, i + 1, left)
  }

  ghost predicate Guarded(config: Dict)
    requires config.Valid()
  {
    forall k :: k in config.m ==> GuardProblem(k, config.m[k]).None?
  }

  ghost function Verdict(e: Engine, config: Dict): seq<Problem>
    requires config.Valid()
  {
    Compare(Normalized(e, config), 0, Normalized(e, Parsed(Argv(e, config))))
  }

  method CompareAll(expected: Dict, readBack: Dict) returns (problems: seq<Problem>)
    requires expected.Valid()
    ensures problems == Compare(expected, 0, readBack)
  {
    hide Settle, Agrees, Gains;
    problems := [];
    var parsed := readBack;
    var i := 0;
    while i < |expected.keys|
      invariant 0 <= i <= |expected.keys|
      invariant problems + Compare(expected, i, parsed) == Compare(expected, 0, readBack)
    {
      var key := expected.keys[i];
      var (back, left) := Settle(key, expected.m[key], parsed);
      parsed := left;
      if !Agrees(expected.m[key], back) {
        problems := problems + [Problem(key, RoundTrip)];
      }
      i := i + 1;
    }
    problems := problems + Gains(parsed.keys);
  }

  method CheckGuards(config: Dict) returns (problems: seq<Problem>)
    requires config.Valid()
    ensures problems == [] <==> Guarded(config)
    ensures forall p :: p in problems <==> OwnProblem(config, p)
  {
    hide GuardProblem;
    problems := [];
    var i := 0;
    while i < |config.keys|
      invariant 0 <= i <= |config.keys|
      invariant forall p :: OwnProblem(config, p) && p.param in config.keys[..i] ==> p in problems
      invariant problems == [] <==> forall k :: k in config.keys[..i] ==> GuardProblem(k, config.m[k]).None?
      invariant forall p :: p in problems ==> OwnProblem(config, p)
    {
      var key := config.keys[i];
      assert config.keys[..i + 1] == config.keys[..i] + [key];
      var found := GuardProblem(key, config.m[key]);
      if found.Some? {
        GuardNamesKey(key, config.m[key]);
        problems := problems + [found.value];
      }
      i := i + 1;
    }
    assert config.keys[..i] == config.keys;
  }

  ghost predicate OwnProblem(config: Dict, p: Problem) {
    p.param in config.m && GuardProblem(p.param, config.m[p.param]) == Some(p)
  }

  lemma GuardNamesKey(k: string, v: Value)
    requires GuardProblem(k, v).Some?
    ensures GuardProblem(k, v).value.param == k
  {
  }

  /** Why a config would not survive the trip to a command line and back. */
  method RoundTripProblems(e: Engine, config: Dict) returns (problems: seq<Problem>)
    requires config.Valid()
    ensures !Guarded(config) ==> problems != [] && forall p :: p in problems <==> OwnProblem(config, p)
    ensures Guarded(config) ==> problems == Verdict(e, config)
  {
    problems := CheckGuards(config);
    if problems == [] {
      var argv := RenderArgs(e, config);
      var read := ParseEngineArgs(argv);
      var parsed := NormalizeArgs(e, read);
      var expected := NormalizeArgs(e, config);
      problems := CompareAll(expected, parsed);
    }
  }
}
