/** Where the engine's own arguments begin in a captured command, and what a
    round-trip report speaks of (backend/app/control/engine_command.py). */
module CommandReading {
  import opened Text
  import opened Flags
  import opened EngineCommand

  // ---- The launcher ----

  /** The text is `last`, or a path that ends in it. */
  ghost predicate PathTo(s: string, last: string) {
    s == last || exists p: string :: s == p + "/" + last
  }

  /** The token starts the engine: its server module, or `serve` behind the
      command line's own name. */
  ghost predicate Starts(ts: seq<string>, i: nat)
    requires i < |ts|
  {
    || (exists p: string :: ts[i] == p + "launch_server")
    || (exists p: string :: ts[i] == p + "api_server")
    || (ts[i] == "serve" && i >= 1 && PathTo(ts[i - 1], "sglang"))
  }

  lemma EndsWithIs(s: string, suffix: string)
    ensures EndsWith(s, suffix) <==> exists p: string :: s == p + suffix
  {
    if EndsWith(s, suffix) {
      assert s == s[..|s| - |suffix|] + suffix;
    }
  }

  /** A path that ends in `last` still does without its first part. */
  lemma BehindTheFirst(s: string, i: nat, p: string, last: string)
    requires s == p + "/" + last && '/' in s && i == IndexOf(s, '/')
    ensures PathTo(s[i + 1..], last)
  {
    assert s[|p|] == '/';
    forall k | 0 <= k < i ensures s[k] != '/' {
      assert s[k] in s[..i];
    }
    if i < |p| {
      assert s[i + 1..] == p[i + 1..] + "/" + last;
    } else {
      assert s[i + 1..] == last;
    }
  }

  lemma BeforeTheFirst(s: string, i: nat, p: string, last: string)
    requires i < |s| && s[i] == '/' && s[i + 1..] == p + "/" + last
    ensures PathTo(s, last)
  {
    assert s == (s[..i] + "/" + p) + "/" + last;
  }

  lemma OnePart(s: string, i: nat, last: string)
    requires i < |s| && s[i] == '/' && s[i + 1..] == last
    ensures PathTo(s, last)
  {
    assert s == s[..i] + "/" + last;
  }

  lemma NoPart(s: string, last: string)
    requires '/' !in s
    ensures PathTo(s, last) <==> s == last
  {
    forall p: string ensures s != p + "/" + last {
      assert (p + "/" + last)[|p|] == '/';
    }
  }

  lemma SameEnding(s: string, i: nat, last: string)
    requires '/' in s && i == IndexOf(s, '/') && '/' !in last
    ensures PathTo(s, last) <==> PathTo(s[i + 1..], last)
  {
    hide IndexOf;
    var rest := s[i + 1..];
    if rest == last {
      OnePart(s, i, last);
    } else if p: string :| rest == p + "/" + last {
      BeforeTheFirst(s, i, p, last);
    }
    if p: string :| s == p + "/" + last {
      BehindTheFirst(s, i, p, last);
    }
  }

  lemma {:induction false} AfterLastIs(s: string, last: string)
    requires '/' !in last
    ensures AfterLast(s, '/') == last <==> PathTo(s, last)
    decreases |s|
  {
    hide PathTo, IndexOf;
    if '/' in s {
      var i := IndexOf(s, '/');
      AfterLastIs(s[i + 1..], last);
      SameEnding(s, i, last);
    } else {
      NoPart(s, last);
    }
  }

  lemma StartsIs(ts: seq<string>, i: nat)
    requires i < |ts|
    ensures LauncherAt(ts, i) <==> Starts(ts, i)
  {
    hide AfterLast, PathTo, EndsWith;
    EndsWithIs(ts[i], "launch_server");
    EndsWithIs(ts[i], "api_server");
    if i >= 1 {
      AfterLastIs(ts[i - 1], "sglang");
    }
  }

  /** Everything up to the first token that starts the engine is dropped, and
      nothing when there is none. */
  lemma {:induction false} CutAtTheFirst(ts: seq<string>, n: nat)
    requires n <= |ts| && forall i :: 0 <= i < n ==> !Starts(ts, i)
    ensures (forall i :: 0 <= i < |ts| ==> !Starts(ts, i)) ==> AfterLauncher(ts, n) == ts
    ensures forall i :: 0 <= i < |ts| && Starts(ts, i) && (forall j :: 0 <= j < i ==> !Starts(ts, j)) ==>
      AfterLauncher(ts, n) == ts[i + 1..]
    decreases |ts| - n
  {
    hide Starts, LauncherAt;
    if n < |ts| {
      StartsIs(ts, n);
      if !Starts(ts, n) {
        CutAtTheFirst(ts, n + 1);
      }
    }
  }

  /** So reading a command is reading the flags behind it. */
  lemma ReadBehindTheLauncher(command: seq<string>, i: nat)
    requires var ts := CleanTokens(command); i < |ts| && Starts(ts, i) && forall j :: 0 <= j < i ==> !Starts(ts, j)
    ensures Parsed(command) == Walk(CleanTokens(command)[i + 1..], EMPTY)
  {
    hide Starts, Walk, CleanTokens;
    CutAtTheFirst(CleanTokens(command), 0);
  }

  // ---- The report ----

  lemma {:induction false} GainsAre(ks: seq<string>)
    ensures forall p :: p in Gains(ks) <==> p.kind == RoundTrip && p.param in ks
  {
    if ks != [] {
      GainsAre(ks[1..]);
    }
  }

  /** The comparison speaks only of settings that were sent or came back. */
  lemma {:induction false} ComparisonSpeaksOf(expected: Dict, i: nat, parsed: Dict)
    requires expected.Valid() && i <= |expected.keys|
    ensures forall p :: p in Compare(expected, i, parsed) ==>
      p.kind == RoundTrip && (p.param in expected.keys[i..] || p.param in parsed.keys)
    decreases |expected.keys| - i
  {
    hide Agrees, Gains;
    if i == |expected.keys| {
      GainsAre(parsed.keys);
    } else {
      var key := expected.keys[i];
      ComparisonSpeaksOf(expected, i + 1, Settle(key, expected.m[key], parsed).1);
      assert expected.keys[i..] == [key] + expected.keys[i + 1..];
    }
  }

  /** A config that passes the guards gets problems of one kind, each about a
      setting of its own in the shared vocabulary or one it came back with. */
  lemma VerdictSpeaksOf(e: Engine, config: Dict, p: Problem)
    requires config.Valid() && p in Verdict(e, config)
    ensures p.kind == RoundTrip
    ensures p.param in Normalized(e, config).keys || p.param in Normalized(e, Parsed(Argv(e, config))).keys
  {
    hide Normalized, Compare, Parsed, Argv;
    NormalizedIsValid(e, config);
    ComparisonSpeaksOf(Normalized(e, config), 0, Normalized(e, Parsed(Argv(e, config))));
    assert Normalized(e, config).keys[0..] == Normalized(e, config).keys;
  }

  lemma NormalizedIsValid(e: Engine, config: Dict)
    requires config.Valid()
    ensures Normalized(e, config).Valid()
  {
  }
}
