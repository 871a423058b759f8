/** Which configs pass the round-trip check: exactly those whose every value is
    plain, when no two keys speak for one name. What any value leaves on the
    command line is followed, also one that reads as a flag or as a launcher. */
module Passing {
  import opened Text
  import opened Flags
  import opened EngineCommand
  import opened RoundTrip
  import opened Survival

  ghost predicate Passes(e: Engine, config: Dict)
    requires config.Valid()
  {
    Guarded(config) && Verdict(e, config) == []
  }

  // ---- What any value leaves on the command line ----

  ghost predicate Sendable(ks: seq<string>, m: map<string, Value>) {
    forall k :: k in ks ==> k in m && KeyShaped(k) && ValueGuard(m[k])
  }

  /** What a text that reads as a flag of its own is taken for. */
  ghost function Stray(t: string): Item {
    if '=' in t then (FlagToKey(t[..IndexOf(t, '=')]), Str(t[IndexOf(t, '=') + 1..])) else (FlagToKey(t), Switch(true))
  }

  /** What the flag walk stores for one key. */
  ghost function Leaves(e: Engine, k: string, v: Value): seq<Item> {
    if v.Switch? then Landing(e, k, v)
    else
      var t := Strip(Shown(v));
      if IsFlag(t) then [(FlagKey(e, k), Switch(true)), Stray(t)] else [(FlagKey(e, k), Str(t))]
  }

  ghost function AllLeaves(e: Engine, ks: seq<string>, m: map<string, Value>): seq<Item>
    requires forall k :: k in ks ==> k in m
  {
    if ks == [] then [] else Leaves(e, ks[0], m[ks[0]]) + AllLeaves(e, ks[1..], m)
  }

  ghost function AllClean(e: Engine, ks: seq<string>, m: map<string, Value>): seq<string>
    requires forall k :: k in ks ==> k in m
  {
    if ks == [] then [] else CleanChunk(e, ks[0], m[ks[0]]) + AllClean(e, ks[1..], m)
  }

  lemma SentIsNotEmpty(v: Value)
    requires ValueGuard(v) && !v.Switch?
    ensures Strip(Shown(v)) != ""
  {
    hide Strip;
    if v.Num? { NumIsValue(v.text); }
  }

  lemma WalkStray(t: string, rest: seq<string>, items: seq<Item>)
    requires IsFlag(t) && (rest == [] || IsFlag(rest[0]))
    ensures Walk([t] + rest, FromItems(items)) == Walk(rest, FromItems(items + [Stray(t)]))
  {
    hide FlagToKey;
    FromPlus(items, Stray(t));
    assert ([t] + rest)[1..] == rest;
  }

  lemma LeavesWalk(e: Engine, k: string, v: Value, rest: seq<string>, items: seq<Item>)
    requires Catalogue(e) && KeyShaped(k) && ValueGuard(v) && (rest == [] || IsFlag(rest[0]))
    ensures Walk(CleanChunk(e, k, v) + rest, FromItems(items)) == Walk(rest, FromItems(items + Leaves(e, k, v)))
  {
    hide Walk, Catalogue, NegatedFlag, RenderFlag, FromItems, Stray, Strip;
    FlagKeyFolds(e, k);
    KebabBack(FlagKey(e, k));
    var flag := RenderFlag(e, k);
    if v == Switch(true) {
      WalkBare(flag, rest, items);
    } else if v == Switch(false) {
      if NegatedFlag(e, k).Some? {
        NegatedSpelling(e, k);
        WalkBare(NegatedFlag(e, k).value, rest, items);
      } else {
        assert CleanChunk(e, k, v) + rest == rest && items + Leaves(e, k, v) == items;
      }
    } else {
      TextWalk(flag, Strip(Shown(v)), rest, items);
    }
  }

  lemma TextWalk(flag: string, t: string, rest: seq<string>, items: seq<Item>)
    requires FlagToken(flag) && (rest == [] || IsFlag(rest[0]))
    ensures Walk([flag, t] + rest, FromItems(items)) == Walk(rest, FromItems(items +
      if IsFlag(t) then [(FlagToKey(flag), Switch(true)), Stray(t)] else [(FlagToKey(flag), Str(t))]))
  {
    hide Walk, FromItems, Stray, FlagToKey, FlagToken;
    if IsFlag(t) {
      var first: Item := (FlagToKey(flag), Switch(true));
      WalkBare(flag, [t] + rest, items);
      WalkStray(t, rest, items + [first]);
      assert [flag, t] + rest == [flag] + ([t] + rest);
      assert items + [first] + [Stray(t)] == items + [first, Stray(t)];
    } else {
      WalkValued(flag, t, rest, items);
    }
  }

  /** A key's tokens, cleaned: its flag, and then its text if it has one. */
  lemma ChunkSent(e: Engine, k: string, v: Value)
    requires Catalogue(e) && KeyShaped(k) && ValueGuard(v)
    ensures CleanTokens(Chunk(e, k, v)) == CleanChunk(e, k, v) && !IsEnvKey(k)
    ensures CleanChunk(e, k, v) != [] ==> FlagToken(CleanChunk(e, k, v)[0])
    ensures !v.Switch? ==> |CleanChunk(e, k, v)| == 2 && CleanChunk(e, k, v)[1] == Strip(Shown(v))
    ensures v.Switch? ==> |CleanChunk(e, k, v)| <= 1
  {
    hide Catalogue, RenderFlag, NegatedFlag, Strip, FlagToken;
    NotEnv(k);
    hide IsEnvKey;
    FlagKeyFolds(e, k);
    KebabBack(FlagKey(e, k));
    FlagTokenFacts(RenderFlag(e, k));
    if v.Switch? {
      if !v.on && NegatedFlag(e, k).Some? {
        NegatedSpelling(e, k);
        FlagTokenFacts(NegatedFlag(e, k).value);
      }
    } else {
      SentIsNotEmpty(v);
      assert CleanTokens([Shown(v)]) == [Strip(Shown(v))] + CleanTokens([]);
    }
  }

  lemma {:induction false} AllSent(e: Engine, ks: seq<string>, m: map<string, Value>)
    requires Catalogue(e) && Sendable(ks, m)
    ensures CleanTokens(Render(e, ks, m)) == AllClean(e, ks, m)
    ensures AllClean(e, ks, m) != [] ==> FlagToken(AllClean(e, ks, m)[0])
  {
    hide Catalogue, ValueGuard, Chunk, CleanChunk, FlagToken, CleanTokens, Strip;
    if ks == [] {
      NothingToClean();
    } else {
      assert ks[0] in ks;
      ChunkSent(e, ks[0], m[ks[0]]);
      AllSent(e, ks[1..], m);
      CleanConcat(Chunk(e, ks[0], m[ks[0]]), Render(e, ks[1..], m));
    }
  }

  lemma {:induction false} AllLeavesWalk(e: Engine, ks: seq<string>, m: map<string, Value>, items: seq<Item>)
    requires Catalogue(e) && Sendable(ks, m)
    ensures Walk(AllClean(e, ks, m), FromItems(items)) == FromItems(items + AllLeaves(e, ks, m))
    decreases |ks|
  {
    hide Catalogue, ValueGuard, KeyShaped, CleanChunk, Leaves, FromItems, Walk, FlagToken, IsFlag;
    if ks == [] {
      WalkNothing(FromItems(items));
      assert items + AllLeaves(e, ks, m) == items;
    } else {
      assert ks[0] in ks;
      var rest := AllClean(e, ks[1..], m);
      AllSent(e, ks[1..], m);
      if rest != [] { FlagTokenFacts(rest[0]); }
      var leaves, others := Leaves(e, ks[0], m[ks[0]]), AllLeaves(e, ks[1..], m);
      LeavesWalk(e, ks[0], m[ks[0]], rest, items);
      AllLeavesWalk(e, ks[1..], m, items + leaves);
      RegroupItems(items, leaves, others);
    }
  }

  lemma RegroupItems(a: seq<Item>, b: seq<Item>, c: seq<Item>)
    ensures a + (b + c) == a + b + c
  {
  }

  // ---- What a launcher's name among the values cuts off ----

  /** A text that is taken for the launcher: everything up to it is dropped. */
  ghost predicate Launches(v: Value) {
    !v.Switch? && EndsInLauncher(Strip(Shown(v)))
  }

  ghost predicate AnyLaunches(ks: seq<string>, m: map<string, Value>) {
    exists k :: k in ks && k in m && Launches(m[k])
  }

  /** The keys whose tokens are read: those after the first launcher. */
  ghost function Kept(ks: seq<string>, m: map<string, Value>): (r: seq<string>)
    requires forall k :: k in ks ==> k in m
    ensures |r| <= |ks| && r == ks[|ks| - |r|..]
  {
    if ks == [] then []
    else if Launches(m[ks[0]]) then ks[1..]
    else if AnyLaunches(ks[1..], m) then Kept(ks[1..], m)
    else ks
  }

  lemma FlagIsNoLauncher(ts: seq<string>, i: nat)
    requires i < |ts| && FlagToken(ts[i])
    ensures !LauncherAt(ts, i)
  {
    hide EndsInLauncher;
    FlagTokenFacts(ts[i]);
  }

  lemma TextLaunches(ts: seq<string>, i: nat)
    requires 0 < i < |ts| && FlagToken(ts[i - 1])
    ensures LauncherAt(ts, i) <==> EndsInLauncher(ts[i])
  {
    hide EndsInLauncher;
    FlagTokenFacts(ts[i - 1]);
    FlagIsNotSglang(ts[i - 1]);
  }

  lemma InMiddle(pre: seq<string>, chunk: seq<string>, rest: seq<string>)
    ensures var ts := pre + (chunk + rest);
      && (forall n :: 0 <= n < |chunk| ==> ts[|pre| + n] == chunk[n])
      && ts[|pre| + |chunk|..] == rest
  {
  }

  lemma PastFlag(ts: seq<string>, i: nat)
    requires i < |ts| && FlagToken(ts[i])
    ensures AfterLauncher(ts, i) == AfterLauncher(ts, i + 1)
  {
    hide FlagToken, LauncherAt, AfterLauncher;
    FlagIsNoLauncher(ts, i);
    OneOn(ts, i);
  }

  lemma PastText(ts: seq<string>, i: nat)
    requires 0 < i < |ts| && FlagToken(ts[i - 1])
    ensures AfterLauncher(ts, i) == if EndsInLauncher(ts[i]) then ts[i + 1..] else AfterLauncher(ts, i + 1)
  {
    hide FlagToken, LauncherAt, AfterLauncher, EndsInLauncher;
    TextLaunches(ts, i);
    OneOn(ts, i);
  }

  /** Past one key's tokens, or to the end of the cut. */
  lemma PastTokens(pre: seq<string>, chunk: seq<string>, rest: seq<string>)
    requires |chunk| <= 2 && (chunk != [] ==> FlagToken(chunk[0]))
    ensures AfterLauncher(pre + (chunk + rest), |pre|) ==
      if |chunk| == 2 && EndsInLauncher(chunk[1]) then rest
      else AfterLauncher(pre + (chunk + rest), |pre| + |chunk|)
  {
    hide FlagToken, EndsInLauncher, AfterLauncher;
    var ts, i := pre + (chunk + rest), |pre|;
    InMiddle(pre, chunk, rest);
    if chunk != [] {
      assert ts[i + 0] == chunk[0];
      PastFlag(ts, i);
    }
    if |chunk| == 2 {
      assert ts[i + 1] == chunk[1];
      PastText(ts, i + 1);
    }
  }

  lemma LaunchesByText(e: Engine, k: string, v: Value)
    requires Catalogue(e) && KeyShaped(k) && ValueGuard(v)
    ensures Launches(v) <==> |CleanChunk(e, k, v)| == 2 && EndsInLauncher(CleanChunk(e, k, v)[1])
  {
    hide Catalogue, CleanChunk, Strip, FlagToken, ValueGuard, EndsInLauncher, KeyShaped;
    ChunkSent(e, k, v);
  }

  lemma OneOn(ts: seq<string>, i: nat)
    requires i < |ts|
    ensures AfterLauncher(ts, i) == if LauncherAt(ts, i) then ts[i + 1..] else AfterLauncher(ts, i + 1)
  {
    hide LauncherAt;
  }

  lemma AnySplit(ks: seq<string>, m: map<string, Value>)
    requires ks != [] && ks[0] in m
    ensures AnyLaunches(ks, m) <==> Launches(m[ks[0]]) || AnyLaunches(ks[1..], m)
  {
    hide Launches;
    assert ks == [ks[0]] + ks[1..];
  }

  lemma Regroup(a: seq<string>, b: seq<string>, c: seq<string>)
    ensures a + (b + c) == a + b + c
  {
  }

  lemma {:induction false} CutOff(e: Engine, ks: seq<string>, m: map<string, Value>, pre: seq<string>)
    requires Catalogue(e) && Sendable(ks, m)
    ensures AfterLauncher(pre + AllClean(e, ks, m), |pre|) ==
      if AnyLaunches(ks, m) then AllClean(e, Kept(ks, m), m) else pre + AllClean(e, ks, m)
    decreases |ks|
  {
    hide Catalogue, ValueGuard, KeyShaped, CleanChunk, Launches, FlagToken, EndsInLauncher, Strip;
    if ks == [] {
      assert pre + AllClean(e, ks, m) == pre;
    } else {
      var k, rest := ks[0], AllClean(e, ks[1..], m);
      assert k in ks;
      hide AnyLaunches;
      hide AfterLauncher;
      var chunk := CleanChunk(e, k, m[k]);
      LaunchesByText(e, k, m[k]);
      ChunkSent(e, k, m[k]);
      PastTokens(pre, chunk, rest);
      CutOff(e, ks[1..], m, pre + chunk);
      Regroup(pre, chunk, rest);
      AnySplit(ks, m);
    }
  }

  /** The keys of a config in argv order, and those of them that are read. */
  ghost function Sent(config: Dict): (ks: seq<string>)
    requires config.Valid()
    ensures forall k :: k in ks <==> k in config.m
    ensures forall i, j :: 0 <= i < j < |ks| ==> ks[i] != ks[j]
  {
    SortedKeys(config);
    Sorted(config.keys)
  }

  ghost function Read(config: Dict): seq<string>
    requires config.Valid()
  {
    Kept(Sent(config), config.m)
  }

  lemma ReadIsSent(config: Dict)
    requires config.Valid()
    ensures forall k :: k in Read(config) ==> k in config.m
  {
  }

  lemma ReadLeaves(e: Engine, ks: seq<string>, m: map<string, Value>)
    requires Catalogue(e) && Sendable(ks, m) && Sendable(Kept(ks, m), m)
    ensures Walk(AfterLauncher(CleanTokens(Render(e, ks, m)), 0), EMPTY) == FromItems(AllLeaves(e, Kept(ks, m), m))
  {
    hide Catalogue, ValueGuard, KeyShaped, Walk, FromItems, AllLeaves, AllClean, AnyLaunches, Kept, CleanTokens;
    hide AfterLauncher, FlagToken, Render;
    AllSent(e, ks, m);
    CutOff(e, ks, m, []);
    NoneBefore(AllClean(e, ks, m));
    NothingCut(ks, m);
    AllLeavesWalk(e, Kept(ks, m), m, []);
    StartsEmpty();
    NoItemsBefore(AllLeaves(e, Kept(ks, m), m));
  }

  lemma NoneBefore(ts: seq<string>)
    ensures [] + ts == ts
  {
  }

  lemma NoItemsBefore(items: seq<Item>)
    ensures [] + items == items
  {
  }

  /** The argv of any guarded config reads back as what the keys after the last
      cut leave, one after the other. */
  lemma ArgvLeaves(e: Engine, config: Dict)
    requires Catalogue(e) && config.Valid() && Sendable(Sent(config), config.m)
    ensures forall k :: k in Read(config) ==> k in config.m
    ensures Parsed(Argv(e, config)) == FromItems(AllLeaves(e, Read(config), config.m))
  {
    hide Catalogue, ValueGuard, Walk, FromItems, AllLeaves, Kept, CleanTokens, AfterLauncher;
    ReadIsSent(config);
    ReadLeaves(e, Sent(config), config.m);
  }

  lemma {:induction false} NothingCut(ks: seq<string>, m: map<string, Value>)
    requires forall k :: k in ks ==> k in m
    ensures !AnyLaunches(ks, m) ==> Kept(ks, m) == ks
  {
    hide Launches;
    if ks != [] {
      assert ks[0] in ks;
      assert ks == [ks[0]] + ks[1..];
    }
  }

  /** With a launcher among the values, the first one's key is not read. */
  lemma {:induction false} FirstLauncher(ks: seq<string>, m: map<string, Value>) returns (f: string)
    requires (forall k :: k in ks ==> k in m) && AnyLaunches(ks, m)
    requires forall i, j :: 0 <= i < j < |ks| ==> ks[i] != ks[j]
    ensures f in ks && Launches(m[f]) && f !in Kept(ks, m)
  {
    hide Launches;
    assert ks == [ks[0]] + ks[1..];
    if Launches(m[ks[0]]) {
      f := ks[0];
    } else {
      f := FirstLauncher(ks[1..], m);
    }
  }

  // ---- Where an answer can come from ----

  lemma {:induction false} LeafFrom(e: Engine, ks: seq<string>, m: map<string, Value>, x: Item) returns (k: string)
    requires (forall k :: k in ks ==> k in m) && x in AllLeaves(e, ks, m)
    ensures k in ks && x in Leaves(e, k, m[k])
  {
    hide Leaves;
    if x in Leaves(e, ks[0], m[ks[0]]) {
      k := ks[0];
    } else {
      k := LeafFrom(e, ks[1..], m, x);
    }
  }

  lemma {:induction false} LeafIn(e: Engine, ks: seq<string>, m: map<string, Value>, k: string, x: Item)
    requires (forall k :: k in ks ==> k in m) && k in ks && x in Leaves(e, k, m[k])
    ensures x in AllLeaves(e, ks, m)
  {
    hide Leaves;
    if k != ks[0] {
      LeafIn(e, ks[1..], m, k, x);
    }
  }

  /** Everything read back is something a key that is read left, folded. */
  lemma Source(e: Engine, config: Dict, p: string) returns (l: string, x: Item)
    requires Catalogue(e) && config.Valid() && Sendable(Sent(config), config.m) && p in ReadBack(e, config).m
    ensures l in config.m && l in Read(config) && x in Leaves(e, l, config.m[l])
    ensures NormItem(e, x.0, x.1) == (p, ReadBack(e, config).m[p])
  {
    hide Catalogue, ValueGuard, Normalized, FromItems, AllLeaves, Leaves, NormItem, Kept;
    ArgvLeaves(e, config);
    var d := Parsed(Argv(e, config));
    var k := NormalizedFrom(e, d, p);
    FromSome(AllLeaves(e, Read(config), config.m), k);
    x := (k, d.m[k]);
    l := LeafFrom(e, Read(config), config.m, x);
  }

  /** A key's own leaf: under its own flag, or its flag's `no_` form. */
  ghost predicate OwnLeaf(e: Engine, k: string, x: Item) {
    x.0 == FlagKey(e, k) || x == ("no_" + FlagKey(e, k), Switch(true))
  }

  lemma OwnOrStray(e: Engine, k: string, v: Value, x: Item)
    requires x in Leaves(e, k, v)
    ensures OwnLeaf(e, k, x) || (!v.Switch? && IsFlag(Strip(Shown(v))) && x == Stray(Strip(Shown(v))))
  {
    hide FlagKey, Strip, NegatedFlag, Stray;
  }

  /** A key's own leaf answers no key that speaks for another name. */
  lemma OwnElsewhere(e: Engine, l: string, x: Item, k: string)
    requires Catalogue(e) && KeyShaped(l) && KeyShaped(k) && Speaks(e, l) !! Speaks(e, k) && OwnLeaf(e, l, x)
    ensures NormItem(e, x.0, x.1).0 != Canon(e, k)
  {
    hide Catalogue, RenderFlag, Claim, IsSwitch, ReadWord, KeyShaped;
    FlagKeyFolds(e, l);
    var nk := "no_" + FlagKey(e, l);
    NegationsUnclaimed(e, nk);
    UnclaimedOrNot(e, nk);
    assert nk[3..] == FlagKey(e, l);
    assert Canon(e, l) in Speaks(e, l) && Stem(e, l) in Speaks(e, l) && Canon(e, k) in Speaks(e, k)
      && Stem(e, k) in Speaks(e, k);
  }

  lemma StrayIsShorter(t: string)
    ensures Stray(t).1 == Switch(true) || (Stray(t).1.Str? && |Stray(t).1.s| < |t|)
  {
    hide FlagToKey;
  }

  lemma FoldedOrKept(e: Engine, k: string, v: Value)
    ensures NormItem(e, k, v).1.Switch? || NormItem(e, k, v).1 == v
  {
    hide IsSwitch, Canon, ReadWord;
  }

  lemma PythonWordsArePlain(s: string)
    ensures s == "True" || s == "False" ==> ValueToken(Strip(s)) && Strip(s) == s
  {
    LauncherLetters(s);
    assert "True"[0] == 'T' && "False"[0] == 'F' && "True"[3] == 'e' && "False"[4] == 'e';
    assert s == "True" || s == "False" ==> Trimmed(s);
  }

  lemma NotAWord(e: Engine, k: string, s: string)
    requires KeyShaped(k) && ValueGuard(Str(s)) && !Plain(e, k, Str(s))
    ensures s != "True" && s != "False"
  {
    hide IsSwitch, Canon, ReadWord;
    PythonWordsArePlain(s);
  }

  lemma WordIsValue(s: string)
    ensures ReadWord(s).Some? && Strip(s) != "" ==> ValueToken(Strip(s))
  {
    hide Strip;
    var t := Strip(s);
    LauncherLetters(t);
    if IsFlag(t) { assert Lower(t)[0] == '-'; }
    if t != "" && t[|t| - 1] == 'r' { assert Lower(t)[|t| - 1] == 'r'; }
  }

  /** A value that is not plain is expected as it was given. */
  lemma NotFolded(e: Engine, k: string, v: Value)
    requires KeyShaped(k) && ValueGuard(v) && !v.Switch? && !Plain(e, k, v)
    ensures NormItem(e, k, v) == (Canon(e, k), v)
  {
    hide Canon, IsSwitch;
    if v.Str? {
      WordIsValue(v.s);
      StripTwice(v.s);
    }
  }

  // ---- Which keys do not answer for themselves ----

  /** A text that is not plain, and that its own key, if it is read at all, does
      not bring back. */
  ghost predicate Lost(e: Engine, config: Dict, k: string)
    requires config.Valid()
  {
    && k in config.m && config.m[k].Str? && !Plain(e, k, config.m[k])
    && var s := config.m[k].s;
       k !in Read(config) || !EndsInLauncher(Strip(s)) || Strip(s) != s || IsFlag(Strip(s))
  }

  /** Its own leaves do not say it. */
  lemma OwnSaysElse(e: Engine, config: Dict, k: string, x: Item)
    requires config.Valid() && Lost(e, config, k) && KeyShaped(k) && ValueGuard(config.m[k])
    requires k in Read(config) && x in Leaves(e, k, config.m[k])
    ensures Shown(NormItem(e, x.0, x.1).1) != config.m[k].s
  {
    hide FlagKey, NormItem, Strip, EndsInLauncher, Stray, ReadWord, Canon, IsSwitch, Read, ValueGuard;
    var s := config.m[k].s;
    FoldedOrKept(e, x.0, x.1);
    NotAWord(e, k, s);
    PlainText(e, k, s);
    TextLeaves(e, k, s, x);
  }

  lemma PlainText(e: Engine, k: string, s: string)
    requires KeyShaped(k) && ValueGuard(Str(s)) && !Plain(e, k, Str(s))
    ensures IsFlag(Strip(s)) || EndsInLauncher(Strip(s)) || Strip(s) != s
  {
    hide EndsInLauncher, ReadWord, Canon, IsSwitch;
  }

  lemma TextLeaves(e: Engine, k: string, s: string, x: Item)
    requires x in Leaves(e, k, Str(s))
    ensures x.1 == Switch(true) || (x.1.Str? && (|x.1.s| < |s| || (x.1.s == Strip(s) && !IsFlag(Strip(s)))))
  {
    hide FlagKey, Strip, Stray;
    StrayIsShorter(Strip(s));
  }

  /** So another, longer text that reads as a flag must say it. */
  lemma AnsweredByLonger(e: Engine, config: Dict, k: string) returns (l: string)
    requires Catalogue(e) && config.Valid() && KeysApart(e, config) && Sendable(Sent(config), config.m)
    requires Equivalent(Normalized(e, config).m, ReadBack(e, config).m) && Lost(e, config, k)
    ensures Lost(e, config, l) && |config.m[l].s| > |config.m[k].s|
  {
    hide Catalogue, Plain, NormItem, Normalized, ReadBack, Leaves, Strip, Stray, Speaks, Read, EndsInLauncher;
    var s, p := config.m[k].s, Canon(e, k);
    assert k in Sent(config);
    NotFolded(e, k, config.m[k]);
    ExpectedItems(e, config);
    assert Said(e, config, k);
    var x: Item;
    l, x := Source(e, config, p);
    assert l in Sent(config);
    OwnOrStray(e, l, config.m[l], x);
    if l == k {
      OwnSaysElse(e, config, k, x);
    } else if OwnLeaf(e, l, x) {
      OwnElsewhere(e, l, x, k);
    }
    StrayAnswers(e, k, s, l, config.m[l], x);
  }

  /** What answers it is the text after the `=`. */
  lemma StrayAnswers(e: Engine, k: string, s: string, l: string, w: Value, x: Item)
    requires KeyShaped(k) && ValueGuard(Str(s)) && !Plain(e, k, Str(s)) && ValueGuard(w)
    requires !w.Switch? && IsFlag(Strip(Shown(w))) && x == Stray(Strip(Shown(w)))
    requires Shown(NormItem(e, x.0, x.1).1) == s
    ensures w.Str? && |w.s| > |s| && !Plain(e, l, w)
  {
    hide Stray, NormItem, Strip, ReadWord, Canon, IsSwitch, EndsInLauncher;
    if w.Num? { NumIsValue(w.text); }
    FoldedOrKept(e, x.0, x.1);
    NotAWord(e, k, s);
    StrayIsShorter(Strip(Shown(w)));
  }

  function Longest(ks: seq<string>, m: map<string, Value>): (n: nat)
    requires forall k :: k in ks ==> k in m
    ensures forall k :: k in ks && m[k].Str? ==> |m[k].s| <= n
  {
    if ks == [] then 0
    else
      var n := Longest(ks[1..], m);
      if m[ks[0]].Str? && |m[ks[0]].s| > n then |m[ks[0]].s| else n
  }

  /** There is no longest such text, so there is none. */
  lemma {:induction false} NobodyIsLost(e: Engine, config: Dict, k: string)
    requires Catalogue(e) && config.Valid() && KeysApart(e, config) && Sendable(Sent(config), config.m)
    requires Equivalent(Normalized(e, config).m, ReadBack(e, config).m) && Lost(e, config, k)
    ensures false
    decreases Longest(Sent(config), config.m) - |config.m[k].s|
  {
    hide Catalogue, KeysApart, Sendable, Equivalent, Plain, Longest, Sent, Read, Strip, EndsInLauncher;
    var l := AnsweredByLonger(e, config, k);
    assert l in Sent(config);
    NobodyIsLost(e, config, l);
  }

  lemma NothingIsCut(e: Engine, config: Dict)
    requires Catalogue(e) && config.Valid() && KeysApart(e, config) && Sendable(Sent(config), config.m)
    requires Equivalent(Normalized(e, config).m, ReadBack(e, config).m)
    ensures Read(config) == Sent(config)
    ensures forall k :: k in config.m && config.m[k].Str? ==> Plain(e, k, config.m[k])
  {
    hide Catalogue, KeysApart, Equivalent, Plain, Strip, EndsInLauncher, Kept, Sent, Lost, AnyLaunches, Sendable;
    SentIsGuarded(config);
    var ks, m := Sent(config), config.m;
    if AnyLaunches(ks, m) {
      var f := FirstLauncher(ks, m);
      LauncherIsLost(e, config, f);
      NobodyIsLost(e, config, f);
    }
    NothingCut(ks, m);
    forall k | k in m && m[k].Str? ensures Plain(e, k, m[k]) {
      if !Plain(e, k, m[k]) {
        NoLauncherIsLost(e, config, k);
        NobodyIsLost(e, config, k);
      }
    }
  }

  lemma NoLauncherIsLost(e: Engine, config: Dict, k: string)
    requires config.Valid() && !AnyLaunches(Sent(config), config.m)
    requires k in config.m && config.m[k].Str? && !Plain(e, k, config.m[k])
    ensures Lost(e, config, k)
  {
    hide Plain, Strip, EndsInLauncher, Read;
    assert k in Sent(config);
  }

  lemma SentIsGuarded(config: Dict)
    requires config.Valid() && Sendable(Sent(config), config.m)
    ensures forall k :: k in config.m ==> ValueGuard(config.m[k])
  {
    hide ValueGuard, KeyShaped;
    forall k | k in config.m ensures ValueGuard(config.m[k]) {
      assert k in Sent(config);
    }
  }

  lemma LauncherIsLost(e: Engine, config: Dict, f: string)
    requires config.Valid() && f in config.m && ValueGuard(config.m[f]) && Launches(config.m[f]) && f !in Read(config)
    ensures Lost(e, config, f)
  {
    hide Strip, EndsInLauncher, Read;
    if config.m[f].Num? { NumIsValue(config.m[f].text); }
  }

  // ---- Numbers, and switches turned off ----

  lemma NumIsNoWord(t: NumText)
    ensures t != "True" && t != "False"
  {
    assert t[0] in t && NumChar(t[0]);
  }

  lemma NumberIsPlain(e: Engine, config: Dict, k: string)
    requires Catalogue(e) && config.Valid() && KeysApart(e, config) && Sendable(Sent(config), config.m)
    requires Equivalent(Normalized(e, config).m, ReadBack(e, config).m) && k in config.m && config.m[k].Num?
    ensures Plain(e, k, config.m[k])
  {
    hide Catalogue, NormItem, Normalized, ReadBack, Leaves, Speaks, Read;
    if !Plain(e, k, config.m[k]) {
      assert k in Sent(config);
      NotFolded(e, k, config.m[k]);
      ExpectedItems(e, config);
      assert Said(e, config, k);
      var l, x := Source(e, config, Canon(e, k));
      NeverTheNumber(e, k, config.m[k].text, l, config.m[l], x);
    }
  }

  /** Whatever is read back on a switch is on or off, or a text that is neither. */
  lemma NeverTheNumber(e: Engine, k: string, t: NumText, l: string, w: Value, x: Item)
    requires !Plain(e, k, Num(t)) && KeyShaped(k) && x in Leaves(e, l, w) && NormItem(e, x.0, x.1).0 == Canon(e, k)
    ensures Shown(NormItem(e, x.0, x.1).1) != t
  {
    hide Canon, FlagKey, FlagToKey, Strip, NegatedFlag, ReadWord, IsSwitch;
    NumIsNoWord(t);
    assert x.1 == Switch(true) || x.1.Str?;
    hide Leaves;
  }

  lemma {:induction false} StoredIsThere(items: seq<Item>, x: Item)
    requires x in items
    ensures x.0 in FromItems(items).m
  {
    if x != items[|items| - 1] {
      StoredIsThere(items[..|items| - 1], x);
    }
  }

  lemma FoldedIsThere(e: Engine, d: Dict, q: string)
    requires d.Valid() && q in d.m
    ensures NormItem(e, q, d.m[q]).0 in Normalized(e, d).m
  {
    hide NormItem;
    var i := Index(d, q);
    var norm := NormItems(e, Items(d));
    assert norm[i] == NormItem(e, q, d.m[q]) && norm[i] in norm;
    StoredIsThere(norm, norm[i]);
  }

  /** A setting stored under an unknown `no_` form is read back under it. */
  lemma UnknownIsReadBack(e: Engine, k: string, v: Value)
    requires Catalogue(e) && KeyShaped(k) && !IsSwitch(e, Canon(e, k))
    ensures NormItem(e, "no_" + FlagKey(e, k), v).0 == "no_" + FlagKey(e, k)
  {
    hide Catalogue, RenderFlag, Claim, ReadWord;
    FlagKeyFolds(e, k);
    var nk := "no_" + FlagKey(e, k);
    NegationsUnclaimed(e, nk);
    UnclaimedOrNot(e, nk);
    assert nk[3..] == FlagKey(e, k);
  }

  /** Nothing the config says explains the `no_` form of a flag that is not
      spelled as its key is stored. */
  lemma UnknownIsNotExplained(e: Engine, config: Dict, k: string)
    requires Catalogue(e) && config.Valid() && KeysApart(e, config) && k in config.m
    requires FlagKey(e, k) != Canon(e, k)
    ensures !Explained("no_" + FlagKey(e, k), Normalized(e, config).m, ReadBack(e, config).m)
  {
    hide Catalogue, NormItem, Normalized, ReadBack, RenderFlag, KeyShaped;
    FlagKeyFolds(e, k);
    var q := FlagKey(e, k);
    var nk := "no_" + q;
    assert nk[3..] == q;
    ExpectedItems(e, config);
    forall l | l in config.m
      ensures !SaysSo(e, config, l, nk) && !SaysSo(e, config, l, q)
    {
      FoldedIsCanonical(e, l, config.m[l]);
      NotNamedSo(e, config, k, l);
    }
  }

  lemma NotNamedSo(e: Engine, config: Dict, k: string, l: string)
    requires Catalogue(e) && config.Valid() && KeysApart(e, config) && k in config.m && l in config.m
    ensures NormItem(e, l, config.m[l]).0 != "no_" + FlagKey(e, k)
  {
    hide Catalogue, NormItem, RenderFlag, KeyShaped, Claim;
    var p, nk := NormItem(e, l, config.m[l]).0, "no_" + FlagKey(e, k);
    FlagKeyFolds(e, k);
    NormSpeaks(e, l, config.m[l]);
    NegationsUnclaimed(e, nk);
    assert nk[3..] == FlagKey(e, k);
    UnclaimedKeepsFlag(e, k);
    assert p == nk ==> Canon(e, l) == nk && Stem(e, l) == Canon(e, k);
    assert Stem(e, l) in Speaks(e, l) && Canon(e, k) in Speaks(e, k);
  }

  lemma UnclaimedKeepsFlag(e: Engine, k: string)
    requires Catalogue(e) && KeyShaped(k)
    ensures Canon(e, k) != "no_" + FlagKey(e, k)
  {
    FlagKeyFolds(e, k);
    if Claim(e.specs, k).Some? {
      ClaimedBy(e, k);
      var s := SpecOf(e, k).value;
      assert Spelling(e, s, s.key);
      assert !("no_" <= Canon(e, k));
    } else {
      KebabBack(k);
      assert |"no_" + k| != |k|;
    }
  }

  lemma OffIsPlain(e: Engine, config: Dict, k: string)
    requires Catalogue(e) && config.Valid() && KeysApart(e, config) && Sendable(Sent(config), config.m)
    requires Read(config) == Sent(config)
    requires Equivalent(Normalized(e, config).m, ReadBack(e, config).m) && k in config.m && config.m[k] == Switch(false)
    ensures Plain(e, k, config.m[k])
  {
    hide Catalogue, NormItem, Normalized, RenderFlag, FromItems, AllLeaves, Read, Explained, NegatedFlag, Canon, Claim;
    if !Plain(e, k, config.m[k]) {
      var nk := "no_" + FlagKey(e, k);
      ArgvLeaves(e, config);
      var d := Parsed(Argv(e, config));
      LeafIn(e, Read(config), config.m, k, (nk, Switch(true)));
      StoredIsThere(AllLeaves(e, Read(config), config.m), (nk, Switch(true)));
      FoldedIsThere(e, d, nk);
      UnknownIsReadBack(e, k, d.m[nk]);
      UnknownIsNotExplained(e, config, k);
    }
  }

  // ---- The theorem ----

  lemma GuardedIsSendable(config: Dict)
    requires config.Valid() && Guarded(config) && forall k :: k in config.m ==> KeyShaped(k)
    ensures Sendable(Sent(config), config.m)
  {
    hide ValueGuard, KeyShaped;
    forall k | k in Sent(config) ensures ValueGuard(config.m[k]) {
      assert GuardProblem(k, config.m[k]).None?;
    }
  }

  lemma PassingIsEquivalent(e: Engine, config: Dict)
    requires Catalogue(e) && config.Valid() && KeysApart(e, config) && Passes(e, config)
    ensures Equivalent(Normalized(e, config).m, ReadBack(e, config).m)
  {
    hide Catalogue, KeysApart, Compare, Normalized, Stolen, NoPairs;
    BothValid(e, config);
    ApartHaveNoPairs(e, config);
    NoPairsNotStolen(Normalized(e, config), ReadBack(e, config).m);
    CompareAllKeys(Normalized(e, config), ReadBack(e, config));
  }

  /** A config of well-shaped keys, no two of which speak for one name, passes
      the check exactly when each of its values is plain. */
  lemma PassesExactlyWhenPlain(e: Engine, config: Dict)
    requires Catalogue(e) && config.Valid() && KeysApart(e, config)
    ensures Passes(e, config) <==> PlainThroughout(e, config)
  {
    hide Catalogue, Verdict, Equivalent, Plain, KeysApart;
    if PlainThroughout(e, config) {
      SurvivorsComeBack(e, config);
    }
    if Passes(e, config) {
      PassingIsEquivalent(e, config);
      AllShaped(e, config);
      GuardedIsSendable(config);
      NothingIsCut(e, config);
      forall k | k in config.m ensures Plain(e, k, config.m[k]) {
        EachIsPlain(e, config, k);
      }
    }
  }

  lemma AllShaped(e: Engine, config: Dict)
    requires KeysApart(e, config)
    ensures forall k :: k in config.m ==> KeyShaped(k)
  {
  }

  lemma EachIsPlain(e: Engine, config: Dict, k: string)
    requires Catalogue(e) && config.Valid() && KeysApart(e, config) && Sendable(Sent(config), config.m)
    requires Read(config) == Sent(config) && Equivalent(Normalized(e, config).m, ReadBack(e, config).m)
    requires forall l :: l in config.m && config.m[l].Str? ==> Plain(e, l, config.m[l])
    requires k in config.m
    ensures Plain(e, k, config.m[k])
  {
    hide Catalogue, Equivalent, Read;
    assert k in Sent(config);
    var v := config.m[k];
    if v.Num? {
      NumberIsPlain(e, config, k);
    } else if v == Switch(false) {
      OffIsPlain(e, config, k);
    }
  }
}
