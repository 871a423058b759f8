/** Which configs survive the trip: what each key renders to is read back
    under the key and the value the config gave it. */
module Survival {
  import opened Text
  import opened Flags
  import opened EngineCommand
  import opened RoundTrip

  // ---- One flag's spelling, there and back ----

  /** `--` and then lowercase letters, digits and dashes. */
  ghost predicate FlagToken(t: string) {
    |t| > 2 && "--" <= t && forall c :: c in t ==> Alnum(c) || c == '-'
  }

  ghost predicate ValueToken(t: string) {
    t != "" && Trimmed(t) && !IsFlag(t) && !EndsInLauncher(t)
  }

  lemma LauncherLetters(t: string)
    ensures EndsInLauncher(t) ==> '_' in t && t[|t| - 1] == 'r'
  {
    var a, b := "launch_server", "api_server";
    if EndsWith(t, a) {
      assert t[|t| - |a|..][6] == a[6] == '_' && t[|t| - |a|..][12] == a[12] == 'r';
    } else if EndsWith(t, b) {
      assert t[|t| - |b|..][3] == b[3] == '_' && t[|t| - |b|..][9] == b[9] == 'r';
    }
  }

  lemma FlagTokenFacts(t: string)
    requires FlagToken(t)
    ensures Strip(t) == t != "" && IsFlag(t) && '=' !in t && '/' !in t && !EndsInLauncher(t) && t != "serve"
  {
    hide EndsInLauncher, IsSpace, Strip;
    LauncherLetters(t);
    var first, last := t[0], t[|t| - 1];
    assert first in t && last in t;
    NotSpace(first);
    NotSpace(last);
  }

  lemma NotSpace(c: char)
    requires Alnum(c) || c == '-' || NumChar(c)
    ensures !IsSpace(c)
  {
  }

  lemma KebabBack(k: string)
    requires KeyShaped(k)
    ensures FlagToken(Kebab(k)) && FlagToKey(Kebab(k)) == k && LStripDashes(Kebab(k)) == ReplaceChar(k, '_', '-')
  {
    var body := ReplaceChar(k, '_', '-');
    var flag := Kebab(k);
    assert flag[1..] == "-" + body && flag[1..][1..] == body;
    assert LStripDashes(flag) == LStripDashes(flag[1..]) == LStripDashes(body) == body;
    forall i | 0 <= i < |k|
      ensures ReplaceChar(body, '-', '_')[i] == k[i]
    {
      assert k[i] in k;
    }
    assert ReplaceChar(body, '-', '_') == k;
    forall c | c in flag
      ensures Alnum(c) || c == '-'
    {
      if c !in "--" {
        assert c in body;
        var i :| 0 <= i < |body| && body[i] == c;
        assert k[i] in k;
      }
    }
  }

  lemma NoKebabBack(k: string)
    requires KeyShaped(k)
    ensures FlagToken("--no-" + ReplaceChar(k, '_', '-'))
    ensures FlagToKey("--no-" + ReplaceChar(k, '_', '-')) == "no_" + k
  {
    hide FlagToKey, LStripDashes;
    var long := "no_" + k;
    assert KeyShaped(long) by {
      assert long[0] == 'n';
    }
    KebabBack(long);
    assert ReplaceChar(long, '_', '-') == "no-" + ReplaceChar(k, '_', '-');
    assert Kebab(long) == "--no-" + ReplaceChar(k, '_', '-');
  }

  /** The key a rendered flag reads back as, before aliases are folded. */
  ghost function FlagKey(e: Engine, k: string): string {
    FlagToKey(RenderFlag(e, k))
  }

  lemma ClaimedBy(e: Engine, k: string)
    requires Catalogue(e) && Claim(e.specs, k).Some?
    ensures SpecOf(e, k).Some? && SpecOf(e, k).value in e.specs
    ensures SpecOf(e, k).value.key == Canon(e, k)
  {
    ClaimIsKey(e.specs, k);
  }

  lemma {:induction false} ClaimIsKey(specs: seq<Spec>, k: string)
    requires Claim(specs, k).Some?
    ensures exists s :: s in specs && s.key == Claim(specs, k).value
  {
    if Claim(specs[1..], k).Some? {
      ClaimIsKey(specs[1..], k);
      var s :| s in specs[1..] && s.key == Claim(specs, k).value;
      assert s in specs;
    } else {
      assert specs[0] in specs;
    }
  }

  lemma {:induction false} UnclaimedNames(specs: seq<Spec>, k: string)
    requires Claim(specs, k).None?
    ensures forall s :: s in specs ==> s.key != k && k !in s.aliases
  {
    if specs != [] {
      UnclaimedNames(specs[1..], k);
    }
  }

  /** A key's flag is one of its own spellings: it folds to the same
      canonical key. */
  lemma FlagKeyFolds(e: Engine, k: string)
    requires Catalogue(e) && KeyShaped(k)
    ensures KeyShaped(FlagKey(e, k)) && RenderFlag(e, k) == Kebab(FlagKey(e, k))
    ensures Canon(e, FlagKey(e, k)) == Canon(e, k)
    ensures KeyShaped(Canon(e, k)) && Canon(e, Canon(e, k)) == Canon(e, k)
  {
    match Claim(e.specs, k)
    case None =>
      KebabBack(k);
    case Some(c) =>
      ClaimedBy(e, k);
      var s := SpecOf(e, k).value;
      assert Spelling(e, s, s.key);
      if s.flag == "" {
        KebabBack(s.key);
      } else {
        var a :| (a == s.key || a in s.aliases) && s.flag == Kebab(a);
        assert Spelling(e, s, a);
        KebabBack(a);
      }
  }

  /** No spelling the catalogue knows starts with `no_`. */
  lemma NegationsUnclaimed(e: Engine, k: string)
    requires Catalogue(e)
    ensures Claim(e.specs, k).Some? || IsSwitch(e, k) ==> !("no_" <= k)
  {
    if Claim(e.specs, k).Some? {
      SpelledBy(e.specs, k);
      var s :| s in e.specs && (k == s.key || k in s.aliases);
      assert Spelling(e, s, k);
    } else if IsSwitch(e, k) {
      SwitchIsCanonical(e, k);
    }
  }

  lemma {:induction false} SpelledBy(specs: seq<Spec>, k: string)
    requires Claim(specs, k).Some?
    ensures exists s :: s in specs && (k == s.key || k in s.aliases)
  {
    if Claim(specs[1..], k).Some? {
      SpelledBy(specs[1..], k);
      var s :| s in specs[1..] && (k == s.key || k in s.aliases);
      assert s in specs;
    } else {
      assert specs[0] in specs;
    }
  }

  lemma SwitchIsCanonical(e: Engine, k: string)
    requires Catalogue(e) && IsSwitch(e, k)
    ensures Canon(e, k) == k && !("no_" <= k)
  {
    var s := SpecAt(e.specs, k).value;
    assert Spelling(e, s, s.key);
  }

  // ---- The configs ----

  /** The canonical names a key speaks for: its own, and for a `no_` key the
      one it negates. */
  ghost function Speaks(e: Engine, k: string): set<string> {
    {Canon(e, k), Stem(e, k)}
  }

  ghost function Stem(e: Engine, k: string): string {
    var c := Canon(e, k);
    if "no_" <= c then Canon(e, c[3..]) else c
  }

  /** A value its key can be given back: what a caller can check of one key
      before the call. */
  ghost predicate Plain(e: Engine, k: string, v: Value) {
    && KeyShaped(k)
    && match v
       case Switch(true) => true
       // off, and either not rendered, or known as a switch, or spelled as it is stored
       case Switch(false) =>
         NegatedFlag(e, k).None? || IsSwitch(e, Canon(e, k)) || FlagKey(e, k) == Canon(e, k)
       // a number given to a switch is read back as on or off
       case Num(t) => !(IsSwitch(e, Canon(e, k)) && ReadWord(t).Some?)
       case Str(s) =>
         var t := Strip(s);
         && ValueToken(t) && !IsFlag(s)
         && (t == s || (IsSwitch(e, Canon(e, k)) && ReadWord(s).Some?))
       case Null => false
       case Nested => false
  }

  /** Every value is plain, and no two keys speak for one name. */
  ghost predicate Survives(e: Engine, config: Dict) {
    PlainThroughout(e, config) && KeysApart(e, config)
  }

  ghost predicate PlainThroughout(e: Engine, config: Dict) {
    forall k :: k in config.m ==> Plain(e, k, config.m[k])
  }

  /** Snake_case names, no two of which speak for one name. */
  ghost predicate KeysApart(e: Engine, config: Dict) {
    && (forall k :: k in config.m ==> KeyShaped(k))
    && (forall k, l :: k in config.m && l in config.m && k != l ==> Speaks(e, k) !! Speaks(e, l))
  }

  // ---- What one key leaves on the command line ----

  /** What the flag walk stores for one key, if anything. */
  ghost function Landing(e: Engine, k: string, v: Value): seq<Item> {
    match v
    case Switch(true) => [(FlagKey(e, k), Switch(true))]
    case Switch(false) => if NegatedFlag(e, k).None? then [] else [("no_" + FlagKey(e, k), Switch(true))]
    case _ => [(FlagKey(e, k), Str(Strip(Shown(v))))]
  }

  /** The tokens of one key once cleaned. */
  ghost function CleanChunk(e: Engine, k: string, v: Value): seq<string> {
    match v
    case Switch(_) => Chunk(e, k, v)
    case _ => [RenderFlag(e, k), Strip(Shown(v))]
  }

  lemma NumIsValue(t: NumText)
    ensures ValueToken(t) && Strip(t) == t
  {
    hide EndsInLauncher, IsSpace, Strip;
    LauncherLetters(t);
    var first, last := t[0], t[|t| - 1];
    assert first in t && last in t;
    NotSpace(first);
    NotSpace(last);
  }

  lemma ShownIsValue(e: Engine, k: string, v: Value)
    requires Plain(e, k, v) && !v.Switch?
    ensures ValueToken(Strip(Shown(v)))
  {
    if v.Num? { NumIsValue(v.text); }
  }

  lemma NegatedSpelling(e: Engine, k: string)
    requires Catalogue(e) && KeyShaped(k) && NegatedFlag(e, k).Some?
    ensures FlagToken(NegatedFlag(e, k).value) && FlagToKey(NegatedFlag(e, k).value) == "no_" + FlagKey(e, k)
  {
    FlagKeyFolds(e, k);
    KebabBack(FlagKey(e, k));
    NoKebabBack(FlagKey(e, k));
  }

  lemma FromPlus(items: seq<Item>, x: Item)
    ensures FromItems(items + [x]) == FromItems(items).Put(x.0, x.1)
  {
    assert (items + [x])[..|items|] == items;
  }

  lemma WalkBare(flag: string, rest: seq<string>, items: seq<Item>)
    requires FlagToken(flag) && (rest == [] || IsFlag(rest[0]))
    ensures Walk([flag] + rest, FromItems(items)) == Walk(rest, FromItems(items + [(FlagToKey(flag), Switch(true))]))
  {
    hide FlagToKey;
    FlagTokenFacts(flag);
    FromPlus(items, (FlagToKey(flag), Switch(true)));
    assert ([flag] + rest)[1..] == rest;
  }

  lemma WalkValued(flag: string, t: string, rest: seq<string>, items: seq<Item>)
    requires FlagToken(flag) && !IsFlag(t)
    ensures Walk([flag, t] + rest, FromItems(items)) == Walk(rest, FromItems(items + [(FlagToKey(flag), Str(t))]))
  {
    hide FlagToKey;
    FlagTokenFacts(flag);
    FromPlus(items, (FlagToKey(flag), Str(t)));
    assert ([flag, t] + rest)[2..] == rest;
  }

  /** Walking over one key's tokens stores exactly its landing. */
  lemma ChunkWalk(e: Engine, k: string, v: Value, rest: seq<string>, items: seq<Item>)
    requires Catalogue(e) && Plain(e, k, v) && (rest == [] || IsFlag(rest[0]))
    ensures Walk(CleanChunk(e, k, v) + rest, FromItems(items)) == Walk(rest, FromItems(items + Landing(e, k, v)))
  {
    hide Walk, Catalogue, NegatedFlag, RenderFlag, FromItems;
    FlagKeyFolds(e, k);
    KebabBack(FlagKey(e, k));
    if v == Switch(true) {
      WalkBare(RenderFlag(e, k), rest, items);
    } else if v == Switch(false) {
      if NegatedFlag(e, k).Some? {
        NegatedSpelling(e, k);
        WalkBare(NegatedFlag(e, k).value, rest, items);
      } else {
        assert CleanChunk(e, k, v) + rest == rest && items + Landing(e, k, v) == items;
      }
    } else {
      ShownIsValue(e, k, v);
      WalkValued(RenderFlag(e, k), Strip(Shown(v)), rest, items);
    }
  }

  // ---- What the whole config leaves there ----

  ghost predicate AllPlain(e: Engine, ks: seq<string>, m: map<string, Value>) {
    forall k :: k in ks ==> k in m && Plain(e, k, m[k])
  }

  ghost function CleanRender(e: Engine, ks: seq<string>, m: map<string, Value>): seq<string>
    requires AllPlain(e, ks, m)
  {
    if ks == [] then [] else CleanChunk(e, ks[0], m[ks[0]]) + CleanRender(e, ks[1..], m)
  }

  ghost function Landings(e: Engine, ks: seq<string>, m: map<string, Value>): seq<Item>
    requires AllPlain(e, ks, m)
  {
    if ks == [] then [] else Landing(e, ks[0], m[ks[0]]) + Landings(e, ks[1..], m)
  }

  lemma {:induction false} CleanConcat(a: seq<string>, b: seq<string>)
    ensures CleanTokens(a + b) == CleanTokens(a) + CleanTokens(b)
  {
    hide Strip;
    if a == [] {
      assert a + b == b;
    } else {
      assert (a + b)[0] == a[0] && (a + b)[1..] == a[1..] + b;
      CleanConcat(a[1..], b);
      var first := if Strip(a[0]) == "" then [] else [Strip(a[0])];
      assert CleanTokens(a + b) == first + (CleanTokens(a[1..]) + CleanTokens(b));
    }
  }

  lemma ChunkCleaned(e: Engine, k: string, v: Value)
    requires Catalogue(e) && Plain(e, k, v)
    ensures CleanTokens(Chunk(e, k, v)) == CleanChunk(e, k, v)
    ensures Shaped(CleanChunk(e, k, v)) && !IsEnvKey(k)
    ensures CleanChunk(e, k, v) != [] ==> FlagToken(CleanChunk(e, k, v)[0])
  {
    hide Catalogue, RenderFlag, NegatedFlag, Strip, FlagToken, ValueToken;
    NotEnv(k);
    hide IsEnvKey;
    FlagKeyFolds(e, k);
    KebabBack(FlagKey(e, k));
    FlagTokenFacts(RenderFlag(e, k));
    if v.Switch? {
      if !v.on && NegatedFlag(e, k).Some? {
        NegatedSpelling(e, k);
        FlagTokenFacts(NegatedFlag(e, k).value);
      }
    } else {
      ShownIsValue(e, k, v);
      ValueNotEmpty(Strip(Shown(v)));
    }
  }

  lemma ValueNotEmpty(t: string)
    requires ValueToken(t)
    ensures t != "" && !IsFlag(t)
  {
  }

  /** A value only ever stands right after a flag. */
  ghost predicate Shaped(ts: seq<string>) {
    forall i :: 0 <= i < |ts| ==> ShapedAt(ts, i)
  }

  ghost predicate ShapedAt(ts: seq<string>, i: nat)
    requires i < |ts|
  {
    FlagToken(ts[i]) || (i > 0 && FlagToken(ts[i - 1]) && ValueToken(ts[i]))
  }

  lemma ShapedConcat(a: seq<string>, b: seq<string>)
    requires Shaped(a) && Shaped(b)
    ensures Shaped(a + b)
  {
    hide FlagToken, ValueToken;
    forall i | 0 <= i < |a + b|
      ensures ShapedAt(a + b, i)
    {
      assert i < |a| ==> ShapedAt(a, i);
      assert i >= |a| ==> ShapedAt(b, i - |a|);
    }
  }

  lemma {:induction false} RenderCleaned(e: Engine, ks: seq<string>, m: map<string, Value>)
    requires Catalogue(e) && AllPlain(e, ks, m)
    ensures CleanTokens(Render(e, ks, m)) == CleanRender(e, ks, m)
    ensures Shaped(CleanRender(e, ks, m))
    ensures CleanRender(e, ks, m) != [] ==> FlagToken(CleanRender(e, ks, m)[0])
  {
    hide Catalogue, Plain, Chunk, CleanChunk, Shaped, FlagToken, CleanTokens;
    if ks == [] {
      NothingToClean();
    } else {
      assert ks[0] in ks;
      ChunkCleaned(e, ks[0], m[ks[0]]);
      RenderCleaned(e, ks[1..], m);
      CleanConcat(Chunk(e, ks[0], m[ks[0]]), Render(e, ks[1..], m));
      ShapedConcat(CleanChunk(e, ks[0], m[ks[0]]), CleanRender(e, ks[1..], m));
    }
  }

  lemma NothingToClean()
    ensures CleanTokens([]) == [] && Shaped([])
  {
  }

  lemma {:induction false} NoLauncher(ts: seq<string>, i: nat)
    requires Shaped(ts) && i <= |ts|
    ensures AfterLauncher(ts, i) == ts
    decreases |ts| - i
  {
    hide FlagToken, ValueToken, EndsInLauncher, IsFlag;
    if i < |ts| {
      assert ShapedAt(ts, i);
      if FlagToken(ts[i]) {
        FlagTokenFacts(ts[i]);
      } else {
        FlagTokenFacts(ts[i - 1]);
        FlagIsNotSglang(ts[i - 1]);
        ValueIsNotLauncher(ts[i]);
      }
      NoLauncher(ts, i + 1);
    }
  }

  lemma FlagIsNotSglang(t: string)
    requires IsFlag(t) && '/' !in t
    ensures AfterLast(t, '/') != "sglang"
  {
    assert t[0] == '-' != "sglang"[0];
  }

  lemma ValueIsNotLauncher(t: string)
    requires ValueToken(t)
    ensures !EndsInLauncher(t)
  {
  }

  lemma {:induction false} RenderWalk(e: Engine, ks: seq<string>, m: map<string, Value>, items: seq<Item>)
    requires Catalogue(e) && AllPlain(e, ks, m)
    ensures Walk(CleanRender(e, ks, m), FromItems(items)) == FromItems(items + Landings(e, ks, m))
    decreases |ks|
  {
    hide Catalogue, Plain, CleanChunk, Landing, FromItems, Walk;
    if ks == [] {
      WalkNothing(FromItems(items));
      assert items + Landings(e, ks, m) == items;
    } else {
      assert ks[0] in ks;
      var rest := CleanRender(e, ks[1..], m);
      RenderCleaned(e, ks[1..], m);
      if rest != [] { FlagTokenFacts(rest[0]); }
      ChunkWalk(e, ks[0], m[ks[0]], rest, items);
      RenderWalk(e, ks[1..], m, items + Landing(e, ks[0], m[ks[0]]));
      assert items + Landings(e, ks, m) == items + Landing(e, ks[0], m[ks[0]]) + Landings(e, ks[1..], m);
    }
  }

  lemma WalkNothing(args: Dict)
    requires args.Valid()
    ensures Walk([], args) == args
  {
  }

  /** The argv of a config reads back as its landings, key by key. */
  lemma ArgvReadsBack(e: Engine, config: Dict)
    requires Catalogue(e) && config.Valid() && PlainThroughout(e, config)
    ensures AllPlain(e, Sorted(config.keys), config.m)
    ensures Parsed(Argv(e, config)) == FromItems(Landings(e, Sorted(config.keys), config.m))
  {
    hide Catalogue, Plain, Walk, FromItems, Landings, CleanRender;
    SortedKeys(config);
    var ks := Sorted(config.keys);
    RenderCleaned(e, ks, config.m);
    NoLauncher(CleanRender(e, ks, config.m), 0);
    RenderWalk(e, ks, config.m, []);
    StartsEmpty();
    assert [] + Landings(e, ks, config.m) == Landings(e, ks, config.m);
  }

  lemma StartsEmpty()
    ensures FromItems([]) == EMPTY
  {
  }

  // ---- Landings of different keys stay apart ----

  /** `p` is where `k` ends up, on either side, once aliases are folded. */
  ghost predicate Lands(e: Engine, k: string, v: Value, p: string) {
    Landing(e, k, v) != [] && NormItem(e, Landing(e, k, v)[0].0, Landing(e, k, v)[0].1).0 == p
  }

  /** A key lands on a name it speaks for, or beside it when it turns an
      unknown switch off. */
  lemma LandsWhere(e: Engine, k: string, v: Value, p: string)
    requires Catalogue(e) && Plain(e, k, v) && Lands(e, k, v, p)
    ensures v != Switch(false) ==> p == NormItem(e, k, v).0
    ensures p == Canon(e, k) || (p == Stem(e, k) && IsSwitch(e, p))
            || (v == Switch(false) && p == "no_" + Canon(e, k))
  {
    hide Catalogue, RenderFlag, NegatedFlag, Claim, ReadWord;
    FlagKeyFolds(e, k);
    if v == Switch(false) {
      var nk := "no_" + FlagKey(e, k);
      NegationsUnclaimed(e, nk);
      UnknownIsItself(e, nk);
      assert nk[3..] == FlagKey(e, k);
    }
  }

  lemma UnknownIsItself(e: Engine, k: string)
    requires Claim(e.specs, k).None?
    ensures Canon(e, k) == k
  {
  }

  lemma LandApart(e: Engine, k: string, v: Value, l: string, w: Value, p: string)
    requires Catalogue(e) && Plain(e, k, v) && Plain(e, l, w) && Speaks(e, k) !! Speaks(e, l)
    requires Lands(e, k, v, p)
    ensures !Lands(e, l, w, p)
    ensures w == Switch(false) ==> p != Canon(e, l)
  {
    hide Catalogue, Lands, IsSwitch, Claim, ValueToken, ReadWord, NegatedFlag, KeyShaped;
    LandsWhere(e, k, v, p);
    FlagKeyFolds(e, k);
    FlagKeyFolds(e, l);
    NegationsUnclaimed(e, p);
    UnclaimedOrNot(e, p);
    assert ("no_" + Canon(e, k))[3..] == Canon(e, k) && ("no_" + Canon(e, l))[3..] == Canon(e, l);
    if Lands(e, l, w, p) {
      LandsWhere(e, l, w, p);
    }
  }

  lemma UnclaimedOrNot(e: Engine, p: string)
    ensures Claim(e.specs, p).None? ==> Canon(e, p) == p
  {
  }

  /** Two keys never store under one raw key either. */
  lemma RawApart(e: Engine, k: string, v: Value, l: string, w: Value)
    requires Catalogue(e) && Plain(e, k, v) && Plain(e, l, w) && Speaks(e, k) !! Speaks(e, l)
    requires Landing(e, k, v) != [] && Landing(e, l, w) != []
    ensures Landing(e, k, v)[0].0 != Landing(e, l, w)[0].0
  {
    hide Catalogue, Claim, NegatedFlag, RenderFlag, KeyShaped, ValueToken, ReadWord, IsSwitch;
    FlagKeyFolds(e, k);
    FlagKeyFolds(e, l);
    var nk, nl := "no_" + FlagKey(e, k), "no_" + FlagKey(e, l);
    assert nk[3..] == FlagKey(e, k) && nl[3..] == FlagKey(e, l);
    NegationsUnclaimed(e, nk);
    NegationsUnclaimed(e, nl);
    UnclaimedOrNot(e, nk);
    UnclaimedOrNot(e, nl);
  }

  lemma {:induction false} LandingFrom(e: Engine, ks: seq<string>, m: map<string, Value>, x: Item) returns (k: string)
    requires AllPlain(e, ks, m) && x in Landings(e, ks, m)
    ensures k in ks && Landing(e, k, m[k]) == [x]
  {
    hide Plain;
    assert ks[0] in ks;
    if x in Landing(e, ks[0], m[ks[0]]) {
      k := ks[0];
    } else {
      k := LandingFrom(e, ks[1..], m, x);
    }
  }

  lemma {:induction false} LandingIn(e: Engine, ks: seq<string>, m: map<string, Value>, k: string)
    requires AllPlain(e, ks, m) && k in ks && Landing(e, k, m[k]) != []
    ensures Landing(e, k, m[k])[0] in Landings(e, ks, m)
  {
    hide Plain, Landing;
    assert ks[0] in ks;
    if k != ks[0] {
      LandingIn(e, ks[1..], m, k);
    }
  }

  ghost predicate Apart(e: Engine, ks: seq<string>) {
    forall i, j :: 0 <= i < j < |ks| ==> Speaks(e, ks[i]) !! Speaks(e, ks[j])
  }

  ghost predicate Unlike(e: Engine, x: Item, y: Item) {
    x.0 != y.0 && NormItem(e, x.0, x.1).0 != NormItem(e, y.0, y.1).0
  }

  ghost predicate AllUnlike(e: Engine, items: seq<Item>) {
    forall i, j :: 0 <= i < j < |items| ==> Unlike(e, items[i], items[j])
  }

  lemma UnlikeIsDistinct(e: Engine, items: seq<Item>)
    requires AllUnlike(e, items)
    ensures DistinctKeys(items) && DistinctKeys(NormItems(e, items))
  {
    hide NormItem;
    var norm := NormItems(e, items);
    forall i, j | 0 <= i < j < |items|
      ensures items[i].0 != items[j].0 && norm[i].0 != norm[j].0
    {
      assert Unlike(e, items[i], items[j]);
    }
  }

  lemma FirstUnlike(e: Engine, ks: seq<string>, m: map<string, Value>, x: Item, y: Item)
    requires Catalogue(e) && AllPlain(e, ks, m) && Apart(e, ks) && ks != []
    requires Landing(e, ks[0], m[ks[0]]) == [x] && y in Landings(e, ks[1..], m)
    ensures Unlike(e, x, y)
  {
    hide Catalogue, Plain, NormItem, Speaks, Landing;
    var k := ks[0];
    assert k in ks;
    var l := LandingFrom(e, ks[1..], m, y);
    OthersApart(e, ks, l);
    RawApart(e, k, m[k], l, m[l]);
    LandApart(e, k, m[k], l, m[l], NormItem(e, x.0, x.1).0);
  }

  lemma {:induction false} LandingsUnlike(e: Engine, ks: seq<string>, m: map<string, Value>)
    requires Catalogue(e) && AllPlain(e, ks, m) && Apart(e, ks)
    ensures AllUnlike(e, Landings(e, ks, m))
  {
    hide Catalogue, Plain, Unlike, AllUnlike, Apart, Speaks, Landing;
    if ks == [] {
      NothingUnlike(e);
    } else {
      TailApart(e, ks);
    }
    if ks != [] {
      var k, rest := ks[0], Landings(e, ks[1..], m);
      assert k in ks;
      LandingsUnlike(e, ks[1..], m);
      LandingAtMostOne(e, k, m[k]);
      if Landing(e, k, m[k]) != [] {
        var first := Landing(e, k, m[k])[0];
        forall y | y in rest
          ensures Unlike(e, first, y)
        {
          FirstUnlike(e, ks, m, first, y);
        }
        ConsUnlike(e, first, rest);
        assert Landings(e, ks, m) == [first] + rest;
      } else {
        assert Landings(e, ks, m) == rest;
      }
    }
  }

  lemma NothingUnlike(e: Engine)
    ensures AllUnlike(e, [])
  {
  }

  lemma TailApart(e: Engine, ks: seq<string>)
    requires Apart(e, ks) && ks != []
    ensures Apart(e, ks[1..])
  {
    hide Speaks;
  }

  lemma LandingAtMostOne(e: Engine, k: string, v: Value)
    ensures Landing(e, k, v) == [] || Landing(e, k, v) == [Landing(e, k, v)[0]]
  {
    hide FlagKey, NegatedFlag;
  }

  lemma ConsUnlike(e: Engine, x: Item, items: seq<Item>)
    requires AllUnlike(e, items) && forall y :: y in items ==> Unlike(e, x, y)
    ensures AllUnlike(e, [x] + items)
  {
    hide Unlike;
  }

  lemma OthersApart(e: Engine, ks: seq<string>, l: string)
    requires Apart(e, ks) && ks != [] && l in ks[1..]
    ensures Speaks(e, ks[0]) !! Speaks(e, l)
  {
    var j :| 0 <= j < |ks[1..]| && ks[1..][j] == l;
    assert ks[j + 1] == l;
  }

  // ---- Both sides of the comparison ----

  lemma NormSpeaks(e: Engine, k: string, v: Value)
    ensures NormItem(e, k, v).0 in Speaks(e, k)
    ensures NormItem(e, k, v).0 == Canon(e, k) || IsSwitch(e, NormItem(e, k, v).0)
    ensures v == Switch(false) ==> NormItem(e, k, v) == (Canon(e, k), Switch(false))
  {
    hide Canon, ReadWord, IsSwitch;
  }

  /** Everything the config says is expected under its folded name, and
      nothing else is. */
  lemma ExpectedItems(e: Engine, config: Dict)
    requires config.Valid() && KeysApart(e, config)
    ensures forall k :: k in config.m ==> Said(e, config, k)
    ensures forall p :: p in Normalized(e, config).m ==> exists k :: SaysSo(e, config, k, p)
  {
    hide NormItem, Plain, Speaks;
    var items := Items(config);
    var norm := NormItems(e, items);
    forall i, j | 0 <= i < j < |norm|
      ensures norm[i].0 != norm[j].0
    {
      var k, l := items[i].0, items[j].0;
      assert k in config.keys && l in config.keys;
      NormSpeaks(e, k, items[i].1);
      NormSpeaks(e, l, items[j].1);
    }
    FromDistinct(norm);
    forall k | k in config.m
      ensures Said(e, config, k)
    {
      var i := Index(config, k);
      assert Holds(FromItems(norm), i, norm[i]);
    }
    forall p | p in Normalized(e, config).m
      ensures exists k :: SaysSo(e, config, k, p)
    {
      FromSome(norm, p);
      var i :| 0 <= i < |norm| && norm[i] == (p, FromItems(norm).m[p]);
      assert items[i].0 in config.keys;
      assert SaysSo(e, config, items[i].0, p);
    }
  }

  ghost predicate Said(e: Engine, config: Dict, k: string)
    requires config.Valid() && k in config.m
  {
    var (p, w) := NormItem(e, k, config.m[k]);
    p in Normalized(e, config).m && Normalized(e, config).m[p] == w
  }

  ghost predicate SaysSo(e: Engine, config: Dict, k: string, p: string)
    requires config.Valid()
  {
    && k in config.m && p in Normalized(e, config).m
    && NormItem(e, k, config.m[k]) == (p, Normalized(e, config).m[p])
  }

  /** The read-back is the landings, each folded, none over another. */
  lemma ReadBackIs(e: Engine, config: Dict) returns (ks: seq<string>, items: seq<Item>)
    requires Catalogue(e) && config.Valid() && Survives(e, config)
    ensures AllPlain(e, ks, config.m) && items == Landings(e, ks, config.m)
    ensures forall k :: k in ks <==> k in config.m
    ensures ReadBack(e, config) == FromItems(NormItems(e, items))
    ensures DistinctKeys(NormItems(e, items))
  {
    hide Catalogue, Plain, Speaks, Landings, NormItems, Argv, Parsed;
    ArgvReadsBack(e, config);
    SortedKeys(config);
    ks := Sorted(config.keys);
    items := Landings(e, ks, config.m);
    LandingsUnlike(e, ks, config.m);
    UnlikeIsDistinct(e, items);
    ItemsOfFrom(items);
  }

  /** Every landing is read back under its folded name, and nothing else is. */
  lemma ReadBackItems(e: Engine, config: Dict)
    requires Catalogue(e) && config.Valid() && Survives(e, config)
    ensures forall k :: k in config.m && Landing(e, k, config.m[k]) != [] ==> ReadSo(e, config, k)
    ensures forall p :: p in ReadBack(e, config).m ==>
              exists k :: k in config.m && Lands(e, k, config.m[k], p)
  {
    hide Catalogue, NormItem, Plain, Speaks, Landing, Landings, ReadBack, FromItems;
    var ks, items := ReadBackIs(e, config);
    var norm := NormItems(e, items);
    FromDistinct(norm);
    forall k | k in config.m && Landing(e, k, config.m[k]) != []
      ensures ReadSo(e, config, k)
    {
      LandingIn(e, ks, config.m, k);
      var i :| 0 <= i < |items| && items[i] == Landing(e, k, config.m[k])[0];
      assert Holds(FromItems(norm), i, norm[i]);
    }
    forall p | p in ReadBack(e, config).m
      ensures exists k :: k in config.m && Lands(e, k, config.m[k], p)
    {
      FromSome(norm, p);
      var i :| 0 <= i < |norm| && norm[i] == (p, FromItems(norm).m[p]);
      var k := LandingFrom(e, ks, config.m, items[i]);
      assert Lands(e, k, config.m[k], p);
    }
  }

  ghost predicate ReadSo(e: Engine, config: Dict, k: string)
    requires config.Valid() && k in config.m && Landing(e, k, config.m[k]) != []
  {
    var x := Landing(e, k, config.m[k])[0];
    var (p, w) := NormItem(e, x.0, x.1);
    p in ReadBack(e, config).m && ReadBack(e, config).m[p] == w
  }

  // ---- The theorem ----

  lemma PlainIsGuarded(e: Engine, k: string, v: Value)
    requires Plain(e, k, v)
    ensures GuardProblem(k, v).None?
  {
    hide Strip, IsSwitch, Canon, ReadWord, EndsInLauncher;
  }

  /** What lands for a switch turned off: the same off, or its `no_` form. */
  lemma OffLands(e: Engine, k: string)
    requires Catalogue(e) && Plain(e, k, Switch(false)) && Landing(e, k, Switch(false)) != []
    ensures var x := Landing(e, k, Switch(false))[0];
            NormItem(e, x.0, x.1) == (Canon(e, k), Switch(false)) || NormItem(e, x.0, x.1).0 == "no_" + Canon(e, k)
  {
    hide Catalogue, RenderFlag, NegatedFlag, Claim;
    FlagKeyFolds(e, k);
    var nk := "no_" + FlagKey(e, k);
    NegationsUnclaimed(e, nk);
    UnknownIsItself(e, nk);
    assert nk[3..] == FlagKey(e, k);
  }

  /** What is read back for anything else is what was said. */
  lemma SameSaid(e: Engine, k: string, v: Value)
    requires Catalogue(e) && Plain(e, k, v) && v != Switch(false)
    ensures Landing(e, k, v) != []
    ensures var x := Landing(e, k, v)[0];
            && NormItem(e, x.0, x.1).0 == NormItem(e, k, v).0
            && (NormItem(e, x.0, x.1).1 == NormItem(e, k, v).1
                || (!NormItem(e, k, v).1.Switch? && Shown(NormItem(e, x.0, x.1).1) == Shown(NormItem(e, k, v).1)))
  {
    hide Catalogue, RenderFlag, Claim, Strip, ValueToken;
    FlagKeyFolds(e, k);
    match v
    case Num(t) => NumIsValue(t);
    case Str(s) => StripTwice(s);
    case _ =>
  }

  lemma StripTwice(s: string)
    ensures ReadWord(Strip(s)) == ReadWord(s)
  {
    assert Strip(Strip(s)) == Strip(s);
  }

  lemma ApartHaveNoPairs(e: Engine, config: Dict)
    requires Catalogue(e) && config.Valid() && KeysApart(e, config)
    ensures NoPairs(Normalized(e, config).m)
  {
    hide Catalogue, NormItem, Normalized, Speaks, Said, ReadWord, ValueToken, KeyShaped;
    ExpectedItems(e, config);
    var m := Normalized(e, config).m;
    forall p | p in m && m[p] == Switch(false)
      ensures "no_" + p !in m
    {
      var k :| SaysSo(e, config, k, p);
      forall l | l in config.m
        ensures !SaysSo(e, config, l, "no_" + p)
      {
        NoPairAcross(e, k, config.m[k], l, config.m[l]);
      }
    }
  }

  lemma FoldedIsCanonical(e: Engine, k: string, v: Value)
    requires Catalogue(e) && KeyShaped(k)
    ensures Canon(e, NormItem(e, k, v).0) == NormItem(e, k, v).0
  {
    hide Catalogue, NormItem, IsSwitch, Claim, Canon;
    NormSpeaks(e, k, v);
    FlagKeyFolds(e, k);
    if NormItem(e, k, v).0 != Canon(e, k) {
      SwitchIsCanonical(e, NormItem(e, k, v).0);
    }
  }

  /** No key folds to the `no_` form of what another, or itself, folds to. */
  lemma NoPairAcross(e: Engine, k: string, v: Value, l: string, w: Value)
    requires Catalogue(e) && KeyShaped(k)
    requires (k == l && v == w) || Speaks(e, k) !! Speaks(e, l)
    ensures NormItem(e, l, w).0 != "no_" + NormItem(e, k, v).0
  {
    hide Catalogue, NormItem, IsSwitch, Claim, Canon;
    var p, q := NormItem(e, k, v).0, NormItem(e, l, w).0;
    FoldedIsCanonical(e, k, v);
    NormSpeaks(e, k, v);
    NormSpeaks(e, l, w);
    NegationsUnclaimed(e, q);
    assert ("no_" + p)[3..] == p && |"no_" + p| != |p|;
    assert q == "no_" + p ==> Stem(e, l) == p;
  }

  lemma ExpectedAnswered(e: Engine, config: Dict, p: string)
    requires Catalogue(e) && config.Valid() && Survives(e, config) && p in Normalized(e, config).m
    ensures Answered(p, Normalized(e, config).m[p], ReadBack(e, config).m)
  {
    hide Catalogue, Plain, NormItem, Normalized, ReadBack, Speaks, Landing, Said;
    ExpectedItems(e, config);
    ReadBackItems(e, config);
    var k :| SaysSo(e, config, k, p);
    var v := config.m[k];
    if v == Switch(false) {
      NormSpeaks(e, k, v);
      if p in ReadBack(e, config).m {
        var l :| l in config.m && Lands(e, l, config.m[l], p);
        if l != k {
          LandApart(e, l, config.m[l], k, v, p);
        }
        OffLands(e, k);
        assert ReadSo(e, config, k);
      }
    } else {
      SameSaid(e, k, v);
      assert ReadSo(e, config, k);
    }
  }

  lemma ReadBackExplained(e: Engine, config: Dict, p: string)
    requires Catalogue(e) && config.Valid() && Survives(e, config) && p in ReadBack(e, config).m
    ensures Explained(p, Normalized(e, config).m, ReadBack(e, config).m)
  {
    hide Catalogue, Plain, NormItem, Normalized, ReadBack, Speaks, Landing, ReadSo;
    ExpectedItems(e, config);
    ReadBackItems(e, config);
    var k :| k in config.m && Lands(e, k, config.m[k], p);
    var v := config.m[k];
    assert Said(e, config, k);
    if v != Switch(false) {
      LandsWhere(e, k, v, p);
    } else {
      NormSpeaks(e, k, v);
      OffLands(e, k);
      if p != Canon(e, k) {
        assert p[3..] == Canon(e, k);
        if p[3..] in ReadBack(e, config).m {
          var l :| l in config.m && Lands(e, l, config.m[l], p[3..]);
          assert l != k;
          LandApart(e, l, config.m[l], k, v, p[3..]);
        }
      }
    }
  }

  /** A config of plain values, no two keys of which speak for one name, passes
      the check: its command line reads back as the same config. */
  lemma SurvivorsComeBack(e: Engine, config: Dict)
    requires Catalogue(e) && config.Valid() && Survives(e, config)
    ensures Guarded(config)
    ensures Equivalent(Normalized(e, config).m, ReadBack(e, config).m)
    ensures Verdict(e, config) == []
  {
    hide Catalogue, Plain, Normalized, Argv, Parsed, Answered, Explained, Compare, Speaks;
    forall k | k in config.m
      ensures GuardProblem(k, config.m[k]).None?
    {
      PlainIsGuarded(e, k, config.m[k]);
    }
    forall p | p in Normalized(e, config).m
      ensures Answered(p, Normalized(e, config).m[p], ReadBack(e, config).m)
    {
      ExpectedAnswered(e, config, p);
    }
    forall p | p in ReadBack(e, config).m
      ensures Explained(p, Normalized(e, config).m, ReadBack(e, config).m)
    {
      ReadBackExplained(e, config, p);
    }
    ApartHaveNoPairs(e, config);
    BothValid(e, config);
    NoPairsNotStolen(Normalized(e, config), ReadBack(e, config).m);
    CompareAllKeys(Normalized(e, config), ReadBack(e, config));
  }
}
