/** An engine's flag vocabulary and the argv a config renders to
    (backend/app/control/engines/flags.py and base.py). */
module Flags {
  import opened Text

  // ---- Values and the ordered dictionaries that hold them ----

  /** What `str()` of an int or a float looks like. */
  type NumText = s: string | s != "" && !("--" <= s) && (forall c :: c in s ==> NumChar(c)) witness "0"

  predicate NumChar(c: char) {
    '0' <= c <= '9' || c == '+' || c == '-' || c == '.' || c == 'e' || c == 'i' || c == 'n' || c == 'f' || c == 'a'
  }

  datatype Value =
    | Null
    | Switch(on: bool)
    | Num(text: NumText)
    | Str(s: string)
    | Nested            // a list or an object

  /** `str(value)` */
  function Shown(v: Value): string {
    match v
    case Null => "None"
    case Switch(on) => if on then "True" else "False"
    case Num(text) => text
    case Str(s) => s
    case Nested => "[...]"
  }

  /** A dictionary that remembers the order its keys came in. */
  datatype Dict = Dict(keys: seq<string>, m: map<string, Value>) {
    ghost predicate Valid() {
      && (forall i, j :: 0 <= i < j < |keys| ==> keys[i] != keys[j])
      && (forall k :: k in keys <==> k in m)
    }

    function Put(k: string, v: Value): Dict {
      if k in m then Dict(keys, m[k := v]) else Dict(keys + [k], m[k := v])
    }

    function Pop(k: string): Dict {
      Dict(Without(keys, k), m - {k})
    }

    function Get(k: string): Option<Value> {
      if k in m then Some(m[k]) else None
    }
  }

  function Without(ks: seq<string>, k: string): (r: seq<string>)
    ensures forall x :: x in r <==> x in ks && x != k
  {
    if ks == [] then []
    else (if ks[0] == k then [] else [ks[0]]) + Without(ks[1..], k)
  }

  const EMPTY := Dict([], map[])

  type Item = (string, Value)

  /** The dictionary made by storing the items one after the other. */
  function FromItems(items: seq<Item>): (d: Dict)
    ensures d.Valid()
  {
    if items == [] then EMPTY
    else
      var last := items[|items| - 1];
      FromItems(items[..|items| - 1]).Put(last.0, last.1)
  }

  /** Nothing is in it that was not stored. */
  lemma {:induction false} FromSome(items: seq<Item>, k: string)
    requires k in FromItems(items).m
    ensures (k, FromItems(items).m[k]) in items
  {
    if items != [] {
      var front, last := items[..|items| - 1], items[|items| - 1];
      if k != last.0 {
        FromSome(front, k);
      }
    }
  }

  function Items(d: Dict): (items: seq<Item>)
    requires d.Valid()
    ensures |items| == |d.keys|
    ensures forall i :: 0 <= i < |items| ==> d.keys[i] in d.m && items[i] == (d.keys[i], d.m[d.keys[i]])
  {
    seq(|d.keys|, i requires 0 <= i < |d.keys| && d.Valid() =>
      assert d.keys[i] in d.m; (d.keys[i], d.m[d.keys[i]]))
  }

  ghost predicate DistinctKeys(items: seq<Item>) {
    forall i, j :: 0 <= i < j < |items| ==> items[i].0 != items[j].0
  }

  /** Items under distinct keys are all there, in order, each with its own value. */
  lemma {:induction false} FromDistinct(items: seq<Item>)
    requires DistinctKeys(items)
    ensures |FromItems(items).keys| == |items|
    ensures forall i :: 0 <= i < |items| ==> Holds(FromItems(items), i, items[i])
  {
    if items != [] {
      var front, last := items[..|items| - 1], items[|items| - 1];
      FromDistinct(front);
      var d := FromItems(front);
      if last.0 in d.m {
        FromSome(front, last.0);
      }
      forall i | 0 <= i < |items|
        ensures Holds(FromItems(items), i, items[i])
      {
        if i < |front| {
          assert Holds(d, i, front[i]);
        }
      }
    }
  }

  ghost predicate Holds(d: Dict, i: nat, item: Item) {
    i < |d.keys| && d.keys[i] == item.0 && item.0 in d.m && d.m[item.0] == item.1
  }

  lemma ItemsOfFrom(items: seq<Item>)
    requires DistinctKeys(items)
    ensures Items(FromItems(items)) == items
  {
    FromDistinct(items);
    var d := FromItems(items);
    forall i | 0 <= i < |items|
      ensures Items(d)[i] == items[i]
    {
      assert Holds(d, i, items[i]);
    }
  }

  // ---- The flag catalogue ----

  datatype Spec = Spec(key: string, isSwitch: bool, aliases: seq<string>, flag: string, negatable: bool)

  /** `negateAll`: every boolean has a `--no-` form (vllm); otherwise only the
      specs marked negatable do (sglang). */
  datatype Engine = Engine(specs: seq<Spec>, negateAll: bool)

  predicate Alnum(c: char) { 'a' <= c <= 'z' || '0' <= c <= '9' }

  /** A snake_case flag name. */
  predicate KeyShaped(k: string) {
    k != "" && Alnum(k[0]) && forall c :: c in k ==> Alnum(c) || c == '_'
  }

  function Kebab(k: string): string {
    "--" + ReplaceChar(k, '_', '-')
  }

  /** The canonical key a spelling folds into, if any spec claims it. A later
      spec's claim overrides an earlier one's. */
  function Claim(specs: seq<Spec>, k: string): Option<string> {
    if specs == [] then None
    else
      var later := Claim(specs[1..], k);
      if later.Some? then later
      else if k == specs[0].key || k in specs[0].aliases then Some(specs[0].key)
      else None
  }

  function Canon(e: Engine, k: string): string {
    match Claim(e.specs, k) case Some(c) => c case None => k
  }

  function SpecAt(specs: seq<Spec>, k: string): (r: Option<Spec>)
    ensures r.Some? ==> r.value in specs && r.value.key == k
    ensures r.None? ==> forall s :: s in specs ==> s.key != k
  {
    if specs == [] then None
    else
      var later := SpecAt(specs[1..], k);
      if later.Some? then later
      else if specs[0].key == k then Some(specs[0])
      else None
  }

  function SpecOf(e: Engine, k: string): Option<Spec> {
    match Claim(e.specs, k)
    case Some(c) => SpecAt(e.specs, c)
    case None => None
  }

  predicate IsSwitch(e: Engine, k: string) {
    SpecAt(e.specs, k).Some? && SpecAt(e.specs, k).value.isSwitch
  }

  function RenderFlag(e: Engine, k: string): string {
    match SpecOf(e, k)
    case Some(s) => if s.flag != "" then s.flag else Kebab(s.key)
    case None => Kebab(k)
  }

  function LStripDashes(s: string): (r: string)
    ensures s == "" || s[0] != '-' ==> r == s
  {
    if s != "" && s[0] == '-' then LStripDashes(s[1..]) else s
  }

  function NegatedFlag(e: Engine, k: string): Option<string> {
    var spec := SpecOf(e, k);
    if e.negateAll || (spec.Some? && spec.value.negatable) then
      Some("--no-" + LStripDashes(RenderFlag(e, k)))
    else
      None
  }

  // ---- Folding a config into the canonical vocabulary ----

  const TRUE_WORDS := {"", "true", "1", "yes", "on"}
  const FALSE_WORDS := {"false", "0", "no", "off"}

  function ReadWord(s: string): Option<bool> {
    var word := Lower(Strip(s));
    if word in TRUE_WORDS then Some(true)
    else if word in FALSE_WORDS then Some(false)
    else None
  }

  function NormItem(e: Engine, k: string, v: Value): Item {
    var c := Canon(e, k);
    var (c1, v1) :=
      if "no_" <= c && v == Switch(true) && IsSwitch(e, Canon(e, c[3..]))
      then (Canon(e, c[3..]), Switch(false))
      else (c, v);
    if IsSwitch(e, c1) && v1.Str? && ReadWord(v1.s).Some?
    then (c1, Switch(ReadWord(v1.s).value))
    else (c1, v1)
  }

  function NormItems(e: Engine, items: seq<Item>): (r: seq<Item>)
    ensures |r| == |items|
    ensures forall i :: 0 <= i < |items| ==> r[i] == NormItem(e, items[i].0, items[i].1)
  {
    seq(|items|, i requires 0 <= i < |items| => NormItem(e, items[i].0, items[i].1))
  }

  ghost function Normalized(e: Engine, d: Dict): Dict
    requires d.Valid()
  {
    FromItems(NormItems(e, Items(d)))
  }

  method NormalizeArgs(e: Engine, args: Dict) returns (out: Dict)
    requires args.Valid()
    ensures out == Normalized(e, args) && out.Valid()
  {
    hide NormItem, Dict.Put;
    out := EMPTY;
    var i := 0;
    ghost var all := NormItems(e, Items(args));
    while i < |args.keys|
      invariant 0 <= i <= |args.keys| && out == FromItems(all[..i])
    {
      var key := args.keys[i];
      var (c, v) := NormItem(e, key, args.m[key]);
      out := out.Put(c, v);
      assert all[i] == (c, v) && all[..i + 1][..i] == all[..i];
      i := i + 1;
    }
    assert all[..i] == all;
  }

  // ---- The argv ----

  /** The tokens one key renders to. */
  function Chunk(e: Engine, k: string, v: Value): seq<string> {
    match v
    case Switch(true) => [RenderFlag(e, k)]
    case Switch(false) => (match NegatedFlag(e, k) case Some(f) => [f] case None => [])
    case _ => [RenderFlag(e, k), Shown(v)]
  }

  predicate IsEnvKey(k: string) { "env." <= k }

  lemma NotEnv(k: string)
    requires KeyShaped(k)
    ensures !IsEnvKey(k)
  {
    assert |k| > 3 ==> k[3] in k;
  }

  function Render(e: Engine, ks: seq<string>, m: map<string, Value>): seq<string>
    requires forall k :: k in ks ==> k in m
  {
    if ks == [] then []
    else (if IsEnvKey(ks[0]) then [] else Chunk(e, ks[0], m[ks[0]])) + Render(e, ks[1..], m)
  }

  lemma SortedKeys(d: Dict)
    requires d.Valid()
    ensures forall k :: k in Sorted(d.keys) <==> k in d.m
    ensures forall i, j :: 0 <= i < j < |Sorted(d.keys)| ==> Sorted(d.keys)[i] != Sorted(d.keys)[j]
  {
    var ks := Sorted(d.keys);
    forall k
      ensures k in ks <==> k in d.m
    {
      assert k in ks <==> k in multiset(ks);
      assert k in d.keys <==> k in multiset(d.keys);
    }
    forall i, j | 0 <= i < j < |ks|
      ensures ks[i] != ks[j]
    {
      if ks[i] == ks[j] {
        TwiceCounted(ks, i, j);
        OnceCounted(d.keys, ks[i]);
      }
    }
  }

  lemma TwiceCounted(ks: seq<string>, i: nat, j: nat)
    requires i < j < |ks| && ks[i] == ks[j]
    ensures multiset(ks)[ks[i]] >= 2
  {
    assert ks == ks[..i] + [ks[i]] + ks[i + 1..j] + [ks[j]] + ks[j + 1..];
  }

  lemma {:induction false} OnceCounted(ks: seq<string>, k: string)
    requires forall i, j :: 0 <= i < j < |ks| ==> ks[i] != ks[j]
    ensures multiset(ks)[k] <= 1
  {
    if ks != [] {
      assert ks == [ks[0]] + ks[1..];
      OnceCounted(ks[1..], k);
      assert multiset(ks) == multiset{ks[0]} + multiset(ks[1..]);
    }
  }

  /** Engine arguments as argv, in alphabetical order of their keys. */
  ghost function Argv(e: Engine, d: Dict): seq<string>
    requires d.Valid()
  {
    SortedKeys(d);
    Render(e, Sorted(d.keys), d.m)
  }

  method RenderArgs(e: Engine, d: Dict) returns (out: seq<string>)
    requires d.Valid()
    ensures out == Argv(e, d)
  {
    hide Chunk, IsEnvKey, Render, Sorted;
    SortedKeys(d);
    var ks := Sorted(d.keys);
    out := [];
    assert ks[0..] == ks;
    var i := 0;
    while i < |ks|
      invariant 0 <= i <= |ks| && out + Render(e, ks[i..], d.m) == Argv(e, d)
    {
      RenderStep(e, ks, i, d.m);
      if !IsEnvKey(ks[i]) {
        out := out + Chunk(e, ks[i], d.m[ks[i]]);
      }
      i := i + 1;
    }
    RenderNothing(e, d.m);
    assert ks[i..] == [];
  }

  lemma RenderStep(e: Engine, ks: seq<string>, i: nat, m: map<string, Value>)
    requires i < |ks| && forall k :: k in ks ==> k in m
    ensures ks[i] in m
    ensures Render(e, ks[i..], m)
         == (if IsEnvKey(ks[i]) then [] else Chunk(e, ks[i], m[ks[i]])) + Render(e, ks[i + 1..], m)
  {
    assert ks[i] in ks && ks[i..][0] == ks[i] && ks[i..][1..] == ks[i + 1..];
  }

  lemma RenderNothing(e: Engine, m: map<string, Value>)
    ensures Render(e, [], m) == []
  {
  }

  /** The order a config was written in never shows in its command. */
  lemma SameConfigSameCommand(e: Engine, a: Dict, b: Dict)
    requires a.Valid() && b.Valid() && a.m == b.m
    ensures Argv(e, a) == Argv(e, b)
  {
    forall k
      ensures multiset(a.keys)[k] == multiset(b.keys)[k]
    {
      OnceCounted(a.keys, k);
      OnceCounted(b.keys, k);
      assert k in a.keys <==> k in b.keys;
      assert k in multiset(a.keys) <==> k in a.keys;
      assert k in multiset(b.keys) <==> k in b.keys;
    }
    assert multiset(a.keys) == multiset(b.keys);
    SortedDependsOnContents(a.keys, b.keys);
  }

  // ---- What the catalogues look like ----

  /** Every spelling of a spec is a snake_case name only that spec claims, none
      of them is a negation, and a flag of its own is one of them in dashes. */
  ghost predicate Catalogue(e: Engine) {
    forall s :: s in e.specs ==>
      && SpecAt(e.specs, s.key) == Some(s)
      && Spelling(e, s, s.key)
      && (forall a :: a in s.aliases ==> Spelling(e, s, a))
      && (s.flag == "" || exists a :: (a == s.key || a in s.aliases) && s.flag == Kebab(a))
  }

  ghost predicate Spelling(e: Engine, s: Spec, a: string) {
    KeyShaped(a) && !("no_" <= a) && Claim(e.specs, a) == Some(s.key)
  }
}
