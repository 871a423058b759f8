/** What changed between two launches, and between each attempt of a comparison
    and the one before it (backend/app/agent/comparison.py). */
module ConfigDiff {
  import opened Text
  import Flags

  /** What `float()` may give. */
  datatype Number = Finite(value: real) | Infinite(positive: bool)

  /** Python's `float()` on a stripped, lower-case text: None when it raises, or
      gives NaN, which equals nothing. */
  type Reader = string -> Option<Number>

  /** A launch setting. `tree` names a list or an object up to Python's `==`. */
  datatype Value = Null | Bool(on: bool) | Num(text: Flags.NumText) | Str(s: string) | Nested(tree: int)

  type Settings = map<string, Value>

  // ---- Equal as a launch setting ----

  function Word(on: bool): string { if on then "true" else "false" }

  function OneOrZero(on: bool): Number { Finite(if on then 1.0 else 0.0) }

  function Shown(v: Value): string {
    match v
    case Null => "None"
    case Bool(on) => if on then "True" else "False"
    case Num(text) => text
    case Str(s) => s
    case Nested(_) => "[...]"
  }

  function Plain(v: Value): string { Lower(Strip(Shown(v))) }

  /** Python's `a == b`. */
  predicate PyEqual(read: Reader, a: Value, b: Value) {
    if a.Num? && b.Num? then read(a.text).Some? && read(a.text) == read(b.text)
    else if a.Bool? && b.Num? then read(b.text) == Some(OneOrZero(a.on))
    else if a.Num? && b.Bool? then read(a.text) == Some(OneOrZero(b.on))
    else a == b
  }

  predicate Same(read: Reader, a: Value, b: Value) {
    if PyEqual(read, a, b) then true
    else if a.Nested? || b.Nested? then false
    else if Plain(a) == Plain(b) then true
    else read(Plain(a)).Some? && read(Plain(a)) == read(Plain(b))
  }

  /** What a setting that is not a boolean comes down to. */
  datatype Norm = AsNumber(n: Number) | AsText(s: string) | AsTree(tree: int)

  function Meaning(read: Reader, v: Value): Norm {
    if v.Nested? then AsTree(v.tree)
    else if read(Plain(v)).Some? then AsNumber(read(Plain(v)).value)
    else AsText(Plain(v))
  }

  lemma LowerIsLower(s: string)
    requires forall i :: 0 <= i < |s| ==> !('A' <= s[i] <= 'Z')
    ensures Lower(s) == s
  {
  }

  lemma NumbersAreNoWords(s: Flags.NumText)
    ensures s != "true" && s != "false"
  {
    assert "true"[0] == 't' && "true"[0] in "true";
    assert "false"[2] == 'l' && "false"[2] in "false";
  }

  lemma NumbersArePlain(v: Value)
    requires v.Num?
    ensures Plain(v) == v.text && v.text != "true" && v.text != "false"
  {
    var s := v.text;
    forall i | 0 <= i < |s| ensures Flags.NumChar(s[i]) {
      assert s[i] in s;
    }
    assert Trimmed(s);
    LowerIsLower(s);
    hide Lower, Strip;
    NumbersAreNoWords(s);
  }

  /** Without booleans, two settings are the same exactly when they come down to
      the same thing: an equivalence. */
  lemma SameIsSameMeaning(read: Reader, a: Value, b: Value)
    requires !a.Bool? && !b.Bool?
    ensures Same(read, a, b) <==> Meaning(read, a) == Meaning(read, b)
  {
    hide Plain;
    if a.Num? { NumbersArePlain(a); }
    if b.Num? { NumbersArePlain(b); }
  }

  /** `float()` reads neither `None` nor the words of the booleans. */
  predicate Reads(read: Reader) {
    read("true").None? && read("false").None? && read("none").None?
  }

  /** What is the same as a boolean: itself, the number it equals in Python, and
      the text of its word. */
  lemma SameAsBoolean(read: Reader, on: bool, x: Value)
    requires Reads(read)
    ensures Same(read, Bool(on), x) == Same(read, x, Bool(on))
    ensures Same(read, Bool(on), x) <==>
      || x == Bool(on)
      || (x.Num? && read(x.text) == Some(OneOrZero(on)))
      || (x.Str? && Plain(x) == Word(on))
  {
    hide Plain;
    BooleansArePlain(on);
    match x
    case Null => NullIsPlain();
    case Bool(other) => BooleansArePlain(other);
    case Num(_) => NumbersArePlain(x);
    case _ =>
  }

  lemma BooleansArePlain(on: bool)
    ensures Plain(Bool(on)) == Word(on)
  {
    assert Trimmed("True") && Trimmed("False");
    assert Lower("True") == "true";
    assert Lower("False") == "false";
  }

  lemma NullIsPlain()
    ensures Plain(Null) == "none"
  {
    assert Trimmed("None");
    assert Lower("None") == "none";
  }

  lemma SameIsReflexiveAndSymmetric(read: Reader, a: Value, b: Value)
    ensures Same(read, a, a)
    ensures Same(read, a, b) == Same(read, b, a)
  {
    hide Plain;
  }

  ghost predicate TransitiveOn(read: Reader, values: set<Value>) {
    forall a, b, c :: a in values && b in values && c in values && Same(read, a, b) && Same(read, b, c) ==>
      Same(read, a, c)
  }

  /** A text that a boolean, or the number it equals, is the same as, but not
      both. */
  predicate Straddles(read: Reader, on: bool, x: Value) {
    x.Str? && (read(Plain(x)) == Some(OneOrZero(on)) || Plain(x) == Word(on))
  }

  predicate Equals(read: Reader, on: bool, x: Value) {
    x.Num? && read(x.text) == Some(OneOrZero(on))
  }

  /** A boolean, the number it equals, and a text standing for one of them. */
  ghost predicate Mixed(read: Reader, values: set<Value>, on: bool) {
    && Bool(on) in values
    && (exists n :: n in values && Equals(read, on, n))
    && (exists t :: t in values && Straddles(read, on, t))
  }

  /** Settings can be told apart consistently exactly when no boolean stands
      beside both the number it equals and a text for either. */
  lemma TransitiveExactlyWhenUnmixed(read: Reader, values: set<Value>)
    requires Reads(read)
    ensures TransitiveOn(read, values) <==> !Mixed(read, values, true) && !Mixed(read, values, false)
  {
    if Mixed(read, values, true) {
      MixedBreaks(read, values, true);
    }
    if Mixed(read, values, false) {
      MixedBreaks(read, values, false);
    }
    if !Mixed(read, values, true) && !Mixed(read, values, false) {
      forall a, b, c | a in values && b in values && c in values && Same(read, a, b) && Same(read, b, c)
        ensures Same(read, a, c)
      {
        Chains(read, values, a, b, c);
      }
    }
  }

  lemma MixedBreaks(read: Reader, values: set<Value>, on: bool)
    requires Reads(read) && Mixed(read, values, on)
    ensures !TransitiveOn(read, values)
  {
    hide Same, Plain, PyEqual;
    var n :| n in values && Equals(read, on, n);
    var t :| t in values && Straddles(read, on, t);
    var b := Bool(on);
    SameAsBoolean(read, on, n);
    SameAsBoolean(read, on, t);
    SameIsSameMeaning(read, n, t);
    NumbersArePlain(n);
    if Plain(t) == Word(on) {
      assert Same(read, n, b) && Same(read, b, t) && !Same(read, n, t);
    } else {
      assert Same(read, b, n) && Same(read, n, t) && !Same(read, b, t);
    }
  }

  /** A boolean and something that is not one, with a third the same as it. */
  lemma BooleanChains(read: Reader, values: set<Value>, on: bool, b: Value, c: Value)
    requires Reads(read) && !Mixed(read, values, on)
    requires Bool(on) in values && b in values && c in values && !b.Bool? && !c.Bool?
    ensures Same(read, Bool(on), b) && Same(read, b, c) ==> Same(read, Bool(on), c)
    ensures Same(read, Bool(on), b) && Same(read, Bool(on), c) ==> Same(read, b, c)
  {
    hide Same, Plain, PyEqual;
    SameAsBoolean(read, on, b);
    SameAsBoolean(read, on, c);
    SameIsSameMeaning(read, b, c);
    if b.Num? { NumbersArePlain(b); }
    if c.Num? { NumbersArePlain(c); }
    NullIsPlain();
    assert !(Equals(read, on, b) && Straddles(read, on, c)) && !(Equals(read, on, c) && Straddles(read, on, b));
  }

  lemma Chains(read: Reader, values: set<Value>, a: Value, b: Value, c: Value)
    requires Reads(read) && !Mixed(read, values, true) && !Mixed(read, values, false)
    requires a in values && b in values && c in values && Same(read, a, b) && Same(read, b, c)
    ensures Same(read, a, c)
  {
    SameIsReflexiveAndSymmetric(read, a, b);
    SameIsReflexiveAndSymmetric(read, b, c);
    SameIsReflexiveAndSymmetric(read, a, c);
    if a.Bool? {
      SameAsBoolean(read, a.on, b);
      SameAsBoolean(read, a.on, c);
    }
    if c.Bool? {
      SameAsBoolean(read, c.on, b);
      SameAsBoolean(read, c.on, a);
    }
    hide Plain, Mixed;
    if !a.Bool? && !b.Bool? && !c.Bool? {
      SameIsSameMeaning(read, a, b);
      SameIsSameMeaning(read, b, c);
      SameIsSameMeaning(read, a, c);
    } else if a.Bool? && !b.Bool? && !c.Bool? {
      BooleanChains(read, values, a.on, b, c);
    } else if c.Bool? && !a.Bool? && !b.Bool? {
      BooleanChains(read, values, c.on, b, a);
    } else if b.Bool? && !a.Bool? && !c.Bool? {
      BooleanChains(read, values, b.on, a, c);
    }
  }

  // ---- The diff of two dictionaries of settings ----

  datatype Change = Change(from: Value, to: Value)

  datatype Diff = Diff(added: Settings, removed: Settings, changed: map<string, Change>)

  function DictDiff(read: Reader, base: Settings, att: Settings): Diff {
    Diff(
      map k | k in att && k !in base :: att[k],
      map k | k in base && k !in att :: base[k],
      map k | k in base && k in att && !Same(read, base[k], att[k]) :: Change(base[k], att[k]))
  }

  predicate Empty(d: Diff) {
    d.added == map[] && d.removed == map[] && d.changed == map[]
  }

  /** Key for key the same setting. */
  ghost predicate SameSettings(read: Reader, a: Settings, b: Settings) {
    a.Keys == b.Keys && forall k :: k in a && k in b ==> Same(read, a[k], b[k])
  }

  /** The diff read as an instruction. */
  function Patched(base: Settings, d: Diff): Settings {
    map k | k in base.Keys - d.removed.Keys + d.added.Keys + d.changed.Keys ::
      if k in d.added then d.added[k] else if k in d.changed then d.changed[k].to else base[k]
  }

  /** The diff read the other way round. */
  function Turned(d: Diff): Diff {
    Diff(d.removed, d.added, map k | k in d.changed :: Change(d.changed[k].to, d.changed[k].from))
  }

  /** What changed from the attempt to its base is what changed from the base to
      the attempt, read the other way round; so a diff tells of every key what
      it was as well as what it is. */
  lemma DiffTurns(read: Reader, base: Settings, att: Settings)
    ensures DictDiff(read, att, base) == Turned(DictDiff(read, base, att))
  {
    forall k | k in base && k in att ensures Same(read, base[k], att[k]) <==> Same(read, att[k], base[k]) {
      SameIsReflexiveAndSymmetric(read, base[k], att[k]);
    }
    hide Same;
    var d, back := DictDiff(read, base, att), DictDiff(read, att, base);
    assert back.added == d.removed && back.removed == d.added;
    assert back.changed == Turned(d).changed;
  }

  /** The value a changed key has now is the attempt's own, and so is that of a
      key that was added. */
  lemma DiffTells(read: Reader, base: Settings, att: Settings, k: string)
    ensures var d := DictDiff(read, base, att);
            && (k in d.added <==> k in att && k !in base) && (k in d.added ==> d.added[k] == att[k])
            && (k in d.removed <==> k in base && k !in att)
            && (k in d.changed <==> k in base && k in att && !Same(read, base[k], att[k]))
            && (k in d.changed ==> d.changed[k].to == att[k])
  {
    hide Same;
  }

  /** A diff is empty exactly when the two are key for key the same. */
  lemma EmptyExactlyWhenSame(read: Reader, base: Settings, att: Settings)
    ensures Empty(DictDiff(read, base, att)) <==> SameSettings(read, base, att)
  {
    hide Same;
    var d := DictDiff(read, base, att);
    if Empty(d) {
      forall k ensures k in base <==> k in att {
        assert k !in d.added && k !in d.removed;
      }
      forall k | k in base && k in att ensures Same(read, base[k], att[k]) {
        assert k !in d.changed;
      }
    }
  }

  /** The values settings dictionaries give a key. */
  function ValuesAt(all: seq<Settings>, k: string): set<Value> {
    set s | s in all && k in s :: s[k]
  }

  /** Every key's values, across these launches, can be told apart consistently. */
  ghost predicate Consistent(read: Reader, all: seq<Settings>) {
    forall k :: TransitiveOn(read, ValuesAt(all, k))
  }

  lemma NoBooleansConsistent(read: Reader, all: seq<Settings>)
    requires Reads(read)
    requires forall s: Settings, k: string :: s in all && k in s ==> !s[k].Bool?
    ensures Consistent(read, all)
  {
    hide TransitiveOn;
    forall k ensures TransitiveOn(read, ValuesAt(all, k)) {
      TransitiveExactlyWhenUnmixed(read, ValuesAt(all, k));
    }
  }

  /** Every value of `x` is one that `all` gives the key. */
  ghost predicate DrawnFrom(x: Settings, all: seq<Settings>) {
    forall k :: k in x ==> x[k] in ValuesAt(all, k)
  }

  /** Patching something the same as the base gives something the same as the
      attempt. */
  lemma PatchStep(read: Reader, all: seq<Settings>, x: Settings, base: Settings, att: Settings)
    requires Consistent(read, all) && base in all && att in all
    requires DrawnFrom(x, all) && SameSettings(read, x, base)
    ensures var y := Patched(x, DictDiff(read, base, att)); DrawnFrom(y, all) && SameSettings(read, y, att)
  {
    hide Same;
    var d := DictDiff(read, base, att);
    var y := Patched(x, d);
    assert y.Keys == att.Keys;
    forall k | k in y ensures y[k] in ValuesAt(all, k) && Same(read, y[k], att[k]) {
      assert att[k] in ValuesAt(all, k);
      if k in base && k !in d.changed {
        assert y[k] == x[k] && base[k] in ValuesAt(all, k);
        assert Same(read, x[k], base[k]) && Same(read, base[k], att[k]);
        assert TransitiveOn(read, ValuesAt(all, k));
      } else {
        SameIsReflexiveAndSymmetric(read, att[k], att[k]);
      }
    }
  }

  /** Patching the base itself always gives the attempt, key for key. */
  lemma PatchReaches(read: Reader, base: Settings, att: Settings)
    ensures SameSettings(read, Patched(base, DictDiff(read, base, att)), att)
  {
    hide Same;
    var d := DictDiff(read, base, att);
    var y := Patched(base, d);
    assert y.Keys == att.Keys;
    forall k | k in y ensures Same(read, y[k], att[k]) {
      SameIsReflexiveAndSymmetric(read, att[k], att[k]);
    }
  }

  // ---- A launch, and a comparison of several ----

  datatype Launch = Launch(engine: string, image: string, modelPath: string, cards: int, args: Settings, env: Settings)

  datatype LaunchDiff = LaunchDiff(
    engine: Option<(string, string)>, image: Option<(string, string)>, modelPath: Option<(string, string)>,
    cards: Option<(int, int)>, args: Diff, env: Diff, changed: bool)

  function Scalar<T(==)>(base: T, att: T): Option<(T, T)> {
    if base != att then Some((base, att)) else None
  }

  function LaunchDiffOf(read: Reader, b: Launch, a: Launch): LaunchDiff {
    var engine, image, modelPath, cards := Scalar(b.engine, a.engine), Scalar(b.image, a.image),
                                           Scalar(b.modelPath, a.modelPath), Scalar(b.cards, a.cards);
    var args, env := DictDiff(read, b.args, a.args), DictDiff(read, b.env, a.env);
    LaunchDiff(engine, image, modelPath, cards, args, env,
               engine.Some? || image.Some? || modelPath.Some? || cards.Some? || !Empty(args) || !Empty(env))
  }

  ghost predicate SameLaunch(read: Reader, a: Launch, b: Launch) {
    && a.engine == b.engine && a.image == b.image && a.modelPath == b.modelPath && a.cards == b.cards
    && SameSettings(read, a.args, b.args) && SameSettings(read, a.env, b.env)
  }

  /** `changed` says whether anything differs at all. */
  lemma ChangedExactlyWhenDifferent(read: Reader, b: Launch, a: Launch)
    ensures LaunchDiffOf(read, b, a).changed <==> !SameLaunch(read, b, a)
  {
    hide SameSettings, Empty, DictDiff;
    EmptyExactlyWhenSame(read, b.args, a.args);
    EmptyExactlyWhenSame(read, b.env, a.env);
  }

  function Second<T>(change: Option<(T, T)>, was: T): T {
    if change.Some? then change.value.1 else was
  }

  function PatchedLaunch(l: Launch, d: LaunchDiff): Launch {
    Launch(Second(d.engine, l.engine), Second(d.image, l.image), Second(d.modelPath, l.modelPath),
           Second(d.cards, l.cards), Patched(l.args, d.args), Patched(l.env, d.env))
  }

  datatype Row = Row(position: nat, launch: Launch, vsBaseline: LaunchDiff, vsPrevious: LaunchDiff)

  /** The attempt before this one, or the baseline. */
  function Before(base: Launch, attempts: seq<Launch>, i: nat): Launch
    requires i < |attempts|
  {
    if i == 0 then base else attempts[i - 1]
  }

  function RowOf(read: Reader, base: Launch, attempts: seq<Launch>, i: nat): Row
    requires i < |attempts|
  {
    Row(i + 1, attempts[i], LaunchDiffOf(read, base, attempts[i]),
        LaunchDiffOf(read, Before(base, attempts, i), attempts[i]))
  }

  /** The rows count from one, each shows its own attempt, and the first has no
      attempt before it but the baseline. */
  lemma RowsTell(read: Reader, base: Launch, attempts: seq<Launch>, i: nat)
    requires i < |attempts|
    ensures var r := RowOf(read, base, attempts, i);
            && r.position - 1 == i && r.launch == attempts[i]
            && r.vsBaseline == LaunchDiffOf(read, base, attempts[i])
            && (i == 0 ==> r.vsPrevious == r.vsBaseline)
            && (i > 0 ==> r.vsPrevious == LaunchDiffOf(read, attempts[i - 1], attempts[i]))
  {
  }

  /** The rows of a comparison. */
  method BuildRows(read: Reader, base: Launch, attempts: seq<Launch>) returns (rows: seq<Row>)
    ensures |rows| == |attempts|
    ensures forall i :: 0 <= i < |rows| ==> rows[i] == RowOf(read, base, attempts, i)
  {
    rows := [];
    var previous := base;
    for i := 0 to |attempts|
      invariant |rows| == i && (forall j :: 0 <= j < i ==> rows[j] == RowOf(read, base, attempts, j))
      invariant previous == if i == 0 then base else attempts[i - 1]
    {
      var run := attempts[i];
      rows := rows + [Row(i + 1, run, LaunchDiffOf(read, base, run), LaunchDiffOf(read, previous, run))];
      previous := run;
    }
  }

  /** The first `n` changes, each against the attempt before, made one after the
      other to the baseline. */
  function Replayed(read: Reader, base: Launch, attempts: seq<Launch>, n: nat): Launch
    requires n <= |attempts|
  {
    if n == 0 then base
    else PatchedLaunch(Replayed(read, base, attempts, n - 1), RowOf(read, base, attempts, n - 1).vsPrevious)
  }

  function AllArgs(base: Launch, attempts: seq<Launch>): (all: seq<Settings>)
    ensures |all| == |attempts| + 1 && all[0] == base.args
    ensures forall i :: 0 <= i < |attempts| ==> all[i + 1] == attempts[i].args
  {
    [base.args] + seq(|attempts|, i requires 0 <= i < |attempts| => attempts[i].args)
  }

  function AllEnv(base: Launch, attempts: seq<Launch>): (all: seq<Settings>)
    ensures |all| == |attempts| + 1 && all[0] == base.env
    ensures forall i :: 0 <= i < |attempts| ==> all[i + 1] == attempts[i].env
  {
    [base.env] + seq(|attempts|, i requires 0 <= i < |attempts| => attempts[i].env)
  }

  ghost predicate Reached(read: Reader, base: Launch, attempts: seq<Launch>, n: nat)
    requires n <= |attempts|
  {
    var x := Replayed(read, base, attempts, n);
    && DrawnFrom(x.args, AllArgs(base, attempts)) && DrawnFrom(x.env, AllEnv(base, attempts))
    && SameLaunch(read, x, if n == 0 then base else attempts[n - 1])
  }

  lemma StartsReached(read: Reader, base: Launch, attempts: seq<Launch>)
    ensures Reached(read, base, attempts, 0)
  {
    hide Same, DrawnFrom, SameSettings, DictDiff, AllArgs, AllEnv;
    ItsOwn(read, AllArgs(base, attempts), 0);
    ItsOwn(read, AllEnv(base, attempts), 0);
    assert Replayed(read, base, attempts, 0) == base;
  }

  lemma StepReaches(read: Reader, base: Launch, attempts: seq<Launch>, n: nat)
    requires 0 < n <= |attempts| && Reached(read, base, attempts, n - 1)
    requires Consistent(read, AllArgs(base, attempts)) && Consistent(read, AllEnv(base, attempts))
    ensures Reached(read, base, attempts, n)
  {
    hide Same, DictDiff, Patched, Consistent, SameSettings, DrawnFrom, AllArgs, AllEnv;
    var args, env := AllArgs(base, attempts), AllEnv(base, attempts);
    var x, b, a := Replayed(read, base, attempts, n - 1), Before(base, attempts, n - 1), attempts[n - 1];
    assert args[n] == a.args && args[n - 1] == b.args && env[n] == a.env && env[n - 1] == b.env;
    PatchStep(read, args, x.args, b.args, a.args);
    PatchStep(read, env, x.env, b.env, a.env);
    assert Replayed(read, base, attempts, n) == PatchedLaunch(x, LaunchDiffOf(read, b, a));
  }

  /** Making every step's change in order reaches each attempt. */
  lemma {:induction false} StepsReach(read: Reader, base: Launch, attempts: seq<Launch>, n: nat)
    requires n <= |attempts|
    requires Consistent(read, AllArgs(base, attempts)) && Consistent(read, AllEnv(base, attempts))
    ensures Reached(read, base, attempts, n)
  {
    hide Reached, Consistent, AllArgs, AllEnv;
    if n == 0 {
      StartsReached(read, base, attempts);
    } else {
      StepsReach(read, base, attempts, n - 1);
      StepReaches(read, base, attempts, n);
    }
  }

  lemma ItsOwn(read: Reader, all: seq<Settings>, i: nat)
    requires i < |all|
    ensures DrawnFrom(all[i], all) && SameSettings(read, all[i], all[i])
  {
    forall k | k in all[i] ensures Same(read, all[i][k], all[i][k]) {
      SameIsReflexiveAndSymmetric(read, all[i][k], all[i][k]);
    }
  }

  /** Without booleans among the settings the steps reach every attempt. */
  lemma StepsReachWithoutBooleans(read: Reader, base: Launch, attempts: seq<Launch>, n: nat)
    requires Reads(read) && n <= |attempts|
    requires forall s: Settings, k: string ::
      (s in AllArgs(base, attempts) || s in AllEnv(base, attempts)) && k in s ==> !s[k].Bool?
    ensures Reached(read, base, attempts, n)
  {
    hide Reached, Reads, AllArgs, AllEnv;
    NoBooleansConsistent(read, AllArgs(base, attempts));
    NoBooleansConsistent(read, AllEnv(base, attempts));
    StepsReach(read, base, attempts, n);
  }

  predicate Uses(l: Launch, values: set<Value>) {
    (forall k :: k in l.args ==> l.args[k] in values) && (forall k :: k in l.env ==> l.env[k] in values)
  }

  /** Whatever launches are made of these values, the steps reach every attempt. */
  ghost predicate AlwaysReached(read: Reader, values: set<Value>) {
    forall base: Launch, attempts: seq<Launch>, n: nat ::
      n <= |attempts| && Uses(base, values) && (forall l :: l in attempts ==> Uses(l, values)) ==>
        Reached(read, base, attempts, n)
  }

  /** That is so exactly when sameness is transitive on them. */
  lemma StepsReachExactlyWhenTransitive(read: Reader, values: set<Value>)
    ensures AlwaysReached(read, values) <==> TransitiveOn(read, values)
  {
    hide Reached, Same;
    if TransitiveOn(read, values) {
      forall base: Launch, attempts: seq<Launch>, n: nat
        | n <= |attempts| && Uses(base, values) && (forall l :: l in attempts ==> Uses(l, values))
        ensures Reached(read, base, attempts, n)
      {
        TransitiveIsConsistent(read, values, base, attempts);
        StepsReach(read, base, attempts, n);
      }
    } else {
      var a, b, c :| a in values && b in values && c in values && Same(read, a, b) && Same(read, b, c)
        && !Same(read, a, c);
      var base, attempts := With(a), [With(b), With(c)];
      NotReached(read, a, b, c);
      assert Uses(base, values) && forall l :: l in attempts ==> Uses(l, values);
      assert !Reached(read, base, attempts, 2);
    }
  }

  lemma TransitiveIsConsistent(read: Reader, values: set<Value>, base: Launch, attempts: seq<Launch>)
    requires TransitiveOn(read, values) && Uses(base, values) && forall l :: l in attempts ==> Uses(l, values)
    ensures Consistent(read, AllArgs(base, attempts)) && Consistent(read, AllEnv(base, attempts))
  {
    hide Same;
    var args, env := AllArgs(base, attempts), AllEnv(base, attempts);
    forall k ensures TransitiveOn(read, ValuesAt(args, k)) && TransitiveOn(read, ValuesAt(env, k)) {
      forall v | v in ValuesAt(args, k) ensures v in values {
        var s :| s in args && k in s && s[k] == v;
        var i :| 0 <= i < |args| && args[i] == s;
        assert i > 0 ==> attempts[i - 1] in attempts;
      }
      forall v | v in ValuesAt(env, k) ensures v in values {
        var s :| s in env && k in s && s[k] == v;
        var i :| 0 <= i < |env| && env[i] == s;
        assert i > 0 ==> attempts[i - 1] in attempts;
      }
    }
  }

  /** A launch with this one setting. */
  function With(v: Value): Launch { Launch("", "", "", 0, map["x" := v], map[]) }

  lemma EmptyPatch(x: Settings, d: Diff)
    requires Empty(d)
    ensures Patched(x, d) == x
  {
  }

  /** A step between two settings that are the same changes nothing. */
  lemma SameStepStays(read: Reader, x: Value, a: Value, b: Value)
    requires Same(read, a, b)
    ensures PatchedLaunch(With(x), LaunchDiffOf(read, With(a), With(b))) == With(x)
  {
    hide Same, Empty, DictDiff, Patched;
    OneKey(read, a, b);
    EmptyExactlyWhenSame(read, map[], map[]);
    EmptyPatch(With(x).args, DictDiff(read, With(a).args, With(b).args));
    EmptyPatch(map[], DictDiff(read, map[], map[]));
  }

  lemma NotReached(read: Reader, a: Value, b: Value, c: Value)
    requires Same(read, a, b) && Same(read, b, c) && !Same(read, a, c)
    ensures !Reached(read, With(a), [With(b), With(c)], 2)
  {
    hide Same, DictDiff, Patched, PatchedLaunch, LaunchDiffOf;
    var base, attempts := With(a), [With(b), With(c)];
    SameStepStays(read, a, a, b);
    SameStepStays(read, a, b, c);
    assert Replayed(read, base, attempts, 0) == base;
    assert Replayed(read, base, attempts, 1) == base;
    assert Replayed(read, base, attempts, 2) == base;
    assert With(a).args["x"] == a && With(c).args["x"] == c;
  }

  /** The change against the baseline reaches the attempt at once, always. */
  lemma OneStepReaches(read: Reader, base: Launch, attempts: seq<Launch>, i: nat)
    requires i < |attempts|
    ensures SameLaunch(read, PatchedLaunch(base, RowOf(read, base, attempts, i).vsBaseline), attempts[i])
  {
    hide DictDiff, Patched, SameSettings;
    PatchReaches(read, base.args, attempts[i].args);
    PatchReaches(read, base.env, attempts[i].env);
  }

  lemma OneOnTrue(read: Reader)
    requires Reads(read) && read("1") == Some(Finite(1.0))
    ensures Same(read, Num("1"), Bool(true)) && Same(read, Bool(true), Str("true"))
    ensures !Same(read, Num("1"), Str("true"))
  {
    hide Same, Plain;
    SameAsBoolean(read, true, Num("1"));
    SameAsBoolean(read, true, Str("true"));
    NumbersArePlain(Num("1"));
    WordIsPlain();
    SameIsSameMeaning(read, Num("1"), Str("true"));
  }

  /** With a boolean among the settings the steps may lose one: from `1` to
      `True` to `"true"` neither step changes anything, and yet the whole does. */
  lemma StepsLoseAChange(read: Reader)
    requires Reads(read) && read("1") == Some(Finite(1.0))
    ensures Empty(DictDiff(read, map["x" := Num("1")], map["x" := Bool(true)]))
    ensures Empty(DictDiff(read, map["x" := Bool(true)], map["x" := Str("true")]))
    ensures !Empty(DictDiff(read, map["x" := Num("1")], map["x" := Str("true")]))
  {
    hide Same, Empty, DictDiff;
    OneOnTrue(read);
    OneKey(read, Num("1"), Bool(true));
    OneKey(read, Bool(true), Str("true"));
    OneKey(read, Num("1"), Str("true"));
  }

  lemma OneKey(read: Reader, a: Value, b: Value)
    ensures Empty(DictDiff(read, map["x" := a], map["x" := b])) <==> Same(read, a, b)
  {
    hide Same, Empty, DictDiff;
    var one, other := map["x" := a], map["x" := b];
    EmptyExactlyWhenSame(read, one, other);
    assert one["x"] == a && other["x"] == b;
  }

  lemma WordIsPlain()
    ensures Plain(Str("true")) == "true"
  {
    assert Trimmed("true");
    LowerIsLower("true");
  }
}
