/** What a config says, told from its words and from the flag table alone, and
    that folding it into the canonical vocabulary keeps exactly that
    (backend/app/control/engines/flags.py). */
module FlagWords {
  import opened Text
  import opened Flags

  function Single(k: string, v: Value): (d: Dict)
    ensures d.Valid()
  {
    Dict([k], map[k := v])
  }

  // ---- Words ----

  /** `c` is the small letter `l`, or the capital of it. */
  predicate SameLetter(c: char, l: char) {
    c == l || ('A' <= c <= 'Z' && l as int == c as int + 32)
  }

  /** `t` is the word, whatever its case and the whitespace around it. */
  ghost predicate Says(t: string, word: string) {
    exists a: string, m: string, b: string ::
      && t == a + m + b && AllSpace(a) && AllSpace(b)
      && |m| == |word| && forall i :: 0 <= i < |m| ==> SameLetter(m[i], word[i])
  }

  ghost predicate SaysOn(t: string) {
    Says(t, "") || Says(t, "true") || Says(t, "1") || Says(t, "yes") || Says(t, "on")
  }

  ghost predicate SaysOff(t: string) {
    Says(t, "false") || Says(t, "0") || Says(t, "no") || Says(t, "off")
  }

  /** The words are spelled in small letters and digits. */
  predicate Small(word: string) {
    forall c :: c in word ==> 'a' <= c <= 'z' || '0' <= c <= '9'
  }

  lemma LowerIs(m: string, word: string)
    requires Small(word)
    ensures Lower(m) == word <==> |m| == |word| && forall i :: 0 <= i < |m| ==> SameLetter(m[i], word[i])
  {
    if |m| == |word| {
      forall i | 0 <= i < |m| ensures Lower(m)[i] == word[i] <==> SameLetter(m[i], word[i]) {
        assert word[i] in word;
      }
    }
  }

  lemma SaysExactly(t: string, word: string)
    requires Small(word)
    ensures Says(t, word) <==> Lower(Strip(t)) == word
  {
    hide Lower, Strip, IsSpace;
    if Says(t, word) {
      var a, m, b :| t == a + m + b && AllSpace(a) && AllSpace(b)
        && |m| == |word| && forall i :: 0 <= i < |m| ==> SameLetter(m[i], word[i]);
      if m != "" {
        assert word[0] in word && word[|m| - 1] in word;
        LetterIsNoSpace(m[0], word[0]);
        LetterIsNoSpace(m[|m| - 1], word[|m| - 1]);
      }
      Stripped(a, m, b);
      LowerIs(m, word);
    }
    var a, b := StripCuts(t);
    LowerIs(Strip(t), word);
  }

  lemma LetterIsNoSpace(c: char, l: char)
    requires SameLetter(c, l) && ('a' <= l <= 'z' || '0' <= l <= '9')
    ensures !IsSpace(c)
  {
  }

  // ---- One setting ----

  /** What the setting means on a table in which `s` is the entry it names. */
  ghost function Meant(s: Spec, v: Value): Value {
    if s.isSwitch && v.Str? && SaysOn(v.s) then Switch(true)
    else if s.isSwitch && v.Str? && SaysOff(v.s) then Switch(false)
    else v
  }

  lemma WordsAreRead(t: string)
    ensures ReadWord(t) == if SaysOn(t) then Some(true) else if SaysOff(t) then Some(false) else None
  {
    hide Says, Lower, Strip;
    SaysExactly(t, "");
    SaysExactly(t, "true");
    SaysExactly(t, "1");
    SaysExactly(t, "yes");
    SaysExactly(t, "on");
    SaysExactly(t, "false");
    SaysExactly(t, "0");
    SaysExactly(t, "no");
    SaysExactly(t, "off");
  }

  lemma OneItem(e: Engine, k: string, v: Value)
    ensures Normalized(e, Single(k, v)) == Single(NormItem(e, k, v).0, NormItem(e, k, v).1)
  {
    hide NormItem;
    var item := NormItem(e, k, v);
    assert NormItems(e, Items(Single(k, v))) == [item];
    assert [item][..0] == [] && FromItems([]) == EMPTY;
    assert FromItems([item]) == EMPTY.Put(item.0, item.1);
  }

  /** A name of an entry is stored under the entry's key. On a switch a text
      that says on or off is stored as what it says, in any case and with any
      whitespace around it; whatever else is stored as it was given, and so is
      every value of an entry that is no switch. */
  lemma NamedIsStored(e: Engine, s: Spec, k: string, v: Value)
    requires Catalogue(e) && s in e.specs && (k == s.key || k in s.aliases)
    ensures Normalized(e, Single(k, v)) == Single(s.key, Meant(s, v))
  {
    hide ReadWord, SaysOn, SaysOff, Normalized;
    assert Spelling(e, s, k) && Spelling(e, s, s.key);
    OneItem(e, k, v);
    if v.Str? { WordsAreRead(v.s); }
  }

  /** A switch turned on or off says the same as its Python text. */
  lemma TextSaysTheSwitch(e: Engine, s: Spec, k: string, b: bool)
    requires Catalogue(e) && s in e.specs && s.isSwitch && (k == s.key || k in s.aliases)
    ensures Normalized(e, Single(k, Str(Shown(Switch(b))))) == Normalized(e, Single(k, Switch(b)))
      == Single(s.key, Switch(b))
  {
    hide Normalized, Catalogue, Says;
    NamedIsStored(e, s, k, Switch(b));
    NamedIsStored(e, s, k, Str(Shown(Switch(b))));
    var t := Shown(Switch(b));
    if b {
      TrueIsOn();
    } else {
      FalseIsOff();
      NotBoth("False");
    }
  }

  lemma SaysItself(t: string, word: string)
    requires |t| == |word| && forall i :: 0 <= i < |t| ==> SameLetter(t[i], word[i])
    ensures Says(t, word)
  {
    assert t == "" + t + "";
  }

  lemma TrueIsOn()
    ensures SaysOn("True")
  {
    hide Says;
    SaysItself("True", "true");
  }

  lemma FalseIsOff()
    ensures SaysOff("False")
  {
    hide Says;
    SaysItself("False", "false");
  }

  /** No text says both. */
  lemma NotBoth(t: string)
    ensures !(SaysOn(t) && SaysOff(t))
  {
    hide Says, Lower, Strip;
    SaysExactly(t, "");
    SaysExactly(t, "true");
    SaysExactly(t, "1");
    SaysExactly(t, "yes");
    SaysExactly(t, "on");
    SaysExactly(t, "false");
    SaysExactly(t, "0");
    SaysExactly(t, "no");
    SaysExactly(t, "off");
  }

  /** The `no_` form of a switch's name turns it off when it is on; with any
      other value it is a setting of its own. */
  lemma NegationIsStored(e: Engine, s: Spec, a: string, v: Value)
    requires Catalogue(e) && s in e.specs && (a == s.key || a in s.aliases)
    ensures Normalized(e, Single("no_" + a, v)) ==
      if s.isSwitch && v == Switch(true) then Single(s.key, Switch(false)) else Single("no_" + a, v)
  {
    hide ReadWord, Normalized;
    assert Spelling(e, s, a) && Spelling(e, s, s.key);
    NegationIsUnknown(e, a);
    assert ("no_" + a)[3..] == a;
    OneItem(e, "no_" + a, v);
  }

  lemma {:induction false} ClaimIsAName(specs: seq<Spec>, k: string)
    ensures Claim(specs, k).Some? ==> exists s :: s in specs && (k == s.key || k in s.aliases)
    ensures SpecAt(specs, k).Some? ==> exists s :: s in specs && k == s.key
  {
    if specs != [] {
      ClaimIsAName(specs[1..], k);
    }
  }

  lemma NegationIsUnknown(e: Engine, a: string)
    requires Catalogue(e)
    ensures Claim(e.specs, "no_" + a).None? && SpecAt(e.specs, "no_" + a).None?
  {
    hide Claim, SpecAt;
    ClaimIsAName(e.specs, "no_" + a);
    assert "no_" <= "no_" + a;
    forall s | s in e.specs ensures "no_" + a != s.key && "no_" + a !in s.aliases {
      assert Spelling(e, s, s.key);
    }
  }

  /** What no entry names passes through untouched. */
  lemma UnknownIsStored(e: Engine, k: string, v: Value)
    requires forall s :: s in e.specs ==> k != s.key && k !in s.aliases
    requires "no_" <= k ==> forall s :: s in e.specs ==> k[3..] != s.key && k[3..] !in s.aliases
    ensures Normalized(e, Single(k, v)) == Single(k, v)
  {
    hide Normalized, ReadWord;
    OneItem(e, k, v);
    ClaimIsAName(e.specs, k);
    if "no_" <= k {
      ClaimIsAName(e.specs, k[3..]);
    }
  }

  // ---- One setting on the command line ----

  /** The flag of an entry, and what stands behind its dashes. */
  ghost function FlagOf(s: Spec): string {
    if s.flag != "" then s.flag else Kebab(s.key)
  }

  lemma OnlyKey(e: Engine, k: string, v: Value)
    requires !IsEnvKey(k)
    ensures Argv(e, Single(k, v)) == Chunk(e, k, v)
  {
    hide Chunk, IsEnvKey;
    assert Insert(k, []) == [k] && Sorted([]) == [];
    assert [k][1..] == [];
    assert Sorted([k]) == [k];
    assert Render(e, [], map[k := v]) == [];
    assert Render(e, [k], map[k := v]) == Chunk(e, k, v);
  }

  lemma FlagBehindDashes(a: string)
    requires KeyShaped(a)
    ensures |Kebab(a)| > 2 && LStripDashes(Kebab(a)) == Kebab(a)[2..]
  {
    var body := ReplaceChar(a, '_', '-');
    assert a[0] in a;
    assert Kebab(a)[1..][1..] == body && Kebab(a)[2..] == body;
    assert LStripDashes(body) == body;
  }

  /** Under whatever name it is given, a setting goes out with its entry's flag:
      alone when it is on; negated when it is off and the engine, or the entry,
      has a negation, and else not at all; with its text otherwise. */
  lemma NamedIsSent(e: Engine, s: Spec, k: string, v: Value)
    requires Catalogue(e) && s in e.specs && (k == s.key || k in s.aliases)
    ensures |FlagOf(s)| > 2
    ensures Argv(e, Single(k, v)) ==
      if v == Switch(true) then [FlagOf(s)]
      else if v == Switch(false) then
        if e.negateAll || s.negatable then ["--no-" + FlagOf(s)[2..]] else []
      else [FlagOf(s), Shown(v)]
  {
    hide Argv, Kebab, LStripDashes, KeyShaped;
    assert Spelling(e, s, k) && Spelling(e, s, s.key);
    NotEnv(k);
    OnlyKey(e, k, v);
    FlagBehindDashes(s.key);
    if s.flag != "" {
      var a :| (a == s.key || a in s.aliases) && s.flag == Kebab(a);
      assert Spelling(e, s, a);
      FlagBehindDashes(a);
    }
  }

  /** The characters a name may have. */
  lemma NameChars(c: char)
    ensures KeyShaped([c]) <==> 97 <= c as int <= 122 || 48 <= c as int <= 57
    ensures KeyShaped("a" + [c]) <==> c == '_' || 97 <= c as int <= 122 || 48 <= c as int <= 57
  {
    assert c in [c] && c in "a" + [c];
  }

  // ---- A whole config ----

  /** The `j`-th setting is the last of those that fold into the same key. */
  ghost predicate LastOfItsKey(items: seq<Item>, j: nat) {
    j < |items| && forall i :: j < i < |items| ==> items[i].0 != items[j].0
  }

  lemma {:induction false} LastIsStored(items: seq<Item>, j: nat)
    requires LastOfItsKey(items, j)
    ensures items[j].0 in FromItems(items).m && FromItems(items).m[items[j].0] == items[j].1
  {
    var n := |items| - 1;
    if j < n {
      LastIsStored(items[..n], j);
    }
  }

  /** What each setting of a config comes to on its own. */
  ghost predicate StoredAs(e: Engine, d: Dict, i: nat, c: string, v: Value)
    requires d.Valid() && i < |d.keys|
  {
    d.keys[i] in d.m && Normalized(e, Single(d.keys[i], d.m[d.keys[i]])) == Single(c, v)
  }

  lemma EachIsFolded(e: Engine, d: Dict, i: nat)
    requires d.Valid() && i < |d.keys|
    ensures var x := NormItems(e, Items(d))[i];
            StoredAs(e, d, i, x.0, x.1)
  {
    hide NormItem, Normalized;
    assert d.keys[i] in d.keys;
    OneItem(e, d.keys[i], d.m[d.keys[i]]);
  }

  lemma SameSingle(c: string, v: Value, x: string, y: Value)
    requires Single(c, v) == Single(x, y)
    ensures c == x && v == y
  {
    assert Single(c, v).keys[0] == Single(x, y).keys[0];
    assert Single(c, v).m[c] == Single(x, y).m[x];
  }

  /** Folding a config keeps, under each key, what the last setting that folds
      into it comes to on its own, and nothing else. */
  lemma LaterWins(e: Engine, d: Dict, i: nat, c: string, v: Value)
    requires d.Valid() && i < |d.keys| && StoredAs(e, d, i, c, v)
    requires forall j, w :: i < j < |d.keys| ==> !StoredAs(e, d, j, c, w)
    ensures c in Normalized(e, d).m && Normalized(e, d).m[c] == v
  {
    hide NormItem, FromItems;
    var items := NormItems(e, Items(d));
    forall j: nat | i <= j < |items| ensures StoredAs(e, d, j, items[j].0, items[j].1) {
      EachIsFolded(e, d, j);
    }
    hide Normalized;
    SameSingle(c, v, items[i].0, items[i].1);
    forall j | i < j < |items| ensures items[j].0 != c {
      assert StoredAs(e, d, j, items[j].0, items[j].1);
    }
    LastIsStored(items, i);
    NormalizedItems(e, d);
  }

  lemma NormalizedItems(e: Engine, d: Dict)
    requires d.Valid()
    ensures Normalized(e, d) == FromItems(NormItems(e, Items(d)))
  {
  }

  lemma NothingElse(e: Engine, d: Dict, c: string) returns (i: nat)
    requires d.Valid() && c in Normalized(e, d).m
    ensures i < |d.keys| && StoredAs(e, d, i, c, Normalized(e, d).m[c])
  {
    hide NormItem, FromItems;
    var items := NormItems(e, Items(d));
    FromSome(items, c);
    i :| 0 <= i < |items| && items[i] == (c, FromItems(items).m[c]);
    EachIsFolded(e, d, i);
  }
}
