/** What makes a flag table free of names that speak for two settings
    (backend/app/control/engines/flags.py). */
module EngineTables {
  import opened Text
  import opened Flags

  function Setting(key: string): Spec { Spec(key, false, [], "", false) }

  function Toggle(key: string): Spec { Spec(key, true, [], "", false) }

  // ---- Numbered tables ----

  /** The `n`-th entry's name, told from all others by its number. */
  ghost predicate Good(number: string -> int, a: string, n: int) {
    && |a| >= 2 && Alnum(a[0]) && !(a[0] == 'n' && a[1] == 'o') && number(a) == n
    && forall i :: 0 <= i < |a| ==> Alnum(a[i]) || a[i] == '_'
  }

  ghost predicate GoodSpec(number: string -> int, s: Spec, n: int) {
    && Good(number, s.key, n)
    && (forall a :: a in s.aliases ==> Good(number, a, n))
    && (s.flag == "" || exists a :: (a == s.key || a in s.aliases) && s.flag == Kebab(a))
  }

  ghost predicate Numbered(number: string -> int, specs: seq<Spec>, base: int) {
    forall i :: 0 <= i < |specs| ==> GoodSpec(number, specs[i], base + i)
  }

  lemma NumberedBoth(number: string -> int, a: seq<Spec>, b: seq<Spec>, base: int)
    requires Numbered(number, a, base) && Numbered(number, b, base + |a|)
    ensures Numbered(number, a + b, base)
  {
    hide GoodSpec;
    forall i | 0 <= i < |a + b|
      ensures GoodSpec(number, (a + b)[i], base + i)
    {
      assert i >= |a| ==> (a + b)[i] == b[i - |a|] && GoodSpec(number, b[i - |a|], base + |a| + (i - |a|));
    }
  }

  lemma {:induction false} NotNumbered(number: string -> int, specs: seq<Spec>, base: int, a: string)
    requires Numbered(number, specs, base) && number(a) < base
    ensures Claim(specs, a).None? && SpecAt(specs, a).None?
  {
    if specs != [] {
      assert GoodSpec(number, specs[0], base + 0);
      Shifted(number, specs, base);
      NotNumbered(number, specs[1..], base + 1, a);
    }
  }

  lemma Shifted(number: string -> int, specs: seq<Spec>, base: int)
    requires Numbered(number, specs, base) && specs != []
    ensures Numbered(number, specs[1..], base + 1)
  {
    hide GoodSpec;
    forall i | 0 <= i < |specs[1..]|
      ensures GoodSpec(number, specs[1..][i], base + 1 + i)
    {
      assert GoodSpec(number, specs[i + 1], base + (i + 1));
    }
  }

  /** Each name is claimed by its own entry alone. */
  lemma {:induction false} ClaimedByItsOwn(number: string -> int, specs: seq<Spec>, base: int, i: nat, a: string)
    requires Numbered(number, specs, base) && i < |specs|
    requires a == specs[i].key || a in specs[i].aliases
    ensures Claim(specs, a) == Some(specs[i].key)
    ensures a == specs[i].key ==> SpecAt(specs, a) == Some(specs[i])
  {
    assert GoodSpec(number, specs[i], base + i);
    Shifted(number, specs, base);
    if i == 0 {
      NotNumbered(number, specs[1..], base + 1, a);
    } else {
      ClaimedByItsOwn(number, specs[1..], base + 1, i - 1, a);
    }
  }

  lemma NumberedIsCatalogue(number: string -> int, e: Engine)
    requires Numbered(number, e.specs, 0)
    ensures Catalogue(e)
  {
    forall s | s in e.specs
      ensures SpecAt(e.specs, s.key) == Some(s) && Spelling(e, s, s.key)
      ensures forall a :: a in s.aliases ==> Spelling(e, s, a)
      ensures s.flag == "" || exists a :: (a == s.key || a in s.aliases) && s.flag == Kebab(a)
    {
      var i :| 0 <= i < |e.specs| && e.specs[i] == s;
      assert GoodSpec(number, e.specs[i], 0 + i);
      ClaimedByItsOwn(number, e.specs, 0, i, s.key);
      forall a | a in s.aliases
        ensures Spelling(e, s, a)
      {
        ClaimedByItsOwn(number, e.specs, 0, i, a);
      }
    }
  }
}
