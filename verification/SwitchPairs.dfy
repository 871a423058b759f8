/** A switch that is off beside a setting named as its `no_` form: the one case in
    which the round-trip check is wrong, in either direction
    (backend/app/control/engine_command.py). */
module SwitchPairs {
  import opened Text
  import opened Flags
  import opened EngineCommand
  import opened RoundTrip
  import opened Survival
  import opened VllmFlags

  lemma NegationsReadOn(e: Engine, config: Dict)
    requires Catalogue(e) && config.Valid()
    ensures NegationsOn(ReadBack(e, config).m)
  {
    hide Catalogue, ReadBack, IsSwitch;
    forall p | p in ReadBack(e, config).m && "no_" <= p
      ensures ReadBack(e, config).m[p] != Switch(false)
    {
      NegationsUnclaimed(e, p);
      if ReadBack(e, config).m[p] == Switch(false) {
        OffIsASwitch(e, config, p);
      }
    }
  }

  /** When the check can be trusted: an empty report means that the config came
      back, and a config that came back has an empty report, exactly unless an
      earlier switch that is off takes the answer of its own `no_` form. */
  lemma TrustedExactlyUnlessStolen(e: Engine, config: Dict)
    requires Catalogue(e) && config.Valid()
    ensures var (expected, back) := (Normalized(e, config), ReadBack(e, config));
            var came := Equivalent(expected.m, back.m);
            && expected.Valid()
            && (Verdict(e, config) == [] ==> (came <==> !Stolen(expected, back.m)))
            && (came ==> (Verdict(e, config) == [] <==> !Stolen(expected, back.m)))
  {
    hide Catalogue, Normalized, Equivalent, Stolen, NegationsOn, Compare;
    BothValid(e, config);
    var expected, back := Normalized(e, config), ReadBack(e, config);
    if Stolen(expected, back.m) {
      NegationsReadOn(e, config);
      TakenIsWrong(expected, back);
    } else {
      CompareAllKeys(expected, back);
    }
  }

  // ---- Both at work ----

  /** A name no engine flag claims, and no negation. */
  ghost predicate Free(e: Engine, k: string) {
    KeyShaped(k) && !("no_" <= k) && Claim(e.specs, k).None?
  }

  function Off(k: string): string { "no_" + k }

  lemma {:induction false} SwitchesAreClaimed(specs: seq<Spec>, k: string)
    requires SpecAt(specs, k).Some?
    ensures Claim(specs, k).Some?
  {
    if SpecAt(specs[1..], k).Some? {
      SwitchesAreClaimed(specs[1..], k);
    }
  }

  /** Nothing is known of a free name, its negation, or the negation of that. */
  lemma FreeNames(e: Engine, k: string)
    requires Catalogue(e) && Free(e, k)
    ensures KeyShaped(Off(k)) && Off(k)[3..] == k && Off(Off(k))[3..] == Off(k)
    ensures k != Off(k) && Off(k) != Off(Off(k))
    ensures Canon(e, k) == k && Canon(e, Off(k)) == Off(k) && Canon(e, Off(Off(k))) == Off(Off(k))
    ensures !IsSwitch(e, k) && !IsSwitch(e, Off(k)) && !IsSwitch(e, Off(Off(k)))
    ensures FlagKey(e, k) == k && FlagKey(e, Off(k)) == Off(k)
    ensures Claim(e.specs, Off(k)).None?
  {
    hide Catalogue;
    assert Off(k)[0] == 'n';
    assert |Off(k)| == |k| + 3 && |Off(Off(k))| == |k| + 6;
    NegationsUnclaimed(e, Off(k));
    NegationsUnclaimed(e, Off(Off(k)));
    KebabBack(k);
    KebabBack(Off(k));
    if IsSwitch(e, k) {
      SwitchesAreClaimed(e.specs, k);
    }
  }

  /** They are folded into nothing else. */
  lemma FreeFolds(e: Engine, k: string, on: bool)
    requires Catalogue(e) && Free(e, k)
    ensures NormItem(e, k, Switch(on)) == (k, Switch(on))
    ensures NormItem(e, Off(k), Switch(on)) == (Off(k), Switch(on))
    ensures NormItem(e, Off(Off(k)), Switch(on)) == (Off(Off(k)), Switch(on))
  {
    hide Catalogue, Claim, IsSwitch, Canon;
    FreeNames(e, k);
  }

  lemma FreeLandings(e: Engine, k: string, on: bool)
    requires Catalogue(e) && Free(e, k)
    ensures Plain(e, k, Switch(false)) && Plain(e, Off(k), Switch(on))
    ensures Landing(e, k, Switch(false)) == if e.negateAll then [(Off(k), Switch(true))] else []
    ensures Landing(e, Off(k), Switch(true)) == [(Off(k), Switch(true))]
    ensures Landing(e, Off(k), Switch(false)) == if e.negateAll then [(Off(Off(k)), Switch(true))] else []
  {
    hide Catalogue;
    FreeNames(e, k);
  }

  lemma TwoItems(x: Item, y: Item)
    requires x.0 != y.0
    ensures FromItems([x, y]) == Dict([x.0, y.0], map[x.0 := x.1, y.0 := y.1])
  {
    assert [x, y][..1] == [x] && [x][..0] == [];
    assert FromItems([x]) == Dict([x.0], map[x.0 := x.1]);
  }

  lemma OneItem(x: Item)
    ensures FromItems([x]) == Dict([x.0], map[x.0 := x.1])
    ensures FromItems([x, x]) == Dict([x.0], map[x.0 := x.1])
  {
    assert [x][..0] == [] && [x, x][..1] == [x];
  }

  /** A dictionary of settings that are folded into nothing else stays itself. */
  lemma NormalStays(e: Engine, items: seq<Item>)
    requires DistinctKeys(items) && forall i :: 0 <= i < |items| ==> NormItem(e, items[i].0, items[i].1) == items[i]
    ensures Normalized(e, FromItems(items)) == FromItems(items)
  {
    hide NormItem;
    ItemsOfFrom(items);
    assert NormItems(e, items) == items;
  }

  /** `k` off beside its `no_` form, and the order the two are written in. */
  function Pair(k: string, on: bool, flip: bool): Dict {
    Dict(if flip then [Off(k), k] else [k, Off(k)], map[k := Switch(false), Off(k) := Switch(on)])
  }

  lemma PairIsNormal(e: Engine, k: string, on: bool, flip: bool)
    requires Catalogue(e) && Free(e, k)
    ensures Pair(k, on, flip).Valid() && Normalized(e, Pair(k, on, flip)) == Pair(k, on, flip)
  {
    hide Catalogue, NormItem, Free, FromItems, Normalized;
    FreeNames(e, k);
    FreeFolds(e, k, false);
    FreeFolds(e, k, on);
    var x: Item, y: Item := (k, Switch(false)), (Off(k), Switch(on));
    var items := if flip then [y, x] else [x, y];
    TwoItems(items[0], items[1]);
    assert Pair(k, on, flip) == FromItems(items);
    NormalStays(e, items);
  }

  /** The command line of the two, in one order or the other. */
  lemma PairParsed(e: Engine, k: string, on: bool, flip: bool)
    requires Catalogue(e) && Free(e, k) && Pair(k, on, flip).Valid()
    ensures var (x, y) := (Landing(e, k, Switch(false)), Landing(e, Off(k), Switch(on)));
            var back := Parsed(Argv(e, Pair(k, on, flip)));
            back == FromItems(x + y) || back == FromItems(y + x)
  {
    hide Catalogue, Landing, FromItems, Parsed, Argv, Free, PlainThroughout;
    FreeNames(e, k);
    PairIsPlain(e, k, on, flip);
    TwoParsed(e, Pair(k, on, flip), k, Off(k));
  }

  lemma PairIsPlain(e: Engine, k: string, on: bool, flip: bool)
    requires Catalogue(e) && Free(e, k)
    ensures PlainThroughout(e, Pair(k, on, flip))
  {
    hide Catalogue, Plain, Free;
    FreeLandings(e, k, on);
  }

  lemma PairIsGuarded(e: Engine, k: string, on: bool, flip: bool)
    requires Catalogue(e) && Free(e, k)
    ensures Guarded(Pair(k, on, flip))
  {
    hide Catalogue, Plain, Free;
    var config := Pair(k, on, flip);
    PairIsPlain(e, k, on, flip);
    forall l | l in config.m
      ensures GuardProblem(l, config.m[l]).None?
    {
      PlainIsGuarded(e, l, config.m[l]);
    }
  }

  lemma TwoParsed(e: Engine, config: Dict, a: string, b: string)
    requires Catalogue(e) && config.Valid() && PlainThroughout(e, config) && a != b && config.m.Keys == {a, b}
    ensures var (x, y) := (Landing(e, a, config.m[a]), Landing(e, b, config.m[b]));
            Parsed(Argv(e, config)) == FromItems(x + y) || Parsed(Argv(e, config)) == FromItems(y + x)
  {
    hide Catalogue, Plain, PlainThroughout, Landing, Landings, FromItems, Parsed, Argv, Sorted;
    ArgvReadsBack(e, config);
    TwoSorted(config, a, b);
    if Sorted(config.keys) == [a, b] {
      TwoLandings(e, config.m, a, b);
    } else {
      TwoLandings(e, config.m, b, a);
    }
  }

  lemma TwoSorted(config: Dict, a: string, b: string)
    requires config.Valid() && a != b && config.m.Keys == {a, b}
    ensures Sorted(config.keys) == [a, b] || Sorted(config.keys) == [b, a]
  {
    SortedKeys(config);
    var ks := Sorted(config.keys);
    assert multiset(ks) == multiset(config.keys);
    hide Sorted;
    assert |multiset(ks)| == |ks| && |multiset(config.keys)| == |config.keys|;
    assert |config.keys| == 2 by {
      DistinctSize(config.keys, {a, b});
    }
    assert |ks| == 2 && ks[0] in config.m && ks[1] in config.m;
  }

  lemma {:induction false} DistinctSize(ks: seq<string>, all: set<string>)
    requires (forall i, j :: 0 <= i < j < |ks| ==> ks[i] != ks[j]) && forall k :: k in ks <==> k in all
    ensures |ks| == |all|
  {
    if ks != [] {
      var k := ks[0];
      assert ks == [k] + ks[1..];
      DistinctSize(ks[1..], all - {k});
    } else {
      assert all == {};
    }
  }

  lemma TwoLandings(e: Engine, m: map<string, Value>, a: string, b: string)
    requires AllPlain(e, [a, b], m)
    ensures Landings(e, [a, b], m) == Landing(e, a, m[a]) + Landing(e, b, m[b])
  {
    hide Plain, Landing;
    assert [a, b][1..] == [b] && [b][1..] == [];
    var last := Landing(e, b, m[b]);
    assert Landings(e, [b], m) == last + [] == last;
  }

  /** The check misses a config: on an engine that negates every flag, a free
      switch and its `no_` form, both off, get an empty report although the
      second came back on. */
  lemma BothOffMissed(e: Engine, k: string)
    requires Catalogue(e) && Free(e, k) && e.negateAll
    ensures var config := Pair(k, false, false);
            && config.Valid() && Guarded(config) && Verdict(e, config) == []
            && !Equivalent(Normalized(e, config).m, ReadBack(e, config).m)
            && Stolen(Normalized(e, config), ReadBack(e, config).m)
  {
    hide Catalogue, Normalized, ReadBack, Free, Compare, Verdict, Equivalent, Stolen;
    var config := Pair(k, false, false);
    PairIsNormal(e, k, false, false);
    PairIsGuarded(e, k, false, false);
    BothValid(e, config);
    FreeNames(e, k);
    BothReadBack(e, k);
    var back := ReadBack(e, config);
    BothOffPass(k, back);
    VerdictOf(e, config);
    SecondIsStolen(k, back.m);
  }

  /** On vllm `{foo: False, no_foo: False}` is such a config. */
  lemma FooMissed()
    ensures var config := Pair("foo", false, false);
            && config.Valid() && Guarded(config) && Verdict(VLLM, config) == []
            && !Equivalent(Normalized(VLLM, config).m, ReadBack(VLLM, config).m)
  {
    hide Catalogue, Verdict, Normalized, ReadBack, Guarded;
    VllmIsCatalogue();
    VllmKnowsNone("foo");
    assert "foo"[0] == 'f' && "no_"[0] == 'n';
    assert Free(VLLM, "foo");
    BothOffMissed(VLLM, "foo");
  }

  lemma SecondIsStolen(k: string, back: map<string, Value>)
    requires Pair(k, false, false).Valid() && k != Off(k) && k != Off(Off(k))
    requires back == map[Off(k) := Switch(true), Off(Off(k)) := Switch(true)]
    ensures Stolen(Pair(k, false, false), back) && !Equivalent(Pair(k, false, false).m, back)
  {
    assert Takes(Pair(k, false, false), 0, 1, back);
    assert !Answered(Off(k), Switch(false), back);
  }

  lemma VerdictOf(e: Engine, config: Dict)
    requires config.Valid()
    ensures Normalized(e, config).Valid()
    ensures Verdict(e, config) == Compare(Normalized(e, config), 0, ReadBack(e, config))
  {
    hide Normalized, Compare, Parsed, Argv;
    BothValid(e, config);
  }

  lemma BothReadBack(e: Engine, k: string)
    requires Catalogue(e) && Free(e, k) && e.negateAll && Pair(k, false, false).Valid()
    ensures ReadBack(e, Pair(k, false, false)).m == map[Off(k) := Switch(true), Off(Off(k)) := Switch(true)]
  {
    hide Catalogue, Normalized, Parsed, Argv, Free, NormItem, Landing, FromItems;
    PairParsed(e, k, false, false);
    FreeNames(e, k);
    FreeLandings(e, k, false);
    FreeFolds(e, k, true);
    var x: Item := (Off(k), Switch(true));
    var y: Item := (Off(Off(k)), Switch(true));
    TwoItems(x, y);
    TwoItems(y, x);
    assert [x] + [y] == [x, y] && [y] + [x] == [y, x];
    NormalStays(e, [x, y]);
    NormalStays(e, [y, x]);
  }

  lemma BothOffPass(k: string, back: Dict)
    requires Pair(k, false, false).Valid() && back.Valid()
    requires back.m == map[Off(k) := Switch(true), Off(Off(k)) := Switch(true)]
    requires k != Off(k) && k != Off(Off(k)) && Off(k) != Off(Off(k))
    ensures Compare(Pair(k, false, false), 0, back) == []
  {
    hide Compare, Settle, Agrees;
    var config := Pair(k, false, false);
    var left := Settle(k, Switch(false), back).1;
    SettleValid(k, Switch(false), back);
    AbsentSettles(k, back);
    assert left.m == map[Off(Off(k)) := Switch(true)];
    var none := Settle(Off(k), Switch(false), left).1;
    SettleValid(Off(k), Switch(false), left);
    AbsentSettles(Off(k), left);
    assert none.m == map[];
    CompareStep(config, 0, back);
    CompareStep(config, 1, left);
    NothingMore(config, none);
  }

  /** A switch that is off and was not read back passes, and pops its `no_` form. */
  lemma AbsentSettles(k: string, parsed: Dict)
    requires k !in parsed.m
    ensures var (back, left) := Settle(k, Switch(false), parsed);
            Agrees(Switch(false), back) && left.m == parsed.m - {Off(k)}
  {
  }

  lemma NothingMore(config: Dict, none: Dict)
    requires config.Valid() && none.Valid() && none.m == map[]
    ensures Compare(config, |config.keys|, none) == []
  {
    if none.keys != [] {
      FirstIn(none.keys);
    }
  }

  lemma FirstIn(ks: seq<string>)
    requires ks != []
    ensures ks[0] in ks
  {
  }

  /** On an engine that negates none of the two, off is said by saying nothing,
      and the same config does come back. */
  lemma BothOffComeBack(e: Engine, k: string)
    requires Catalogue(e) && Free(e, k) && !e.negateAll
    ensures var config := Pair(k, false, false);
            && config.Valid() && Guarded(config) && Verdict(e, config) == []
            && Equivalent(Normalized(e, config).m, ReadBack(e, config).m)
  {
    hide Catalogue, Normalized, ReadBack, Free, Compare, Verdict;
    var config := Pair(k, false, false);
    PairIsNormal(e, k, false, false);
    PairIsGuarded(e, k, false, false);
    NothingReadBack(e, k);
    TrustedExactlyUnlessStolen(e, config);
  }

  lemma NothingReadBack(e: Engine, k: string)
    requires Catalogue(e) && Free(e, k) && !e.negateAll && Pair(k, false, false).Valid()
    ensures ReadBack(e, Pair(k, false, false)).m == map[]
  {
    hide Catalogue, Parsed, Argv, Free, NormItem, Landing;
    PairParsed(e, k, false, false);
    FreeLandings(e, k, false);
    StartsEmpty();
  }

  /** And it refuses one that came back: with the `no_` form on, which is all the
      command line says on any engine, the two pass when the `no_` form is
      written first and are refused when it is not. */
  lemma OrderDecides(e: Engine, k: string)
    requires Catalogue(e) && Free(e, k)
    ensures var (offFirst, onFirst) := (Pair(k, true, false), Pair(k, true, true));
            && offFirst.Valid() && onFirst.Valid() && Guarded(offFirst) && Guarded(onFirst)
            && Equivalent(Normalized(e, offFirst).m, ReadBack(e, offFirst).m)
            && Equivalent(Normalized(e, onFirst).m, ReadBack(e, onFirst).m)
            && Verdict(e, offFirst) == [Problem(Off(k), RoundTrip)]
            && Verdict(e, onFirst) == []
  {
    hide Catalogue, Normalized, Parsed, Argv, Free, Compare, Equivalent;
    FreeNames(e, k);
    var back := Dict([Off(k)], map[Off(k) := Switch(true)]);
    PairIsNormal(e, k, true, false);
    PairIsNormal(e, k, true, true);
    PairIsGuarded(e, k, true, false);
    PairIsGuarded(e, k, true, true);
    OnReadsBack(e, k, false);
    OnReadsBack(e, k, true);
    assert ReadBack(e, Pair(k, true, false)) == ReadBack(e, Pair(k, true, true)) == back;
    OnIsEquivalent(k, Pair(k, true, false).m);
    OffRefused(k, back);
    OnPasses(k, back);
  }

  lemma OnReadsBack(e: Engine, k: string, flip: bool)
    requires Catalogue(e) && Free(e, k) && Pair(k, true, flip).Valid()
    ensures ReadBack(e, Pair(k, true, flip)) == Dict([Off(k)], map[Off(k) := Switch(true)])
  {
    hide Catalogue, Normalized, Parsed, Argv, Free, NormItem, Landing, FromItems;
    PairParsed(e, k, true, flip);
    FreeNames(e, k);
    FreeLandings(e, k, true);
    FreeFolds(e, k, true);
    var y: Item := (Off(k), Switch(true));
    OneItem(y);
    NormalStays(e, [y]);
    assert [y] + [y] == [y, y] && [] + [y] == [y] && [y] + [] == [y];
  }

  lemma OnIsEquivalent(k: string, m: map<string, Value>)
    requires m == map[k := Switch(false), Off(k) := Switch(true)] && k != Off(k)
    ensures Equivalent(m, map[Off(k) := Switch(true)])
  {
  }

  lemma Pops(k: string, back: Dict, none: Dict)
    requires k != Off(k) && back == Dict([Off(k)], map[Off(k) := Switch(true)]) && none == Dict([], map[])
    ensures back.Pop(Off(k)) == none && back.Pop(k) == back && none.Pop(k) == none && none.Pop(Off(k)) == none
  {
    assert Without([], Off(k)) == [] && Without([], k) == [] && [Off(k)][1..] == [];
  }

  lemma OffRefused(k: string, back: Dict)
    requires k != Off(k) && back == Dict([Off(k)], map[Off(k) := Switch(true)]) && Pair(k, true, false).Valid()
    ensures Compare(Pair(k, true, false), 0, back) == [Problem(Off(k), RoundTrip)]
  {
    hide Compare;
    var config, none := Pair(k, true, false), Dict([], map[]);
    Pops(k, back, none);
    assert Settle(k, Switch(false), back) == (Some(Switch(false)), none);
    assert Settle(Off(k), Switch(true), none) == (None, none);
    CompareStep(config, 0, back);
    CompareStep(config, 1, none);
    NothingMore(config, none);
  }

  lemma OnPasses(k: string, back: Dict)
    requires k != Off(k) && back == Dict([Off(k)], map[Off(k) := Switch(true)]) && Pair(k, true, true).Valid()
    ensures Compare(Pair(k, true, true), 0, back) == []
  {
    hide Compare;
    var config, none := Pair(k, true, true), Dict([], map[]);
    Pops(k, back, none);
    assert Settle(Off(k), Switch(true), back) == (Some(Switch(true)), none);
    assert Settle(k, Switch(false), none) == (None, none);
    CompareStep(config, 0, back);
    CompareStep(config, 1, none);
    NothingMore(config, none);
  }
}
