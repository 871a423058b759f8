/** When a config survives the trip to a command line and back: what the
    check of EngineCommand decides, for every config. */
module RoundTrip {
  import opened Text
  import opened Flags
  import opened EngineCommand

  // ---- What an empty problem list means ----

  /** The command line says about `k` what the config says. */
  ghost predicate Answered(k: string, v: Value, parsed: map<string, Value>) {
    match v
    case Switch(true) => k in parsed && parsed[k] == v
    case Switch(false) => k in parsed ==> parsed[k] == v
    case _ => k in parsed && Shown(parsed[k]) == Shown(v)
  }

  /** `p` is in the command line because the config has it, or because it is
      the `no_` form of a switch the config turns off. */
  ghost predicate Explained(p: string, expected: map<string, Value>, parsed: map<string, Value>) {
    p in expected || ("no_" <= p && TurnedOff(p[3..], expected, parsed))
  }

  ghost predicate TurnedOff(k: string, expected: map<string, Value>, parsed: map<string, Value>) {
    k in expected && expected[k] == Switch(false) && k !in parsed
  }

  ghost predicate Equivalent(expected: map<string, Value>, parsed: map<string, Value>) {
    && (forall k :: k in expected ==> Answered(k, expected[k], parsed))
    && (forall p :: p in parsed ==> Explained(p, expected, parsed))
  }

  /** The `i`-th key is a switch that is off and was not read back, the `j`-th is
      its own `no_` form, and was. */
  ghost predicate Takes(expected: Dict, i: nat, j: nat, all: map<string, Value>)
    requires expected.Valid()
  {
    && i < j < |expected.keys| && expected.keys[j] == "no_" + expected.keys[i]
    && TurnedOff(expected.keys[i], expected.m, all) && expected.keys[j] in all
  }

  /** Some key's answer is taken for an earlier switch that is off. */
  ghost predicate Stolen(expected: Dict, all: map<string, Value>)
    requires expected.Valid()
  {
    exists i, j :: Takes(expected, i, j, all)
  }

  /** No switch that is off stands beside its own `no_` form. */
  ghost predicate NoPairs(m: map<string, Value>) {
    forall k :: k in m && m[k] == Switch(false) ==> "no_" + k !in m
  }

  lemma NoPairsNotStolen(expected: Dict, all: map<string, Value>)
    requires expected.Valid() && NoPairs(expected.m)
    ensures !Stolen(expected, all)
  {
    forall i: nat, j: nat ensures !Takes(expected, i, j, all) {
      assert i < j < |expected.keys| ==> expected.keys[i] in expected.m && expected.keys[j] in expected.m;
    }
  }

  /** What settling the first `i` expected keys takes out of the read-back. */
  ghost function Gone(expected: Dict, i: nat, all: map<string, Value>): set<string>
    requires expected.Valid() && i <= |expected.keys|
  {
    if i == 0 then {}
    else
      var k := expected.keys[i - 1];
      Gone(expected, i - 1, all) + {k} + if TurnedOff(k, expected.m, all) then {"no_" + k} else {}
  }

  ghost predicate GoneWith(k: string, p: string, expected: map<string, Value>, all: map<string, Value>) {
    p == k || (TurnedOff(k, expected, all) && p == "no_" + k)
  }

  lemma {:induction false} InGone(expected: Dict, i: nat, all: map<string, Value>, p: string)
    requires expected.Valid() && i <= |expected.keys|
    ensures p in Gone(expected, i, all) <==>
              exists j :: 0 <= j < i && GoneWith(expected.keys[j], p, expected.m, all)
  {
    if i > 0 {
      InGone(expected, i - 1, all, p);
      assert GoneWith(expected.keys[i - 1], p, expected.m, all) ==> p in Gone(expected, i, all);
    }
  }

  lemma NotYetGone(expected: Dict, i: nat, all: map<string, Value>)
    requires expected.Valid() && !Stolen(expected, all) && i < |expected.keys|
    ensures expected.keys[i] in all ==> expected.keys[i] !in Gone(expected, i, all)
  {
    var key := expected.keys[i];
    InGone(expected, i, all, key);
    forall j: nat | j < i
      ensures key in all && GoneWith(expected.keys[j], key, expected.m, all) ==> Takes(expected, j, i, all)
    {
    }
  }

  lemma AllGone(expected: Dict, all: map<string, Value>, p: string)
    requires expected.Valid()
    ensures p in Gone(expected, |expected.keys|, all) <==> Explained(p, expected.m, all)
  {
    InGone(expected, |expected.keys|, all, p);
    if p in expected.m {
      var j := Index(expected, p);
      assert GoneWith(expected.keys[j], p, expected.m, all);
    }
    if "no_" <= p {
      assert p == "no_" + p[3..];
      if p[3..] in expected.m {
        var j := Index(expected, p[3..]);
        assert TurnedOff(p[3..], expected.m, all) ==> GoneWith(expected.keys[j], p, expected.m, all);
      }
    }
    forall j | 0 <= j < |expected.keys| && GoneWith(expected.keys[j], p, expected.m, all)
      ensures Explained(p, expected.m, all)
    {
      assert ("no_" + expected.keys[j])[3..] == expected.keys[j];
    }
  }

  ghost function Index(d: Dict, k: string): (j: nat)
    requires d.Valid() && k in d.m
    ensures j < |d.keys| && d.keys[j] == k
  {
    assert k in d.keys;
    var j :| 0 <= j < |d.keys| && d.keys[j] == k;
    j
  }

  lemma SettleStep(expected: Dict, i: nat, all: map<string, Value>, parsed: Dict)
    requires expected.Valid() && !Stolen(expected, all)
    requires i < |expected.keys| && parsed.m == all - Gone(expected, i, all)
    ensures var key := expected.keys[i];
            var (back, left) := Settle(key, expected.m[key], parsed);
            && left.m == all - Gone(expected, i + 1, all)
            && (Agrees(expected.m[key], back) <==> Answered(key, expected.m[key], all))
  {
    NotYetGone(expected, i, all);
  }

  lemma PopValid(d: Dict, k: string)
    requires d.Valid()
    ensures d.Pop(k).Valid()
  {
    WithoutDistinct(d.keys, k);
  }

  lemma {:induction false} WithoutDistinct(ks: seq<string>, k: string)
    requires forall i, j :: 0 <= i < j < |ks| ==> ks[i] != ks[j]
    ensures forall i, j :: 0 <= i < j < |Without(ks, k)| ==> Without(ks, k)[i] != Without(ks, k)[j]
  {
    if ks != [] {
      WithoutDistinct(ks[1..], k);
      assert ks[0] !in Without(ks[1..], k);
    }
  }

  lemma {:induction false} CompareFrom(expected: Dict, i: nat, all: map<string, Value>, parsed: Dict)
    requires expected.Valid() && !Stolen(expected, all) && parsed.Valid()
    requires i <= |expected.keys| && parsed.m == all - Gone(expected, i, all)
    ensures Compare(expected, i, parsed) == [] <==>
              && (forall j :: i <= j < |expected.keys| ==>
                    Answered(expected.keys[j], expected.m[expected.keys[j]], all))
              && (forall p :: p in all ==> Explained(p, expected.m, all))
    decreases |expected.keys| - i
  {
    hide Answered, Explained, Stolen, Gone, Settle, Agrees;
    if i == |expected.keys| {
      NothingLeft(expected, all, parsed);
    } else {
      var key := expected.keys[i];
      var (back, left) := Settle(key, expected.m[key], parsed);
      SettleStep(expected, i, all, parsed);
      SettleValid(key, expected.m[key], parsed);
      CompareFrom(expected, i + 1, all, left);
    }
  }

  lemma SettleValid(key: string, value: Value, parsed: Dict)
    requires parsed.Valid()
    ensures Settle(key, value, parsed).1.Valid()
  {
    PopValid(parsed, key);
    PopValid(parsed.Pop(key), "no_" + key);
  }

  lemma NothingLeft(expected: Dict, all: map<string, Value>, parsed: Dict)
    requires expected.Valid() && parsed.Valid() && parsed.m == all - Gone(expected, |expected.keys|, all)
    ensures parsed.keys == [] <==> forall p :: p in all ==> Explained(p, expected.m, all)
  {
    hide Explained, Gone;
    forall p
      ensures p in parsed.m <==> p in all && !Explained(p, expected.m, all)
    {
      AllGone(expected, all, p);
    }
    if parsed.keys != [] {
      assert parsed.keys[0] in parsed.m;
    }
  }

  /** With no answer taken, the comparison finds nothing exactly when the two
      are equivalent. */
  lemma CompareAllKeys(expected: Dict, parsed: Dict)
    requires expected.Valid() && !Stolen(expected, parsed.m) && parsed.Valid()
    ensures Compare(expected, 0, parsed) == [] <==> Equivalent(expected.m, parsed.m)
  {
    hide Answered, Explained, Stolen;
    CompareFrom(expected, 0, parsed.m, parsed);
    if Compare(expected, 0, parsed) == [] {
      forall k | k in expected.m
        ensures Answered(k, expected.m[k], parsed.m)
      {
        var j := Index(expected, k);
      }
    }
  }

  // ---- With an answer taken ----

  /** What is not there at the `i`-th key is not there later. */
  lemma {:induction false} Lost(expected: Dict, i: nat, parsed: Dict, j: nat)
    requires expected.Valid() && parsed.Valid() && i <= j < |expected.keys|
    requires expected.keys[j] !in parsed.m && expected.m[expected.keys[j]] != Switch(false)
    ensures Compare(expected, i, parsed) != []
    decreases j - i
  {
    hide Compare;
    CompareStep(expected, i, parsed);
    var key := expected.keys[i];
    if i < j {
      SettleValid(key, expected.m[key], parsed);
      Lost(expected, i + 1, Settle(key, expected.m[key], parsed).1, j);
    }
  }

  lemma CompareStep(expected: Dict, i: nat, parsed: Dict)
    requires expected.Valid() && i < |expected.keys|
    ensures var key := expected.keys[i];
            var (back, left) := Settle(key, expected.m[key], parsed);
            Compare(expected, i, parsed)
            == (if Agrees(expected.m[key], back) then [] else [Problem(key, RoundTrip)])
               + Compare(expected, i + 1, left)
  {
    hide Settle, Agrees;
  }

  /** The switch that is off takes the answer of its `no_` form with it. */
  lemma {:induction false} TakenIsLost(expected: Dict, n: nat, parsed: Dict, i: nat, j: nat)
    requires expected.Valid() && parsed.Valid() && n <= i < j < |expected.keys|
    requires expected.keys[i] !in parsed.m && expected.m[expected.keys[i]] == Switch(false)
    requires expected.keys[j] == "no_" + expected.keys[i] && expected.m[expected.keys[j]] != Switch(false)
    ensures Compare(expected, n, parsed) != []
    decreases i - n
  {
    hide Compare;
    CompareStep(expected, n, parsed);
    var key := expected.keys[n];
    var left := Settle(key, expected.m[key], parsed).1;
    SettleValid(key, expected.m[key], parsed);
    if n < i {
      TakenIsLost(expected, n + 1, left, i, j);
    } else {
      Lost(expected, n + 1, left, j);
    }
  }

  /** No `no_` form was read back as off. */
  ghost predicate NegationsOn(all: map<string, Value>) {
    forall p :: p in all && "no_" <= p ==> all[p] != Switch(false)
  }

  /** With an answer taken, the comparison and the equivalence cannot both hold:
      a key that is off too passes without being answered, and any other is
      reported although it was answered. */
  lemma TakenIsWrong(expected: Dict, parsed: Dict)
    requires expected.Valid() && parsed.Valid() && Stolen(expected, parsed.m) && NegationsOn(parsed.m)
    ensures !(Compare(expected, 0, parsed) == [] && Equivalent(expected.m, parsed.m))
  {
    hide Settle, Agrees;
    var i: nat, j: nat :| Takes(expected, i, j, parsed.m);
    var off := expected.keys[j];
    if expected.m[off] != Switch(false) {
      TakenIsLost(expected, 0, parsed, i, j);
    } else {
      assert !Answered(off, expected.m[off], parsed.m);
    }
  }

  // ---- What is read back ----

  ghost function ReadBack(e: Engine, config: Dict): Dict
    requires config.Valid()
  {
    Normalized(e, Parsed(Argv(e, config)))
  }

  lemma BothValid(e: Engine, config: Dict)
    requires config.Valid()
    ensures Normalized(e, config).Valid() && ReadBack(e, config).Valid()
  {
  }

  /** The flag walk stores texts and switches that are on. */
  ghost predicate NothingOff(d: Dict) {
    forall k :: k in d.m ==> d.m[k].Str? || d.m[k] == Switch(true)
  }

  lemma {:induction false} WalkStores(ts: seq<string>, args: Dict)
    requires args.Valid() && NothingOff(args)
    ensures NothingOff(Walk(ts, args))
    decreases |ts|
  {
    hide FlagToKey, IndexOf, NothingOff;
    if ts == [] {
    } else if !IsFlag(ts[0]) {
      WalkStores(ts[1..], args);
    } else if '=' in ts[0] {
      var i := IndexOf(ts[0], '=');
      PutNotOff(args, FlagToKey(ts[0][..i]), Str(ts[0][i + 1..]));
      WalkStores(ts[1..], args.Put(FlagToKey(ts[0][..i]), Str(ts[0][i + 1..])));
    } else if |ts| == 1 || IsFlag(ts[1]) {
      PutNotOff(args, FlagToKey(ts[0]), Switch(true));
      WalkStores(ts[1..], args.Put(FlagToKey(ts[0]), Switch(true)));
    } else {
      PutNotOff(args, FlagToKey(ts[0]), Str(ts[1]));
      WalkStores(ts[2..], args.Put(FlagToKey(ts[0]), Str(ts[1])));
    }
  }

  lemma PutNotOff(args: Dict, k: string, v: Value)
    requires args.Valid() && NothingOff(args) && (v.Str? || v == Switch(true))
    ensures args.Put(k, v).Valid() && NothingOff(args.Put(k, v))
  {
  }

  /** Where a folded setting comes from. */
  lemma NormalizedFrom(e: Engine, d: Dict, p: string) returns (k: string)
    requires d.Valid() && p in Normalized(e, d).m
    ensures k in d.m && NormItem(e, k, d.m[k]) == (p, Normalized(e, d).m[p])
  {
    hide NormItem;
    var norm := NormItems(e, Items(d));
    FromSome(norm, p);
    var i :| 0 <= i < |norm| && norm[i] == (p, FromItems(norm).m[p]);
    k := d.keys[i];
  }

  /** A switch known by name is the only thing read back as off. */
  lemma OffIsASwitch(e: Engine, config: Dict, p: string)
    requires config.Valid() && p in ReadBack(e, config).m && ReadBack(e, config).m[p] == Switch(false)
    ensures IsSwitch(e, p)
  {
    hide Canon, ReadWord, IsSwitch;
    var d := Parsed(Argv(e, config));
    WalkStores(AfterLauncher(CleanTokens(Argv(e, config)), 0), EMPTY);
    var k := NormalizedFrom(e, d, p);
  }
}
