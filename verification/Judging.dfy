/** One benchmark result judged against one objective: the redlines it holds,
    how far it is from each, and which of two results is better
    (backend/app/objective.py, backend/app/evaluation/aggregate.py). */
module Judging {
  import opened Text

  /** A measured value, or a limit. */
  datatype Value = Absent | Bool(on: bool) | Num(x: real) | Str(s: string)

  datatype Op = Le | Lt | Ge | Gt | Eq | Ne | Unknown

  /** `relativeTo`: whose score the limit is an offset from, "" when it is absolute. */
  datatype Redline = Redline(metric: Option<string>, op: Op, limit: Value, relativeTo: string, basis: string)

  /** `measure`: what the metric reads, Absent when it was not measured. */
  type Metrics = string -> Value

  /** A redline judged. */
  datatype Verdict = Verdict(redline: Redline, limit: Value, actual: Value, ok: bool)

  // ---- Is it held? ----

  function AsNumber(v: Value): Option<real> {
    match v
    case Bool(on) => Some(if on then 1.0 else 0.0)
    case Num(x) => Some(x)
    case _ => None
  }

  predicate Holds(op: Op, a: real, b: real) {
    match op
    case Le => a <= b
    case Lt => a < b
    case Ge => a >= b
    case Gt => a > b
    case Eq => a == b
    case Ne => a != b
    case Unknown => false
  }

  predicate HoldsText(op: Op, a: string, b: string) {
    match op
    case Le => Leq(a, b)
    case Lt => Leq(a, b) && a != b
    case Ge => Leq(b, a)
    case Gt => Leq(b, a) && a != b
    case Eq => a == b
    case Ne => a != b
    case Unknown => false
  }

  /** `bool(compare(actual, limit))`, with a comparison that raises not held. */
  predicate Compare(op: Op, a: Value, b: Value) {
    if AsNumber(a).Some? && AsNumber(b).Some? then Holds(op, AsNumber(a).value, AsNumber(b).value)
    else if a.Str? && b.Str? then HoldsText(op, a.s, b.s)
    else op == Ne
  }

  function Actual(r: Redline, measure: Metrics): Value {
    if r.metric.Some? && r.metric.value != "" then measure(r.metric.value) else Absent
  }

  function Judged(r: Redline, measure: Metrics): Verdict {
    var actual := Actual(r, measure);
    if r.relativeTo != "" then Verdict(r, Absent, actual, false)
    else if r.op == Unknown || r.metric.None? || r.limit == Absent then Verdict(r, r.limit, actual, false)
    else Verdict(r, r.limit, actual, actual != Absent && Compare(r.op, actual, r.limit))
  }

  function Evaluated(redlines: seq<Redline>, measure: Metrics): (vs: seq<Verdict>)
    ensures |vs| == |redlines|
    ensures forall i :: 0 <= i < |vs| ==> vs[i] == Judged(redlines[i], measure)
  {
    seq(|redlines|, i requires 0 <= i < |redlines| => Judged(redlines[i], measure))
  }

  // ---- What an operator means ----

  /** How two values stand to each other: numbers by size, with true as one and
      false as zero, texts as in a dictionary, anything else not at all. */
  ghost function Standing(a: Value, b: Value): Option<int> {
    if Size(a).Some? && Size(b).Some? then
      Some(if Size(a).value < Size(b).value then -1 else if Size(a) == Size(b) then 0 else 1)
    else if a.Str? && b.Str? then
      Some(if a.s == b.s then 0 else if DictionaryBefore(a.s, b.s) then -1 else 1)
    else None
  }

  ghost function Size(v: Value): Option<real> {
    if v.Num? then Some(v.x) else if v == Bool(true) then Some(1.0) else if v == Bool(false) then Some(0.0) else None
  }

  ghost predicate Satisfies(op: Op, standing: Option<int>) {
    match op
    case Le => standing in {Some(-1), Some(0)}
    case Lt => standing == Some(-1)
    case Ge => standing in {Some(0), Some(1)}
    case Gt => standing == Some(1)
    case Eq => standing == Some(0)
    case Ne => standing != Some(0)
    case Unknown => false
  }

  lemma TextStanding(a: string, b: string)
    ensures Leq(a, b) <==> a == b || DictionaryBefore(a, b)
    ensures Leq(b, a) <==> a == b || !DictionaryBefore(a, b)
  {
    LeqIsDictionary(a, b);
    LeqTotal(a, b);
    if Leq(a, b) && Leq(b, a) { LeqAntisymmetric(a, b); }
    hide Leq, DictionaryBefore;
    LeqIsDictionary(b, b);
  }

  lemma ComparedByStanding(op: Op, a: Value, b: Value)
    ensures Compare(op, a, b) <==> Satisfies(op, Standing(a, b))
  {
    if a.Str? && b.Str? {
      TextStanding(a.s, b.s);
      hide Leq, DictionaryBefore;
    }
  }

  /** A redline is held exactly when it names a metric, states a limit of its
      own, the metric was measured, and the measurement stands to the limit as
      the operator says. */
  lemma HeldExactly(r: Redline, measure: Metrics)
    ensures var v := Judged(r, measure);
            && v.redline == r
            && v.limit == (if r.relativeTo == "" then r.limit else Absent)
            && v.actual == (if r.metric in {None, Some("")} then Absent else measure(r.metric.value))
            && (v.ok <==> v.actual != Absent && v.limit != Absent && Satisfies(r.op, Standing(v.actual, v.limit)))
  {
    ComparedByStanding(r.op, Actual(r, measure), r.limit);
    hide Compare, Standing;
  }

  // ---- How far from it? ----

  datatype Slack = Finite(x: real) | PosInf | NegInf | NaN

  /** `float()` of a stripped text; None when it raises. */
  type Reader = string -> Option<real>

  function Numeric(read: Reader, v: Value): Option<real> {
    match v
    case Num(x) => Some(x)
    case Str(s) => read(Strip(s))
    case _ => None
  }

  predicate Ordered(op: Op) { op in {Le, Lt, Ge, Gt} }

  function SlackOf(read: Reader, op: Op, actual: Value, limit: Value): Slack {
    var a, b := Numeric(read, actual), Numeric(read, limit);
    if !Ordered(op) || a.None? || b.None? then PosInf
    else if op == Le || op == Lt then Finite(a.value - b.value)
    else Finite(b.value - a.value)
  }

  /** The reading of a slack an optimizer gives it; on the limit itself a strict
      redline is crossed. */
  predicate Inside(op: Op, s: Slack) {
    s.Finite? && if op == Lt || op == Gt then s.x < 0.0 else s.x <= 0.0
  }

  /** The slack is how far the measurement is on the wrong side of the limit,
      for the four operators of an order and values that read as numbers; there
      is none otherwise. */
  lemma SlackIsTheDistance(read: Reader, op: Op, actual: Value, limit: Value)
    ensures var s, a, b := SlackOf(read, op, actual, limit), Numeric(read, actual), Numeric(read, limit);
            && (s.Finite? <==> op !in {Eq, Ne, Unknown} && a.Some? && b.Some?)
            && (!s.Finite? ==> s == PosInf)
            && (s.Finite? ==> (a.value <= b.value <==> if op in {Le, Lt} then s.x <= 0.0 else s.x >= 0.0))
            && (s.Finite? ==> a.value == b.value + s.x || b.value == a.value + s.x)
  {
  }

  datatype Kind = Missing | Boolean | Number | Written

  function KindOf(v: Value): Kind {
    match v
    case Absent => Missing
    case Bool(_) => Boolean
    case Num(_) => Number
    case Str(_) => Written
  }

  /** What is measured is held exactly when its slack says so. */
  predicate Agrees(read: Reader, op: Op, a: Value, b: Value) {
    (a != Absent && b != Absent && Compare(op, a, b)) <==> Inside(op, SlackOf(read, op, a, b))
  }

  ghost predicate AlwaysAgree(read: Reader, ka: Kind, kb: Kind) {
    forall op, a, b :: Ordered(op) && KindOf(a) == ka && KindOf(b) == kb ==> Agrees(read, op, a, b)
  }

  /** Kinds of value and limit for which the two can be trusted to agree. */
  predicate Sound(ka: Kind, kb: Kind) {
    || ka == Missing || kb == Missing || (ka == Number && kb == Number)
    || {ka, kb} == {Boolean, Written}
  }

  lemma SoundAgrees(read: Reader, op: Op, a: Value, b: Value)
    requires Ordered(op) && Sound(KindOf(a), KindOf(b))
    ensures Agrees(read, op, a, b)
  {
    assert {KindOf(a), KindOf(b)} == {Boolean, Written} ==> KindOf(a) in {Boolean, Written};
    assert {KindOf(a), KindOf(b)} == {Boolean, Written} ==> Boolean in {KindOf(a), KindOf(b)};
    assert {KindOf(a), KindOf(b)} == {Boolean, Written} ==> Written in {KindOf(a), KindOf(b)};
  }

  lemma NineTen()
    ensures Strip("10") == "10" && Strip("9") == "9" && !Leq("9", "10")
  {
    assert Trimmed("10") && Trimmed("9");
    assert "9"[0] == '9' && "10"[0] == '1';
  }

  /** For every other pair of kinds there is a pair of values. */
  lemma UnsoundDisagrees(read: Reader, ka: Kind, kb: Kind) returns (op: Op, a: Value, b: Value)
    requires read("10") == Some(10.0) && read("9") == Some(9.0) && !Sound(ka, kb)
    ensures Ordered(op) && KindOf(a) == ka && KindOf(b) == kb && !Agrees(read, op, a, b)
  {
    NineTen();
    hide Strip, Leq;
    assert {ka, kb} != {Boolean, Written};
    op := if ka == Number && kb == Boolean then Ge else Le;
    a := if ka == Written && kb == Written then Str("9") else Sample(ka);
    b := Sample(kb);
  }

  /** Verdict and slack agree on numbers, and on what neither can compare; they
      may differ on every other pair: a boolean, which compares as a number and
      has no distance, or a text, which has a distance when it reads as a number
      and compares as a text. */
  lemma AgreeExactlyOnSoundKinds(read: Reader, ka: Kind, kb: Kind)
    requires read("10") == Some(10.0) && read("9") == Some(9.0)
    ensures AlwaysAgree(read, ka, kb) <==> Sound(ka, kb)
  {
    hide Agrees, Sound;
    if Sound(ka, kb) {
      forall op, a, b | Ordered(op) && KindOf(a) == ka && KindOf(b) == kb ensures Agrees(read, op, a, b) {
        SoundAgrees(read, op, a, b);
      }
    } else {
      var op, a, b := UnsoundDisagrees(read, ka, kb);
    }
  }

  function Sample(k: Kind): Value {
    match k
    case Missing => Absent
    case Boolean => Bool(true)
    case Number => Num(10.0)
    case Written => Str("10")
  }

  // ---- The summary of a result ----

  /** An objective. `redlines` is read before `constraints`, its name in older
      campaigns; each may be absent. */
  datatype Objective = Objective(
    target: string, minimize: bool, redlines: Option<seq<Redline>>, constraints: Option<seq<Redline>>)

  function Declared(o: Objective): seq<Redline> {
    if o.redlines.Some? && o.redlines.value != [] then o.redlines.value
    else if o.constraints.Some? then o.constraints.value
    else []
  }

  /** `breaches`: the redlines crossed, described for people. */
  datatype Summary = Summary(value: Option<real>, feasible: bool, slacks: seq<Slack>, breaches: seq<string>)

  function Crossed(describe: Verdict -> string, vs: seq<Verdict>): (r: seq<string>)
    ensures r == [] <==> forall i :: 0 <= i < |vs| ==> vs[i].ok
  {
    if vs == [] then []
    else
      var v := vs[|vs| - 1];
      Crossed(describe, vs[..|vs| - 1]) + (if v.ok then [] else [describe(v)])
  }

  function SlackOfVerdict(read: Reader, v: Verdict): Slack {
    SlackOf(read, v.redline.op, v.actual, v.limit)
  }

  function Slacks(read: Reader, vs: seq<Verdict>): (r: seq<Slack>)
    ensures |r| == |vs|
    ensures forall i :: 0 <= i < |r| ==> r[i] == SlackOfVerdict(read, vs[i])
  {
    seq(|vs|, i requires 0 <= i < |vs| => SlackOfVerdict(read, vs[i]))
  }

  function Summarized(read: Reader, describe: Verdict -> string, o: Objective, measure: Metrics): Summary {
    var vs := Evaluated(Declared(o), measure);
    var value := Numeric(read, measure(o.target));
    var crossed := Crossed(describe, vs);
    Summary(value, crossed == [] && value.Some?, Slacks(read, vs), crossed)
  }

  /** Every redline declared is judged, in order: the older list is only read
      when the newer is missing or empty; each that is not held is described. */
  lemma EveryRedlineJudged(read: Reader, describe: Verdict -> string, o: Objective, measure: Metrics)
    ensures var s, rs := Summarized(read, describe, o, measure), Declared(o);
            && (o.redlines !in {None, Some([])} ==> Some(rs) == o.redlines)
            && (o.redlines in {None, Some([])} ==> rs == if o.constraints.Some? then o.constraints.value else [])
            && |s.slacks| == |rs| && |s.breaches| == NotHeld(rs, measure, |rs|)
            && (s.feasible <==> s.value.Some? && NotHeld(rs, measure, |rs|) == 0)
  {
    var rs, vs := Declared(o), Evaluated(Declared(o), measure);
    CrossedCount(describe, rs, vs, measure, |rs|);
    assert vs[..|rs|] == vs;
    hide Judged, NotHeld, Crossed;
  }

  ghost function NotHeld(rs: seq<Redline>, measure: Metrics, n: nat): nat
    requires n <= |rs|
  {
    if n == 0 then 0 else NotHeld(rs, measure, n - 1) + if Judged(rs[n - 1], measure).ok then 0 else 1
  }

  lemma {:induction false} CrossedCount(
      describe: Verdict -> string, rs: seq<Redline>, vs: seq<Verdict>, measure: Metrics, n: nat)
    requires |vs| == |rs| && n <= |rs| && forall i :: 0 <= i < |vs| ==> vs[i] == Judged(rs[i], measure)
    ensures |Crossed(describe, vs[..n])| == NotHeld(rs, measure, n)
    ensures forall text :: text in Crossed(describe, vs[..n]) <==>
      exists i :: 0 <= i < n && !vs[i].ok && describe(vs[i]) == text
  {
    hide Judged;
    if n > 0 {
      CrossedCount(describe, rs, vs, measure, n - 1);
      assert vs[..n][..n - 1] == vs[..n - 1];
    }
  }

  /** A redline with an order, whose limit and measurement are of kinds that
      agree; one still relative has no limit yet. */
  predicate Trusted(r: Redline, measure: Metrics) {
    && Ordered(r.op)
    && (r.relativeTo == "" ==> Sound(KindOf(Actual(r, measure)), KindOf(r.limit)))
  }

  predicate AllInside(rs: seq<Redline>, slacks: seq<Slack>) {
    |slacks| == |rs| && forall i :: 0 <= i < |rs| ==> Inside(rs[i].op, slacks[i])
  }

  /** A result is feasible exactly when its target was measured and every slack
      is on the right side: an optimizer that reads only the slacks sees the
      feasible results the ranking sees. */
  lemma FeasibleExactlyWhenInside(read: Reader, describe: Verdict -> string, o: Objective, measure: Metrics)
    requires forall r :: r in Declared(o) ==> Trusted(r, measure)
    ensures var s := Summarized(read, describe, o, measure);
      (s.feasible <==> s.value.Some? && AllInside(Declared(o), s.slacks))
  {
    var rs, vs := Declared(o), Evaluated(Declared(o), measure);
    hide Compare, Sound, Crossed;
    forall i | 0 <= i < |rs| ensures vs[i].ok <==> Inside(rs[i].op, SlackOfVerdict(read, vs[i])) {
      assert rs[i] in rs;
      if rs[i].relativeTo == "" {
        SoundAgrees(read, rs[i].op, vs[i].actual, vs[i].limit);
      }
    }
  }

  /** An equality that is held has no slack inside: the summary is feasible and
      an optimizer reading the slacks would drop it. */
  lemma HeldEqualityHasNoSlack(read: Reader, describe: Verdict -> string, measure: Metrics, target: string, x: real)
    requires target != "" && measure(target) == Num(x)
    ensures var s := Summarized(read, describe,
        Objective(target, false, Some([Redline(Some(target), Eq, Num(x), "", "")]), None), measure);
      s.feasible && s.slacks == [PosInf]
  {
    var r := Redline(Some(target), Eq, Num(x), "", "");
    assert Evaluated([r], measure)[0].ok;
  }

  /** The loop that judges the redlines. */
  method EvaluateRedlines(redlines: seq<Redline>, measure: Metrics) returns (results: seq<Verdict>)
    ensures results == Evaluated(redlines, measure)
  {
    results := [];
    for i := 0 to |redlines|
      invariant |results| == i
      invariant forall j :: 0 <= j < i ==> results[j] == Judged(redlines[j], measure)
    {
      var r := redlines[i];
      var actual := Absent;
      if r.metric.Some? && r.metric.value != "" {
        actual := measure(r.metric.value);
      }
      if r.relativeTo != "" {
        results := results + [Verdict(r, Absent, actual, false)];
      } else if r.op == Unknown || r.metric.None? || r.limit == Absent {
        results := results + [Verdict(r, r.limit, actual, false)];
      } else {
        var ok := false;
        if actual != Absent {
          ok := Compare(r.op, actual, r.limit);
        }
        results := results + [Verdict(r, r.limit, actual, ok)];
      }
    }
  }

  // ---- Stored and read back ----

  function Stored(slacks: seq<Slack>): (r: seq<Option<real>>)
    ensures |r| == |slacks|
  {
    seq(|slacks|, i requires 0 <= i < |slacks| => if slacks[i].Finite? then Some(slacks[i].x) else None)
  }

  function ReadBack(stored: seq<Option<real>>): (r: seq<Slack>)
    ensures |r| == |stored|
  {
    seq(|stored|, i requires 0 <= i < |stored| => if stored[i].Some? then Finite(stored[i].value) else PosInf)
  }

  /** Lossless exactly when no slack is minus infinity or not a number; what
      `SlackOf` gives never is. */
  lemma StoredIsLossless(slacks: seq<Slack>)
    ensures ReadBack(Stored(slacks)) == slacks <==> NegInf !in slacks && NaN !in slacks
  {
    var back := ReadBack(Stored(slacks));
    assert forall i :: 0 <= i < |slacks| ==> back[i] == if slacks[i].Finite? then slacks[i] else PosInf;
    if NegInf !in slacks && NaN !in slacks {
      forall i | 0 <= i < |slacks| ensures back[i] == slacks[i] {
        assert slacks[i] in slacks;
      }
    }
  }

  lemma SummaryIsStoredWhole(read: Reader, describe: Verdict -> string, o: Objective, measure: Metrics)
    ensures var s := Summarized(read, describe, o, measure); ReadBack(Stored(s.slacks)) == s.slacks
  {
    StoredIsLossless(Summarized(read, describe, o, measure).slacks);
  }

  // ---- Which is better ----

  /** The key results are ranked by; missing values go to the bottom. */
  function SortKey(value: Option<real>, minimize: bool): (bool, real) {
    if value.None? then (true, 0.0) else (false, if minimize then value.value else -value.value)
  }

  /** Python's order of two keys. */
  predicate Before(a: (bool, real), b: (bool, real)) {
    if a.0 != b.0 then b.0 else a.1 < b.1
  }

  predicate IsBetter(a: Option<real>, b: Option<real>, minimize: bool) {
    if a.None? then false
    else if b.None? then true
    else if minimize then a.value < b.value else a.value > b.value
  }

  function Abs(x: real): (r: real)
    ensures r >= 0.0 && (r == 0.0 <==> x == 0.0)
  {
    if x < 0.0 then -x else x
  }

  function ImprovementPct(value: Option<real>, baseline: Option<real>, minimize: bool): Option<real> {
    if value.None? || baseline.None? || baseline.value == 0.0 then None
    else
      var raw := (value.value - baseline.value) / Abs(baseline.value) * 100.0;
      Some(if minimize then -raw else raw)
  }

  lemma SignOfQuotient(x: real, y: real)
    requires y > 0.0
    ensures x / y > 0.0 <==> x > 0.0
    ensures x / y < 0.0 <==> x < 0.0
  {
    assert x / y * y == x;
  }

  /** One ranking, told three ways: `is_better` is the strict order of the sort
      key, and against a baseline that is not zero an improvement is positive
      exactly when the value is better. */
  lemma OneRanking(a: Option<real>, b: Option<real>, minimize: bool)
    ensures IsBetter(a, b, minimize) <==> Before(SortKey(a, minimize), SortKey(b, minimize))
    ensures b.Some? && b.value != 0.0 ==>
      (ImprovementPct(a, b, minimize).Some? && ImprovementPct(a, b, minimize).value > 0.0 <==> IsBetter(a, b, minimize))
  {
    if a.Some? && b.Some? && b.value != 0.0 {
      SignOfQuotient(a.value - b.value, Abs(b.value));
    }
  }

  /** Ranking by it is sound: no cycles, and what neither beats counts as equal
      against any third. */
  lemma RankingIsAWeakOrder(a: Option<real>, b: Option<real>, c: Option<real>, minimize: bool)
    ensures !(IsBetter(a, b, minimize) && IsBetter(b, a, minimize))
    ensures IsBetter(a, b, minimize) ==> IsBetter(a, c, minimize) || IsBetter(c, b, minimize)
  {
  }
}
