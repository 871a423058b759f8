/** Quality floors relative to production, and judging results again when
    production's score moves (backend/app/quality.py). */
module Rescoring {
  import opened Text
  import opened Judging

  /** What the judging calls and this model leaves open: the texts and the
      rounding. `offset`: `float(value or 0)` of a relative redline's value. */
  datatype Env = Env(
    read: Reader, describe: Verdict -> string, round6: real -> real, basis: (real, real) -> string,
    offset: Value -> real)

  /** The summary as a result row keeps it. */
  datatype Stored = Stored(value: Option<real>, feasible: bool, slacks: seq<Option<real>>, breaches: seq<string>)

  /** A result with its run's objective. `production`: it measures production;
      `readable`: its metrics can be read for that; `trial`: the value and
      feasibility its policy trial repeats. */
  datatype Row = Row(
    production: bool, readable: bool, measure: Metrics, objective: Objective, stored: Stored,
    trial: Option<(Option<real>, bool)>)

  const PRODUCTION := "production"

  // ---- Production's score ----

  /** Production's measurements of a metric, in row order. */
  function Measurements(rows: seq<Row>, metric: string): seq<real> {
    if rows == [] then []
    else
      var r := rows[|rows| - 1];
      Measurements(rows[..|rows| - 1], metric) + Adds(r, metric)
  }

  function Sum(xs: seq<real>): real {
    if xs == [] then 0.0 else Sum(xs[..|xs| - 1]) + xs[|xs| - 1]
  }

  function Mean(xs: seq<real>): real
    requires xs != []
  {
    Sum(xs) / |xs| as real
  }

  function Score(rows: seq<Row>, metric: string): Option<real> {
    var xs := Measurements(rows, metric);
    if xs == [] then None else Some(Mean(xs))
  }

  /** The measurement this row adds. */
  function Adds(r: Row, metric: string): (xs: seq<real>)
    ensures |xs| <= 1
  {
    if r.production && r.readable && r.measure(metric).Num? then [r.measure(metric).x] else []
  }

  function Count(metrics: seq<string>, metric: string): nat {
    if metrics == [] then 0
    else Count(metrics[..|metrics| - 1], metric) + if metrics[|metrics| - 1] == metric then 1 else 0
  }

  function Copies(x: real, k: nat): (r: seq<real>)
    ensures |r| == k
  {
    seq(k, _ => x)
  }

  lemma OneCopyMore(x: real, k: nat)
    ensures Copies(x, k + 1) == Copies(x, k) + [x]
  {
  }

  /** Each element `k` times. */
  function Repeated(xs: seq<real>, k: nat): seq<real> {
    if xs == [] then [] else Repeated(xs[..|xs| - 1], k) + Copies(xs[|xs| - 1], k)
  }

  lemma {:induction false} SumAppends(xs: seq<real>, ys: seq<real>)
    ensures Sum(xs + ys) == Sum(xs) + Sum(ys)
  {
    if ys == [] {
      assert xs + ys == xs;
    } else {
      SumAppends(xs, ys[..|ys| - 1]);
      assert (xs + ys)[..|xs + ys| - 1] == xs + ys[..|ys| - 1];
    }
  }

  /** `k` times `x`, without multiplying two variables. */
  function Times(k: nat, x: real): real {
    if k == 0 then 0.0 else Times(k - 1, x) + x
  }

  lemma {:induction false} TimesAdds(k: nat, x: real, y: real)
    ensures Times(k, x + y) == Times(k, x) + Times(k, y)
  {
    if k > 0 {
      TimesAdds(k - 1, x, y);
    }
  }

  lemma {:induction false} TimesIs(k: nat, x: real)
    ensures Times(k, x) == k as real * x
  {
    if k > 0 {
      TimesIs(k - 1, x);
      assert (k - 1) as real * x + x == k as real * x;
    }
  }

  lemma {:induction false} SumCopies(x: real, k: nat)
    ensures Sum(Copies(x, k)) == Times(k, x)
  {
    if k > 0 {
      OneCopyMore(x, k - 1);
      SumCopies(x, k - 1);
      hide Copies;
      assert (Copies(x, k - 1) + [x])[..k - 1] == Copies(x, k - 1);
    }
  }

  /** The sum and the length of a list with each element `k` times. */
  lemma {:induction false} SumRepeated(xs: seq<real>, k: nat)
    ensures Sum(Repeated(xs, k)) == Times(k, Sum(xs))
  {
    if xs == [] {
      TimesZero(k);
    } else {
      hide Times, Copies;
      var init, last := xs[..|xs| - 1], xs[|xs| - 1];
      SumRepeated(init, k);
      SumCopies(last, k);
      SumAppends(Repeated(init, k), Copies(last, k));
      TimesAdds(k, Sum(init), last);
    }
  }

  lemma {:induction false} LengthRepeated(xs: seq<real>, k: nat)
    ensures |Repeated(xs, k)| as real == Times(k, |xs| as real)
  {
    if xs == [] {
      TimesZero(k);
    } else {
      hide Times, Copies;
      var n := |xs| - 1;
      LengthRepeated(xs[..n], k);
      TimesAdds(k, n as real, 1.0);
      TimesIs(k, 1.0);
      assert |xs| as real == n as real + 1.0;
    }
  }

  lemma {:induction false} TimesZero(k: nat)
    ensures Times(k, 0.0) == 0.0
  {
    if k > 0 {
      TimesZero(k - 1);
    }
  }

  /** A metric asked for twice has each measurement twice, and the same mean. */
  lemma MeanRepeated(xs: seq<real>, k: nat)
    requires xs != [] && k > 0
    ensures Repeated(xs, k) != [] && Mean(Repeated(xs, k)) == Mean(xs)
  {
    SumRepeated(xs, k);
    LengthRepeated(xs, k);
    TimesIs(k, Sum(xs));
    TimesIs(k, |xs| as real);
    hide Repeated, Sum, Times;
    Cancel(Sum(xs), |xs| as real, k as real);
  }

  lemma Cancel(s: real, n: real, k: real)
    requires n > 0.0 && k > 0.0
    ensures k * n > 0.0 && k * s / (k * n) == s / n
  {
    assert s / n * n == s;
    assert s / n * (k * n) == k * s;
  }

  /** Production's score on each metric that has one. */
  method ProductionScores(rows: seq<Row>, metrics: seq<string>) returns (scores: map<string, real>)
    ensures forall m :: m in scores <==> m in metrics && Score(rows, m).Some?
    ensures forall m :: m in scores ==> scores[m] == Score(rows, m).value
  {
    NothingRepeated();
    hide Score, Mean, Repeated, Adds;
    var seen: map<string, seq<real>> := map m | m in metrics :: [];
    for i := 0 to |rows|
      invariant seen.Keys == (set m | m in metrics)
      invariant forall m :: m in metrics ==> seen[m] == Repeated(Measurements(rows[..i], m), Count(metrics, m))
    {
      seen := AddRow(rows[i], metrics, seen);
      forall m | m in metrics
        ensures Repeated(Measurements(rows[..i + 1], m), Count(metrics, m)) ==
          Repeated(Measurements(rows[..i], m), Count(metrics, m)) + Repeated(Adds(rows[i], m), Count(metrics, m))
      {
        assert rows[..i + 1][..i] == rows[..i];
        RepeatedAppends(Measurements(rows[..i], m), Adds(rows[i], m), Count(metrics, m));
      }
    }
    assert rows[..|rows|] == rows;
    forall m | m in metrics ensures Count(metrics, m) > 0 {
      Counted(metrics, m);
    }
    scores := map m | m in seen && seen[m] != [] :: Mean(seen[m]);
    forall m | m in metrics
      ensures seen[m] != [] <==> Score(rows, m).Some?
      ensures seen[m] != [] ==> Mean(seen[m]) == Score(rows, m).value
    {
      ScoreIsMean(rows, m, Count(metrics, m));
    }
  }

  lemma ScoreIsMean(rows: seq<Row>, m: string, k: nat)
    requires k > 0
    ensures var xs := Repeated(Measurements(rows, m), k);
      && (xs != [] <==> Score(rows, m).Some?)
      && (xs != [] ==> Mean(xs) == Score(rows, m).value)
  {
    if Measurements(rows, m) != [] {
      MeanRepeated(Measurements(rows, m), k);
    }
  }

  lemma {:induction false} Counted(metrics: seq<string>, m: string)
    ensures Count(metrics, m) > 0 <==> m in metrics
  {
    if metrics != [] {
      Counted(metrics[..|metrics| - 1], m);
      assert metrics == metrics[..|metrics| - 1] + [metrics[|metrics| - 1]];
    }
  }

  lemma RepeatedAppends(xs: seq<real>, ys: seq<real>, k: nat)
    requires |ys| <= 1
    ensures Repeated(xs + ys, k) == Repeated(xs, k) + Repeated(ys, k)
  {
    hide Copies;
    if ys == [] {
      assert xs + ys == xs;
    } else {
      assert (xs + ys)[..|xs|] == xs;
      RepeatedOne(ys[0], k);
      assert ys == [ys[0]];
    }
  }

  lemma RepeatedOne(x: real, k: nat)
    ensures Repeated([x], k) == Copies(x, k)
  {
    assert [x][..0] == [];
  }

  /** One row's measurements, appended under each metric asked for. */
  method AddRow(row: Row, metrics: seq<string>, seen: map<string, seq<real>>) returns (out: map<string, seq<real>>)
    requires forall m :: m in metrics ==> m in seen
    ensures out.Keys == seen.Keys
    ensures forall m :: m in metrics ==> out[m] == seen[m] + Repeated(Adds(row, m), Count(metrics, m))
  {
    NothingRepeated();
    hide Repeated;
    out := seen;
    if !row.production || !row.readable {
      return;
    }
    for j := 0 to |metrics|
      invariant out.Keys == seen.Keys
      invariant forall m :: m in metrics ==> out[m] == seen[m] + Repeated(Adds(row, m), Count(metrics[..j], m))
    {
      var metric := metrics[j];
      assert metrics[..j + 1][..j] == metrics[..j];
      var value := row.measure(metric);
      forall m | m in metrics
        ensures Repeated(Adds(row, m), Count(metrics[..j + 1], m)) ==
          Repeated(Adds(row, m), Count(metrics[..j], m)) + if m == metric then Adds(row, m) else []
      {
        OneMore(Adds(row, m), Count(metrics[..j], m));
      }
      if value.Num? {
        out := out[metric := out[metric] + [value.x]];
      }
    }
    assert metrics[..|metrics|] == metrics;
  }

  lemma NothingRepeated()
    ensures forall k :: Repeated([], k) == []
    ensures forall xs :: |xs| <= 1 ==> Repeated(xs, 0) == []
  {
  }

  lemma OneMore(xs: seq<real>, k: nat)
    requires |xs| <= 1
    ensures Repeated(xs, k + 1) == Repeated(xs, k) + xs
  {
    if xs != [] {
      RepeatedOne(xs[0], k);
      RepeatedOne(xs[0], k + 1);
      OneCopyMore(xs[0], k);
      assert xs == [xs[0]];
    }
    hide Copies;
  }

  // ---- Relative redlines made absolute ----

  predicate IsRelative(r: Redline) { r.relativeTo == PRODUCTION }

  /** A relative redline of the objective holds this result. */
  predicate HeldRelative(o: Objective) {
    exists r :: r in Declared(o) && IsRelative(r)
  }

  function ResolvedOne(env: Env, rows: seq<Row>, r: Redline): Redline {
    if IsRelative(r) && r.metric.Some? && r.metric.value != "" && Score(rows, r.metric.value).Some? then
      var base, offset := Score(rows, r.metric.value).value, env.offset(r.limit);
      r.(relativeTo := "", limit := Num(env.round6(base + offset)), basis := env.basis(base, offset))
    else r
  }

  /** A row of production whose metrics can be read and that has a number for
      the metric. */
  ghost predicate Measures(r: Row, metric: string) {
    r.production && r.readable && r.measure(metric).Num?
  }

  lemma {:induction false} ScoredWhen(rows: seq<Row>, metric: string)
    ensures Measurements(rows, metric) == [] <==> forall r :: r in rows ==> !Measures(r, metric)
    ensures forall x :: x in Measurements(rows, metric) <==>
      exists r :: r in rows && Measures(r, metric) && r.measure(metric) == Num(x)
  {
    if rows != [] {
      var front, r := rows[..|rows| - 1], rows[|rows| - 1];
      ScoredWhen(front, metric);
      assert rows == front + [r];
      assert forall x :: x in rows <==> x in front || x == r;
    }
  }

  /** A redline relative to production, whose metric production has a measurement
      of. */
  ghost predicate Resolvable(rows: seq<Row>, r: Redline) {
    && r.relativeTo == "production" && r.metric !in {None, Some("")}
    && exists x :: x in rows && Measures(x, r.metric.value)
  }

  /** Exactly such a redline becomes absolute: its limit is production's mean with
      the offset, rounded. Nothing else of it changes, and any other redline
      stays as it is. */
  lemma ResolvedExactly(env: Env, rows: seq<Row>, r: Redline)
    ensures Resolvable(rows, r) ==> Score(rows, r.metric.value).Some?
    ensures Resolvable(rows, r) ==>
      var mean, offset := Score(rows, r.metric.value).value, env.offset(r.limit);
      ResolvedOne(env, rows, r) == Redline(r.metric, r.op, Num(env.round6(mean + offset)), "", env.basis(mean, offset))
    ensures !Resolvable(rows, r) ==> ResolvedOne(env, rows, r) == r
  {
    hide Measurements, Mean, Measures;
    if r.metric.Some? {
      ScoredWhen(rows, r.metric.value);
    }
  }

  function ResolvedAll(env: Env, rows: seq<Row>, rs: seq<Redline>): (out: seq<Redline>)
    ensures |out| == |rs| && forall i :: 0 <= i < |rs| ==> out[i] == ResolvedOne(env, rows, rs[i])
  {
    seq(|rs|, i requires 0 <= i < |rs| => ResolvedOne(env, rows, rs[i]))
  }

  function Resolved(env: Env, rows: seq<Row>, o: Objective): Objective {
    if !HeldRelative(o) then o
    else if o.redlines.Some? then o.(redlines := Some(ResolvedAll(env, rows, o.redlines.value)))
    else if o.constraints.Some? then o.(constraints := Some(ResolvedAll(env, rows, o.constraints.value)))
    else o.(constraints := Some([]))
  }

  /** Every declared redline is resolved exactly unless the objective has a
      relative one under the old name and an empty list under the new. */
  lemma AllResolvedExactlyUnlessHidden(env: Env, rows: seq<Row>, o: Objective)
    ensures var hidden := HeldRelative(o) && o.redlines == Some([]);
      && (!hidden ==> Declared(Resolved(env, rows, o)) == ResolvedAll(env, rows, Declared(o)))
      && (hidden ==> Declared(Resolved(env, rows, o)) == Declared(o))
  {
    if !HeldRelative(o) {
      var rs := Declared(o);
      forall i | 0 <= i < |rs| ensures ResolvedOne(env, rows, rs[i]) == rs[i] {
        assert rs[i] in rs;
      }
    }
  }

  function Judge(env: Env, rows: seq<Row>, o: Objective, measure: Metrics): Summary {
    Summarized(env.read, env.describe, Resolved(env, rows, o), measure)
  }

  /** A result hidden so is never feasible, whatever it and production measure. */
  lemma HiddenIsNeverFeasible(env: Env, rows: seq<Row>, o: Objective, measure: Metrics)
    requires HeldRelative(o) && o.redlines == Some([])
    ensures !Judge(env, rows, o, measure).feasible
  {
    AllResolvedExactlyUnlessHidden(env, rows, o);
    var r :| r in Declared(o) && IsRelative(r);
    var i :| 0 <= i < |Declared(o)| && Declared(o)[i] == r;
    hide Crossed;
    assert !Evaluated(Declared(o), measure)[i].ok;
  }

  // ---- What a floor promises ----

  /** `quality_floor`: each task's metric within `maxDrop` of production. */
  function QualityFloor(metrics: seq<string>, maxDrop: real): (rs: seq<Redline>)
    ensures |rs| == |metrics|
  {
    seq(|metrics|, i requires 0 <= i < |metrics| => Floor(metrics[i], maxDrop))
  }

  function Floor(metric: string, maxDrop: real): Redline {
    Redline(Some(metric), Ge, Num(-Abs(maxDrop)), PRODUCTION, "")
  }

  /** This task holds: production has a score and the result is no further
      below it than allowed. */
  predicate WithinFloor(env: Env, rows: seq<Row>, measure: Metrics, metric: string, maxDrop: real) {
    && Score(rows, metric).Some?
    && AsNumber(measure(metric)).Some?
    && AsNumber(measure(metric)).value >= env.round6(Score(rows, metric).value - Abs(maxDrop))
  }

  /** Unless its relative redlines are hidden, a result is feasible exactly when
      its target was measured and each declared redline, resolved, is held. */
  lemma FeasibleWhenResolvedHold(env: Env, rows: seq<Row>, o: Objective, measure: Metrics)
    requires !(HeldRelative(o) && o.redlines == Some([]))
    ensures var rs := Declared(o);
      Judge(env, rows, o, measure).feasible <==>
        && Numeric(env.read, measure(o.target)).Some?
        && forall i :: 0 <= i < |rs| ==> Judged(ResolvedOne(env, rows, rs[i]), measure).ok
  {
    AllResolvedExactlyUnlessHidden(env, rows, o);
    hide Crossed, Judged, ResolvedOne, Slacks, Numeric, HeldRelative, Declared;
    assert Resolved(env, rows, o).target == o.target;
  }

  /** A finalist held to the floor is feasible exactly when its target was
      measured and no task dropped too far below production. */
  lemma FloorHoldsExactly(
    env: Env, rows: seq<Row>, target: string, minimize: bool, metrics: seq<string>, maxDrop: real, measure: Metrics)
    requires forall x :: env.offset(Num(x)) == x
    requires forall m :: m in metrics ==> m != ""
    ensures var o := Objective(target, minimize, Some(QualityFloor(metrics, maxDrop)), None);
      Judge(env, rows, o, measure).feasible <==>
        && Numeric(env.read, measure(target)).Some?
        && forall m :: m in metrics ==> WithinFloor(env, rows, measure, m, maxDrop)
  {
    hide Judge, WithinFloor, Judged, ResolvedOne, Numeric, Abs, Floor;
    var o := Objective(target, minimize, Some(QualityFloor(metrics, maxDrop)), None);
    var rs := QualityFloor(metrics, maxDrop);
    assert Declared(o) == rs;
    FeasibleWhenResolvedHold(env, rows, o, measure);
    assert forall i :: 0 <= i < |rs| ==> rs[i] == Floor(metrics[i], maxDrop);
    forall i | 0 <= i < |metrics|
      ensures Judged(ResolvedOne(env, rows, rs[i]), measure).ok <==>
        WithinFloor(env, rows, measure, metrics[i], maxDrop)
    {
      assert metrics[i] in metrics;
      TaskHolds(env, rows, measure, metrics[i], maxDrop);
    }
  }

  lemma TaskHolds(env: Env, rows: seq<Row>, measure: Metrics, metric: string, maxDrop: real)
    requires metric != "" && env.offset(Num(-Abs(maxDrop))) == -Abs(maxDrop)
    ensures Judged(ResolvedOne(env, rows, Floor(metric, maxDrop)), measure).ok <==>
      WithinFloor(env, rows, measure, metric, maxDrop)
  {
    hide Score, Abs;
  }

  // ---- Judging again ----

  function Persisted(s: Summary): Stored {
    Stored(s.value, s.feasible, Judging.Stored(s.slacks), s.breaches)
  }

  /** The row's stored verdict is the one it gets now. */
  predicate UpToDate(env: Env, rows: seq<Row>, r: Row) {
    var now := Judge(env, rows, r.objective, r.measure);
    r.stored.feasible == now.feasible && r.stored.breaches == now.breaches
  }

  predicate Stale(env: Env, rows: seq<Row>, r: Row) {
    HeldRelative(r.objective) && !UpToDate(env, rows, r)
  }

  function Rewritten(env: Env, rows: seq<Row>, r: Row): Row {
    var now := Persisted(Judge(env, rows, r.objective, r.measure));
    r.(stored := now, trial := if r.trial.Some? then Some((now.value, now.feasible)) else None)
  }

  function Rescored(env: Env, rows: seq<Row>): (out: seq<Row>)
    ensures |out| == |rows|
    ensures forall i :: 0 <= i < |rows| ==>
      out[i] == if Stale(env, rows, rows[i]) then Rewritten(env, rows, rows[i]) else rows[i]
  {
    seq(|rows|, i requires 0 <= i < |rows| =>
      if Stale(env, rows, rows[i]) then Rewritten(env, rows, rows[i]) else rows[i])
  }

  function StaleRows(env: Env, rows: seq<Row>): set<nat> {
    set i: nat | 0 <= i < |rows| && Stale(env, rows, rows[i])
  }

  /** The same measurements, whatever is stored. */
  predicate SameReading(a: Row, b: Row) {
    a.production == b.production && a.readable == b.readable && a.objective == b.objective
  }

  ghost predicate SameReadings(a: seq<Row>, b: seq<Row>) {
    |a| == |b| && forall i :: 0 <= i < |a| ==> SameReading(a[i], b[i]) && a[i].measure == b[i].measure
  }

  lemma {:induction false} SameScores(a: seq<Row>, b: seq<Row>, metric: string)
    requires SameReadings(a, b)
    ensures Measurements(a, metric) == Measurements(b, metric)
  {
    if a != [] {
      SameScores(a[..|a| - 1], b[..|b| - 1], metric);
    }
  }

  /** Verdicts depend on measurements alone, never on what is stored. */
  lemma SameVerdicts(env: Env, a: seq<Row>, b: seq<Row>, o: Objective, measure: Metrics)
    requires SameReadings(a, b)
    ensures Judge(env, a, o, measure) == Judge(env, b, o, measure)
  {
    forall r ensures ResolvedOne(env, a, r) == ResolvedOne(env, b, r) {
      if r.metric.Some? {
        SameScores(a, b, r.metric.value);
      }
    }
    if o.redlines.Some? {
      assert ResolvedAll(env, a, o.redlines.value) == ResolvedAll(env, b, o.redlines.value);
    }
    if o.constraints.Some? {
      assert ResolvedAll(env, a, o.constraints.value) == ResolvedAll(env, b, o.constraints.value);
    }
    hide Summarized;
  }

  /** One pass reaches a fixpoint: every result a relative redline holds stores
      its now verdict, so a second pass finds nothing to do; a result whose
      verdict already was the now one is left as it was. */
  lemma OnePassIsEnough(env: Env, rows: seq<Row>)
    ensures var after := Rescored(env, rows);
      && (forall i :: 0 <= i < |after| && HeldRelative(after[i].objective) ==> UpToDate(env, after, after[i]))
      && StaleRows(env, after) == {} && Rescored(env, after) == after
      && (forall i :: 0 <= i < |rows| ==>
            after[i] == if i in StaleRows(env, rows) then Rewritten(env, after, rows[i]) else rows[i])
  {
    var after := Rescored(env, rows);
    hide Judge, HeldRelative;
    forall i | 0 <= i < |rows|
      ensures Judge(env, rows, rows[i].objective, rows[i].measure)
           == Judge(env, after, rows[i].objective, rows[i].measure)
    {
      SameVerdicts(env, rows, after, rows[i].objective, rows[i].measure);
    }
    forall i | 0 <= i < |rows|
      ensures !Stale(env, after, after[i]) && Rewritten(env, rows, rows[i]) == Rewritten(env, after, rows[i])
    {
      assert Stale(env, rows, rows[i]) ==> after[i] == Rewritten(env, rows, rows[i]);
    }
    hide Stale, Rewritten;
    assert Rescored(env, after) == after;
  }

  /** What a row stores after the pass: a result that is held stores exactly the
      verdict it would get if judged once more, its trial repeats it, and no
      other part of any row is touched. */
  lemma FreshAfterwards(env: Env, rows: seq<Row>, i: nat)
    requires i < |rows|
    ensures var after := Rescored(env, rows);
            var now := Judge(env, after, after[i].objective, after[i].measure);
            && |after| == |rows|
            && after[i] == rows[i].(stored := after[i].stored, trial := after[i].trial)
            && (HeldRelative(rows[i].objective) ==> after[i].stored.feasible == now.feasible)
            && (HeldRelative(rows[i].objective) ==> after[i].stored.breaches == now.breaches)
            && (after[i].stored != rows[i].stored ==> HeldRelative(rows[i].objective))
            && (after[i].stored != rows[i].stored ==> after[i].stored.value == now.value)
            && (after[i].stored != rows[i].stored ==> after[i].stored.slacks == Judging.Stored(now.slacks))
            && (after[i].trial.Some? <==> rows[i].trial.Some?)
            && (after[i] != rows[i] && after[i].trial.Some? ==>
                 after[i].trial.value == (after[i].stored.value, after[i].stored.feasible))
  {
    OnePassIsEnough(env, rows);
    hide Judge, HeldRelative, StaleRows;
  }

  /** Half way through, every verdict is still what it was at the start. */
  lemma PartlyDone(env: Env, was: seq<Row>, rows: seq<Row>, i: nat)
    requires |rows| == |was| && i < |was| && rows[..i] == Rescored(env, was)[..i] && rows[i..] == was[i..]
    ensures Judge(env, rows, was[i].objective, was[i].measure) == Judge(env, was, was[i].objective, was[i].measure)
  {
    forall j | 0 <= j < |was| ensures SameReading(was[j], rows[j]) && was[j].measure == rows[j].measure {
      if j < i {
        assert rows[j] == rows[..i][j] == Rescored(env, was)[j];
      } else {
        assert rows[j] == rows[i..][j - i];
      }
    }
    SameVerdicts(env, was, rows, was[i].objective, was[i].measure);
  }

  /** What the loop does to one row. */
  method JudgeAgain(env: Env, rows: seq<Row>, row: Row) returns (out: Row, changed: bool)
    ensures changed == Stale(env, rows, row)
    ensures out == if Stale(env, rows, row) then Rewritten(env, rows, row) else row
  {
    hide Judge;
    out, changed := row, false;
    if HeldRelative(row.objective) {
      var now := Judge(env, rows, row.objective, row.measure);
      if now.feasible != row.stored.feasible || now.breaches != row.stored.breaches {
        out := out.(stored := Persisted(now));
        if row.trial.Some? {
          out := out.(trial := Some((out.stored.value, out.stored.feasible)));
        }
        changed := true;
      }
    }
  }

  /** The results table of a campaign. */
  class Results {
    var rows: seq<Row>

    constructor (rows: seq<Row>)
      ensures this.rows == rows
    {
      this.rows := rows;
    }

    /** Judges every result again, each against the table as it then stands. */
    method Rescore(env: Env) returns (changed: nat)
      modifies this
      ensures rows == Rescored(env, old(rows))
      ensures changed == |StaleRows(env, old(rows))|
    {
      hide Judge, HeldRelative, Rewritten;
      changed := 0;
      ghost var was := rows;
      ghost var done: set<nat> := {};
      for i := 0 to |rows|
        invariant |rows| == |was| && rows[..i] == Rescored(env, was)[..i] && rows[i..] == was[i..]
        invariant done == set j: nat | j < i && j in StaleRows(env, was)
        invariant changed == |done|
      {
        assert rows[i] == was[i] by { assert rows[i..][0] == was[i..][0]; }
        PartlyDone(env, was, rows, i);
        var row, stale := JudgeAgain(env, rows, rows[i]);
        SameStep(env, was, rows, was[i]);
        rows := rows[i := row];
        if stale {
          changed := changed + 1;
          done := done + {i};
        }
      }
      assert rows == rows[..|rows|];
      assert done == StaleRows(env, was);
    }
  }

  lemma SameStep(env: Env, a: seq<Row>, b: seq<Row>, r: Row)
    requires Judge(env, a, r.objective, r.measure) == Judge(env, b, r.objective, r.measure)
    ensures Stale(env, a, r) == Stale(env, b, r) && Rewritten(env, a, r) == Rewritten(env, b, r)
  {
    hide Judge;
  }
}
