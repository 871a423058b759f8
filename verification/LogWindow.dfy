/** The engine log a policy reads: its last lines, or those near a match
    (backend/app/api/policy_sessions.py). */
module LogWindow {
  import opened Text

  /** What is shown: a line of the log, by its place in it, or the `--` between
      two lines that do not follow each other. */
  datatype Item = Line(at: nat) | Gap

  function Written(lines: seq<string>, item: Item): string
    requires item.Line? ==> item.at < |lines|
  {
    if item.Gap? then "--" else lines[item.at]
  }

  predicate InLog(items: seq<Item>, n: nat) {
    forall i :: 0 <= i < |items| && items[i].Line? ==> items[i].at < n
  }

  function AllWritten(lines: seq<string>, items: seq<Item>): (r: seq<string>)
    requires InLog(items, |lines|)
    ensures |r| == |items|
  {
    seq(|items|, i requires 0 <= i < |items| => Written(lines, items[i]))
  }

  // ---- Which lines, and what stands between them ----

  /** Within `context` lines of one of the first `upTo` lines that match. */
  predicate NearAny(hits: seq<bool>, upTo: nat, context: nat, k: nat)
    requires upTo <= |hits|
  {
    k < |hits| && exists h :: 0 <= h < upTo && hits[h] && h - context <= k <= h + context
  }

  /** Within `context` lines of a match. */
  predicate Near(hits: seq<bool>, context: nat, k: nat) {
    NearAny(hits, |hits|, context, k)
  }

  /** The shown lines' places, in the order shown. */
  function Places(items: seq<Item>): seq<nat> {
    if items == [] then []
    else
      var last := items[|items| - 1];
      Places(items[..|items| - 1]) + (if last.Line? then [last.at] else [])
  }

  predicate Ascending(ps: seq<nat>) {
    forall i, j :: 0 <= i < j < |ps| ==> ps[i] < ps[j]
  }

  /** Two neighbours may be shown one after the other: two lines that follow
      each other in the log, or a line and a `--`. */
  predicate Fits(a: Item, b: Item) {
    if a.Line? && b.Line? then b.at == a.at + 1 else a.Line? || b.Line?
  }

  /** The lines at each side of a `--` do not follow each other in the log. */
  predicate Skips(a: Item, b: Item) {
    a.Line? && b.Line? && b.at != a.at + 1
  }

  predicate FitsAt(items: seq<Item>, i: nat) {
    i + 1 < |items| ==> Fits(items[i], items[i + 1])
  }

  predicate SkipsAt(items: seq<Item>, i: nat) {
    i < |items| && items[i].Gap? ==> 0 < i < |items| - 1 && Skips(items[i - 1], items[i + 1])
  }

  predicate Spaced(items: seq<Item>) {
    forall i: nat :: i < |items| ==> FitsAt(items, i) && SkipsAt(items, i)
  }

  /** The selection a reader is promised: the places near a match, each once and
      in log order, with `--` exactly where lines are left out. */
  ghost predicate Promised(hits: seq<bool>, context: nat, items: seq<Item>) {
    && Ascending(Places(items))
    && (forall k :: k in Places(items) <==> Near(hits, context, k))
    && Spaced(items)
  }

  // ---- What the code builds ----

  /** `sorted(keep)`, for places below `n`. */
  function SortedBelow(keep: set<nat>, n: nat): (ps: seq<nat>)
    ensures forall k :: k in ps <==> k in keep && k < n
    ensures forall i :: 0 <= i < |ps| ==> ps[i] < n
    ensures Ascending(ps)
  {
    if n == 0 then []
    else SortedBelow(keep, n - 1) + (if n - 1 in keep then [n - 1] else [])
  }

  function Interleave(ps: seq<nat>): (items: seq<Item>)
    ensures items == [] <==> ps == []
    ensures ps != [] ==> items[|items| - 1] == Line(ps[|ps| - 1])
  {
    if ps == [] then []
    else
      Interleave(ps[..|ps| - 1]) + Tail(ps)
  }

  lemma PlacesSnoc(items: seq<Item>, item: Item)
    ensures Places(items + [item]) == Places(items) + if item.Line? then [item.at] else []
  {
    assert (items + [item])[..|items|] == items;
  }

  /** What the last place adds. */
  function Tail(ps: seq<nat>): seq<Item>
    requires ps != []
  {
    var n := |ps|;
    (if n > 1 && ps[n - 1] != ps[n - 2] + 1 then [Gap] else []) + [Line(ps[n - 1])]
  }

  lemma SpacedLine(items: seq<Item>, p: nat)
    requires Spaced(items) && (items == [] || (items[|items| - 1].Line? && p == items[|items| - 1].at + 1))
    ensures Spaced(items + [Line(p)])
  {
    var all := items + [Line(p)];
    forall i: nat | i < |all| ensures FitsAt(all, i) && SkipsAt(all, i) {
      assert i < |items| ==> FitsAt(items, i) && SkipsAt(items, i);
    }
  }

  lemma SpacedGap(items: seq<Item>, p: nat)
    requires Spaced(items) && items != [] && items[|items| - 1].Line? && p != items[|items| - 1].at + 1
    ensures Spaced(items + [Gap, Line(p)])
  {
    var all := items + [Gap, Line(p)];
    forall i: nat | i < |all| ensures FitsAt(all, i) && SkipsAt(all, i) {
      assert i < |items| ==> FitsAt(items, i) && SkipsAt(items, i);
    }
  }

  lemma TailPlaces(ps: seq<nat>, init: seq<Item>)
    requires ps != []
    ensures Places(init + Tail(ps)) == Places(init) + [ps[|ps| - 1]]
  {
    var last := Line(ps[|ps| - 1]);
    if Tail(ps) == [last] {
      PlacesSnoc(init, last);
    } else {
      PlacesSnoc(init, Gap);
      PlacesSnoc(init + [Gap], last);
      assert init + Tail(ps) == init + [Gap] + [last];
    }
  }

  lemma TailSpaced(ps: seq<nat>, init: seq<Item>)
    requires ps != [] && Spaced(init)
    requires if |ps| == 1 then init == [] else init != [] && init[|init| - 1] == Line(ps[|ps| - 2])
    ensures Spaced(init + Tail(ps))
  {
    var last := Line(ps[|ps| - 1]);
    if |ps| > 1 && last.at != ps[|ps| - 2] + 1 {
      SpacedGap(init, last.at);
      assert Tail(ps) == [Gap, last];
    } else {
      SpacedLine(init, last.at);
      assert Tail(ps) == [last];
    }
  }

  lemma {:induction false} InterleaveShows(ps: seq<nat>)
    ensures Places(Interleave(ps)) == ps && Spaced(Interleave(ps))
  {
    if ps != [] {
      hide Spaced, Places, Tail;
      var init := ps[..|ps| - 1];
      InterleaveShows(init);
      TailPlaces(ps, Interleave(init));
      TailSpaced(ps, Interleave(init));
      assert ps == init + [ps[|ps| - 1]];
    } else {
      hide Tail;
    }
  }

  lemma {:induction false} PlacesAre(items: seq<Item>)
    ensures forall k :: k in Places(items) <==> Line(k) in items
  {
    if items != [] {
      PlacesAre(items[..|items| - 1]);
      assert items == items[..|items| - 1] + [items[|items| - 1]];
    }
  }

  lemma InterleaveInLog(ps: seq<nat>, n: nat)
    requires forall i :: 0 <= i < |ps| ==> ps[i] < n
    ensures InLog(Interleave(ps), n)
  {
    InterleaveShows(ps);
    PlacesAre(Interleave(ps));
    hide Interleave, Places, Spaced;
    var items := Interleave(ps);
    forall i | 0 <= i < |items| && items[i].Line? ensures items[i].at < n {
      assert Line(items[i].at) in items;
      assert items[i].at in ps;
    }
  }

  lemma SpacedPrefix(items: seq<Item>, n: nat)
    requires Spaced(items) && n <= |items| && (n == 0 || items[n - 1].Line?)
    ensures Spaced(items[..n])
  {
    forall i: nat | i < n ensures FitsAt(items[..n], i) && SkipsAt(items[..n], i) {
      assert FitsAt(items, i) && SkipsAt(items, i);
    }
  }

  /** Items spaced as promised are determined by the places they show. */
  lemma {:induction false} SpacingIsForced(items: seq<Item>)
    requires Spaced(items)
    ensures items == Interleave(Places(items))
  {
    if items != [] {
      var m := LastStart(items);
      SpacingIsForced(items[..m]);
      ForcedStep(items, m);
    }
  }

  /** Where the last line, with the `--` before it, begins. */
  lemma LastStart(items: seq<Item>) returns (m: nat)
    requires Spaced(items) && items != []
    ensures m < |items| && Spaced(items[..m]) && Ends(items, m)
  {
    var n := |items|;
    assert SkipsAt(items, n - 1);
    assert n > 1 ==> FitsAt(items, n - 2) && SkipsAt(items, n - 2);
    m := if n > 1 && items[n - 2].Gap? then n - 2 else n - 1;
    SpacedPrefix(items, m);
  }

  predicate Ends(items: seq<Item>, m: nat)
    requires m < |items|
  {
    var last := items[|items| - 1];
    && last.Line?
    && (m > 0 ==> items[m - 1].Line?)
    && if m == |items| - 1 then m > 0 ==> Fits(items[m - 1], last)
       else m == |items| - 2 && items[m].Gap? && m > 0 && Skips(items[m - 1], last)
  }

  lemma LastPlace(items: seq<Item>)
    requires items != [] && items[|items| - 1].Line?
    ensures Places(items) != [] && Places(items)[|Places(items)| - 1] == items[|items| - 1].at
  {
  }

  lemma TailIs(items: seq<Item>, m: nat, ps: seq<nat>)
    requires m < |items| && Ends(items, m) && ps != [] && ps[|ps| - 1] == items[|items| - 1].at
    requires if m == 0 then |ps| == 1 else |ps| > 1 && ps[|ps| - 2] == items[m - 1].at
    ensures items == items[..m] + Tail(ps)
  {
  }

  lemma ForcedStep(items: seq<Item>, m: nat)
    requires m < |items| && Ends(items, m) && items[..m] == Interleave(Places(items[..m]))
    ensures items == Interleave(Places(items))
  {
    var init := items[..m];
    var before := Places(init);
    var ps := before + [items[|items| - 1].at];
    if m > 0 {
      LastPlace(init);
    }
    assert Interleave(ps) == init + Tail(ps) by {
      assert ps[..|ps| - 1] == before;
    }
    assert m == 0 ==> before == [];
    hide Interleave, Places, Tail;
    TailPlaces(ps, init);
    TailIs(items, m, ps);
  }

  lemma {:induction false} AscendingIsForced(a: seq<nat>, b: seq<nat>)
    requires Ascending(a) && Ascending(b) && forall k :: k in a <==> k in b
    ensures a == b
  {
    assert a != [] ==> a[|a| - 1] in b;
    assert b != [] ==> b[|b| - 1] in a;
    if a != [] {
      var x, y := a[..|a| - 1], b[..|b| - 1];
      assert a[|a| - 1] == b[|b| - 1];
      assert forall k :: k in a <==> k in x || k == a[|a| - 1];
      assert forall k :: k in b <==> k in y || k == a[|a| - 1];
      AscendingIsForced(x, y);
    }
  }

  /** At most one selection is what a reader is promised. */
  lemma PromiseIsUnique(hits: seq<bool>, context: nat, a: seq<Item>, b: seq<Item>)
    requires Promised(hits, context, a) && Promised(hits, context, b)
    ensures a == b
  {
    AscendingIsForced(Places(a), Places(b));
    SpacingIsForced(a);
    SpacingIsForced(b);
  }

  /** The places near a match. */
  function KeptPlaces(hits: seq<bool>, context: nat): (ps: seq<nat>)
    ensures Ascending(ps)
    ensures forall k :: k in ps <==> Near(hits, context, k)
  {
    SortedBelow(set k: nat | 0 <= k < |hits| && Near(hits, context, k), |hits|)
  }

  /** The selection the code makes. */
  function Selection(hits: seq<bool>, context: nat): seq<Item> {
    Interleave(KeptPlaces(hits, context))
  }

  lemma SelectionIsPromised(hits: seq<bool>, context: nat)
    ensures Promised(hits, context, Selection(hits, context)) && InLog(Selection(hits, context), |hits|)
  {
    var ps := KeptPlaces(hits, context);
    InterleaveShows(ps);
    InterleaveInLog(ps, |hits|);
  }

  /** A list of items is what a reader is promised exactly when it is the one
      the code makes. */
  lemma SelectionIsThePromise(hits: seq<bool>, context: nat, items: seq<Item>)
    ensures Promised(hits, context, items) <==> items == Selection(hits, context)
  {
    SelectionIsPromised(hits, context);
    if Promised(hits, context, items) {
      PromiseIsUnique(hits, context, items, Selection(hits, context));
    }
  }

  // ---- The filter ----

  /** `s[-tail:]` */
  function Last<T>(s: seq<T>, tail: nat): (r: seq<T>)
    requires tail >= 1
    ensures |r| == if |s| <= tail then |s| else tail
    ensures r == s[|s| - |r|..]
  {
    if |s| <= tail then s else s[|s| - tail..]
  }

  function Span(from: nat, to: nat): (s: set<nat>)
    ensures forall k :: k in s <==> from <= k < to
  {
    if to <= from then {} else Span(from, to - 1) + {to - 1}
  }

  method Keep(hits: seq<bool>, context: nat) returns (keep: set<nat>)
    ensures keep == set k: nat | 0 <= k < |hits| && Near(hits, context, k)
  {
    keep := {};
    for index := 0 to |hits|
      invariant forall k :: k in keep <==> NearAny(hits, index, context, k)
    {
      if hits[index] {
        var from := if index < context then 0 else index - context;
        var to := if index + context + 1 < |hits| then index + context + 1 else |hits|;
        keep := keep + Span(from, to);
      }
    }
  }

  /** How the last place is written after what is already there. */
  lemma TailWritten(lines: seq<string>, ps: seq<nat>, before: seq<Item>)
    requires ps != [] && ps[|ps| - 1] < |lines| && InLog(before, |lines|)
    ensures InLog(before + Tail(ps), |lines|)
    ensures AllWritten(lines, before + Tail(ps)) == AllWritten(lines, before) +
      (if |ps| > 1 && ps[|ps| - 1] != ps[|ps| - 2] + 1 then ["--"] else []) + [lines[ps[|ps| - 1]]]
  {
    var last := Line(ps[|ps| - 1]);
    if |ps| > 1 && ps[|ps| - 1] != ps[|ps| - 2] + 1 {
      WrittenAppend(lines, before, Gap);
      WrittenAppend(lines, before + [Gap], last);
      assert before + Tail(ps) == before + [Gap] + [last];
    } else {
      WrittenAppend(lines, before, last);
      assert before + Tail(ps) == before + [last];
    }
    hide AllWritten, InLog;
  }

  method Pick(lines: seq<string>, ps: seq<nat>) returns (picked: seq<string>)
    requires forall i :: 0 <= i < |ps| ==> ps[i] < |lines|
    ensures InLog(Interleave(ps), |lines|)
    ensures picked == AllWritten(lines, Interleave(ps))
  {
    InterleaveInLog(ps, |lines|);
    hide InLog, AllWritten, Tail;
    picked := [];
    var previous: int := -2;
    for i := 0 to |ps|
      invariant InLog(Interleave(ps[..i]), |lines|)
      invariant picked == AllWritten(lines, Interleave(ps[..i]))
      invariant i > 0 ==> previous == ps[i - 1]
    {
      var index := ps[i];
      InterleaveInLog(ps[..i + 1], |lines|);
      TailWritten(lines, ps[..i + 1], Interleave(ps[..i]));
      assert ps[..i + 1][..i] == ps[..i];
      assert |picked| == |Interleave(ps[..i])|;
      if index != previous + 1 && picked != [] {
        picked := picked + ["--"];
      }
      picked := picked + [lines[index]];
      previous := index;
    }
    assert ps[..|ps|] == ps;
  }

  lemma WrittenAppend(lines: seq<string>, items: seq<Item>, item: Item)
    requires InLog(items, |lines|) && (item.Line? ==> item.at < |lines|)
    ensures InLog(items + [item], |lines|)
    ensures AllWritten(lines, items + [item]) == AllWritten(lines, items) + [Written(lines, item)]
  {
  }

  lemma WrittenLast(lines: seq<string>, items: seq<Item>, tail: nat)
    requires InLog(items, |lines|) && tail >= 1
    ensures InLog(Last(items, tail), |lines|)
    ensures Last(AllWritten(lines, items), tail) == AllWritten(lines, Last(items, tail))
  {
    hide Written;
  }

  /** The last `tail` lines of the log, or of the selection when there is a
      pattern; `hits`: which lines it matches. */
  method FilterLog(lines: seq<string>, hits: Option<seq<bool>>, context: nat, tail: nat) returns (out: seq<string>)
    requires hits.Some? ==> |hits.value| == |lines|
    requires tail >= 1
    ensures hits.None? ==> out == Last(lines, tail)
    ensures hits.Some? ==>
      && InLog(Last(Selection(hits.value, context), tail), |lines|)
      && out == AllWritten(lines, Last(Selection(hits.value, context), tail))
  {
    if hits.None? {
      return Last(lines, tail);
    }
    SelectionIsPromised(hits.value, context);
    hide InLog, Interleave, SortedBelow, NearAny;
    var keep := Keep(hits.value, context);
    var picked := Pick(lines, SortedBelow(keep, |lines|));
    out := Last(picked, tail);
    WrittenLast(lines, Selection(hits.value, context), tail);
  }

  // ---- Where the cut falls on a `--` ----

  predicate KeptFrom(hits: seq<bool>, context: nat, k: nat) {
    exists m: nat :: k <= m < |hits| && Near(hits, context, m)
  }

  /** Line `k` is near a match and the next one is not, though a later one is: a
      `--` follows it. */
  predicate BreaksAfter(hits: seq<bool>, context: nat, k: nat) {
    Near(hits, context, k) && !Near(hits, context, k + 1) && KeptFrom(hits, context, k + 1)
  }

  /** How many entries the lines from `k` on take: the lines near a match, and
      the breaks among them. */
  function EntriesFrom(hits: seq<bool>, context: nat, k: nat): nat
    decreases |hits| - k
  {
    if k >= |hits| then 0
    else
      EntriesFrom(hits, context, k + 1)
      + (if Near(hits, context, k) then 1 else 0) + (if BreaksAfter(hits, context, k) then 1 else 0)
  }

  /** What the first place stands before. */
  function Lead(a: nat, ps: seq<nat>): seq<Item> {
    [Line(a)] + (if ps != [] && ps[0] != a + 1 then [Gap] else [])
  }

  lemma InterleaveOne(a: nat)
    ensures Interleave([a]) == [Line(a)]
  {
    assert [a][..0] == [];
  }

  lemma InterleaveTwo(a: nat, b: nat)
    ensures Interleave([a, b]) == Lead(a, [b]) + [Line(b)]
  {
    InterleaveOne(a);
    assert [a, b][..1] == [a];
  }

  lemma {:induction false} InterleaveFirst(a: nat, ps: seq<nat>)
    ensures Interleave([a] + ps) == Lead(a, ps) + Interleave(ps)
  {
    if ps == [] {
      InterleaveOne(a);
      assert [a] + ps == [a];
    } else if |ps| == 1 {
      InterleaveOne(ps[0]);
      InterleaveTwo(a, ps[0]);
      assert ps == [ps[0]] && [a] + ps == [a, ps[0]];
    } else {
      var init, x := ps[..|ps| - 1], ps[|ps| - 1];
      InterleaveFirst(a, init);
      LeadStays(a, init, x);
      assert ps == init + [x] && [a] + ps == [a] + init + [x];
      hide Interleave;
      assert Lead(a, init) == Lead(a, ps);
    }
  }

  lemma LeadStays(a: nat, init: seq<nat>, x: nat)
    requires init != [] && Interleave([a] + init) == Lead(a, init) + Interleave(init)
    ensures Interleave([a] + init + [x]) == Lead(a, init) + Interleave(init + [x])
  {
    InterleaveSnoc([a] + init, x);
    InterleaveSnoc(init, x);
    SameTail(a, init, x);
    Regroup(Lead(a, init), Interleave(init), Tail(init + [x]));
    hide *;
  }

  lemma Regroup(a: seq<Item>, b: seq<Item>, c: seq<Item>)
    ensures a + b + c == a + (b + c)
  {
  }

  lemma InterleaveSnoc(init: seq<nat>, x: nat)
    ensures Interleave(init + [x]) == Interleave(init) + Tail(init + [x])
  {
    assert (init + [x])[..|init|] == init;
  }

  lemma SameTail(a: nat, init: seq<nat>, x: nat)
    requires init != []
    ensures Tail([a] + init + [x]) == Tail(init + [x])
  {
  }

  /** A stretch of lines none of which is near a match takes no entry. */
  lemma {:induction false} NoEntries(hits: seq<bool>, context: nat, k: nat, m: nat)
    requires k <= m <= |hits| && forall x: nat :: k <= x < m ==> !Near(hits, context, x)
    ensures EntriesFrom(hits, context, k) == EntriesFrom(hits, context, m)
    decreases m - k
  {
    hide NearAny;
    if k < m {
      NoEntries(hits, context, k + 1, m);
    }
  }

  ghost predicate NextKept(hits: seq<bool>, context: nat, k: nat, ps: seq<nat>) {
    forall x: nat :: x >= k ==> (Near(hits, context, x) <==> x in ps)
  }

  lemma NearInLog(hits: seq<bool>, context: nat)
    ensures forall x: nat :: Near(hits, context, x) ==> x < |hits|
  {
  }

  /** The kept places from one on interleave to as many entries as they take. */
  lemma {:induction false} EntriesCount(hits: seq<bool>, context: nat, k: nat, ps: seq<nat>)
    requires k <= |hits| && Ascending(ps) && (forall x :: x in ps ==> k <= x) && NextKept(hits, context, k, ps)
    ensures |Interleave(ps)| == EntriesFrom(hits, context, k)
    decreases |ps|
  {
    NearInLog(hits, context);
    hide NearAny;
    if ps == [] {
      NoEntries(hits, context, k, |hits|);
    } else {
      var a, rest := ps[0], ps[1..];
      assert a in ps;
      RestKept(hits, context, k, ps);
      NoEntries(hits, context, k, a);
      BreakHere(hits, context, k, ps);
      EntriesCount(hits, context, a + 1, rest);
      InterleaveFirst(a, rest);
      assert ps == [a] + rest;
      hide Interleave, NextKept, BreaksAfter;
    }
  }

  lemma RestKept(hits: seq<bool>, context: nat, k: nat, ps: seq<nat>)
    requires ps != [] && Ascending(ps) && (forall x :: x in ps ==> k <= x) && NextKept(hits, context, k, ps)
    ensures var rest := ps[1..];
      Ascending(rest) && (forall x :: x in rest ==> ps[0] + 1 <= x) && NextKept(hits, context, ps[0] + 1, rest)
    ensures forall x: nat :: k <= x < ps[0] ==> !Near(hits, context, x)
  {
    hide NearAny;
    var rest := ps[1..];
    assert forall x :: x in ps <==> x == ps[0] || x in rest;
    assert ps[0] in ps;
    forall x: nat | x >= ps[0] + 1 ensures Near(hits, context, x) <==> x in rest {
      assert x >= k;
    }
    forall x | x in rest ensures ps[0] + 1 <= x {
      var i :| 0 <= i < |rest| && rest[i] == x;
      assert ps[i + 1] == x && ps[0] < ps[i + 1];
    }
  }

  lemma BreakHere(hits: seq<bool>, context: nat, k: nat, ps: seq<nat>)
    requires ps != [] && Ascending(ps) && (forall x :: x in ps ==> k <= x) && NextKept(hits, context, k, ps)
    ensures BreaksAfter(hits, context, ps[0]) <==> |ps| > 1 && ps[1] != ps[0] + 1
  {
    NearInLog(hits, context);
    hide NearAny;
    RestKept(hits, context, k, ps);
    var rest := ps[1..];
    assert ps[0] in ps;
    if |ps| > 1 {
      assert rest[0] == ps[1] && rest[0] in rest && rest[0] in ps;
      assert Near(hits, context, ps[1]);
      assert ps[0] + 1 in rest ==> ps[1] == ps[0] + 1 by {
        if ps[0] + 1 in rest {
          var i :| 0 <= i < |rest| && rest[i] == ps[0] + 1;
          assert rest[0] <= rest[i];
        }
      }
      assert ps[0] + 1 in rest <==> Near(hits, context, ps[0] + 1);
    } else {
      assert rest == [];
    }
  }

  /** Walking down the kept places: the item that is `tail` from the end is a `--`
      exactly when a break leaves `tail - 1` entries after it. */
  lemma {:induction false} GapAt(hits: seq<bool>, context: nat, tail: nat, k: nat, ps: seq<nat>)
    requires tail >= 1 && k <= |hits| && Ascending(ps) && (forall x :: x in ps ==> k <= x)
    requires NextKept(hits, context, k, ps)
    ensures var all := Interleave(ps);
      |all| >= tail && all[|all| - tail].Gap? <==>
        exists m: nat :: k <= m && BreaksAfter(hits, context, m) && EntriesFrom(hits, context, m + 1) == tail - 1
    decreases |ps|
  {
    hide NearAny, BreaksAfter, EntriesFrom, NextKept, Interleave, Lead, Tail;
    if ps == [] {
      InterleaveNone();
      NoBreak(hits, context, k);
    } else {
      var a, rest := ps[0], ps[1..];
      assert a in ps;
      RestKept(hits, context, k, ps);
      NearBounds(hits, context, k, ps);
      GapAt(hits, context, tail, a + 1, rest);
      EntriesCount(hits, context, a + 1, rest);
      BreakHere(hits, context, k, ps);
      InterleaveFirst(a, rest);
      assert ps == [a] + rest;
      BreaksFrom(hits, context, k, a);
      GapInFront(a, BreaksAfter(hits, context, a), Interleave(rest), tail);
      LeadIs(a, rest, BreaksAfter(hits, context, a));
    }
  }

  lemma InterleaveNone()
    ensures Interleave([]) == []
  {
  }

  lemma LeadIs(a: nat, ps: seq<nat>, breaks: bool)
    requires breaks <==> ps != [] && ps[0] != a + 1
    ensures Lead(a, ps) == [Line(a)] + if breaks then [Gap] else []
  {
  }

  lemma GapInFront(a: nat, breaks: bool, after: seq<Item>, tail: nat)
    requires tail >= 1
    ensures var all := [Line(a)] + (if breaks then [Gap] else []) + after;
      (|all| >= tail && all[|all| - tail].Gap?) <==>
        (|after| >= tail && after[|after| - tail].Gap?) || (breaks && |after| == tail - 1)
  {
  }

  lemma NoBreak(hits: seq<bool>, context: nat, k: nat)
    requires NextKept(hits, context, k, [])
    ensures forall m: nat :: k <= m ==> !BreaksAfter(hits, context, m)
  {
    hide NearAny;
  }

  lemma NearBounds(hits: seq<bool>, context: nat, k: nat, ps: seq<nat>)
    requires ps != [] && NextKept(hits, context, k, ps) && k <= ps[0]
    ensures ps[0] < |hits|
  {
    assert ps[0] in ps;
  }

  lemma BreaksFrom(hits: seq<bool>, context: nat, k: nat, a: nat)
    requires k <= a && forall x: nat :: k <= x < a ==> !Near(hits, context, x)
    ensures forall m: nat :: k <= m && BreaksAfter(hits, context, m) ==> m == a || a + 1 <= m
  {
    hide NearAny;
  }

  /** The cut may fall on a `--`: the answer then opens with one, and shows one
      log line less than asked for. That happens exactly when some line near a
      match has its successor left out and the lines after it take `tail - 1`
      entries. */
  lemma OpensWithDashesExactly(hits: seq<bool>, context: nat, tail: nat)
    requires tail >= 1
    ensures var shown := Last(Selection(hits, context), tail);
      shown != [] && shown[0].Gap? <==>
        exists k: nat :: BreaksAfter(hits, context, k) && EntriesFrom(hits, context, k + 1) == tail - 1
  {
    SelectionIsPromised(hits, context);
    assert SkipsAt(Selection(hits, context), 0);
    hide NearAny, BreaksAfter, EntriesFrom;
    var ps := KeptPlaces(hits, context);
    assert NextKept(hits, context, 0, ps);
    GapAt(hits, context, tail, 0, ps);
  }

  lemma FirstAndThird(hits: seq<bool>)
    requires |hits| == 3 && hits[0] && !hits[1] && hits[2]
    ensures forall k: nat :: Near(hits, 0, k) <==> k in {0, 2}
  {
  }

  lemma SortsTo(keep: set<nat>)
    requires 0 in keep && 1 !in keep && 2 in keep
    ensures SortedBelow(keep, 3) == [0, 2]
  {
    assert SortedBelow(keep, 1) == [0];
    assert SortedBelow(keep, 2) == [0];
  }

  lemma TwoApart()
    ensures Interleave([0, 2]) == [Line(0), Gap, Line(2)]
  {
    assert [0, 2][..1] == [0];
    assert Interleave([0]) == [Line(0)];
  }

  /** Asking for two entries of a log whose first and third lines match. */
  lemma CutOnDashes()
    ensures Last(Selection([true, false, true], 0), 2) == [Gap, Line(2)]
  {
    hide NearAny, SortedBelow, Interleave;
    var hits := [true, false, true];
    FirstAndThird(hits);
    var keep := set k: nat | 0 <= k < |hits| && Near(hits, 0, k);
    SortsTo(keep);
    TwoApart();
  }
}
