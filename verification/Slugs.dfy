/** Names made from what people type, and names nobody has taken
    (backend/app/datasets/editor.py, backend/app/api/objectives.py). */
module Slugs {
  import opened Text

  predicate AlphaNum(c: char) { 'a' <= c <= 'z' || '0' <= c <= '9' }

  predicate Dash(c: char) { c == '-' || c == '_' }

  predicate SlugChar(c: char) { AlphaNum(c) || Dash(c) }

  predicate AllSlugChars(s: string) {
    forall i :: 0 <= i < |s| ==> SlugChar(s[i])
  }

  /** The names the pattern spells out. */
  predicate Strict(s: string) {
    1 <= |s| <= 64 && AlphaNum(s[0]) && AllSlugChars(s)
  }

  /** What it matches: its `$` also matches before a line feed at the end. */
  predicate ValidSlug(s: string) {
    Strict(s) || (s != "" && s[|s| - 1] == '\n' && Strict(s[..|s| - 1]))
  }

  // ---- From a text to a name ----

  /** Every run of other characters becomes one hyphen. */
  function Hyphenated(s: string): (r: string)
    ensures AllSlugChars(r)
  {
    if s == "" then ""
    else
      var init, c := s[..|s| - 1], s[|s| - 1];
      if SlugChar(c) then Hyphenated(init) + [c]
      else if init != "" && !SlugChar(init[|init| - 1]) then Hyphenated(init)
      else Hyphenated(init) + "-"
  }

  /** Every run of two or more hyphens becomes one. */
  function Single(s: string): (r: string)
    ensures |r| <= |s| && (s != "" ==> r != "" && r[|r| - 1] == s[|s| - 1] && r[0] == s[0])
    ensures AllSlugChars(s) ==> AllSlugChars(r)
  {
    if s == "" then ""
    else
      var init, c := s[..|s| - 1], s[|s| - 1];
      if c == '-' && init != "" && init[|init| - 1] == '-' then Single(init) else Single(init) + [c]
  }

  predicate NoDouble(s: string) {
    forall i: nat :: i < |s| ==> !DoubleAt(s, i)
  }

  predicate DoubleAt(s: string, i: nat) {
    i + 1 < |s| && s[i] == '-' && s[i + 1] == '-'
  }

  lemma {:induction false} SingleHasNoDouble(s: string)
    ensures NoDouble(Single(s))
  {
    if s != "" {
      var init := Single(s[..|s| - 1]);
      SingleHasNoDouble(s[..|s| - 1]);
      forall i: nat | i < |Single(s)| ensures !DoubleAt(Single(s), i) {
        assert i < |init| ==> !DoubleAt(init, i);
      }
    }
  }

  function DropLast(s: string): (r: string)
    ensures r <= s && (r == "" || !Dash(r[|r| - 1]))
    ensures s == "" || !Dash(s[|s| - 1]) ==> r == s
    ensures s != "" && !Dash(s[0]) ==> r != ""
  {
    if s != "" && Dash(s[|s| - 1]) then DropLast(s[..|s| - 1]) else s
  }

  function DropFirst(s: string): (r: string)
    ensures |r| <= |s| && r == s[|s| - |r|..] && (r == "" || !Dash(r[0]))
    ensures s == "" || !Dash(s[0]) ==> r == s
  {
    if s != "" && Dash(s[0]) then DropFirst(s[1..]) else s
  }

  function Cut(s: string, n: nat): (r: string)
    ensures r <= s && |r| <= n && (|s| <= n ==> r == s)
    ensures n > 0 && s != "" ==> r != ""
  {
    if |s| <= n then s else s[..n]
  }

  /** `lowered`: the text after `str.lower()`. */
  function SlugFor(lowered: string): string {
    var slug := DropLast(DropFirst(Hyphenated(lowered)));
    var short := DropLast(Cut(Single(slug), 64));
    if short == "" then "dataset" else short
  }

  /** Names in the form the function gives: no dash at either end, no two
      hyphens in a row. */
  predicate Normal(s: string) {
    Strict(s) && !Dash(s[|s| - 1]) && NoDouble(s)
  }

  lemma PrefixKeeps(s: string, n: nat)
    requires n <= |s| && AllSlugChars(s) && NoDouble(s)
    ensures AllSlugChars(s[..n]) && NoDouble(s[..n])
  {
    forall i: nat | i < n ensures !DoubleAt(s[..n], i) {
      assert !DoubleAt(s, i);
    }
  }

  /** Whatever is typed, the name is one LLMBench accepts, in normal form. */
  lemma AlwaysNormal(lowered: string)
    ensures Normal(SlugFor(lowered)) && ValidSlug(SlugFor(lowered))
  {
    hide Hyphenated, Single, DropLast, DropFirst, Cut, NoDouble, AllSlugChars, SlugChar;
    var h := Hyphenated(lowered);
    var slug := DropLast(DropFirst(h));
    var tail := DropFirst(h);
    SliceKeeps(h, |h| - |tail|, |h|);
    assert tail == h[|h| - |tail|..|h|];
    SliceKeeps(tail, 0, |slug|);
    assert slug == tail[0..|slug|];
    ShortIsNormal(slug);
    DefaultIsNormal();
  }

  lemma SliceKeeps(s: string, i: nat, j: nat)
    requires i <= j <= |s| && AllSlugChars(s)
    ensures AllSlugChars(s[i..j])
  {
  }

  lemma DefaultIsNormal()
    ensures Normal("dataset")
  {
    assert NoDouble("dataset");
  }

  lemma ShortIsNormal(slug: string)
    requires AllSlugChars(slug) && (slug == "" || !Dash(slug[0]))
    ensures var short := DropLast(Cut(Single(slug), 64)); short == "" || Normal(short)
  {
    var single := Single(slug);
    var short := DropLast(Cut(single, 64));
    SingleHasNoDouble(slug);
    hide Single, DropLast, Cut, NoDouble;
    PrefixKeeps(single, |short|);
    assert short == single[..|short|];
    assert short != "" ==> SlugChar(short[0]);
  }

  lemma {:induction false} HyphenatedKeeps(s: string)
    requires AllSlugChars(s)
    ensures Hyphenated(s) == s
  {
    if s != "" {
      HyphenatedKeeps(s[..|s| - 1]);
      assert s == s[..|s| - 1] + [s[|s| - 1]];
    }
  }

  lemma {:induction false} SingleKeeps(s: string)
    requires NoDouble(s)
    ensures Single(s) == s
  {
    if s != "" {
      var init := s[..|s| - 1];
      forall i: nat | i < |init| ensures !DoubleAt(init, i) {
        assert !DoubleAt(s, i);
      }
      assert |init| > 0 ==> !DoubleAt(s, |s| - 2);
      SingleKeeps(init);
      assert s == init + [s[|s| - 1]];
    }
  }

  /** A text is its own name exactly when it is in normal form. */
  lemma FixedExactlyWhenNormal(s: string)
    ensures SlugFor(s) == s <==> Normal(s)
  {
    AlwaysNormal(s);
    if Normal(s) {
      HyphenatedKeeps(s);
      SingleKeeps(s);
      assert !Dash(s[0]);
      hide Hyphenated, Single, DropLast, DropFirst, Cut, NoDouble, AllSlugChars;
      assert DropLast(DropFirst(s)) == s;
      assert DropLast(Cut(s, 64)) == s;
    }
  }

  /** So naming a name changes nothing. */
  lemma NamingTwice(lowered: string)
    ensures SlugFor(SlugFor(lowered)) == SlugFor(lowered)
  {
    AlwaysNormal(lowered);
    FixedExactlyWhenNormal(SlugFor(lowered));
  }

  // ---- Numbers written out ----

  function Decimal(n: nat): (s: string)
    ensures s != "" && forall i :: 0 <= i < |s| ==> '0' <= s[i] <= '9'
  {
    (if n < 10 then "" else Decimal(n / 10)) + [('0' as int + n % 10) as char]
  }

  lemma {:induction false} DecimalDistinct(a: nat, b: nat)
    requires Decimal(a) == Decimal(b)
    ensures a == b
  {
    var s, t := Decimal(a), Decimal(b);
    assert s[|s| - 1] == t[|t| - 1] && s[..|s| - 1] == t[..|t| - 1];
    assert s[..|s| - 1] == if a < 10 then "" else Decimal(a / 10);
    assert t[..|t| - 1] == if b < 10 then "" else Decimal(b / 10);
    if a >= 10 && b >= 10 {
      DecimalDistinct(a / 10, b / 10);
    }
  }

  lemma DecimalLength(n: nat)
    requires n < 1000
    ensures |Decimal(n)| <= 3
  {
    assert n < 10 ==> |Decimal(n)| == 1;
    assert n >= 10 ==> |Decimal(n)| == |Decimal(n / 10)| + 1;
    assert n >= 100 ==> |Decimal(n / 10)| == |Decimal(n / 10 / 10)| + 1;
    assert n / 10 / 10 < 10;
  }

  // ---- A name nobody has taken ----

  function Candidate(base: string, n: nat): string {
    Cut(base, 60) + "-" + Decimal(n)
  }

  lemma CandidateDistinct(base: string, a: nat, b: nat)
    requires Candidate(base, a) == Candidate(base, b)
    ensures a == b
  {
    var k := |Cut(base, 60)| + 1;
    assert Candidate(base, a)[k..] == Decimal(a) && Candidate(base, b)[k..] == Decimal(b);
    DecimalDistinct(a, b);
  }

  function Candidates(base: string, lo: nat, hi: nat): set<string>
    requires lo <= hi
    decreases hi
  {
    if lo == hi then {} else Candidates(base, lo, hi - 1) + {Candidate(base, hi - 1)}
  }

  lemma {:induction false} CandidatesAre(base: string, lo: nat, hi: nat)
    requires lo <= hi
    ensures forall s :: s in Candidates(base, lo, hi) <==> exists n :: lo <= n < hi && s == Candidate(base, n)
    decreases hi
  {
    hide Candidate;
    if lo < hi {
      CandidatesAre(base, lo, hi - 1);
    }
  }

  /** The candidates are as many as the numbers tried. */
  lemma {:induction false} CandidatesCount(base: string, lo: nat, hi: nat)
    requires lo <= hi
    ensures |Candidates(base, lo, hi)| == hi - lo
    decreases hi
  {
    hide Candidate;
    if lo < hi {
      CandidatesCount(base, lo, hi - 1);
      NewCandidate(base, lo, hi - 1);
    }
  }

  lemma NewCandidate(base: string, lo: nat, n: nat)
    requires lo <= n
    ensures Candidate(base, n) !in Candidates(base, lo, n)
  {
    var all := Candidates(base, lo, n);
    CandidatesAre(base, lo, n);
    hide Candidate, Candidates;
    if Candidate(base, n) in all {
      var k :| lo <= k < n && Candidate(base, n) == Candidate(base, k);
      CandidateDistinct(base, n, k);
    }
  }

  lemma SubsetSize(a: set<string>, b: set<string>)
    requires a <= b
    ensures |a| <= |b|
  {
    assert b == a + (b - a);
  }

  /** The first number from `n` whose candidate is free. */
  function FirstFree(base: string, taken: set<string>, n: nat): (r: Option<string>)
    requires n <= 1000
    ensures r.Some? ==> r.value !in taken && exists k :: n <= k < 1000 && r.value == Candidate(base, k)
    ensures r.None? ==> forall k :: n <= k < 1000 ==> Candidate(base, k) in taken
    decreases 1000 - n
  {
    if n == 1000 then None
    else if Candidate(base, n) !in taken then Some(Candidate(base, n))
    else FirstFree(base, taken, n + 1)
  }

  /** None: the search gives up with an error. */
  function UnusedSlug(base: string, taken: set<string>): Option<string> {
    if base !in taken then Some(base) else FirstFree(base, taken, 2)
  }

  method FindUnusedSlug(base: string, taken: set<string>) returns (r: Option<string>)
    ensures r == UnusedSlug(base, taken)
  {
    if base !in taken {
      return Some(base);
    }
    for n := 2 to 1000
      invariant UnusedSlug(base, taken) == FirstFree(base, taken, n)
    {
      if Candidate(base, n) !in taken {
        return Some(Candidate(base, n));
      }
    }
    return None;
  }

  lemma NeverWithFewer(base: string, taken: set<string>, lo: nat, hi: nat)
    requires lo <= hi && |taken| < hi - lo
    ensures !(Candidates(base, lo, hi) <= taken)
  {
    hide Candidates;
    CandidatesCount(base, lo, hi);
    if Candidates(base, lo, hi) <= taken {
      SubsetSize(Candidates(base, lo, hi), taken);
    }
  }

  /** It gives up exactly when the base and every candidate are taken, so never
      with fewer than 998 names taken. */
  lemma GivesUpExactlyWhenAllTaken(base: string, taken: set<string>)
    ensures UnusedSlug(base, taken).None? <==> {base} + Candidates(base, 2, 1000) <= taken
    ensures |taken| < 998 ==> UnusedSlug(base, taken).Some?
  {
    hide FirstFree, Candidates, Candidate;
    CandidatesAre(base, 2, 1000);
    if |taken| < 998 {
      NeverWithFewer(base, taken, 2, 1000);
    }
    if UnusedSlug(base, taken).None? {
      forall s | s in Candidates(base, 2, 1000) ensures s in taken {}
    } else if base in taken {
      var k :| 2 <= k < 1000 && UnusedSlug(base, taken).value == Candidate(base, k);
      assert Candidate(base, k) in Candidates(base, 2, 1000);
    }
  }

  lemma CandidateChars(base: string, n: nat)
    requires 2 <= n < 1000 && base != ""
    ensures var c := Candidate(base, n);
      && |c| <= 64 && c[0] == base[0] && c[|c| - 1] != '\n'
      && (AllSlugChars(c) <==> AllSlugChars(Cut(base, 60)))
  {
    DecimalLength(n);
    var head, d, c := Cut(base, 60), Decimal(n), Candidate(base, n);
    assert c == head + "-" + d;
    assert forall i :: 0 <= i < |head| ==> c[i] == head[i];
    assert c[|head|] == '-';
    assert forall i :: |head| < i < |c| ==> c[i] == d[i - |head| - 1];
    hide Decimal, Candidate, Cut;
    if AllSlugChars(c) {
      forall i | 0 <= i < |head| ensures SlugChar(head[i]) {
        assert SlugChar(c[i]);
      }
    }
  }

  lemma CandidateValidExactly(base: string, n: nat)
    requires ValidSlug(base) && 2 <= n < 1000
    ensures ValidSlug(Candidate(base, n)) <==> Strict(base) || |base| > 60
    ensures |Candidate(base, n)| <= 64
  {
    CandidateChars(base, n);
    var head := Cut(base, 60);
    assert head == if |base| <= 60 then base else base[..60];
    hide Candidate, Cut;
    if Strict(base) {
      SliceKeeps(base, 0, |head|);
    } else if |base| > 60 {
      SliceKeeps(base[..|base| - 1], 0, 60);
      assert head == base[..|base| - 1][..60];
    } else {
      assert head[|base| - 1] == '\n' && !SlugChar('\n');
    }
  }

  /** What is found is free; and for a base that is a valid name it is a valid
      name exactly when the base has no line feed at its end, is returned as it
      is, or is cut before the line feed. What is made from it has at most 64
      characters. */
  lemma UnusedIsValidExactly(base: string, taken: set<string>)
    requires ValidSlug(base) && UnusedSlug(base, taken).Some?
    ensures var r := UnusedSlug(base, taken).value;
      && r !in taken
      && (ValidSlug(r) <==> Strict(base) || base !in taken || |base| > 60)
      && (Strict(base) || base in taken ==> |r| <= 64)
  {
    if base in taken {
      hide Candidate, FirstFree, Strict;
      var n :| 2 <= n < 1000 && UnusedSlug(base, taken).value == Candidate(base, n);
      CandidateValidExactly(base, n);
    }
  }

  // ---- The name of a copy ----

  function CopyName(source: string, n: nat): string {
    if n < 2 then source + " (copy)" else source + " (copy " + Decimal(n) + ")"
  }

  /** A copy's name is the source's with `(copy)`, or with `(copy 2)` and so on,
      behind it. */
  lemma FirstCopies(source: string)
    ensures CopyName(source, 1) == source + " (copy)"
    ensures CopyName(source, 2) == source + " (copy 2)" && CopyName(source, 10) == source + " (copy 10)"
  {
    assert Decimal(2) == "2" && Decimal(1) == "1" && Decimal(10) == Decimal(1) + "0";
    assert source + " (copy 2)" == source + " (copy " + "2" + ")";
    assert source + " (copy 10)" == source + " (copy " + "10" + ")";
  }

  lemma CopyShape(source: string, n: nat)
    ensures |CopyName(source, n)| > |source| + 6
    ensures CopyName(source, n)[|source| + 6] == if n >= 2 then ' ' else ')'
    ensures n >= 2 ==> CopyName(source, n)[|source| + 7..|CopyName(source, n)| - 1] == Decimal(n)
  {
  }

  lemma CopyDistinct(source: string, a: nat, b: nat)
    requires 1 <= a && 1 <= b && CopyName(source, a) == CopyName(source, b)
    ensures a == b
  {
    CopyShape(source, a);
    CopyShape(source, b);
    hide CopyName, Decimal;
    if a >= 2 && b >= 2 {
      DecimalDistinct(a, b);
    }
  }

  /** Given a name, that name unless it is taken; given none, the first of the
      copy names that is free. There is always one: each name tried uses up one
      of those taken. */
  method DuplicateName(given: string, source: string, taken: set<string>) returns (r: Option<string>)
    ensures Strip(given) != "" ==> r == if Strip(given) in taken then None else Some(Strip(given))
    ensures Strip(given) == "" ==> r.Some? && r.value !in taken && exists n: nat :: FirstCopy(source, taken, n, r.value)
  {
    hide CopyName, Strip;
    if Strip(given) != "" {
      return if Strip(given) in taken then None else Some(Strip(given));
    }
    var name, n := CopyName(source, 1), 2;
    ghost var tried: set<string> := {};
    while name in taken
      invariant n >= 2 && name == CopyName(source, n - 1)
      invariant tried <= taken && tried == Tried(source, n - 1)
      decreases |taken - tried|
    {
      NotYetTried(source, n - 1);
      tried := tried + {name};
      name := CopyName(source, n);
      n := n + 1;
    }
    assert FirstCopy(source, taken, n - 1, name);
    r := Some(name);
  }

  function Tried(source: string, n: nat): (s: set<string>)
    ensures forall k :: 1 <= k < n ==> CopyName(source, k) in s
    ensures forall x :: x in s ==> exists k :: 1 <= k < n && x == CopyName(source, k)
  {
    if n <= 1 then {} else Tried(source, n - 1) + {CopyName(source, n - 1)}
  }

  lemma NotYetTried(source: string, n: nat)
    requires n >= 1
    ensures CopyName(source, n) !in Tried(source, n)
  {
    if CopyName(source, n) in Tried(source, n) {
      var k :| 1 <= k < n && CopyName(source, n) == CopyName(source, k);
      CopyDistinct(source, n, k);
    }
  }

  predicate FirstCopy(source: string, taken: set<string>, n: nat, name: string) {
    n >= 1 && name == CopyName(source, n) && forall k :: 1 <= k < n ==> CopyName(source, k) in taken
  }

  /** So the plain `(copy)` is taken whenever it is free, then `(copy 2)`. */
  lemma EarliestCopy(source: string, taken: set<string>, n: nat, name: string)
    requires FirstCopy(source, taken, n, name) && name !in taken
    ensures source + " (copy)" !in taken <==> name == source + " (copy)"
    ensures source + " (copy)" in taken && source + " (copy 2)" !in taken ==> name == source + " (copy 2)"
  {
    FirstCopies(source);
    hide CopyName;
    assert n > 1 ==> CopyName(source, 1) in taken;
    assert n > 2 ==> CopyName(source, 2) in taken;
  }
}
