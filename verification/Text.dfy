/** The few string operations the command line and the report share. */
module Text {

  datatype Option<+T> = None | Some(value: T)

  /** What `str.isspace` and `\s` accept. */
  predicate IsSpace(c: char) {
    || '\U{0009}' <= c <= '\U{000D}'
    || '\U{001C}' <= c <= '\U{0020}'
    || c == '\U{0085}' || c == '\U{00A0}' || c == '\U{1680}'
    || '\U{2000}' <= c <= '\U{200A}'
    || c == '\U{2028}' || c == '\U{2029}' || c == '\U{202F}' || c == '\U{205F}' || c == '\U{3000}'
  }

  lemma SpacesAre(c: char)
    ensures var n := c as int;
            IsSpace(c) <==>
              9 <= n <= 13 || 28 <= n <= 32 || 8192 <= n <= 8202
              || n in {133, 160, 5760, 8232, 8233, 8239, 8287, 12288}
  {
  }

  /** No whitespace at either end. */
  predicate Trimmed(s: string) {
    s == "" || (!IsSpace(s[0]) && !IsSpace(s[|s| - 1]))
  }

  function LStrip(s: string): (r: string)
    ensures r == "" || !IsSpace(r[0])
    ensures |r| <= |s| && r == s[|s| - |r|..]
    ensures s != "" && IsSpace(s[0]) ==> |r| < |s|
    ensures s != "" && !IsSpace(s[0]) ==> r == s
  {
    if s != "" && IsSpace(s[0]) then LStrip(s[1..]) else s
  }

  function RStrip(s: string): (r: string)
    ensures r == "" || !IsSpace(r[|r| - 1])
    ensures |r| <= |s| && r == s[..|r|]
    ensures s != "" && IsSpace(s[|s| - 1]) ==> |r| < |s|
    ensures s != "" && !IsSpace(s[|s| - 1]) ==> r == s
  {
    if s != "" && IsSpace(s[|s| - 1]) then RStrip(s[..|s| - 1]) else s
  }

  function Strip(s: string): (r: string)
    ensures Trimmed(r) && |r| <= |s|
    ensures Trimmed(s) <==> r == s
  {
    RStrip(LStrip(s))
  }

  ghost predicate AllSpace(s: string) {
    forall c :: c in s ==> IsSpace(c)
  }

  lemma {:induction false} LStripped(a: string, t: string)
    requires AllSpace(a) && (t == "" || !IsSpace(t[0]))
    ensures LStrip(a + t) == t
  {
    if a == "" {
      assert a + t == t;
    } else {
      assert a[0] in a && (a + t)[1..] == a[1..] + t;
      LStripped(a[1..], t);
    }
  }

  lemma {:induction false} RStripped(t: string, b: string)
    requires AllSpace(b) && (t == "" || !IsSpace(t[|t| - 1]))
    ensures RStrip(t + b) == t
  {
    if b == "" {
      assert t + b == t;
    } else {
      assert b[|b| - 1] in b && (t + b)[..|t + b| - 1] == t + b[..|b| - 1];
      RStripped(t, b[..|b| - 1]);
    }
  }

  /** Stripping takes away the whitespace at both ends. */
  lemma Stripped(a: string, m: string, b: string)
    requires AllSpace(a) && AllSpace(b) && Trimmed(m)
    ensures Strip(a + m + b) == m
  {
    hide IsSpace, LStrip, RStrip;
    if m == "" {
      AllSpaces(a, b);
      var s := a + m + b;
      assert s == a + b == s + "";
      LStripped(s, "");
      assert RStrip("") == "";
    } else {
      LStripped(a, m + b);
      assert a + m + b == a + (m + b);
      RStripped(m, b);
    }
  }

  lemma AllSpaces(a: string, b: string)
    requires AllSpace(a) && AllSpace(b)
    ensures AllSpace(a + b)
  {
  }

  lemma {:induction false} LeadingSpace(s: string)
    ensures AllSpace(s[..|s| - |LStrip(s)|])
  {
    if s != "" && IsSpace(s[0]) {
      LeadingSpace(s[1..]);
      var n := |s| - |LStrip(s)|;
      assert s[..n] == [s[0]] + s[1..][..n - 1];
    }
  }

  lemma LeftCut(s: string)
    ensures s == s[..|s| - |LStrip(s)|] + LStrip(s)
  {
    hide LStrip;
  }

  lemma {:induction false} TrailingSpace(s: string)
    ensures AllSpace(s[|RStrip(s)|..]) && s == RStrip(s) + s[|RStrip(s)|..]
  {
    if s != "" && IsSpace(s[|s| - 1]) {
      var front := s[..|s| - 1];
      TrailingSpace(front);
      assert s[|RStrip(s)|..] == front[|RStrip(s)|..] + [s[|s| - 1]];
    }
  }

  lemma StripIsBoth(s: string)
    ensures Strip(s) == RStrip(LStrip(s))
  {
  }

  lemma ThreeParts(a: string, m: string, b: string)
    ensures a + (m + b) == a + m + b
  {
  }

  /** And nothing else. */
  lemma StripCuts(s: string) returns (a: string, b: string)
    ensures s == a + Strip(s) + b && AllSpace(a) && AllSpace(b)
  {
    hide *;
    var left := LStrip(s);
    LeadingSpace(s);
    LeftCut(s);
    TrailingSpace(left);
    StripIsBoth(s);
    a, b := s[..|s| - |left|], left[|RStrip(left)|..];
    ThreeParts(a, RStrip(left), b);
  }

  predicate EndsWith(s: string, suffix: string) {
    |suffix| <= |s| && s[|s| - |suffix|..] == suffix
  }

  function ReplaceChar(s: string, a: char, b: char): (r: string)
    ensures |r| == |s|
    ensures forall i :: 0 <= i < |s| ==> r[i] == if s[i] == a then b else s[i]
  {
    seq(|s|, i requires 0 <= i < |s| => if s[i] == a then b else s[i])
  }

  function Lower(s: string): (r: string)
    ensures |r| == |s|
  {
    seq(|s|, i requires 0 <= i < |s| => if 'A' <= s[i] <= 'Z' then s[i] - 'A' + 'a' else s[i])
  }

  /** The first position of `c`, or the length. */
  function IndexOf(s: string, c: char): (i: nat)
    ensures i <= |s| && c !in s[..i]
    ensures i < |s| ==> s[i] == c
    ensures i == |s| <==> c !in s
  {
    if s == "" || s[0] == c then 0
    else
      var i := 1 + IndexOf(s[1..], c);
      assert s[..i] == [s[0]] + s[1..][..i - 1];
      i
  }

  /** The first `c` of `a + c + b` is the one after `a`, when `a` has none. */
  lemma {:induction false} FirstAfter(a: string, c: char, b: string)
    requires c !in a
    ensures IndexOf(a + [c] + b, c) == |a|
  {
    if a != "" {
      FirstAfter(a[1..], c, b);
      assert a[0] in a && (a + [c] + b)[1..] == a[1..] + [c] + b;
    }
  }

  /** The part after the last `c`: `rsplit(c, 1)[-1]`. */
  function AfterLast(s: string, c: char): (r: string)
    ensures |r| <= |s|
    ensures c !in s ==> r == s
  {
    if c in s then
      var i := IndexOf(s, c);
      AfterLast(s[i + 1..], c)
    else s
  }

  // ---- Alphabetical order, as `sorted` uses it ----

  predicate Leq(a: string, b: string) {
    a == "" || (b != "" && (a[0] < b[0] || (a[0] == b[0] && Leq(a[1..], b[1..]))))
  }

  lemma {:induction false} LeqTotal(a: string, b: string)
    ensures Leq(a, b) || Leq(b, a)
  {
    if a != "" && b != "" && a[0] == b[0] {
      LeqTotal(a[1..], b[1..]);
    }
  }

  lemma {:induction false} LeqAntisymmetric(a: string, b: string)
    requires Leq(a, b) && Leq(b, a)
    ensures a == b
  {
    if a != "" && b != "" {
      LeqAntisymmetric(a[1..], b[1..]);
      assert a == [a[0]] + a[1..] && b == [b[0]] + b[1..];
    }
  }

  lemma {:induction false} LeqTransitive(a: string, b: string, c: string)
    requires Leq(a, b) && Leq(b, c)
    ensures Leq(a, c)
  {
    if a != "" && b != "" && c != "" && a[0] == b[0] == c[0] {
      LeqTransitive(a[1..], b[1..], c[1..]);
    }
  }

  /** `a` stands before `b` in a dictionary. */
  ghost predicate DictionaryBefore(a: string, b: string) {
    exists i :: 0 <= i <= |a| && i < |b| && a[..i] == b[..i] && (i == |a| || a[i] < b[i])
  }

  lemma {:induction false} LeqIsDictionary(a: string, b: string)
    ensures Leq(a, b) <==> a == b || DictionaryBefore(a, b)
    decreases |a|
  {
    if a != "" && b != "" && a[0] == b[0] {
      LeqIsDictionary(a[1..], b[1..]);
      assert a == [a[0]] + a[1..] && b == [b[0]] + b[1..];
      if i :| 0 <= i <= |a[1..]| && i < |b[1..]| && a[1..][..i] == b[1..][..i]
                && (i == |a[1..]| || a[1..][i] < b[1..][i]) {
        assert a[..i + 1] == [a[0]] + a[1..][..i] && b[..i + 1] == [b[0]] + b[1..][..i];
      }
      if i :| 0 <= i <= |a| && i < |b| && a[..i] == b[..i] && (i == |a| || a[i] < b[i]) {
        assert i > 0;
        assert a[1..][..i - 1] == a[..i][1..] && b[1..][..i - 1] == b[..i][1..];
      }
    } else if a == "" && b != "" {
      assert a[..0] == b[..0];
    } else if a != "" && b != "" {
      assert a[..0] == b[..0];
    }
  }

  ghost predicate Ascending(ss: seq<string>) {
    forall i, j :: 0 <= i < j < |ss| ==> Leq(ss[i], ss[j])
  }

  function Insert(s: string, ss: seq<string>): (r: seq<string>)
    ensures multiset(r) == multiset(ss) + multiset{s}
  {
    if ss == [] || Leq(s, ss[0]) then [s] + ss
    else
      assert ss == [ss[0]] + ss[1..];
      [ss[0]] + Insert(s, ss[1..])
  }

  function Sorted(ss: seq<string>): (r: seq<string>)
    ensures multiset(r) == multiset(ss)
  {
    if ss == [] then []
    else
      assert ss == [ss[0]] + ss[1..];
      Insert(ss[0], Sorted(ss[1..]))
  }

  lemma {:induction false} InsertAscends(s: string, ss: seq<string>)
    requires Ascending(ss)
    ensures Ascending(Insert(s, ss))
  {
    if ss == [] {
    } else if Leq(s, ss[0]) {
      forall j | 0 <= j < |ss|
        ensures Leq(s, ss[j])
      {
        if j > 0 { LeqTransitive(s, ss[0], ss[j]); }
      }
    } else {
      LeqTotal(s, ss[0]);
      InsertAscends(s, ss[1..]);
      var r := Insert(s, ss[1..]);
      forall j | 0 <= j < |r|
        ensures Leq(ss[0], r[j])
      {
        assert r[j] in multiset(r);
        assert r[j] == s || r[j] in ss[1..];
      }
    }
  }

  lemma {:induction false} SortedAscends(ss: seq<string>)
    ensures Ascending(Sorted(ss))
  {
    if ss != [] {
      SortedAscends(ss[1..]);
      InsertAscends(ss[0], Sorted(ss[1..]));
    }
  }

  lemma SameLeast(a: seq<string>, b: seq<string>)
    requires a != [] && b != [] && Ascending(a) && Ascending(b)
    requires a[0] in b && b[0] in a
    ensures a[0] == b[0]
  {
    hide Leq;
    var i :| 0 <= i < |b| && b[i] == a[0];
    var j :| 0 <= j < |a| && a[j] == b[0];
    if i != 0 && j != 0 { LeqAntisymmetric(a[0], b[0]); }
  }

  lemma TailContents(a: seq<string>)
    requires a != []
    ensures multiset(a[1..]) == multiset(a) - multiset{a[0]}
  {
    assert a == [a[0]] + a[1..];
  }

  /** Two ascending listings of the same strings are the same listing. */
  lemma {:induction false} AscendingUnique(a: seq<string>, b: seq<string>)
    requires Ascending(a) && Ascending(b) && multiset(a) == multiset(b)
    ensures a == b
  {
    hide Leq;
    if a == [] {
      assert |multiset(b)| == 0;
    } else {
      assert a[0] in multiset(a);
      assert |multiset(b)| > 0;
      assert b[0] in multiset(b);
      SameLeast(a, b);
      TailContents(a);
      TailContents(b);
      AscendingUnique(a[1..], b[1..]);
      assert a == [a[0]] + a[1..] && b == [b[0]] + b[1..];
    }
  }

  lemma SortedDependsOnContents(a: seq<string>, b: seq<string>)
    requires multiset(a) == multiset(b)
    ensures Sorted(a) == Sorted(b)
  {
    SortedAscends(a);
    SortedAscends(b);
    AscendingUnique(Sorted(a), Sorted(b));
  }
}
