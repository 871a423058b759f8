/** Which prose is free of captions, told line by line, and the report that any
    offered blocks make with it (backend/app/agent/blocks.py). */
module ReportCaptions {
  import opened Text
  import opened ReportBlocks
  import opened ReportCheck
  import opened Report

  // ---- One line of prose ----

  /** A caption's word is followed, on this line, by something that no caption
      has there: no number, or a number and no mark. */
  predicate NoHead(b: string) {
    var n := CaptionWord(b);
    n == 0 || (n <= |b| &&
      var c := SkipSpaces(b[n..]);
      var d := SkipDigits(c);
      var e := SkipSpaces(d);
      c != "" && (d == c || (e != "" && !IsMark(e[0]))))
  }

  /** What a caption's word would be looked for in: the line without its leading
      whitespace and the emphasis it may open with. */
  function Head(line: string): string {
    var a := SkipSpaces(line);
    SkipSpaces(if Bold(a) then a[2..] else a)
  }

  /** No caption begins on this line, nor goes on from it. */
  predicate CaptionFree(line: string) { NoHead(Head(line)) }

  /** The line is blank but for an emphasis: a caption's word may still come. */
  predicate RunsOn(line: string) { Head(line) == "" }

  /** No caption begins on the first of these lines, however it runs on. */
  predicate Starts(ls: seq<string>) {
    ls == [] || (CaptionFree(ls[0]) && (RunsOn(ls[0]) ==> Starts(ls[1..])))
  }

  // ---- The text that begins with it ----

  lemma {:induction false} SpacesAcross(a: string, r: string)
    requires '\n' !in a
    ensures SkipSpaces(a + "\n" + r) == if SkipSpaces(a) != "" then SkipSpaces(a) + "\n" + r else SkipSpaces(r)
    ensures '\n' !in SkipSpaces(a)
  {
    if a == "" {
      assert "" + "\n" + r == "\n" + r && ("\n" + r)[1..] == r;
    } else {
      var all := a + "\n" + r;
      assert all[0] == a[0] && all[1..] == a[1..] + "\n" + r;
      if IsSpace(a[0]) {
        SpacesAcross(a[1..], r);
      }
    }
  }

  lemma {:induction false} DigitsAcross(a: string, r: string)
    ensures SkipDigits(a) != "" ==> SkipDigits(a + r) == SkipDigits(a) + r
    ensures '\n' !in a ==> '\n' !in SkipDigits(a)
  {
    if a != "" && '0' <= a[0] <= '9' {
      assert (a + r)[1..] == a[1..] + r;
      DigitsAcross(a[1..], r);
    }
  }

  /** No word of a caption reaches over the end of a line. */
  lemma WordAcross(b: string, r: string)
    requires '\n' !in b && b != ""
    ensures CaptionWord(b + "\n" + r) == CaptionWord(b)
  {
    hide IsSpace;
    var all := b + "\n" + r;
    PrefixAcross("Figure", b, r);
    PrefixAcross("Fig.", b, r);
    PrefixAcross("Table", b, r);
    assert all[0] == b[0];
  }

  lemma PrefixAcross(w: string, b: string, r: string)
    requires '\n' !in w
    ensures w <= b + "\n" + r <==> w <= b
  {
    var all := b + "\n" + r;
    if |b| < |w| <= |all| {
      assert all[..|w|][|b|] == '\n';
      assert '\n' in all[..|w|];
    }
    assert w <= all ==> w == all[..|w|];
    if w <= all && |w| <= |b| {
      assert w == all[..|w|] == b[..|w|];
    }
    if w <= b {
      assert all[..|w|] == b[..|w|];
    }
  }

  lemma HeadAcross(b: string, r: string)
    requires '\n' !in b && b != "" && NoHead(b)
    ensures AfterHead(b + "\n" + r).None?
  {
    hide IsSpace, CaptionWord;
    WordAcross(b, r);
    var n, rest := CaptionWord(b), "\n" + r;
    assert b + "\n" + r == b + rest;
    if 0 < n <= |b| {
      var t := b[n..];
      assert (b + rest)[n..] == t + rest == t + "\n" + r;
      SpacesAcross(t, r);
      var c := SkipSpaces(t);
      assert c + "\n" + r == c + rest;
      DigitsAcross(c, rest);
      var d := SkipDigits(c);
      if d != "" {
        assert d + rest == d + "\n" + r;
        SpacesAcross(d, r);
      }
    }
  }

  lemma AloneHead(b: string)
    requires NoHead(b)
    ensures AfterHead(b).None?
  {
  }

  lemma BoldAcross(a: string, r: string)
    requires a != "" && '\n' !in a
    ensures Bold(a + "\n" + r) == Bold(a)
    ensures Bold(a) ==> (a + "\n" + r)[2..] == a[2..] + "\n" + r && '\n' !in a[2..]
  {
    PrefixAcross("**", a, r);
    PrefixAcross("__", a, r);
  }

  /** The line's own head decides, or the next line does. */
  lemma LineDecides(l: string, r: string)
    requires '\n' !in l && CaptionFree(l)
    ensures !RunsOn(l) ==> AfterCaption(l + "\n" + r).None?
    ensures RunsOn(l) ==>
      AfterCaption(l + "\n" + r) == AfterCaption(r) || AfterCaption(l + "\n" + r) == AfterHead(SkipSpaces(r))
  {
    hide IsSpace, AfterHead, NoHead, Bold;
    SpacesAcross(l, r);
    var a := SkipSpaces(l);
    if a != "" {
      BoldAcross(a, r);
      var h := if Bold(a) then a[2..] else a;
      SpacesAcross(h, r);
      if Head(l) != "" {
        HeadAcross(Head(l), r);
      }
    } else {
      NotBold();
    }
  }

  lemma NotBold()
    ensures !Bold("")
  {
  }

  /** What a free line looks like to a caption whose emphasis is already open. */
  lemma {:induction false} OpenEmphasis(l: string)
    requires CaptionFree(l)
    ensures NoHead(SkipSpaces(l)) || Bold(SkipSpaces(l))
    ensures Bold(SkipSpaces(l)) ==> CaptionWord(SkipSpaces(l)) == 0
  {
    var a := SkipSpaces(l);
    SkippedTwice(l);
    if Bold(a) {
      assert a[0] == '*' || a[0] == '_';
    }
  }

  lemma {:induction false} SkippedTwice(s: string)
    ensures SkipSpaces(SkipSpaces(s)) == SkipSpaces(s)
  {
    if s != "" && IsSpace(s[0]) {
      SkippedTwice(s[1..]);
    }
  }

  /** No caption goes on into these lines from a line that opens an emphasis. */
  lemma {:induction false} NoneFollows(ls: seq<string>)
    requires ls != [] && (forall l :: l in ls ==> '\n' !in l) && Starts(ls)
    ensures AfterHead(SkipSpaces(Join(ls))).None?
    decreases |ls|
  {
    hide IsSpace, AfterHead, NoHead, Bold, CaptionWord;
    var l := ls[0];
    assert l in ls;
    OpenEmphasis(l);
    var a := SkipSpaces(l);
    ZeroIsNoHead(a);
    if |ls| == 1 {
      AloneHead(a);
    } else {
      var r := Join(ls[1..]);
      SpacesAcross(l, r);
      if a != "" {
        HeadAcross(a, r);
      } else {
        NotBold();
        assert RunsOn(l);
        NoneFollows(ls[1..]);
      }
    }
  }

  lemma ZeroIsNoHead(b: string)
    ensures CaptionWord(b) == 0 ==> NoHead(b)
  {
  }

  /** Nor does one begin there. */
  lemma {:induction false} NoneBegins(ls: seq<string>)
    requires ls != [] && (forall l :: l in ls ==> '\n' !in l) && Starts(ls)
    ensures AfterCaption(Join(ls)).None?
    decreases |ls|
  {
    hide IsSpace, AfterHead, NoHead, Bold, AfterCaption;
    var l := ls[0];
    assert l in ls;
    if |ls| == 1 {
      AloneCaption(l);
    } else {
      LineDecides(l, Join(ls[1..]));
      if RunsOn(l) {
        NoneBegins(ls[1..]);
        NoneFollows(ls[1..]);
      }
    }
  }

  lemma AloneCaption(l: string)
    requires CaptionFree(l)
    ensures AfterCaption(l).None?
  {
    hide NoHead, AfterHead;
    AloneHead(Head(l));
  }

  // ---- A report ----

  /** Every line of prose is free of captions. */
  ghost predicate FreeProse(parts: seq<Part>) {
    forall p :: p in parts && p.Prose? ==> forall l :: l in p.lines ==> CaptionFree(l)
  }

  lemma FenceStarts(k: Kind, rest: seq<string>)
    ensures Starts(["```" + KindName(k)] + rest)
  {
    var line := "```" + KindName(k);
    assert line[0] == '`';
    assert SkipSpaces(line) == line;
    assert Head(line) == line;
  }

  lemma {:induction false} LinesStart(lines: seq<string>, rest: seq<string>)
    requires (forall l :: l in lines ==> CaptionFree(l)) && Starts(rest)
    ensures Starts(lines + rest)
  {
    hide CaptionFree, RunsOn;
    if lines == [] {
      assert lines + rest == rest;
    } else {
      assert lines[0] in lines;
      assert (lines + rest)[1..] == lines[1..] + rest;
      LinesStart(lines[1..], rest);
    }
  }

  lemma {:induction false} ReportStarts(parts: seq<Part>)
    requires FreeProse(parts)
    ensures Starts(ReportLines(parts))
  {
    hide CaptionFree, Starts;
    if parts == [] {
      NothingStarts();
    } else {
      assert parts[0] in parts;
      ReportStarts(parts[1..]);
      match parts[0] {
        case Prose(lines) => LinesStart(lines, ReportLines(parts[1..]));
        case Drawn(s) =>
          var rest := Body(s.items) + ["```"] + ReportLines(parts[1..]);
          FenceStarts(s.kind, rest);
          assert ReportLines(parts) == ["```" + KindName(s.kind)] + rest;
      }
    }
  }

  lemma NothingStarts()
    ensures Starts([])
  {
  }

  /** Where a line is outside the fences no caption begins. */
  ghost predicate StartsOutside(ls: seq<string>) {
    forall i :: 0 <= i < |ls| && !Fenced(ls)[i] ==> Starts(ls[i..])
  }

  lemma ProseOutside(line: string, rest: seq<string>)
    requires Opens(line).None? && Starts([line] + rest) && StartsOutside(rest)
    ensures StartsOutside([line] + rest)
  {
    hide Opens, Starts;
    var ls := [line] + rest;
    assert ls[1..] == rest;
    assert Fenced(ls) == [false] + Fenced(rest);
    forall i | 0 <= i < |ls| && !Fenced(ls)[i] ensures Starts(ls[i..]) {
      if i > 0 {
        assert !Fenced(rest)[i - 1] && ls[i..] == rest[i - 1..];
      } else {
        assert ls[0..] == ls;
      }
    }
  }

  lemma {:induction false} AllProseOutside(lines: seq<string>, rest: seq<string>)
    requires (forall l :: l in lines ==> Opens(l).None? && CaptionFree(l)) && Starts(rest) && StartsOutside(rest)
    ensures StartsOutside(lines + rest)
  {
    hide Opens, CaptionFree, Starts, StartsOutside;
    if lines == [] {
      assert lines + rest == rest;
    } else {
      assert lines[0] in lines;
      AllProseOutside(lines[1..], rest);
      LinesStart(lines, rest);
      assert lines + rest == [lines[0]] + (lines[1..] + rest);
      ProseOutside(lines[0], lines[1..] + rest);
    }
  }

  lemma SnippetOutside(s: Snippet, rest: seq<string>)
    requires Printable(s) && StartsOutside(rest)
    ensures StartsOutside(SnippetLines(s) + rest)
  {
    hide Opens, Starts, Clean, KeyName;
    var ls, n := SnippetLines(s) + rest, |s.items|;
    var tail := Body(s.items) + ["```"] + rest;
    assert ls[0] == "```" + KindName(s.kind) && ls[1..] == tail;
    OpeningLine(s.kind);
    BodyNeverCloses(s.items, rest);
    assert tail[n + 1..] == rest;
    assert Fenced(ls) == seq(n + 2, _ => true) + Fenced(rest);
    forall i | 0 <= i < |ls| && !Fenced(ls)[i] ensures Starts(ls[i..]) {
      assert i >= n + 2 && !Fenced(rest)[i - n - 2] && ls[i..] == rest[i - n - 2..];
    }
  }

  lemma {:induction false} ReportOutside(parts: seq<Part>)
    requires FreeProse(parts) && forall p :: p in parts ==> WellWritten(p)
    ensures StartsOutside(ReportLines(parts))
  {
    hide Opens, CaptionFree, Starts, StartsOutside, Printable, SnippetLines;
    if parts == [] {
      NothingOutside();
    } else {
      assert parts[0] in parts;
      ReportOutside(parts[1..]);
      ReportStarts(parts[1..]);
      match parts[0] {
        case Prose(lines) => AllProseOutside(lines, ReportLines(parts[1..]));
        case Drawn(s) => SnippetOutside(s, ReportLines(parts[1..]));
      }
    }
  }

  lemma NothingOutside()
    ensures StartsOutside([])
  {
  }

  lemma NoneOutside(ls: seq<string>)
    requires (forall l :: l in ls ==> '\n' !in l) && StartsOutside(ls)
    ensures NoCaptionOutside(ls)
  {
    hide Starts, AfterCaption, Fenced;
    forall i | 0 <= i < |ls| && !Fenced(ls)[i] ensures AfterCaption(Join(ls[i..])).None? {
      forall l | l in ls[i..] ensures '\n' !in l {
        assert l in ls;
      }
      NoneBegins(ls[i..]);
    }
  }

  /** Prose no line of which opens a block or begins a caption, with any offered
      snippets in it: the blocks read are those put in, and the check finds
      nothing. */
  lemma FreeProsePasses(parts: seq<Part>, doc: Comparison)
    requires CleanKeys(doc) && UniqueKeys(doc) && OnlyOffered(parts, doc)
    requires FreeProse(parts) && forall p :: p in parts && p.Prose? ==> WellWritten(p)
    ensures var ls := Lines(Join(ReportLines(parts)));
            && BlocksOf(ls, 1) == ShownBlocks(parts, 1)
            && CaptionProblems(Captions(ls, Fenced(ls), 0)) + BlockProblems(BlocksOf(ls, 1), doc) == []
  {
    hide Lines, Offered, CleanKeys, UniqueKeys, Fenced, WellWritten, StartsOutside, FreeProse, NoCaptionOutside;
    hide Captions, BlocksOf, BlockProblems, ReportLines, Join;
    EachWellWritten(parts, doc);
    ReportOutside(parts);
    ReportOneLine(parts);
    NoneOutside(ReportLines(parts));
    if ReportLines(parts) == [] {
      BlankIsFree();
    } else {
      LinesOfJoin(ReportLines(parts));
    }
    OfferedReportPasses(parts, doc);
  }

  lemma EachWellWritten(parts: seq<Part>, doc: Comparison)
    requires CleanKeys(doc) && OnlyOffered(parts, doc) && forall p :: p in parts && p.Prose? ==> WellWritten(p)
    ensures forall p :: p in parts ==> WellWritten(p)
  {
    hide CleanKeys, Offered, Printable, Opens;
    forall p | p in parts ensures WellWritten(p) {
      if p.Drawn? { OfferedIsPrintable(doc, p.snippet); }
    }
  }

  lemma BlankIsFree()
    ensures NoCaptionOutside(Lines(Join([])))
  {
    assert Lines("") == [""];
    assert Join([""][0..]) == "";
    assert AfterCaption("").None?;
  }
}
