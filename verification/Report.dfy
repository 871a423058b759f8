/** A whole report: prose with blocks in it, what is read from it, and the
    check made when it is saved (backend/app/agent/blocks.py). */
module Report {
  import opened Text
  import opened ReportBlocks
  import opened ReportCheck

  // ---- A report as it is written ----

  datatype Part = Prose(lines: seq<string>) | Drawn(snippet: Snippet)

  function PartLines(p: Part): seq<string> {
    match p case Prose(lines) => lines case Drawn(s) => SnippetLines(s)
  }

  function ReportLines(parts: seq<Part>): seq<string> {
    if parts == [] then [] else PartLines(parts[0]) + ReportLines(parts[1..])
  }

  /** Prose without a line that opens a block, and printable snippets. */
  ghost predicate WellWritten(p: Part) {
    match p
    case Prose(lines) => forall l :: l in lines ==> Opens(l).None? && '\n' !in l
    case Drawn(s) => Printable(s)
  }

  /** The blocks a report shows, with the lines they start on. */
  function ShownBlocks(parts: seq<Part>, at: nat): seq<Block> {
    if parts == [] then []
    else match parts[0]
      case Prose(lines) => ShownBlocks(parts[1..], at + |lines|)
      case Drawn(s) => [Block(s.kind, Params(s.items), at)] + ShownBlocks(parts[1..], at + |s.items| + 2)
  }

  // ---- Reading it ----

  lemma {:induction false} ProseSkipped(lines: seq<string>, rest: seq<string>, at: nat)
    requires forall l :: l in lines ==> Opens(l).None?
    ensures BlocksOf(lines + rest, at) == BlocksOf(rest, at + |lines|)
    decreases |lines|
  {
    hide Opens, BlocksOf;
    if lines == [] {
      assert lines + rest == rest;
    } else {
      assert lines[0] in lines;
      var all := lines + rest;
      assert all[0] == lines[0] && all[1..] == lines[1..] + rest;
      NextBlock(all, at);
      ProseSkipped(lines[1..], rest, at + 1);
    }
  }

  lemma {:induction false} BodyNeverCloses(items: seq<(string, string)>, rest: seq<string>)
    requires forall i :: 0 <= i < |items| ==> KeyName(items[i].0)
    ensures ToClose(Body(items) + ["```"] + rest) == Some(|items|)
  {
    var ls := Body(items) + ["```"] + rest;
    if items == [] {
      assert ls[0] == "```" && Closes("```");
    } else {
      var k := items[0].0;
      assert k[0] in k;
      assert ls[0] == k + ": " + items[0].1 && ls[0][0] == k[0] && "```"[0] == '`';
      assert ls[1..] == Body(items[1..]) + ["```"] + rest;
      BodyNeverCloses(items[1..], rest);
    }
  }

  lemma {:induction false} NoBlanks(s: string)
    requires s != "" && s[0] != ' ' && s[0] != '\t'
    ensures DropBlanks(s) == s
  {
  }

  lemma OpeningLine(k: Kind)
    ensures Opens("```" + KindName(k)) == Some(k)
  {
    var line, name := "```" + KindName(k), KindName(k);
    assert line[3..] == name;
    assert "chart"[0] == 'c' && "chart"[1] == 'h' && "table"[0] == 't' && "command"[0] == 'c' && "command"[1] == 'o';
    NoBlanks(name);
    assert name[|name|..] == "";
  }

  /** A printed block is read back where it stands, and reading goes on after it. */
  lemma SnippetRead(s: Snippet, rest: seq<string>, at: nat)
    requires Printable(s)
    ensures BlocksOf(SnippetLines(s) + rest, at)
         == [Block(s.kind, Params(s.items), at)] + BlocksOf(rest, at + |s.items| + 2)
  {
    hide Opens, BlocksOf, ReadBody, Clean;
    var all := SnippetLines(s) + rest;
    var tail := Body(s.items) + ["```"] + rest;
    assert all[0] == "```" + KindName(s.kind) && all[1..] == tail;
    OpeningLine(s.kind);
    BodyNeverCloses(s.items, rest);
    assert tail[..|s.items|] == Body(s.items) && tail[|s.items| + 1..] == rest;
    BodyReadsBack(s.items);
    NextBlock(all, at);
  }

  lemma {:induction false} PartsRead(parts: seq<Part>, at: nat)
    requires forall p :: p in parts ==> WellWritten(p)
    ensures BlocksOf(ReportLines(parts), at) == ShownBlocks(parts, at)
    decreases |parts|
  {
    hide BlocksOf, Printable, Opens, SnippetLines;
    if parts == [] {
      NoMoreBlocks(at);
    } else {
      assert parts[0] in parts;
      var rest := ReportLines(parts[1..]);
      match parts[0] {
        case Prose(lines) =>
          ProseSkipped(lines, rest, at);
          PartsRead(parts[1..], at + |lines|);
        case Drawn(s) =>
          SnippetRead(s, rest, at);
          PartsRead(parts[1..], at + |s.items| + 2);
      }
    }
  }

  // ---- The text and its lines ----

  lemma FirstLine(a: string, b: string)
    requires '\n' !in a
    ensures Lines(a + "\n" + b) == [a] + Lines(b)
  {
    hide IndexOf;
    var text := a + "\n" + b;
    FirstAfter(a, '\n', b);
    assert a + ['\n'] + b == text;
    assert text[..|a|] == a;
    assert text[|a| + 1..] == b;
  }

  lemma {:induction false} LinesOfJoin(ls: seq<string>)
    requires ls != [] && forall l :: l in ls ==> '\n' !in l
    ensures Lines(Join(ls)) == ls
  {
    hide IndexOf;
    assert ls[0] in ls;
    if |ls| == 1 {
      assert IndexOf(ls[0], '\n') == |ls[0]|;
    } else {
      LinesOfJoin(ls[1..]);
      FirstLine(ls[0], Join(ls[1..]));
    }
  }

  lemma {:induction false} BodyOneLine(items: seq<(string, string)>)
    requires forall i :: 0 <= i < |items| ==> KeyName(items[i].0) && Clean(items[i].1)
    ensures forall l :: l in Body(items) ==> '\n' !in l
  {
    hide Clean, KeyName;
    if items != [] {
      PrintedHasNoBreak(items[0].0, items[0].1);
      OneLineNoNewline(items[0].0 + ": " + items[0].1);
      BodyOneLine(items[1..]);
    }
  }

  lemma OneLineNoNewline(s: string)
    requires OneLine(s)
    ensures '\n' !in s
  {
  }

  lemma KindNames(k: Kind)
    ensures '\n' !in "```" + KindName(k)
  {
    assert '\n' !in "```" && '\n' !in "chart" && '\n' !in "table" && '\n' !in "command";
    assert forall c :: c in "```" + KindName(k) ==> c in "```" || c in KindName(k);
  }

  lemma {:induction false} ReportOneLine(parts: seq<Part>)
    requires forall p :: p in parts ==> WellWritten(p)
    ensures forall l :: l in ReportLines(parts) ==> '\n' !in l
  {
    hide Opens, Clean, KeyName;
    if parts != [] {
      assert parts[0] in parts;
      ReportOneLine(parts[1..]);
      if parts[0].Drawn? {
        BodyOneLine(parts[0].snippet.items);
        KindNames(parts[0].snippet.kind);
        assert '\n' !in "```";
      }
    }
  }

  /** What is written is what is read: parsing the text of a report returns
      exactly the blocks put in it, in order, each on its line. */
  lemma WrittenIsRead(parts: seq<Part>)
    requires forall p :: p in parts ==> WellWritten(p)
    ensures BlocksOf(Lines(Join(ReportLines(parts))), 1) == ShownBlocks(parts, 1)
  {
    hide BlocksOf, WellWritten;
    PartsRead(parts, 1);
    ReportOneLine(parts);
    if ReportLines(parts) == [] {
      EmptyText();
    } else {
      LinesOfJoin(ReportLines(parts));
    }
  }

  lemma EmptyText()
    ensures BlocksOf(Lines(Join([])), 1) == BlocksOf([], 1)
  {
    assert Lines("") == [""];
    assert [""][1..] == [];
    assert Opens("").None?;
  }

  // ---- Captions ----

  function SkipSpaces(s: string): (r: string)
    ensures |r| <= |s|
  {
    if s != "" && IsSpace(s[0]) then SkipSpaces(s[1..]) else s
  }

  /** The figure and table words of a caption, in English and Chinese. */
  function CaptionWord(s: string): nat {
    if "Figure" <= s then 6
    else if "Fig." <= s then 4
    else if "Table" <= s then 5
    else if s != "" && (s[0] == '\U{56FE}' || s[0] == '\U{8868}') then 1
    else 0
  }

  function SkipDigits(s: string): (r: string)
    ensures |r| <= |s|
  {
    if s != "" && '0' <= s[0] <= '9' then SkipDigits(s[1..]) else s
  }

  /** A caption's word, its number and the mark after it; what follows, if so. */
  function AfterHead(b: string): (r: Option<string>)
    ensures r.Some? ==> |r.value| <= |b|
  {
    var n := CaptionWord(b);
    if n == 0 || n > |b| then None
    else
      var c := SkipSpaces(b[n..]);
      var d := SkipDigits(c);
      var e := SkipSpaces(d);
      if d == c || e == "" then None
      else if IsMark(e[0]) then Some(e[1..])
      else None
  }

  predicate IsMark(c: char) { c == '.' || c == ':' || c == '\U{00B7}' || c == '\U{3001}' }

  predicate Bold(a: string) { "**" <= a || "__" <= a }

  /** Does a caption the author wrote begin here, at the start of a line? What
      follows it, if so. */
  function AfterCaption(text: string): (r: Option<string>)
    ensures r.Some? ==> |r.value| <= |text|
  {
    var a := SkipSpaces(text);
    AfterHead(SkipSpaces(if Bold(a) then a[2..] else a))
  }

  function CountNewlines(s: string): nat {
    if s == "" then 0 else (if s[0] == '\n' then 1 else 0) + CountNewlines(s[1..])
  }

  /** For each line, whether a block's fence covers it. */
  function Fenced(ls: seq<string>): (mask: seq<bool>)
    ensures |mask| == |ls|
    decreases |ls|
  {
    if ls == [] then []
    else
      var k, n := Opens(ls[0]), ToClose(ls[1..]);
      if k.Some? && n.Some? then seq(n.value + 2, _ => true) + Fenced(ls[1..][n.value + 1..])
      else [false] + Fenced(ls[1..])
  }

  /** The lines on which captions begin outside the fences; a caption may run
      over several lines, and the next is looked for after it. */
  function Captions(ls: seq<string>, mask: seq<bool>, i: nat): seq<nat>
    requires |mask| == |ls|
    decreases |ls| - i
  {
    if i >= |ls| then []
    else
      var text := Join(ls[i..]);
      match AfterCaption(text)
      case None => Captions(ls, mask, i + 1)
      case Some(rest) =>
        (if mask[i] then [] else [i + 1])
        + Captions(ls, mask, i + 1 + CountNewlines(text[..|text| - |rest|]))
  }

  // ---- The check ----

  datatype Problem = Caption(line: nat) | BadBlock(line: nat, why: Reason)

  function CaptionProblems(at: seq<nat>): (ps: seq<Problem>)
    ensures |ps| == |at|
  {
    if at == [] then [] else [Caption(at[0])] + CaptionProblems(at[1..])
  }

  function BlockProblems(bs: seq<Block>, doc: Comparison): seq<Problem> {
    if bs == [] then []
    else
      var why := Check(bs[|bs| - 1].kind, bs[|bs| - 1].params, doc);
      BlockProblems(bs[..|bs| - 1], doc)
      + if why.Some? then [BadBlock(bs[|bs| - 1].line, why.value)] else []
  }

  /** Why a report's blocks would not draw, one entry per bad block. */
  method Problems(markdown: string, doc: Comparison) returns (out: seq<Problem>)
    ensures var ls := Lines(markdown);
            out == CaptionProblems(Captions(ls, Fenced(ls), 0)) + BlockProblems(BlocksOf(ls, 1), doc)
  {
    hide BlocksOf, Check;
    var ls := Lines(markdown);
    out := CaptionProblems(Captions(ls, Fenced(ls), 0));
    ghost var captions := out;
    var blocks := Parse(markdown);
    var i := 0;
    while i < |blocks|
      invariant 0 <= i <= |blocks| && out == captions + BlockProblems(blocks[..i], doc)
    {
      assert blocks[..i + 1][..i] == blocks[..i];
      var why := Check(blocks[i].kind, blocks[i].params, doc);
      if why.Some? {
        out := out + [BadBlock(blocks[i].line, why.value)];
      }
      i := i + 1;
    }
    assert blocks[..i] == blocks;
  }

  ghost predicate NoCaptionOutside(ls: seq<string>) {
    forall i :: 0 <= i < |ls| && !Fenced(ls)[i] ==> AfterCaption(Join(ls[i..])).None?
  }

  lemma {:induction false} NoCaptions(ls: seq<string>, i: nat)
    requires NoCaptionOutside(ls)
    ensures Captions(ls, Fenced(ls), i) == []
    decreases |ls| - i
  {
    hide AfterCaption, Fenced;
    if i < |ls| {
      var text := Join(ls[i..]);
      match AfterCaption(text) {
        case None => NoCaptions(ls, i + 1);
        case Some(rest) => NoCaptions(ls, i + 1 + CountNewlines(text[..|text| - |rest|]));
      }
    }
  }

  lemma {:induction false} AllAccepted(bs: seq<Block>, doc: Comparison)
    ensures BlockProblems(bs, doc) == [] <==>
              forall i :: 0 <= i < |bs| ==> Check(bs[i].kind, bs[i].params, doc).None?
  {
    hide Check;
    if bs != [] {
      AllAccepted(bs[..|bs| - 1], doc);
    }
  }

  /** The snippets of a report are among those its comparison offers. */
  ghost predicate OnlyOffered(parts: seq<Part>, doc: Comparison) {
    forall p :: p in parts && p.Drawn? ==> p.snippet in Offered(doc)
  }

  ghost predicate CleanKeys(doc: Comparison) {
    && (forall s :: s in doc.scenarios ==> Clean(s.key))
    && (forall p :: p in doc.positions ==> Clean(p))
  }

  lemma SnippetNames()
    ensures KeyName("type") && KeyName("scenario") && KeyName("attempt") && KeyName("config") && !KeyName(BAD)
    ensures Clean("summary") && Clean("setup") && Clean("slo") && Clean("quality") && Clean("scenarios")
    ensures Clean("diff") && Clean("sweep") && Clean("agentic") && Clean("baseline")
  {
    hide IsSpace, IsBreak;
    forall c | 'a' <= c <= 'z'
      ensures !IsSpace(c) && !IsBreak(c)
    {
      LetterIsPlain(c);
    }
    assert BAD[0] == '_' && BAD[0] in BAD;
  }

  lemma LetterIsPlain(c: char)
    requires 'a' <= c <= 'z'
    ensures !IsSpace(c) && !IsBreak(c)
  {
  }

  lemma OfferedIsPrintable(doc: Comparison, s: Snippet)
    requires CleanKeys(doc) && s in Offered(doc)
    ensures Printable(s)
  {
    hide Clean, KeyName, Offered, Scenarios, Diffs, Serves;
    SnippetNames();
    InOffered(doc, s);
    InScenarios(doc.scenarios, s);
    InPositions(doc.positions, s);
  }

  lemma {:induction false} ParamsKeys(items: seq<(string, string)>, k: string)
    requires k in Params(items)
    ensures exists i :: 0 <= i < |items| && items[i].0 == k
  {
    var front, last := items[..|items| - 1], items[|items| - 1];
    if k != last.0 {
      ParamsKeys(front, k);
    }
  }

  lemma OfferedChecks(doc: Comparison, s: Snippet)
    requires CleanKeys(doc) && UniqueKeys(doc) && s in Offered(doc)
    ensures Check(s.kind, Params(s.items), doc).None?
  {
    hide Offered, CleanKeys, UniqueKeys, Check, KeyName;
    OfferedIsPrintable(doc, s);
    SnippetNames();
    if BAD in Params(s.items) {
      ParamsKeys(s.items, BAD);
    }
    assert IsOffered(doc, DrawingOf(s.kind, Params(s.items)));
    OfferedExactlyAccepted(doc, s.kind, Params(s.items));
  }

  lemma {:induction false} ShownChecks(parts: seq<Part>, doc: Comparison, at: nat)
    requires CleanKeys(doc) && UniqueKeys(doc) && OnlyOffered(parts, doc)
    ensures forall b :: b in ShownBlocks(parts, at) ==> Check(b.kind, b.params, doc).None?
    decreases |parts|
  {
    hide Offered, CleanKeys, UniqueKeys, Check;
    if parts != [] {
      assert parts[0] in parts;
      match parts[0] {
        case Prose(lines) => ShownChecks(parts[1..], doc, at + |lines|);
        case Drawn(s) =>
          OfferedChecks(doc, s);
          ShownChecks(parts[1..], doc, at + |s.items| + 2);
      }
    }
  }

  /** Prose that opens no block and starts no caption, with any offered
      snippets in it: the blocks read are those put in, and the check finds
      nothing. */
  lemma OfferedReportPasses(parts: seq<Part>, doc: Comparison)
    requires CleanKeys(doc) && UniqueKeys(doc) && OnlyOffered(parts, doc)
    requires forall p :: p in parts && p.Prose? ==> WellWritten(p)
    requires NoCaptionOutside(Lines(Join(ReportLines(parts))))
    ensures var ls := Lines(Join(ReportLines(parts)));
            && BlocksOf(ls, 1) == ShownBlocks(parts, 1)
            && CaptionProblems(Captions(ls, Fenced(ls), 0)) + BlockProblems(BlocksOf(ls, 1), doc) == []
  {
    hide Lines, Offered, CleanKeys, UniqueKeys, Check, NoCaptionOutside, Captions, Fenced, BlocksOf;
    forall p | p in parts
      ensures WellWritten(p)
    {
      if p.Drawn? { OfferedIsPrintable(doc, p.snippet); }
    }
    WrittenIsRead(parts);
    ShownChecks(parts, doc, 1);
    AllAccepted(ShownBlocks(parts, 1), doc);
    NoCaptions(Lines(Join(ReportLines(parts))), 0);
  }

  // ---- Exactly which snippets come back ----

  lemma {:induction false} RawsOneLine(line: string)
    ensures forall r :: r in Raws(line) ==> OneLine(r)
  {
    if line != "" {
      RawsOneLine(line[1..]);
      var rest := Raws(line[1..]);
      assert rest[0] in rest;
    }
  }

  lemma {:induction false} AllRawsOneLine(ls: seq<string>)
    ensures forall r :: r in AllRaws(ls) ==> OneLine(r)
  {
    if ls != [] {
      RawsOneLine(ls[0]);
      AllRawsOneLine(ls[1..]);
    }
  }

  lemma StripClean(s: string)
    requires OneLine(s)
    ensures Clean(Strip(s))
  {
    var a := LStrip(s);
    assert forall c :: c in Strip(s) ==> c in a;
    assert forall c :: c in a ==> c in s;
  }

  lemma ReadLineClean(raw: string)
    requires OneLine(raw)
    ensures ReadLine(raw).Some? ==> Clean(ReadLine(raw).value.1)
  {
    hide OneLine, Clean, Strip, Lower, LStrip, KeyRun;
    var s := LStrip(raw);
    SuffixOneLine(raw, |raw| - |s|);
    var t := s[KeyRun(s)..];
    SuffixOneLine(s, KeyRun(s));
    var rest := LStrip(t);
    SuffixOneLine(t, |t| - |rest|);
    if rest != "" {
      SuffixOneLine(rest, 1);
      StripClean(rest[1..]);
    }
  }

  lemma SuffixOneLine(s: string, i: nat)
    requires OneLine(s) && i <= |s|
    ensures OneLine(s[i..])
  {
  }

  lemma {:induction false} ReadBodyClean(rs: seq<string>)
    requires forall r :: r in rs ==> OneLine(r)
    ensures forall k :: k in ReadBody(rs) ==> Clean(ReadBody(rs)[k])
  {
    hide ReadLine, Strip, OneLine, Clean;
    if rs != [] {
      assert rs[|rs| - 1] in rs;
      ReadBodyClean(rs[..|rs| - 1]);
      ReadLineClean(rs[|rs| - 1]);
      StripClean(rs[|rs| - 1]);
    }
  }

  lemma {:induction false} ReadIsClean(ls: seq<string>, at: nat)
    ensures forall b, k :: b in BlocksOf(ls, at) && k in b.params ==> Clean(b.params[k])
    decreases |ls|
  {
    hide Opens, ReadBody, AllRaws, ToClose, Clean;
    if ls != [] {
      var k, n := Opens(ls[0]), ToClose(ls[1..]);
      if k.Some? && n.Some? {
        AllRawsOneLine(ls[1..][..n.value]);
        ReadBodyClean(AllRaws(ls[1..][..n.value]));
        ReadIsClean(ls[1..][n.value + 1..], at + n.value + 2);
      } else {
        ReadIsClean(ls[1..], at + 1);
      }
    }
  }

  lemma {:induction false} ParamsHold(items: seq<(string, string)>, i: nat)
    requires i < |items| && forall a, b :: 0 <= a < b < |items| ==> items[a].0 != items[b].0
    ensures items[i].0 in Params(items) && Params(items)[items[i].0] == items[i].1
  {
    if i < |items| - 1 {
      ParamsHold(items[..|items| - 1], i);
    }
  }

  /** A printed block reads back as itself exactly when each of its values is
      one line without whitespace at its ends. */
  lemma PrintedComesBackExactlyWhenClean(s: Snippet)
    requires forall i :: 0 <= i < |s.items| ==> KeyName(s.items[i].0)
    requires forall i, j :: 0 <= i < j < |s.items| ==> s.items[i].0 != s.items[j].0
    ensures BlocksOf(Lines(Print(s)), 1) == [Block(s.kind, Params(s.items), 1)]
            <==> forall i :: 0 <= i < |s.items| ==> Clean(s.items[i].1)
  {
    hide Clean, KeyName, BlocksOf, Lines;
    if forall i :: 0 <= i < |s.items| ==> Clean(s.items[i].1) {
      var parts := [Drawn(s)];
      assert ReportLines(parts[1..]) == [];
      assert ReportLines(parts) == SnippetLines(s);
      WrittenIsRead(parts);
      assert ShownBlocks(parts[1..], |s.items| + 3) == [];
    }
    if BlocksOf(Lines(Print(s)), 1) == [Block(s.kind, Params(s.items), 1)] {
      ReadIsClean(Lines(Print(s)), 1);
      assert Block(s.kind, Params(s.items), 1) in BlocksOf(Lines(Print(s)), 1);
      forall i | 0 <= i < |s.items|
        ensures Clean(s.items[i].1)
      {
        ParamsHold(s.items, i);
      }
    }
  }
}
