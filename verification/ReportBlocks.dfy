/** Report blocks: what a report's markdown may ask the renderer to draw, how
    a block is printed, parsed and checked (backend/app/agent/blocks.py). */
module ReportBlocks {
  import opened Text

  datatype Kind = Chart | Table | Command

  function KindName(k: Kind): string {
    match k case Chart => "chart" case Table => "table" case Command => "command"
  }

  /** `line` counts from 1. */
  datatype Block = Block(kind: Kind, params: map<string, string>, line: nat)

  function Param(b: Block, key: string, default: string): string {
    if key in b.params then b.params[key] else default
  }

  function Type(b: Block): string { Param(b, "type", "") }

  // ---- Lines ----

  /** What `str.splitlines` breaks at. */
  predicate IsBreak(c: char) {
    || '\U{000A}' <= c <= '\U{000D}'
    || '\U{001C}' <= c <= '\U{001E}'
    || c == '\U{0085}' || c == '\U{2028}' || c == '\U{2029}'
  }

  /** The lines of a text whose lines end in a plain newline. */
  function Lines(text: string): (ls: seq<string>)
    ensures |ls| >= 1
  {
    var i := IndexOf(text, '\n');
    if i == |text| then [text] else [text[..i]] + Lines(text[i + 1..])
  }

  function Join(ls: seq<string>): string {
    if ls == [] then ""
    else if |ls| == 1 then ls[0]
    else ls[0] + "\n" + Join(ls[1..])
  }

  predicate OneLine(s: string) { forall c :: c in s ==> !IsBreak(c) }

  /** A body line cut at the breaks that are not newlines. */
  function Raws(line: string): (rs: seq<string>)
    ensures |rs| >= 1
  {
    if line == "" then [""]
    else if IsBreak(line[0]) then [""] + Raws(line[1..])
    else
      var rest := Raws(line[1..]);
      [[line[0]] + rest[0]] + rest[1..]
  }

  function AllRaws(ls: seq<string>): seq<string> {
    if ls == [] then [] else Raws(ls[0]) + AllRaws(ls[1..])
  }

  // ---- Reading a block ----

  predicate KeyChar(c: char) { 'a' <= c <= 'z' || 'A' <= c <= 'Z' || c == '_' }

  function KeyRun(s: string): (n: nat)
    ensures n <= |s| && forall i :: 0 <= i < n ==> KeyChar(s[i])
    ensures n < |s| ==> !KeyChar(s[n])
  {
    if s != "" && KeyChar(s[0]) then 1 + KeyRun(s[1..]) else 0
  }

  /** `key: value`, with any whitespace around either. */
  function ReadLine(raw: string): (r: Option<(string, string)>)
    ensures r.Some? ==> Trimmed(r.value.1)
  {
    var s := LStrip(raw);
    var n := KeyRun(s);
    var rest := LStrip(s[n..]);
    if n > 0 && rest != "" && rest[0] == ':' then Some((Lower(s[..n]), Strip(rest[1..]))) else None
  }

  const BAD := "_bad"

  function ReadBody(rs: seq<string>): map<string, string> {
    if rs == [] then map[]
    else
      var params, raw := ReadBody(rs[..|rs| - 1]), rs[|rs| - 1];
      if Strip(raw) == "" then params
      else
        match ReadLine(raw)
        case Some(kv) => params[kv.0 := kv.1]
        case None => if BAD in params then params else params[BAD := Strip(raw)]
  }

  predicate Blank(s: string) { forall c :: c in s ==> c == ' ' || c == '\t' }

  function DropBlanks(s: string): string {
    if s != "" && (s[0] == ' ' || s[0] == '\t') then DropBlanks(s[1..]) else s
  }

  predicate OpensAs(line: string, k: Kind) {
    "```" <= line &&
    var name := DropBlanks(line[3..]);
    KindName(k) <= name && Blank(name[|KindName(k)|..])
  }

  function Opens(line: string): Option<Kind> {
    if OpensAs(line, Chart) then Some(Chart)
    else if OpensAs(line, Table) then Some(Table)
    else if OpensAs(line, Command) then Some(Command)
    else None
  }

  predicate Closes(line: string) { "```" <= line && Blank(line[3..]) }

  /** The number of lines before the first one that closes. */
  function ToClose(ls: seq<string>): (r: Option<nat>)
    ensures r.Some? ==> r.value < |ls| && Closes(ls[r.value])
  {
    if ls == [] then None
    else if Closes(ls[0]) then Some(0)
    else match ToClose(ls[1..]) case Some(n) => Some(n + 1) case None => None
  }

  /** The blocks from here on; `at` is the number of the first line. */
  function BlocksOf(ls: seq<string>, at: nat): seq<Block>
    decreases |ls|
  {
    if ls == [] then []
    else
      var k, n := Opens(ls[0]), ToClose(ls[1..]);
      if k.Some? && n.Some? then
        [Block(k.value, ReadBody(AllRaws(ls[1..][..n.value])), at)]
        + BlocksOf(ls[1..][n.value + 1..], at + n.value + 2)
      else
        BlocksOf(ls[1..], at + 1)
  }

  /** Every chart, table and command block of the markdown, in order. */
  method Parse(markdown: string) returns (blocks: seq<Block>)
    ensures blocks == BlocksOf(Lines(markdown), 1)
  {
    hide Opens, ReadBody, AllRaws, ToClose, BlocksOf;
    var lines := Lines(markdown);
    blocks := [];
    var i := 0;
    assert lines[0..] == lines;
    while i < |lines|
      invariant 0 <= i <= |lines|
      invariant blocks + BlocksOf(lines[i..], i + 1) == BlocksOf(lines, 1)
      decreases |lines| - i
    {
      NextBlock(lines[i..], i + 1);
      assert lines[i..][1..] == lines[i + 1..];
      var kind, n := Opens(lines[i]), ToClose(lines[i + 1..]);
      if kind.Some? && n.Some? {
        var body := lines[i + 1..][..n.value];
        blocks := blocks + [Block(kind.value, ReadBody(AllRaws(body)), i + 1)];
        assert lines[i + 1..][n.value + 1..] == lines[i + n.value + 2..];
        i := i + n.value + 2;
      } else {
        i := i + 1;
      }
    }
    assert lines[i..] == [];
    NoMoreBlocks(i + 1);
  }

  lemma NextBlock(ls: seq<string>, at: nat)
    requires ls != []
    ensures var k, n := Opens(ls[0]), ToClose(ls[1..]);
            BlocksOf(ls, at) ==
              if k.Some? && n.Some? then
                [Block(k.value, ReadBody(AllRaws(ls[1..][..n.value])), at)]
                + BlocksOf(ls[1..][n.value + 1..], at + n.value + 2)
              else BlocksOf(ls[1..], at + 1)
  {
    hide Opens, ReadBody, AllRaws, ToClose;
  }

  lemma NoMoreBlocks(at: nat)
    ensures BlocksOf([], at) == []
  {
  }

  // ---- Printing a block ----

  datatype Snippet = Snippet(kind: Kind, items: seq<(string, string)>)

  function Body(items: seq<(string, string)>): (ls: seq<string>)
    ensures |ls| == |items|
  {
    if items == [] then [] else [items[0].0 + ": " + items[0].1] + Body(items[1..])
  }

  function SnippetLines(s: Snippet): seq<string> {
    ["```" + KindName(s.kind)] + Body(s.items) + ["```"]
  }

  function Print(s: Snippet): string { Join(SnippetLines(s)) }

  function Params(items: seq<(string, string)>): map<string, string> {
    if items == [] then map[]
    else Params(items[..|items| - 1])[items[|items| - 1].0 := items[|items| - 1].1]
  }

  /** A parameter name as the snippets use them. */
  predicate KeyName(k: string) {
    k != "" && forall c :: c in k ==> 'a' <= c <= 'z'
  }

  /** A value that prints as one line and comes back whole. */
  predicate Clean(v: string) {
    Trimmed(v) && OneLine(v)
  }

  ghost predicate Printable(s: Snippet) {
    forall i :: 0 <= i < |s.items| ==> KeyName(s.items[i].0) && Clean(s.items[i].1)
  }

  // ---- A line, there and back ----

  lemma {:induction false} NoBreakOneRaw(line: string)
    requires OneLine(line)
    ensures Raws(line) == [line]
  {
    if line != "" {
      assert line[0] in line;
      NoBreakOneRaw(line[1..]);
      assert line == [line[0]] + line[1..];
    }
  }

  lemma {:induction false} KeyRunOf(k: string, rest: string)
    requires (forall c :: c in k ==> KeyChar(c)) && (rest == "" || !KeyChar(rest[0]))
    ensures KeyRun(k + rest) == |k|
  {
    if k == "" {
      assert k + rest == rest;
    } else {
      assert k[0] in k && (k + rest)[1..] == k[1..] + rest;
      KeyRunOf(k[1..], rest);
    }
  }

  lemma LetterNoSpace(c: char)
    ensures KeyChar(c) || c == ':' ==> !IsSpace(c)
  {
  }

  lemma SpaceIsSpace()
    ensures IsSpace(' ')
  {
  }

  lemma StripAfterSpace(v: string)
    requires Trimmed(v)
    ensures Strip(" " + v) == v
  {
    hide IsSpace;
    SpaceIsSpace();
    var s := " " + v;
    assert s[1..] == v;
    assert LStrip(s) == LStrip(v);
    assert Strip(v) == v;
  }

  lemma LowerName(k: string)
    requires KeyName(k)
    ensures Lower(k) == k && forall c :: c in k ==> KeyChar(c)
  {
    assert forall i :: 0 <= i < |k| ==> k[i] in k;
  }

  lemma {:induction false} RStripKeepsFirst(s: string)
    requires s != "" && !IsSpace(s[0])
    ensures RStrip(s) != ""
  {
    if IsSpace(s[|s| - 1]) {
      RStripKeepsFirst(s[..|s| - 1]);
    }
  }

  lemma KeyPart(k: string, rest: string)
    requires KeyName(k) && rest != "" && rest[0] == ':'
    ensures LStrip(k + rest) == k + rest && KeyRun(k + rest) == |k|
    ensures (k + rest)[|k|..] == rest && (k + rest)[..|k|] == k
    ensures LStrip(rest) == rest && Strip(k + rest) != ""
  {
    hide IsSpace, LStrip, RStrip, KeyRun, Lower;
    LowerName(k);
    assert k[0] in k;
    LetterNoSpace(k[0]);
    LetterNoSpace(':');
    RStripKeepsFirst(k + rest);
    assert !KeyChar(rest[0]);
    KeyRunOf(k, rest);
  }

  /** A printed parameter reads back as itself. */
  lemma LineReadsBack(k: string, v: string)
    requires KeyName(k) && Trimmed(v)
    ensures ReadLine(k + ": " + v) == Some((k, v))
    ensures Strip(k + ": " + v) != ""
  {
    hide Trimmed, LStrip, Strip, KeyRun, Lower, KeyName;
    var rest := ": " + v;
    assert k + ": " + v == k + rest;
    KeyPart(k, rest);
    NameNotEmpty(k);
    assert rest[1..] == " " + v;
    StripAfterSpace(v);
  }

  lemma NameNotEmpty(k: string)
    requires KeyName(k)
    ensures k != "" && Lower(k) == k
  {
    LowerName(k);
  }

  lemma PrintedHasNoBreak(k: string, v: string)
    requires KeyName(k) && Clean(v)
    ensures OneLine(k + ": " + v)
  {
    forall c | c in k + ": " + v
      ensures !IsBreak(c)
    {
      assert c in k || c == ':' || c == ' ' || c in v;
    }
  }

  lemma {:induction false} RawsConcat(a: seq<string>, b: seq<string>)
    ensures AllRaws(a + b) == AllRaws(a) + AllRaws(b)
  {
    if a == [] {
      assert a + b == b;
    } else {
      assert (a + b)[0] == a[0] && (a + b)[1..] == a[1..] + b;
      RawsConcat(a[1..], b);
    }
  }

  lemma {:induction false} BodyLast(items: seq<(string, string)>)
    requires items != []
    ensures var front, last := items[..|items| - 1], items[|items| - 1];
            Body(items) == Body(front) + [last.0 + ": " + last.1]
  {
    if |items| > 1 {
      BodyLast(items[1..]);
      assert items[1..][..|items| - 2] == items[..|items| - 1][1..];
    }
  }

  lemma {:induction false} BodyReadsBack(items: seq<(string, string)>)
    requires forall i :: 0 <= i < |items| ==> KeyName(items[i].0) && Clean(items[i].1)
    ensures AllRaws(Body(items)) == Body(items)
    ensures ReadBody(Body(items)) == Params(items)
  {
    hide ReadLine, Strip, Clean;
    if items != [] {
      var front, last := items[..|items| - 1], items[|items| - 1];
      var line := last.0 + ": " + last.1;
      BodyReadsBack(front);
      BodyLast(items);
      RawsConcat(Body(front), [line]);
      PrintedHasNoBreak(last.0, last.1);
      NoBreakOneRaw(line);
      assert AllRaws([line]) == Raws(line) + AllRaws([]);
      CleanIsTrimmed(last.1);
      LineReadsBack(last.0, last.1);
      assert Body(items)[..|items| - 1] == Body(front);
    }
  }

  lemma CleanIsTrimmed(v: string)
    requires Clean(v)
    ensures Trimmed(v)
  {
  }
}
