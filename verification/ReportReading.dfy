/** What the parser of report blocks makes of any text at all, told from the
    characters (backend/app/agent/blocks.py). */
module ReportReading {
  import opened Text
  import opened ReportBlocks

  // ---- One line of a block ----

  /** A name of letters and underscores. */
  ghost predicate Word(s: string) {
    s != "" && forall c :: c in s ==> 65 <= c as int <= 90 || 97 <= c as int <= 122 || c as int == 95
  }

  /** The line says that `key` is `value`, whatever whitespace is around the two. */
  ghost predicate SaysOf(raw: string, a: string, key: string, b: string, value: string) {
    raw == a + key + b + ":" + value && AllSpace(a) && AllSpace(b) && Word(key)
  }

  lemma WordIs(key: string)
    ensures Word(key) <==> key != "" && forall c :: c in key ==> KeyChar(c)
  {
  }

  lemma NoKeyChars(c: char)
    ensures IsSpace(c) || c == ':' ==> !KeyChar(c)
    ensures KeyChar(c) || c == ':' ==> !IsSpace(c)
  {
  }

  /** Such a line is read as that, with the key in small letters and the value
      without the whitespace around it. */
  lemma SaidIsRead(raw: string, a: string, key: string, b: string, value: string)
    requires SaysOf(raw, a, key, b, value)
    ensures ReadLine(raw) == Some((Lower(key), Strip(value)))
  {
    hide IsSpace, KeyChar, Lower, Strip, LStrip, KeyRun, AllSpace;
    WordIs(key);
    var behind := b + ":" + value;
    assert key[0] in key;
    NoKeyChars(key[0]);
    assert raw == a + (key + behind);
    LStripped(a, key + behind);
    NoKeyChars(':');
    FirstBehind(b, value);
    NoKeyChars(behind[0]);
    KeyRunOf(key, behind);
    assert (key + behind)[|key|..] == behind && (key + behind)[..|key|] == key;
    LStripped(b, ":" + value);
    assert behind == b + (":" + value);
    assert (":" + value)[1..] == value;
  }

  lemma FirstBehind(b: string, value: string)
    requires AllSpace(b)
    ensures var c := (b + ":" + value)[0]; IsSpace(c) || c == ':'
  {
    if b != "" { assert b[0] in b; }
  }

  lemma PartsOf(raw: string) returns (s: string, n: nat, rest: string)
    requires ReadLine(raw).Some?
    ensures s == LStrip(raw) && n == KeyRun(s) && 0 < n <= |s| && rest == LStrip(s[n..])
    ensures rest != "" && rest[0] == ':' && |rest| <= |s[n..]| && |s| <= |raw|
  {
    hide IsSpace, KeyChar, Lower, Strip;
    s := LStrip(raw);
    n := KeyRun(s);
    rest := LStrip(s[n..]);
  }

  lemma RunIsWord(s: string, n: nat)
    requires 0 < n <= |s| && n == KeyRun(s)
    ensures Word(s[..n])
  {
    hide KeyRun;
    forall c | c in s[..n] ensures KeyChar(c) {
      var i :| 0 <= i < n && s[..n][i] == c;
      assert s[i] == c;
    }
    WordIs(s[..n]);
  }

  /** The text up to what is behind its whitespace, and the rest of it. */
  lemma BehindSpace(t: string) returns (b: string)
    ensures t == b + LStrip(t) && AllSpace(b)
  {
    hide LStrip, AllSpace;
    LeadingSpace(t);
    LeftCut(t);
    b := t[..|t| - |LStrip(t)|];
  }

  lemma Colon(rest: string)
    requires rest != "" && rest[0] == ':'
    ensures rest == ":" + rest[1..]
  {
  }

  /** And nothing else is read. */
  lemma ReadIsSaid(raw: string) returns (a: string, key: string, b: string, value: string)
    requires ReadLine(raw).Some?
    ensures SaysOf(raw, a, key, b, value)
  {
    hide IsSpace, KeyChar, ReadLine, LStrip, AllSpace, KeyRun, Word;
    var s, n, rest := PartsOf(raw);
    a := BehindSpace(raw);
    b := BehindSpace(s[n..]);
    RunIsWord(s, n);
    Colon(rest);
    key, value := s[..n], rest[1..];
    FourParts(a, key, b, value, s, raw);
  }

  lemma FourParts(a: string, key: string, b: string, value: string, s: string, raw: string)
    requires raw == a + s && |key| <= |s| && s[..|key|] == key && s[|key|..] == b + (":" + value)
    ensures raw == a + key + b + ":" + value
  {
    assert s == key + s[|key|..];
    assert b + (":" + value) == b + ":" + value;
    assert a + (key + (b + ":" + value)) == a + key + b + ":" + value;
  }

  // ---- The body of a block ----

  /** What the last line that says something of the key says. */
  ghost function LastSaid(rs: seq<string>, key: string): Option<string> {
    if rs == [] then None
    else
      match LastSaid(rs[1..], key)
      case Some(v) => Some(v)
      case None => match ReadLine(rs[0]) case Some(kv) => if kv.0 == key then Some(kv.1) else None case None => None
  }

  /** The first line that says nothing and is not blank. */
  ghost function FirstBad(rs: seq<string>): Option<string> {
    if rs == [] then None
    else if !AllSpace(rs[0]) && ReadLine(rs[0]).None? then Some(Strip(rs[0]))
    else FirstBad(rs[1..])
  }

  lemma {:induction false} LastSaidAppends(rs: seq<string>, raw: string, key: string)
    ensures LastSaid(rs + [raw], key) ==
      match ReadLine(raw)
      case Some(kv) => if kv.0 == key then Some(kv.1) else LastSaid(rs, key)
      case None => LastSaid(rs, key)
  {
    hide ReadLine;
    if rs == [] {
      assert rs + [raw] == [raw] && [raw][1..] == [];
    } else {
      assert (rs + [raw])[1..] == rs[1..] + [raw];
      LastSaidAppends(rs[1..], raw, key);
    }
  }

  lemma {:induction false} FirstBadAppends(rs: seq<string>, raw: string)
    ensures FirstBad(rs + [raw]) ==
      if FirstBad(rs).Some? then FirstBad(rs)
      else if !AllSpace(raw) && ReadLine(raw).None? then Some(Strip(raw))
      else None
  {
    hide ReadLine, AllSpace, Strip;
    if rs == [] {
      assert rs + [raw] == [raw] && [raw][1..] == [];
    } else {
      assert (rs + [raw])[1..] == rs[1..] + [raw];
      FirstBadAppends(rs[1..], raw);
    }
  }

  lemma BlankSaysNothing(raw: string)
    ensures Strip(raw) == "" <==> AllSpace(raw)
    ensures AllSpace(raw) ==> ReadLine(raw).None?
  {
    hide Strip, IsSpace, KeyRun, LStrip;
    var a, b := StripCuts(raw);
    if Strip(raw) == "" {
      assert raw == a + b;
    }
    if AllSpace(raw) {
      Stripped(raw, "", "");
      assert raw + "" + "" == raw;
      LStripped(raw, "");
      assert raw + "" == raw;
    }
  }

  ghost function Held(m: map<string, string>, key: string): Option<string> {
    if key in m then Some(m[key]) else None
  }

  /** A block's parameters are what its lines say last of each key; what the
      first line says that is none of this, is kept beside them under `_bad`
      unless a line names that key itself. */
  lemma {:induction false} BodyKeeps(rs: seq<string>, key: string)
    ensures Held(ReadBody(rs), key) ==
      if LastSaid(rs, key).Some? then LastSaid(rs, key) else if key == "_bad" then FirstBad(rs) else None
  {
    hide ReadLine, AllSpace, Strip, LastSaid, FirstBad;
    if rs == [] {
      NothingSaid(key);
    } else {
      var init, raw := rs[..|rs| - 1], rs[|rs| - 1];
      assert rs == init + [raw];
      BodyKeeps(init, key);
      BodyKeeps(init, "_bad");
      LastSaidAppends(init, raw, key);
      LastSaidAppends(init, raw, "_bad");
      FirstBadAppends(init, raw);
      BlankSaysNothing(raw);
    }
  }

  lemma NothingSaid(key: string)
    ensures LastSaid([], key).None? && FirstBad([]).None?
  {
  }

  // ---- The lines around a block ----

  ghost predicate Blanks(s: string) {
    forall c :: c in s ==> c as int == 32 || c as int == 9
  }

  lemma BlankIs(s: string)
    ensures Blank(s) <==> Blanks(s)
  {
  }

  /** What `str.splitlines` breaks at. */
  lemma BreaksAre(c: char)
    ensures IsBreak(c) <==> c as int in {10, 11, 12, 13, 28, 29, 30, 133, 8232, 8233}
  {
  }

  lemma KindsAre()
    ensures KindName(Chart) == "chart" && KindName(Table) == "table" && KindName(Command) == "command"
  {
  }

  /** Three backticks and nothing else but blanks. */
  lemma ClosingLine(line: string)
    ensures Closes(line) <==> exists b: string :: line == "```" + b && Blanks(b)
  {
    hide Blank, Blanks;
    if "```" <= line {
      assert line == "```" + line[3..];
      BlankIs(line[3..]);
    }
    forall b: string | line == "```" + b ensures line[3..] == b {}
  }

  lemma {:induction false} BlanksDropped(s: string)
    ensures |DropBlanks(s)| <= |s| && Blanks(s[..|s| - |DropBlanks(s)|])
    ensures s == s[..|s| - |DropBlanks(s)|] + DropBlanks(s)
    ensures var r := DropBlanks(s); r == "" || !(r[0] as int == 32 || r[0] as int == 9)
  {
    if s != "" && (s[0] == ' ' || s[0] == '\t') {
      BlanksDropped(s[1..]);
      var n := |s| - |DropBlanks(s)|;
      assert s[..n] == [s[0]] + s[1..][..n - 1];
    } else {
      assert s[..0] == "";
    }
  }

  lemma {:induction false} DroppedBlanks(a: string, r: string)
    requires Blanks(a) && (r == "" || !(r[0] as int == 32 || r[0] as int == 9))
    ensures DropBlanks(a + r) == r
  {
    if a == "" {
      assert a + r == r;
    } else {
      assert a[0] in a && (a + r)[1..] == a[1..] + r;
      assert forall c :: c in a[1..] ==> c in a;
      DroppedBlanks(a[1..], r);
    }
  }

  /** Three backticks and the name of a kind, with nothing else but blanks around
      the name. */
  ghost predicate Fences(line: string, name: string) {
    exists a: string, b: string :: line == "```" + a + name + b && Blanks(a) && Blanks(b)
  }

  lemma OpensAsIs(line: string, k: Kind)
    ensures OpensAs(line, k) <==> Fences(line, KindName(k))
  {
    hide Blank, DropBlanks, Blanks, KindName;
    var kind := KindName(k);
    if OpensAs(line, k) {
      BlanksDropped(line[3..]);
      var name := DropBlanks(line[3..]);
      var a, b := line[3..][..|line[3..]| - |name|], name[|kind|..];
      BlankIs(b);
      Around(line, a, kind, b, name);
    }
    if a, b :| line == "```" + a + kind + b && Blanks(a) && Blanks(b) {
      KindBegins(k);
      assert line[3..] == a + (kind + b);
      DroppedBlanks(a, kind + b);
      assert (kind + b)[|kind|..] == b && (kind + b)[..|kind|] == kind;
      BlankIs(b);
    }
  }

  lemma Around(line: string, a: string, kind: string, b: string, name: string)
    requires "```" <= line && line[3..] == a + name && kind <= name && b == name[|kind|..] && Blanks(a) && Blanks(b)
    ensures Fences(line, kind)
  {
    hide Blanks;
    assert name == kind + b;
    assert line == "```" + line[3..];
    assert line == "```" + a + kind + b;
  }

  lemma KindBegins(k: Kind)
    ensures KindName(k) != "" && KindName(k)[0] in {'c', 't'}
  {
    assert "chart"[0] == 'c' && "table"[0] == 't' && "command"[0] == 'c';
  }

  /** A line opens a block exactly when it fences the name of a kind, and it opens
      a block of that kind. */
  lemma OpeningExactly(line: string)
    ensures Opens(line) == Some(Chart) <==> Fences(line, "chart")
    ensures Opens(line) == Some(Table) <==> Fences(line, "table")
    ensures Opens(line) == Some(Command) <==> Fences(line, "command")
  {
    hide OpensAs, Fences;
    KindsAre();
    OpensAsIs(line, Chart);
    OpensAsIs(line, Table);
    OpensAsIs(line, Command);
    OneKind(line);
  }

  lemma NameBehind(line: string, name: string)
    requires Fences(line, name) && name in {"chart", "table", "command"}
    ensures |line| >= 3 && name <= DropBlanks(line[3..])
  {
    hide Blanks, DropBlanks;
    var a, b :| line == "```" + a + name + b && Blanks(a) && Blanks(b);
    assert "chart"[0] == 'c' && "table"[0] == 't' && "command"[0] == 'c';
    assert line[3..] == a + (name + b);
    DroppedBlanks(a, name + b);
  }

  /** No line fences two names. */
  lemma OneKind(line: string)
    ensures !(Fences(line, "chart") && Fences(line, "table"))
    ensures !(Fences(line, "chart") && Fences(line, "command"))
    ensures !(Fences(line, "table") && Fences(line, "command"))
  {
    hide Fences, DropBlanks;
    assert "chart"[0] == 'c' && "chart"[1] == 'h' && "table"[0] == 't' && "command"[0] == 'c' && "command"[1] == 'o';
    if Fences(line, "chart") { NameBehind(line, "chart"); }
    if Fences(line, "table") { NameBehind(line, "table"); }
    if Fences(line, "command") { NameBehind(line, "command"); }
  }
}
