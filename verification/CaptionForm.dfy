/** What a caption the author wrote looks like: the checker finds exactly the
    texts of this form (backend/app/agent/blocks.py). */
module CaptionForm {
  import opened Text
  import opened ReportBlocks
  import opened Report

  // ---- Whitespace and digits ----

  ghost predicate Digits(s: string) {
    forall c :: c in s ==> 48 <= c as int <= 57
  }

  lemma {:induction false} SpacesSkipped(a: string, t: string)
    requires AllSpace(a) && (t == "" || !IsSpace(t[0]))
    ensures SkipSpaces(a + t) == t
  {
    if a == "" {
      assert a + t == t;
    } else {
      assert a[0] in a && (a + t)[1..] == a[1..] + t;
      SpacesSkipped(a[1..], t);
    }
  }

  lemma {:induction false} SpacesCut(s: string) returns (a: string)
    ensures s == a + SkipSpaces(s) && AllSpace(a)
    ensures var t := SkipSpaces(s); t == "" || !IsSpace(t[0])
  {
    if s != "" && IsSpace(s[0]) {
      a := SpacesCut(s[1..]);
      assert s == [s[0]] + s[1..];
      a := [s[0]] + a;
    } else {
      a := "";
      assert s == "" + s;
    }
  }

  lemma {:induction false} DigitsSkipped(a: string, t: string)
    requires Digits(a) && (t == "" || !(48 <= t[0] as int <= 57))
    ensures SkipDigits(a + t) == t
  {
    if a == "" {
      assert a + t == t;
    } else {
      assert a[0] in a && (a + t)[1..] == a[1..] + t;
      assert forall c :: c in a[1..] ==> c in a;
      DigitsSkipped(a[1..], t);
    }
  }

  lemma {:induction false} DigitsCut(s: string) returns (a: string)
    ensures s == a + SkipDigits(s) && Digits(a)
  {
    if s != "" && '0' <= s[0] <= '9' {
      a := DigitsCut(s[1..]);
      assert s == [s[0]] + s[1..];
      a := [s[0]] + a;
    } else {
      a := "";
      assert s == "" + s;
    }
  }

  // ---- The word, the number, the mark ----

  ghost predicate FigureWord(w: string) {
    w == "Figure" || w == "Fig." || w == "Table" || w == ['\U{56FE}'] || w == ['\U{8868}']
  }

  ghost predicate Mark(c: char) {
    c as int == 46 || c as int == 58 || c as int == 183 || c as int == 12289
  }

  /** A word, a number and a mark, with any whitespace between them. */
  ghost predicate HeadForm(b: string, word: string, c: string, number: string, d: string, mark: char, rest: string) {
    && b == word + (c + (number + (d + ([mark] + rest))))
    && FigureWord(word) && AllSpace(c) && number != "" && Digits(number) && AllSpace(d) && Mark(mark)
  }

  lemma WordAt(b: string)
    ensures var n := CaptionWord(b); n <= 6 && (n > 0 ==> n <= |b| && FigureWord(b[..n]))
  {
    if b != "" {
      assert b[..1] == [b[0]];
    }
  }

  lemma WordFound(word: string, rest: string)
    requires FigureWord(word)
    ensures CaptionWord(word + rest) == |word| > 0
  {
    var b := word + rest;
    assert word <= b;
    assert "Figure"[0] == 'F' && "Figure"[3] == 'u' && "Fig."[0] == 'F' && "Fig."[3] == '.' && "Table"[0] == 'T';
    if word == "Fig." {
      assert b[3] == '.';
    } else if word == "Table" {
      assert b[0] == 'T';
    } else if word != "Figure" {
      assert b[0] == word[0];
    }
  }

  lemma CharKinds(c: char)
    ensures 48 <= c as int <= 57 ==> !IsSpace(c) && !Mark(c)
    ensures Mark(c) ==> !IsSpace(c)
    ensures Mark(c) <==> IsMark(c)
  {
  }

  lemma HeadIsRead(b: string, word: string, c: string, number: string, d: string, mark: char, rest: string)
    requires HeadForm(b, word, c, number, d, mark, rest)
    ensures AfterHead(b) == Some(rest)
  {
    hide IsSpace, CaptionWord, SkipSpaces, SkipDigits, FigureWord, Mark, IsMark, AllSpace;
    var tail := [mark] + rest;
    var behind := d + tail;
    var digits := number + behind;
    WordFound(word, c + digits);
    assert b[|word|..] == c + digits;
    assert digits[0] == number[0] && number[0] in number;
    CharKinds(number[0]);
    SpacesSkipped(c, digits);
    CharKinds(mark);
    FirstOf(d, mark, rest);
    DigitsSkipped(number, behind);
    assert |digits| > |behind|;
    SpacesSkipped(d, tail);
    assert tail[0] == mark && tail[1..] == rest;
  }

  lemma FirstOf(d: string, mark: char, rest: string)
    requires AllSpace(d) && Mark(mark)
    ensures var t := d + ([mark] + rest); t != "" && !(48 <= t[0] as int <= 57)
  {
    if d != "" {
      assert d[0] in d;
      CharKinds(d[0]);
    }
  }

  lemma HeadParts(b: string) returns (n: nat, c: string, d: string, e: string)
    requires AfterHead(b).Some?
    ensures n == CaptionWord(b) && 0 < n <= |b| && c == SkipSpaces(b[n..]) && d == SkipDigits(c) && e == SkipSpaces(d)
    ensures d != c && e != "" && IsMark(e[0]) && AfterHead(b) == Some(e[1..])
  {
    hide IsSpace, CaptionWord, SkipSpaces, SkipDigits, IsMark;
    n := CaptionWord(b);
    c := SkipSpaces(b[n..]);
    d := SkipDigits(c);
    e := SkipSpaces(d);
  }

  lemma ReadIsHead(b: string) returns (word: string, c: string, number: string, d: string, mark: char)
    requires AfterHead(b).Some?
    ensures HeadForm(b, word, c, number, d, mark, AfterHead(b).value)
  {
    hide IsSpace, CaptionWord, SkipSpaces, SkipDigits, FigureWord, Mark, IsMark, AllSpace, AfterHead, Digits;
    var n, x, y, z := HeadParts(b);
    WordAt(b);
    word := b[..n];
    assert b == word + b[n..];
    c := SpacesCut(b[n..]);
    number := DigitsCut(x);
    assert number == "" ==> number + y == y;
    d := SpacesCut(y);
    mark := z[0];
    CharKinds(mark);
    assert z == [mark] + z[1..];
  }

  // ---- The caption ----

  /** Any whitespace, an emphasis perhaps, any whitespace, and the head. */
  ghost predicate HasForm(text: string, a: string, emphasis: string, b: string, head: string, rest: string) {
    && text == a + (emphasis + (b + head)) && AllSpace(a) && AllSpace(b)
    && (emphasis == "" || emphasis == "**" || emphasis == "__")
    && BeginsHead(head, rest)
  }

  ghost predicate CaptionAt(text: string, rest: string) {
    exists a, emphasis, b, head :: HasForm(text, a, emphasis, b, head, rest)
  }

  ghost predicate BeginsHead(head: string, rest: string) {
    exists word: string, c: string, number: string, d: string, mark: char ::
      HeadForm(head, word, c, number, d, mark, rest)
  }

  lemma HeadExactly(head: string, rest: string)
    ensures AfterHead(head) == Some(rest) <==> BeginsHead(head, rest)
  {
    hide AfterHead, HeadForm;
    if AfterHead(head) == Some(rest) {
      var word, c, number, d, mark := ReadIsHead(head);
    }
    if word, c, number, d, mark :| HeadForm(head, word, c, number, d, mark, rest) {
      HeadIsRead(head, word, c, number, d, mark, rest);
    }
  }

  /** A head begins with none of the characters before it. */
  lemma HeadBegins(head: string, rest: string)
    requires BeginsHead(head, rest)
    ensures head != "" && !IsSpace(head[0]) && !Bold(head)
  {
    var word, c, number, d, mark :| HeadForm(head, word, c, number, d, mark, rest);
    assert head[0] == word[0];
    assert "Figure"[0] == 'F' && "Fig."[0] == 'F' && "Table"[0] == 'T' && "**"[0] == '*' && "__"[0] == '_';
  }

  lemma BoldIs(t: string)
    ensures Bold(t) <==> |t| >= 2 && (t[..2] == "**" || t[..2] == "__")
    ensures Bold(t) ==> t == t[..2] + t[2..] && !IsSpace(t[0])
  {
    assert "**"[0] == '*' && "__"[0] == '_';
  }

  lemma EmphasisRead(emphasis: string, b: string, head: string, rest: string)
    requires emphasis == "" || emphasis == "**" || emphasis == "__"
    requires AllSpace(b) && BeginsHead(head, rest)
    ensures var t := emphasis + (b + head);
            && t != "" && (emphasis != "" ==> !IsSpace(t[0]) && Bold(t) && t[2..] == b + head)
            && (emphasis == "" ==> !Bold(SkipSpaces(t)) && SkipSpaces(t) == head)
  {
    hide BeginsHead, SkipSpaces, IsSpace, AllSpace;
    HeadBegins(head, rest);
    var t := emphasis + (b + head);
    if emphasis == "" {
      assert t == b + head;
      SpacesSkipped(b, head);
    } else {
      BoldIs(t);
      assert t[..2] == emphasis && t[2..] == b + head;
    }
  }

  lemma FormIsFound(a: string, emphasis: string, b: string, head: string, rest: string)
    requires AllSpace(a) && AllSpace(b) && BeginsHead(head, rest)
    requires emphasis == "" || emphasis == "**" || emphasis == "__"
    ensures AfterCaption(a + (emphasis + (b + head))) == Some(rest)
  {
    hide BeginsHead, SkipSpaces, IsSpace, AllSpace, Bold, AfterHead;
    EmphasisRead(emphasis, b, head, rest);
    HeadBegins(head, rest);
    HeadExactly(head, rest);
    var t := emphasis + (b + head);
    if emphasis == "" {
      assert a + t == a + (b + head) == (a + b) + head;
      AllSpaces(a, b);
      SpacesSkipped(a + b, head);
      SkippedTwice(head);
    } else {
      SpacesSkipped(a, t);
      SpacesSkipped(b, head);
    }
  }

  lemma SkippedTwice(head: string)
    requires head != "" && !IsSpace(head[0])
    ensures SkipSpaces(head) == head
  {
  }

  lemma FoundIsForm(text: string, rest: string)
    requires AfterCaption(text) == Some(rest)
    ensures CaptionAt(text, rest)
  {
    hide BeginsHead, SkipSpaces, IsSpace, AllSpace, Bold, AfterHead;
    var t := SkipSpaces(text);
    var a := SpacesCut(text);
    BoldIs(t);
    var emphasis, behind := if Bold(t) then t[..2] else "", if Bold(t) then t[2..] else t;
    assert t == emphasis + behind;
    var b := SpacesCut(behind);
    HeadExactly(SkipSpaces(behind), rest);
    assert HasForm(text, a, emphasis, b, SkipSpaces(behind), rest);
  }

  /** The checker sees a caption at the start of a text exactly when the text has
      that form, and goes on behind it. */
  lemma CaptionExactly(text: string, rest: string)
    ensures AfterCaption(text) == Some(rest) <==> CaptionAt(text, rest)
  {
    hide AfterCaption, BeginsHead, AllSpace;
    if AfterCaption(text) == Some(rest) {
      FoundIsForm(text, rest);
    }
    if a, emphasis, b, head :| HasForm(text, a, emphasis, b, head, rest) {
      FormIsFound(a, emphasis, b, head, rest);
    }
  }

  // ---- The captions of a text ----

  lemma {:induction false} NewlinesCounted(s: string)
    ensures CountNewlines(s) == |Lines(s)| - 1
    decreases |s|
  {
    var i := IndexOf(s, '\n');
    NoneBefore(s, i);
    if i < |s| {
      NewlinesCounted(s[i + 1..]);
      assert s[i..][1..] == s[i + 1..] && s[i..][0] == '\n';
    } else {
      assert s[i..] == "";
    }
  }

  lemma {:induction false} NoneBefore(s: string, i: nat)
    requires i <= |s| && '\n' !in s[..i]
    ensures CountNewlines(s) == CountNewlines(s[i..])
  {
    if i > 0 {
      assert s[0] == s[..i][0] && s[0] in s[..i];
      assert s[1..][..i - 1] == s[..i][1..] && s[1..][i - 1..] == s[i..];
      NoneBefore(s[1..], i - 1);
    } else {
      assert s[0..] == s;
    }
  }

  /** A caption begins on this line. */
  ghost predicate Begins(ls: seq<string>, i: nat)
    requires i < |ls|
  {
    AfterCaption(Join(ls[i..])).Some?
  }

  /** The caption that begins on line `k` goes on over line `j`. */
  ghost predicate GoesOver(ls: seq<string>, k: nat, j: nat)
    requires k < |ls|
  {
    var text := Join(ls[k..]);
    Begins(ls, k) && k < j <= k + |Lines(text[..|text| - |AfterCaption(text).value|])| - 1
  }

  lemma CaptionStep(ls: seq<string>, mask: seq<bool>, i: nat) returns (next: nat)
    requires |mask| == |ls| && i < |ls|
    ensures next > i && (!Begins(ls, i) ==> next == i + 1)
    ensures forall j :: i < j < next ==> GoesOver(ls, i, j)
    ensures Captions(ls, mask, i) == (if Begins(ls, i) && !mask[i] then [i + 1] else []) + Captions(ls, mask, next)
  {
    hide AfterCaption, CountNewlines, Join, Lines;
    var text := Join(ls[i..]);
    next := i + 1;
    if Begins(ls, i) {
      var matched := text[..|text| - |AfterCaption(text).value|];
      NewlinesCounted(matched);
      next := i + 1 + CountNewlines(matched);
    }
  }

  /** Each caption reported is on a line on which one begins outside the fences,
      and they are reported in order. */
  lemma {:induction false} EachReportedBegins(ls: seq<string>, mask: seq<bool>, i: nat)
    requires |mask| == |ls|
    ensures var at := Captions(ls, mask, i);
            && (forall m :: m in at ==> i < m <= |ls| && !mask[m - 1] && Begins(ls, m - 1))
            && (forall x, y :: 0 <= x < y < |at| ==> at[x] < at[y])
    decreases |ls| - i
  {
    hide Captions, Begins, GoesOver;
    if i < |ls| {
      var next := CaptionStep(ls, mask, i);
      EachReportedBegins(ls, mask, next);
      var at, more := Captions(ls, mask, i), Captions(ls, mask, next);
      forall x, y | 0 <= x < y < |at| ensures at[x] < at[y] {
        assert at[y] in more;
        assert |at| == |more| ==> at == more;
        assert |at| > |more| ==> at == [i + 1] + more;
      }
    } else {
      PastTheEnd(ls, mask, i);
    }
  }

  lemma PastTheEnd(ls: seq<string>, mask: seq<bool>, i: nat)
    requires |mask| == |ls| && i >= |ls|
    ensures Captions(ls, mask, i) == []
  {
  }

  /** And none that begins outside the fences is missed, unless an earlier one
      goes on over its line. */
  lemma {:induction false} NoneIsMissed(ls: seq<string>, mask: seq<bool>, i: nat, j: nat)
    requires |mask| == |ls| && i <= j < |ls| && Begins(ls, j) && !mask[j]
    ensures j + 1 in Captions(ls, mask, i) || exists k :: i <= k < j && GoesOver(ls, k, j)
    decreases |ls| - i
  {
    hide Captions, Begins, GoesOver;
    var next := CaptionStep(ls, mask, i);
    if j == i {
      assert j + 1 in [i + 1];
    } else if j < next {
      assert GoesOver(ls, i, j);
    } else {
      NoneIsMissed(ls, mask, next, j);
    }
  }
}
