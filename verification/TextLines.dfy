/** Lines, blanks and trimming as Python's text methods define them. */
module TextLines {

  /** The characters `str.splitlines` breaks at. */
  predicate IsBreak(c: char) {
    '\n' <= c <= '\r' || '\U{1C}' <= c <= '\U{1E}' || c == '\U{85}' || '\U{2028}' <= c <= '\U{2029}'
  }

  /** The characters `str.isspace` accepts. */
  predicate IsSpace(c: char) {
    IsBreak(c) || c == '\t' || '\U{1F}' <= c <= ' ' || c == '\U{A0}' || c == '\U{1680}'
    || '\U{2000}' <= c <= '\U{200A}' || c == '\U{202F}' || c == '\U{205F}' || c == '\U{3000}'
  }

  /** The line boundaries of the documentation of `str.splitlines`. */
  lemma BreakCharacters(c: char)
    ensures IsBreak(c) <==> c in {'\n', '\U{0B}', '\U{0C}', '\r', '\U{1C}', '\U{1D}', '\U{1E}', '\U{85}', '\U{2028}', '\U{2029}'}
  {}

  /** The other white space of `str.isspace`: separators of Unicode, the tab and the unit separator. */
  lemma SpaceCharacters(c: char)
    ensures IsSpace(c) <==>
              || IsBreak(c)
              || c in {'\t', '\U{1F}', ' ', '\U{A0}', '\U{1680}', '\U{202F}', '\U{205F}', '\U{3000}'}
              || c in {'\U{2000}', '\U{2001}', '\U{2002}', '\U{2003}', '\U{2004}', '\U{2005}', '\U{2006}', '\U{2007}', '\U{2008}', '\U{2009}', '\U{200A}'}
  {}

  predicate Blank(s: string) {
    forall c :: c in s ==> IsSpace(c)
  }

  function TrimLeft(s: string): string {
    if s == [] || !IsSpace(s[0]) then s else TrimLeft(s[1..])
  }

  function TrimRight(s: string): string {
    if s == [] || !IsSpace(s[|s| - 1]) then s else TrimRight(s[..|s| - 1])
  }

  function Strip(s: string): string {
    TrimLeft(TrimRight(s))
  }

  lemma {:induction false} TrimLeftCuts(s: string) returns (before: string)
    ensures s == before + TrimLeft(s) && Blank(before) && (TrimLeft(s) == [] || !IsSpace(TrimLeft(s)[0]))
    decreases |s|
  {
    hide IsSpace;
    before := "";
    if s != [] && IsSpace(s[0]) {
      before := TrimLeftCuts(s[1..]);
      before := [s[0]] + before;
    }
  }

  lemma {:induction false} TrimRightCuts(s: string) returns (after: string)
    ensures s == TrimRight(s) + after && Blank(after) && (TrimRight(s) == [] || !IsSpace(TrimRight(s)[|TrimRight(s)| - 1]))
    decreases |s|
  {
    hide IsSpace;
    after := "";
    if s != [] && IsSpace(s[|s| - 1]) {
      after := TrimRightCuts(s[..|s| - 1]);
      after := after + [s[|s| - 1]];
    }
  }

  lemma {:induction false} TrimRightOf(front: string, after: string)
    requires front != [] && !IsSpace(front[|front| - 1]) && Blank(after)
    ensures TrimRight(front + after) == front
    decreases |after|
  {
    hide IsSpace;
    if after == [] {
      assert front + after == front;
    } else {
      var k := |after| - 1;
      assert (front + after)[..|front| + k] == front + after[..k];
      assert after[k] in after;
      TrimRightOf(front, after[..k]);
    }
  }

  lemma {:induction false} TrimLeftOf(before: string, rest: string)
    requires rest != [] && !IsSpace(rest[0]) && Blank(before)
    ensures TrimLeft(before + rest) == rest
    decreases |before|
  {
    hide IsSpace;
    if before == [] {
      assert before + rest == rest;
    } else {
      assert before[0] in before;
      assert (before + rest)[1..] == before[1..] + rest;
      TrimLeftOf(before[1..], rest);
    }
  }

  /** Trimming removes exactly the blank ends: it is the only way to cut a text between blanks. */
  lemma StripUnique(before: string, middle: string, after: string)
    requires Blank(before) && Blank(after)
    requires middle != [] && !IsSpace(middle[0]) && !IsSpace(middle[|middle| - 1])
    ensures Strip(before + middle + after) == middle
  {
    hide IsSpace;
    TrimRightOf(before + middle, after);
    TrimLeftOf(before, middle);
  }

  lemma {:induction false} TrimBlank(s: string)
    requires Blank(s)
    ensures TrimRight(s) == []
    decreases |s|
  {
    hide IsSpace;
    if s != [] {
      assert s[|s| - 1] in s;
      TrimBlank(s[..|s| - 1]);
    }
  }

  lemma StripBlank(s: string)
    ensures Strip(s) == [] <==> Blank(s)
  {
    hide IsSpace;
    if Blank(s) {
      TrimBlank(s);
    } else {
      var before, after := StripParts(s);
      assert Strip(s) == [] ==> s == before + after;
    }
  }

  lemma StripParts(s: string) returns (before: string, after: string)
    ensures s == before + Strip(s) + after && Blank(before) && Blank(after)
    ensures Strip(s) != [] ==> !IsSpace(Strip(s)[0]) && !IsSpace(Strip(s)[|Strip(s)| - 1])
  {
    hide IsSpace, Blank, TrimLeft, TrimRight;
    after := TrimRightCuts(s);
    before := TrimLeftCuts(TrimRight(s));
    var r, q := TrimRight(s), Strip(s);
    if q != [] {
      assert r[|r| - 1] == (before + q)[|r| - 1] == q[|q| - 1];
    }
  }

  lemma BlankJoin(a: string, b: string)
    ensures Blank(a + b) <==> Blank(a) && Blank(b)
  {
    hide IsSpace;
    assert forall c :: c in a || c in b <==> c in a + b;
  }

  /** Blanks at the end do not matter. */
  lemma StripBlankEnd(s: string, after: string)
    requires Blank(after)
    ensures Strip(s + after) == Strip(s)
  {
    hide IsSpace, Strip, Blank;
    StripBlank(s);
    StripBlank(s + after);
    BlankJoin(s, after);
    if !Blank(s) {
      var before, end := StripParts(s);
      BlankJoin(end, after);
      StripUnique(before, Strip(s), end + after);
      Regroup(before, Strip(s), end, after);
    }
  }

  /** What follows a text that is not blank does not change where its trimmed form starts. */
  lemma StripHead(s: string, more: string)
    requires !Blank(s)
    ensures !Blank(s + more) && Strip(s) != [] && Strip(s + more) != [] && Strip(s + more)[0] == Strip(s)[0]
  {
    hide IsSpace, Strip, Blank;
    StripBlank(s);
    StripBlank(s + more);
    BlankJoin(s, more);
    var before, end := StripParts(s);
    var before2, end2 := StripParts(s + more);
    Regroup(before, Strip(s), end, more);
    FirstSolid(s + more, before, Strip(s), end + more);
    FirstSolid(s + more, before2, Strip(s + more), end2);
  }

  lemma Regroup(a: string, b: string, c: string, d: string)
    ensures a + b + c + d == a + b + (c + d) == a + (b + c + d)
  {}

  lemma FirstSolid(text: string, before: string, middle: string, after: string)
    requires text == before + middle + after
    requires Blank(before) && middle != [] && !IsSpace(middle[0])
    ensures TrimLeft(text) != [] && TrimLeft(text)[0] == middle[0]
  {
    hide IsSpace, Blank, TrimLeft;
    TrimLeftOf(before, middle + after);
    assert text == before + (middle + after);
  }

  // ---------------------------------------------------------------- lines

  /** Length of the first line with its terminator; carriage return and line feed end a line together. */
  function FirstLine(text: string): (n: nat)
    ensures n <= |text| && (text != [] ==> n > 0)
  {
    if text == [] then 0
    else if text[0] == '\r' && |text| > 1 && text[1] == '\n' then 2
    else if IsBreak(text[0]) then 1
    else 1 + FirstLine(text[1..])
  }

  function SplitLines(text: string): seq<string>
    decreases |text|
  {
    if text == [] then [] else [text[..FirstLine(text)]] + SplitLines(text[FirstLine(text)..])
  }

  function Join(lines: seq<string>): string {
    if lines == [] then [] else lines[0] + Join(lines[1..])
  }

  lemma {:induction false} JoinSplit(text: string)
    ensures Join(SplitLines(text)) == text
    decreases |text|
  {
    if text != [] {
      JoinSplit(text[FirstLine(text)..]);
      assert SplitLines(text)[1..] == SplitLines(text[FirstLine(text)..]);
    }
  }

  /** A text that ends with a line terminator. */
  predicate Ended(line: string) {
    line != [] && IsBreak(line[|line| - 1])
  }

  /** Line `a` stays whole when `b` follows it. */
  predicate Follows(a: string, b: string) {
    Ended(a) && !(a[|a| - 1] == '\r' && b != [] && b[0] == '\n')
  }

  predicate OneLine(line: string) {
    line != [] && FirstLine(line) == |line|
  }

  /** Lines that stay the same lines when they are joined into one text. */
  predicate Tidy(lines: seq<string>) {
    && (forall i :: 0 <= i < |lines| ==> OneLine(lines[i]))
    && (forall i :: 0 <= i < |lines| - 1 ==> Follows(lines[i], lines[i + 1]))
  }

  lemma {:induction false} FirstOfMore(line: string, more: string)
    requires OneLine(line) && (more == [] || Follows(line, more))
    ensures FirstLine(line + more) == |line|
    decreases |line|
  {
    var text := line + more;
    if more == [] {
      assert text == line;
    } else if |line| > 1 && !IsBreak(line[0]) {
      assert text[1..] == line[1..] + more;
      FirstOfMore(line[1..], more);
    }
  }

  lemma {:induction false} JoinFirst(lines: seq<string>)
    requires lines != [] && lines[0] != []
    ensures Join(lines) != [] && Join(lines)[0] == lines[0][0]
  {}

  /** Joining and splitting again gives the same lines exactly for tidy lines. */
  lemma {:induction false} SplitJoin(lines: seq<string>)
    requires Tidy(lines)
    ensures SplitLines(Join(lines)) == lines
    decreases |lines|
  {
    if lines != [] {
      var rest := lines[1..];
      assert forall i :: 0 <= i < |rest| ==> rest[i] == lines[i + 1];
      if rest != [] {
        JoinFirst(rest);
        assert Follows(lines[0], lines[1]);
      }
      FirstOfMore(lines[0], Join(rest));
      assert Join(lines)[|lines[0]|..] == Join(rest);
      SplitJoin(rest);
    }
  }

  lemma {:induction false} FirstIsLine(text: string)
    requires text != []
    ensures OneLine(text[..FirstLine(text)])
    ensures FirstLine(text) < |text| ==> Follows(text[..FirstLine(text)], text[FirstLine(text)..])
    decreases |text|
  {
    var n := FirstLine(text);
    if IsBreak(text[0]) {
    } else if |text| > 1 {
      FirstIsLine(text[1..]);
      assert text[..n][1..] == text[1..][..n - 1];
      assert text[n..] == text[1..][n - 1..];
    }
  }

  lemma {:induction false} SplitTidy(text: string)
    ensures Tidy(SplitLines(text))
    decreases |text|
  {
    if text != [] {
      var n := FirstLine(text);
      FirstIsLine(text);
      SplitTidy(text[n..]);
      var rest := SplitLines(text[n..]);
      if rest != [] {
        assert rest[0] == text[n..][..FirstLine(text[n..])];
        assert rest[0][0] == text[n];
      }
      var lines := SplitLines(text);
      assert forall i :: 1 <= i < |lines| ==> lines[i] == rest[i - 1];
    }
  }

  lemma {:induction false} JoinAppend(xs: seq<string>, ys: seq<string>)
    ensures Join(xs + ys) == Join(xs) + Join(ys)
    decreases |xs|
  {
    if xs == [] {
      assert xs + ys == ys;
    } else {
      assert (xs + ys)[0] == xs[0] && (xs + ys)[1..] == xs[1..] + ys;
      JoinAppend(xs[1..], ys);
    }
  }

  /** A line without its terminator, as `splitlines` gives it by default. */
  function Chomp(line: string): string {
    if |line| >= 2 && line[|line| - 2] == '\r' && line[|line| - 1] == '\n' then line[..|line| - 2]
    else if Ended(line) then line[..|line| - 1]
    else line
  }

  lemma BreaksBlank(s: string)
    requires forall c :: c in s ==> IsBreak(c)
    ensures Blank(s)
  {}

  lemma ChompParts(line: string) returns (ending: string)
    ensures line == Chomp(line) + ending && (ending == [] || ending == ['\r', '\n'] || (|ending| == 1 && IsBreak(ending[0])))
  {
    hide IsBreak;
    ending := line[|Chomp(line)|..];
  }

  lemma ChompKeepsText(line: string)
    ensures Strip(Chomp(line)) == Strip(line)
    ensures |Chomp(line)| <= |line| && Chomp(line) == line[..|Chomp(line)|]
    ensures forall c :: c in line[|Chomp(line)|..] ==> IsBreak(c)
  {
    hide Strip, Blank, IsBreak, Chomp;
    var ending := ChompParts(line);
    Newline();
    BreaksBlank(ending);
    StripBlankEnd(Chomp(line), ending);
    assert line[|Chomp(line)|..] == ending;
  }

  /** A text with a terminator only at its end is one line. */
  lemma {:induction false} SoleBreakLine(body: string)
    requires forall c :: c in body ==> !IsBreak(c)
    ensures OneLine(body + ['\n'])
    decreases |body|
  {
    hide IsBreak;
    if body == [] {
      assert body + ['\n'] == ['\n'] && IsBreak('\n') by { Newline(); }
    } else {
      SoleBreakLine(body[1..]);
      assert body[0] in body && (body + ['\n'])[1..] == body[1..] + ['\n'];
      assert body[0] != '\r' by { Newline(); }
    }
  }

  lemma Newline()
    ensures IsBreak('\n') && IsBreak('\r')
  {}
}
