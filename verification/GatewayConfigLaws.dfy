/** The editor of the key list agrees with its reader, and removing undoes appending. */
module GatewayConfigLaws {
  import opened Wrappers
  import opened TextLines
  import opened Scalars
  import opened GatewayConfig

  // ---------------------------------------------------------------- the new line

  lemma NewLineStrip(key: string)
    ensures Strip(NewLine(key)) == "- " + JsonQuote(key)
    ensures Strip(Strip(NewLine(key))[1..]) == JsonQuote(key)
  {
    var q := JsonQuote(key);
    SpacesBlank();
    QuoteEnds(key);
    hide Strip, IsSpace, Blank, JsonQuote;
    StripUnique("  ", "- " + q, "\n");
    assert NewLine(key) == "  " + ("- " + q) + "\n";
    StripUnique(" ", q, "");
    assert ("- " + q)[1..] == " " + q + "";
  }

  lemma SpacesBlank()
    ensures Blank("  ") && Blank("\n") && Blank(" ") && Blank("") && !IsSpace('-') && !IsSpace('"') && IsSpace(' ')
  {}

  lemma QuoteEnds(key: string)
    ensures var q := JsonQuote(key); |q| >= 2 && q[0] == '"' && q[|q| - 1] == '"'
  {}

  lemma NewLineKind(key: string)
    ensures KindOf(NewLine(key)) == Item(JsonQuote(key)) && !IsHeader(NewLine(key))
  {
    hide Strip, IsSpace, JsonQuote;
    NewLineStrip(key);
    SpacesBlank();
    KindTests(NewLine(key));
    assert NewLine(key)[0] == ' ';
    assert |NewLine(key)| >= |HEADER| ==> NewLine(key)[..|HEADER|][0] == NewLine(key)[0];
  }

  lemma NewLineIsLine(key: string)
    ensures OneLine(NewLine(key)) && NewLine(key)[0] == ' ' && NewLine(key)[|NewLine(key)| - 1] == '\n' && Ended(NewLine(key))
  {
    hide JsonQuote, OneLine;
    QuotePrintable(key);
    var body := "  - " + JsonQuote(key);
    forall c | c in body ensures !IsBreak(c) {
      assert ' ' <= c <= '~';
    }
    SoleBreakLine(body);
    assert NewLine(key) == body + ['\n'];
  }

  // ---------------------------------------------------------------- lists of lines

  predicate InList(lines: seq<string>) {
    forall i :: 0 <= i < |lines| ==> !KindOf(lines[i]).Top?
  }

  predicate ListEnds(lines: seq<string>) {
    lines == [] || KindOf(lines[0]).Top?
  }

  lemma {:induction false} BlockSplits(lines: seq<string>)
    ensures var n := BlockLength(lines); InList(lines[..n]) && ListEnds(lines[n..])
    decreases |lines|
  {
    hide KindOf;
    if lines != [] && !KindOf(lines[0]).Top? {
      BlockSplits(lines[1..]);
      var n := BlockLength(lines[1..]);
      assert lines[n + 1..] == lines[1..][n..];
      var block := lines[..n + 1];
      forall i | 0 <= i < |block| ensures !KindOf(block[i]).Top? {
        assert i > 0 ==> block[i] == lines[1..][..n][i - 1];
      }
    }
  }

  lemma {:induction false} KeysAppend(xs: seq<string>, ys: seq<string>)
    requires InList(xs)
    ensures KeysIn(xs + ys) == match KeysIn(xs) case Failure(e) => Failure(e) case Success(keys) => PrependKeys(keys, KeysIn(ys))
    decreases |xs|
  {
    hide KindOf, ParseScalar;
    if xs == [] {
      assert xs + ys == ys;
      PrependNone(KeysIn(ys));
    } else {
      assert (xs + ys)[0] == xs[0] && (xs + ys)[1..] == xs[1..] + ys;
      assert forall i :: 0 <= i < |xs[1..]| ==> xs[1..][i] == xs[i + 1];
      KeysAppend(xs[1..], ys);
      if KeysIn(xs[1..]).Success? && KeysIn(ys).Success? && KindOf(xs[0]).Item? && ParseScalar(KindOf(xs[0]).value).Success? {
        var k := ParseScalar(KindOf(xs[0]).value).value;
        assert [k] + (KeysIn(xs[1..]).value + KeysIn(ys).value) == [k] + KeysIn(xs[1..]).value + KeysIn(ys).value;
      }
    }
  }

  lemma {:induction false} KeysCounted(lines: seq<string>)
    ensures KeysIn(lines).Success? ==> |KeysIn(lines).value| == ItemCount(lines)
    decreases |lines|
  {
    hide KindOf, ParseScalar;
    if lines != [] {
      KeysCounted(lines[1..]);
    }
  }

  lemma {:induction false} ItemsAppend(xs: seq<string>, ys: seq<string>)
    requires InList(xs)
    ensures ItemCount(xs + ys) == ItemCount(xs) + ItemCount(ys)
    decreases |xs|
  {
    hide KindOf;
    if xs == [] {
      assert xs + ys == ys;
    } else {
      assert (xs + ys)[0] == xs[0] && (xs + ys)[1..] == xs[1..] + ys;
      assert forall i :: 0 <= i < |xs[1..]| ==> xs[1..][i] == xs[i + 1];
      ItemsAppend(xs[1..], ys);
    }
  }

  /** The keys before the end of the list are all of them. */
  lemma KeysOfBlock(block: seq<string>, after: seq<string>)
    requires InList(block) && ListEnds(after)
    ensures KeysIn(block + after) == KeysIn(block)
  {
    hide KindOf, ParseScalar, InList;
    KeysAppend(block, after);
    if KeysIn(block).Success? {
      EmptyEnds(KeysIn(block).value);
    }
  }

  /** A key line put at the end of the list adds its key at the end. */
  lemma KeysWithLine(block: seq<string>, line: string, after: seq<string>, key: string)
    requires InList(block) && ListEnds(after) && Holds(line, key)
    ensures KeysIn(block + [line] + after) == match KeysIn(block) case Failure(e) => Failure(e) case Success(keys) => Success(keys + [key])
  {
    hide KindOf, ParseScalar;
    assert InList([line]) && InList(block + [line]);
    KeysOfBlock(block + [line], after);
    KeysAppend(block, [line]);
    assert KeysIn([line]) == Success([key]) by { OneKey(line, key); }
  }

  lemma OneKey(line: string, key: string)
    requires Holds(line, key)
    ensures KeysIn([line]) == Success([key])
  {
    hide KindOf, ParseScalar;
    assert [line][1..] == [] && [key] + [] == [key];
    assert KeysIn([line][1..]) == Success([]);
  }

  /** Only the lines from the header on decide, and the header stays the only one. */
  lemma HeaderKept(front: seq<string>, before: seq<string>, changed: seq<string>)
    requires Header(front + before) == Some(|front| - 1) && front != []
    requires forall i :: 0 <= i < |changed| ==> !IsHeader(changed[i])
    ensures Header(front + changed) == Some(|front| - 1)
  {
    hide Strip, IsHeader;
    var a, b := front + before, front + changed;
    var h := |front| - 1;
    assert a[h] == b[h] == front[h] && forall i :: 0 <= i < h ==> a[i] == b[i] == front[i];
    var f := FirstHeader(b, 0);
    assert f == h && Strip(b[h]) == HEADER;
    forall i | |front| <= i < |b| ensures !IsHeader(b[i]) {
      assert b[i] == changed[i - |front|];
    }
  }

  // ---------------------------------------------------------------- appending

  ghost predicate ListsKeys(lines: seq<string>, h: nat, keys: seq<string>) {
    h < |lines| && Header(lines) == Some(h) && KeysIn(lines[h + 1..]) == Success(keys) && keys != []
  }

  function ListEnd(lines: seq<string>, h: nat): nat
    requires h < |lines|
  {
    h + 1 + BlockLength(lines[h + 1..])
  }

  /** The insertion point follows a line terminator. */
  predicate Terminated(lines: seq<string>, h: nat)
    requires h < |lines|
  {
    Ended(lines[ListEnd(lines, h) - 1])
  }

  lemma TidyInsert(lines: seq<string>, e: nat, key: string)
    requires Tidy(lines) && 0 < e <= |lines| && Ended(lines[e - 1])
    ensures Tidy(lines[..e] + [NewLine(key)] + lines[e..])
  {
    hide OneLine, NewLine, IsBreak;
    NewLineIsLine(key);
    var n := lines[..e] + [NewLine(key)] + lines[e..];
    forall i | 0 <= i < |n| ensures OneLine(n[i]) {
      assert n[i] == if i < e then lines[i] else if i == e then NewLine(key) else lines[i - 1];
    }
    forall i | 0 <= i < |n| - 1 ensures Follows(n[i], n[i + 1]) {
      if i + 1 < e {
        assert Follows(lines[i], lines[i + 1]);
      } else if i > e {
        assert Follows(lines[i - 1], lines[i]);
      }
    }
  }

  /** Every line but the last is terminated, so only a list at the very end can lack its terminator. */
  lemma OnlyLastOpen(lines: seq<string>, h: nat)
    requires Tidy(lines) && h < |lines|
    ensures !Terminated(lines, h) ==> ListEnd(lines, h) == |lines|
  {
    hide OneLine, KindOf;
    var e := ListEnd(lines, h);
    if e < |lines| {
      assert Follows(lines[e - 1], lines[e]);
    }
  }

  lemma HeadersAfter(lines: seq<string>, h: nat, changed: seq<string>)
    requires h < |lines| && Header(lines) == Some(h)
    requires forall i :: 0 <= i < |changed| ==> !IsHeader(changed[i])
    ensures Header(lines[..h + 1] + changed) == Some(h)
    ensures (lines[..h + 1] + changed)[h + 1..] == changed
  {
    hide Strip, IsHeader;
    assert lines == lines[..h + 1] + lines[h + 1..];
    HeaderKept(lines[..h + 1], lines[h + 1..], changed);
  }

  lemma NewHolds(key: string)
    requires ValidKey(key)
    ensures Holds(NewLine(key), key)
  {
    hide KindOf, ParseScalar, NewLine, JsonQuote;
    NewLineKind(key);
    PrintedParses(key);
  }

  /** The lines of the appended config: the old ones with the new one put in, nothing else changed. */
  lemma AppendedLines(config: string, h: nat, key: string)
    requires h < |SplitLines(config)| && Header(SplitLines(config)) == Some(h) && Terminated(SplitLines(config), h)
    ensures var lines, e := SplitLines(config), ListEnd(SplitLines(config), h);
            SplitLines(Appended(lines, h, key)) == lines[..e] + [NewLine(key)] + lines[e..]
  {
    hide NewLine, KindOf, Header, FirstLine;
    var lines := SplitLines(config);
    SplitTidy(config);
    TidyInsert(lines, ListEnd(lines, h), key);
    SplitJoin(lines[..ListEnd(lines, h)] + [NewLine(key)] + lines[ListEnd(lines, h)..]);
  }

  lemma CutTwice<T>(s: seq<T>, a: nat, n: nat)
    requires a + n <= |s|
    ensures s[..a + n] == s[..a] + s[a..][..n]
    ensures s[a + n..] == s[a..][n..]
    ensures s[a..] == s[a..][..n] + s[a..][n..]
  {}

  lemma FourParts<T>(a: seq<T>, b: seq<T>, c: seq<T>, d: seq<T>)
    ensures (a + b) + c + d == a + (b + c + d)
  {}

  /** The three parts of the lines after the header: the list, what was inserted, the rest. */
  lemma Parts(lines: seq<string>, h: nat, added: seq<string>)
    requires h < |lines|
    ensures var tail, n := lines[h + 1..], BlockLength(lines[h + 1..]);
            && tail == tail[..n] + tail[n..]
            && lines[..h + 1 + n] + added + lines[h + 1 + n..] == lines[..h + 1] + (tail[..n] + added + tail[n..])
  {
    hide KindOf, BlockLength;
    var tail, n := lines[h + 1..], BlockLength(lines[h + 1..]);
    CutTwice(lines, h + 1, n);
    FourParts(lines[..h + 1], tail[..n], added, tail[n..]);
  }

  lemma TailHeaders(lines: seq<string>, h: nat, n: nat, line: string)
    requires h < |lines| && n <= |lines| - h - 1 && Header(lines) == Some(h) && !IsHeader(line)
    ensures var tail := lines[h + 1..]; var changed := tail[..n] + [line] + tail[n..];
            forall i :: 0 <= i < |changed| ==> !IsHeader(changed[i])
  {
    hide IsHeader, Strip;
    var tail := lines[h + 1..];
    var changed := tail[..n] + [line] + tail[n..];
    forall i | 0 <= i < |changed| ensures !IsHeader(changed[i]) {
      assert i < n ==> changed[i] == lines[h + 1 + i];
      assert i > n ==> changed[i] == lines[h + i];
    }
  }

  /** Appending at a terminated list adds exactly the key, and counts the keys before it. */
  lemma AppendAdds(config: string, h: nat, keys: seq<string>, key: string)
    requires ListsKeys(SplitLines(config), h, keys) && ValidKey(key) && Terminated(SplitLines(config), h)
    ensures ApiKeys(Appended(SplitLines(config), h, key)) == Success(keys + [key])
    ensures ItemCount(SplitLines(config)[h + 1..]) == |keys|
  {
    hide KindOf, NewLine, Appended, SplitLines, Strip, IsHeader, Header, Holds;
    var lines := SplitLines(config);
    AppendedLines(config, h, key);
    var tail, n := lines[h + 1..], BlockLength(lines[h + 1..]);
    NewLineKind(key);
    NewHolds(key);
    Parts(lines, h, [NewLine(key)]);
    TailHeaders(lines, h, n, NewLine(key));
    HeadersAfter(lines, h, tail[..n] + [NewLine(key)] + tail[n..]);
    BlockSplits(tail);
    KeysOfBlock(tail[..n], tail[n..]);
    KeysWithLine(tail[..n], NewLine(key), tail[n..], key);
    KeysCounted(tail);
  }

  // ---------------------------------------------------------------- an unterminated list

  lemma {:induction false} OpenLineBreakless(line: string)
    requires OneLine(line) && !Ended(line)
    ensures forall c :: c in line ==> !IsBreak(c)
    decreases |line|
  {
    hide IsBreak;
    if |line| > 1 {
      assert line[|line| - 1] == line[1..][|line| - 2];
      Newline();
      OpenLineBreakless(line[1..]);
    }
  }

  /** The new line runs into an unterminated last line. */
  lemma MergedLine(line: string, key: string)
    requires OneLine(line) && !Ended(line)
    ensures OneLine(line + NewLine(key))
    ensures !IsHeader(line) ==> !IsHeader(line + NewLine(key))
    ensures Blank(line) ==> KindOf(line).Skip? && KindOf(line + NewLine(key)) == Item(JsonQuote(key))
    ensures !Blank(line) ==> (KindOf(line).Item? <==> KindOf(line + NewLine(key)).Item?) && (KindOf(line).Top? <==> KindOf(line + NewLine(key)).Top?)
  {
    MergedIsLine(line, key);
    MergedHeader(line, key);
    MergedKind(line, key);
  }

  lemma MergedIsLine(line: string, key: string)
    requires OneLine(line) && !Ended(line)
    ensures OneLine(line + NewLine(key))
  {
    hide JsonQuote, OneLine, Ended;
    OpenLineBreakless(line);
    QuotePrintable(key);
    var body := line + ("  - " + JsonQuote(key));
    forall c | c in body ensures !IsBreak(c) {
      assert c in line || ' ' <= c <= '~';
    }
    SoleBreakLine(body);
    assert line + NewLine(key) == body + ['\n'];
  }

  lemma MergedHeader(line: string, key: string)
    ensures !IsHeader(line) ==> !IsHeader(line + NewLine(key))
  {
    hide JsonQuote;
    var more := line + NewLine(key);
    if |line| < |HEADER| {
      assert more[|line|] == ' ';
      assert |more| >= |HEADER| ==> more[..|HEADER|][|line|] == ' ' != HEADER[|line|];
    } else {
      assert more[..|HEADER|] == line[..|HEADER|];
    }
  }

  lemma MergedKind(line: string, key: string)
    requires line != []
    ensures Blank(line) ==> KindOf(line).Skip? && KindOf(line + NewLine(key)) == Item(JsonQuote(key))
    ensures !Blank(line) ==> (KindOf(line).Item? <==> KindOf(line + NewLine(key)).Item?) && (KindOf(line).Top? <==> KindOf(line + NewLine(key)).Top?)
  {
    hide Strip, IsSpace, Blank, NewLine, KindOf;
    StripBlank(line);
    KindTests(line);
    KindTests(line + NewLine(key));
    if Blank(line) {
      MergedStrip(line, key);
      FirstBlank(line);
      SpacesBlank();
    } else {
      StripHead(line, NewLine(key));
    }
  }

  lemma MergedStrip(line: string, key: string)
    requires Blank(line)
    ensures Strip(line + NewLine(key)) == "- " + JsonQuote(key) && Strip(Strip(line + NewLine(key))[1..]) == JsonQuote(key)
  {
    hide Strip, IsSpace, Blank, JsonQuote;
    var q := JsonQuote(key);
    NewLineStrip(key);
    SpacesBlank();
    QuoteEnds(key);
    BlankJoin(line, "  ");
    StripUnique(line + "  ", "- " + q, "\n");
    assert line + NewLine(key) == line + "  " + ("- " + q) + "\n";
  }

  lemma FirstBlank(line: string)
    requires line != []
    ensures Blank(line) ==> IsSpace(line[0])
  {
    hide IsSpace;
  }

  lemma TidyReplaceLast(lines: seq<string>, last: string)
    requires Tidy(lines) && lines != [] && OneLine(last) && last[0] == lines[|lines| - 1][0]
    ensures Tidy(lines[..|lines| - 1] + [last])
  {
    hide FirstLine, IsBreak;
    var n := lines[..|lines| - 1] + [last];
    forall i | 0 <= i < |n| - 1 ensures Follows(n[i], n[i + 1]) {
      assert Follows(lines[i], lines[i + 1]);
    }
  }

  /** The lines of a config whose unterminated last line the new one ran into. */
  lemma MergedLines(config: string, h: nat, key: string)
    requires h < |SplitLines(config)| && Header(SplitLines(config)) == Some(h) && !Terminated(SplitLines(config), h)
    ensures var lines := SplitLines(config); var k := |lines| - 1;
            SplitLines(Appended(lines, h, key)) == lines[..k] + [lines[k] + NewLine(key)]
            && OneLine(lines[k]) && !Ended(lines[k])
  {
    hide NewLine, KindOf, Header, FirstLine, IsBreak;
    var lines := SplitLines(config);
    var k := |lines| - 1;
    SplitTidy(config);
    OnlyLastOpen(lines, h);
    MergedIsLine(lines[k], key);
    TidyReplaceLast(lines, lines[k] + NewLine(key));
    SplitJoin(lines[..k] + [lines[k] + NewLine(key)]);
    JoinAppend(lines[..k], [lines[k], NewLine(key)]);
    JoinAppend(lines[..k], [lines[k] + NewLine(key)]);
    JoinTwo(lines[k], NewLine(key));
    assert lines[..|lines|] + [NewLine(key)] + lines[|lines|..] == lines[..k] + [lines[k], NewLine(key)];
  }

  lemma JoinTwo(a: string, b: string)
    ensures Join([a, b]) == Join([a + b]) == a + b
  {
    assert [a, b][1..] == [b] && [b][1..] == [] && [a + b][1..] == [];
    assert Join([]) == [] && Join([b]) == b + [] && Join([a + b]) == (a + b) + [];
  }

  /** With an unterminated list the key is added exactly when the last line is blank. */
  lemma AppendUnterminated(config: string, h: nat, keys: seq<string>, key: string)
    requires ListsKeys(SplitLines(config), h, keys) && ValidKey(key) && !Terminated(SplitLines(config), h)
    ensures ApiKeys(Appended(SplitLines(config), h, key)) == Success(keys + [key])
            <==> Blank(SplitLines(config)[|SplitLines(config)| - 1])
  {
    hide KindOf, NewLine, Appended, SplitLines, Strip, IsHeader, Header, Blank, ParseScalar, Ended, OneLine, KeysIn, Tidy, BlockLength, InList, ItemCount;
    var lines := SplitLines(config);
    var k := |lines| - 1;
    MergedLines(config, h, key);
    SplitTidy(config);
    OnlyLastOpen(lines, h);
    var tail := lines[h + 1..];
    KeysNeedLines(tail);
    BlockSplits(tail);
    WholeBlock(tail, BlockLength(tail));
    var front := tail[..|tail| - 1];
    LastApart(lines, h, lines[k] + NewLine(key));
    MergedHeaders(lines, h, front, key, front + [lines[k] + NewLine(key)]);
    HeadersAfter(lines, h, front + [lines[k] + NewLine(key)]);
    MergedKeys(front, lines[k], keys, key);
  }

  lemma LastApart(lines: seq<string>, h: nat, z: string)
    requires h + 1 < |lines|
    ensures var k, front := |lines| - 1, lines[h + 1..][..|lines| - h - 2];
            && lines[h + 1..] == front + [lines[k]] && lines[..k] == lines[..h + 1] + front
            && lines[..k] + [z] == lines[..h + 1] + (front + [z])
  {}

  lemma KeysNeedLines(lines: seq<string>)
    ensures lines == [] ==> KeysIn(lines) == Success([])
  {}

  lemma WholeBlock(tail: seq<string>, n: nat)
    requires n == |tail| && InList(tail[..n]) && tail != []
    ensures InList(tail) && InList(tail[..|tail| - 1])
  {
    hide KindOf;
    assert tail[..n] == tail;
    var front := tail[..|tail| - 1];
    assert forall i :: 0 <= i < |front| ==> front[i] == tail[i];
  }

  lemma MergedHeaders(lines: seq<string>, h: nat, front: seq<string>, key: string, changed: seq<string>)
    requires h < |lines| - 1 && Header(lines) == Some(h) && front == lines[h + 1..|lines| - 1]
    requires OneLine(lines[|lines| - 1]) && !Ended(lines[|lines| - 1])
    requires changed == front + [lines[|lines| - 1] + NewLine(key)]
    ensures forall i :: 0 <= i < |changed| ==> !IsHeader(changed[i])
  {
    hide IsHeader, NewLine, KindOf, OneLine, Ended, Strip;
    HeaderLines(lines, h);
    MergedHeader(lines[|lines| - 1], key);
  }

  /** What the merged last line does to the keys. */
  lemma MergedKeys(front: seq<string>, last: string, keys: seq<string>, key: string)
    requires InList(front) && OneLine(last) && !Ended(last) && ValidKey(key)
    requires KeysIn(front + [last]) == Success(keys)
    ensures NonEmpty(KeysIn(front + [last + NewLine(key)])) == Success(keys + [key]) <==> Blank(last)
  {
    hide KindOf, NewLine, ParseScalar, OneLine, Ended, Blank, InList;
    var merged := last + NewLine(key);
    MergedLine(last, key);
    if Blank(last) {
      NewLineKind(key);
      PrintedParses(key);
      KeysWithLine(front, merged, [], key);
      assert front + [merged] + [] == front + [merged];
      KeysAppend(front, [last]);
      SkipKeys(last);
      if KeysIn(front).Success? {
        EmptyEnds(KeysIn(front).value);
      }
    } else {
      KeysCounted(front + [merged]);
      KeysCounted(front + [last]);
      LastItem(front, last, merged);
    }
  }

  lemma SkipKeys(line: string)
    requires KindOf(line).Skip?
    ensures KeysIn([line]) == Success([])
  {
    hide KindOf;
    assert KeysIn([line][1..]) == Success([]);
  }

  lemma HeaderLines(lines: seq<string>, h: nat)
    requires Header(lines) == Some(h)
    ensures forall i :: h < i < |lines| ==> !IsHeader(lines[i])
  {
    hide IsHeader, Strip;
  }

  lemma LastItem(front: seq<string>, a: string, b: string)
    requires InList(front) && (KindOf(a).Item? <==> KindOf(b).Item?)
    ensures ItemCount(front + [a]) == ItemCount(front + [b])
  {
    hide KindOf;
    ItemsAppend(front, [a]);
    ItemsAppend(front, [b]);
    assert [a][1..] == [] && [b][1..] == [];
    assert ItemCount([a][1..]) == 0 && ItemCount([b][1..]) == 0;
  }

  /** Appending adds exactly the key if and only if the list is terminated or ends in a blank line. */
  lemma AppendAddsIff(config: string, h: nat, keys: seq<string>, key: string)
    requires ListsKeys(SplitLines(config), h, keys) && ValidKey(key)
    ensures ApiKeys(Appended(SplitLines(config), h, key)) == Success(keys + [key])
            <==> Terminated(SplitLines(config), h) || Blank(SplitLines(config)[|SplitLines(config)| - 1])
  {
    hide Appended, SplitLines, ApiKeys, Blank, Header, KeysIn;
    if Terminated(SplitLines(config), h) {
      AppendAdds(config, h, keys, key);
    } else {
      AppendUnterminated(config, h, keys, key);
    }
  }
}
