/** What the reader of the key list takes from a config: its header, its lines and its keys. */
module ReaderLaws {
  import opened Wrappers
  import opened TextLines
  import opened Scalars
  import opened GatewayConfig
  import opened GatewayConfigLaws

  /**
   What a line is: a comment or nothing, the end of the list when its text starts at the
   margin, a key when its text starts with a dash, and otherwise something to pass over.
   */
  lemma LineKind(before: string, text: string, after: string)
    requires Blank(before) && Blank(after) && text != [] && !IsSpace(text[0]) && !IsSpace(text[|text| - 1])
    ensures KindOf(before + text + after) ==
              if text[0] == '#' then Skip else if before == [] then Top else if text[0] == '-' then Item(Strip(text[1..])) else Other
  {
    hide IsSpace, Strip, Blank;
    StripUnique(before, text, after);
    var line := before + text + after;
    if before != [] {
      assert line[0] == before[0];
      FirstBlank(before);
    } else {
      assert line[0] == text[0];
    }
  }

  /** A blank line is passed over. */
  lemma BlankKind(line: string)
    requires Blank(line)
    ensures KindOf(line).Skip?
  {
    hide Strip;
    StripBlank(line);
  }

  /** The header is the only line that starts with the header text, and has only blanks after it. */
  lemma HeaderIff(lines: seq<string>, h: nat)
    ensures Header(lines) == Some(h) <==>
              && h < |lines| && HEADER <= lines[h] && Blank(lines[h][|HEADER|..])
              && forall j :: 0 <= j < |lines| && j != h ==> !(HEADER <= lines[j])
  {
    hide IsSpace, Strip, Blank;
    forall i | 0 <= i < |lines| ensures IsHeader(lines[i]) <==> HEADER <= lines[i] {}
    if h < |lines| && HEADER <= lines[h] {
      HeaderStrips(lines[h]);
    }
  }

  lemma HeaderStrips(line: string)
    requires HEADER <= line
    ensures Strip(line) == HEADER <==> Blank(line[|HEADER|..])
  {
    hide IsSpace, Strip;
    var rest := line[|HEADER|..];
    HeaderEnds();
    assert line == "" + HEADER + rest;
    if Blank(rest) {
      StripUnique("", HEADER, rest);
    }
    if Strip(line) == HEADER {
      var before, after := StripParts(line);
      assert line == before + HEADER + after;
      if before != [] {
        FirstBlank(before);
      }
      assert rest == after;
    }
  }

  lemma HeaderEnds()
    ensures HEADER != [] && !IsSpace(HEADER[0]) && !IsSpace(HEADER[|HEADER| - 1])
  {}

  /** Lines before the end of the list count one each if they are keys. */
  lemma {:induction false} CountStep(lines: seq<string>, i: nat)
    requires i < BlockLength(lines)
    ensures ItemCount(lines[..i + 1]) == ItemCount(lines[..i]) + (if KindOf(lines[i]).Item? then 1 else 0)
    decreases |lines|
  {
    hide KindOf;
    if i == 0 {
      assert lines[..1] == [lines[0]] && lines[..0] == [] && [lines[0]][1..] == [];
      assert ItemCount([lines[0]][1..]) == 0;
    } else {
      CountStep(lines[1..], i - 1);
      assert lines[..i + 1][1..] == lines[1..][..i] && lines[..i][1..] == lines[1..][..i - 1];
    }
  }

  /**
   The keys are those of the key lines before the end of the list, each in its place; the
   list is refused if and only if one of those lines holds no key, for the first one's reason.
   */
  lemma {:induction false} KeysLaw(lines: seq<string>) returns (bad: nat)
    ensures KeysIn(lines).Success? ==>
              && |KeysIn(lines).value| == ItemCount(lines)
              && forall i :: 0 <= i < BlockLength(lines) && KindOf(lines[i]).Item? ==>
                   && ItemCount(lines[..i]) < |KeysIn(lines).value|
                   && ParseScalar(KindOf(lines[i]).value) == Success(KeysIn(lines).value[ItemCount(lines[..i])])
    ensures KeysIn(lines).Failure? ==>
              && bad < BlockLength(lines) && KindOf(lines[bad]).Item? && ParseScalar(KindOf(lines[bad]).value).Failure?
              && KeysIn(lines).error == BadScalar(ParseScalar(KindOf(lines[bad]).value).error)
              && forall i :: 0 <= i < bad && KindOf(lines[i]).Item? ==> ParseScalar(KindOf(lines[i]).value).Success?
    decreases |lines|
  {
    hide KindOf, ParseScalar;
    bad := 0;
    if lines != [] && !KindOf(lines[0]).Top? {
      var rest := lines[1..];
      bad := KeysLaw(rest);
      if KindOf(lines[0]).Item? && ParseScalar(KindOf(lines[0]).value).Failure? {
        bad := 0;
      } else {
        bad := bad + 1;
        KeysShift(lines);
      }
    }
  }

  lemma KeysShift(lines: seq<string>)
    requires lines != [] && !KindOf(lines[0]).Top?
    ensures forall i :: 0 < i < BlockLength(lines) ==>
              lines[i] == lines[1..][i - 1]
              && ItemCount(lines[..i]) == (if KindOf(lines[0]).Item? then 1 else 0) + ItemCount(lines[1..][..i - 1])
    ensures ItemCount(lines[..0]) == 0
  {
    hide KindOf;
    forall i | 0 < i < BlockLength(lines)
      ensures ItemCount(lines[..i]) == (if KindOf(lines[0]).Item? then 1 else 0) + ItemCount(lines[1..][..i - 1]) {
      assert lines[..i][1..] == lines[1..][..i - 1];
    }
  }

  /** A config lists keys if and only if it has one header, every key line holds a key and there is one. */
  lemma ListsIff(config: string)
    ensures var lines := SplitLines(config);
            && (Header(lines).None? ==> ApiKeys(config) == Failure(NotABlockList))
            && (Header(lines).Some? ==>
                  var read := KeysIn(lines[Header(lines).value + 1..]);
                  && (read.Failure? ==> ApiKeys(config) == read)
                  && (read == Success([]) <==> ApiKeys(config) == Failure(NoKeys))
                  && (read.Success? && read.value != [] ==> ApiKeys(config) == read))
  {
    hide SplitLines, Header;
    if Header(SplitLines(config)).Some? {
      var bad := KeysLaw(SplitLines(config)[Header(SplitLines(config)).value + 1..]);
    }
  }
}
