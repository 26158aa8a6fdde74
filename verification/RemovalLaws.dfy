/** Removing a key by digest: when it succeeds, what it leaves, and that it undoes an append. */
module RemovalLaws {
  import opened Wrappers
  import opened TextLines
  import opened Scalars
  import opened GatewayConfig
  import opened GatewayConfigLaws

  // ---------------------------------------------------------------- matches

  lemma {:induction false} CountAppend(keys: seq<string>, key: string, digest: Digest)
    ensures CountMatches(keys + [key], digest) == CountMatches(keys, digest) + (if Sha256(key) == digest then 1 else 0)
    decreases |keys|
  {
    if keys != [] {
      assert (keys + [key])[1..] == keys[1..] + [key];
      CountAppend(keys[1..], key, digest);
    }
  }

  lemma {:induction false} CountIs(keys: seq<string>, key: string)
    ensures CountMatches(keys, Sha256(key)) == multiset(keys)[key]
    decreases |keys|
  {
    if keys != [] {
      assert keys == [keys[0]] + keys[1..];
      CountIs(keys[1..], key);
    }
  }

  /** A digest matched once names one key, at one place. */
  lemma SoleMatchAt(keys: seq<string>, digest: Digest) returns (at: nat)
    requires CountMatches(keys, digest) == 1
    ensures at == FirstMatch(keys, digest) && at < |keys| && digest == Sha256(keys[at])
    ensures forall i :: 0 <= i < |keys| && i != at ==> keys[i] != keys[at]
  {
    at := FirstMatch(keys, digest);
    CountIs(keys, keys[at]);
    forall i | 0 <= i < |keys| && i != at ensures keys[i] != keys[at] {
      OnceOnly(keys, i, at);
    }
  }

  lemma OnceOnly(keys: seq<string>, i: nat, j: nat)
    requires i < |keys| && j < |keys| && i != j && multiset(keys)[keys[j]] == 1
    ensures keys[i] != keys[j]
  {
    var a, b := if i < j then i else j, if i < j then j else i;
    assert keys == keys[..a] + [keys[a]] + (keys[a + 1..b] + [keys[b]] + keys[b + 1..]);
  }

  // ---------------------------------------------------------------- the lines that stay

  lemma {:induction false} WithoutAppend(block: seq<string>, rest: seq<string>, target: string)
    requires InList(block) && forall i :: 0 <= i < |block| ==> !Holds(block[i], target)
    ensures Without(block + rest, target) == (block + Without(rest, target).0, Without(rest, target).1)
    decreases |block|
  {
    hide KindOf, ParseScalar, Holds;
    if block == [] {
      assert block + rest == rest && [] + Without(rest, target).0 == Without(rest, target).0;
    } else {
      assert (block + rest)[0] == block[0] && (block + rest)[1..] == block[1..] + rest;
      assert forall i :: 0 <= i < |block[1..]| ==> block[1..][i] == block[i + 1];
      WithoutAppend(block[1..], rest, target);
      assert [block[0]] + (block[1..] + Without(rest, target).0) == block + Without(rest, target).0;
    }
  }

  lemma {:induction false} HeldKeys(block: seq<string>, i: nat, target: string)
    requires InList(block) && i < |block| && Holds(block[i], target)
    ensures KeysIn(block).Success? ==> target in KeysIn(block).value
    decreases |block|
  {
    hide KindOf, ParseScalar;
    if i > 0 {
      assert forall j :: 0 <= j < |block[1..]| ==> block[1..][j] == block[j + 1];
      HeldKeys(block[1..], i - 1, target);
    }
  }

  /** Taking out the new line again gives back the lines as they were. */
  lemma WithoutNew(block: seq<string>, line: string, after: seq<string>, key: string)
    requires InList(block) && ListEnds(after) && Holds(line, key)
    requires KeysIn(block).Success? && key !in KeysIn(block).value
    ensures Without(block + [line] + after, key) == (block + after, 1)
  {
    hide KindOf, ParseScalar;
    forall i | 0 <= i < |block| ensures !Holds(block[i], key) {
      if Holds(block[i], key) {
        HeldKeys(block, i, key);
      }
    }
    WithoutAppend(block, [line] + after, key);
    assert block + [line] + after == block + ([line] + after);
    assert ([line] + after)[1..] == after;
  }

  /** In the new text the header is where it was, and without the new line the rest is as it was. */
  lemma AppendedWithout(config: string, h: nat, keys: seq<string>, key: string)
    requires ListsKeys(SplitLines(config), h, keys) && ValidKey(key) && key !in keys && Terminated(SplitLines(config), h)
    ensures var lines, after := SplitLines(config), SplitLines(Appended(SplitLines(config), h, key));
            && h < |lines| && h < |after| && Header(after) == Some(h) && after[..h + 1] == lines[..h + 1]
            && Without(after[h + 1..], key) == (lines[h + 1..], 1)
  {
    hide KindOf, NewLine, Appended, SplitLines, Strip, IsHeader, Header, Holds, ParseScalar, Join, Without;
    var lines := SplitLines(config);
    AppendedLines(config, h, key);
    var tail, n := lines[h + 1..], BlockLength(lines[h + 1..]);
    NewLineKind(key);
    NewHolds(key);
    Parts(lines, h, [NewLine(key)]);
    TailHeaders(lines, h, n, NewLine(key));
    HeadersAfter(lines, h, tail[..n] + [NewLine(key)] + tail[n..]);
    BlockSplits(tail);
    KeysOfBlock(tail[..n], tail[n..]);
    WithoutNew(tail[..n], NewLine(key), tail[n..], key);
    assert tail[..n] + tail[n..] == tail;
  }

  /** Removing an appended key by its digest gives back exactly the config before. */
  lemma RemoveUndoesAppend(config: string, h: nat, keys: seq<string>, key: string)
    requires ListsKeys(SplitLines(config), h, keys) && ValidKey(key) && key !in keys && Terminated(SplitLines(config), h)
    ensures RemoveByDigest(Appended(SplitLines(config), h, key), Sha256(key)) == Success((config, key, |keys| + 1))
  {
    hide NewLine, Appended, SplitLines, Header, Join, Without, KeysIn, ListsKeys, Terminated, ApiKeys;
    var lines := SplitLines(config);
    AppendAdds(config, h, keys, key);
    CountAppend(keys, key, Sha256(key));
    CountIs(keys, key);
    var at := SoleMatchAt(keys + [key], Sha256(key));
    assert at == |keys|;
    AppendedWithout(config, h, keys, key);
    assert lines[..h + 1] + lines[h + 1..] == lines;
    JoinSplit(config);
    assert RemovedOne(keys + [key], |keys|) == keys;
    ListedKeys(config, h, keys);
  }

  lemma ListedKeys(config: string, h: nat, keys: seq<string>)
    requires ListsKeys(SplitLines(config), h, keys)
    ensures ApiKeys(config) == Success(keys)
  {
    hide SplitLines, Header, KeysIn;
  }

  // ---------------------------------------------------------------- any removal

  /** What a successful removal did, whatever the config looked like. */
  lemma RemoveSound(config: string, digest: Digest)
    ensures var r := RemoveByDigest(config, digest);
            r.Success? ==>
              var (updated, target, count) := r.value;
              && ApiKeys(config).Success? && ApiKeys(updated).Success?
              && Sha256(target) == digest && count == |ApiKeys(config).value|
              && target in ApiKeys(config).value && target !in ApiKeys(updated).value
              && multiset(ApiKeys(config).value)[target] == 1
              && ApiKeys(updated).value == Others(ApiKeys(config).value, target)
  {
    hide ApiKeys, SplitLines, Join, Header, Without;
    if RemoveByDigest(config, digest).Success? {
      var keys := ApiKeys(config).value;
      var at := SoleMatchAt(keys, digest);
      CountIs(keys, keys[at]);
      OthersRemoved(keys, at);
    }
  }

  /** The keys other than `target`, in their order. */
  function Others(keys: seq<string>, target: string): (r: seq<string>)
    ensures target !in r
  {
    if keys == [] then [] else (if keys[0] == target then [] else [keys[0]]) + Others(keys[1..], target)
  }

  lemma {:induction false} OthersNone(keys: seq<string>, target: string)
    requires target !in keys
    ensures Others(keys, target) == keys
    decreases |keys|
  {
    if keys != [] {
      OthersNone(keys[1..], target);
    }
  }

  lemma {:induction false} OthersRemoved(keys: seq<string>, at: nat)
    requires at < |keys| && forall i :: 0 <= i < |keys| && i != at ==> keys[i] != keys[at]
    ensures Others(keys, keys[at]) == RemovedOne(keys, at)
    decreases |keys|
  {
    if at == 0 {
      OthersNone(keys[1..], keys[0]);
      assert RemovedOne(keys, 0) == keys[1..];
    } else {
      OthersRemoved(keys[1..], at - 1);
      assert RemovedOne(keys, at) == [keys[0]] + RemovedOne(keys[1..], at - 1);
    }
  }

  // ---------------------------------------------------------------- the line that goes

  /** Taking out the holders of a key that one line of the list holds takes out that line. */
  lemma {:induction false} WithoutOne(lines: seq<string>, target: string) returns (j: nat)
    ensures Without(lines, target).1 == 0 ==> Without(lines, target).0 == lines
    ensures Without(lines, target).1 == 1 ==>
              && j < BlockLength(lines) && Holds(lines[j], target) && Without(lines, target).0 == RemovedOne(lines, j)
    decreases |lines|
  {
    hide KindOf, Holds;
    j := 0;
    if lines != [] && !KindOf(lines[0]).Top? {
      assert lines == [lines[0]] + lines[1..];
      j := WithoutOne(lines[1..], target);
      if Holds(lines[0], target) {
        j := 0;
      } else {
        if Without(lines, target).1 == 1 {
          assert RemovedOne(lines, j + 1) == [lines[0]] + RemovedOne(lines[1..], j);
        }
        j := j + 1;
      }
    }
  }

  /** A removal takes out one line, that of the key in the list, and leaves every other line as it was. */
  lemma RemovedLine(config: string, digest: Digest) returns (at: nat)
    ensures RemoveByDigest(config, digest).Success? ==>
              var lines, (updated, target, _) := SplitLines(config), RemoveByDigest(config, digest).value;
              && Header(lines).Some? && Header(lines).value < at < ListEnd(lines, Header(lines).value) && at < |lines|
              && Holds(lines[at], target) && updated == Join(RemovedOne(lines, at))
  {
    hide KindOf, ParseScalar, SplitLines, Strip, IsHeader, Holds, Join, Header, KeysIn, ApiKeys;
    at := 0;
    if RemoveByDigest(config, digest).Success? {
      assert Header(SplitLines(config)).Some? by { KeysHaveHeader(config); }
      var lines, h := SplitLines(config), Header(SplitLines(config)).value;
      var target := RemoveByDigest(config, digest).value.1;
      var j := WithoutOne(lines[h + 1..], target);
      at := h + 1 + j;
      assert lines[..h + 1] + RemovedOne(lines[h + 1..], j) == RemovedOne(lines, at);
    }
  }

  lemma KeysHaveHeader(config: string)
    requires ApiKeys(config).Success?
    ensures Header(SplitLines(config)).Some?
  {
    hide SplitLines, Header;
  }

  // ---------------------------------------------------------------- exactly when a removal succeeds

  lemma {:induction false} WithoutKeys(lines: seq<string>, target: string)
    requires KeysIn(lines).Success?
    ensures var (rest, removed) := Without(lines, target);
            && removed == multiset(KeysIn(lines).value)[target]
            && KeysIn(rest) == Success(Others(KeysIn(lines).value, target))
            && (forall l :: l in rest ==> l in lines)
    decreases |lines|
  {
    hide KindOf, ParseScalar;
    if lines == [] || KindOf(lines[0]).Top? {
      assert KeysIn(lines) == Success([]);
    } else {
      var line, rest := lines[0], lines[1..];
      assert lines == [line] + rest;
      KeysCons(line, rest);
      WithoutKeys(rest, target);
      var kept := Without(rest, target).0;
      KeysCons(line, kept);
      if KindOf(line).Item? {
        OthersFirst(ParseScalar(KindOf(line).value).value, KeysIn(rest).value, target);
      }
    }
  }

  lemma KeysCons(line: string, rest: seq<string>)
    requires !KindOf(line).Top?
    ensures !KindOf(line).Item? ==> KeysIn([line] + rest) == KeysIn(rest)
    ensures KindOf(line).Item? && ParseScalar(KindOf(line).value).Success? ==>
              KeysIn([line] + rest) == PrependKeys([ParseScalar(KindOf(line).value).value], KeysIn(rest))
    ensures KindOf(line).Item? && ParseScalar(KindOf(line).value).Failure? ==> KeysIn([line] + rest).Failure?
  {
    hide KindOf, ParseScalar;
    assert ([line] + rest)[1..] == rest;
  }

  lemma OthersFirst(key: string, keys: seq<string>, target: string)
    ensures Others([key] + keys, target) == if key == target then Others(keys, target) else [key] + Others(keys, target)
    ensures multiset([key] + keys)[target] == multiset(keys)[target] + (if key == target then 1 else 0)
  {
    assert ([key] + keys)[1..] == keys;
    assert [] + Others(keys, target) == Others(keys, target);
  }

  /** Lines that may have lost a neighbour: each is one line and all but the last are terminated. */
  predicate Loose(lines: seq<string>) {
    && (forall i :: 0 <= i < |lines| ==> OneLine(lines[i]))
    && (forall i :: 0 <= i < |lines| - 1 ==> Ended(lines[i]))
  }

  predicate Meet(a: string, b: string) {
    Ended(a) && a[|a| - 1] == '\r' && b != [] && b[0] == '\n'
  }

  /** A carriage return that now stands before a line feed ends one line with it. */
  function Merge(lines: seq<string>): seq<string>
    decreases |lines|
  {
    if |lines| >= 2 && Meet(lines[0], lines[1]) then [lines[0] + lines[1]] + Merge(lines[2..])
    else if lines == [] then []
    else [lines[0]] + Merge(lines[1..])
  }

  lemma {:induction false} MeetIsLine(a: string, b: string)
    requires OneLine(a) && OneLine(b) && Meet(a, b)
    ensures b == ['\n'] && OneLine(a + b) && Ended(a + b) && (a + b)[|a + b| - 1] == '\n'
    decreases |a|
  {
    assert b[0] == '\n' && FirstLine(b) == 1;
    if |a| == 1 {
      assert a + b == ['\r', '\n'];
    } else {
      assert !IsBreak(a[0]);
      assert OneLine(a[1..]) && Meet(a[1..], b);
      MeetIsLine(a[1..], b);
      assert (a + b)[1..] == a[1..] + b;
    }
  }

  lemma {:induction false} MergeTidy(lines: seq<string>)
    requires Loose(lines)
    ensures Tidy(Merge(lines)) && Join(Merge(lines)) == Join(lines)
    ensures lines != [] ==> Merge(lines) != [] && Merge(lines)[0][0] == lines[0][0]
    decreases |lines|
  {
    hide FirstLine, IsBreak, Tidy;
    if lines == [] {
      assert Tidy([]) by { NothingTidy(); }
    } else if |lines| >= 2 && Meet(lines[0], lines[1]) {
      MeetIsLine(lines[0], lines[1]);
      LooseTail(lines, 2);
      MergeTidy(lines[2..]);
      assert lines == lines[..2] + lines[2..] && lines[..2] == [lines[0], lines[1]];
      JoinAppend(lines[..2], lines[2..]);
      JoinTwo(lines[0], lines[1]);
      JoinAppend([lines[0] + lines[1]], Merge(lines[2..]));
      assert OneLine(lines[0]);
      TidyCons(lines[0] + lines[1], Merge(lines[2..]));
    } else {
      LooseTail(lines, 1);
      MergeTidy(lines[1..]);
      assert |lines| > 1 ==> Ended(lines[0]) && lines[1..][0] == lines[1] && OneLine(lines[1]);
      TidyCons(lines[0], Merge(lines[1..]));
      assert ([lines[0]] + Merge(lines[1..]))[1..] == Merge(lines[1..]);
    }
  }

  lemma NothingTidy()
    ensures Tidy([])
  {}

  lemma LooseTail(lines: seq<string>, n: nat)
    requires Loose(lines) && n <= |lines|
    ensures Loose(lines[n..]) && (n > 0 && n < |lines| ==> Ended(lines[n - 1]))
  {
    hide OneLine, Ended;
    forall i | 0 <= i < |lines[n..]| ensures lines[n..][i] == lines[n + i] {}
  }

  lemma TidyCons(line: string, rest: seq<string>)
    requires OneLine(line) && Tidy(rest) && (rest != [] ==> Follows(line, rest[0]))
    ensures Tidy([line] + rest)
  {
    hide FirstLine, IsBreak;
    var n := [line] + rest;
    forall i | 0 <= i < |n| - 1 ensures Follows(n[i], n[i + 1]) {
      assert i > 0 ==> Follows(rest[i - 1], rest[i]);
    }
  }

  lemma MeetKind(a: string)
    requires OneLine(a) && Ended(a)
    ensures KindOf(a + ['\n']) == KindOf(a) && Strip(a + ['\n']) == Strip(a)
    ensures IsHeader(a + ['\n']) <==> IsHeader(a)
    ensures KindOf(['\n']).Skip?
  {
    var b := ['\n'];
    hide Strip, IsSpace, FirstLine, IsBreak, KindOf, IsHeader, Blank;
    SpacesBlank();
    StripBlank(b);
    StripBlankEnd(a, b);
    KindTests(b);
    KindTests(a);
    KindTests(a + b);
    assert (a + b)[0] == a[0];
    MeetHeader(a);
  }

  lemma MeetHeader(a: string)
    ensures IsHeader(a + ['\n']) <==> IsHeader(a)
  {
    var more := a + ['\n'];
    if |a| < |HEADER| {
      assert more[|a|] == '\n' && HEADER[|a|] != '\n';
      assert |more| >= |HEADER| ==> more[..|HEADER|][|a|] == '\n';
    } else {
      assert more[..|HEADER|] == a[..|HEADER|];
    }
  }

  lemma {:induction false} MergeKeys(lines: seq<string>)
    requires Loose(lines)
    ensures KeysIn(Merge(lines)) == KeysIn(lines)
    ensures (forall i :: 0 <= i < |lines| ==> !IsHeader(lines[i])) ==> (forall i :: 0 <= i < |Merge(lines)| ==> !IsHeader(Merge(lines)[i]))
    decreases |lines|
  {
    hide FirstLine, IsBreak, KindOf, ParseScalar, IsHeader, Strip;
    if |lines| >= 2 && Meet(lines[0], lines[1]) {
      MeetIsLine(lines[0], lines[1]);
      MeetKind(lines[0]);
      var rest := lines[2..];
      assert forall i :: 0 <= i < |rest| ==> rest[i] == lines[i + 2];
      MergeKeys(rest);
      assert lines[1..][0] == lines[1] && lines[1..][1..] == rest && Merge(lines)[1..] == Merge(rest);
      assert KeysIn(lines[1..]) == KeysIn(rest);
    } else if lines != [] {
      var rest := lines[1..];
      assert forall i :: 0 <= i < |rest| ==> rest[i] == lines[i + 1];
      MergeKeys(rest);
      assert Merge(lines)[1..] == Merge(rest);
    }
  }

  /** Whatever lines stay, the text they make is read as those lines. */
  lemma LooseRead(lines: seq<string>, h: nat, rest: seq<string>)
    requires Tidy(lines) && h < |lines| && Header(lines) == Some(h)
    requires Loose([lines[h]] + rest) && forall i :: 0 <= i < |rest| ==> !IsHeader(rest[i])
    ensures KeysOf(SplitLines(Join(lines[..h + 1] + rest))) == NonEmpty(KeysIn(rest))
  {
    hide FirstLine, OneLine, Follows, IsBreak, KindOf, ParseScalar, IsHeader, Strip, KeysIn, Loose, Merge, NonEmpty, Join, Tidy, SplitLines, Header;
    var tail := [lines[h]] + rest;
    HeaderIs(lines, h);
    var merged := Merge(tail);
    MergeTidy(tail);
    FrontTidy(lines, h, merged);
    JoinAppend(lines[..h], tail);
    JoinAppend(lines[..h], merged);
    assert lines[..h + 1] + rest == lines[..h] + tail;
    SplitJoin(lines[..h] + merged);
    MergeHeader(lines[h], rest);
    MergedHeaderAt(lines, h, merged);
    assert (lines[..h] + merged)[h + 1..] == merged[1..];
    assert KeysOf(lines[..h] + merged) == NonEmpty(KeysIn(merged[1..]));
  }

  lemma HeaderIs(lines: seq<string>, h: nat)
    requires Header(lines) == Some(h)
    ensures h < |lines| && IsHeader(lines[h])
  {}

  lemma FrontTidy(lines: seq<string>, h: nat, merged: seq<string>)
    requires Tidy(lines) && h < |lines| && Tidy(merged) && merged != [] && merged[0][0] == lines[h][0]
    ensures Tidy(lines[..h] + merged)
  {
    hide FirstLine, IsBreak;
    var n := lines[..h] + merged;
    forall i | 0 <= i < |n| - 1 ensures Follows(n[i], n[i + 1]) {
      if i < h {
        assert Follows(lines[i], lines[i + 1]);
      } else {
        assert Follows(merged[i - h], merged[i - h + 1]);
      }
    }
  }

  lemma MergeHeader(header: string, rest: seq<string>)
    requires Loose([header] + rest) && IsHeader(header) && forall i :: 0 <= i < |rest| ==> !IsHeader(rest[i])
    ensures var merged := Merge([header] + rest);
            && merged != [] && IsHeader(merged[0]) && Strip(merged[0]) == Strip(header)
            && KeysIn(merged[1..]) == KeysIn(rest)
            && forall i :: 1 <= i < |merged| ==> !IsHeader(merged[i])
  {
    hide FirstLine, IsBreak, KindOf, ParseScalar, IsHeader, Strip;
    var lines := [header] + rest;
    assert lines[1..] == rest;
    LooseTail(lines, 1);
    if |lines| >= 2 && Meet(lines[0], lines[1]) {
      MeetIsLine(lines[0], lines[1]);
      MeetKind(lines[0]);
      LooseTail(lines, 2);
      assert lines[2..] == rest[1..];
      assert forall i :: 0 <= i < |lines[2..]| ==> lines[2..][i] == rest[i + 1];
      MergeKeys(lines[2..]);
      assert Merge(lines)[1..] == Merge(lines[2..]);
    } else {
      MergeKeys(rest);
      assert Merge(lines)[1..] == Merge(rest);
    }
  }

  lemma MergedHeaderAt(lines: seq<string>, h: nat, merged: seq<string>)
    requires h < |lines| && Header(lines) == Some(h)
    requires merged != [] && IsHeader(merged[0]) && Strip(merged[0]) == Strip(lines[h])
    requires forall i :: 1 <= i < |merged| ==> !IsHeader(merged[i])
    ensures Header(lines[..h] + merged) == Some(h)
  {
    hide IsHeader, Strip;
    var n := lines[..h] + merged;
    forall i | 0 <= i < |n| ensures IsHeader(n[i]) <==> i == h {
      assert n[i] == if i < h then lines[i] else merged[i - h];
    }
    assert n[h] == merged[0] && IsHeader(n[h]);
    var f := FirstHeader(n, 0);
    assert f == h;
    HeaderIs(lines, h);
  }

  lemma {:induction false} WithoutLoose(line: string, lines: seq<string>, target: string)
    requires Loose([line] + lines)
    ensures Loose([line] + Without(lines, target).0)
    decreases |lines|
  {
    hide OneLine, Ended, KindOf, Holds;
    if lines != [] && !KindOf(lines[0]).Top? {
      var all, rest := [line] + lines, lines[1..];
      assert OneLine(all[0]) && Ended(all[0]);
      assert lines == [lines[0]] + rest;
      LooseSkips(line, lines[0], rest);
      if Holds(lines[0], target) {
        WithoutLoose(line, rest, target);
      } else {
        WithoutLoose(lines[0], rest, target);
        LooseCons(line, [lines[0]] + Without(rest, target).0);
      }
    }
  }

  lemma LooseSkips(a: string, b: string, rest: seq<string>)
    requires Loose([a] + ([b] + rest))
    ensures Loose([a] + rest) && Loose([b] + rest)
  {
    hide OneLine, Ended;
    var all := [a] + ([b] + rest);
    assert all[0] == a && all[1] == b && forall i :: 0 <= i < |rest| ==> all[i + 2] == rest[i];
    forall i | 0 <= i < |rest| ensures OneLine(rest[i]) && (i < |rest| - 1 ==> Ended(rest[i])) {
      assert OneLine(all[i + 2]) && (i < |rest| - 1 ==> Ended(all[i + 2]));
    }
  }

  lemma LooseCons(line: string, rest: seq<string>)
    requires OneLine(line) && Ended(line) && Loose(rest)
    ensures Loose([line] + rest)
  {
    hide OneLine, Ended;
    var n := [line] + rest;
    forall i | 1 <= i < |n| ensures OneLine(n[i]) && (i < |n| - 1 ==> Ended(n[i])) {
      assert n[i] == rest[i - 1];
    }
  }

  lemma TidyLoose(lines: seq<string>)
    requires Tidy(lines)
    ensures Loose(lines)
  {
    hide FirstLine, IsBreak;
    forall i | 0 <= i < |lines| - 1 ensures Ended(lines[i]) {
      assert Follows(lines[i], lines[i + 1]);
    }
  }

  /** A removal succeeds exactly when one key has the digest and it is not the only key; a refusal says which of these fails. */
  lemma RemoveSucceedsIff(config: string, digest: Digest)
    ensures ApiKeys(config).Failure? ==> RemoveByDigest(config, digest) == Failure(ApiKeys(config).error)
    ensures ApiKeys(config).Success? && CountMatches(ApiKeys(config).value, digest) != 1 ==> RemoveByDigest(config, digest) == Failure(NoSoleMatch)
    ensures ApiKeys(config).Success? && CountMatches(ApiKeys(config).value, digest) == 1 && |ApiKeys(config).value| == 1 ==>
              RemoveByDigest(config, digest) == Failure(NoKeys)
    ensures RemoveByDigest(config, digest).Success?
            <==> ApiKeys(config).Success? && CountMatches(ApiKeys(config).value, digest) == 1 && |ApiKeys(config).value| >= 2
  {
    hide KindOf, ParseScalar, SplitLines, Strip, IsHeader, Holds, Join, Without, Header, KeysIn, Loose;
    if ApiKeys(config).Success? && CountMatches(ApiKeys(config).value, digest) == 1 {
      var lines, keys := SplitLines(config), ApiKeys(config).value;
      var at := SoleMatchAt(keys, digest);
      var h := Header(lines).value;
      var tail := lines[h + 1..];
      CountIs(keys, keys[at]);
      WithoutKeys(tail, keys[at]);
      var rest := Without(tail, keys[at]).0;
      OthersRemoved(keys, at);
      SplitTidy(config);
      TidyLoose(lines);
      LooseTail(lines, h);
      assert lines[h..] == [lines[h]] + tail;
      WithoutLoose(lines[h], tail, keys[at]);
      HeaderLines(lines, h);
      forall i | 0 <= i < |rest| ensures !IsHeader(rest[i]) {
        assert rest[i] in tail;
      }
      LooseRead(lines, h, rest);
    }
  }
}
