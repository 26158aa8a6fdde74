/**
 The line-based editor of the gateway's key list: appending and listing keys
 (scripts/install_scoped_gateway_key.py) and removing one by digest
 (scripts/revoke_scoped_gateway_key.py).
 */
module GatewayConfig {
  import opened Wrappers
  import opened TextLines
  import opened Scalars

  const HEADER := "api-keys:"

  /** What a line is to the key list: nothing, the end of the list, a key, or something indented. */
  datatype Kind = Skip | Top | Item(value: string) | Other

  function KindOf(line: string): Kind {
    var stripped := Strip(line);
    if stripped == [] || stripped[0] == '#' then Skip
    else if line == [] || !IsSpace(line[0]) then Top
    else if stripped[0] == '-' then Item(Strip(stripped[1..]))
    else Other
  }

  predicate IsHeader(line: string) {
    |line| >= |HEADER| && line[..|HEADER|] == HEADER
  }

  function FirstHeader(lines: seq<string>, i: nat): (r: nat)
    requires i <= |lines|
    ensures i <= r <= |lines|
    ensures forall j :: i <= j < r ==> !IsHeader(lines[j])
    ensures r < |lines| ==> IsHeader(lines[r])
    decreases |lines| - i
  {
    if i == |lines| || IsHeader(lines[i]) then i else FirstHeader(lines, i + 1)
  }

  /** The only header line, provided it opens a block list. */
  function Header(lines: seq<string>): (r: Option<nat>)
    ensures r.Some? ==> r.value < |lines|
  {
    var h := FirstHeader(lines, 0);
    if h < |lines| && FirstHeader(lines, h + 1) == |lines| && Strip(lines[h]) == HEADER then Some(h) else None
  }

  function BlockLength(lines: seq<string>): (n: nat)
    ensures n <= |lines|
  {
    if lines == [] || KindOf(lines[0]).Top? then 0 else 1 + BlockLength(lines[1..])
  }

  /** The tests the loops make on a line, in terms of its kind. */
  lemma KindTests(line: string)
    ensures var stripped := Strip(line);
            && (KindOf(line).Skip? <==> stripped == [] || stripped[0] == '#')
            && (KindOf(line).Top? <==> stripped != [] && stripped[0] != '#' && (line == [] || !IsSpace(line[0])))
            && (KindOf(line).Item? <==> stripped != [] && stripped[0] == '-' && !KindOf(line).Top?)
            && (KindOf(line).Item? ==> KindOf(line).value == Strip(stripped[1..]))
  {
    hide Strip, IsSpace;
  }

  function ItemCount(lines: seq<string>): nat {
    if lines == [] || KindOf(lines[0]).Top? then 0
    else (if KindOf(lines[0]).Item? then 1 else 0) + ItemCount(lines[1..])
  }

  datatype ConfigError =
    | NotABlockList
    | NoKeys
    | BadScalar(error: ScalarError)
    | NoSoleMatch
    | NotRemovedOnce
    | OtherKeyChanged

  function KeysIn(lines: seq<string>): Result<seq<string>, ConfigError> {
    if lines == [] then Success([])
    else match KindOf(lines[0])
      case Top => Success([])
      case Skip => KeysIn(lines[1..])
      case Other => KeysIn(lines[1..])
      case Item(value) =>
        match ParseScalar(value)
        case Failure(e) => Failure(BadScalar(e))
        case Success(key) =>
          match KeysIn(lines[1..])
          case Failure(e) => Failure(e)
          case Success(keys) => Success([key] + keys)
  }

  function NonEmpty(keys: Result<seq<string>, ConfigError>): Result<seq<string>, ConfigError> {
    if keys == Success([]) then Failure(NoKeys) else keys
  }

  function KeysOf(lines: seq<string>): Result<seq<string>, ConfigError> {
    match Header(lines)
    case None => Failure(NotABlockList)
    case Some(h) => NonEmpty(KeysIn(lines[h + 1..]))
  }

  function ApiKeys(config: string): Result<seq<string>, ConfigError> {
    KeysOf(SplitLines(config))
  }

  // ---------------------------------------------------------------- listing

  function Chomped(lines: seq<string>): (r: seq<string>)
    ensures |r| == |lines| && forall i :: 0 <= i < |r| ==> r[i] == Chomp(lines[i])
  {
    seq(|lines|, i requires 0 <= i < |lines| => Chomp(lines[i]))
  }

  lemma ChompKind(line: string)
    ensures KindOf(Chomp(line)) == KindOf(line) && (IsHeader(Chomp(line)) <==> IsHeader(line))
  {
    hide Strip, IsSpace;
    ChompKeepsText(line);
    StripBlank(Chomp(line));
    hide Chomp, Blank, IsBreak;
    ChompHeader(line);
    EmptyBlank();
  }

  lemma EmptyBlank()
    ensures Blank([])
  {}

  lemma ChompHeader(line: string)
    ensures IsHeader(Chomp(line)) <==> IsHeader(line)
  {
    hide Chomp, Strip;
    ChompKeepsText(line);
    var n := |Chomp(line)|;
    forall i | n <= i < |line| ensures IsBreak(line[i]) {
      assert line[i] == line[n..][i - n];
    }
    forall i | 0 <= i < |HEADER| ensures !IsBreak(HEADER[i]) {}
    if IsHeader(line) {
      assert forall i :: 0 <= i < |HEADER| ==> line[i] == line[..|HEADER|][i] == HEADER[i];
      var m := if n < |HEADER| then n else 0;
      assert !IsBreak(HEADER[m]) && line[m] == HEADER[m];
    }
  }

  lemma {:induction false} ChompedFirstHeader(lines: seq<string>, i: nat)
    requires i <= |lines|
    ensures FirstHeader(Chomped(lines), i) == FirstHeader(lines, i)
    decreases |lines| - i
  {
    if i < |lines| {
      ChompKind(lines[i]);
      ChompedFirstHeader(lines, i + 1);
    }
  }

  lemma {:induction false} ChompedKeys(lines: seq<string>)
    ensures KeysIn(Chomped(lines)) == KeysIn(lines)
    decreases |lines|
  {
    hide KindOf;
    if lines != [] {
      ChompKind(lines[0]);
      ChompedKeys(lines[1..]);
      assert Chomped(lines)[1..] == Chomped(lines[1..]);
    }
  }

  /** Line terminators do not matter to the listing. */
  lemma ChompedSame(lines: seq<string>)
    ensures Header(Chomped(lines)) == Header(lines) && KeysOf(Chomped(lines)) == KeysOf(lines)
  {
    hide KeysIn, Strip;
    ChompedFirstHeader(lines, 0);
    var h := FirstHeader(lines, 0);
    if h < |lines| {
      ChompedFirstHeader(lines, h + 1);
      ChompKeepsText(lines[h]);
      ChompedKeys(lines[h + 1..]);
      assert Chomped(lines)[h + 1..] == Chomped(lines[h + 1..]);
    }
  }

  function PrependKeys(read: seq<string>, rest: Result<seq<string>, ConfigError>): Result<seq<string>, ConfigError> {
    match rest case Failure(e) => Failure(e) case Success(keys) => Success(read + keys)
  }

  lemma PrependKey(read: seq<string>, key: string, rest: Result<seq<string>, ConfigError>)
    ensures PrependKeys(read, PrependKeys([key], rest)) == PrependKeys(read + [key], rest)
  {
    if rest.Success? {
      assert read + ([key] + rest.value) == read + [key] + rest.value;
    }
  }

  lemma PrependNone(rest: Result<seq<string>, ConfigError>)
    ensures PrependKeys([], rest) == rest
  {
    if rest.Success? {
      assert [] + rest.value == rest.value;
    }
  }

  lemma EmptyEnds(keys: seq<string>)
    ensures PrependKeys(keys, Success([])) == Success(keys)
  {
    assert keys + [] == keys;
  }

  method ListApiKeys(config: string) returns (result: Result<seq<string>, ConfigError>)
    ensures result == ApiKeys(config)
  {
    hide KindOf, Strip, SplitLines, Chomped, Header, KeysIn;
    var lines := Chomped(SplitLines(config));
    ChompedSame(SplitLines(config));
    var header := Header(lines);
    if header.None? {
      return Failure(NotABlockList);
    }
    result := ReadKeys(lines[header.value + 1..]);
    if result == Success([]) {
      return Failure(NoKeys);
    }
  }

  /** The loop over the lines after the header. */
  method ReadKeys(lines: seq<string>) returns (result: Result<seq<string>, ConfigError>)
    ensures result == KeysIn(lines)
  {
    hide KindOf, Strip, IsSpace, ParseScalar;
    var keys := [];
    var i := 0;
    assert lines[0..] == lines;
    PrependNone(KeysIn(lines));
    while i < |lines|
      invariant 0 <= i <= |lines|
      invariant KeysIn(lines) == PrependKeys(keys, KeysIn(lines[i..]))
    {
      EmptyEnds(keys);
      var line := lines[i];
      assert lines[i..][0] == line && lines[i..][1..] == lines[i + 1..];
      var stripped := Strip(line);
      KindTests(line);
      i := i + 1;
      if stripped != [] && stripped[0] != '#' && (line == [] || !IsSpace(line[0])) {
        break;
      }
      if stripped != [] && stripped[0] == '-' {
        var parsed := ParseApiKeyScalar(Strip(stripped[1..]));
        if parsed.Failure? {
          return Failure(BadScalar(parsed.error));
        }
        PrependKey(keys, parsed.value, KeysIn(lines[i..]));
        keys := keys + [parsed.value];
      }
    }
    EmptyEnds(keys);
    return Success(keys);
  }

  // ---------------------------------------------------------------- appending

  function NewLine(key: string): string {
    "  - " + JsonQuote(key) + "\n"
  }

  /** The text of the config with the new line put after the list. */
  function Appended(lines: seq<string>, h: nat, key: string): string
    requires h < |lines|
  {
    var e := h + 1 + BlockLength(lines[h + 1..]);
    Join(lines[..e] + [NewLine(key)] + lines[e..])
  }

  method AppendApiKey(config: string, key: string) returns (result: Result<(string, nat), ConfigError>)
    ensures var lines := SplitLines(config);
            result == if Header(lines).None? then Failure(NotABlockList)
                      else Success((Appended(lines, Header(lines).value, key), ItemCount(lines[Header(lines).value + 1..])))
  {
    hide KindOf, Strip, IsSpace, SplitLines, Header, Join;
    var lines := SplitLines(config);
    var header := Header(lines);
    if header.None? {
      return Failure(NotABlockList);
    }
    var end, count := FindListEnd(lines, header.value);
    return Success((Join(lines[..end] + [NewLine(key)] + lines[end..]), count));
  }

  /** The loop that looks for the end of the list and counts its keys. */
  method FindListEnd(lines: seq<string>, start: nat) returns (end: nat, count: nat)
    requires start < |lines|
    ensures end == start + 1 + BlockLength(lines[start + 1..])
    ensures count == ItemCount(lines[start + 1..])
  {
    hide KindOf, Strip, IsSpace;
    ghost var tail := lines[start + 1..];
    ghost var left := tail;
    count := 0;
    var index := start + 1;
    while index < |lines|
      invariant start + 1 <= index <= |lines| && left == lines[index..]
      invariant BlockLength(tail) == index - start - 1 + BlockLength(left)
      invariant ItemCount(tail) == count + ItemCount(left)
    {
      var stripped := Strip(lines[index]);
      KindTests(lines[index]);
      assert left[0] == lines[index];
      if stripped != [] && stripped[0] != '#' && (lines[index] == [] || !IsSpace(lines[index][0])) {
        return index, count;
      }
      if stripped != [] && stripped[0] == '-' {
        count := count + 1;
      }
      index := index + 1;
      left := left[1..];
    }
    end := index;
  }

  // ---------------------------------------------------------------- removing

  datatype Digest = Sha256(preimage: string)

  function CountMatches(keys: seq<string>, digest: Digest): nat {
    if keys == [] then 0 else (if Sha256(keys[0]) == digest then 1 else 0) + CountMatches(keys[1..], digest)
  }

  function FirstMatch(keys: seq<string>, digest: Digest): (i: nat)
    requires CountMatches(keys, digest) > 0
    ensures i < |keys| && Sha256(keys[i]) == digest && forall j :: 0 <= j < i ==> Sha256(keys[j]) != digest
  {
    if Sha256(keys[0]) == digest then 0 else 1 + FirstMatch(keys[1..], digest)
  }

  predicate Holds(line: string, target: string) {
    KindOf(line).Item? && ParseScalar(KindOf(line).value) == Success(target)
  }

  /** The lines after the header without those of the list that hold the target, and how many those are. */
  function Without(lines: seq<string>, target: string): (seq<string>, nat) {
    if lines == [] || KindOf(lines[0]).Top? then (lines, 0)
    else
      var (rest, removed) := Without(lines[1..], target);
      if Holds(lines[0], target) then (rest, removed + 1) else ([lines[0]] + rest, removed)
  }

  function RemovedOne<T>(s: seq<T>, i: nat): seq<T>
    requires i < |s|
  {
    s[..i] + s[i + 1..]
  }

  function RemoveByDigest(config: string, digest: Digest): Result<(string, string, nat), ConfigError> {
    match ApiKeys(config)
    case Failure(e) => Failure(e)
    case Success(keys) =>
      if CountMatches(keys, digest) != 1 then Failure(NoSoleMatch)
      else
        var lines := SplitLines(config);
        var at := FirstMatch(keys, digest);
        var h := Header(lines).value;
        var (rest, removed) := Without(lines[h + 1..], keys[at]);
        var updated := Join(lines[..h + 1] + rest);
        if removed != 1 then Failure(NotRemovedOnce)
        else if ApiKeys(updated).Failure? then Failure(ApiKeys(updated).error)
        else if ApiKeys(updated).value != RemovedOne(keys, at) then Failure(OtherKeyChanged)
        else Success((updated, keys[at], |keys|))
  }

  method RemoveApiKeyByDigest(config: string, digest: Digest) returns (result: Result<(string, string, nat), ConfigError>)
    ensures result == RemoveByDigest(config, digest)
  {
    hide KindOf, Strip, IsSpace, ParseScalar, SplitLines, Join;
    var listed := ListApiKeys(config);
    if listed.Failure? {
      return Failure(listed.error);
    }
    var keys := listed.value;
    if CountMatches(keys, digest) != 1 {
      return Failure(NoSoleMatch);
    }
    var at := FirstMatch(keys, digest);
    var target := keys[at];
    var lines := SplitLines(config);
    var output, removed := DropHolders(lines, Header(lines).value, target);
    if removed != 1 {
      return Failure(NotRemovedOnce);
    }
    var updated := Join(output);
    var after := ListApiKeys(updated);
    if after.Failure? {
      return Failure(after.error);
    }
    return if after.value != keys[..at] + keys[at + 1..] then Failure(OtherKeyChanged) else Success((updated, target, |keys|));
  }

  /** The loop that copies all lines but those of the list that hold the target. */
  method DropHolders(lines: seq<string>, start: nat, target: string) returns (output: seq<string>, removed: nat)
    requires start < |lines|
    ensures output == lines[..start + 1] + Without(lines[start + 1..], target).0
    ensures removed == Without(lines[start + 1..], target).1
  {
    hide KindOf, Strip, IsSpace, ParseScalar;
    ghost var tail := lines[start + 1..];
    ghost var left, kept := tail, [];
    BeforeNothing(Without(tail, target));
    output, removed := [], 0;
    var inKeys := false;
    var index := 0;
    while index < |lines|
      invariant 0 <= index <= |lines|
      invariant index <= start ==> !inKeys && output == lines[..index] && removed == 0 && left == tail && kept == []
      invariant index > start ==> output == lines[..start + 1] + kept && left == lines[index..]
      invariant inKeys || index <= start ==> Without(tail, target) == Before(kept, removed, Without(left, target))
      invariant !inKeys && index > start ==> Without(tail, target) == (kept + left, removed)
    {
      var line := lines[index];
      if index <= start {
        output := output + [line];
        inKeys := index == start;
        assert index == start ==> output == lines[..start + 1] + [];
      } else {
        assert left[0] == line;
        var stripped := Strip(line);
        KindTests(line);
        if inKeys && stripped != [] && stripped[0] != '#' && (line == [] || !IsSpace(line[0])) {
          inKeys := false;
        }
        var parsed: Result<string, ScalarError> := Failure(NotAScalar);
        if inKeys && stripped != [] && stripped[0] == '-' {
          parsed := ParseApiKeyScalar(Strip(stripped[1..]));
        }
        if parsed == Success(target) {
          BeforeDropped(kept, removed, Without(left[1..], target));
          removed := removed + 1;
        } else {
          BeforeKept(kept, removed, line, Without(left[1..], target));
          KeptMoves(kept, left);
          OutputGrows(lines[..start + 1], kept, line);
          output := output + [line];
          kept := kept + [line];
        }
        left := left[1..];
      }
      index := index + 1;
    }
    EmptyTail(kept);
  }

  lemma OutputGrows<T>(a: seq<T>, b: seq<T>, x: T)
    ensures a + b + [x] == a + (b + [x])
  {}

  lemma KeptMoves<T>(kept: seq<T>, left: seq<T>)
    requires left != []
    ensures kept + left == kept + [left[0]] + left[1..]
  {}

  lemma EmptyTail<T>(kept: seq<T>)
    ensures kept + [] == kept
  {}

  /** Lines already output and lines already dropped come before the rest. */
  function Before(output: seq<string>, removed: nat, rest: (seq<string>, nat)): (seq<string>, nat) {
    (output + rest.0, removed + rest.1)
  }

  lemma BeforeNothing(rest: (seq<string>, nat))
    ensures Before([], 0, rest) == rest
  {
    assert [] + rest.0 == rest.0;
  }

  lemma BeforeKept(output: seq<string>, removed: nat, line: string, rest: (seq<string>, nat))
    ensures Before(output, removed, ([line] + rest.0, rest.1)) == Before(output + [line], removed, rest)
  {
    assert output + ([line] + rest.0) == output + [line] + rest.0;
  }

  lemma BeforeDropped(output: seq<string>, removed: nat, rest: (seq<string>, nat))
    ensures Before(output, removed, (rest.0, rest.1 + 1)) == Before(output, removed + 1, rest)
  {}
}
