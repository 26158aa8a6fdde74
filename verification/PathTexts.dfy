/** Paths as text: parts joined with the separator, and why that loses nothing. */
module PathTexts {

  predicate PlainPart(part: string) {
    part != "" && '/' !in part
  }

  predicate PlainParts(parts: seq<string>) {
    forall p :: p in parts ==> PlainPart(p)
  }

  function PathText(parts: seq<string>): string {
    if parts == [] then "" else if |parts| == 1 then parts[0] else parts[0] + "/" + PathText(parts[1..])
  }

  /** The text of a longer path: the parts in order with one separator between them. */
  lemma {:induction false} PathTextJoins(a: seq<string>, b: seq<string>)
    requires a != [] && b != []
    ensures PathText(a + b) == PathText(a) + "/" + PathText(b) && (|a| == 1 ==> PathText(a) == a[0])
    decreases |a|
  {
    assert (a + b)[1..] == a[1..] + b;
    if |a| > 1 {
      PathTextJoins(a[1..], b);
    } else {
      assert a[1..] + b == b;
    }
  }

  function FirstSlash(s: string): (i: nat)
    ensures i <= |s| && (i < |s| ==> s[i] == '/') && forall j :: 0 <= j < i ==> s[j] != '/'
  {
    if s == [] || s[0] == '/' then 0 else 1 + FirstSlash(s[1..])
  }

  lemma FirstSlashAt(part: string, rest: string)
    requires PlainPart(part) && (rest == "" || rest[0] == '/')
    ensures FirstSlash(part + rest) == |part|
  {
    var s := part + rest;
    assert forall k :: 0 <= k < |part| ==> s[k] == part[k] && part[k] in part;
    assert |s| > |part| ==> s[|part|] == '/';
  }

  lemma PathTextSplits(parts: seq<string>)
    requires PlainParts(parts) && parts != []
    ensures var s := PathText(parts);
            && s != "" && FirstSlash(s) == |parts[0]| && s[..|parts[0]|] == parts[0]
            && (|parts| == 1 <==> |s| == |parts[0]|)
            && (|parts| > 1 ==> s[|parts[0]| + 1..] == PathText(parts[1..]))
  {
    assert parts[0] in parts;
    if |parts| == 1 {
      FirstSlashAt(parts[0], "");
      assert parts[0] + "" == parts[0];
    } else {
      FirstSlashAt(parts[0], "/" + PathText(parts[1..]));
      assert PathText(parts) == parts[0] + ("/" + PathText(parts[1..]));
    }
  }

  /** Two paths with the same text are the same path. */
  lemma {:induction false} PathTextInjective(a: seq<string>, b: seq<string>)
    requires PlainParts(a) && PlainParts(b) && PathText(a) == PathText(b)
    ensures a == b
    decreases |a|
  {
    if a != [] { PathTextSplits(a); }
    if b != [] { PathTextSplits(b); }
    if a != [] && b != [] {
      assert a[0] == b[0];
      if |a| > 1 {
        PathTextInjective(a[1..], b[1..]);
      }
      assert a == [a[0]] + a[1..] && b == [b[0]] + b[1..];
    }
  }
}
