/** Which texts the installer's scalar parser accepts, and as what: its grammar, apart from the code. */
module ScalarLaws {
  import opened Wrappers
  import opened Scalars

  // ---------------------------------------------------------------- JSON strings, section 7 of RFC 8259

  predicate IsHex(c: char, d: nat) {
    d < 16 && (c == "0123456789abcdef"[d] || c == "0123456789ABCDEF"[d])
  }

  /** Six characters that spell a code unit. */
  ghost predicate IsUnit(t: string, n: nat) {
    && |t| == 6 && t[0] == '\\' && t[1] == 'u'
    && exists a: nat, b: nat, c: nat, d: nat ::
         IsHex(t[2], a) && IsHex(t[3], b) && IsHex(t[4], c) && IsHex(t[5], d) && n == a * 0x1000 + b * 0x100 + c * 0x10 + d
  }

  /** A short escape and what it stands for. */
  predicate Short(e: char, c: char) {
    || (e == '"' && c == '"') || (e == '\\' && c == '\\') || (e == '/' && c == '/')
    || (e == 'b' && c == '\U{08}') || (e == 'f' && c == '\U{0C}') || (e == 'n' && c == '\n')
    || (e == 'r' && c == '\r') || (e == 't' && c == '\t')
  }

  ghost predicate IsPair(t: string, c: char) {
    |t| == 12 && exists hi: nat, lo: nat ::
      IsUnit(t[..6], hi) && IsUnit(t[6..], lo) && 0xD800 <= hi < 0xDC00 && 0xDC00 <= lo < 0xE000
      && c as int == 0x10000 + (hi - 0xD800) * 0x400 + (lo - 0xDC00)
  }

  /** The text is a spelling of the character inside double quotes. */
  ghost predicate Spells(t: string, c: char) {
    || (|t| == 1 && t[0] == c && c >= ' ' && c != '"' && c != '\\')
    || (|t| == 2 && t[0] == '\\' && Short(t[1], c))
    || IsUnit(t, c as int)
    || IsPair(t, c)
  }

  /** The text spells these characters one after another. */
  ghost predicate Spelled(t: string, s: string)
    decreases |s|
  {
    if s == [] then t == [] else exists k :: 0 < k <= |t| && Spells(t[..k], s[0]) && Spelled(t[k..], s[1..])
  }

  lemma HexIff(c: char, d: nat)
    ensures HexValue(c) == Some(d) <==> IsHex(c, d)
  {
    if d < 16 {
      HexRoundTrip(d);
    }
  }

  lemma UnitAtIff(text: string, n: nat)
    ensures UnitAt(text) == Some(n) <==> |text| >= 6 && IsUnit(text[..6], n)
  {
    hide HexValue, IsHex;
    if |text| >= 6 {
      var t := text[..6];
      if UnitAt(text) == Some(n) {
        var a, b, c, d := HexValue(t[2]).value, HexValue(t[3]).value, HexValue(t[4]).value, HexValue(t[5]).value;
        HexIff(t[2], a);
        HexIff(t[3], b);
        HexIff(t[4], c);
        HexIff(t[5], d);
      }
      if IsUnit(t, n) {
        var a: nat, b: nat, c: nat, d: nat :|
          IsHex(t[2], a) && IsHex(t[3], b) && IsHex(t[4], c) && IsHex(t[5], d) && n == a * 0x1000 + b * 0x100 + c * 0x10 + d;
        HexIff(t[2], a);
        HexIff(t[3], b);
        HexIff(t[4], c);
        HexIff(t[5], d);
      }
    }
  }

  lemma UnitStarts(t: string, n: nat)
    requires IsUnit(t, n)
    ensures |t| == 6 && t[0] == '\\' && t[1] == 'u' && n < 0x10000
  {}

  lemma PairStarts(t: string, c: char)
    requires IsPair(t, c)
    ensures |t| == 12 && t[0] == '\\' && t[1] == 'u' && c as int >= 0x10000
  {
    hide IsUnit;
    var hi: nat, lo: nat :| IsUnit(t[..6], hi) && IsUnit(t[6..], lo) && 0xD800 <= hi < 0xDC00 && 0xDC00 <= lo < 0xE000
                            && c as int == 0x10000 + (hi - 0xD800) * 0x400 + (lo - 0xDC00);
    UnitStarts(t[..6], hi);
    assert t[..6][0] == t[0] && t[..6][1] == t[1];
  }

  /** Anything but an escaped code unit. */
  lemma DecodePlain(text: string, c: char, k: nat)
    requires text != [] && text[0] != '"' && !(|text| >= 2 && text[0] == '\\' && text[1] == 'u')
    ensures DecodeChar(text) == Some((c, k)) && k <= |text| <==> k <= |text| && Spells(text[..k], c)
  {
    hide IsUnit, IsPair, HexValue;
    if k <= |text| {
      var t := text[..k];
      if IsUnit(t, c as int) {
        UnitStarts(t, c as int);
      }
      if IsPair(t, c) {
        PairStarts(t, c);
      }
    }
  }

  /** A pair of surrogates after the first of them. */
  lemma PairIff(text: string, u: nat, c: char, k: nat)
    requires |text| >= 6 && UnitAt(text) == Some(u) && 0xD800 <= u < 0xDC00
    ensures k <= |text| && IsPair(text[..k], c) <==>
              k == 12 && |text| >= 12
              && exists lo: nat :: UnitAt(text[6..]) == Some(lo) && 0xDC00 <= lo < 0xE000 && c as int == 0x10000 + (u - 0xD800) * 0x400 + (lo - 0xDC00)
  {
    hide UnitAt, IsUnit;
    if k == 12 && |text| >= 12 {
      assert text[..k][..6] == text[..6] && text[..k][6..] == text[6..][..6];
      if IsPair(text[..k], c) {
        var hi: nat, lo: nat :| IsUnit(text[..6], hi) && IsUnit(text[6..][..6], lo) && 0xD800 <= hi < 0xDC00 && 0xDC00 <= lo < 0xE000
                                && c as int == 0x10000 + (hi - 0xD800) * 0x400 + (lo - 0xDC00);
        UnitAtIff(text, hi);
        UnitAtIff(text[6..], lo);
      }
      if lo: nat :| UnitAt(text[6..]) == Some(lo) && 0xDC00 <= lo < 0xE000 && c as int == 0x10000 + (u - 0xD800) * 0x400 + (lo - 0xDC00) {
        UnitAtIff(text, u);
        UnitAtIff(text[6..], lo);
      }
    }
  }

  /** An escaped code unit, or two. */
  lemma DecodeUnicode(text: string, c: char, k: nat)
    requires |text| >= 2 && text[0] == '\\' && text[1] == 'u'
    ensures DecodeChar(text) == Some((c, k)) && k <= |text| <==> k <= |text| && Spells(text[..k], c)
  {
    hide UnitAt, IsUnit, IsPair;
    var n := c as int;
    UnitAtIff(text, n);
    if k <= |text| {
      assert Spells(text[..k], c) <==> IsUnit(text[..k], n) || IsPair(text[..k], c);
      if IsUnit(text[..k], n) {
        UnitStarts(text[..k], n);
      }
      if IsPair(text[..k], c) {
        PairStarts(text[..k], c);
        PairHigh(text, c);
      }
    }
    if UnitAt(text).Some? {
      var u := UnitAt(text).value;
      UnitAtIff(text, u);
      UnitStarts(text[..6], u);
      if 0xD800 <= u < 0xDC00 {
        PairIff(text, u, c, k);
        if UnitAt(text[6..]).Some? {
          UnitAtIff(text[6..], UnitAt(text[6..]).value);
        }
      }
    }
  }

  lemma PairHigh(text: string, c: char)
    requires |text| >= 12 && IsPair(text[..12], c)
    ensures UnitAt(text).Some? && 0xD800 <= UnitAt(text).value < 0xDC00
  {
    hide UnitAt, IsUnit;
    var hi: nat, lo: nat :| IsUnit(text[..12][..6], hi) && IsUnit(text[..12][6..], lo) && 0xD800 <= hi < 0xDC00;
    assert text[..12][..6] == text[..6];
    UnitAtIff(text, hi);
  }

  /** Reading one character is undoing its spelling. */
  lemma DecodeCharIff(text: string, c: char, k: nat)
    requires text != [] && text[0] != '"'
    ensures DecodeChar(text) == Some((c, k)) && k <= |text| <==> k <= |text| && Spells(text[..k], c)
  {
    hide DecodeChar, Spells;
    if |text| >= 2 && text[0] == '\\' && text[1] == 'u' {
      DecodeUnicode(text, c, k);
    } else {
      DecodePlain(text, c, k);
    }
  }

  lemma SpellsStarts(t: string, c: char)
    requires Spells(t, c)
    ensures t != [] && t[0] != '"'
  {
    hide IsUnit, IsPair;
    if IsUnit(t, c as int) {
      UnitStarts(t, c as int);
    } else if IsPair(t, c) {
      PairStarts(t, c);
    }
  }

  /** White space by section 2 of RFC 8259. */
  predicate OnlyBlanks(s: string) {
    forall i :: 0 <= i < |s| ==> s[i] == ' ' || s[i] == '\t' || s[i] == '\n' || s[i] == '\r'
  }

  lemma BlanksSame(s: string)
    ensures OnlyBlanks(s) <==> JsonBlank(s)
  {
    forall i | 0 <= i < |s| ensures s[i] in s {}
  }

  /** A JSON string after its opening quote: a spelling, the closing quote, white space. */
  ghost predicate IsBody(text: string, s: string, q: nat) {
    q < |text| && Spelled(text[..q], s) && text[q] == '"' && OnlyBlanks(text[q + 1..])
  }

  lemma {:induction false} BodyDecodes(text: string, s: string, q: nat)
    requires IsBody(text, s, q)
    ensures DecodeBody(text) == Some(s)
    decreases |s|
  {
    hide DecodeChar, Spells, JsonBlank, OnlyBlanks;
    BlanksSame(text[q + 1..]);
    if s != [] {
      var k: nat :| 0 < k <= q && Spells(text[..q][..k], s[0]) && Spelled(text[..q][k..], s[1..]);
      assert text[..q][..k] == text[..k] && text[..q][k..] == text[k..][..q - k];
      SpellsStarts(text[..k], s[0]);
      assert text[..k][0] == text[0];
      DecodeCharIff(text, s[0], k);
      assert text[k..][q - k] == text[q] && text[k..][q - k + 1..] == text[q + 1..];
      BodyDecodes(text[k..], s[1..], q - k);
      assert [s[0]] + s[1..] == s;
    }
  }

  lemma {:induction false} DecodesBody(text: string, s: string) returns (q: nat)
    requires DecodeBody(text) == Some(s)
    ensures IsBody(text, s, q)
    decreases |text|
  {
    hide DecodeChar, Spells, JsonBlank, OnlyBlanks;
    if text[0] == '"' {
      q := 0;
      BlanksSame(text[1..]);
    } else {
      var (c, k) := DecodeChar(text).value;
      DecodeCharIff(text, c, k);
      assert k > 0 by { SpellsStarts(text[..k], c); }
      var rest := DecodeBody(text[k..]).value;
      var p := DecodesBody(text[k..], rest);
      q := k + p;
      assert text[..q][..k] == text[..k] && text[..q][k..] == text[k..][..p];
      assert s[0] == c && s[1..] == rest;
      assert text[k..][p] == text[q] && text[k..][p + 1..] == text[q + 1..];
    }
  }

  // ---------------------------------------------------------------- the scalars

  /**
   A text that opens with a double quote is accepted exactly when the rest spells a valid key
   up to a closing quote with only white space behind it; what spells something else is an
   invalid key, and anything else invalid syntax.
   */
  lemma DoubleQuotedIff(rest: string)
    ensures forall s :: ParseScalar(['"'] + rest) == Success(s) <==> 1 <= |s| <= 512 && exists q :: IsBody(rest, s, q)
    ensures ParseScalar(['"'] + rest) == Failure(InvalidKey) <==> exists s, q :: IsBody(rest, s, q) && !(1 <= |s| <= 512)
    ensures ParseScalar(['"'] + rest) == Failure(InvalidDoubleQuoted) <==> !exists s, q :: IsBody(rest, s, q)
    ensures ParseScalar(['"'] + rest).Failure? ==> ParseScalar(['"'] + rest).error in {InvalidKey, InvalidDoubleQuoted}
  {
    hide IsBody, DecodeBody;
    assert (['"'] + rest)[1..] == rest;
    forall s, q | IsBody(rest, s, q) ensures DecodeBody(rest) == Some(s) {
      BodyDecodes(rest, s, q);
    }
    if DecodeBody(rest).Some? {
      var q := DecodesBody(rest, DecodeBody(rest).value);
    }
  }

  /** A text without quotes is a key if and only if it is one of the plain ones. */
  lemma PlainIff(value: string)
    requires value == [] || value[0] !in {'"', '\''}
    ensures ParseScalar(value) ==
              if 1 <= |value| <= 512
                 && (forall c :: c in value ==> 'A' <= c <= 'Z' || 'a' <= c <= 'z' || '0' <= c <= '9' || c == '.' || c == '_' || c == '~' || c == '-')
              then Success(value) else Failure(NotAScalar)
  {}

  /** A text that opens with a single quote but has no closing one is invalid. */
  lemma OpenQuote(value: string)
    requires value != [] && value[0] == '\'' && (|value| < 2 || value[|value| - 1] != '\'')
    ensures ParseScalar(value) == Failure(InvalidSingleQuoted)
  {}
}
