/** The key scalars of the gateway config: how a key is printed and how the installer parses one. */
module Scalars {
  import opened Wrappers

  // ---------------------------------------------------------------- JSON strings, section 7 of RFC 8259

  function HexDigit(d: nat): char
    requires d < 16
  {
    "0123456789abcdef"[d]
  }

  function HexValue(c: char): Option<nat> {
    if '0' <= c <= '9' then Some(c as int - '0' as int)
    else if 'a' <= c <= 'f' then Some(c as int - 'a' as int + 10)
    else if 'A' <= c <= 'F' then Some(c as int - 'A' as int + 10)
    else None
  }

  function Unit(n: nat): string
    requires n < 0x10000
  {
    ['\\', 'u', HexDigit(n / 0x1000), HexDigit(n / 0x100 % 0x10), HexDigit(n / 0x10 % 0x10), HexDigit(n % 0x10)]
  }

  /** The code unit written at the start of a text. */
  function UnitAt(text: string): Option<nat> {
    if |text| < 6 || text[0] != '\\' || text[1] != 'u' then None
    else
      var a, b, c, d := HexValue(text[2]), HexValue(text[3]), HexValue(text[4]), HexValue(text[5]);
      if a.None? || b.None? || c.None? || d.None? then None
      else Some(a.value * 0x1000 + b.value * 0x100 + c.value * 0x10 + d.value)
  }

  /** Printing escapes quotes, backslashes and everything that is not printable ASCII. */
  function EscapeChar(c: char): string {
    if c == '"' then ['\\', '"']
    else if c == '\\' then ['\\', '\\']
    else if c == '\n' then ['\\', 'n']
    else if c == '\r' then ['\\', 'r']
    else if c == '\t' then ['\\', 't']
    else if c == '\U{0C}' then ['\\', 'f']
    else if c == '\U{08}' then ['\\', 'b']
    else if ' ' <= c <= '~' then [c]
    else
      var n := c as int;
      if n < 0x10000 then Unit(n)
      else Unit(0xD800 + (n - 0x10000) / 0x400) + Unit(0xDC00 + (n - 0x10000) % 0x400)
  }

  function Escape(s: string): string {
    if s == [] then [] else EscapeChar(s[0]) + Escape(s[1..])
  }

  function JsonQuote(s: string): string {
    ['"'] + Escape(s) + ['"']
  }

  /** One character of a JSON string and the length of its spelling; a lone surrogate is refused. */
  function DecodeChar(text: string): Option<(char, nat)>
    requires text != []
  {
    if text[0] != '\\' then if text[0] < ' ' then None else Some((text[0], 1))
    else if |text| < 2 then None
    else if text[1] in {'"', '\\', '/'} then Some((text[1], 2))
    else if text[1] == 'n' then Some(('\n', 2))
    else if text[1] == 'r' then Some(('\r', 2))
    else if text[1] == 't' then Some(('\t', 2))
    else if text[1] == 'f' then Some(('\U{0C}', 2))
    else if text[1] == 'b' then Some(('\U{08}', 2))
    else match UnitAt(text)
      case None => None
      case Some(u) =>
        if 0xD800 <= u < 0xDC00 then
          match UnitAt(text[6..])
          case None => None
          case Some(v) =>
            if 0xDC00 <= v < 0xE000 then Some((((u - 0xD800) * 0x400 + (v - 0xDC00) + 0x10000) as char, 12)) else None
        else if 0xDC00 <= u < 0xE000 || u >= 0x10000 then None
        else Some((u as char, 6))
  }

  /** White space as JSON defines it. */
  predicate JsonBlank(s: string) {
    forall c :: c in s ==> c in {' ', '\t', '\n', '\r'}
  }

  /** The rest of a JSON string after its opening quote; only white space may follow the closing one. */
  function DecodeBody(text: string): Option<string>
    decreases |text|
  {
    if text == [] then None
    else if text[0] == '"' then if JsonBlank(text[1..]) then Some([]) else None
    else match DecodeChar(text)
      case None => None
      case Some((c, n)) =>
        if n > |text| then None
        else match DecodeBody(text[n..])
          case None => None
          case Some(rest) => Some([c] + rest)
  }

  lemma HexRoundTrip(d: nat)
    requires d < 16
    ensures HexValue(HexDigit(d)) == Some(d)
  {}

  lemma UnitRoundTrip(n: nat, rest: string)
    requires n < 0x10000
    ensures UnitAt(Unit(n) + rest) == Some(n)
    ensures |Unit(n)| == 6 && (Unit(n) + rest)[..2] == ['\\', 'u'] && (Unit(n) + rest)[6..] == rest
  {
    var text := Unit(n) + rest;
    HexRoundTrip(n / 0x1000);
    HexRoundTrip(n / 0x100 % 0x10);
    HexRoundTrip(n / 0x10 % 0x10);
    HexRoundTrip(n % 0x10);
    HexSum(n);
    assert text[2] == HexDigit(n / 0x1000) && text[3] == HexDigit(n / 0x100 % 0x10);
    assert text[4] == HexDigit(n / 0x10 % 0x10) && text[5] == HexDigit(n % 0x10);
  }

  lemma HexSum(n: nat)
    requires n < 0x10000
    ensures n / 0x1000 < 0x10
    ensures n / 0x1000 * 0x1000 + n / 0x100 % 0x10 * 0x100 + n / 0x10 % 0x10 * 0x10 + n % 0x10 == n
  {}

  lemma EscapeDecodes(c: char, rest: string)
    ensures EscapeChar(c) != [] && EscapeChar(c)[0] != '"'
    ensures DecodeChar(EscapeChar(c) + rest) == Some((c, |EscapeChar(c)|))
  {
    hide UnitAt, Unit;
    var n := c as int;
    if c in {'"', '\\', '\n', '\r', '\t', '\U{0C}', '\U{08}'} || ' ' <= c <= '~' {
    } else if n < 0x10000 {
      UnitRoundTrip(n, rest);
      UnitStart(n, rest);
    } else {
      var hi, lo := 0xD800 + (n - 0x10000) / 0x400, 0xDC00 + (n - 0x10000) % 0x400;
      UnitRoundTrip(hi, Unit(lo) + rest);
      UnitStart(hi, Unit(lo) + rest);
      UnitRoundTrip(lo, rest);
      assert Unit(hi) + Unit(lo) + rest == Unit(hi) + (Unit(lo) + rest);
    }
  }

  lemma UnitStart(n: nat, rest: string)
    requires n < 0x10000
    ensures |Unit(n)| == 6 && Unit(n)[0] == '\\'
    ensures (Unit(n) + rest)[0] == '\\' && (Unit(n) + rest)[1] == 'u'
  {}

  lemma {:induction false} EscapedDecodes(s: string, after: string)
    requires JsonBlank(after)
    ensures DecodeBody(Escape(s) + ['"'] + after) == Some(s)
    decreases |s|
  {
    hide EscapeChar, DecodeChar, JsonBlank;
    if s == [] {
      var text := Escape(s) + ['"'] + after;
      assert text[0] == '"' && text[1..] == after;
    } else {
      var rest := Escape(s[1..]) + ['"'] + after;
      EscapeDecodes(s[0], rest);
      var text := EscapeChar(s[0]) + rest;
      assert Escape(s) + ['"'] + after == text && text[0] == EscapeChar(s[0])[0];
      assert text[|EscapeChar(s[0])|..] == rest;
      EscapedDecodes(s[1..], after);
      assert [s[0]] + s[1..] == s;
    }
  }

  predicate Printable(s: string) {
    forall c :: c in s ==> ' ' <= c <= '~'
  }

  lemma UnitPrintable(n: nat)
    requires n < 0x10000
    ensures Printable(Unit(n))
  {
    assert forall d: nat :: d < 16 ==> ' ' <= HexDigit(d) <= '~';
  }

  lemma EscapePrintable(c: char)
    ensures Printable(EscapeChar(c))
  {
    hide Unit;
    var n := c as int;
    if n >= 0x10000 {
      UnitPrintable(0xD800 + (n - 0x10000) / 0x400);
      UnitPrintable(0xDC00 + (n - 0x10000) % 0x400);
    } else if n < ' ' as int || n > '~' as int {
      UnitPrintable(n);
    }
  }

  /** The printed form is printable ASCII. */
  lemma {:induction false} QuotePrintable(s: string)
    ensures Printable(Escape(s)) && Printable(JsonQuote(s))
    decreases |s|
  {
    hide EscapeChar;
    if s != [] {
      EscapePrintable(s[0]);
      QuotePrintable(s[1..]);
    }
  }

  // ---------------------------------------------------------------- single quotes, section 7.3.2 of YAML 1.2.2

  /** Puts read characters before those still to be read. */
  function Prepend(read: string, rest: Option<string>): Option<string> {
    match rest case None => None case Some(s) => Some(read + s)
  }

  lemma PrependTwice(read: string, next: string, rest: Option<string>)
    ensures Prepend(read, Prepend(next, rest)) == Prepend(read + next, rest)
  {
    if rest.Some? {
      assert read + (next + rest.value) == read + next + rest.value;
    }
  }

  function Double(s: string): string {
    if s == [] then [] else (if s[0] == '\'' then ['\'', '\''] else [s[0]]) + Double(s[1..])
  }

  /** Pairs of quotes read as one; a quote without its pair refuses the text. */
  function Undouble(inner: string): Option<string>
    decreases |inner|
  {
    if inner == [] then Some([])
    else if inner[0] != '\'' then
      Prepend([inner[0]], Undouble(inner[1..]))
    else if |inner| < 2 || inner[1] != '\'' then None
    else Prepend(['\''], Undouble(inner[2..]))
  }

  lemma {:induction false} UndoubleDoubled(s: string)
    ensures Undouble(Double(s)) == Some(s)
    decreases |s|
  {
    if s != [] {
      UndoubleDoubled(s[1..]);
      if s[0] == '\'' {
        assert Double(s)[2..] == Double(s[1..]);
      } else {
        assert Double(s)[1..] == Double(s[1..]);
      }
      assert [s[0]] + s[1..] == s;
    }
  }

  lemma {:induction false} DoubledUndouble(inner: string)
    ensures Undouble(inner).Some? ==> Double(Undouble(inner).value) == inner
    decreases |inner|
  {
    if inner != [] {
      if inner[0] != '\'' {
        DoubledUndouble(inner[1..]);
      } else if |inner| >= 2 && inner[1] == '\'' {
        DoubledUndouble(inner[2..]);
        assert inner == ['\'', '\''] + inner[2..];
      }
    }
  }

  // ---------------------------------------------------------------- the scalar parser

  predicate PlainChar(c: char) {
    'A' <= c <= 'Z' || 'a' <= c <= 'z' || '0' <= c <= '9' || c in {'.', '_', '~', '-'}
  }

  predicate PlainKey(s: string) {
    1 <= |s| <= 512 && forall c :: c in s ==> PlainChar(c)
  }

  datatype ScalarError = InvalidDoubleQuoted | InvalidSingleQuoted | NotAScalar | InvalidKey

  function Unquoted(value: string): Result<string, ScalarError> {
    if value != [] && value[0] == '"' then
      match DecodeBody(value[1..]) case None => Failure(InvalidDoubleQuoted) case Some(s) => Success(s)
    else if value != [] && value[0] == '\'' then
      if |value| < 2 || value[|value| - 1] != '\'' then Failure(InvalidSingleQuoted)
      else match Undouble(value[1..|value| - 1]) case None => Failure(InvalidSingleQuoted) case Some(s) => Success(s)
    else if PlainKey(value) then Success(value)
    else Failure(NotAScalar)
  }

  predicate ValidKey(s: string) {
    1 <= |s| <= 512
  }

  function ParseScalar(value: string): Result<string, ScalarError> {
    match Unquoted(value)
    case Failure(e) => Failure(e)
    case Success(s) => if ValidKey(s) then Success(s) else Failure(InvalidKey)
  }

  method ParseApiKeyScalar(value: string) returns (parsed: Result<string, ScalarError>)
    ensures parsed == ParseScalar(value)
  {
    var text;
    if value != [] && value[0] == '"' {
      var decoded := DecodeBody(value[1..]);
      if decoded.None? {
        return Failure(InvalidDoubleQuoted);
      }
      text := decoded.value;
    } else if value != [] && value[0] == '\'' {
      if |value| < 2 || value[|value| - 1] != '\'' {
        return Failure(InvalidSingleQuoted);
      }
      var inner := value[1..|value| - 1];
      text := [];
      var index := 0;
      ghost var whole := Undouble(inner);
      assert inner[0..] == inner;
      if whole.Some? {
        assert [] + whole.value == whole.value;
      }
      while index < |inner|
        invariant 0 <= index <= |inner|
        invariant whole == Prepend(text, Undouble(inner[index..]))
      {
        if inner[index] != '\'' {
          assert inner[index..][1..] == inner[index + 1..];
          PrependTwice(text, [inner[index]], Undouble(inner[index + 1..]));
          text := text + [inner[index]];
          index := index + 1;
        } else {
          if index + 1 >= |inner| || inner[index + 1] != '\'' {
            return Failure(InvalidSingleQuoted);
          }
          assert inner[index..][2..] == inner[index + 2..];
          PrependTwice(text, ['\''], Undouble(inner[index + 2..]));
          text := text + ['\''];
          index := index + 2;
        }
      }
      assert text + [] == text;
    } else if PlainKey(value) {
      text := value;
    } else {
      return Failure(NotAScalar);
    }
    return if text == [] || |text| > 512 then Failure(InvalidKey) else Success(text);
  }

  /** Parsing inverts printing in JSON quotes, whatever white space follows. */
  lemma ParsePrinted(s: string, after: string)
    requires ValidKey(s) && JsonBlank(after)
    ensures ParseScalar(JsonQuote(s) + after) == Success(s)
  {
    hide DecodeChar, EscapeChar, Escape, JsonBlank, Undouble, PlainKey;
    EscapedDecodes(s, after);
    assert (JsonQuote(s) + after)[1..] == Escape(s) + ['"'] + after;
  }

  lemma PrintedParses(s: string)
    requires ValidKey(s)
    ensures ParseScalar(JsonQuote(s)) == Success(s)
  {
    hide ParseScalar, JsonQuote;
    ParsePrinted(s, "");
    assert JsonQuote(s) + "" == JsonQuote(s);
  }

  /** Parsing inverts quote doubling. */
  lemma ParseDoubled(s: string)
    requires ValidKey(s)
    ensures ParseScalar(['\''] + Double(s) + ['\'']) == Success(s)
  {
    var value := ['\''] + Double(s) + ['\''];
    assert value[1..|value| - 1] == Double(s);
    UndoubleDoubled(s);
  }

  /** A single-quoted text is accepted exactly when it is the doubling of a valid key. */
  lemma SingleQuotedIff(inner: string)
    ensures ParseScalar(['\''] + inner + ['\'']).Success? <==> exists s :: ValidKey(s) && inner == Double(s)
    ensures !(exists s :: inner == Double(s)) <==> ParseScalar(['\''] + inner + ['\'']) == Failure(InvalidSingleQuoted)
  {
    var value := ['\''] + inner + ['\''];
    assert value[1..|value| - 1] == inner;
    DoubledUndouble(inner);
    forall s | inner == Double(s) ensures Undouble(inner) == Some(s) {
      UndoubleDoubled(s);
    }
  }
}
