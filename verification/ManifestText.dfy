/**
 The text of a quarantine manifest as it is written (`_atomic_write_json` of
 cloud/cloudx_cloud/cpa_auth.py: indented JSON with sorted keys, non-ASCII characters kept)
 and its encoding in UTF-8, which the sizes of the ledger count.
 */
module ManifestText {
  import opened PathTexts
  import opened JsonSizes
  import opened QuarantineLedger

  type Octets = seq<nat>

  /** UTF-8, section 3 of RFC 3629. */
  function Utf8(c: char): Octets {
    var code := c as int;
    if code < 0x80 then [code]
    else if code < 0x800 then [0xC0 + code / 0x40, 0x80 + code % 0x40]
    else if code < 0x1_0000 then [0xE0 + code / 0x1000, 0x80 + code / 0x40 % 0x40, 0x80 + code % 0x40]
    else [0xF0 + code / 0x4_0000, 0x80 + code / 0x1000 % 0x40, 0x80 + code / 0x40 % 0x40, 0x80 + code % 0x40]
  }

  function Encoded(text: string): Octets {
    if text == "" then [] else Utf8(text[0]) + Encoded(text[1..])
  }

  /** Section 7 of RFC 8259: what has to be escaped, with the short escapes where there are some. */
  function Spelling(c: char): string {
    if c == '"' then "\\\""
    else if c == '\\' then "\\\\"
    else if c == '\n' then "\\n"
    else if c == '\r' then "\\r"
    else if c == '\t' then "\\t"
    else if c == '\U{0C}' then "\\f"
    else if c == '\U{08}' then "\\b"
    else if c < ' ' then "\\u00" + ["0123456789abcdef"[c as int / 16], "0123456789abcdef"[c as int % 16]]
    else [c]
  }

  function Spelled(s: string): string {
    if s == "" then "" else Spelling(s[0]) + Spelled(s[1..])
  }

  lemma {:induction false} EncodedAppend(a: string, b: string)
    ensures |Encoded(a + b)| == |Encoded(a)| + |Encoded(b)|
    decreases |a|
  {
    hide Utf8;
    if a == "" {
      assert a + b == b;
    } else {
      assert (a + b)[0] == a[0] && (a + b)[1..] == a[1..] + b;
      EncodedAppend(a[1..], b);
    }
  }

  predicate Ascii(s: string) {
    forall i :: 0 <= i < |s| ==> s[i] < '\U{80}'
  }

  lemma {:induction false} AsciiLength(s: string)
    requires Ascii(s)
    ensures |Encoded(s)| == |s|
    decreases |s|
  {
    if s != "" {
      AsciiLength(s[1..]);
    }
  }

  lemma HexAscii(d: nat)
    requires d < 16
    ensures "0123456789abcdef"[d] < '\U{80}'
  {}

  lemma CharLaw(c: char)
    ensures |Encoded(Spelling(c))| == CharBytes(c)
  {
    var code := c as int;
    if code < 0x80 {
      HexAscii(code / 16);
      HexAscii(code % 16);
      AsciiLength(Spelling(c));
    } else {
      assert Spelling(c) == [c] && [c][1..] == "";
      assert Encoded([c]) == Utf8(c) + Encoded([c][1..]);
    }
  }

  /** The size of a text is the number of octets it takes up between its quotes. */
  lemma {:induction false} TextLaw(s: string)
    ensures |Encoded(Spelled(s))| == TextBytes(s)
    decreases |s|
  {
    hide Spelling, CharBytes, Encoded;
    if s == "" {
      assert |Encoded("")| == 0 by { AsciiLength(""); }
    } else {
      EncodedAppend(Spelling(s[0]), Spelled(s[1..]));
      CharLaw(s[0]);
      TextLaw(s[1..]);
    }
  }

  lemma {:induction false} TextBytesAppend(a: string, b: string)
    ensures TextBytes(a + b) == TextBytes(a) + TextBytes(b)
    decreases |a|
  {
    hide CharBytes;
    if a == "" {
      assert a + b == b;
    } else {
      assert (a + b)[0] == a[0] && (a + b)[1..] == a[1..] + b;
      TextBytesAppend(a[1..], b);
    }
  }

  /** The size of a path is that of its text. */
  lemma {:induction false} PathLaw(parts: seq<string>)
    ensures PathBytes(parts) == TextBytes(PathText(parts))
    decreases |parts|
  {
    if |parts| > 1 {
      PathLaw(parts[1..]);
      TextBytesAppend(parts[0], "/" + PathText(parts[1..]));
      TextBytesAppend("/", PathText(parts[1..]));
      assert PathText(parts) == parts[0] + ("/" + PathText(parts[1..]));
      assert TextBytes("/") == 1 by { assert "/"[1..] == ""; }
    }
  }

  // ---------------------------------------------------------------- the manifest

  const MOVED_AT := "\n    {\n      \"moved_at\": \""
  const QUARANTINE_NAME := "\",\n      \"quarantine_name\": \""
  const REASON := "\",\n      \"reason\": \""
  const SOURCE_RELATIVE := "\",\n      \"source_relative\": \""
  const ENTRY_END := "\"\n    }"

  /** One entry in the list, from the line break before it on. */
  function EntryText(source: Rel, name: string, reason: string, movedAt: string): string {
    MOVED_AT + Spelled(movedAt) + QUARANTINE_NAME + Spelled(name) + REASON + Spelled(reason)
    + SOURCE_RELATIVE + Spelled(PathText(source)) + ENTRY_END
  }

  lemma EntryFrame()
    ensures Ascii(MOVED_AT) && Ascii(QUARANTINE_NAME) && Ascii(REASON) && Ascii(SOURCE_RELATIVE) && Ascii(ENTRY_END)
    ensures |MOVED_AT| + |QUARANTINE_NAME| + |REASON| + |SOURCE_RELATIVE| + |ENTRY_END| + 1 == ENTRY_FRAME
  {}

  /** The size of a new entry is that of its text and the comma after it. */
  lemma EntryLaw(source: Rel, name: string, reason: string, movedAt: string)
    ensures var e := NewEntry(source, name, reason, movedAt);
            |Encoded(EntryText(source, name, e.reason, movedAt))| + 1 == e.size
  {
    hide Encoded, Spelled, PathText, TextBytes, PathBytes, Ascii;
    var why := NewEntry(source, name, reason, movedAt).reason;
    EntryFrame();
    AsciiLength(MOVED_AT);
    AsciiLength(QUARANTINE_NAME);
    AsciiLength(REASON);
    AsciiLength(SOURCE_RELATIVE);
    AsciiLength(ENTRY_END);
    TextLaw(movedAt);
    TextLaw(name);
    TextLaw(why);
    TextLaw(PathText(source));
    PathLaw(source);
    var a := MOVED_AT + Spelled(movedAt);
    var b := a + QUARANTINE_NAME + Spelled(name);
    var c := b + REASON + Spelled(why);
    var d := c + SOURCE_RELATIVE + Spelled(PathText(source));
    EncodedAppend(MOVED_AT, Spelled(movedAt));
    EncodedAppend(a, QUARANTINE_NAME);
    EncodedAppend(a + QUARANTINE_NAME, Spelled(name));
    EncodedAppend(b, REASON);
    EncodedAppend(b + REASON, Spelled(why));
    EncodedAppend(c, SOURCE_RELATIVE);
    EncodedAppend(c + SOURCE_RELATIVE, Spelled(PathText(source)));
    EncodedAppend(d, ENTRY_END);
  }

  const HEAD := "{\n  \"entries\": ["
  const TAIL := "],\n  \"schema\": \"cloudx.cpa-quarantine.v1\"\n}\n"
  const CLOSE := "\n  "

  /** The texts of the entries with a comma between any two. */
  function Listed(texts: seq<string>): string {
    if texts == [] then "" else if |texts| == 1 then texts[0] else texts[0] + "," + Listed(texts[1..])
  }

  function ManifestOf(texts: seq<string>): string {
    HEAD + (if texts == [] then "" else Listed(texts) + CLOSE) + TAIL
  }

  lemma ManifestFrame()
    ensures Ascii(HEAD) && Ascii(TAIL) && Ascii(CLOSE) && Ascii(",")
    ensures |HEAD| + |TAIL| == MANIFEST_FRAME && |CLOSE| == LIST_FRAME + 1
  {}

  /** The texts are those of the entries: each entry's size is that of its text and a comma. */
  ghost predicate TextsOf(entries: seq<Entry>, texts: seq<string>) {
    |entries| == |texts| && forall i :: 0 <= i < |entries| ==> entries[i].size == |Encoded(texts[i])| + 1
  }

  lemma {:induction false} ListedLaw(entries: seq<Entry>, texts: seq<string>)
    requires TextsOf(entries, texts) && entries != []
    ensures |Encoded(Listed(texts))| + 1 == EntryBytes(entries)
    decreases |entries|
  {
    hide Encoded;
    if |entries| == 1 {
      assert entries[1..] == [];
    } else {
      ListedLaw(entries[1..], texts[1..]);
      assert Listed(texts) == texts[0] + ("," + Listed(texts[1..]));
      EncodedAppend(texts[0], "," + Listed(texts[1..]));
      EncodedAppend(",", Listed(texts[1..]));
      AsciiLength(",");
    }
  }

  /** The size of a manifest is the number of octets in its file. */
  lemma ManifestLaw(entries: seq<Entry>, texts: seq<string>)
    requires TextsOf(entries, texts)
    ensures |Encoded(ManifestOf(texts))| == ManifestBytes(entries)
  {
    hide Encoded, Ascii, Listed;
    ManifestFrame();
    AsciiLength(HEAD);
    AsciiLength(TAIL);
    AsciiLength(CLOSE);
    if texts == [] {
      EncodedAppend(HEAD, TAIL);
      assert HEAD + "" == HEAD;
    } else {
      ListedLaw(entries, texts);
      EncodedAppend(Listed(texts), CLOSE);
      EncodedAppend(HEAD, Listed(texts) + CLOSE);
      EncodedAppend(HEAD + (Listed(texts) + CLOSE), TAIL);
    }
  }
}
