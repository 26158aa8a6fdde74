/** How many bytes texts take up in JSON that keeps its non-ASCII characters and is encoded in UTF-8. */
module JsonSizes {

  function CharBytes(c: char): nat {
    var code := c as int;
    if c == '"' || c == '\\' || code in {8, 9, 10, 12, 13} then 2
    else if code < 32 then 6
    else if code < 0x80 then 1
    else if code < 0x800 then 2
    else if code < 0x1_0000 then 3
    else 4
  }

  function TextBytes(s: string): nat {
    if s == "" then 0 else CharBytes(s[0]) + TextBytes(s[1..])
  }

  /** The parts of a path with a separator between any two of them. */
  function PathBytes(parts: seq<string>): nat {
    if parts == [] then 0
    else TextBytes(parts[0]) + if |parts| == 1 then 0 else 1 + PathBytes(parts[1..])
  }
}
