/** `JSON.stringify` of a string, as used for the error payload of a failed
    tool call, and the decoding that inverts it. */
module Json {
  import opened Wrappers

  /** Lower-case hexadecimal digit. */
  function HexDigit(d: nat): char
    requires d < 16
  {
    if d < 10 then ('0' as int + d) as char else ('a' as int + d - 10) as char
  }

  /** The JSON escape of one character: the two-character escapes, `\u00xx`
      (lower-case hex) for the other control characters, the character
      itself otherwise. */
  function EscapeChar(c: char): string {
    if c == '"' then "\\\""
    else if c == '\\' then "\\\\"
    else if c == '\U{0008}' then "\\b"
    else if c == '\U{000C}' then "\\f"
    else if c == '\n' then "\\n"
    else if c == '\r' then "\\r"
    else if c == '\t' then "\\t"
    else if c < ' ' then "\\u00" + [HexDigit(c as int / 16), HexDigit(c as int % 16)]
    else [c]
  }

  /** The body of the JSON string literal for `s`. */
  function Escape(s: string): string {
    if |s| == 0 then "" else EscapeChar(s[0]) + Escape(s[1..])
  }

  /** `JSON.stringify(s)` */
  function Quote(s: string): string {
    "\"" + Escape(s) + "\""
  }

  /** `JSON.stringify({ error: message })` */
  function ErrorPayload(message: string): string {
    "{\"error\":" + Quote(message) + "}"
  }

  function HexValue(c: char): Option<nat> {
    if '0' <= c <= '9' then Some(c as int - '0' as int)
    else if 'a' <= c <= 'f' then Some(c as int - 'a' as int + 10)
    else if 'A' <= c <= 'F' then Some(c as int - 'A' as int + 10)
    else None
  }

  function HexQuad(q: string): Option<nat>
    requires |q| == 4
  {
    match (HexValue(q[0]), HexValue(q[1]), HexValue(q[2]), HexValue(q[3]))
    case (Some(a), Some(b), Some(c), Some(d)) => Some(((a * 16 + b) * 16 + c) * 16 + d)
    case _ => None
  }

  function SimpleEscape(e: char): Option<char> {
    if e == '"' then Some('"')
    else if e == '\\' then Some('\\')
    else if e == '/' then Some('/')
    else if e == 'b' then Some('\U{0008}')
    else if e == 'f' then Some('\U{000C}')
    else if e == 'n' then Some('\n')
    else if e == 'r' then Some('\r')
    else if e == 't' then Some('\t')
    else None
  }

  function Prepend(c: char, rest: Option<string>): Option<string> {
    match rest
    case None => None
    case Some(r) => Some([c] + r)
  }

  /** Decodes the body of a JSON string literal; `None` when it is not one. */
  function Unescape(t: string): Option<string>
    decreases |t|
  {
    if |t| == 0 then Some("")
    else if t[0] == '\\' then
      if |t| < 2 then None
      else if t[1] == 'u' then
        if |t| < 6 then None
        else match HexQuad(t[2..6])
          case None => None
          case Some(v) =>
            if v < 0xD800 || 0xE000 <= v < 0x11_0000 then Prepend(v as char, Unescape(t[6..])) else None
      else match SimpleEscape(t[1])
        case None => None
        case Some(c) => Prepend(c, Unescape(t[2..]))
    else if t[0] == '"' || t[0] < ' ' then None
    else Prepend(t[0], Unescape(t[1..]))
  }

  lemma UnescapeChar(c: char, rest: string)
    ensures Unescape(EscapeChar(c) + rest) == Prepend(c, Unescape(rest))
  {
    var t := EscapeChar(c) + rest;
    if c < ' ' && c != '\U{0008}' && c != '\U{000C}' && c != '\n' && c != '\r' && c != '\t' {
      var hi, lo := c as int / 16, c as int % 16;
      var quad := ['0', '0', HexDigit(hi), HexDigit(lo)];
      assert EscapeChar(c) == ['\\', 'u'] + quad;
      assert t[0] == '\\' && t[1] == 'u';
      assert t[2..6] == quad;
      assert t[6..] == rest;
      assert HexValue(quad[2]) == Some(hi);
      assert HexValue(quad[3]) == Some(lo);
      assert HexQuad(quad) == Some(c as int);
    } else if EscapeChar(c) == [c] {
      assert t[1..] == rest;
    } else {
      assert t[2..] == rest;
    }
  }

  /** Decoding undoes `JSON.stringify`: the error message survives the
      payload intact. */
  lemma {:induction false} UnescapeEscape(s: string)
    ensures Unescape(Escape(s)) == Some(s)
  {
    if |s| > 0 {
      UnescapeEscape(s[1..]);
      UnescapeChar(s[0], Escape(s[1..]));
      assert s == [s[0]] + s[1..];
    }
  }

  /** The payload is `{"error":"` + escaped message + `"}`, and the escaped
      message decodes to the message. */
  lemma ErrorPayloadShape(message: string)
    ensures var p := ErrorPayload(message);
      && p[..10] == "{\"error\":\""
      && p[|p| - 2..] == "\"}"
      && Unescape(p[10..|p| - 2]) == Some(message)
  {
    var p := ErrorPayload(message);
    assert p[10..|p| - 2] == Escape(message);
    UnescapeEscape(message);
  }
}
