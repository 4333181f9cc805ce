/**
 * The one JSON document the chat route serialises per delta,
 * `JSON.stringify({ content })`, and a decoder for exactly that shape.
 * Encoding follows the string quoting of ECMAScript's JSON.stringify:
 * the short escapes for quote, backslash, backspace, tab, line feed,
 * form feed and carriage return, `\u00xx` with lower-case hex for the other
 * control characters, everything else verbatim.
 */
module Json {
  import opened Wrappers
  import opened Text

  /** The text before the escaped content: `{"content":"`. */
  const ContentOpen: string := "{\"content\":\""

  function HexDigit(d: nat): (c: char)
    requires d < 16
  {
    if d < 10 then ('0' as int + d) as char else ('a' as int + d - 10) as char
  }

  function HexValue(c: char): (r: Option<nat>)
    ensures r.Some? ==> r.value < 16
  {
    if '0' <= c <= '9' then Some(c as int - '0' as int)
    else if 'a' <= c <= 'f' then Some(c as int - 'a' as int + 10)
    else if 'A' <= c <= 'F' then Some(c as int - 'A' as int + 10)
    else None
  }

  lemma {:induction false} HexValueOfDigit(d: nat)
    requires d < 16
    ensures HexValue(HexDigit(d)) == Some(d)
  {
  }

  /** The value of four hex digits. */
  function HexQuad(s: string): (r: Option<nat>)
    requires |s| == 4
  {
    match (HexValue(s[0]), HexValue(s[1]), HexValue(s[2]), HexValue(s[3]))
    case (Some(a), Some(b), Some(c), Some(d)) => Some(4096 * a + 256 * b + 16 * c + d)
    case _ => None
  }

  /** The character a one-letter escape `\x` stands for. */
  function ShortEscape(x: char): Option<char> {
    if x == '"' then Some('"')
    else if x == '\\' then Some('\\')
    else if x == '/' then Some('/')
    else if x == 'b' then Some(8 as char)
    else if x == 'f' then Some(12 as char)
    else if x == 'n' then Some('\n')
    else if x == 'r' then Some('\r')
    else if x == 't' then Some('\t')
    else None
  }

  /** How JSON.stringify writes one character inside a string literal. */
  function EscapeChar(c: char): (r: string)
    ensures forall k :: 0 <= k < |r| ==> r[k] as int >= 0x20
  {
    var n := c as int;
    if c == '"' then "\\\""
    else if c == '\\' then "\\\\"
    else if n == 8 then "\\b"
    else if n == 9 then "\\t"
    else if n == 10 then "\\n"
    else if n == 12 then "\\f"
    else if n == 13 then "\\r"
    else if n < 0x20 then "\\u00" + [HexDigit(n / 16), HexDigit(n % 16)]
    else [c]
  }

  function Escape(s: string): (r: string)
    ensures forall k :: 0 <= k < |r| ==> r[k] as int >= 0x20
    decreases |s|
  {
    if s == [] then "" else EscapeChar(s[0]) + Escape(s[1..])
  }

  /** `JSON.stringify({ content })`. */
  function EncodeContent(content: string): (r: string)
    ensures '\n' !in r && IsPrefix(ContentOpen, r)
  {
    var r := ContentOpen + Escape(content) + "\"}";
    assert forall k :: 0 <= k < |r| ==> r[k] as int >= 0x20;
    r
  }

  function Prepend(c: char, o: Option<(string, string)>): Option<(string, string)> {
    match o
    case Some((v, rest)) => Some(([c] + v, rest))
    case None => None
  }

  /**
   * Reads the body of a JSON string literal up to its closing quote: the
   * decoded text and what follows the quote, or None when it is malformed.
   */
  function ParseString(s: string): (r: Option<(string, string)>)
    ensures r.Some? ==> |r.value.1| < |s| && s[|s| - |r.value.1| - 1] == '"'
                        && s[|s| - |r.value.1|..] == r.value.1
    decreases |s|
  {
    if s == [] then None
    else if s[0] == '"' then Some(("", s[1..]))
    else if s[0] == '\\' then
      if |s| < 2 then None
      else match ShortEscape(s[1])
        case Some(c) => Prepend(c, ParseString(s[2..]))
        case None =>
          if s[1] == 'u' && |s| >= 6 then
            match HexQuad(s[2..6])
            case Some(v) =>
              if v < 0xD800 || (0xE000 <= v < 0x11_0000) then Prepend(v as char, ParseString(s[6..]))
              else None
            case None => None
          else None
    else if (s[0] as int) < 0x20 then None
    else Prepend(s[0], ParseString(s[1..]))
  }

  /**
   * The client's reading of one `data:` payload of this shape: the content when
   * the document is `{"content":"..."}` with non-empty content (the client only
   * appends truthy content), None otherwise.
   */
  function DecodeContent(data: string): (r: Option<string>)
    ensures r.Some? ==> r.value != "" && IsPrefix(ContentOpen, data) && data[|data| - 2..] == "\"}"
  {
    if IsPrefix(ContentOpen, data) then
      match ParseString(data[|ContentOpen|..])
      case Some((v, rest)) => if rest == "}" && v != "" then Some(v) else None
      case None => None
    else None
  }

  lemma {:induction false} ParseEscapedChar(c: char, rest: string)
    ensures ParseString(EscapeChar(c) + rest) == Prepend(c, ParseString(rest))
  {
    var n := c as int;
    if c == '"' || c == '\\' || n == 8 || n == 9 || n == 10 || n == 12 || n == 13 {
      ParseShortEscape(c, rest);
    } else if n < 0x20 {
      ParseUnicodeEscape(c, rest);
    } else {
      var s := EscapeChar(c) + rest;
      assert s[0] == c && s[1..] == rest;
    }
  }

  lemma {:induction false} ParseShortEscape(c: char, rest: string)
    requires var n := c as int; c == '"' || c == '\\' || n == 8 || n == 9 || n == 10 || n == 12 || n == 13
    ensures ParseString(EscapeChar(c) + rest) == Prepend(c, ParseString(rest))
  {
    var s := EscapeChar(c) + rest;
    assert |EscapeChar(c)| == 2 && s[0] == '\\';
    assert ShortEscape(s[1]) == Some(c);
    assert s[2..] == rest;
  }

  lemma {:induction false} ParseUnicodeEscape(c: char, rest: string)
    requires var n := c as int; n < 0x20 && n != 8 && n != 9 && n != 10 && n != 12 && n != 13
    ensures ParseString(EscapeChar(c) + rest) == Prepend(c, ParseString(rest))
  {
    var n := c as int;
    var hi, lo := HexDigit(n / 16), HexDigit(n % 16);
    var s := EscapeChar(c) + rest;
    assert EscapeChar(c) == "\\u00" + [hi, lo];
    assert s[0] == '\\' && s[1] == 'u' && ShortEscape('u') == None;
    assert s[2..6] == ['0', '0', hi, lo];
    HexValueOfDigit(n / 16);
    HexValueOfDigit(n % 16);
    assert HexQuad(s[2..6]) == Some(16 * (n / 16) + n % 16);
    assert 16 * (n / 16) + n % 16 == n;
    assert s[6..] == rest;
  }

  lemma {:induction false} ParseEscape(content: string, tail: string)
    ensures ParseString(Escape(content) + "\"" + tail) == Some((content, tail))
    decreases |content|
  {
    if content == [] {
      assert Escape(content) + "\"" + tail == "\"" + tail;
      assert ("\"" + tail)[1..] == tail;
    } else {
      var rest := Escape(content[1..]) + "\"" + tail;
      assert Escape(content) + "\"" + tail == EscapeChar(content[0]) + rest;
      ParseEscapedChar(content[0], rest);
      ParseEscape(content[1..], tail);
      assert [content[0]] + content[1..] == content;
    }
  }

  /** Decoding inverts encoding for every content the route actually sends. */
  lemma {:induction false} DecodeEncode(content: string)
    ensures DecodeContent(EncodeContent(content)) == if content == "" then None else Some(content)
  {
    var e := EncodeContent(content);
    assert e[|ContentOpen|..] == Escape(content) + "\"" + "}";
    ParseEscape(content, "}");
  }
}
