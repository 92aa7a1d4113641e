/** The escaper and the unescaper against the string syntax of section 7 of RFC 8259. */
module JsonLaws {
  import opened Bytes
  import opened Texts
  import opened JsonText

  // ----- a conforming decoder -----

  function HexValue(c: char): Option<nat> {
    if '0' <= c <= '9' then Some(c as int - '0' as int)
    else if 'A' <= c <= 'F' then Some(c as int - 'A' as int + 10)
    else if 'a' <= c <= 'f' then Some(c as int - 'a' as int + 10)
    else None
  }

  /** Four hexadecimal digits, below the surrogates. */
  function CodeOf(s: string): Option<char>
    requires |s| == 4
  {
    match (HexValue(s[0]), HexValue(s[1]), HexValue(s[2]), HexValue(s[3]))
    case (Some(a), Some(b), Some(c), Some(d)) =>
      var code := 4096 * a + 256 * b + 16 * c + d;
      if code < 0xD800 then Some(code as char) else None
    case _ => None
  }

  /** The character of a two-character escape. */
  function ShortEscape(c: char): Option<char> {
    match c
    case '"' => Some('"')
    case '\\' => Some('\\')
    case '/' => Some('/')
    case 'b' => Some(8 as char)
    case 'f' => Some(12 as char)
    case 'n' => Some(10 as char)
    case 'r' => Some(13 as char)
    case 't' => Some(9 as char)
    case _ => None
  }

  function Before(c: char, rest: Option<string>): Option<string> {
    match rest case None => None case Some(s) => Some([c] + s)
  }

  /** The text that the inside of a string literal denotes, if it is one. */
  function Denoted(t: string): Option<string> {
    if t == "" then Some("")
    else if t[0] == '\\' then
      if |t| < 2 then None
      else if t[1] == 'u' then
        if |t| < 6 then None
        else match CodeOf(t[2..6]) case None => None case Some(c) => Before(c, Denoted(t[6..]))
      else match ShortEscape(t[1]) case None => None case Some(c) => Before(c, Denoted(t[2..]))
    else if t[0] < ' ' || t[0] == '"' then None
    else Before(t[0], Denoted(t[1..]))
  }

  // ----- the escaper writes JSON -----

  lemma DenotesOne(c: char, rest: string)
    ensures Denoted(EscapeChar(c) + rest) == Before(c, Denoted(rest))
  {
    var t := EscapeChar(c) + rest;
    if Undecodable(c) {
      CodeIsRead(c);
      assert t[2..6] == EscapeChar(c)[2..6] && t[6..] == rest;
    } else if |EscapeChar(c)| == 2 {
      assert t[2..] == rest;
    } else {
      assert t[1..] == rest;
    }
  }

  lemma CodeIsRead(c: char)
    requires Undecodable(c)
    ensures |EscapeChar(c)| == 6 && EscapeChar(c)[0] == '\\' && EscapeChar(c)[1] == 'u'
    ensures CodeOf(EscapeChar(c)[2..6]) == Some(c)
  {
    var code := c as int;
    DigitIsRead(code / 16);
    DigitIsRead(code % 16);
    assert EscapeChar(c)[2..6] == ['0', '0', HexDigit(code / 16), HexDigit(code % 16)];
  }

  lemma DigitIsRead(d: nat)
    requires d < 16
    ensures HexValue(HexDigit(d)) == Some(d)
  {
  }

  /** Whatever the text, a conforming decoder gets it back from what the escaper writes. */
  lemma {:induction false} EscapedDenotes(s: string)
    ensures Denoted(Escape(s)) == Some(s)
  {
    if s != "" {
      EscapedDenotes(s[1..]);
      DenotesOne(s[0], Escape(s[1..]));
      assert s == [s[0]] + s[1..];
    }
  }

  // ----- the unescaper reads JSON, but for codes -----

  /** No escape of the text is a code. */
  predicate WithoutCodes(t: string) {
    t == ""
    || if t[0] == '\\' && |t| >= 2 then t[1] != 'u' && WithoutCodes(t[2..]) else WithoutCodes(t[1..])
  }

  /** On the inside of a literal without codes the unescaper returns what it denotes. */
  lemma {:induction false} UnescapedIsDenoted(t: string)
    requires WithoutCodes(t) && Denoted(t).Some?
    ensures Unescape(t) == Denoted(t).value
  {
    if t != "" {
      UnescapedIsDenoted(if t[0] == '\\' then t[2..] else t[1..]);
    }
  }
}
