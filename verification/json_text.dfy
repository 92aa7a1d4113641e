/** The JSON string escaper and unescaper of the runtime snapshot, and what quoting leaves visible. */
module JsonText {
  import opened Texts

  function HexDigit(d: nat): char
    requires d < 16
  {
    if d < 10 then d as char + '0' else (d - 10) as char + 'A'
  }

  function EscapeChar(c: char): string {
    if c == '\\' then "\\\\"
    else if c == '"' then "\\\""
    else if c == 8 as char then "\\b"
    else if c == 12 as char then "\\f"
    else if c == '\n' then "\\n"
    else if c == '\r' then "\\r"
    else if c == '\t' then "\\t"
    else if c < ' ' then ['\\', 'u', '0', '0', HexDigit(c as int / 16), HexDigit(c as int % 16)]
    else [c]
  }

  function Escape(s: string): string {
    Flat(EscapeChar, s)
  }

  function UnescapeChar(c: char): char {
    if c == 'b' then 8 as char
    else if c == 'f' then 12 as char
    else if c == 'n' then '\n'
    else if c == 'r' then '\r'
    else if c == 't' then '\t'
    else c
  }

  function Unescape(s: string): string {
    if s == "" then ""
    else if s[0] != '\\' || |s| < 2 then [s[0]] + Unescape(s[1..])
    else [UnescapeChar(s[1])] + Unescape(s[2..])
  }

  method EscapeJsonString(value: string) returns (out: string)
    ensures out == Escape(value)
  {
    out := "";
    for i := 0 to |value|
      invariant out == Escape(value[..i])
    {
      var ch := value[i];
      FlatSnoc(EscapeChar, value[..i], ch);
      assert value[..i + 1] == value[..i] + [ch];
      match ch {
        case '\\' => out := out + "\\\\";
        case '"' => out := out + "\\\"";
        case '\n' => out := out + "\\n";
        case '\r' => out := out + "\\r";
        case '\t' => out := out + "\\t";
        case _ =>
          if ch == 8 as char {
            out := out + "\\b";
          } else if ch == 12 as char {
            out := out + "\\f";
          } else if ch < ' ' {
            out := out + ['\\', 'u', '0', '0', HexDigit(ch as int / 16), HexDigit(ch as int % 16)];
          } else {
            out := out + [ch];
          }
      }
    }
    assert value[..|value|] == value;
  }

  /** One character of the text still to be read, escaped or not. */
  lemma UnescapeStep(value: string, i: nat, out: string)
    requires i < |value|
    ensures out + Unescape(value[i..])
         == if value[i] == '\\' && i + 1 < |value| then out + [UnescapeChar(value[i + 1])] + Unescape(value[i + 2..])
            else out + [value[i]] + Unescape(value[i + 1..])
  {
    var rest := value[i..];
    assert rest[1..] == value[i + 1..];
    if value[i] == '\\' && i + 1 < |value| {
      assert rest[2..] == value[i + 2..] && rest[1] == value[i + 1];
    }
  }

  method UnescapeJsonString(value: string) returns (out: string)
    ensures out == Unescape(value)
  {
    out := "";
    var index := 0;
    while index < |value|
      invariant index <= |value|
      invariant out + Unescape(value[index..]) == Unescape(value)
    {
      UnescapeStep(value, index, out);
      if value[index] == '\\' && index + 1 < |value| {
        index := index + 1;
        var ch := Unescaped(value[index]);
        out := out + [ch];
      } else {
        out := out + [value[index]];
      }
      index := index + 1;
    }
    assert value[index..] == "";
  }

  method Unescaped(escaped: char) returns (ch: char)
    ensures ch == UnescapeChar(escaped)
  {
    match escaped {
      case 'b' => ch := 8 as char;
      case 'f' => ch := 12 as char;
      case 'n' => ch := '\n';
      case 'r' => ch := '\r';
      case 't' => ch := '\t';
      case _ => ch := escaped;
    }
  }

  // ----- round trip -----

  /** A control character the escaper writes as a `\u` sequence, which the unescaper does not read. */
  predicate Undecodable(c: char) {
    c < ' ' && c != 8 as char && c != 12 as char && c != '\n' && c != '\r' && c != '\t'
  }

  predicate Decodable(s: string) {
    forall i :: 0 <= i < |s| ==> !Undecodable(s[i])
  }

  /** What comes back for one character. */
  function Returned(c: char): string {
    if Undecodable(c) then ['u', '0', '0', HexDigit(c as int / 16), HexDigit(c as int % 16)] else [c]
  }

  lemma UnescapeOne(c: char, rest: string)
    ensures Unescape(EscapeChar(c) + rest) == Returned(c) + Unescape(rest)
  {
    if Undecodable(c) {
      UnescapeCode(HexDigit(c as int / 16), HexDigit(c as int % 16), rest);
    } else {
      assert |EscapeChar(c)| == 2 ==> (EscapeChar(c) + rest)[2..] == rest;
      assert |EscapeChar(c)| == 1 ==> (EscapeChar(c) + rest)[1..] == rest;
    }
  }

  lemma UnescapeCode(hi: char, lo: char, rest: string)
    requires hi != '\\' && lo != '\\'
    ensures Unescape(['\\', 'u', '0', '0', hi, lo] + rest) == ['u', '0', '0', hi, lo] + Unescape(rest)
  {
    var text := ['\\', 'u', '0', '0', hi, lo] + rest;
    assert text[2..] == ['0', '0', hi, lo] + rest;
    PlainPrefix(['0', '0', hi, lo], rest);
    assert ['u', '0', '0', hi, lo] == ['u'] + ['0', '0', hi, lo];
  }

  lemma {:induction false} PlainPrefix(plain: string, rest: string)
    requires '\\' !in plain
    ensures Unescape(plain + rest) == plain + Unescape(rest)
  {
    if plain == "" {
      assert plain + rest == rest;
    } else {
      PlainPrefix(plain[1..], rest);
      assert (plain + rest)[1..] == plain[1..] + rest;
      assert plain == [plain[0]] + plain[1..];
    }
  }

  lemma {:induction false} ReturnedLength(s: string)
    ensures |Unescape(Escape(s))| >= |s|
    ensures |Unescape(Escape(s))| == |s| <==> Decodable(s)
    ensures Decodable(s) ==> Unescape(Escape(s)) == s
  {
    if s != "" {
      ReturnedLength(s[1..]);
      UnescapeOne(s[0], Escape(s[1..]));
      assert Escape(s) == EscapeChar(s[0]) + Escape(s[1..]);
      assert s == [s[0]] + s[1..];
    }
  }

  /** Exactly the strings without such a control character come back unchanged. */
  lemma EscapeRoundTrip(s: string)
    ensures Unescape(Escape(s)) == s <==> Decodable(s)
  {
    ReturnedLength(s);
  }

  /** One that does not: a string of a single 0x01 octet returns as the five characters u0001. */
  lemma ControlCharacterIsMangled()
    ensures Unescape(Escape([1 as char])) == "u0001"
  {
    UnescapeOne(1 as char, "");
    FlatSnoc(EscapeChar, "", 1 as char);
    assert "" + [1 as char] == [1 as char];
    assert Escape([1 as char]) == EscapeChar(1 as char) + "";
    assert Returned(1 as char) == "u0001";
  }

  // ----- what escaped text can look like -----

  predicate NameChar(c: char) {
    'a' <= c <= 'z' || '0' <= c <= '9' || c == '_'
  }

  /** A JSON key of the snapshot: no quotes, blanks or escapes. */
  predicate Name(s: string) {
    s != "" && forall i :: 0 <= i < |s| ==> NameChar(s[i])
  }

  /** Inside escaped text every quote follows a backslash, and no line break occurs. */
  lemma {:induction false} EscapedQuotes(s: string)
    ensures '\n' !in Escape(s)
    ensures forall i :: 0 <= i < |Escape(s)| && Escape(s)[i] == '"' ==> i > 0 && Escape(s)[i - 1] == '\\'
  {
    if s != "" {
      EscapedQuotes(s[1..]);
      var e, t := EscapeChar(s[0]), Escape(s[1..]);
      forall i | 0 <= i < |e + t| && (e + t)[i] == '"'
        ensures i > 0 && (e + t)[i - 1] == '\\'
      {
        if i >= |e| {
          assert t[i - |e|] == '"';
        }
      }
    }
  }

  /** A string that, escaped and quoted, shows the quoted name at its end. */
  predicate Fakes(s: string, name: string) {
    s == name || EndsWith(s, "\"" + name)
  }

  lemma {:induction false} EscapedIsName(s: string)
    requires forall i :: 0 <= i < |Escape(s)| ==> NameChar(Escape(s)[i])
    ensures Escape(s) == s
  {
    if s != "" {
      assert NameChar(Escape(s)[0]);
      assert Escape(s)[1..] == Escape(s[1..]);
      EscapedIsName(s[1..]);
      assert s == [s[0]] + s[1..];
    }
  }

  /** A final name character of escaped text is a character of its own when a quote starts the tail. */
  lemma TailChunk(front: string, e: string, tail: string)
    requires tail != "" && forall i :: 0 <= i < |tail| ==> NameChar(tail[i])
    requires e != "" && (|e| > 1 ==> e[0] == '\\')
    requires forall i :: 0 <= i < |e| && e[i] == '"' ==> i == 1 && |e| == 2
    requires EndsWith(front + e, "\"" + tail)
    ensures e == [tail[|tail| - 1]]
    ensures EndsWith(front, "\"" + tail[..|tail| - 1])
  {
    var full, t := front + e, "\"" + tail;
    var base := |full| - |t|;
    assert forall j :: 0 <= j < |t| ==> full[base + j] == t[j];
    assert forall i :: |front| <= i < |full| ==> full[i] == e[i - |front|];
    assert full[base] == '"' && full[|front|] == e[0];
    assert e[|e| - 1] == full[|full| - 1] == t[|t| - 1];
    assert |front| >= base ==> e[0] == t[|front| - base];
    assert |front| >= base;
    assert |e| == 1;
    assert front == full[..|full| - 1];
    assert front[|front| - |tail|..] == t[..|tail|] == "\"" + tail[..|tail| - 1];
  }

  lemma TailQuote(s: string)
    requires EndsWith(Escape(s), "\"")
    ensures EndsWith(s, "\"")
  {
    var n := |s| - 1;
    assert s != "";
    var e := EscapeChar(s[n]);
    FlatLast(EscapeChar, s);
    assert Escape(s)[|Escape(s)| - 1] == e[|e| - 1] == '"';
    assert s[n..] == "\"";
  }

  lemma ChunkShape(c: char)
    ensures var e := EscapeChar(c);
            && e != "" && (|e| > 1 ==> e[0] == '\\') && (|e| == 1 ==> e == [c])
            && forall i :: 0 <= i < |e| && e[i] == '"' ==> i == 1 && |e| == 2
  {
  }

  /** The last character of such a tail stands in the text as it is. */
  lemma LastOfTail(s: string, tail: string)
    requires tail != "" && forall i :: 0 <= i < |tail| ==> NameChar(tail[i])
    requires EndsWith(Escape(s), "\"" + tail)
    ensures s != "" && s[|s| - 1] == tail[|tail| - 1]
    ensures EndsWith(Escape(s[..|s| - 1]), "\"" + tail[..|tail| - 1])
  {
    assert s != "";
    var init, last := s[..|s| - 1], s[|s| - 1];
    FlatLast(EscapeChar, s);
    ChunkShape(last);
    TailChunk(Escape(init), EscapeChar(last), tail);
  }

  lemma EndsWithSnoc(s: string, t: string, c: char)
    requires EndsWith(s, t)
    ensures EndsWith(s + [c], t + [c])
  {
    assert (s + [c])[|s| - |t|..] == s[|s| - |t|..] + [c];
  }

  /** Text ending in a quote and then name characters was already so before escaping. */
  lemma {:induction false} EscapedTail(s: string, tail: string)
    requires forall i :: 0 <= i < |tail| ==> NameChar(tail[i])
    requires EndsWith(Escape(s), "\"" + tail)
    ensures EndsWith(s, "\"" + tail)
    decreases |tail|
  {
    if tail == "" {
      assert "\"" + tail == "\"";
      TailQuote(s);
    } else {
      LastOfTail(s, tail);
      var init, shorter, last := s[..|s| - 1], tail[..|tail| - 1], s[|s| - 1];
      EscapedTail(init, shorter);
      EndsWithSnoc(init, "\"" + shorter, last);
      assert "\"" + tail == "\"" + shorter + [last] && s == init + [last];
    }
  }
}
