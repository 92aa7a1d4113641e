/** Configuration files line by line: what is written, what is read, and which settings survive. */
module ConfigText {
  import opened Bytes
  import opened Texts

  type Config = map<string, string>

  // ----- one line -----

  const SEPARATOR := " = "

  function LineOf(key: string, value: string): string {
    key + SEPARATOR + value
  }

  /** Blank lines, comments, lines without an equals sign and lines without a key are skipped. */
  function ParseLine(line: string): Option<(string, string)> {
    var t := Trim(line);
    if t == "" || t[0] == '#' then None
    else
      match Find(t, "=")
      case None => None
      case Some(eq) =>
        var key := Trim(t[..eq]);
        if key == "" then None else Some((key, Trim(t[eq + 1..])))
  }

  /** A key and a value that keep their shape when written as a line. */
  predicate Storable(key: string, value: string) {
    && key != "" && Trimmed(key) && key[0] != '#' && '=' !in key && '\n' !in key
    && Trimmed(value) && '\n' !in value
  }

  lemma {:induction false} TrimLeftIsSuffix(s: string) returns (n: nat)
    ensures n <= |s| && TrimLeft(s) == s[n..]
  {
    if s != "" && Blank(s[0]) {
      var m := TrimLeftIsSuffix(s[1..]);
      n := m + 1;
      assert s[1..][m..] == s[n..];
    } else {
      n := 0;
    }
  }

  lemma {:induction false} TrimRightIsPrefix(s: string)
    ensures TrimRight(s) <= s
  {
    if s != "" && Blank(s[|s| - 1]) {
      TrimRightIsPrefix(s[..|s| - 1]);
    }
  }

  /** Trimming cuts a piece out of the text. */
  lemma TrimIsPiece(s: string)
    ensures forall c | c in Trim(s) :: c in s
    ensures Trimmed(Trim(s))
    ensures Trim(s) != "" && s != "" && !Blank(s[0]) ==> Trim(s)[0] == s[0]
  {
    var n := TrimLeftIsSuffix(s);
    TrimRightIsPrefix(TrimLeft(s));
    TrimIsTrimmed(s);
    assert forall c | c in s[n..] :: c in s;
    assert forall c | c in TrimRight(s[n..]) :: c in s[n..];
  }

  /** Whatever a line parses to could be stored again. */
  lemma ParsedIsStorable(line: string)
    requires '\n' !in line
    ensures ParseLine(line).Some? ==> Storable(ParseLine(line).value.0, ParseLine(line).value.1)
  {
    var t := Trim(line);
    TrimIsPiece(line);
    if t != "" && t[0] != '#' && Find(t, "=").Some? {
      FirstChar(t, "=", 0);
      var eq := Find(t, "=").value;
      TrimIsPiece(t[..eq]);
      TrimIsPiece(t[eq + 1..]);
    }
  }

  lemma {:induction false} TrimRightStops(s: string, blanks: string)
    requires s == "" || !Blank(s[|s| - 1])
    requires forall i :: 0 <= i < |blanks| ==> Blank(blanks[i])
    ensures TrimRight(s + blanks) == s
    decreases |blanks|
  {
    if blanks == "" {
      assert s + blanks == s;
    } else {
      var n := |blanks| - 1;
      assert (s + blanks)[..|s| + n] == s + blanks[..n];
      TrimRightStops(s, blanks[..n]);
    }
  }

  /** What trimming leaves of a written line: the blank after the equals sign goes with an empty value. */
  lemma TrimmedLine(key: string, value: string)
    requires key != "" && Trimmed(key) && Trimmed(value)
    ensures Trim(LineOf(key, value)) == if value == "" then key + " =" else LineOf(key, value)
  {
    var line := LineOf(key, value);
    assert line[0] == key[0];
    if value == "" {
      assert line == (key + " =") + " ";
      TrimRightStops(key + " =", " ");
    } else {
      assert line[|line| - 1] == value[|value| - 1];
    }
  }

  lemma EqualsAfterKey(t: string, key: string, rest: string)
    requires t == key + " =" + rest && '=' !in key
    ensures Find(t, "=") == Some(|key| + 1) && t[..|key| + 1] == key + " " && t[|key| + 2..] == rest
  {
    FirstChar(t, "=", 0);
    assert t[|key| + 1] == '=';
    assert forall i :: 0 <= i < |key| ==> t[i] == key[i];
    assert t[|key|] == ' ';
  }

  lemma TrimAround(key: string, value: string)
    requires Trimmed(key) && key != "" && Trimmed(value)
    ensures Trim(key + " ") == key && Trim(" " + value) == value
  {
    assert (key + " ")[0] == key[0];
    TrimRightStops(key, " ");
    assert (" " + value)[1..] == value;
    TrimIsTrimmed(value);
  }

  lemma StorableParses(key: string, value: string)
    requires Storable(key, value)
    ensures ParseLine(LineOf(key, value)) == Some((key, value))
  {
    TrimmedLine(key, value);
    TrimAround(key, value);
    var t := Trim(LineOf(key, value));
    if value == "" {
      assert t == key + " =" + "";
      EqualsAfterKey(t, key, "");
    } else {
      assert t == key + " =" + (" " + value);
      EqualsAfterKey(t, key, " " + value);
    }
  }

  /** A written line without breaks reads back as its key and value exactly when they are storable. */
  lemma LineRoundTrip(key: string, value: string)
    requires '\n' !in key && '\n' !in value
    ensures ParseLine(LineOf(key, value)) == Some((key, value)) <==> Storable(key, value)
  {
    ParsedIsStorable(LineOf(key, value));
    if Storable(key, value) {
      StorableParses(key, value);
    }
  }

  // ----- one file -----

  function Absorb(config: Config, line: string): Config {
    match ParseLine(line)
    case None => config
    case Some((key, value)) => config[key := value]
  }

  /** The lines of the text, one after the other; a last line need not end in a break. */
  function LoadFrom(config: Config, text: string): Config
    decreases |text|
  {
    if text == "" then config
    else
      match Find(text, "\n")
      case None => Absorb(config, text)
      case Some(n) => LoadFrom(Absorb(config, text[..n]), text[n + 1..])
  }

  lemma LoadsLine(config: Config, line: string, rest: string)
    requires '\n' !in line
    ensures LoadFrom(config, line + "\n" + rest) == LoadFrom(Absorb(config, line), rest)
  {
    var text := line + "\n" + rest;
    FirstChar(text, "\n", 0);
    assert text[|line|] == '\n';
    assert forall i :: 0 <= i < |line| ==> text[i] == line[i];
    assert text[..|line|] == line && text[|line| + 1..] == rest;
  }

  predicate AllStorable(config: Config) {
    forall key | key in config :: Storable(key, config[key])
  }

  /** Loading any text keeps every setting storable. */
  lemma {:induction false} LoadedIsStorable(config: Config, text: string)
    requires AllStorable(config)
    ensures AllStorable(LoadFrom(config, text))
    decreases |text|
  {
    if text != "" {
      FirstChar(text, "\n", 0);
      var first := match Find(text, "\n") case None => text case Some(n) => text[..n];
      ParsedIsStorable(first);
      if Find(text, "\n").Some? {
        LoadedIsStorable(Absorb(config, first), text[Find(text, "\n").value + 1..]);
      }
    }
  }

  lemma {:induction false} LoadKeepsKeys(config: Config, text: string)
    ensures config.Keys <= LoadFrom(config, text).Keys
    decreases |text|
  {
    if text != "" {
      match Find(text, "\n") {
        case None =>
        case Some(n) => LoadKeepsKeys(Absorb(config, text[..n]), text[n + 1..]);
      }
    }
  }

  method GetLine(text: string) returns (line: string, rest: string)
    requires text != ""
    ensures forall config :: LoadFrom(config, text) == LoadFrom(Absorb(config, line), rest)
    ensures |rest| < |text|
  {
    FirstChar(text, "\n", 0);
    var n := Find(text, "\n");
    if n.None? {
      return text, "";
    }
    line, rest := text[..n.value], text[n.value + 1..];
  }

  method LoadConfig(before: Config, text: string) returns (config: Config)
    ensures config == LoadFrom(before, text)
  {
    config := before;
    var rest := text;
    while rest != ""
      invariant LoadFrom(before, text) == LoadFrom(config, rest)
      decreases |rest|
    {
      var line, after := GetLine(rest);
      rest := after;
      var setting := ParseSetting(line);
      if setting.Some? {
        config := config[setting.value.0 := setting.value.1];
      }
    }
  }

  method ParseSetting(rawLine: string) returns (setting: Option<(string, string)>)
    ensures setting == ParseLine(rawLine)
  {
    var line := Trim(rawLine);
    if line == "" || line[0] == '#' {
      return None;
    }
    var eqPos := Find(line, "=");
    if eqPos.None? {
      return None;
    }
    FirstChar(line, "=", 0);
    var key, value := Trim(line[..eqPos.value]), Trim(line[eqPos.value + 1..]);
    if key == "" {
      return None;
    }
    setting := Some((key, value));
  }
}
