/** The substring searches and string-aware bracket matchers that read a snapshot back. */
module JsonScan {
  import opened Bytes
  import opened Texts
  import opened JsonText

  // ----- inside or outside a string literal -----

  datatype Quote = Outside | Inside | Escaping

  function After(q: Quote, ch: char): Quote {
    match q
    case Escaping => Inside
    case Inside => if ch == '\\' then Escaping else if ch == '"' then Outside else Inside
    case Outside => if ch == '"' then Inside else Outside
  }

  function AfterAll(q: Quote, text: string): Quote
    decreases |text|
  {
    if text == "" then q else AfterAll(After(q, text[0]), text[1..])
  }

  /** No character of `loud` stands outside the string literals of the text. */
  predicate Quiet(q: Quote, text: string, loud: set<char>)
    decreases |text|
  {
    text == "" || (!(q.Outside? && text[0] in loud) && Quiet(After(q, text[0]), text[1..], loud))
  }

  lemma {:induction false} ScanConcat(q: Quote, a: string, b: string, loud: set<char>)
    ensures AfterAll(q, a + b) == AfterAll(AfterAll(q, a), b)
    ensures Quiet(q, a + b, loud) <==> Quiet(q, a, loud) && Quiet(AfterAll(q, a), b, loud)
    decreases |a|
  {
    if a == "" {
      assert a + b == b;
    } else {
      assert (a + b)[1..] == a[1..] + b;
      ScanConcat(After(q, a[0]), a[1..], b, loud);
    }
  }

  // ----- the array finder -----

  /** Where the bracket that closes the array opened at depth zero stands. */
  function Closing(text: string, pos: nat, q: Quote, depth: int): Option<nat>
    requires pos <= |text|
    decreases |text| - pos
  {
    if pos == |text| then None
    else if !q.Outside? || text[pos] == '"' then Closing(text, pos + 1, After(q, text[pos]), depth)
    else if text[pos] == '[' then Closing(text, pos + 1, q, depth + 1)
    else if text[pos] == ']' then
      if depth == 1 then Some(pos) else Closing(text, pos + 1, q, depth - 1)
    else Closing(text, pos + 1, q, depth)
  }

  function Quoted(key: string): string {
    "\"" + key + "\""
  }

  /** The interior of the first array after the first occurrence of the quoted key. */
  function ArrayBounds(json: string, key: string): Option<(nat, nat)> {
    match Find(json, Quoted(key))
    case None => None
    case Some(k) =>
      match FindFrom(json, "[", k + |Quoted(key)|)
      case None => None
      case Some(b) =>
        match Closing(json, b, Outside, 0)
        case None => None
        case Some(e) => Some((b + 1, e))
  }

  lemma {:induction false} ClosingFound(text: string, pos: nat, q: Quote, depth: int)
    requires pos <= |text|
    ensures Closing(text, pos, q, depth).Some? ==> pos <= Closing(text, pos, q, depth).value < |text|
    decreases |text| - pos
  {
    if pos < |text| {
      ClosingFound(text, pos + 1, After(q, text[pos]), depth);
      ClosingFound(text, pos + 1, q, depth - 1);
      ClosingFound(text, pos + 1, q, depth + 1);
    }
  }

  method FindJsonArrayBounds(json: string, key: string) returns (found: bool, arrayStart: nat, arrayEnd: nat)
    ensures found == ArrayBounds(json, key).Some?
    ensures found ==> ArrayBounds(json, key) == Some((arrayStart, arrayEnd))
  {
    arrayStart, arrayEnd := 0, 0;
    var token := "\"" + key + "\"";
    var keyPos := Find(json, token);
    if keyPos.None? {
      return false, 0, 0;
    }
    var bracketPos := FindFrom(json, "[", keyPos.value + |token|);
    if bracketPos.None? {
      return false, 0, 0;
    }
    var quote, depth, pos := Outside, 0, bracketPos.value;
    while pos < |json|
      invariant pos <= |json|
      invariant Closing(json, bracketPos.value, Outside, 0) == Closing(json, pos, quote, depth)
    {
      var ch := json[pos];
      if quote != Outside {
        if quote == Escaping {
          quote := Inside;
        } else if ch == '\\' {
          quote := Escaping;
        } else if ch == '"' {
          quote := Outside;
        }
      } else if ch == '"' {
        quote := Inside;
      } else if ch == '[' {
        depth := depth + 1;
      } else if ch == ']' {
        depth := depth - 1;
        if depth == 0 {
          return true, bracketPos.value + 1, pos;
        }
      }
      pos := pos + 1;
    }
    found := false;
  }

  lemma {:induction false} ClosingSkips(text: string, p: nat, r: nat, q: Quote, depth: int)
    requires p <= r <= |text|
    requires Quiet(q, text[p..r], {'[', ']'})
    ensures Closing(text, p, q, depth) == Closing(text, r, AfterAll(q, text[p..r]), depth)
    decreases r - p
  {
    if p < r {
      assert text[p..r][1..] == text[p + 1..r];
      ClosingSkips(text, p + 1, r, After(q, text[p]), depth);
    }
  }

  // ----- the obj splitter -----

  /** The outermost brace-delimited pieces; `start` is where the piece being read began. */
  function Objects(body: string, pos: nat, q: Quote, depth: int, start: Option<nat>): seq<string>
    requires pos <= |body| && (start.Some? ==> start.value <= pos)
    decreases |body| - pos
  {
    if pos == |body| then []
    else if !q.Outside? || body[pos] == '"' then Objects(body, pos + 1, After(q, body[pos]), depth, start)
    else if body[pos] == '{' then Objects(body, pos + 1, q, depth + 1, if depth == 0 then Some(pos) else start)
    else if body[pos] == '}' then
      if depth == 1 && start.Some? then
        [body[start.value..pos + 1]] + Objects(body, pos + 1, q, 0, None)
      else Objects(body, pos + 1, q, depth - 1, start)
    else Objects(body, pos + 1, q, depth, start)
  }

  method SplitTopLevelJsonObjects(body: string) returns (objects: seq<string>)
    ensures objects == Objects(body, 0, Outside, 0, None)
  {
    objects := [];
    var quote, depth, pos := Outside, 0, 0;
    var objectStart: Option<nat> := None;
    while pos < |body|
      invariant pos <= |body|
      invariant objectStart.Some? ==> objectStart.value <= pos
      invariant objects + Objects(body, pos, quote, depth, objectStart) == Objects(body, 0, Outside, 0, None)
    {
      var ch := body[pos];
      if quote != Outside {
        if quote == Escaping {
          quote := Inside;
        } else if ch == '\\' {
          quote := Escaping;
        } else if ch == '"' {
          quote := Outside;
        }
      } else if ch == '"' {
        quote := Inside;
      } else if ch == '{' {
        if depth == 0 {
          objectStart := Some(pos);
        }
        depth := depth + 1;
      } else if ch == '}' {
        depth := depth - 1;
        if depth == 0 && objectStart.Some? {
          objects := objects + [body[objectStart.value..pos + 1]];
          objectStart := None;
        }
      }
      pos := pos + 1;
    }
  }

  lemma {:induction false} ObjectsSkip(body: string, p: nat, r: nat, q: Quote, depth: int, start: Option<nat>)
    requires p <= r <= |body| && (start.Some? ==> start.value <= p)
    requires Quiet(q, body[p..r], {'{', '}'})
    ensures Objects(body, p, q, depth, start) == Objects(body, r, AfterAll(q, body[p..r]), depth, start)
    decreases r - p
  {
    if p < r {
      assert body[p..r][1..] == body[p + 1..r];
      ObjectsSkip(body, p + 1, r, After(q, body[p]), depth, start);
    }
  }

  // ----- the field finder -----

  /** `isspace` in the C locale. */
  predicate Space(c: char) {
    c == ' ' || 9 <= c as int <= 13
  }

  function SpaceEnd(obj: string, pos: nat): (r: nat)
    requires pos <= |obj|
    ensures pos <= r <= |obj|
    decreases |obj| - pos
  {
    if pos < |obj| && Space(obj[pos]) then SpaceEnd(obj, pos + 1) else pos
  }

  /** The quote that ends the string literal being read. */
  function LiteralEnd(obj: string, pos: nat, escaping: bool): (r: Option<nat>)
    requires pos <= |obj|
    ensures r.Some? ==> pos <= r.value < |obj|
    decreases |obj| - pos
  {
    if pos == |obj| then None
    else if escaping then LiteralEnd(obj, pos + 1, false)
    else if obj[pos] == '\\' then LiteralEnd(obj, pos + 1, true)
    else if obj[pos] == '"' then Some(pos)
    else LiteralEnd(obj, pos + 1, false)
  }

  predicate EndsScalar(c: char) {
    c == ',' || c == '\n' || c == '\r' || c == '}'
  }

  function ScalarEnd(obj: string, pos: nat): (r: nat)
    requires pos <= |obj|
    ensures pos <= r <= |obj|
    decreases |obj| - pos
  {
    if pos < |obj| && !EndsScalar(obj[pos]) then ScalarEnd(obj, pos + 1) else pos
  }

  function FieldToken(key: string): string {
    "\"" + key + "\":"
  }

  /** The raw value that starts, after blanks, at a position: the inside of a literal, or a scalar. */
  function ValueAt(obj: string, pos: nat): Option<string>
    requires pos <= |obj|
  {
    var v := SpaceEnd(obj, pos);
    if v == |obj| then None
    else if obj[v] == '"' then
      match LiteralEnd(obj, v + 1, false)
      case None => None
      case Some(e) => Some(obj[v + 1..e])
    else
      var e := ScalarEnd(obj, v);
      if e > v then Some(obj[v..e]) else None
  }

  /** The raw value after the first occurrence of the quoted key and its colon. */
  function RawValue(obj: string, key: string): Option<string> {
    match Find(obj, FieldToken(key))
    case None => None
    case Some(k) => ValueAt(obj, k + |FieldToken(key)|)
  }

  method FindJsonFieldValue(obj: string, key: string) returns (found: bool, valueStart: nat, valueEnd: nat)
    ensures found == RawValue(obj, key).Some?
    ensures found ==> valueStart <= valueEnd <= |obj| && RawValue(obj, key) == Some(obj[valueStart..valueEnd])
  {
    valueStart, valueEnd := 0, 0;
    var token := "\"" + key + "\":";
    var keyPos := Find(obj, token);
    if keyPos.None? {
      return false, 0, 0;
    }
    valueStart := keyPos.value + |token|;
    ghost var afterToken := valueStart;
    while valueStart < |obj| && Space(obj[valueStart])
      invariant afterToken <= valueStart <= |obj|
      invariant SpaceEnd(obj, afterToken) == SpaceEnd(obj, valueStart)
    {
      valueStart := valueStart + 1;
    }
    if valueStart >= |obj| {
      return false, 0, 0;
    }
    if obj[valueStart] == '"' {
      valueStart := valueStart + 1;
      valueEnd := valueStart;
      var escaping := false;
      while valueEnd < |obj|
        invariant valueStart <= valueEnd <= |obj|
        invariant LiteralEnd(obj, valueStart, false) == LiteralEnd(obj, valueEnd, escaping)
      {
        var ch := obj[valueEnd];
        if escaping {
          escaping := false;
        } else if ch == '\\' {
          escaping := true;
        } else if ch == '"' {
          return true, valueStart, valueEnd;
        }
        valueEnd := valueEnd + 1;
      }
      return false, 0, 0;
    }
    valueEnd := valueStart;
    while valueEnd < |obj| && !EndsScalar(obj[valueEnd])
      invariant valueStart <= valueEnd <= |obj|
      invariant ScalarEnd(obj, valueStart) == ScalarEnd(obj, valueEnd)
    {
      valueEnd := valueEnd + 1;
    }
    found := valueEnd > valueStart;
  }

  // ----- typed fields -----

  function StringField(obj: string, key: string): Option<string> {
    match RawValue(obj, key)
    case None => None
    case Some(raw) => Some(Unescape(raw))
  }

  function BoolField(obj: string, key: string): Option<bool> {
    match RawValue(obj, key)
    case None => None
    case Some(raw) =>
      if Trim(raw) == "true" then Some(true) else if Trim(raw) == "false" then Some(false) else None
  }

  function DigitRun(s: string): (d: string)
    ensures AllDigits(d) && d <= s
  {
    if s != "" && IsDigit(s[0]) then [s[0]] + DigitRun(s[1..]) else ""
  }

  /** `std::stoull`: blanks, an optional sign, the longest run of digits; out of range throws. */
  function Stoull(token: string): Option<nat> {
    var v := SpaceEnd(token, 0);
    var signed := v < |token| && (token[v] == '+' || token[v] == '-');
    var digits := DigitRun(token[if signed then v + 1 else v..]);
    if digits == "" || NumberOf(digits) >= 0x1_0000_0000_0000_0000 then None
    else if signed && token[v] == '-' then Some((0x1_0000_0000_0000_0000 - NumberOf(digits)) % 0x1_0000_0000_0000_0000)
    else Some(NumberOf(digits))
  }

  function UintField(obj: string, key: string): Option<nat> {
    match RawValue(obj, key)
    case None => None
    case Some(raw) => if Trim(raw) == "" then None else Stoull(Trim(raw))
  }

  method ExtractJsonStringField(obj: string, key: string) returns (r: Option<string>)
    ensures r == StringField(obj, key)
  {
    var found, valueStart, valueEnd := FindJsonFieldValue(obj, key);
    if !found {
      return None;
    }
    var value := UnescapeJsonString(obj[valueStart..valueEnd]);
    r := Some(value);
  }

  method ExtractJsonBoolField(obj: string, key: string) returns (r: Option<bool>)
    ensures r == BoolField(obj, key)
  {
    var found, valueStart, valueEnd := FindJsonFieldValue(obj, key);
    if !found {
      return None;
    }
    var token := Trim(obj[valueStart..valueEnd]);
    if token == "true" {
      return Some(true);
    }
    if token == "false" {
      return Some(false);
    }
    r := None;
  }

  method ExtractJsonUintField(obj: string, key: string) returns (r: Option<nat>)
    ensures r == UintField(obj, key)
  {
    var found, valueStart, valueEnd := FindJsonFieldValue(obj, key);
    if !found {
      return None;
    }
    var token := Trim(obj[valueStart..valueEnd]);
    if token == "" {
      return None;
    }
    r := Stoull(token);
  }
}
