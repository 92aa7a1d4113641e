/** What the scanners find in printed objects and arrays. */
module JsonObjects {
  import opened Bytes
  import opened Texts
  import opened JsonText
  import opened JsonScan
  import opened JsonLines

  // ----- the inside of a string literal -----

  /** The scan never leaves the literal. */
  predicate StaysInside(q: Quote, text: string)
    decreases |text|
  {
    text == "" || (!After(q, text[0]).Outside? && StaysInside(After(q, text[0]), text[1..]))
  }

  lemma {:induction false} StaysInsideConcat(q: Quote, a: string, b: string)
    ensures StaysInside(q, a + b) <==> StaysInside(q, a) && StaysInside(AfterAll(q, a), b)
    decreases |a|
  {
    if a == "" {
      assert a + b == b;
    } else {
      assert (a + b)[1..] == a[1..] + b;
      StaysInsideConcat(After(q, a[0]), a[1..], b);
    }
  }

  lemma {:induction false} PlainStaysInside(text: string)
    requires '"' !in text && '\\' !in text
    ensures StaysInside(Inside, text) && AfterAll(Inside, text) == Inside
  {
    if text != "" {
      PlainStaysInside(text[1..]);
    }
  }

  lemma EscapeCharStaysInside(c: char)
    ensures StaysInside(Inside, EscapeChar(c)) && AfterAll(Inside, EscapeChar(c)) == Inside
  {
    var e := EscapeChar(c);
    if |e| == 1 {
      PlainStaysInside(e);
    } else {
      var pair, digits := ['\\', e[1]], e[2..];
      assert e == pair + digits;
      PlainStaysInside(digits);
      StaysInsideConcat(Inside, pair, digits);
      ScanConcat(Inside, pair, digits, {});
    }
  }

  lemma {:induction false} EscapeStaysInside(s: string)
    ensures StaysInside(Inside, Escape(s)) && AfterAll(Inside, Escape(s)) == Inside
  {
    if s != "" {
      EscapeCharStaysInside(s[0]);
      EscapeStaysInside(s[1..]);
      StaysInsideConcat(Inside, EscapeChar(s[0]), Escape(s[1..]));
      ScanConcat(Inside, EscapeChar(s[0]), Escape(s[1..]), {});
    }
  }

  lemma {:induction false} InsideIsQuiet(q: Quote, text: string, loud: set<char>)
    requires !q.Outside? && StaysInside(q, text)
    ensures Quiet(q, text, loud)
    decreases |text|
  {
    if text != "" {
      InsideIsQuiet(After(q, text[0]), text[1..], loud);
    }
  }

  lemma {:induction false} LiteralSkips(text: string, p: nat, r: nat, q: Quote)
    requires p <= r <= |text| && !q.Outside?
    requires StaysInside(q, text[p..r]) && AfterAll(q, text[p..r]) == Inside
    ensures LiteralEnd(text, p, q.Escaping?) == LiteralEnd(text, r, false)
    decreases r - p
  {
    if p < r {
      assert text[p..r][1..] == text[p + 1..r];
      LiteralSkips(text, p + 1, r, After(q, text[p]));
    }
  }

  lemma {:induction false} ScalarSkips(text: string, p: nat, r: nat)
    requires p <= r <= |text|
    requires forall i :: p <= i < r ==> !EndsScalar(text[i])
    ensures ScalarEnd(text, p) == ScalarEnd(text, r)
    decreases r - p
  {
    if p < r {
      ScalarSkips(text, p + 1, r);
    }
  }

  // ----- one printed value -----

  /** What the field finder cuts out of a printed value. */
  function RawText(v: Value): string {
    if v.Text? then Escape(v.text) else ValueText(v)
  }

  lemma ReadsText(text: string, front: string, e: string, t: string, tail: string)
    requires text == front + (" " + t + tail)
    requires StaysInside(Inside, e) && AfterAll(Inside, e) == Inside
    requires t == "\"" + e + "\""
    ensures ValueAt(text, |front|) == Some(e)
  {
    var from := |front| + 2;
    assert text == front + " \"" + e + ("\"" + tail);
    assert text[|front|] == ' ' && text[|front| + 1] == '"';
    assert SpaceEnd(text, |front|) == SpaceEnd(text, |front| + 1) == |front| + 1;
    assert text[from..from + |e|] == e && text[from + |e|] == '"';
    LiteralSkips(text, from, from + |e|, Inside);
    assert LiteralEnd(text, from, false) == LiteralEnd(text, from + |e|, false) == Some(from + |e|);
  }

  lemma ReadsScalar(text: string, front: string, t: string, tail: string)
    requires text == front + (" " + t + tail)
    requires t != "" && !Space(t[0]) && t[0] != '"'
    requires forall i :: 0 <= i < |t| ==> !EndsScalar(t[i])
    requires tail != "" && EndsScalar(tail[0])
    ensures ValueAt(text, |front|) == Some(t)
  {
    var from := |front| + 1;
    assert text == front + " " + t + tail;
    assert text[|front|] == ' ' && text[from..from + |t|] == t && text[from + |t|] == tail[0];
    assert SpaceEnd(text, |front|) == SpaceEnd(text, from) == from;
    assert forall i :: from <= i < from + |t| ==> text[i] == t[i - from];
    ScalarSkips(text, from, from + |t|);
  }

  lemma ReadsValue(text: string, front: string, v: Value, tail: string)
    requires text == front + (" " + ValueText(v) + tail)
    requires !v.Open?
    requires tail != "" && EndsScalar(tail[0])
    ensures ValueAt(text, |front|) == Some(RawText(v))
  {
    if v.Text? {
      EscapeStaysInside(v.text);
      ReadsText(text, front, Escape(v.text), ValueText(v), tail);
    } else {
      ReadsScalar(text, front, ValueText(v), tail);
    }
  }

  lemma OccursStart(text: string, token: string, p: nat)
    requires OccursAt(text, token, p) && token != ""
    ensures text[p] == token[0]
  {
    assert text[p..p + |token|][0] == text[p];
  }

  /** A token that starts with a quote shows first right after the blanks before it. */
  lemma TokenAfterBlanks(blanks: string, token: string, after: string)
    requires forall i :: 0 <= i < |blanks| ==> blanks[i] == ' '
    requires token != "" && token[0] == '"'
    ensures OccursAt(blanks + token + after, token, |blanks|)
    ensures forall p :: 0 <= p < |blanks| ==> !OccursAt(blanks + token + after, token, p)
  {
    var b := blanks + token + after;
    assert b[|blanks|..|blanks| + |token|] == token;
    forall p | 0 <= p < |blanks|
      ensures !OccursAt(b, token, p)
    {
      assert b[p] == ' ';
      if OccursAt(b, token, p) {
        OccursStart(b, token, p);
        assert false;
      }
    }
  }

  function CommaText(comma: bool): string {
    if comma then "," else ""
  }

  lemma BodySplit(l: Line)
    requires l.Field?
    ensures Body(l) == l.indent + FieldToken(l.name) + (" " + ValueText(l.value) + CommaText(l.comma))
  {
    var v, c := ValueText(l.value), CommaText(l.comma);
    assert Body(l) == l.indent + ("\"" + l.name + "\"") + ": " + v + c;
    assert ("\"" + l.name + "\"") + ": " == FieldToken(l.name) + " ";
  }

  predicate ShowsFirst(text: string, token: string, p: nat) {
    OccursAt(text, token, p) && forall q :: 0 <= q < p ==> !OccursAt(text, token, q)
  }

  /** A field line shows its own name first at its start, with and without the colon. */
  lemma ShowsOwnField(l: Line)
    requires WellFormed(l) && l.Field?
    ensures '\n' !in FieldToken(l.name) && ShowsFirst(Body(l), FieldToken(l.name), NameStart(l))
  {
    BodySplit(l);
    TokenAfterBlanks(l.indent, FieldToken(l.name), " " + ValueText(l.value) + CommaText(l.comma));
  }

  lemma ShowsOwnName(l: Line)
    requires WellFormed(l) && l.Field?
    ensures '\n' !in Quoted(l.name) && ShowsFirst(Body(l), Quoted(l.name), NameStart(l))
  {
    BodySplit(l);
    NameBeforeColon(l.indent, l.name, " " + ValueText(l.value) + CommaText(l.comma));
  }

  lemma NameBeforeColon(blanks: string, name: string, after: string)
    requires forall i :: 0 <= i < |blanks| ==> blanks[i] == ' '
    ensures ShowsFirst(blanks + FieldToken(name) + after, Quoted(name), |blanks|)
  {
    assert FieldToken(name) == Quoted(name) + ":";
    assert blanks + FieldToken(name) + after == blanks + Quoted(name) + (":" + after);
    TokenAfterBlanks(blanks, Quoted(name), ":" + after);
  }

  lemma Regroup(text: string, front: string, body: string, start: string, value: string, comma: string, rest: string)
    requires text == front + (body + "\n" + rest)
    requires body == start + (value + comma)
    ensures text == (front + start) + (value + (comma + ("\n" + rest)))
  {
  }

  /** The field finder returns the value printed on the first line that shows the field. */
  lemma ReadsField(before: seq<Line>, l: Line, rest: string)
    requires WellFormed(l) && l.Field? && !l.value.Open?
    requires Hidden(before, FieldToken(l.name))
    ensures RawValue(Lines(before) + (Body(l) + "\n" + rest), l.name) == Some(RawText(l.value))
  {
    var obj := Lines(before) + (Body(l) + "\n" + rest);
    var pos := |Lines(before)| + NameStart(l) + |FieldToken(l.name)|;
    ShowsOwnField(l);
    RawValueOnLine(obj, pos, before, Body(l), rest, l.name, NameStart(l));
    var start := l.indent + FieldToken(l.name);
    assert |Lines(before) + start| == pos;
    BodySplit(l);
    ReadsAfterToken(obj, Lines(before), Body(l), start, l.value, CommaText(l.comma), rest);
  }

  lemma RawValueOnLine(obj: string, pos: nat, before: seq<Line>, body: string, rest: string, key: string, start: nat)
    requires obj == Lines(before) + (body + "\n" + rest)
    requires pos == |Lines(before)| + start + |FieldToken(key)|
    requires '\n' !in FieldToken(key) && Hidden(before, FieldToken(key))
    requires ShowsFirst(body, FieldToken(key), start)
    ensures pos <= |obj| && RawValue(obj, key) == ValueAt(obj, pos)
  {
    FirstShown(before, body, rest, FieldToken(key), start);
  }

  lemma ReadsAfterToken(obj: string, front: string, body: string, start: string, v: Value, comma: string, rest: string)
    requires !v.Open? && (comma == "" || comma == ",")
    requires obj == front + (body + "\n" + rest)
    requires body == start + (" " + ValueText(v) + comma)
    ensures |front + start| <= |obj| && ValueAt(obj, |front + start|) == Some(RawText(v))
  {
    var value, tail := " " + ValueText(v), comma + ("\n" + rest);
    Regroup(obj, front, body, start, value, comma, rest);
    ReadsValue(obj, front + start, v, tail);
  }

  // ----- typed values -----

  lemma {:induction false} DigitRunOf(s: string)
    requires AllDigits(s)
    ensures DigitRun(s) == s
  {
    if s != "" {
      DigitRunOf(s[1..]);
      assert s == [s[0]] + s[1..];
    }
  }

  lemma StoullOfDigits(d: string)
    requires DigitsOnly(d) && NumberOf(d) < 0x1_0000_0000_0000_0000
    ensures Stoull(d) == Some(NumberOf(d))
  {
    assert IsDigit(d[0]);
    DigitRunOf(d);
    assert d[0..] == d;
  }

  lemma StoullDecimal(n: nat)
    requires n < 0x1_0000_0000_0000_0000
    ensures Trim(Decimal(n)) == Decimal(n) && Stoull(Decimal(n)) == Some(n)
  {
    var d := Decimal(n);
    assert IsDigit(d[0]) && IsDigit(d[|d| - 1]);
    TrimIsTrimmed(d);
    StoullOfDigits(d);
  }

  lemma TrimFlags()
    ensures Trim("true") == "true" && Trim("false") == "false"
  {
    TrimIsTrimmed("true");
    TrimIsTrimmed("false");
  }

  // ----- objects -----

  function ObjectText(fs: seq<Line>): string {
    "{\n" + Lines(fs) + "    }"
  }

  /** The printed fields of one object. */
  predicate Record(fs: seq<Line>) {
    && AllWellFormed(fs)
    && (forall i :: 0 <= i < |fs| ==> fs[i].Field? && !fs[i].value.Open?)
    && (forall i, j :: 0 <= i < j < |fs| ==> fs[i].name != fs[j].name)
  }

  /** The text of an object, seen from one of its fields. */
  lemma ObjectAround(fs: seq<Line>, i: nat)
    requires i < |fs|
    ensures ObjectText(fs)
         == Lines([Plain("{")] + fs[..i]) + (Body(fs[i]) + "\n" + (Lines(fs[i + 1..]) + "    }"))
  {
    var brace: seq<Line> := [Plain("{")];
    var a, b, c := fs[..i], fs[i], fs[i + 1..];
    assert fs == a + ([b] + c);
    FlatConcat(Row, brace, a);
    FlatConcat(Row, a, [b] + c);
    assert ([b] + c)[1..] == c && brace[1..] == [];
    assert Lines(brace) == Row(brace[0]) + "" == "{\n";
    var x, y, z := Lines(a), Row(b), Lines(c);
    assert Lines(fs) == x + (y + z);
    assert "{\n" + (x + (y + z)) + "    }" == ("{\n" + x) + (y + (z + "    }"));
  }

  lemma ReadsRecord(fs: seq<Line>, i: nat)
    requires Record(fs) && i < |fs|
    ensures RawValue(ObjectText(fs), fs[i].name) == Some(RawText(fs[i].value))
  {
    var before, l := [Plain("{")] + fs[..i], fs[i];
    forall k, q | 0 <= k < |before| && 0 <= q <= |Body(before[k])|
      ensures !OccursAt(Body(before[k]), FieldToken(l.name), q)
    {
      if OccursAt(Body(before[k]), FieldToken(l.name), q) {
        assert k > 0 ==> before[k] == fs[k - 1];
        FieldTokenInLine(before[k], l.name, q);
        assert false;
      }
    }
    ReadsField(before, l, Lines(fs[i + 1..]) + "    }");
    ObjectAround(fs, i);
  }

  /** Every field of a printed object reads back as what was printed, texts through the escaper and back. */
  lemma RecordRoundTrip(fs: seq<Line>, i: nat)
    requires Record(fs) && i < |fs|
    ensures match fs[i].value
            case Text(s) => StringField(ObjectText(fs), fs[i].name) == Some(Unescape(Escape(s)))
            case Flag(b) => BoolField(ObjectText(fs), fs[i].name) == Some(b)
            case Number(n) => n < 0x1_0000_0000_0000_0000 ==> UintField(ObjectText(fs), fs[i].name) == Some(n)
            case Open(_) => true
  {
    ReadsRecord(fs, i);
    match fs[i].value {
      case Text(_) =>
      case Flag(_) => TrimFlags();
      case Number(n) =>
        if n < 0x1_0000_0000_0000_0000 {
          StoullDecimal(n);
        }
      case Open(_) =>
    }
  }

  lemma ObjectLines(fs: seq<Line>)
    ensures ObjectText(fs) == Lines([Plain("{")] + fs) + "    }"
  {
    var brace: seq<Line> := [Plain("{")];
    FlatConcat(Row, brace, fs);
    assert brace[1..] == [];
    assert Lines(brace) == Row(brace[0]) + "" == "{\n";
  }

  /** A name that no field bears is not found. */
  lemma AbsentField(fs: seq<Line>, key: string)
    requires Record(fs) && Name(key) && forall i :: 0 <= i < |fs| ==> fs[i].name != key
    ensures RawValue(ObjectText(fs), key) == None
  {
    var ls, token := [Plain("{")] + fs, FieldToken(key);
    assert token[0] == '"';
    NoLineShows(fs, key);
    ObjectLines(fs);
    forall q | 0 <= q <= |ObjectText(fs)|
      ensures !OccursAt(ObjectText(fs), token, q)
    {
      if q < |Lines(ls)| {
        HiddenMeansAbsent(ls, "    }", token, q);
      } else {
        OccursShift(Lines(ls), "    }", token, q);
      }
    }
    NeverFound(ObjectText(fs), token, 0);
  }

  lemma NoLineShows(fs: seq<Line>, key: string)
    requires Record(fs) && Name(key) && forall i :: 0 <= i < |fs| ==> fs[i].name != key
    ensures Hidden([Plain("{")] + fs, FieldToken(key)) && '\n' !in FieldToken(key) && FieldToken(key) != ""
  {
    var ls := [Plain("{")] + fs;
    forall k, q | 0 <= k < |ls| && 0 <= q <= |Body(ls[k])|
      ensures !OccursAt(Body(ls[k]), FieldToken(key), q)
    {
      if OccursAt(Body(ls[k]), FieldToken(key), q) {
        assert k > 0 ==> ls[k] == fs[k - 1];
        FieldTokenInLine(ls[k], key, q);
        assert false;
      }
    }
  }
}
