/**
  The snapshot as lines: fields and plain bracket lines. A key or a bracket is searched for in the
  whole text, so what matters is which lines can show it.
 */
module JsonLines {
  import opened Bytes
  import opened Texts
  import opened JsonText
  import opened JsonScan

  datatype Value = Text(text: string) | Flag(flag: bool) | Number(number: nat) | Open(bracket: char)

  datatype Line = Field(indent: string, name: string, value: Value, comma: bool) | Plain(plain: string)

  function ValueText(v: Value): string {
    match v
    case Text(s) => "\"" + Escape(s) + "\""
    case Flag(b) => if b then "true" else "false"
    case Number(n) => Decimal(n)
    case Open(c) => [c]
  }

  function Body(l: Line): string {
    match l
    case Field(indent, name, value, comma) =>
      indent + ("\"" + name + "\"") + ": " + ValueText(value) + (if comma then "," else "")
    case Plain(s) => s
  }

  function Row(l: Line): string {
    Body(l) + "\n"
  }

  function Lines(ls: seq<Line>): string {
    Flat(Row, ls)
  }

  predicate WellFormed(l: Line) {
    match l
    case Field(indent, name, value, _) =>
      && (forall i :: 0 <= i < |indent| ==> indent[i] == ' ')
      && Name(name)
      && (value.Open? ==> value.bracket == '[' || value.bracket == '{')
    case Plain(s) => '"' !in s && '\n' !in s
  }

  predicate AllWellFormed(ls: seq<Line>) {
    forall i :: 0 <= i < |ls| ==> WellFormed(ls[i])
  }

  // ----- the quotes of one line -----

  function NameStart(l: Line): nat
    requires l.Field?
  {
    |l.indent|
  }

  function NameEnd(l: Line): nat
    requires l.Field?
  {
    |l.indent| + 1 + |l.name|
  }

  function ValueStart(l: Line): nat
    requires l.Field?
  {
    NameEnd(l) + 3
  }

  function ValueEnd(l: Line): nat
    requires l.Field?
  {
    ValueStart(l) + |ValueText(l.value)|
  }

  lemma ValueQuotes(v: Value)
    requires v.Open? ==> v.bracket == '[' || v.bracket == '{'
    ensures '\n' !in ValueText(v)
    ensures v.Text? ==> |ValueText(v)| >= 2
    ensures forall i :: 0 <= i < |ValueText(v)| && ValueText(v)[i] == '"' ==>
              v.Text? && (i == 0 || i == |ValueText(v)| - 1 || ValueText(v)[i - 1] == '\\')
  {
    if v.Text? {
      EscapedQuotes(v.text);
      var t, e := ValueText(v), Escape(v.text);
      forall i | 0 < i < |t| - 1 && t[i] == '"'
        ensures t[i - 1] == '\\'
      {
        assert t[i] == e[i - 1];
        assert t[i - 1] == e[i - 2];
      }
    } else if v.Number? {
      var d := Decimal(v.number);
      assert forall i :: 0 <= i < |d| ==> IsDigit(d[i]);
    }
  }

  /** A quote of a field line opens or closes its name, or opens or closes its text, or is escaped. */
  lemma LineQuotes(l: Line, e: nat)
    requires WellFormed(l) && e < |Body(l)| && Body(l)[e] == '"'
    ensures l.Field?
    ensures || e == NameStart(l) || e == NameEnd(l)
            || (l.value.Text? && (e == ValueStart(l) || e == ValueEnd(l) - 1))
            || (l.value.Text? && ValueStart(l) < e < ValueEnd(l) - 1 && Body(l)[e - 1] == '\\')
  {
    if l.Field? {
      ValueQuotes(l.value);
      assert ValueStart(l) <= e < ValueEnd(l) ==> ValueText(l.value)[e - ValueStart(l)] == '"';
      assert ValueStart(l) < e < ValueEnd(l) ==> Body(l)[e - 1] == ValueText(l.value)[e - 1 - ValueStart(l)];
    }
  }

  // ----- where a quoted key can show -----

  /** A quoted key shows at the name it names, or at the end of a text that fakes it. */
  lemma KeyInLine(l: Line, key: string, q: nat)
    requires WellFormed(l) && Name(key)
    requires OccursAt(Body(l), Quoted(key), q)
    ensures l.Field?
    ensures || (l.name == key && q == NameStart(l))
            || (l.value.Text? && Fakes(l.value.text, key) && q + 1 + |key| == ValueEnd(l) - 1)
  {
    var b := Body(l);
    var e := q + 1 + |key|;
    QuotedAt(b, key, q);
    LineQuotes(l, q);
    LineQuotes(l, e);
    assert NameChar(b[e - 1]);
    assert NameStart(l) < e;
    assert e != ValueStart(l);
    if e == NameEnd(l) {
      assert q == NameStart(l);
      forall i | 0 <= i < |key|
        ensures l.name[i] == key[i]
      {
        assert b[q + 1 + i] == key[i];
      }
    } else {
      FakedAtEnd(l, key, q);
    }
  }

  /** A quoted name, character by character. */
  lemma QuotedAt(b: string, key: string, q: nat)
    requires Name(key) && OccursAt(b, Quoted(key), q)
    ensures b[q] == '"' && b[q + 1 + |key|] == '"'
    ensures forall i :: q < i < q + 1 + |key| ==> b[i] == key[i - q - 1] && NameChar(b[i])
  {
    var token := Quoted(key);
    assert forall j :: 0 <= j < |token| ==> b[q..q + |token|][j] == token[j];
    assert forall j :: 0 <= j < |token| ==> b[q + j] == token[j];
    forall i | q < i < q + 1 + |key|
      ensures b[i] == key[i - q - 1]
    {
      assert b[q + (i - q)] == token[i - q];
    }
    assert b[q + 0] == token[0] && b[q + (1 + |key|)] == token[1 + |key|];
  }

  /** Two readings of the characters before position `n`: a quoted text, and a quoted key. */
  lemma SameEnding(b: string, text: string, v: nat, key: string, q: nat)
    requires v <= q && v + 1 + |text| == q + 1 + |key| <= |b|
    requires forall i :: 0 <= i < |text| ==> b[v + 1 + i] == text[i]
    requires b[q] == '"' && forall i :: q < i < q + 1 + |key| ==> b[i] == key[i - q - 1]
    ensures if q == v then text == key else EndsWith(text, "\"" + key)
  {
    if q == v {
      assert forall i :: 0 <= i < |text| ==> b[v + 1 + i] == key[i];
    } else {
      var t := "\"" + key;
      var base := |text| - |t|;
      forall j | 0 <= j < |t|
        ensures text[base + j] == t[j]
      {
        assert text[base + j] == b[v + 1 + (base + j)] == b[q + j];
      }
      assert text[base..] == t;
    }
  }

  lemma FakedAtEnd(l: Line, key: string, q: nat)
    requires WellFormed(l) && l.Field? && Name(key)
    requires OccursAt(Body(l), Quoted(key), q)
    requires l.value.Text? && q + 1 + |key| == ValueEnd(l) - 1
    ensures Fakes(l.value.text, key)
  {
    QuotedAt(Body(l), key, q);
    var b, s, v := Body(l), l.value.text, ValueStart(l);
    var text := Escape(s);
    assert b[v] == ValueText(l.value)[0] == '"';
    assert !(q < v);
    forall i | 0 <= i < |text|
      ensures b[v + 1 + i] == text[i]
    {
      assert b[v + 1 + i] == ValueText(l.value)[1 + i];
    }
    SameEnding(b, text, v, key, q);
    FakesAfterEscape(s, key, q == v);
  }

  lemma FakesAfterEscape(s: string, key: string, whole: bool)
    requires Name(key)
    requires if whole then Escape(s) == key else EndsWith(Escape(s), "\"" + key)
    ensures Fakes(s, key)
  {
    if whole {
      EscapedIsName(s);
    } else {
      EscapedTail(s, key);
    }
  }

  /** With its colon, a quoted key shows only at the name it names. */
  lemma FieldTokenInLine(l: Line, key: string, q: nat)
    requires WellFormed(l) && Name(key)
    requires OccursAt(Body(l), FieldToken(key), q)
    ensures l.Field? && l.name == key && q == NameStart(l)
  {
    assert FieldToken(key) == Quoted(key) + ":";
    OccursConcat(Body(l), Quoted(key), ":", q);
    KeyInLine(l, key, q);
    var after := q + |Quoted(key)|;
    assert Body(l)[after] == Body(l)[after..after + 1][0] == ':';
  }

  // ----- the first line that shows a token -----

  /** No line of `ls` shows the token. */
  predicate Hidden(ls: seq<Line>, token: string) {
    forall i, q :: 0 <= i < |ls| && 0 <= q <= |Body(ls[i])| ==> !OccursAt(Body(ls[i]), token, q)
  }

  lemma OccursInFirst(body: string, rest: string, token: string, q: nat)
    requires '\n' !in token && token != "" && q <= |body|
    requires OccursAt(body + "\n" + rest, token, q)
    ensures OccursAt(body, token, q)
  {
    var text := body + "\n" + rest;
    forall i | q <= i < q + |token|
      ensures text[i] == token[i - q]
    {
      assert text[i] == text[q..q + |token|][i - q];
    }
    assert text[|body|] == '\n';
    assert q + |token| <= |body|;
    assert text[q..q + |token|] == body[q..q + |token|];
  }

  lemma OccursShift(a: string, b: string, token: string, q: nat)
    requires q >= |a|
    ensures OccursAt(a + b, token, q) <==> OccursAt(b, token, q - |a|)
  {
    if q + |token| <= |a + b| {
      assert (a + b)[q..q + |token|] == b[q - |a|..q - |a| + |token|];
    }
  }

  lemma {:induction false} HiddenMeansAbsent(ls: seq<Line>, rest: string, token: string, q: nat)
    requires '\n' !in token && token != ""
    requires Hidden(ls, token) && q < |Lines(ls)|
    ensures !OccursAt(Lines(ls) + rest, token, q)
  {
    var body, tail := Body(ls[0]), Lines(ls[1..]) + rest;
    assert Lines(ls) + rest == body + "\n" + tail;
    if q <= |body| {
      if OccursAt(body + "\n" + tail, token, q) {
        OccursInFirst(body, tail, token, q);
        assert false;
      }
    } else {
      assert Hidden(ls[1..], token);
      HiddenMeansAbsent(ls[1..], rest, token, q - |body| - 1);
      OccursShift(body + "\n", tail, token, q);
    }
  }

  lemma FirstAfter(front: string, body: string, rest: string, token: string, q: nat)
    requires '\n' !in token && token != ""
    requires forall p :: 0 <= p < |front| ==> !OccursAt(front + (body + "\n" + rest), token, p)
    requires OccursAt(body, token, q)
    requires forall p :: 0 <= p < q ==> !OccursAt(body, token, p)
    ensures Find(front + (body + "\n" + rest), token) == Some(|front| + q)
  {
    var tail := body + "\n" + rest;
    var n := |front|;
    assert tail[q..q + |token|] == body[q..q + |token|];
    OccursShift(front, tail, token, n + q);
    forall p | n <= p < n + q
      ensures !OccursAt(front + tail, token, p)
    {
      if OccursAt(front + tail, token, p) {
        OccursShift(front, tail, token, p);
        OccursInFirst(body, rest, token, p - n);
        assert false;
      }
    }
    FindIs(front + tail, token, 0, n + q);
  }

  /** The first occurrence is on the first line that shows the token. */
  lemma FirstShown(before: seq<Line>, body: string, rest: string, token: string, q: nat)
    requires '\n' !in token && token != ""
    requires Hidden(before, token)
    requires OccursAt(body, token, q)
    requires forall p :: 0 <= p < q ==> !OccursAt(body, token, p)
    ensures Find(Lines(before) + (body + "\n" + rest), token) == Some(|Lines(before)| + q)
  {
    forall p | 0 <= p < |Lines(before)|
      ensures !OccursAt(Lines(before) + (body + "\n" + rest), token, p)
    {
      HiddenMeansAbsent(before, body + "\n" + rest, token, p);
    }
    FirstAfter(Lines(before), body, rest, token, q);
  }
}
