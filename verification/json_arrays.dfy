/** Printed arrays of objects: their bounds are found and they split back into their objects. */
module JsonArrays {
  import opened Bytes
  import opened Texts
  import opened JsonText
  import opened JsonScan
  import opened JsonLines
  import opened JsonObjects

  const SQUARE := {'[', ']'}
  const CURLY := {'{', '}'}
  const BRACKETS := {'[', ']', '{', '}'}

  // ----- brackets stay inside literals -----

  /** Scanned from outside any literal, the text shows no character of `loud` and ends outside. */
  predicate Closed(text: string, loud: set<char>) {
    Quiet(Outside, text, loud) && AfterAll(Outside, text) == Outside
  }

  lemma ClosedConcat(a: string, b: string, loud: set<char>)
    requires Closed(a, loud) && Closed(b, loud)
    ensures Closed(a + b, loud)
  {
    ScanConcat(Outside, a, b, loud);
  }

  lemma {:induction false} PlainIsClosed(text: string, loud: set<char>)
    requires '"' !in text && forall i :: 0 <= i < |text| ==> text[i] !in loud
    ensures Closed(text, loud)
  {
    if text != "" {
      PlainIsClosed(text[1..], loud);
    }
  }

  lemma LiteralIsClosed(inner: string, loud: set<char>)
    requires StaysInside(Inside, inner) && AfterAll(Inside, inner) == Inside
    requires '"' !in loud
    ensures Closed("\"" + inner + "\"", loud)
  {
    InsideIsQuiet(Inside, inner, loud);
    ScanConcat(Inside, inner, "\"", loud);
    assert "\""[1..] == "";
    var text := "\"" + inner + "\"";
    assert text[1..] == inner + "\"";
  }

  lemma ValueIsClosed(v: Value)
    requires !v.Open?
    ensures Closed(ValueText(v), BRACKETS)
  {
    match v {
      case Text(s) =>
        EscapeStaysInside(s);
        LiteralIsClosed(Escape(s), BRACKETS);
      case Flag(_) =>
        PlainIsClosed(ValueText(v), BRACKETS);
      case Number(n) =>
        var d := Decimal(n);
        assert forall i :: 0 <= i < |d| ==> IsDigit(d[i]);
        PlainIsClosed(d, BRACKETS);
    }
  }

  lemma NameIsClosed(name: string)
    requires Name(name)
    ensures Closed("\"" + name + "\"", BRACKETS)
  {
    PlainStaysInside(name);
    LiteralIsClosed(name, BRACKETS);
  }

  lemma RowIsClosed(l: Line)
    requires WellFormed(l) && l.Field? && !l.value.Open?
    ensures Closed(Row(l), BRACKETS)
  {
    var comma := if l.comma then "," else "";
    PlainIsClosed(l.indent, BRACKETS);
    NameIsClosed(l.name);
    PlainIsClosed(": ", BRACKETS);
    ValueIsClosed(l.value);
    PlainIsClosed(comma, BRACKETS);
    PlainIsClosed("\n", BRACKETS);
    var quoted := "\"" + l.name + "\"";
    ClosedConcat(l.indent, quoted, BRACKETS);
    ClosedConcat(l.indent + quoted, ": ", BRACKETS);
    ClosedConcat(l.indent + quoted + ": ", ValueText(l.value), BRACKETS);
    ClosedConcat(l.indent + quoted + ": " + ValueText(l.value), comma, BRACKETS);
    ClosedConcat(l.indent + quoted + ": " + ValueText(l.value) + comma, "\n", BRACKETS);
  }

  lemma {:induction false} FieldsAreClosed(fs: seq<Line>)
    requires Record(fs)
    ensures Closed(Lines(fs), BRACKETS)
  {
    if fs == [] {
      PlainIsClosed("", BRACKETS);
    } else {
      RowIsClosed(fs[0]);
      FieldsAreClosed(fs[1..]);
      ClosedConcat(Row(fs[0]), Lines(fs[1..]), BRACKETS);
    }
  }

  lemma {:induction false} QuietSubset(q: Quote, text: string, loud: set<char>, less: set<char>)
    requires Quiet(q, text, loud) && less <= loud
    ensures Quiet(q, text, less)
    decreases |text|
  {
    if text != "" {
      QuietSubset(After(q, text[0]), text[1..], loud, less);
    }
  }

  lemma ObjectInnerIsClosed(fs: seq<Line>)
    requires Record(fs)
    ensures Closed(ObjectInner(fs), BRACKETS)
  {
    FieldsAreClosed(fs);
    PlainIsClosed("\n", BRACKETS);
    PlainIsClosed("    ", BRACKETS);
    ClosedConcat("\n", Lines(fs), BRACKETS);
    ClosedConcat("\n" + Lines(fs), "    ", BRACKETS);
  }

  // ----- arrays -----

  /** The objects of an array, each on its lines, separated by commas. */
  function JoinedTexts(ts: seq<string>): string {
    if ts == [] then ""
    else if |ts| == 1 then "    " + ts[0]
    else "    " + ts[0] + ",\n" + JoinedTexts(ts[1..])
  }

  function Joined(objs: seq<seq<Line>>): string {
    JoinedTexts(ObjectTexts(objs))
  }

  function ArrayInterior(objs: seq<seq<Line>>): string {
    "\n" + Joined(objs) + "\n  "
  }

  function ObjectTexts(objs: seq<seq<Line>>): (ts: seq<string>)
    ensures |ts| == |objs| && forall i :: 0 <= i < |objs| ==> ts[i] == ObjectText(objs[i])
  {
    seq(|objs|, i requires 0 <= i < |objs| => ObjectText(objs[i]))
  }

  predicate Records(objs: seq<seq<Line>>) {
    forall i :: 0 <= i < |objs| ==> Record(objs[i])
  }

  lemma WrappedIsClosed(inner: string)
    requires Closed(inner, SQUARE)
    ensures Closed("    {" + inner + "}", SQUARE)
  {
    PlainIsClosed("    {", SQUARE);
    PlainIsClosed("}", SQUARE);
    ClosedConcat("    {", inner, SQUARE);
    ClosedConcat("    {" + inner, "}", SQUARE);
  }

  function ObjectInner(fs: seq<Line>): string {
    "\n" + Lines(fs) + "    "
  }

  lemma ObjectWraps(fs: seq<Line>)
    ensures ObjectText(fs) == "{" + ObjectInner(fs) + "}"
    ensures "    " + ObjectText(fs) == "    {" + ObjectInner(fs) + "}"
  {
    var x := Lines(fs);
    assert "{\n" + x + "    }" == "{" + ("\n" + x + "    ") + "}";
    assert "    " + ("{" + ObjectInner(fs) + "}") == "    {" + ObjectInner(fs) + "}";
  }

  lemma ObjectHasNoSquare(fs: seq<Line>)
    requires Record(fs)
    ensures Closed("    " + ObjectText(fs), SQUARE)
  {
    ObjectInnerIsClosed(fs);
    QuietSubset(Outside, ObjectInner(fs), BRACKETS, SQUARE);
    WrappedIsClosed(ObjectInner(fs));
    ObjectWraps(fs);
  }

  lemma {:induction false} JoinedHasNoSquare(ts: seq<string>)
    requires forall i :: 0 <= i < |ts| ==> Closed("    " + ts[i], SQUARE)
    ensures Closed(JoinedTexts(ts), SQUARE)
  {
    if ts == [] {
      PlainIsClosed("", SQUARE);
    } else if |ts| > 1 {
      var first := "    " + ts[0];
      JoinedHasNoSquare(ts[1..]);
      PlainIsClosed(",\n", SQUARE);
      ClosedConcat(first, ",\n", SQUARE);
      ClosedConcat(first + ",\n", JoinedTexts(ts[1..]), SQUARE);
    }
  }

  lemma InteriorHasNoSquare(objs: seq<seq<Line>>)
    requires Records(objs)
    ensures Closed(ArrayInterior(objs), SQUARE)
  {
    var ts := ObjectTexts(objs);
    forall i | 0 <= i < |ts|
      ensures Closed("    " + ts[i], SQUARE)
    {
      ObjectHasNoSquare(objs[i]);
    }
    JoinedHasNoSquare(ts);
    PlainIsClosed("\n", SQUARE);
    PlainIsClosed("\n  ", SQUARE);
    ClosedConcat("\n", Joined(objs), SQUARE);
    ClosedConcat("\n" + Joined(objs), "\n  ", SQUARE);
  }

  // ----- finding the array -----

  function ArrayLine(key: string): Line {
    Field("  ", key, Open('['), false)
  }

  /** The text up to an array's closing bracket, and what follows it. */
  function AroundArray(before: seq<Line>, key: string, objs: seq<seq<Line>>, rest: string): string {
    Lines(before) + (Body(ArrayLine(key)) + "\n" + (Joined(objs) + "\n  ]" + rest))
  }

  lemma ClosesAt(text: string, b: nat, interior: string)
    requires b < |text| && text[b] == '['
    requires Closed(interior, SQUARE) && OccursAt(text, interior, b + 1)
    requires b + 1 + |interior| < |text| && text[b + 1 + |interior|] == ']'
    ensures Closing(text, b, Outside, 0) == Some(b + 1 + |interior|)
  {
    assert Closing(text, b, Outside, 0) == Closing(text, b + 1, Outside, 1);
    ClosingSkips(text, b + 1, b + 1 + |interior|, Outside, 1);
  }

  lemma BracketAfterKey(text: string, k: nat)
    requires OccursAt(text, ": [", k)
    ensures text[k + 2] == '[' && FindFrom(text, "[", k) == Some(k + 2)
  {
    assert text[k] == text[k..k + 3][0] && text[k + 1] == text[k..k + 3][1] && text[k + 2] == text[k..k + 3][2];
    assert text[k + 2..k + 3] == "[";
    forall q | k <= q < k + 2
      ensures !OccursAt(text, "[", q)
    {
      if OccursAt(text, "[", q) {
        OccursStart(text, "[", q);
        assert false;
      }
    }
    FindIs(text, "[", k, k + 2);
  }

  lemma ArrayLineText(key: string)
    ensures Body(ArrayLine(key)) == "  " + (Quoted(key) + ": [")
  {
    assert Body(ArrayLine(key)) == "  " + ("\"" + key + "\"") + ": " + "[" + "";
  }

  /** Where the pieces of a printed array stand. */
  lemma ArrayPieces(before: seq<Line>, key: string, objs: seq<seq<Line>>, rest: string)
    ensures var json := AroundArray(before, key, objs, rest);
            var k := |Lines(before)| + 2 + |Quoted(key)|;
            && OccursAt(json, ": [", k)
            && OccursAt(json, ArrayInterior(objs), k + 3)
            && k + 3 + |ArrayInterior(objs)| < |json| && json[k + 3 + |ArrayInterior(objs)|] == ']'
  {
    var front, interior, joined := Lines(before), ArrayInterior(objs), Joined(objs);
    var head := "  " + Quoted(key);
    var json := AroundArray(before, key, objs, rest);
    ArrayLineText(key);
    assert Body(ArrayLine(key)) == head + ": [";
    assert interior == "\n" + joined + "\n  ";
  }

  /** Where the interior of a printed array starts. */
  function InteriorStart(before: seq<Line>, key: string): nat {
    |Lines(before)| + 2 + |Quoted(key)| + 3
  }

  lemma InteriorStands(before: seq<Line>, key: string, objs: seq<seq<Line>>, rest: string)
    ensures var json := AroundArray(before, key, objs, rest);
            var start := InteriorStart(before, key);
            start + |ArrayInterior(objs)| <= |json| && json[start..start + |ArrayInterior(objs)|] == ArrayInterior(objs)
  {
    ArrayPieces(before, key, objs, rest);
  }

  lemma KeyIsFound(before: seq<Line>, key: string, objs: seq<seq<Line>>, rest: string)
    requires Name(key) && Hidden(before, Quoted(key))
    ensures Find(AroundArray(before, key, objs, rest), Quoted(key)) == Some(|Lines(before)| + 2)
  {
    var line := ArrayLine(key);
    ShowsOwnName(line);
    KeyOnLine(AroundArray(before, key, objs, rest), before, Body(line), Joined(objs) + "\n  ]" + rest, key, 2);
  }

  /** The array finder returns these bounds. */
  predicate FoundAt(json: string, key: string, start: nat, size: nat) {
    ArrayBounds(json, key) == Some((start, start + size))
  }

  /**
    The array finder returns the bounds of the printed array, provided no earlier line shows the
    quoted key, neither as a name nor at the end of a text.
   */
  lemma FindsArray(before: seq<Line>, key: string, objs: seq<seq<Line>>, rest: string)
    requires Name(key) && Records(objs)
    requires Hidden(before, Quoted(key))
    ensures FoundAt(AroundArray(before, key, objs, rest), key, InteriorStart(before, key), |ArrayInterior(objs)|)
  {
    FindsIn(AroundArray(before, key, objs, rest), before, key, objs, rest, InteriorStart(before, key));
  }

  lemma FindsIn(json: string, before: seq<Line>, key: string, objs: seq<seq<Line>>, rest: string, start: nat)
    requires Name(key) && Records(objs) && Hidden(before, Quoted(key))
    requires json == AroundArray(before, key, objs, rest) && start == InteriorStart(before, key)
    ensures FoundAt(json, key, start, |ArrayInterior(objs)|)
  {
    var p := |Lines(before)| + 2;
    assert Find(json, Quoted(key)) == Some(p) by {
      KeyIsFound(before, key, objs, rest);
    }
    ArrayPieces(before, key, objs, rest);
    InteriorHasNoSquare(objs);
    BoundsFrom(json, key, p, ArrayInterior(objs), start);
  }

  lemma KeyOnLine(json: string, before: seq<Line>, body: string, rest: string, key: string, start: nat)
    requires json == Lines(before) + (body + "\n" + rest)
    requires '\n' !in Quoted(key) && Hidden(before, Quoted(key)) && ShowsFirst(body, Quoted(key), start)
    ensures Find(json, Quoted(key)) == Some(|Lines(before)| + start)
  {
    FirstShown(before, body, rest, Quoted(key), start);
  }

  lemma BoundsFrom(json: string, key: string, p: nat, interior: string, start: nat)
    requires Find(json, Quoted(key)) == Some(p) && start == p + |Quoted(key)| + 3
    requires Closed(interior, SQUARE)
    requires var k := p + |Quoted(key)|;
             && OccursAt(json, ": [", k)
             && OccursAt(json, interior, k + 3)
             && k + 3 + |interior| < |json| && json[k + 3 + |interior|] == ']'
    ensures FoundAt(json, key, start, |interior|)
  {
    var k := p + |Quoted(key)|;
    BracketAfterKey(json, k);
    ClosesAt(json, k + 2, interior);
  }

  // ----- splitting the array -----

  lemma ObjectsOfOne(body: string, p: nat, inner: string)
    requires OccursAt(body, "    {", p) && OccursAt(body, inner, p + 5)
    requires p + 5 + |inner| < |body| && body[p + 5 + |inner|] == '}'
    requires Closed(inner, CURLY)
    ensures var r := p + 6 + |inner|;
            Objects(body, p, Outside, 0, None) == [body[p + 4..r]] + Objects(body, r, Outside, 0, None)
  {
    var open, close := p + 4, p + 5 + |inner|;
    OccursConcat(body, "    ", "{", p);
    assert "    " + "{" == "    {";
    assert body[open] == body[open..open + 1][0] == '{';
    PlainIsClosed("    ", CURLY);
    ObjectsSkip(body, p, open, Outside, 0, None);
    ObjectsSkip(body, open + 1, close, Outside, 1, Some(open));
    assert Objects(body, open, Outside, 0, None) == Objects(body, open + 1, Outside, 1, Some(open));
  }

  lemma ObjectsOfWrapped(body: string, p: nat, inner: string)
    requires OccursAt(body, "    {" + inner + "}", p)
    requires Closed(inner, CURLY)
    ensures var r := p + 6 + |inner|;
            Objects(body, p, Outside, 0, None) == [body[p + 4..r]] + Objects(body, r, Outside, 0, None)
  {
    OccursConcat(body, "    {" + inner, "}", p);
    OccursConcat(body, "    {", inner, p);
    var close := p + 5 + |inner|;
    assert body[close] == body[close..close + 1][0] == '}';
    ObjectsOfOne(body, p, inner);
  }

  /** A brace-delimited text whose interior shows no brace outside its literals. */
  ghost predicate Braced(t: string) {
    exists inner :: t == "{" + inner + "}" && Closed(inner, CURLY)
  }

  lemma ObjectIsBraced(fs: seq<Line>)
    requires Record(fs)
    ensures Braced(ObjectText(fs))
  {
    ObjectWraps(fs);
    ObjectInnerIsClosed(fs);
    QuietSubset(Outside, ObjectInner(fs), BRACKETS, CURLY);
  }

  lemma ObjectsOfBraced(body: string, p: nat, t: string)
    requires Braced(t) && OccursAt(body, "    " + t, p)
    ensures Objects(body, p, Outside, 0, None) == [t] + Objects(body, p + 4 + |t|, Outside, 0, None)
  {
    var inner :| t == "{" + inner + "}" && Closed(inner, CURLY);
    OccursConcat(body, "    ", t, p);
    assert "    " + t == "    {" + inner + "}";
    ObjectsOfWrapped(body, p, inner);
  }

  lemma SkipsPlain(body: string, p: nat, plain: string)
    requires OccursAt(body, plain, p)
    requires '"' !in plain && '{' !in plain && '}' !in plain
    ensures Objects(body, p, Outside, 0, None) == Objects(body, p + |plain|, Outside, 0, None)
  {
    PlainIsClosed(plain, CURLY);
    ObjectsSkip(body, p, p + |plain|, Outside, 0, None);
  }

  lemma SplitsFirst(body: string, p: nat, t: string, plain: string)
    requires Braced(t) && OccursAt(body, "    " + t + plain, p)
    requires '"' !in plain && '{' !in plain && '}' !in plain
    ensures var r := p + 4 + |t| + |plain|;
            r <= |body| && Objects(body, p, Outside, 0, None) == [t] + Objects(body, r, Outside, 0, None)
  {
    OccursConcat(body, "    " + t, plain, p);
    ObjectsOfBraced(body, p, t);
    SkipsPlain(body, p + 4 + |t|, plain);
  }

  lemma {:induction false} SplitsJoined(body: string, p: nat, ts: seq<string>)
    requires forall i :: 0 <= i < |ts| ==> Braced(ts[i])
    requires OccursAt(body, JoinedTexts(ts) + "\n  ", p) && p + |JoinedTexts(ts)| + 3 == |body|
    ensures Objects(body, p, Outside, 0, None) == ts
    decreases |ts|
  {
    if ts == [] {
      assert JoinedTexts(ts) + "\n  " == "\n  ";
      SkipsPlain(body, p, "\n  ");
    } else if |ts| == 1 {
      SplitsFirst(body, p, ts[0], "\n  ");
    } else {
      var first, rest := "    " + ts[0] + ",\n", JoinedTexts(ts[1..]);
      assert JoinedTexts(ts) == first + rest;
      assert first + rest + "\n  " == first + (rest + "\n  ");
      OccursConcat(body, first, rest + "\n  ", p);
      SplitsFirst(body, p, ts[0], ",\n");
      SplitsJoined(body, p + |first|, ts[1..]);
    }
  }

  /** The splitter returns exactly the printed objects, in order. */
  lemma SplitsArray(objs: seq<seq<Line>>)
    requires Records(objs)
    ensures Objects(ArrayInterior(objs), 0, Outside, 0, None) == ObjectTexts(objs)
  {
    var body, joined := ArrayInterior(objs), Joined(objs) + "\n  ";
    assert body == "" + ("\n" + joined) && body == "\n" + (joined + "");
    SkipsPlain(body, 0, "\n");
    var ts := ObjectTexts(objs);
    forall i | 0 <= i < |ts|
      ensures Braced(ts[i])
    {
      ObjectIsBraced(objs[i]);
    }
    SplitsJoined(body, 1, ts);
  }
}
