/**
  Texts that look like an array's name. The array finder takes the first bracket after the first quoted
  occurrence of the name, which may stand at the end of an earlier text.
 */
module JsonFaked {
  import opened Bytes
  import opened Texts
  import opened JsonText
  import opened JsonScan
  import opened JsonLines
  import opened JsonObjects
  import opened JsonArrays

  /** A well-formed line that does not bear the name. */
  predicate Named(l: Line, key: string) {
    WellFormed(l) && (l.Field? ==> l.name != key)
  }

  predicate AllNamed(ls: seq<Line>, key: string) {
    forall i :: 0 <= i < |ls| ==> Named(ls[i], key)
  }

  predicate FakeLine(l: Line, key: string) {
    l.Field? && l.value.Text? && Fakes(l.value.text, key)
  }

  /** After a text that fakes the name, no line shows an opening square bracket. */
  predicate Locatable(before: seq<Line>, key: string) {
    forall i, j :: 0 <= i < j < |before| && FakeLine(before[i], key) ==> '[' !in Body(before[j])
  }

  // ----- where a fake shows -----

  function FakeStart(l: Line, key: string): int
    requires l.Field?
  {
    ValueEnd(l) - 2 - |key|
  }

  lemma {:induction false} NameStaysItself(s: string)
    requires forall i :: 0 <= i < |s| ==> NameChar(s[i])
    ensures Escape(s) == s
  {
    if s != "" {
      NameStaysItself(s[1..]);
      assert NameChar(s[0]);
      assert EscapeChar(s[0]) == [s[0]];
      assert s == [s[0]] + s[1..];
    }
  }

  /** Quoted and escaped, a fake ends in the quoted name. */
  lemma FakeQuoted(s: string, key: string)
    requires Name(key) && Fakes(s, key)
    ensures EndsWith("\"" + Escape(s) + "\"", Quoted(key))
  {
    NameStaysItself(key);
    if s == key {
      assert ("\"" + Escape(s) + "\"")[0..] == Quoted(key);
    } else {
      var pre := s[..|s| - |key| - 1];
      assert s == pre + ("\"" + key);
      FlatConcat(EscapeChar, pre, "\"" + key);
      assert Escape("\"" + key) == "\\\"" + key by {
        assert ("\"" + key)[1..] == key;
      }
    }
  }

  lemma FakeShows(l: Line, key: string)
    requires Named(l, key) && FakeLine(l, key) && Name(key)
    ensures FakeStart(l, key) >= 0 && FakeStart(l, key) + |Quoted(key)| == ValueEnd(l) <= |Body(l)|
    ensures Body(l) == Body(l)[..ValueEnd(l)] + CommaText(l.comma)
    ensures '\n' !in Quoted(key) && ShowsFirst(Body(l), Quoted(key), FakeStart(l, key))
  {
    FakeQuoted(l.value.text, key);
    var front := l.indent + ("\"" + l.name + "\"") + ": ";
    forall q | 0 <= q < FakeStart(l, key)
      ensures !OccursAt(Body(l), Quoted(key), q)
    {
      if OccursAt(Body(l), Quoted(key), q) {
        KeyInLine(l, key, q);
        assert false;
      }
    }
  }

  // ----- the first bracket after a fake -----

  lemma FirstBracket(text: string, from: nat, gap: string)
    requires OccursAt(text, gap + "[", from) && '[' !in gap
    ensures FindFrom(text, "[", from) == Some(from + |gap|) && text[from + |gap|] == '['
  {
    OccursConcat(text, gap, "[", from);
    OccursStart(text, "[", from + |gap|);
    assert forall q :: from <= q < from + |gap| ==> text[q] == text[from..from + |gap|][q - from];
    forall q | from <= q < from + |gap|
      ensures !OccursAt(text, "[", q)
    {
      if OccursAt(text, "[", q) {
        OccursStart(text, "[", q);
        assert false;
      }
    }
    FindIs(text, "[", from, from + |gap|);
  }

  /** The array found is the first one that opens after the fake. */
  lemma FoundAfterGap(json: string, key: string, p: nat, front: string, gap: string, interior: string, rest: string,
                      start: nat)
    requires Find(json, Quoted(key)) == Some(p) && |front| == p + |Quoted(key)|
    requires json == front + (gap + "[" + (interior + ("]" + rest)))
    requires '[' !in gap && Closed(interior, SQUARE)
    requires start == |front| + |gap| + 1
    ensures FoundAt(json, key, start, |interior|)
  {
    GapPieces(json, front, gap, interior, rest);
    FirstBracket(json, |front|, gap);
    ClosesAt(json, |front| + |gap|, interior);
  }

  lemma GapPieces(text: string, front: string, gap: string, interior: string, rest: string)
    requires text == front + (gap + "[" + (interior + ("]" + rest)))
    ensures var b := |front| + |gap|;
            && OccursAt(text, gap + "[", |front|) && OccursAt(text, interior, b + 1)
            && b + 1 + |interior| < |text| && text[b + 1 + |interior|] == ']'
  {
    assert text == (front + gap + "[") + (interior + ("]" + rest));
    assert text[|front| + |gap| + 1 + |interior|..] == "]" + rest;
  }

  // ----- a fake line before an array -----

  /** An array's text and what follows its closing bracket. */
  function ArrayText(key: string, objs: seq<seq<Line>>, rest: string): string {
    Body(ArrayLine(key)) + "\n" + (Joined(objs) + "\n  ]" + rest)
  }

  /** What stands between the fake and the next array's bracket. */
  function Between(l: Line, after: seq<Line>, own: string): string
    requires l.Field?
  {
    CommaText(l.comma) + "\n" + Lines(after) + "  " + Quoted(own) + ": "
  }

  /** Everything up to the quote that ends the fake. */
  function UpToFake(before: seq<Line>, l: Line): string
    requires l.Field? && ValueEnd(l) <= |Body(l)|
  {
    Lines(before) + Body(l)[..ValueEnd(l)]
  }

  function AfterFake(before: seq<Line>, l: Line, after: seq<Line>, own: string, objs: seq<seq<Line>>, rest: string)
    : string
  {
    Lines(before) + (Body(l) + "\n" + (Lines(after) + ArrayText(own, objs, rest)))
  }

  lemma TextFromFake(before: seq<Line>, l: Line, after: seq<Line>, own: string, objs: seq<seq<Line>>, rest: string)
    requires l.Field? && ValueEnd(l) <= |Body(l)| && Body(l) == Body(l)[..ValueEnd(l)] + CommaText(l.comma)
    ensures AfterFake(before, l, after, own, objs, rest)
         == UpToFake(before, l) + (Between(l, after, own) + "[" + (ArrayInterior(objs) + ("]" + rest)))
  {
    ArrayLineText(own);
    Rearranged(Lines(before), Body(l)[..ValueEnd(l)], CommaText(l.comma), Lines(after), Quoted(own), Joined(objs),
               rest);
  }

  lemma Rearranged(a: string, b: string, comma: string, after: string, name: string, joined: string, rest: string)
    ensures a + ((b + comma) + "\n" + (after + (("  " + (name + ": [")) + "\n" + (joined + "\n  ]" + rest))))
         == (a + b) + ((comma + "\n" + after + "  " + name + ": ") + "[" + (("\n" + joined + "\n  ") + ("]" + rest)))
  {
    var x := "\n" + joined + "\n  " + ("]" + rest);
    assert ("  " + (name + ": [")) + "\n" + (joined + "\n  ]" + rest) == "  " + name + ": " + "[" + x;
    assert (b + comma) + "\n" == b + (comma + "\n");
  }

  lemma FoundInText(before: seq<Line>, l: Line, tail: string, key: string)
    requires Name(key) && Hidden(before, Quoted(key)) && Named(l, key) && FakeLine(l, key)
    ensures FakeStart(l, key) >= 0
    ensures Find(Lines(before) + (Body(l) + "\n" + tail), Quoted(key)) == Some(|Lines(before)| + FakeStart(l, key))
  {
    FakeShows(l, key);
    FirstShown(before, Body(l), tail, Quoted(key), FakeStart(l, key));
  }

  /** With no bracket in between, the array after the first fake is found, whatever its name. */
  lemma FoundAfterFake(json: string, before: seq<Line>, l: Line, after: seq<Line>, key: string, own: string,
                       objs: seq<seq<Line>>, rest: string, start: nat)
    requires json == AfterFake(before, l, after, own, objs, rest)
    requires Name(key) && Hidden(before, Quoted(key)) && Named(l, key) && FakeLine(l, key)
    requires '[' !in Between(l, after, own) && Records(objs)
    requires start == |Lines(before)| + ValueEnd(l) + |Between(l, after, own)| + 1
    ensures FoundAt(json, key, start, |ArrayInterior(objs)|)
  {
    var p := FakeFound(json, before, l, Lines(after) + ArrayText(own, objs, rest), key);
    var front, gap, interior := FakePieces(before, l, after, key, own, objs, rest);
    FoundAfterGap(json, key, p, front, gap, interior, rest, start);
  }

  lemma FakeFound(json: string, before: seq<Line>, l: Line, tail: string, key: string) returns (p: nat)
    requires json == Lines(before) + (Body(l) + "\n" + tail)
    requires Name(key) && Hidden(before, Quoted(key)) && Named(l, key) && FakeLine(l, key)
    ensures Find(json, Quoted(key)) == Some(p) && p == |Lines(before)| + FakeStart(l, key)
  {
    FoundInText(before, l, tail, key);
    p := |Lines(before)| + FakeStart(l, key);
  }

  lemma FakePieces(before: seq<Line>, l: Line, after: seq<Line>, key: string, own: string, objs: seq<seq<Line>>,
                   rest: string)
    returns (front: string, gap: string, interior: string)
    requires Name(key) && Named(l, key) && FakeLine(l, key) && '[' !in Between(l, after, own) && Records(objs)
    ensures AfterFake(before, l, after, own, objs, rest) == front + (gap + "[" + (interior + ("]" + rest)))
    ensures |front| == |Lines(before)| + ValueEnd(l) == |Lines(before)| + FakeStart(l, key) + |Quoted(key)|
    ensures |gap| == |Between(l, after, own)| && '[' !in gap
    ensures interior == ArrayInterior(objs) && Closed(interior, SQUARE)
  {
    FakeShows(l, key);
    TextFromFake(before, l, after, own, objs, rest);
    InteriorHasNoSquare(objs);
    front, gap, interior := UpToFake(before, l), Between(l, after, own), ArrayInterior(objs);
  }

  // ----- the exact boundary -----

  /** No line bears or fakes the name. */
  predicate Free(l: Line, key: string) {
    Named(l, key) && !FakeLine(l, key)
  }

  predicate AllFree(ls: seq<Line>, key: string) {
    forall i :: 0 <= i < |ls| ==> Free(ls[i], key)
  }

  lemma FreeMeansHidden(ls: seq<Line>, key: string)
    requires Name(key) && AllFree(ls, key)
    ensures Hidden(ls, Quoted(key))
  {
    forall i, q | 0 <= i < |ls| && 0 <= q <= |Body(ls[i])|
      ensures !OccursAt(Body(ls[i]), Quoted(key), q)
    {
      if OccursAt(Body(ls[i]), Quoted(key), q) {
        assert Free(ls[i], key);
        KeyInLine(ls[i], key, q);
        assert false;
      }
    }
  }

  /** The first line that fakes the name, if any. */
  function FirstFake(ls: seq<Line>, key: string): (r: Option<nat>)
    ensures r.Some? ==> r.value < |ls| && FakeLine(ls[r.value], key)
                        && forall i :: 0 <= i < r.value ==> !FakeLine(ls[i], key)
    ensures r.None? ==> forall i :: 0 <= i < |ls| ==> !FakeLine(ls[i], key)
  {
    if ls == [] then None
    else
      match FirstFake(ls[..|ls| - 1], key)
      case Some(i) => Some(i)
      case None => if FakeLine(ls[|ls| - 1], key) then Some(|ls| - 1) else None
  }

  lemma {:induction false} LinesWithoutBracket(ls: seq<Line>)
    requires forall i :: 0 <= i < |ls| ==> '[' !in Body(ls[i])
    ensures '[' !in Lines(ls)
  {
    if ls != [] {
      LinesWithoutBracket(ls[1..]);
      assert Lines(ls) == Row(ls[0]) + Lines(ls[1..]);
    }
  }

  lemma NameHasNoBracket(key: string)
    requires Name(key)
    ensures '[' !in Quoted(key)
  {
  }

  lemma SplitAt(ls: seq<Line>, i: nat, tail: string)
    requires i < |ls|
    ensures Lines(ls) + tail == Lines(ls[..i]) + (Body(ls[i]) + "\n" + (Lines(ls[i + 1..]) + tail))
    ensures |Lines(ls)| == |Lines(ls[..i])| + |Body(ls[i])| + 1 + |Lines(ls[i + 1..])|
  {
    assert ls == ls[..i] + ls[i..] && ls[i..][1..] == ls[i + 1..];
    FlatConcat(Row, ls[..i], ls[i..]);
    var a, b, c := Lines(ls[..i]), Row(ls[i]), Lines(ls[i + 1..]);
    assert Lines(ls) == a + (b + c);
  }

  lemma LocatableIsFound(before: seq<Line>, key: string, objs: seq<seq<Line>>, rest: string)
    requires Name(key) && AllNamed(before, key) && Records(objs) && Locatable(before, key)
    ensures FoundAt(Lines(before) + ArrayText(key, objs, rest), key, InteriorStart(before, key), |ArrayInterior(objs)|)
  {
    match FirstFake(before, key) {
      case None =>
        FreeMeansHidden(before, key);
        FindsArray(before, key, objs, rest);
      case Some(i) =>
        FoundAfterFirst(before, i, key, objs, rest);
    }
  }

  lemma FoundAfterFirst(before: seq<Line>, i: nat, key: string, objs: seq<seq<Line>>, rest: string)
    requires Name(key) && AllNamed(before, key) && Records(objs) && Locatable(before, key)
    requires FirstFake(before, key) == Some(i)
    ensures FoundAt(Lines(before) + ArrayText(key, objs, rest), key, InteriorStart(before, key), |ArrayInterior(objs)|)
  {
    var a, l, c := before[..i], before[i], before[i + 1..];
    NoBracketAfter(before, i, key, key);
    assert Hidden(a, Quoted(key)) by {
      FreeMeansHidden(a, key);
    }
    SplitAt(before, i, ArrayText(key, objs, rest));
    FoundAfterFake(Lines(before) + ArrayText(key, objs, rest), a, l, c, key, key, objs, rest,
                   InteriorStart(before, key));
  }

  lemma NoBracketAfter(before: seq<Line>, i: nat, key: string, own: string)
    requires Name(own) && Locatable(before, key) && i < |before| && FakeLine(before[i], key)
    ensures '[' !in Between(before[i], before[i + 1..], own)
  {
    var c := before[i + 1..];
    assert forall j :: 0 <= j < |c| ==> c[j] == before[i + 1 + j];
    LinesWithoutBracket(c);
  }

  lemma {:induction false} FindsNoLater(text: string, token: string, from: nat, p: nat)
    requires from <= p && OccursAt(text, token, p)
    ensures FindFrom(text, token, from).Some? && FindFrom(text, token, from).value <= p
    decreases p - from
  {
    if from < p && !OccursAt(text, token, from) {
      FindsNoLater(text, token, from + 1, p);
    }
  }

  /** A bracket on a line shows at some position within the text of the lines. */
  lemma BracketInLines(ls: seq<Line>, j: nat, tail: string) returns (p: nat)
    requires j < |ls| && '[' in Body(ls[j])
    ensures |Lines(ls[..j])| <= p < |Lines(ls)| && OccursAt(Lines(ls) + tail, "[", p)
  {
    SplitAt(ls, j, tail);
    var body, front := Body(ls[j]), Lines(ls[..j]);
    var k :| 0 <= k < |body| && body[k] == '[';
    p := |front| + k;
    var text := front + (body + "\n" + (Lines(ls[j + 1..]) + tail));
    assert text[p] == body[k];
    assert text[p..p + 1] == "[";
  }

  lemma {:induction false} LinesGrow(ls: seq<Line>, i: nat, j: nat)
    requires i < j <= |ls|
    ensures |Lines(ls[..i])| + |Body(ls[i])| < |Lines(ls[..j])|
    decreases j
  {
    assert ls[..j] == ls[..j - 1] + [ls[j - 1]];
    FlatSnoc(Row, ls[..j - 1], ls[j - 1]);
    if i < j - 1 {
      LinesGrow(ls, i, j - 1);
    }
  }

  lemma NotLocatableIsMissed(before: seq<Line>, key: string, tail: string)
    requires Name(key) && AllNamed(before, key) && !Locatable(before, key)
    ensures var json := Lines(before) + tail;
            ArrayBounds(json, key).Some? ==> ArrayBounds(json, key).value.0 <= |Lines(before)|
  {
    var json := Lines(before) + tail;
    var u, j :| 0 <= u < j < |before| && FakeLine(before[u], key) && '[' in Body(before[j]);
    var i := FirstFake(before, key).value;
    var k := FirstFakeIsFound(before, i, key, tail);
    LinesGrow(before, i, j);
    var p := BracketInLines(before, j, tail);
    FoundNoLater(json, key, k, p);
  }

  lemma FoundNoLater(json: string, key: string, k: nat, p: nat)
    requires Find(json, Quoted(key)) == Some(k) && k + |Quoted(key)| <= p && OccursAt(json, "[", p)
    ensures ArrayBounds(json, key).Some? ==> ArrayBounds(json, key).value.0 <= p + 1
  {
    FindsNoLater(json, "[", k + |Quoted(key)|, p);
  }

  lemma FirstFakeIsFound(before: seq<Line>, i: nat, key: string, tail: string) returns (k: nat)
    requires Name(key) && AllNamed(before, key) && FirstFake(before, key) == Some(i)
    ensures Find(Lines(before) + tail, Quoted(key)) == Some(k)
    ensures k + |Quoted(key)| <= |Lines(before[..i])| + |Body(before[i])|
  {
    var l := before[i];
    FreeMeansHidden(before[..i], key);
    SplitAt(before, i, tail);
    k := FakeFound(Lines(before) + tail, before[..i], l, Lines(before[i + 1..]) + tail, key);
    FakeShows(l, key);
  }

  /**
    The array finder returns the bounds of the printed array exactly when no line after a text that
    fakes the array's name shows an opening bracket.
   */
  lemma ArrayFoundIffLocatable(before: seq<Line>, key: string, objs: seq<seq<Line>>, rest: string)
    requires Name(key) && AllNamed(before, key) && Records(objs)
    ensures FoundAt(Lines(before) + ArrayText(key, objs, rest), key, InteriorStart(before, key), |ArrayInterior(objs)|)
            <==> Locatable(before, key)
  {
    if Locatable(before, key) {
      LocatableIsFound(before, key, objs, rest);
    } else {
      NotLocatableIsMissed(before, key, ArrayText(key, objs, rest));
    }
  }
}
