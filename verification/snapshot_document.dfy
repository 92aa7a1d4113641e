/** The whole snapshot: its header, its three arrays, and where the scanners find them. */
module SnapshotDocument {
  import opened Bytes
  import opened Texts
  import opened JsonText
  import opened JsonScan
  import opened JsonLines
  import opened JsonObjects
  import opened JsonArrays
  import opened JsonFaked
  import opened SnapshotPrint

  // ----- the header -----

  const SCHEMA := "schema_version"
  const SAVED_AT := "saved_at"

  /** What precedes the arrays: three values nobody controls the text of, and two settings. */
  datatype Header = Header(savedAt: string, cliEndpoint: string, status: string, ifaceCount: nat)

  function HeaderLines(h: Header): (ls: seq<Line>)
    ensures |ls| == 8
  {
    [
      Plain("{"),
      Field("  ", SCHEMA, Number(SCHEMA_VERSION), true),
      Field("  ", SAVED_AT, Text(h.savedAt), true),
      Field("  ", "metadata", Open('{'), false),
      Field(INDENT, "cli_endpoint", Text(h.cliEndpoint), true),
      Field(INDENT, "status", Text(h.status), true),
      Field(INDENT, "interface_admin_state_count", Number(h.ifaceCount), false),
      Plain("  },")
    ]
  }

  // ----- arrays as lines -----

  function ObjectRows(fs: seq<Line>, comma: bool): seq<Line> {
    [Plain("    {")] + fs + [Plain(if comma then "    }," else "    }")]
  }

  /** An array without objects still has one, empty, line. */
  function InteriorRows(objs: seq<seq<Line>>): seq<Line> {
    if objs == [] then [Plain("")]
    else if |objs| == 1 then ObjectRows(objs[0], false)
    else ObjectRows(objs[0], true) + InteriorRows(objs[1..])
  }

  function ArrayRows(key: string, objs: seq<seq<Line>>): seq<Line> {
    [ArrayLine(key)] + InteriorRows(objs) + [Plain("  ],")]
  }

  lemma LinesOfOne(l: Line)
    ensures Lines([l]) == Row(l)
  {
    var ls: seq<Line> := [l];
    assert ls[1..] == [];
    assert Flat(Row, ls) == Row(ls[0]) + Flat(Row, ls[1..]);
  }

  lemma ObjectRowsText(fs: seq<Line>, comma: bool)
    ensures Lines(ObjectRows(fs, comma)) == "    " + ObjectText(fs) + (if comma then ",\n" else "\n")
  {
    var first, last := Plain("    {"), Plain(if comma then "    }," else "    }");
    FlatConcat(Row, [first], fs);
    FlatConcat(Row, [first] + fs, [last]);
    LinesOfOne(first);
    LinesOfOne(last);
  }

  lemma JoinedTail(objs: seq<seq<Line>>)
    requires |objs| > 1
    ensures Joined(objs) == "    " + ObjectText(objs[0]) + ",\n" + Joined(objs[1..])
  {
    assert ObjectTexts(objs)[1..] == ObjectTexts(objs[1..]);
  }

  lemma {:induction false} InteriorRowsText(objs: seq<seq<Line>>)
    ensures Lines(InteriorRows(objs)) == Joined(objs) + "\n"
  {
    if objs == [] {
      LinesOfOne(Plain(""));
    } else if |objs| == 1 {
      ObjectRowsText(objs[0], false);
    } else {
      ObjectRowsText(objs[0], true);
      FlatConcat(Row, ObjectRows(objs[0], true), InteriorRows(objs[1..]));
      InteriorRowsText(objs[1..]);
      JoinedTail(objs);
    }
  }

  lemma ArrayRowsText(key: string, objs: seq<seq<Line>>, x: string)
    ensures Lines(ArrayRows(key, objs)) + x == ArrayText(key, objs, ",\n" + x)
  {
    var line, last: Line := ArrayLine(key), Plain("  ],");
    FlatConcat(Row, [line], InteriorRows(objs));
    FlatConcat(Row, [line] + InteriorRows(objs), [last]);
    LinesOfOne(line);
    LinesOfOne(last);
    InteriorRowsText(objs);
  }

  // ----- the document -----

  const CLOSE := "\n}\n"

  function Document(h: Header, ifaces: seq<seq<Line>>, pdps: seq<seq<Line>>, ues: seq<seq<Line>>): string {
    Lines(HeaderLines(h))
    + ArrayText(IFACES, ifaces, ",\n" + ArrayText(PDPS, pdps, ",\n" + ArrayText(UES, ues, CLOSE)))
  }

  function BeforePdps(h: Header, ifaces: seq<seq<Line>>): seq<Line> {
    HeaderLines(h) + ArrayRows(IFACES, ifaces)
  }

  function BeforeUes(h: Header, ifaces: seq<seq<Line>>, pdps: seq<seq<Line>>): seq<Line> {
    BeforePdps(h, ifaces) + ArrayRows(PDPS, pdps)
  }

  lemma AfterRows(front: seq<Line>, key: string, objs: seq<seq<Line>>, x: string)
    ensures Lines(front) + ArrayText(key, objs, ",\n" + x) == Lines(front + ArrayRows(key, objs)) + x
  {
    ArrayRowsText(key, objs, x);
    RowsAppended(front, ArrayRows(key, objs), x, ArrayText(key, objs, ",\n" + x));
  }

  lemma RowsAppended(front: seq<Line>, rows: seq<Line>, x: string, text: string)
    requires Lines(rows) + x == text
    ensures Lines(front) + text == Lines(front + rows) + x
  {
    FlatConcat(Row, front, rows);
    var a, b := Lines(front), Lines(rows);
    assert a + (b + x) == (a + b) + x;
  }

  /** The document, seen from each of its arrays. */
  lemma DocumentAround(h: Header, ifaces: seq<seq<Line>>, pdps: seq<seq<Line>>, ues: seq<seq<Line>>)
    ensures var doc := Document(h, ifaces, pdps, ues);
            && doc == AroundArray(HeaderLines(h), IFACES, ifaces,
                                  ",\n" + ArrayText(PDPS, pdps, ",\n" + ArrayText(UES, ues, CLOSE)))
            && doc == AroundArray(BeforePdps(h, ifaces), PDPS, pdps, ",\n" + ArrayText(UES, ues, CLOSE))
            && doc == AroundArray(BeforeUes(h, ifaces, pdps), UES, ues, CLOSE)
  {
    var third := ArrayText(UES, ues, CLOSE);
    var second := ArrayText(PDPS, pdps, ",\n" + third);
    AfterRows(HeaderLines(h), IFACES, ifaces, second);
    AfterRows(BeforePdps(h, ifaces), PDPS, pdps, third);
  }

  // ----- lines that do not bear a name -----

  predicate ObjectsNamed(objs: seq<seq<Line>>, key: string) {
    forall i :: 0 <= i < |objs| ==> AllNamed(objs[i], key)
  }

  lemma {:induction false} InteriorRowsNamed(objs: seq<seq<Line>>, key: string)
    requires ObjectsNamed(objs, key)
    ensures AllNamed(InteriorRows(objs), key)
  {
    if objs != [] {
      assert AllNamed(objs[0], key);
      if |objs| > 1 {
        InteriorRowsNamed(objs[1..], key);
      }
    }
  }

  lemma ArrayRowsNamed(own: string, objs: seq<seq<Line>>, key: string)
    requires Name(own) && own != key && ObjectsNamed(objs, key)
    ensures AllNamed(ArrayRows(own, objs), key)
  {
    InteriorRowsNamed(objs, key);
  }

  // ----- the fields of the header -----

  lemma LinesAreRead(ls: seq<Line>, i: nat, tail: string)
    requires AllWellFormed(ls) && i < |ls| && ls[i].Field? && !ls[i].value.Open?
    requires forall j :: 0 <= j < i ==> ls[j].Field? ==> ls[j].name != ls[i].name
    ensures RawValue(Lines(ls) + tail, ls[i].name) == Some(RawText(ls[i].value))
  {
    var before, key := ls[..i], ls[i].name;
    forall k, q | 0 <= k < |before| && 0 <= q <= |Body(before[k])|
      ensures !OccursAt(Body(before[k]), FieldToken(key), q)
    {
      if OccursAt(Body(before[k]), FieldToken(key), q) {
        FieldTokenInLine(before[k], key, q);
        assert false;
      }
    }
    SplitAt(ls, i, tail);
    ReadsField(before, ls[i], Lines(ls[i + 1..]) + tail);
  }

  lemma HeaderIsWellFormed(h: Header)
    ensures AllWellFormed(HeaderLines(h))
  {
    var ls := HeaderLines(h);
    forall i | 0 <= i < |ls|
      ensures WellFormed(ls[i])
    {
    }
  }

  lemma SchemaIsRead(h: Header, tail: string)
    requires Decodable(h.savedAt)
    ensures var doc := Lines(HeaderLines(h)) + tail;
            UintField(doc, "schema_version") == Some(2) && StringField(doc, "saved_at") == Some(h.savedAt)
  {
    var ls := HeaderLines(h);
    HeaderIsWellFormed(h);
    LinesAreRead(ls, 1, tail);
    LinesAreRead(ls, 2, tail);
    StoullDecimal(2);
    EscapeRoundTrip(h.savedAt);
  }

  lemma MetadataIsRead(h: Header, tail: string)
    ensures var doc := Lines(HeaderLines(h)) + tail;
            && StringField(doc, "cli_endpoint") == Some(Unescape(Escape(h.cliEndpoint)))
            && StringField(doc, "status") == Some(Unescape(Escape(h.status)))
  {
    var ls := HeaderLines(h);
    HeaderIsWellFormed(h);
    LinesAreRead(ls, 4, tail);
    LinesAreRead(ls, 5, tail);
  }

  lemma CountIsRead(h: Header, tail: string)
    ensures RawValue(Lines(HeaderLines(h)) + tail, "interface_admin_state_count") == Some(Decimal(h.ifaceCount))
  {
    HeaderIsWellFormed(h);
    LinesAreRead(HeaderLines(h), 6, tail);
  }

  /** The fields of the header read back under their keys. */
  lemma HeaderIsRead(h: Header, tail: string)
    requires Decodable(h.savedAt)
    ensures var doc := Lines(HeaderLines(h)) + tail;
            && UintField(doc, "schema_version") == Some(2) && StringField(doc, "saved_at") == Some(h.savedAt)
            && StringField(doc, "cli_endpoint") == Some(Unescape(Escape(h.cliEndpoint)))
            && StringField(doc, "status") == Some(Unescape(Escape(h.status)))
            && RawValue(doc, "interface_admin_state_count") == Some(Decimal(h.ifaceCount))
  {
    SchemaIsRead(h, tail);
    MetadataIsRead(h, tail);
    CountIsRead(h, tail);
  }

  lemma HeaderLinesNamed(h: Header, key: string)
    requires key == IFACES || key == PDPS || key == UES
    ensures AllNamed(HeaderLines(h), key)
  {
    HeaderIsWellFormed(h);
    var ls := HeaderLines(h);
    forall i | 0 <= i < |ls|
      ensures Named(ls[i], key)
    {
    }
  }

  // ----- the arrays are found -----

  lemma ArrayNames()
    ensures Name(IFACES) && Name(PDPS) && Name(UES)
    ensures IFACES != PDPS && IFACES != UES && PDPS != UES
  {
  }

  lemma NamedConcat(a: seq<Line>, b: seq<Line>, key: string)
    requires AllNamed(a, key) && AllNamed(b, key)
    ensures AllNamed(a + b, key)
  {
  }

  /** No field of the objects bears an array's name. */
  predicate WellNamed(ifaces: seq<seq<Line>>, pdps: seq<seq<Line>>) {
    ObjectsNamed(ifaces, PDPS) && ObjectsNamed(ifaces, UES) && ObjectsNamed(pdps, UES)
  }

  lemma BeforeIsNamed(h: Header, ifaces: seq<seq<Line>>, pdps: seq<seq<Line>>)
    requires WellNamed(ifaces, pdps)
    ensures AllNamed(HeaderLines(h), IFACES)
    ensures AllNamed(BeforePdps(h, ifaces), PDPS)
    ensures AllNamed(BeforeUes(h, ifaces, pdps), UES)
  {
    ArrayNames();
    HeaderLinesNamed(h, IFACES);
    HeaderLinesNamed(h, PDPS);
    ArrayRowsNamed(IFACES, ifaces, PDPS);
    NamedConcat(HeaderLines(h), ArrayRows(IFACES, ifaces), PDPS);
    HeaderLinesNamed(h, UES);
    ArrayRowsNamed(IFACES, ifaces, UES);
    ArrayRowsNamed(PDPS, pdps, UES);
    NamedConcat(HeaderLines(h), ArrayRows(IFACES, ifaces), UES);
    NamedConcat(BeforePdps(h, ifaces), ArrayRows(PDPS, pdps), UES);
  }

  /** Each array can be located among the lines before it. */
  predicate AllLocatable(h: Header, ifaces: seq<seq<Line>>, pdps: seq<seq<Line>>) {
    && Locatable(HeaderLines(h), IFACES)
    && Locatable(BeforePdps(h, ifaces), PDPS)
    && Locatable(BeforeUes(h, ifaces, pdps), UES)
  }

  /** Each array is found where it was printed. */
  predicate AllFound(json: string, h: Header, ifaces: seq<seq<Line>>, pdps: seq<seq<Line>>, ues: seq<seq<Line>>) {
    && FoundAt(json, IFACES, InteriorStart(HeaderLines(h), IFACES), |ArrayInterior(ifaces)|)
    && FoundAt(json, PDPS, InteriorStart(BeforePdps(h, ifaces), PDPS), |ArrayInterior(pdps)|)
    && FoundAt(json, UES, InteriorStart(BeforeUes(h, ifaces, pdps), UES), |ArrayInterior(ues)|)
  }

  /** The document's three arrays are found where they were printed exactly when all can be located. */
  lemma ArraysFoundIffLocatable(h: Header, ifaces: seq<seq<Line>>, pdps: seq<seq<Line>>, ues: seq<seq<Line>>)
    requires Records(ifaces) && Records(pdps) && Records(ues) && WellNamed(ifaces, pdps)
    ensures AllFound(Document(h, ifaces, pdps, ues), h, ifaces, pdps, ues) <==> AllLocatable(h, ifaces, pdps)
  {
    var third := ",\n" + ArrayText(UES, ues, CLOSE);
    var second := ",\n" + ArrayText(PDPS, pdps, third);
    DocumentAround(h, ifaces, pdps, ues);
    ArrayNames();
    BeforeIsNamed(h, ifaces, pdps);
    ArrayFoundIffLocatable(HeaderLines(h), IFACES, ifaces, second);
    ArrayFoundIffLocatable(BeforePdps(h, ifaces), PDPS, pdps, third);
    ArrayFoundIffLocatable(BeforeUes(h, ifaces, pdps), UES, ues, CLOSE);
  }

  /** The objects of the array under a key, as the loader cuts them out. */
  function ObjectsUnder(json: string, key: string): Option<seq<string>> {
    match ArrayBounds(json, key)
    case None => None
    case Some((from, to)) =>
      BoundsAreOrdered(json, key);
      Some(Objects(json[from..to], 0, Outside, 0, None))
  }

  lemma BoundsAreOrdered(json: string, key: string)
    ensures ArrayBounds(json, key).Some? ==>
              var (from, to) := ArrayBounds(json, key).value; from <= to <= |json|
  {
    if ArrayBounds(json, key).Some? {
      var k := Find(json, Quoted(key)).value;
      var b := FindFrom(json, "[", k + |Quoted(key)|).value;
      FoundOccurs(json, "[", k + |Quoted(key)|);
      assert json[b] == json[b..b + 1][0] == '[';
      ClosingFound(json, b + 1, Outside, 1);
    }
  }

  lemma {:induction false} FoundOccurs(text: string, token: string, from: nat)
    ensures FindFrom(text, token, from).Some? ==> OccursAt(text, token, FindFrom(text, token, from).value)
    decreases |text| - from
  {
    if from + |token| <= |text| && !OccursAt(text, token, from) {
      FoundOccurs(text, token, from + 1);
    }
  }

  /** An array found where it was printed yields its objects in order. */
  lemma FoundObjects(before: seq<Line>, key: string, objs: seq<seq<Line>>, rest: string)
    requires Records(objs)
    requires FoundAt(AroundArray(before, key, objs, rest), key, InteriorStart(before, key), |ArrayInterior(objs)|)
    ensures ObjectsUnder(AroundArray(before, key, objs, rest), key) == Some(ObjectTexts(objs))
  {
    var json, start, interior := AroundArray(before, key, objs, rest), InteriorStart(before, key), ArrayInterior(objs);
    assert start + |interior| <= |json| && json[start..start + |interior|] == interior by {
      InteriorStands(before, key, objs, rest);
    }
    SplitsArray(objs);
    FoundTexts(json, key, start, interior, ObjectTexts(objs));
  }

  lemma FoundTexts(json: string, key: string, start: nat, interior: string, texts: seq<string>)
    requires FoundAt(json, key, start, |interior|)
    requires start + |interior| <= |json| && json[start..start + |interior|] == interior
    requires Objects(interior, 0, Outside, 0, None) == texts
    ensures ObjectsUnder(json, key) == Some(texts)
  {
  }

  /** The loader sees exactly the header, and the objects of each array in order. */
  lemma DocumentIsRead(h: Header, ifaces: seq<seq<Line>>, pdps: seq<seq<Line>>, ues: seq<seq<Line>>)
    requires Decodable(h.savedAt)
    requires Records(ifaces) && Records(pdps) && Records(ues) && WellNamed(ifaces, pdps)
    requires AllLocatable(h, ifaces, pdps)
    ensures var doc := Document(h, ifaces, pdps, ues);
            && UintField(doc, "schema_version") == Some(2)
            && StringField(doc, "saved_at") == Some(h.savedAt)
            && StringField(doc, "cli_endpoint") == Some(Unescape(Escape(h.cliEndpoint)))
            && StringField(doc, "status") == Some(Unescape(Escape(h.status)))
            && RawValue(doc, "interface_admin_state_count") == Some(Decimal(h.ifaceCount))
            && ObjectsUnder(doc, "interface_admin_state") == Some(ObjectTexts(ifaces))
            && ObjectsUnder(doc, "pdp_contexts") == Some(ObjectTexts(pdps))
            && ObjectsUnder(doc, "ue_contexts") == Some(ObjectTexts(ues))
  {
    var third := ",\n" + ArrayText(UES, ues, CLOSE);
    var second := ",\n" + ArrayText(PDPS, pdps, third);
    HeaderIsRead(h, ArrayText(IFACES, ifaces, second));
    DocumentAround(h, ifaces, pdps, ues);
    ArraysFoundIffLocatable(h, ifaces, pdps, ues);
    FoundObjects(HeaderLines(h), IFACES, ifaces, second);
    FoundObjects(BeforePdps(h, ifaces), PDPS, pdps, third);
    FoundObjects(BeforeUes(h, ifaces, pdps), UES, ues, CLOSE);
  }
}
