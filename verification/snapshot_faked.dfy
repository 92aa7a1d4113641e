/**
  Texts that look like an array's name and mislead the loader: in the header, where they make it read the
  interface array for another one, and among the access point names, where they make it read nothing.
 */
module SnapshotFaked {
  import opened Bytes
  import opened Texts
  import opened JsonText
  import opened JsonScan
  import opened JsonLines
  import opened JsonObjects
  import opened JsonArrays
  import opened JsonFaked
  import opened RuntimeStates
  import opened SnapshotNames
  import opened SnapshotPrint
  import opened SnapshotRecords
  import opened SnapshotDocument
  import opened Snapshot
  import opened PdpTexts
  import opened SnapshotLocate

  // ----- the first array after a fake is read instead -----

  /** The objects read are those of the array after the fake. */
  lemma FakeMisleads(json: string, before: seq<Line>, l: Line, after: seq<Line>, key: string, own: string,
                     objs: seq<seq<Line>>, rest: string)
    requires json == AfterFake(before, l, after, own, objs, rest)
    requires Name(key) && AllFree(before, key) && Named(l, key) && FakeLine(l, key)
    requires '[' !in Between(l, after, own) && Records(objs)
    ensures ObjectsUnder(json, key) == Some(ObjectTexts(objs))
  {
    FreeMeansHidden(before, key);
    var start := |Lines(before)| + ValueEnd(l) + |Between(l, after, own)| + 1;
    FoundAfterFake(json, before, l, after, key, own, objs, rest, start);
    InteriorAfterFake(json, before, l, after, key, own, objs, rest, start);
    SplitsArray(objs);
    FoundTexts(json, key, start, ArrayInterior(objs), ObjectTexts(objs));
  }

  lemma InteriorAfterFake(json: string, before: seq<Line>, l: Line, after: seq<Line>, key: string, own: string,
                          objs: seq<seq<Line>>, rest: string, start: nat)
    requires json == AfterFake(before, l, after, own, objs, rest)
    requires Name(key) && Named(l, key) && FakeLine(l, key) && '[' !in Between(l, after, own) && Records(objs)
    requires start == |Lines(before)| + ValueEnd(l) + |Between(l, after, own)| + 1
    ensures start + |ArrayInterior(objs)| <= |json| && json[start..start + |ArrayInterior(objs)|] == ArrayInterior(objs)
  {
    var front, gap, interior := FakePieces(before, l, after, key, own, objs, rest);
    InteriorAt(json, front, gap, interior, rest, start);
  }

  lemma InteriorAt(json: string, front: string, gap: string, interior: string, rest: string, start: nat)
    requires json == front + (gap + "[" + (interior + ("]" + rest))) && start == |front| + |gap| + 1
    ensures start + |interior| <= |json| && json[start..start + |interior|] == interior
  {
    GapPieces(json, front, gap, interior, rest);
  }

  lemma FirstFakeMisleads(before: seq<Line>, key: string, own: string, objs: seq<seq<Line>>, rest: string)
    requires Name(key) && Name(own) && AllNamed(before, key) && Records(objs)
    requires Locatable(before, key) && FirstFake(before, key).Some?
    ensures ObjectsUnder(Lines(before) + ArrayText(own, objs, rest), key) == Some(ObjectTexts(objs))
  {
    var i := FirstFake(before, key).value;
    NoBracketAfter(before, i, key, own);
    SplitAt(before, i, ArrayText(own, objs, rest));
    FakeMisleads(Lines(before) + ArrayText(own, objs, rest), before[..i], before[i], before[i + 1..], key, own, objs,
                 rest);
  }

  // ----- fakes in the header -----

  /**
    When the CLI endpoint or the status looks like the name of the PDP or UE array, and no later header text
    holds a bracket, the loader reads the interface entries as that array.
   */
  lemma FakedHeaderMisleads(s: Setting, t: Tables, key: string)
    requires Faithful(s.clock) && key in {PDPS, UES}
    requires !NoneFakes([s.cliEndpoint, s.status], key) && InOrder([s.cliEndpoint, s.status], key)
    ensures ObjectsUnder(Render(s, t), key) == Some(ObjectTexts(IfaceObjects(t.ifaces)))
  {
    var ls := HeaderLines(HeaderOf(s, |t.ifaces|));
    ArrayNames();
    HeaderLinesNamed(HeaderOf(s, |t.ifaces|), key);
    HeaderSight(s, |t.ifaces|, key);
    LocatableIsClear(ls, key);
    TextsSightMeans([s.cliEndpoint, s.status], key);
    assert FakeLine(ls[4], key) <==> Fakes(s.cliEndpoint, key);
    assert FakeLine(ls[5], key) <==> Fakes(s.status, key);
    assert [s.cliEndpoint, s.status][0] == s.cliEndpoint && [s.cliEndpoint, s.status][1] == s.status;
    ObjectsAreRecords(s, t);
    FirstFakeMisleads(ls, key, IFACES, IfaceObjects(t.ifaces), ",\n" + ArrayText(PDPS, PdpObjects(t.pdps, s.clock),
                      ",\n" + ArrayText(UES, UeObjects(t.ues, s.clock), CLOSE)));
  }

  /** With no interface saved, whatever PDP contexts were saved are silently dropped. */
  lemma FakedHeaderDropsPdps(s: Setting, t: Tables)
    requires Faithful(s.clock) && t.ifaces == []
    requires !NoneFakes([s.cliEndpoint, s.status], PDPS) && InOrder([s.cliEndpoint, s.status], PDPS)
    ensures LoadPdps(Render(s, t), s.clock) == Ok([])
  {
    FakedHeaderMisleads(s, t, PDPS);
    assert ObjectTexts(IfaceObjects([])) == [];
  }

  lemma FirstObjectFails<T(!new)>(objs: seq<string>, read: Reader -> Result<T, LoadError>, e: LoadError)
    requires objs != [] && read(ReaderOf(objs[0])) == Err(e)
    ensures Gather(objs, read) == Err(e)
  {
  }

  lemma LoadFails(json: string, valid: set<string>, clock: Clock)
    requires LoadPdps(json, clock).Err? || LoadUes(json, clock).Err?
    ensures LoadTables(json, valid, clock).Err?
  {
  }

  /** With some interface saved, its entry is no PDP context, and the load fails. */
  lemma FakedHeaderFailsPdps(s: Setting, t: Tables, valid: set<string>)
    requires Faithful(s.clock) && t.ifaces != []
    requires !NoneFakes([s.cliEndpoint, s.status], PDPS) && InOrder([s.cliEndpoint, s.status], PDPS)
    ensures LoadPdps(Render(s, t), s.clock) == Err(PdpWithoutTeid) && LoadTables(Render(s, t), valid, s.clock).Err?
  {
    FakedHeaderMisleads(s, t, PDPS);
    IfaceIsNoContext(t.ifaces[0].0, t.ifaces[0].1, s.clock);
    FirstObjectFails(ObjectTexts(IfaceObjects(t.ifaces)), ReadPdpWith(s.clock), PdpWithoutTeid);
    LoadFails(Render(s, t), valid, s.clock);
  }

  /** Nor is it a UE context. */
  lemma FakedHeaderFailsUes(s: Setting, t: Tables, valid: set<string>)
    requires Faithful(s.clock) && t.ifaces != []
    requires !NoneFakes([s.cliEndpoint, s.status], UES) && InOrder([s.cliEndpoint, s.status], UES)
    ensures LoadUes(Render(s, t), s.clock) == Err(UeWithoutImsi) && LoadTables(Render(s, t), valid, s.clock).Err?
  {
    FakedHeaderMisleads(s, t, UES);
    IfaceIsNoContext(t.ifaces[0].0, t.ifaces[0].1, s.clock);
    FirstObjectFails(ObjectTexts(IfaceObjects(t.ifaces)), ReadUeWith(s.clock), UeWithoutImsi);
    LoadFails(Render(s, t), valid, s.clock);
  }

  /** `getStatus`: the settings `mcc` and `mnc` close it. */
  function Status(mme: string, sgsn: string, mcc: string, mnc: string): string {
    "MME: " + mme + " | SGSN: " + sgsn + " | PLMN: " + mcc + "-" + mnc
  }

  /** An `mnc` that ends in a quote and the name, such as `01"pdp_contexts`, is such a status. */
  lemma NetworkCodeFakes(mme: string, sgsn: string, mcc: string, mnc: string, key: string)
    requires EndsWith(mnc, "\"" + key)
    ensures Fakes(Status(mme, sgsn, mcc, mnc), key)
  {
    var front := "MME: " + mme + " | SGSN: " + sgsn + " | PLMN: " + mcc + "-";
    assert Status(mme, sgsn, mcc, mnc) == front + mnc;
  }

  lemma NetworkCodeDropsPdps(s: Setting, t: Tables, mme: string, sgsn: string, mcc: string, mnc: string)
    requires Faithful(s.clock) && t.ifaces == []
    requires s.status == Status(mme, sgsn, mcc, mnc) && EndsWith(mnc, "\"" + PDPS) && !Fakes(s.cliEndpoint, PDPS)
    ensures LoadPdps(Render(s, t), s.clock) == Ok([])
  {
    NetworkCodeFakes(mme, sgsn, mcc, mnc, PDPS);
    assert [s.cliEndpoint, s.status][1] == s.status;
    FakedHeaderDropsPdps(s, t);
  }

  /** So is a CLI socket in the working directory that bears the array's name. */
  lemma SocketNameDropsPdps(s: Setting, t: Tables)
    requires Faithful(s.clock) && t.ifaces == [] && s.cliEndpoint == PDPS && '[' !in s.status
    ensures LoadPdps(Render(s, t), s.clock) == Ok([])
  {
    assert [s.cliEndpoint, s.status][0] == PDPS;
    FakedHeaderDropsPdps(s, t);
  }

  // ----- a pair of brackets after a fake -----

  /** The line holds an opening and a closing bracket side by side, and no bracket before them. */
  ghost predicate ShowsPair(body: string, a: string, b: string) {
    body == a + "[]" + b && '[' !in a
  }

  /** From the first fake to the first pair of brackets after it: the loader takes the pair for an empty array. */
  lemma PairIsFound(json: string, before: seq<Line>, l: Line, mid: seq<Line>, a: string, b: string, after: string,
                    key: string)
    requires json == Lines(before) + (Body(l) + "\n" + (Lines(mid) + ((a + "[]" + b) + "\n" + after)))
    requires Name(key) && Hidden(before, Quoted(key)) && Named(l, key) && FakeLine(l, key)
    requires '[' !in Lines(mid) && '[' !in a
    ensures ObjectsUnder(json, key) == Some([])
  {
    FakeShows(l, key);
    var p := FakeFound(json, before, l, Lines(mid) + ((a + "[]" + b) + "\n" + after), key);
    PairText(json, Lines(before), Body(l), ValueEnd(l), CommaText(l.comma), Lines(mid), a, b, after);
    EmptyAfterGap(json, key, p, UpToFake(before, l), CommaText(l.comma) + "\n" + Lines(mid) + a, b + "\n" + after);
  }

  lemma EmptyAfterGap(json: string, key: string, p: nat, front: string, gap: string, rest: string)
    requires Find(json, Quoted(key)) == Some(p) && |front| == p + |Quoted(key)|
    requires json == front + (gap + "[" + ("" + ("]" + rest))) && '[' !in gap
    ensures ObjectsUnder(json, key) == Some([])
  {
    var start := |front| + |gap| + 1;
    FoundAfterGap(json, key, p, front, gap, "", rest, start);
    assert Objects("", 0, Outside, 0, None) == [];
    FoundTexts(json, key, start, "", []);
  }

  lemma PairAfterFake(ls: seq<Line>, i: nat, j: nat, key: string, tail: string, a: string, b: string)
    requires Name(key) && AllNamed(ls, key) && FirstFake(ls, key) == Some(i) && i < j < |ls|
    requires (forall k :: i < k < j ==> '[' !in Body(ls[k])) && ShowsPair(Body(ls[j]), a, b)
    ensures ObjectsUnder(Lines(ls) + tail, key) == Some([])
  {
    var mid := ls[i + 1..j];
    assert Hidden(ls[..i], Quoted(key)) by {
      FreeMeansHidden(ls[..i], key);
    }
    assert '[' !in Lines(mid) by {
      LinesWithoutBracket(mid);
    }
    SplitTwice(ls, i, j, tail);
    PairIsFound(Lines(ls) + tail, ls[..i], ls[i], mid, a, b, Lines(ls[j + 1..]) + tail, key);
  }

  lemma SplitTwice(ls: seq<Line>, i: nat, j: nat, tail: string)
    requires i < j < |ls|
    ensures Lines(ls) + tail
         == Lines(ls[..i])
          + (Body(ls[i]) + "\n" + (Lines(ls[i + 1..j]) + (Body(ls[j]) + "\n" + (Lines(ls[j + 1..]) + tail))))
  {
    var rest := ls[i + 1..];
    SplitAt(ls, i, tail);
    SplitAt(rest, j - i - 1, tail);
    assert rest[..j - i - 1] == ls[i + 1..j] && rest[j - i..] == ls[j + 1..];
  }

  lemma PairText(json: string, front: string, body: string, n: nat, comma: string, mid: string, a: string, b: string,
                 after: string)
    requires n <= |body| && body == body[..n] + comma
    requires json == front + (body + "\n" + (mid + ((a + "[]" + b) + "\n" + after)))
    ensures json == front + body[..n] + ((comma + "\n" + mid + a) + "[" + ("" + ("]" + (b + "\n" + after))))
  {
    assert (a + "[]" + b) + "\n" + after == a + ("[" + ("]" + (b + "\n" + after)));
    assert body + "\n" == body[..n] + (comma + "\n");
  }

  // ----- fakes among the access point names -----

  /** Two contexts whose access point names together hide what follows them. */
  predicate HidingPair(pdps: seq<PdpContext>) {
    |pdps| == 2 && PlainPdp(pdps[0]) && PlainPdp(pdps[1]) && pdps[0].apn == UES && pdps[1].apn == "[]"
  }

  lemma PairIsOutOfOrder(pdps: seq<PdpContext>)
    requires HidingPair(pdps)
    ensures !InOrder(Apns(pdps), UES)
  {
    var c, d := pdps[0], pdps[1];
    assert pdps[1..][1..] == [];
    assert Apns(pdps) == [c.apn] + Apns(pdps[1..]);
    assert Apns(pdps)[0] == UES && Apns(pdps)[1] == "[]";
    assert "[]"[0] == '[';
  }

  lemma PairCannotBeLocated(s: Setting, t: Tables)
    requires Faithful(s.clock) && HidingPair(t.pdps)
    ensures !CanLocate(s, t)
  {
    PairIsOutOfOrder(t.pdps);
    CanLocateIffApnsInOrder(s, t);
  }

  /** The lines of the PDP array: its name, then each object between two bracket lines. */
  lemma PairRows(o: seq<Line>, u: seq<Line>)
    requires |o| == |u| == PDP_FIELDS
    ensures ArrayRows(PDPS, [o, u])
         == [ArrayLine(PDPS)] + (ObjectRows(o, true) + ObjectRows(u, false)) + [Plain("  ],")]
  {
    var objs := [o, u];
    assert objs[1..] == [u];
    assert InteriorRows([u]) == ObjectRows(u, false);
    assert InteriorRows(objs) == ObjectRows(objs[0], true) + InteriorRows(objs[1..]);
  }

  lemma PairRowsAt(o: seq<Line>, u: seq<Line>, rows: seq<Line>)
    requires |o| == |u| == PDP_FIELDS && rows == ArrayRows(PDPS, [o, u])
    ensures |rows| == 26 && rows[0] == ArrayLine(PDPS) && rows[1].Plain?
    ensures rows[12] == Plain("    },") && rows[13] == Plain("    {")
    ensures forall k :: 0 <= k < PDP_FIELDS ==> rows[2 + k] == o[k]
    ensures forall k :: 0 <= k < PDP_FIELDS ==> rows[14 + k] == u[k]
  {
    PairRows(o, u);
    RowOfObject(o, true);
    RowOfObject(u, false);
    var first, second := ObjectRows(o, true), ObjectRows(u, false);
    assert forall k :: 0 <= k < 12 ==> rows[1 + k] == first[k];
    assert forall k :: 0 <= k < 12 ==> rows[13 + k] == second[k];
  }

  lemma RowOfObject(o: seq<Line>, comma: bool)
    requires |o| == PDP_FIELDS
    ensures |ObjectRows(o, comma)| == 12
    ensures forall k :: 0 <= k < PDP_FIELDS ==> ObjectRows(o, comma)[1 + k] == o[k]
  {
  }

  lemma PdpLine(c: PdpContext, clock: Clock, k: nat)
    requires k < PDP_FIELDS
    ensures var l := PdpFields(c, clock)[k];
            WellFormed(l) && l.Field? && l.value == PdpValues(c, clock)[k] && !l.value.Open?
  {
    PdpNamesAreGood();
  }

  /** Of a context's texts only the APN can fake a name or hold a bracket. */
  lemma OnlyApnTextShows(c: PdpContext, clock: Clock, k: nat)
    requires Faithful(clock) && PlainPdp(c) && 5 <= k < PDP_FIELDS && k != 8
    ensures var v := PdpValues(c, clock)[k]; v.Text? && !Fakes(v.text, UES) && '[' !in v.text
  {
    if k == 9 {
      StampIsNoName(clock, c.updatedAt);
      StampHasNoBracket(clock, c.updatedAt);
    } else {
      var text := PdpValues(c, clock)[k].text;
      assert AddressText(text);
      FakeEnding(text);
    }
  }

  lemma OnlyApnLineShows(c: PdpContext, clock: Clock, k: nat)
    requires Faithful(clock) && PlainPdp(c) && k < PDP_FIELDS && k != 8
    ensures !FakeLine(PdpFields(c, clock)[k], UES) && '[' !in Body(PdpFields(c, clock)[k])
  {
    PdpLine(c, clock, k);
    BracketInField(PdpFields(c, clock)[k]);
    if k < 5 {
      assert !PdpValues(c, clock)[k].Text?;
    } else {
      OnlyApnTextShows(c, clock, k);
    }
  }

  /** Up to the first context's APN nothing fakes, and from there to the second's nothing shows a bracket. */
  lemma PairLines(c: PdpContext, d: PdpContext, clock: Clock, rows: seq<Line>)
    requires Faithful(clock) && HidingPair([c, d])
    requires rows == ArrayRows(PDPS, [PdpFields(c, clock), PdpFields(d, clock)])
    ensures |rows| == 26
    ensures forall k :: 0 <= k < 10 ==> !FakeLine(rows[k], UES)
    ensures forall k :: 10 < k < 22 ==> '[' !in Body(rows[k])
    ensures rows[10] == PdpFields(c, clock)[8] && rows[22] == PdpFields(d, clock)[8]
  {
    assert PlainPdp([c, d][0]) && PlainPdp([c, d][1]);
    var o, u := PdpFields(c, clock), PdpFields(d, clock);
    PdpNamesAreGood();
    PairRowsAt(o, u, rows);
    forall k | 0 <= k < 10
      ensures !FakeLine(rows[k], UES)
    {
      if k >= 2 {
        OnlyApnLineShows(c, clock, k - 2);
        assert rows[k] == o[k - 2];
      }
    }
    forall k | 10 < k < 22
      ensures '[' !in Body(rows[k])
    {
      if k == 11 {
        OnlyApnLineShows(c, clock, 9);
      } else if k >= 14 {
        OnlyApnLineShows(d, clock, k - 14);
        assert rows[k] == u[k - 14];
      }
    }
  }

  lemma ApnLineFakes(c: PdpContext, clock: Clock)
    requires c.apn == UES
    ensures FakeLine(PdpFields(c, clock)[8], UES)
  {
    PdpLine(c, clock, 8);
  }

  lemma ApnLineShowsPair(c: PdpContext, clock: Clock) returns (a: string, b: string)
    requires c.apn == "[]"
    ensures ShowsPair(Body(PdpFields(c, clock)[8]), a, b)
  {
    PdpLine(c, clock, 8);
    var l := PdpFields(c, clock)[8];
    a, b := l.indent + ("\"" + l.name + "\"") + ": " + "\"", "\"" + (if l.comma then "," else "");
    NameHasNoBracket(l.name);
    assert '[' !in l.indent;
    BracketsEscape();
  }

  lemma BracketsEscape()
    ensures Escape("[]") == "[]"
  {
    assert "[]"[1..] == "]" && "]"[1..] == "";
    assert Escape("]") == EscapeChar(']') + Escape("");
  }

  lemma NoFakeBefore(s: Setting, t: Tables, k: nat)
    requires Faithful(s.clock) && SettingInOrder(s, t.ifaces)
    requires k < |BeforePdps(HeaderOf(s, |t.ifaces|), IfaceObjects(t.ifaces))|
    ensures !FakeLine(BeforePdps(HeaderOf(s, |t.ifaces|), IfaceObjects(t.ifaces))[k], UES)
  {
    var ls := BeforePdps(HeaderOf(s, |t.ifaces|), IfaceObjects(t.ifaces));
    BeforePdpsSight(s, t, UES);
    TextsSightMeans([s.cliEndpoint, s.status], UES);
    TextsSightMeans(NamesOf(t.ifaces), UES);
    SummaryMeans(LineMarks(ls, UES));
    assert LineMarks(ls, UES)[k] == Mark(FakeLine(ls[k], UES), '[' in Body(ls[k]));
  }

  lemma FirstFakeIs(ls: seq<Line>, i: nat, key: string)
    requires i < |ls| && FakeLine(ls[i], key) && forall k :: 0 <= k < i ==> !FakeLine(ls[k], key)
    ensures FirstFake(ls, key) == Some(i)
  {
  }

  /** The lines before the UE array are those before the PDP array and those of the pair. */
  lemma PairHides(front: seq<Line>, rows: seq<Line>, c: PdpContext, d: PdpContext, clock: Clock, tail: string)
    requires Faithful(clock) && HidingPair([c, d])
    requires rows == ArrayRows(PDPS, [PdpFields(c, clock), PdpFields(d, clock)])
    requires AllNamed(front + rows, UES) && forall k :: 0 <= k < |front| ==> !FakeLine(front[k], UES)
    ensures ObjectsUnder(Lines(front + rows) + tail, UES) == Some([])
  {
    var ls, n := front + rows, |front|;
    ArrayNames();
    assert [c, d][0] == c && [c, d][1] == d;
    PairLines(c, d, clock, rows);
    ApnLineFakes(c, clock);
    var a, b := ApnLineShowsPair(d, clock);
    assert forall k :: 0 <= k < 26 ==> ls[n + k] == rows[k];
    assert forall k :: n <= k < n + 26 ==> ls[k] == rows[k - n];
    FirstFakeIs(ls, n + 10, UES);
    PairAfterFake(ls, n + 10, n + 22, UES, tail, a, b);
  }

  lemma NothingFakedBefore(s: Setting, t: Tables)
    requires Faithful(s.clock) && SettingInOrder(s, t.ifaces)
    ensures var front := BeforePdps(HeaderOf(s, |t.ifaces|), IfaceObjects(t.ifaces));
            forall k :: 0 <= k < |front| ==> !FakeLine(front[k], UES)
  {
    var front := BeforePdps(HeaderOf(s, |t.ifaces|), IfaceObjects(t.ifaces));
    forall k | 0 <= k < |front|
      ensures !FakeLine(front[k], UES)
    {
      NoFakeBefore(s, t, k);
    }
  }

  lemma BeforeUesIsNamed(s: Setting, t: Tables)
    ensures AllNamed(BeforeUes(HeaderOf(s, |t.ifaces|), IfaceObjects(t.ifaces), PdpObjects(t.pdps, s.clock)), UES)
  {
    TablesAreWellNamed(s, t);
    BeforeIsNamed(HeaderOf(s, |t.ifaces|), IfaceObjects(t.ifaces), PdpObjects(t.pdps, s.clock));
  }

  lemma HiddenBehindPair(s: Setting, t: Tables, c: PdpContext, d: PdpContext)
    requires Faithful(s.clock) && SettingInOrder(s, t.ifaces) && HidingPair([c, d]) && t.pdps == [c, d]
    ensures ObjectsUnder(Render(s, t), UES) == Some([])
  {
    var h, ifaces, pdps := HeaderOf(s, |t.ifaces|), IfaceObjects(t.ifaces), PdpObjects(t.pdps, s.clock);
    BeforeUesIsNamed(s, t);
    NothingFakedBefore(s, t);
    PairObjects(t.pdps, s.clock);
    PairHides(BeforePdps(h, ifaces), ArrayRows(PDPS, pdps), c, d, s.clock,
              ArrayText(UES, UeObjects(t.ues, s.clock), CLOSE));
    DocumentAround(h, ifaces, pdps, UeObjects(t.ues, s.clock));
  }

  /**
    A first context whose APN is `ue_contexts` and a second whose APN is `[]` hide the UE array: whatever UE
    contexts were saved, the loader reads none and reports no error.
   */
  lemma ApnsHideUes(s: Setting, t: Tables)
    requires Faithful(s.clock) && SettingInOrder(s, t.ifaces) && HidingPair(t.pdps)
    ensures !CanLocate(s, t) && LoadUes(Render(s, t), s.clock) == Ok([])
  {
    PairCannotBeLocated(s, t);
    assert t.pdps == [t.pdps[0], t.pdps[1]];
    HiddenBehindPair(s, t, t.pdps[0], t.pdps[1]);
  }

  lemma PairObjects(pdps: seq<PdpContext>, clock: Clock)
    requires |pdps| == 2
    ensures PdpObjects(pdps, clock) == [PdpFields(pdps[0], clock), PdpFields(pdps[1], clock)]
  {
  }

  /** The rest of the snapshot loads as saved: the UE contexts vanish from an otherwise successful load. */
  lemma UesVanish(s: Setting, t: Tables, valid: set<string>)
    requires Faithful(s.clock) && SettingInOrder(s, t.ifaces) && HidingPair(t.pdps)
    requires (forall e | e in t.ifaces :: IfaceAccepted(e, valid)) && forall c | c in t.pdps :: PdpLoads(c)
    ensures LoadTables(Render(s, t), valid, s.clock) == Ok(t.(ues := []))
  {
    ApnsHideUes(s, t);
    FrontIsRead(s, t);
    IfacesGather(t.ifaces, valid);
    PdpsGather(t.pdps, s.clock);
    LoadedFrom(Render(s, t), t.(ues := []), valid, s.clock);
  }

  /** The header and the first two arrays do not depend on what stands in the UE array's way. */
  lemma FrontIsRead(s: Setting, t: Tables)
    requires Faithful(s.clock) && SettingInOrder(s, t.ifaces)
    ensures var json := Render(s, t);
            && CheckHeader(json, s.clock) == None
            && ObjectsUnder(json, IFACES) == Some(ObjectTexts(IfaceObjects(t.ifaces)))
            && ObjectsUnder(json, PDPS) == Some(ObjectTexts(PdpObjects(t.pdps, s.clock)))
  {
    var h, ifaces, pdps, ues :=
      HeaderOf(s, |t.ifaces|), IfaceObjects(t.ifaces), PdpObjects(t.pdps, s.clock), UeObjects(t.ues, s.clock);
    var third := ",\n" + ArrayText(UES, ues, CLOSE);
    var second := ",\n" + ArrayText(PDPS, pdps, third);
    FrontIsLocatable(s, t);
    TablesAreWellNamed(s, t);
    ObjectsAreRecords(s, t);
    StampRoundTrip(s.clock, s.now);
    HeaderIsRead(h, ArrayText(IFACES, ifaces, second));
    HeaderPasses(Render(s, t), s);
    DocumentAround(h, ifaces, pdps, ues);
    ArrayNames();
    BeforeIsNamed(h, ifaces, pdps);
    LocatableIsFound(HeaderLines(h), IFACES, ifaces, second);
    FoundObjects(HeaderLines(h), IFACES, ifaces, second);
    LocatableIsFound(BeforePdps(h, ifaces), PDPS, pdps, third);
    FoundObjects(BeforePdps(h, ifaces), PDPS, pdps, third);
  }

  lemma FrontIsLocatable(s: Setting, t: Tables)
    requires Faithful(s.clock) && SettingInOrder(s, t.ifaces)
    ensures Locatable(HeaderLines(HeaderOf(s, |t.ifaces|)), IFACES)
    ensures Locatable(BeforePdps(HeaderOf(s, |t.ifaces|), IfaceObjects(t.ifaces)), PDPS)
  {
    CanLocateIffInOrder(s, t.(pdps := []));
    assert InOrder(PdpTextsOf([]), UES);
  }
}
