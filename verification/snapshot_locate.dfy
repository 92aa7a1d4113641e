/** When the loader finds the three arrays of a snapshot, in terms of the texts the snapshot was saved from. */
module SnapshotLocate {
  import opened Texts
  import opened JsonText
  import opened JsonLines
  import opened JsonObjects
  import opened JsonArrays
  import opened JsonFaked
  import opened RuntimeStates
  import opened SnapshotNames
  import opened SnapshotPrint
  import opened SnapshotDocument
  import opened Snapshot
  import opened PdpTexts

  // ----- what a line or a text shows -----

  /** Whether something looks like a name, and whether it holds an opening bracket. */
  datatype Mark = Mark(fakes: bool, brackets: bool)

  /** The same of a whole list, and whether no bracket follows a fake in it. */
  datatype Sight = Sight(clear: bool, fakes: bool, brackets: bool)

  const NOTHING_SEEN: Sight := Sight(true, false, false)

  function Join(a: Sight, b: Sight): Sight {
    Sight(a.clear && b.clear && !(a.fakes && b.brackets), a.fakes || b.fakes, a.brackets || b.brackets)
  }

  function Summary(ms: seq<Mark>): Sight {
    if ms == [] then NOTHING_SEEN else Join(Sight(true, ms[0].fakes, ms[0].brackets), Summary(ms[1..]))
  }

  predicate SomeFakes(ms: seq<Mark>) {
    exists i :: 0 <= i < |ms| && ms[i].fakes
  }

  predicate SomeBrackets(ms: seq<Mark>) {
    exists i :: 0 <= i < |ms| && ms[i].brackets
  }

  predicate NoBracketAfterFake(ms: seq<Mark>) {
    forall i, j :: 0 <= i < j < |ms| && ms[i].fakes ==> !ms[j].brackets
  }

  lemma {:induction false} SummaryMeans(ms: seq<Mark>)
    ensures Summary(ms) == Sight(NoBracketAfterFake(ms), SomeFakes(ms), SomeBrackets(ms))
  {
    if ms != [] {
      SummaryMeans(ms[1..]);
      assert forall i :: 0 < i < |ms| ==> ms[i] == ms[1..][i - 1];
      SplitMarks(ms);
    }
  }

  lemma SplitMarks(ms: seq<Mark>)
    requires ms != []
    ensures SomeFakes(ms) <==> ms[0].fakes || SomeFakes(ms[1..])
    ensures SomeBrackets(ms) <==> ms[0].brackets || SomeBrackets(ms[1..])
    ensures NoBracketAfterFake(ms) <==> NoBracketAfterFake(ms[1..]) && !(ms[0].fakes && SomeBrackets(ms[1..]))
  {
    var rest := ms[1..];
    assert forall i :: 0 < i < |ms| ==> ms[i] == rest[i - 1];
    assert forall i :: 0 <= i < |rest| ==> rest[i] == ms[i + 1];
  }

  lemma {:induction false} SummaryConcat(a: seq<Mark>, b: seq<Mark>)
    ensures Summary(a + b) == Join(Summary(a), Summary(b))
  {
    if a == [] {
      assert a + b == b;
    } else {
      SummaryConcat(a[1..], b);
      assert (a + b)[1..] == a[1..] + b;
    }
  }

  function LineMarks(ls: seq<Line>, key: string): seq<Mark> {
    seq(|ls|, i requires 0 <= i < |ls| => Mark(FakeLine(ls[i], key), '[' in Body(ls[i])))
  }

  function LinesSight(ls: seq<Line>, key: string): Sight {
    Summary(LineMarks(ls, key))
  }

  function TextMarks(ts: seq<string>, key: string): seq<Mark> {
    seq(|ts|, i requires 0 <= i < |ts| => Mark(Fakes(ts[i], key), '[' in ts[i]))
  }

  function TextsSight(ts: seq<string>, key: string): Sight {
    Summary(TextMarks(ts, key))
  }

  lemma MarksConcat(a: seq<Line>, b: seq<Line>, key: string)
    ensures LineMarks(a + b, key) == LineMarks(a, key) + LineMarks(b, key)
  {
  }

  lemma LinesConcat(a: seq<Line>, b: seq<Line>, key: string)
    ensures LinesSight(a + b, key) == Join(LinesSight(a, key), LinesSight(b, key))
  {
    MarksConcat(a, b, key);
    SummaryConcat(LineMarks(a, key), LineMarks(b, key));
  }

  lemma TextsConcat(a: seq<string>, b: seq<string>, key: string)
    ensures TextsSight(a + b, key) == Join(TextsSight(a, key), TextsSight(b, key))
  {
    assert TextMarks(a + b, key) == TextMarks(a, key) + TextMarks(b, key);
    SummaryConcat(TextMarks(a, key), TextMarks(b, key));
  }

  lemma LocatableIsClear(ls: seq<Line>, key: string)
    ensures Locatable(ls, key) <==> LinesSight(ls, key).clear
  {
    SummaryMeans(LineMarks(ls, key));
    var ms := LineMarks(ls, key);
    assert forall i :: 0 <= i < |ls| ==> ms[i] == Mark(FakeLine(ls[i], key), '[' in Body(ls[i]));
  }

  // ----- texts in order -----

  predicate NoneFakes(ts: seq<string>, key: string) {
    forall i :: 0 <= i < |ts| ==> !Fakes(ts[i], key)
  }

  /** No text that looks like the name is followed by one that holds an opening bracket. */
  predicate InOrder(ts: seq<string>, key: string) {
    forall i, j :: 0 <= i < j < |ts| && Fakes(ts[i], key) ==> '[' !in ts[j]
  }

  lemma TextsSightMeans(ts: seq<string>, key: string)
    ensures TextsSight(ts, key).clear <==> InOrder(ts, key)
    ensures !TextsSight(ts, key).fakes <==> NoneFakes(ts, key)
  {
    SummaryMeans(TextMarks(ts, key));
    var ms := TextMarks(ts, key);
    assert forall i :: 0 <= i < |ts| ==> ms[i] == Mark(Fakes(ts[i], key), '[' in ts[i]);
  }

  // ----- one line -----

  lemma {:induction false} EscapeKeepsBrackets(s: string)
    ensures '[' in Escape(s) <==> '[' in s
  {
    if s != "" {
      EscapeKeepsBrackets(s[1..]);
      assert '[' in EscapeChar(s[0]) <==> s[0] == '[';
      assert s == [s[0]] + s[1..];
    }
  }

  lemma BracketInValue(v: Value)
    requires !v.Open?
    ensures '[' in ValueText(v) <==> v.Text? && '[' in v.text
  {
    if v.Text? {
      EscapeKeepsBrackets(v.text);
    } else if v.Number? {
      assert AllDigits(Decimal(v.number));
    }
  }

  lemma BracketInField(l: Line)
    requires WellFormed(l) && l.Field? && !l.value.Open?
    ensures '[' in Body(l) <==> l.value.Text? && '[' in l.value.text
  {
    BracketInValue(l.value);
    NameHasNoBracket(l.name);
    assert '[' !in l.indent;
  }

  /** A line that can neither look like a name nor hold an opening bracket. */
  predicate Tame(l: Line) {
    match l
    case Plain(s) => '[' !in s
    case Field(_, _, v, _) => !v.Text? && v != Open('[')
  }

  function TextOf(l: Line): seq<string> {
    if l.Field? && l.value.Text? then [l.value.text] else []
  }

  function TextsOf(ls: seq<Line>): seq<string> {
    if ls == [] then [] else TextOf(ls[0]) + TextsOf(ls[1..])
  }

  predicate TextOrTame(ls: seq<Line>) {
    forall i :: 0 <= i < |ls| ==> WellFormed(ls[i]) && (Tame(ls[i]) || (ls[i].Field? && ls[i].value.Text?))
  }

  lemma LineShowsText(l: Line, key: string)
    requires TextOrTame([l])
    ensures LinesSight([l], key) == TextsSight(TextOf(l), key)
  {
    assert WellFormed([l][0]);
    if l.Field? && !l.value.Open? {
      BracketInField(l);
    } else if l.Field? {
      NameHasNoBracket(l.name);
      assert '[' !in l.indent;
    }
    assert LineMarks([l], key) == [Mark(FakeLine(l, key), '[' in Body(l))];
    assert LineMarks([l], key)[1..] == [];
    if l.Field? && l.value.Text? {
      assert TextMarks([l.value.text], key) == [Mark(Fakes(l.value.text, key), '[' in l.value.text)];
      assert TextMarks([l.value.text], key)[1..] == [];
    } else {
      assert TextMarks([], key) == [];
    }
  }

  /** Lines show what their texts show, in the same order. */
  lemma {:induction false} LinesShowTexts(ls: seq<Line>, key: string)
    requires TextOrTame(ls)
    ensures LinesSight(ls, key) == TextsSight(TextsOf(ls), key)
  {
    if ls == [] {
      assert LineMarks(ls, key) == TextMarks([], key) == [];
    } else {
      LineShowsText(ls[0], key);
      LinesShowTexts(ls[1..], key);
      LinesConcat([ls[0]], ls[1..], key);
      TextsConcat(TextOf(ls[0]), TextsOf(ls[1..]), key);
      assert ls == [ls[0]] + ls[1..];
    }
  }

  // ----- records -----

  lemma {:induction false} TextsOfConcat(a: seq<Line>, b: seq<Line>)
    ensures TextsOf(a + b) == TextsOf(a) + TextsOf(b)
  {
    if a == [] {
      assert a + b == b;
    } else {
      TextsOfConcat(a[1..], b);
      assert (a + b)[1..] == a[1..] + b;
      var x, y, z := TextOf(a[0]), TextsOf(a[1..]), TextsOf(b);
      assert x + (y + z) == (x + y) + z;
    }
  }

  function TextsIn(vs: seq<Value>): seq<string> {
    if vs == [] then [] else (if vs[0].Text? then [vs[0].text] else []) + TextsIn(vs[1..])
  }

  lemma {:induction false} TextsOfValues(fs: seq<Line>, vs: seq<Value>)
    requires |fs| == |vs| && forall i :: 0 <= i < |fs| ==> fs[i].Field? && fs[i].value == vs[i]
    ensures TextsOf(fs) == TextsIn(vs)
  {
    if fs != [] {
      TextsOfValues(fs[1..], vs[1..]);
    }
  }

  function TextsOfAll(objs: seq<seq<Line>>): seq<string> {
    if objs == [] then [] else TextsOf(objs[0]) + TextsOfAll(objs[1..])
  }

  lemma RowsOfObject(fs: seq<Line>, comma: bool)
    requires Record(fs)
    ensures TextOrTame(ObjectRows(fs, comma)) && TextsOf(ObjectRows(fs, comma)) == TextsOf(fs)
  {
    BetweenPlain(Plain("    {"), fs, Plain(if comma then "    }," else "    }"));
  }

  lemma BetweenPlain(first: Line, fs: seq<Line>, last: Line)
    requires TextOrTame([first, last]) && first.Plain? && last.Plain? && Record(fs)
    ensures TextOrTame([first] + fs + [last]) && TextsOf([first] + fs + [last]) == TextsOf(fs)
  {
    PlainHasNoText(first);
    PlainHasNoText(last);
    TextsOfConcat([first], fs);
    TextsOfConcat([first] + fs, [last]);
    assert [first, last][0] == first && [first, last][1] == last;
    TextOrTameConcat([first], fs);
    TextOrTameConcat([first] + fs, [last]);
  }

  lemma PlainHasNoText(l: Line)
    requires l.Plain?
    ensures TextsOf([l]) == []
  {
    assert [l][1..] == [];
  }

  lemma TextOrTameConcat(a: seq<Line>, b: seq<Line>)
    requires TextOrTame(a) && TextOrTame(b)
    ensures TextOrTame(a + b)
  {
  }

  lemma {:induction false} RowsOfInterior(objs: seq<seq<Line>>)
    requires Records(objs)
    ensures TextOrTame(InteriorRows(objs)) && TextsOf(InteriorRows(objs)) == TextsOfAll(objs)
  {
    if objs == [] {
      assert TextsOf([Plain("")]) == [];
    } else {
      RowsOfObject(objs[0], |objs| > 1);
      if |objs| == 1 {
        assert TextsOfAll(objs[1..]) == [];
      } else {
        RowsOfInterior(objs[1..]);
        TextsOfConcat(ObjectRows(objs[0], true), InteriorRows(objs[1..]));
      }
    }
  }

  /** An array shows a bracket of its own, then what the texts of its objects show. */
  lemma ArraySight(own: string, objs: seq<seq<Line>>, key: string)
    requires Name(own) && Records(objs)
    ensures LinesSight(ArrayRows(own, objs), key) == Join(Sight(true, false, true), TextsSight(TextsOfAll(objs), key))
  {
    var first, last: Line := ArrayLine(own), Plain("  ],");
    RowsOfInterior(objs);
    LinesShowTexts(InteriorRows(objs), key);
    LinesConcat([first], InteriorRows(objs), key);
    LinesConcat([first] + InteriorRows(objs), [last], key);
    LineShowsText(last, key);
    assert TextMarks([], key) == [];
    assert Body(first)[|Body(first)| - 1] == '[';
    assert LineMarks([first], key) == [Mark(false, true)];
    assert LineMarks([first], key)[1..] == [];
  }

  // ----- the texts of a snapshot -----

  function NamesOf(ifaces: seq<(string, bool)>): seq<string> {
    if ifaces == [] then [] else [ifaces[0].0] + NamesOf(ifaces[1..])
  }

  /** The texts of the PDP array in the order they are printed, without the time stamps. */
  function PdpTextsOf(pdps: seq<PdpContext>): seq<string> {
    if pdps == [] then [] else [pdps[0].peerIp, pdps[0].ggsnIp, pdps[0].imsi, pdps[0].apn] + PdpTextsOf(pdps[1..])
  }

  predicate ArrayKey(key: string) {
    key == IFACES || key == PDPS || key == UES
  }

  /** A text that neither looks like an array's name nor holds a bracket can be left out. */
  lemma HarmlessText(s: string, key: string)
    requires !Fakes(s, key) && '[' !in s
    ensures TextsSight([s], key) == NOTHING_SEEN
  {
    var ms := TextMarks([s], key);
    assert |ms| == 1 && ms[0] == Mark(Fakes([s][0], key), '[' in [s][0]);
    assert ms[1..] == [] && Summary([]) == NOTHING_SEEN;
  }

  lemma StampHasNoBracket(clock: Clock, t: int)
    requires Faithful(clock)
    ensures '[' !in FormatTimestamp(clock, t)
  {
    var s := FormatTimestamp(clock, t);
    forall i | 0 <= i < |s|
      ensures s[i] != '['
    {
      assert t != 0 ==> StampChar(s[i]);
    }
  }

  lemma StampIsHarmless(clock: Clock, t: int, key: string)
    requires Faithful(clock) && ArrayKey(key)
    ensures TextsSight([FormatTimestamp(clock, t)], key) == NOTHING_SEEN
  {
    StampIsNoName(clock, t);
    StampHasNoBracket(clock, t);
    HarmlessText(FormatTimestamp(clock, t), key);
  }

  lemma {:induction false} TextsInConcat(a: seq<Value>, b: seq<Value>)
    ensures TextsIn(a + b) == TextsIn(a) + TextsIn(b)
  {
    if a == [] {
      assert a + b == b;
    } else {
      TextsInConcat(a[1..], b);
      assert (a + b)[1..] == a[1..] + b;
    }
  }

  lemma {:induction false} NoTexts(vs: seq<Value>)
    requires forall i :: 0 <= i < |vs| ==> !vs[i].Text?
    ensures TextsIn(vs) == []
  {
    if vs != [] {
      NoTexts(vs[1..]);
    }
  }

  lemma TextIn(s: string)
    ensures TextsIn([Text(s)]) == [s]
  {
    assert [Text(s)][1..] == [];
  }

  lemma TwoTexts(a: string, b: string)
    ensures TextsIn([Text(a), Text(b)]) == [a, b]
  {
    TextIn(a);
    TextIn(b);
    TextsInConcat([Text(a)], [Text(b)]);
    assert [Text(a)] + [Text(b)] == [Text(a), Text(b)];
  }

  lemma IfaceShows(name: string, adminUp: bool)
    ensures TextsOf(IfaceFields(name, adminUp)) == [name]
  {
    var vs := [Text(name)] + [Flag(adminUp)];
    assert |IFACE_NAMES| == 2;
    assert IfaceValues(name, adminUp) == vs;
    TextsOfValues(IfaceFields(name, adminUp), vs);
    TextsInConcat([Text(name)], [Flag(adminUp)]);
    TextIn(name);
    NoTexts([Flag(adminUp)]);
    assert TextsIn(vs) == [name] + [];
  }

  lemma {:induction false} IfacesShow(ifaces: seq<(string, bool)>)
    ensures TextsOfAll(IfaceObjects(ifaces)) == NamesOf(ifaces)
  {
    if ifaces != [] {
      IfaceShows(ifaces[0].0, ifaces[0].1);
      IfacesShow(ifaces[1..]);
      assert IfaceObjects(ifaces)[1..] == IfaceObjects(ifaces[1..]);
    }
  }

  lemma AllTexts(a: string, b: string, c: string, d: string, e: string)
    ensures TextsIn([Text(a), Text(b), Text(c), Text(d), Text(e)]) == [a, b, c, d] + [e]
  {
    TwoTexts(a, b);
    TwoTexts(c, d);
    TextIn(e);
    TextsInConcat([Text(c), Text(d)], [Text(e)]);
    TextsInConcat([Text(a), Text(b)], [Text(c), Text(d)] + [Text(e)]);
    assert [Text(a), Text(b), Text(c), Text(d), Text(e)] == [Text(a), Text(b)] + ([Text(c), Text(d)] + [Text(e)]);
  }

  lemma PdpShows(c: PdpContext, clock: Clock)
    ensures TextsOf(PdpFields(c, clock)) == [c.peerIp, c.ggsnIp, c.imsi, c.apn] + [FormatTimestamp(clock, c.updatedAt)]
  {
    var vs := PdpValues(c, clock);
    PdpNamesAreGood();
    TextsOfValues(PdpFields(c, clock), vs);
    assert vs == vs[..5] + vs[5..];
    TextsInConcat(vs[..5], vs[5..]);
    NoTexts(vs[..5]);
    AllTexts(c.peerIp, c.ggsnIp, c.imsi, c.apn, FormatTimestamp(clock, c.updatedAt));
  }

  lemma {:induction false} PdpsShow(pdps: seq<PdpContext>, clock: Clock, key: string)
    requires Faithful(clock) && ArrayKey(key)
    ensures TextsSight(TextsOfAll(PdpObjects(pdps, clock)), key) == TextsSight(PdpTextsOf(pdps), key)
  {
    if pdps != [] {
      var c := pdps[0];
      var texts, stamp := [c.peerIp, c.ggsnIp, c.imsi, c.apn], [FormatTimestamp(clock, c.updatedAt)];
      PdpShows(c, clock);
      StampIsHarmless(clock, c.updatedAt, key);
      PdpsShow(pdps[1..], clock, key);
      assert PdpObjects(pdps, clock)[1..] == PdpObjects(pdps[1..], clock);
      TextsConcat(texts, stamp, key);
      TextsConcat(texts + stamp, TextsOfAll(PdpObjects(pdps[1..], clock)), key);
      TextsConcat(texts, PdpTextsOf(pdps[1..]), key);
    }
  }

  lemma TextsOfTwo(a: Line, b: Line)
    ensures TextsOf([a, b]) == TextOf(a) + TextOf(b)
  {
    assert [a, b][1..] == [b] && [b][1..] == [];
    assert TextsOf([b]) == TextOf(b) + TextsOf([]);
  }

  lemma HeaderIsTextOrTame(h: Header)
    ensures TextOrTame(HeaderLines(h))
  {
    HeaderIsWellFormed(h);
  }

  lemma FourPairs(a: Line, b: Line, c: Line, d: Line, e: Line, f: Line, g: Line, h: Line)
    ensures TextsOf([a, b, c, d, e, f, g, h])
         == TextOf(a) + TextOf(b) + (TextOf(c) + TextOf(d)) + (TextOf(e) + TextOf(f) + (TextOf(g) + TextOf(h)))
  {
    TextsOfTwo(a, b);
    TextsOfTwo(c, d);
    TextsOfTwo(e, f);
    TextsOfTwo(g, h);
    TextsOfConcat([a, b], [c, d]);
    TextsOfConcat([e, f], [g, h]);
    TextsOfConcat([a, b] + [c, d], [e, f] + [g, h]);
    assert [a, b] + [c, d] + ([e, f] + [g, h]) == [a, b, c, d, e, f, g, h];
  }

  lemma HeaderTexts(h: Header)
    ensures TextsOf(HeaderLines(h)) == [h.savedAt] + [h.cliEndpoint, h.status]
  {
    var ls := HeaderLines(h);
    FourPairs(ls[0], ls[1], ls[2], ls[3], ls[4], ls[5], ls[6], ls[7]);
    assert ls == [ls[0], ls[1], ls[2], ls[3], ls[4], ls[5], ls[6], ls[7]];
  }

  lemma HeaderSight(s: Setting, ifaceCount: nat, key: string)
    requires Faithful(s.clock) && ArrayKey(key)
    ensures LinesSight(HeaderLines(HeaderOf(s, ifaceCount)), key) == TextsSight([s.cliEndpoint, s.status], key)
  {
    var h := HeaderOf(s, ifaceCount);
    HeaderTexts(h);
    HeaderIsTextOrTame(h);
    LinesShowTexts(HeaderLines(h), key);
    StampIsHarmless(s.clock, s.now, key);
    TextsConcat([h.savedAt], [s.cliEndpoint, s.status], key);
  }

  // ----- the condition -----

  /** Nothing the operator set keeps the loader from an array, whatever the contexts hold. */
  predicate SettingInOrder(s: Setting, ifaces: seq<(string, bool)>) {
    && InOrder([s.cliEndpoint, s.status], IFACES)
    && NoneFakes([s.cliEndpoint, s.status], PDPS) && InOrder(NamesOf(ifaces), PDPS)
    && NoneFakes([s.cliEndpoint, s.status], UES) && NoneFakes(NamesOf(ifaces), UES)
  }

  lemma BeforePdpsSight(s: Setting, t: Tables, key: string)
    requires Faithful(s.clock) && ArrayKey(key)
    ensures LinesSight(BeforePdps(HeaderOf(s, |t.ifaces|), IfaceObjects(t.ifaces)), key)
         == Join(TextsSight([s.cliEndpoint, s.status], key),
                 Join(Sight(true, false, true), TextsSight(NamesOf(t.ifaces), key)))
  {
    ArrayNames();
    ObjectsAreRecords(s, t);
    HeaderSight(s, |t.ifaces|, key);
    IfacesShow(t.ifaces);
    ArraySight(IFACES, IfaceObjects(t.ifaces), key);
    LinesConcat(HeaderLines(HeaderOf(s, |t.ifaces|)), ArrayRows(IFACES, IfaceObjects(t.ifaces)), key);
  }

  lemma BeforeUesSight(s: Setting, t: Tables, front: Sight)
    requires Faithful(s.clock)
    requires front == LinesSight(BeforePdps(HeaderOf(s, |t.ifaces|), IfaceObjects(t.ifaces)), UES)
    ensures LinesSight(BeforeUes(HeaderOf(s, |t.ifaces|), IfaceObjects(t.ifaces), PdpObjects(t.pdps, s.clock)), UES)
         == Join(front, Join(Sight(true, false, true), TextsSight(PdpTextsOf(t.pdps), UES)))
  {
    ArrayNames();
    ObjectsAreRecords(s, t);
    PdpsShow(t.pdps, s.clock, UES);
    ArraySight(PDPS, PdpObjects(t.pdps, s.clock), UES);
    LinesConcat(BeforePdps(HeaderOf(s, |t.ifaces|), IfaceObjects(t.ifaces)),
                ArrayRows(PDPS, PdpObjects(t.pdps, s.clock)), UES);
  }

  /**
    The loader finds all three arrays where they were printed exactly when nothing before an array looks like
    its name and is followed by a bracket. For the PDP array that may only happen among the interface names,
    for the UE array only among the texts of the PDP contexts: any other look-alike has an array opening after it.
   */
  lemma CanLocateIffInOrder(s: Setting, t: Tables)
    requires Faithful(s.clock)
    ensures CanLocate(s, t) <==> SettingInOrder(s, t.ifaces) && InOrder(PdpTextsOf(t.pdps), UES)
  {
    var h, ifaces, pdps := HeaderOf(s, |t.ifaces|), IfaceObjects(t.ifaces), PdpObjects(t.pdps, s.clock);
    var header, names := [s.cliEndpoint, s.status], NamesOf(t.ifaces);
    HeaderSight(s, |t.ifaces|, IFACES);
    BeforePdpsSight(s, t, PDPS);
    BeforePdpsSight(s, t, UES);
    BeforeUesSight(s, t, LinesSight(BeforePdps(h, ifaces), UES));
    LocatableIsClear(HeaderLines(h), IFACES);
    LocatableIsClear(BeforePdps(h, ifaces), PDPS);
    LocatableIsClear(BeforeUes(h, ifaces, pdps), UES);
    TextsSightMeans(header, IFACES);
    TextsSightMeans(header, PDPS);
    TextsSightMeans(header, UES);
    TextsSightMeans(names, PDPS);
    TextsSightMeans(names, UES);
    TextsSightMeans(PdpTextsOf(t.pdps), UES);
    NoneFakesIsInOrder(header, PDPS);
    NoneFakesIsInOrder(header, UES);
    NoneFakesIsInOrder(names, UES);
  }

  lemma NoneFakesIsInOrder(ts: seq<string>, key: string)
    ensures NoneFakes(ts, key) ==> InOrder(ts, key)
  {
  }

  /** No text printed before an array is its name or ends in a quote followed by its name. */
  predicate Unfaked(s: Setting, t: Tables) {
    && NoneFakes([s.cliEndpoint, s.status], IFACES)
    && NoneFakes([s.cliEndpoint, s.status] + NamesOf(t.ifaces), PDPS)
    && NoneFakes([s.cliEndpoint, s.status] + NamesOf(t.ifaces) + PdpTextsOf(t.pdps), UES)
  }

  /** Where nothing fakes an array's name, the arrays can be located. */
  lemma UnfakedCanLocate(s: Setting, t: Tables)
    requires Faithful(s.clock) && Unfaked(s, t)
    ensures CanLocate(s, t)
  {
    var header, names, texts := [s.cliEndpoint, s.status], NamesOf(t.ifaces), PdpTextsOf(t.pdps);
    NoneFakesIsInOrder(header, IFACES);
    NoneFakesOfBoth(header, names, PDPS);
    NoneFakesOfBoth(header + names, texts, UES);
    NoneFakesOfBoth(header, names, UES);
    NoneFakesIsInOrder(names, PDPS);
    NoneFakesIsInOrder(texts, UES);
    CanLocateIffInOrder(s, t);
  }

  lemma NoneFakesOfBoth(a: seq<string>, b: seq<string>, key: string)
    ensures NoneFakes(a + b, key) <==> NoneFakes(a, key) && NoneFakes(b, key)
  {
    assert forall i :: 0 <= i < |a| ==> (a + b)[i] == a[i];
    assert forall i :: 0 <= i < |b| ==> (a + b)[|a| + i] == b[i];
  }

  // ----- tables the GTP server reaches -----

  function Apns(pdps: seq<PdpContext>): seq<string> {
    if pdps == [] then [] else [pdps[0].apn] + Apns(pdps[1..])
  }

  lemma FakeEnding(s: string)
    ensures Fakes(s, UES) ==> 's' in s
  {
    if Fakes(s, UES) && s != UES {
      var tail := "\"" + UES;
      assert s[|s| - |tail|..][|tail| - 1] == tail[|tail| - 1] == 's';
    }
  }

  lemma AddressIsHarmless(s: string)
    requires AddressText(s)
    ensures TextsSight([s], UES) == NOTHING_SEEN
  {
    FakeEnding(s);
    HarmlessText(s, UES);
  }

  lemma OnlyApnShows(c: PdpContext)
    requires PlainPdp(c)
    ensures TextsSight([c.peerIp, c.ggsnIp, c.imsi, c.apn], UES) == TextsSight([c.apn], UES)
  {
    AddressIsHarmless(c.peerIp);
    AddressIsHarmless(c.ggsnIp);
    AddressIsHarmless(c.imsi);
    TextsConcat([c.peerIp], [c.ggsnIp], UES);
    TextsConcat([c.peerIp, c.ggsnIp], [c.imsi], UES);
    TextsConcat([c.peerIp, c.ggsnIp, c.imsi], [c.apn], UES);
    assert [c.peerIp] + [c.ggsnIp] == [c.peerIp, c.ggsnIp];
    assert [c.peerIp, c.ggsnIp] + [c.imsi] == [c.peerIp, c.ggsnIp, c.imsi];
    assert [c.peerIp, c.ggsnIp, c.imsi] + [c.apn] == [c.peerIp, c.ggsnIp, c.imsi, c.apn];
  }

  lemma {:induction false} OnlyApnsShow(pdps: seq<PdpContext>)
    requires forall c | c in pdps :: PlainPdp(c)
    ensures TextsSight(PdpTextsOf(pdps), UES) == TextsSight(Apns(pdps), UES)
  {
    if pdps != [] {
      var c := pdps[0];
      assert c in pdps;
      OnlyApnShows(c);
      OnlyApnsShow(pdps[1..]);
      TextsConcat([c.peerIp, c.ggsnIp, c.imsi, c.apn], PdpTextsOf(pdps[1..]), UES);
      TextsConcat([c.apn], Apns(pdps[1..]), UES);
    }
  }

  /**
    Where IMSIs are digits and addresses are printed addresses, as in every table the GTP server reaches, only
    the access point names matter: none that looks like `ue_contexts` may be followed by one with a bracket.
   */
  lemma CanLocateIffApnsInOrder(s: Setting, t: Tables)
    requires Faithful(s.clock) && forall c | c in t.pdps :: PlainPdp(c)
    ensures CanLocate(s, t) <==> SettingInOrder(s, t.ifaces) && InOrder(Apns(t.pdps), UES)
  {
    CanLocateIffInOrder(s, t);
    OnlyApnsShow(t.pdps);
    TextsSightMeans(PdpTextsOf(t.pdps), UES);
    TextsSightMeans(Apns(t.pdps), UES);
  }
}
