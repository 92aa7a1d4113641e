/** Saving the runtime state and loading it back: `saveRuntimeStateToFile`, `loadRuntimeStateFromFile`. */
module Snapshot {
  import opened Bytes
  import opened JsonText
  import opened JsonScan
  import opened JsonLines
  import opened JsonObjects
  import opened JsonArrays
  import opened JsonFaked
  import opened RuntimeStates
  import opened SnapshotNames
  import opened SnapshotPrint
  import opened SnapshotRecords
  import opened SnapshotDocument

  /** The three tables in the order the printer visits them. */
  datatype Tables = Tables(ifaces: seq<(string, bool)>, pdps: seq<PdpContext>, ues: seq<UeContext>)

  /** What surrounds the tables in a snapshot. */
  datatype Setting = Setting(now: int, cliEndpoint: string, status: string, clock: Clock)

  // ----- saving -----

  function IfaceObjects(ifaces: seq<(string, bool)>): (objs: seq<seq<Line>>)
    ensures |objs| == |ifaces|
    ensures forall i :: 0 <= i < |objs| ==> objs[i] == IfaceFields(ifaces[i].0, ifaces[i].1)
  {
    seq(|ifaces|, i requires 0 <= i < |ifaces| => IfaceFields(ifaces[i].0, ifaces[i].1))
  }

  function PdpObjects(pdps: seq<PdpContext>, clock: Clock): (objs: seq<seq<Line>>)
    ensures |objs| == |pdps|
    ensures forall i :: 0 <= i < |objs| ==> objs[i] == PdpFields(pdps[i], clock)
  {
    seq(|pdps|, i requires 0 <= i < |pdps| => PdpFields(pdps[i], clock))
  }

  function UeObjects(ues: seq<UeContext>, clock: Clock): (objs: seq<seq<Line>>)
    ensures |objs| == |ues|
    ensures forall i :: 0 <= i < |objs| ==> objs[i] == UeFields(ues[i], clock)
  {
    seq(|ues|, i requires 0 <= i < |ues| => UeFields(ues[i], clock))
  }

  function HeaderOf(s: Setting, ifaceCount: nat): Header {
    Header(FormatTimestamp(s.clock, s.now), s.cliEndpoint, s.status, ifaceCount)
  }

  function Render(s: Setting, t: Tables): string {
    Document(HeaderOf(s, |t.ifaces|), IfaceObjects(t.ifaces), PdpObjects(t.pdps, s.clock), UeObjects(t.ues, s.clock))
  }

  // ----- loading -----

  /** Every object read in order; the first error stops the load. */
  function Gather<T>(objs: seq<string>, read: Reader -> Result<T, LoadError>): Result<seq<T>, LoadError> {
    if objs == [] then Ok([])
    else
      match read(ReaderOf(objs[0]))
      case Err(e) => Err(e)
      case Ok(x) =>
        match Gather(objs[1..], read)
        case Err(e) => Err(e)
        case Ok(xs) => Ok([x] + xs)
  }

  /** A missing interface array means no interfaces; the other two arrays must be there. */
  function LoadIfaces(json: string, valid: set<string>): Result<seq<(string, bool)>, LoadError> {
    match ObjectsUnder(json, IFACES)
    case None => Ok([])
    case Some(objs) => Gather(objs, r => ReadIface(r, valid, IFACE_NAMES))
  }

  function LoadPdps(json: string, clock: Clock): Result<seq<PdpContext>, LoadError> {
    match ObjectsUnder(json, PDPS)
    case None => Err(NoPdpArray)
    case Some(objs) => Gather(objs, ReadPdpWith(clock))
  }

  function LoadUes(json: string, clock: Clock): Result<seq<UeContext>, LoadError> {
    match ObjectsUnder(json, UES)
    case None => Err(NoUeArray)
    case Some(objs) => Gather(objs, ReadUeWith(clock))
  }

  function ReadPdpWith(clock: Clock): Reader -> Result<PdpContext, LoadError> {
    PdpNamesAreGood();
    r => ReadPdp(r, clock, PDP_NAMES)
  }

  function ReadUeWith(clock: Clock): Reader -> Result<UeContext, LoadError> {
    UeNamesAreGood();
    r => ReadUe(r, clock, UE_NAMES)
  }

  function CheckHeader(json: string, clock: Clock): Option<LoadError> {
    match UintField(json, SCHEMA)
    case None => Some(NoSchemaVersion)
    case Some(version) =>
      if version != SCHEMA_VERSION then Some(WrongSchemaVersion)
      else
        match StringField(json, SAVED_AT)
        case None => Some(BadSavedAt)
        case Some(stamp) => if ParseTimestamp(clock, stamp).None? then Some(BadSavedAt) else None
  }

  /** Everything is read and validated before anything is stored. */
  function LoadTables(json: string, valid: set<string>, clock: Clock): Result<Tables, LoadError> {
    match CheckHeader(json, clock)
    case Some(e) => Err(e)
    case None =>
      match LoadIfaces(json, valid)
      case Err(e) => Err(e)
      case Ok(ifaces) =>
        match LoadPdps(json, clock)
        case Err(e) => Err(e)
        case Ok(pdps) =>
          match LoadUes(json, clock)
          case Err(e) => Err(e)
          case Ok(ues) => Ok(Tables(ifaces, pdps, ues))
  }

  // ----- one array at a time -----

  ghost predicate ReadsAll<T(!new)>(objs: seq<string>, read: Reader -> Result<T, LoadError>, items: seq<T>) {
    |objs| == |items| && forall i :: 0 <= i < |items| ==> read(ReaderOf(objs[i])) == Ok(items[i])
  }

  ghost predicate SomeFails<T(!new)>(objs: seq<string>, read: Reader -> Result<T, LoadError>) {
    exists i :: 0 <= i < |objs| && read(ReaderOf(objs[i])).Err?
  }

  /** Gathering returns the items exactly when each object reads as its item, and fails if an object does. */
  lemma {:induction false} GatherAll<T(!new)>(objs: seq<string>, read: Reader -> Result<T, LoadError>, items: seq<T>)
    requires |objs| == |items|
    ensures Gather(objs, read) == Ok(items) <==> ReadsAll(objs, read, items)
    ensures Gather(objs, read).Err? <==> SomeFails(objs, read)
  {
    if objs != [] {
      GatherAll(objs[1..], read, items[1..]);
      GatherHead(objs, read, items);
    }
  }

  lemma GatherHead<T(!new)>(objs: seq<string>, read: Reader -> Result<T, LoadError>, items: seq<T>)
    requires |objs| == |items| && objs != []
    ensures Gather(objs, read) == Ok(items) <==>
            read(ReaderOf(objs[0])) == Ok(items[0]) && Gather(objs[1..], read) == Ok(items[1..])
    ensures Gather(objs, read).Err? <==> read(ReaderOf(objs[0])).Err? || Gather(objs[1..], read).Err?
  {
    assert items == [items[0]] + items[1..];
    var first, rest := read(ReaderOf(objs[0])), Gather(objs[1..], read);
    if first.Ok? && rest.Ok? {
      assert ([first.value] + rest.value)[1..] == rest.value;
    }
  }

  /** Items that read back exactly when good, and fail when bad. */
  lemma GatherGood<T(!new)>(objs: seq<string>, read: Reader -> Result<T, LoadError>, items: seq<T>, good: T -> bool,
                            bad: T -> bool)
    requires |objs| == |items|
    requires forall i :: 0 <= i < |items| ==> (read(ReaderOf(objs[i])) == Ok(items[i]) <==> good(items[i]))
    requires forall i :: 0 <= i < |items| && bad(items[i]) ==> read(ReaderOf(objs[i])).Err?
    ensures Gather(objs, read) == Ok(items) <==> forall x | x in items :: good(x)
    ensures (exists x :: x in items && bad(x)) ==> Gather(objs, read).Err?
  {
    GatherAll(objs, read, items);
    if forall x | x in items :: good(x) {
      forall i | 0 <= i < |items|
        ensures read(ReaderOf(objs[i])) == Ok(items[i])
      {
        assert items[i] in items;
      }
    }
    if x :| x in items && bad(x) {
      var i :| 0 <= i < |items| && items[i] == x;
      assert read(ReaderOf(objs[i])).Err?;
    }
  }

  predicate PdpReloads(c: PdpContext) {
    ValidateLoadedPdpContext(c) == None
  }

  predicate PdpLoads(c: PdpContext) {
    DecodablePdp(c) && PdpReloads(c)
  }

  /** Readable, but refused by the validator. */
  predicate PdpRefused(c: PdpContext) {
    DecodablePdp(c) && !PdpReloads(c)
  }

  predicate UeReloads(c: UeContext) {
    ValidateLoadedUeContext(c) == None
  }

  predicate UeLoads(c: UeContext) {
    DecodableUe(c) && UeReloads(c)
  }

  /** Readable, but refused by the validator. */
  predicate UeRefused(c: UeContext) {
    DecodableUe(c) && !UeReloads(c)
  }

  predicate IfaceAccepted(e: (string, bool), valid: set<string>) {
    Decodable(e.0) && e.0 != "" && (valid == {} || e.0 in valid)
  }

  /** Every text the loader must return can be unescaped, and every interface is one it accepts. */
  predicate Decipherable(t: Tables, valid: set<string>) {
    && (forall e | e in t.ifaces :: IfaceAccepted(e, valid))
    && (forall c | c in t.pdps :: DecodablePdp(c))
    && (forall c | c in t.ues :: DecodableUe(c))
  }

  lemma IfacesGather(ifaces: seq<(string, bool)>, valid: set<string>)
    ensures Gather(ObjectTexts(IfaceObjects(ifaces)), r => ReadIface(r, valid, IFACE_NAMES)) == Ok(ifaces) <==>
            forall e | e in ifaces :: IfaceAccepted(e, valid)
  {
    var objs := ObjectTexts(IfaceObjects(ifaces));
    var read := r => ReadIface(r, valid, IFACE_NAMES);
    forall i | 0 <= i < |ifaces|
      ensures read(ReaderOf(objs[i])) == Ok(ifaces[i]) <==> IfaceAccepted(ifaces[i], valid)
    {
      IfaceRoundTrip(ifaces[i].0, ifaces[i].1, valid);
    }
    GatherGood(objs, read, ifaces, e => IfaceAccepted(e, valid), e => false);
  }

  lemma PdpsGather(pdps: seq<PdpContext>, clock: Clock)
    requires Faithful(clock)
    ensures var r := Gather(ObjectTexts(PdpObjects(pdps, clock)), ReadPdpWith(clock));
            && (r == Ok(pdps) <==> forall c | c in pdps :: PdpLoads(c))
            && ((exists c :: c in pdps && PdpRefused(c)) ==> r.Err?)
  {
    var objs := ObjectTexts(PdpObjects(pdps, clock));
    var read := ReadPdpWith(clock);
    forall i | 0 <= i < |pdps|
      ensures read(ReaderOf(objs[i])) == Ok(pdps[i]) <==> PdpLoads(pdps[i])
      ensures PdpRefused(pdps[i]) ==> read(ReaderOf(objs[i])).Err?
    {
      PdpRoundTrip(pdps[i], clock);
    }
    GatherGood(objs, read, pdps, c => PdpLoads(c), c => PdpRefused(c));
  }

  lemma UesGather(ues: seq<UeContext>, clock: Clock)
    requires Faithful(clock)
    ensures var r := Gather(ObjectTexts(UeObjects(ues, clock)), ReadUeWith(clock));
            && (r == Ok(ues) <==> forall c | c in ues :: UeLoads(c))
            && ((exists c :: c in ues && UeRefused(c)) ==> r.Err?)
  {
    var objs := ObjectTexts(UeObjects(ues, clock));
    var read := ReadUeWith(clock);
    forall i | 0 <= i < |ues|
      ensures read(ReaderOf(objs[i])) == Ok(ues[i]) <==> UeLoads(ues[i])
      ensures UeRefused(ues[i]) ==> read(ReaderOf(objs[i])).Err?
    {
      UeRoundTrip(ues[i], clock);
    }
    GatherGood(objs, read, ues, c => UeLoads(c), c => UeRefused(c));
  }

  // ----- the arrays are where the loader looks -----

  lemma TablesAreWellNamed(s: Setting, t: Tables)
    ensures WellNamed(IfaceObjects(t.ifaces), PdpObjects(t.pdps, s.clock))
  {
    PdpNamesAreGood();
    forall i | 0 <= i < |t.ifaces|
      ensures AllNamed(IfaceObjects(t.ifaces)[i], PDPS) && AllNamed(IfaceObjects(t.ifaces)[i], UES)
    {
      var e := t.ifaces[i];
    }
    forall i | 0 <= i < |t.pdps|
      ensures AllNamed(PdpObjects(t.pdps, s.clock)[i], UES)
    {
    }
  }

  lemma ObjectsAreRecords(s: Setting, t: Tables)
    ensures Records(IfaceObjects(t.ifaces)) && Records(PdpObjects(t.pdps, s.clock))
    ensures Records(UeObjects(t.ues, s.clock))
  {
    PdpNamesAreGood();
    UeNamesAreGood();
    forall i | 0 <= i < |t.ifaces|
      ensures Record(IfaceObjects(t.ifaces)[i])
    {
    }
    forall i | 0 <= i < |t.pdps|
      ensures Record(PdpObjects(t.pdps, s.clock)[i])
    {
    }
    forall i | 0 <= i < |t.ues|
      ensures Record(UeObjects(t.ues, s.clock)[i])
    {
    }
  }

  /** After a text that looks like an array's name, no text before that array holds an opening bracket. */
  predicate CanLocate(s: Setting, t: Tables) {
    AllLocatable(HeaderOf(s, |t.ifaces|), IfaceObjects(t.ifaces), PdpObjects(t.pdps, s.clock))
  }

  /** The loader finds the arrays of a rendered snapshot where they were printed exactly when it can locate them. */
  lemma RenderedArraysAreFound(s: Setting, t: Tables)
    ensures AllFound(Render(s, t), HeaderOf(s, |t.ifaces|), IfaceObjects(t.ifaces), PdpObjects(t.pdps, s.clock),
                     UeObjects(t.ues, s.clock))
            <==> CanLocate(s, t)
  {
    TablesAreWellNamed(s, t);
    ObjectsAreRecords(s, t);
    ArraysFoundIffLocatable(HeaderOf(s, |t.ifaces|), IfaceObjects(t.ifaces), PdpObjects(t.pdps, s.clock),
                            UeObjects(t.ues, s.clock));
  }

  // ----- the round trip -----

  /** What the loader finds in a rendered snapshot. */
  lemma RenderedIsRead(s: Setting, t: Tables)
    requires Faithful(s.clock) && CanLocate(s, t)
    ensures var json := Render(s, t);
            && CheckHeader(json, s.clock) == None
            && ObjectsUnder(json, IFACES) == Some(ObjectTexts(IfaceObjects(t.ifaces)))
            && ObjectsUnder(json, PDPS) == Some(ObjectTexts(PdpObjects(t.pdps, s.clock)))
            && ObjectsUnder(json, UES) == Some(ObjectTexts(UeObjects(t.ues, s.clock)))
  {
    TablesAreWellNamed(s, t);
    ObjectsAreRecords(s, t);
    StampRoundTrip(s.clock, s.now);
    DocumentIsRead(HeaderOf(s, |t.ifaces|), IfaceObjects(t.ifaces), PdpObjects(t.pdps, s.clock),
                   UeObjects(t.ues, s.clock));
    HeaderPasses(Render(s, t), s);
  }

  lemma HeaderPasses(json: string, s: Setting)
    requires Faithful(s.clock)
    requires UintField(json, SCHEMA) == Some(SCHEMA_VERSION)
    requires StringField(json, SAVED_AT) == Some(FormatTimestamp(s.clock, s.now))
    ensures CheckHeader(json, s.clock) == None
  {
    StampRoundTrip(s.clock, s.now);
  }

  ghost predicate AllReload(t: Tables) {
    (forall c | c in t.pdps :: PdpReloads(c)) && (forall c | c in t.ues :: UeReloads(c))
  }

  /**
    Loading a saved snapshot returns exactly the saved tables if and only if their texts can be decoded, their
    interfaces are known and all their contexts reload; with decodable texts, one context that does not reload
    fails the whole load.
   */
  lemma SnapshotRoundTrip(s: Setting, t: Tables, valid: set<string>)
    requires Faithful(s.clock) && CanLocate(s, t)
    ensures var r := LoadTables(Render(s, t), valid, s.clock);
            && (r == Ok(t) <==> Decipherable(t, valid) && AllReload(t))
            && (Decipherable(t, valid) && !AllReload(t) ==> r.Err?)
  {
    RenderedIsRead(s, t);
    IfacesGather(t.ifaces, valid);
    PdpsGather(t.pdps, s.clock);
    UesGather(t.ues, s.clock);
    LoadedFrom(Render(s, t), t, valid, s.clock);
    EachTable(t, valid);
  }

  lemma EachTable(t: Tables, valid: set<string>)
    ensures Decipherable(t, valid) && AllReload(t) <==>
            && (forall e | e in t.ifaces :: IfaceAccepted(e, valid))
            && (forall c | c in t.pdps :: PdpLoads(c))
            && (forall c | c in t.ues :: UeLoads(c))
    ensures Decipherable(t, valid) && !AllReload(t) ==>
              || (exists c :: c in t.pdps && PdpRefused(c))
              || (exists c :: c in t.ues && UeRefused(c))
  {
  }

  lemma LoadedFrom(json: string, t: Tables, valid: set<string>, clock: Clock)
    requires CheckHeader(json, clock) == None
    ensures LoadTables(json, valid, clock) == Ok(t) <==>
            && LoadIfaces(json, valid) == Ok(t.ifaces)
            && LoadPdps(json, clock) == Ok(t.pdps) && LoadUes(json, clock) == Ok(t.ues)
    ensures LoadPdps(json, clock).Err? || LoadUes(json, clock).Err? ==> LoadTables(json, valid, clock).Err?
  {
  }
}
