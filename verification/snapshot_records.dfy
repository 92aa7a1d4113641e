/** Reading one snapshot record back: what `loadRuntimeStateFromFile` extracts from an object. */
module SnapshotRecords {
  import opened Bytes
  import opened JsonText
  import opened JsonScan
  import opened JsonLines
  import opened JsonObjects
  import opened RuntimeStates
  import opened SnapshotNames
  import opened SnapshotPrint

  datatype LoadError =
    | NoSchemaVersion | WrongSchemaVersion | BadSavedAt
    | IfaceWithoutName | IfaceWithoutState | UnknownIface
    | NoPdpArray | PdpWithoutTeid | BadPdpTime | BadPdp(pdpFault: PdpFault)
    | NoUeArray | UeWithoutImsi | BadUeTime | BadUe(ueFault: UeFault)

  // ----- the three extractors, applied to one object -----

  datatype Reader = Reader(
    text: string -> Option<string>,
    flag: string -> Option<bool>,
    number: string -> Option<nat>)

  function ReaderOf(obj: string): Reader {
    Reader(key => StringField(obj, key), key => BoolField(obj, key), key => UintField(obj, key))
  }

  // ----- optional fields keep their defaults -----

  function NumberIn(r: Reader, key: string): nat {
    match r.number(key) case None => 0 case Some(n) => n
  }

  /** `static_cast<uint8_t>`. */
  function OctetIn(r: Reader, key: string): byte {
    NumberIn(r, key) % 0x100
  }

  function FlagIn(r: Reader, key: string): bool {
    match r.flag(key) case None => false case Some(b) => b
  }

  function TextIn(r: Reader, key: string): string {
    match r.text(key) case None => "" case Some(s) => s
  }

  /** An absent time stamp is zero; an unreadable one is an error. */
  function TimeIn(r: Reader, key: string, clock: Clock): Option<int> {
    match r.text(key) case None => Some(0) case Some(s) => ParseTimestamp(clock, s)
  }

  function SlotIn(r: Reader, valueKey: string, flagKey: string): Slot {
    Slot(OctetIn(r, valueKey), FlagIn(r, flagKey))
  }

  // The readers take the list of keys, which the printer shares, and pick keys by position.

  function PdpRecord(r: Reader, keys: seq<string>, teid: nat, updatedAt: int): PdpContext
    requires |keys| == PDP_FIELDS
  {
    PdpContext(
      teid % 0x1_0000_0000,
      NumberIn(r, keys[1]) % 0x1_0000,
      OctetIn(r, keys[2]),
      FlagIn(r, keys[3]),
      OctetIn(r, keys[4]),
      TextIn(r, keys[5]),
      TextIn(r, keys[6]),
      TextIn(r, keys[7]),
      TextIn(r, keys[8]),
      updatedAt)
  }

  function ReadPdp(r: Reader, clock: Clock, keys: seq<string>): Result<PdpContext, LoadError>
    requires |keys| == PDP_FIELDS
  {
    match r.number(keys[0])
    case None => Err(PdpWithoutTeid)
    case Some(teid) =>
      match TimeIn(r, keys[9], clock)
      case None => Err(BadPdpTime)
      case Some(updatedAt) =>
        var c := PdpRecord(r, keys, teid, updatedAt);
        match ValidateLoadedPdpContext(c)
        case None => Ok(c)
        case Some(fault) => Err(BadPdp(fault))
  }

  function ReadAttach(r: Reader, keys: seq<string>): AttachFlow
    requires |keys| == 8
  {
    AttachFlow(
      FlagIn(r, keys[0]), FlagIn(r, keys[1]), FlagIn(r, keys[2]), FlagIn(r, keys[3]),
      FlagIn(r, keys[4]), FlagIn(r, keys[5]), FlagIn(r, keys[6]), FlagIn(r, keys[7]))
  }

  function ReadService(r: Reader, keys: seq<string>): ServiceFlow
    requires |keys| == 7
  {
    ServiceFlow(
      FlagIn(r, keys[0]), FlagIn(r, keys[1]), FlagIn(r, keys[2]), FlagIn(r, keys[3]),
      FlagIn(r, keys[4]), FlagIn(r, keys[5]), FlagIn(r, keys[6]))
  }

  function ReadDetach(r: Reader, keys: seq<string>): DetachFlow
    requires |keys| == 6
  {
    DetachFlow(FlagIn(r, keys[0]), FlagIn(r, keys[1]), FlagIn(r, keys[2]))
  }

  function ReadTau(r: Reader, keys: seq<string>): TauFlow
    requires |keys| == 6
  {
    TauFlow(FlagIn(r, keys[3]), FlagIn(r, keys[4]), FlagIn(r, keys[5]))
  }

  /** The last key but one is the derived flow name, which is not read. */
  function ReadUe(r: Reader, clock: Clock, keys: seq<string>): Result<UeContext, LoadError>
    requires |keys| == UE_FIELDS
  {
    var imsi := TextIn(r, keys[0]);
    if imsi == "" then Err(UeWithoutImsi)
    else
      match TimeIn(r, keys[36], clock)
      case None => Err(BadUeTime)
      case Some(updatedAt) =>
        var slots := keys[24..35];
        var c := UeContext(
          imsi,
          TextIn(r, keys[1]),
          TextIn(r, keys[2]),
          ReadAttach(r, keys[3..11]),
          ReadService(r, keys[11..18]),
          ReadDetach(r, keys[18..24]),
          ReadTau(r, keys[18..24]),
          SlotIn(r, slots[0], slots[1]),
          OctetIn(r, slots[2]),
          SlotIn(r, slots[3], slots[4]),
          SlotIn(r, slots[5], slots[6]),
          SlotIn(r, slots[7], slots[8]),
          SlotIn(r, slots[9], slots[10]),
          updatedAt);
        match ValidateLoadedUeContext(c)
        case None => Ok(c)
        case Some(fault) => Err(BadUe(fault))
  }

  /** `valid` is the set of configured interface names; an empty one admits every name. */
  function ReadIface(r: Reader, valid: set<string>, keys: seq<string>): Result<(string, bool), LoadError>
    requires |keys| == 2
  {
    var name := TextIn(r, keys[0]);
    if name == "" then Err(IfaceWithoutName)
    else
      match r.flag(keys[1])
      case None => Err(IfaceWithoutState)
      case Some(up) =>
        if valid != {} && name !in valid then Err(UnknownIface) else Ok((name, up))
  }

  // ----- round trips, one record at a time -----

  predicate DecodablePdp(c: PdpContext) {
    Decodable(c.peerIp) && Decodable(c.ggsnIp) && Decodable(c.imsi) && Decodable(c.apn)
  }

  predicate DecodableUe(c: UeContext) {
    Decodable(c.imsi) && Decodable(c.guti) && Decodable(c.peerId)
  }

  predicate ReadsAs(r: Reader, key: string, v: Value) {
    match v
    case Text(s) => r.text(key) == Some(Unescape(Escape(s)))
    case Flag(b) => r.flag(key) == Some(b)
    case Number(n) => n < 0x1_0000_0000_0000_0000 ==> r.number(key) == Some(n)
    case Open(_) => true
  }

  /** Every key of the object reads back as the value printed for it. */
  predicate ReadsBack(r: Reader, keys: seq<string>, values: seq<Value>)
    requires |keys| == |values|
  {
    forall i :: 0 <= i < |keys| ==> ReadsAs(r, keys[i], values[i])
  }

  lemma RecordReadsBack(keys: seq<string>, values: seq<Value>)
    requires |keys| == |values| && GoodNames(keys) && Plainly(values)
    ensures ReadsBack(ReaderOf(ObjectText(FieldLines(keys, values))), keys, values)
  {
    var fs := FieldLines(keys, values);
    forall i | 0 <= i < |keys|
      ensures ReadsAs(ReaderOf(ObjectText(fs)), keys[i], values[i])
    {
      RecordRoundTrip(fs, i);
    }
  }

  lemma IfaceFromObject(r: Reader, name: string, up: bool, valid: set<string>, keys: seq<string>)
    requires |keys| == 2 && ReadsBack(r, keys, IfaceValues(name, up))
    ensures ReadIface(r, valid, keys) == Ok((name, up)) <==>
            Decodable(name) && name != "" && (valid == {} || name in valid)
  {
    var vs := IfaceValues(name, up);
    assert ReadsAs(r, keys[0], vs[0]) && ReadsAs(r, keys[1], vs[1]);
    TextReads(r, keys[0], name);
  }

  lemma TextReads(r: Reader, key: string, s: string)
    requires ReadsAs(r, key, Text(s))
    ensures TextIn(r, key) == s <==> Decodable(s)
  {
    EscapeRoundTrip(s);
  }

  lemma TimeReads(r: Reader, key: string, clock: Clock, t: int)
    requires Faithful(clock) && ReadsAs(r, key, Text(FormatTimestamp(clock, t)))
    ensures TimeIn(r, key, clock) == Some(t)
  {
    StampRoundTrip(clock, t);
    EscapeRoundTrip(FormatTimestamp(clock, t));
  }

  lemma PdpTexts(r: Reader, c: PdpContext, clock: Clock, keys: seq<string>)
    requires |keys| == PDP_FIELDS && ReadsBack(r, keys, PdpValues(c, clock))
    requires Faithful(clock)
    ensures TextIn(r, keys[5]) == c.peerIp <==> Decodable(c.peerIp)
    ensures TextIn(r, keys[6]) == c.ggsnIp <==> Decodable(c.ggsnIp)
    ensures TextIn(r, keys[7]) == c.imsi <==> Decodable(c.imsi)
    ensures TextIn(r, keys[8]) == c.apn <==> Decodable(c.apn)
    ensures TimeIn(r, keys[9], clock) == Some(c.updatedAt)
  {
    var vs := PdpValues(c, clock);
    assert ReadsAs(r, keys[5], vs[5]) && ReadsAs(r, keys[6], vs[6]) && ReadsAs(r, keys[7], vs[7]);
    assert ReadsAs(r, keys[8], vs[8]) && ReadsAs(r, keys[9], vs[9]);
    TextReads(r, keys[5], c.peerIp);
    TextReads(r, keys[6], c.ggsnIp);
    TextReads(r, keys[7], c.imsi);
    TextReads(r, keys[8], c.apn);
    TimeReads(r, keys[9], clock, c.updatedAt);
  }

  lemma PdpNumbers(r: Reader, c: PdpContext, clock: Clock, keys: seq<string>)
    requires |keys| == PDP_FIELDS && ReadsBack(r, keys, PdpValues(c, clock))
    ensures r.number(keys[0]) == Some(c.teid) && NumberIn(r, keys[1]) == c.sequence
    ensures OctetIn(r, keys[2]) == c.pdpType && FlagIn(r, keys[3]) == c.hasPdpType
    ensures OctetIn(r, keys[4]) == c.lastMessageType
  {
    var vs := PdpValues(c, clock);
    assert ReadsAs(r, keys[0], vs[0]) && ReadsAs(r, keys[1], vs[1]) && ReadsAs(r, keys[2], vs[2]);
    assert ReadsAs(r, keys[3], vs[3]) && ReadsAs(r, keys[4], vs[4]);
  }

  /** The record read is the record printed exactly when its texts can be decoded. */
  lemma PdpRecordReads(r: Reader, c: PdpContext, clock: Clock, keys: seq<string>)
    requires |keys| == PDP_FIELDS && ReadsBack(r, keys, PdpValues(c, clock))
    requires Faithful(clock)
    ensures r.number(keys[0]) == Some(c.teid)
    ensures PdpRecord(r, keys, c.teid, c.updatedAt) == c <==> DecodablePdp(c)
  {
    var read := PdpRecord(r, keys, c.teid, c.updatedAt);
    PdpNumbers(r, c, clock, keys);
    assert read.(peerIp := c.peerIp, ggsnIp := c.ggsnIp, imsi := c.imsi, apn := c.apn) == c;
    PdpTexts(r, c, clock, keys);
  }

  lemma PdpFromObject(r: Reader, c: PdpContext, clock: Clock, keys: seq<string>)
    requires |keys| == PDP_FIELDS && ReadsBack(r, keys, PdpValues(c, clock)) && Faithful(clock)
    ensures ReadPdp(r, clock, keys) == Ok(c) <==> DecodablePdp(c) && ValidateLoadedPdpContext(c) == None
    ensures DecodablePdp(c) && ValidateLoadedPdpContext(c) != None ==>
              ReadPdp(r, clock, keys) == Err(BadPdp(ValidateLoadedPdpContext(c).value))
  {
    PdpRecordReads(r, c, clock, keys);
    PdpTexts(r, c, clock, keys);
  }

  lemma AttachFromObject(r: Reader, a: AttachFlow, keys: seq<string>)
    requires |keys| == 8 && ReadsBack(r, keys, AttachValues(a))
    ensures ReadAttach(r, keys) == a
  {
    var vs := AttachValues(a);
    assert ReadsAs(r, keys[0], vs[0]) && ReadsAs(r, keys[1], vs[1]) && ReadsAs(r, keys[2], vs[2]);
    assert ReadsAs(r, keys[3], vs[3]) && ReadsAs(r, keys[4], vs[4]) && ReadsAs(r, keys[5], vs[5]);
    assert ReadsAs(r, keys[6], vs[6]) && ReadsAs(r, keys[7], vs[7]);
  }

  lemma ServiceFromObject(r: Reader, s: ServiceFlow, keys: seq<string>)
    requires |keys| == 7 && ReadsBack(r, keys, ServiceValues(s))
    ensures ReadService(r, keys) == s
  {
    var vs := ServiceValues(s);
    assert ReadsAs(r, keys[0], vs[0]) && ReadsAs(r, keys[1], vs[1]) && ReadsAs(r, keys[2], vs[2]);
    assert ReadsAs(r, keys[3], vs[3]) && ReadsAs(r, keys[4], vs[4]) && ReadsAs(r, keys[5], vs[5]);
    assert ReadsAs(r, keys[6], vs[6]);
  }

  lemma DetachAndTauFromObject(r: Reader, d: DetachFlow, t: TauFlow, keys: seq<string>)
    requires |keys| == 6 && ReadsBack(r, keys, DetachAndTauValues(d, t))
    ensures ReadDetach(r, keys) == d && ReadTau(r, keys) == t
  {
    var vs := DetachAndTauValues(d, t);
    assert ReadsAs(r, keys[0], vs[0]) && ReadsAs(r, keys[1], vs[1]) && ReadsAs(r, keys[2], vs[2]);
    assert ReadsAs(r, keys[3], vs[3]) && ReadsAs(r, keys[4], vs[4]) && ReadsAs(r, keys[5], vs[5]);
  }

  lemma SlotsFromObject(r: Reader, c: UeContext, keys: seq<string>)
    requires |keys| == 11 && ReadsBack(r, keys, SlotValues(c))
    ensures SlotIn(r, keys[0], keys[1]) == c.lastNas && OctetIn(r, keys[2]) == c.lastS1apProcedure
    ensures SlotIn(r, keys[3], keys[4]) == c.security && SlotIn(r, keys[5], keys[6]) == c.algorithm
    ensures SlotIn(r, keys[7], keys[8]) == c.bearer && SlotIn(r, keys[9], keys[10]) == c.area
  {
    var vs := SlotValues(c);
    assert ReadsAs(r, keys[0], vs[0]) && ReadsAs(r, keys[1], vs[1]) && ReadsAs(r, keys[2], vs[2]);
    assert ReadsAs(r, keys[3], vs[3]) && ReadsAs(r, keys[4], vs[4]) && ReadsAs(r, keys[5], vs[5]);
    assert ReadsAs(r, keys[6], vs[6]) && ReadsAs(r, keys[7], vs[7]) && ReadsAs(r, keys[8], vs[8]);
    assert ReadsAs(r, keys[9], vs[9]) && ReadsAs(r, keys[10], vs[10]);
  }

  /** The groups of a UE record, read one by one. */
  lemma UeGroups(r: Reader, c: UeContext, clock: Clock, keys: seq<string>)
    requires |keys| == UE_FIELDS && ReadsBack(r, keys, UeValues(c, clock))
    ensures ReadsBack(r, keys[0..3], IdentityValues(c))
    ensures ReadsBack(r, keys[3..11], AttachValues(c.attach))
    ensures ReadsBack(r, keys[11..18], ServiceValues(c.service))
    ensures ReadsBack(r, keys[18..24], DetachAndTauValues(c.detach, c.tau))
    ensures ReadsBack(r, keys[24..35], SlotValues(c))
    ensures ReadsBack(r, keys[35..37], ClosingValues(c, clock))
  {
  }

  lemma NamesFromObject(r: Reader, c: UeContext, clock: Clock, keys: seq<string>)
    requires |keys| == UE_FIELDS && Faithful(clock)
    requires ReadsBack(r, keys[0..3], IdentityValues(c)) && ReadsBack(r, keys[35..37], ClosingValues(c, clock))
    ensures TextIn(r, keys[0]) == c.imsi <==> Decodable(c.imsi)
    ensures TextIn(r, keys[1]) == c.guti <==> Decodable(c.guti)
    ensures TextIn(r, keys[2]) == c.peerId <==> Decodable(c.peerId)
    ensures TimeIn(r, keys[36], clock) == Some(c.updatedAt)
  {
    var first, last := IdentityValues(c), ClosingValues(c, clock);
    assert ReadsAs(r, keys[0..3][0], first[0]) && ReadsAs(r, keys[0..3][1], first[1]);
    assert ReadsAs(r, keys[0..3][2], first[2]) && ReadsAs(r, keys[35..37][1], last[1]);
    TextReads(r, keys[0], c.imsi);
    TextReads(r, keys[1], c.guti);
    TextReads(r, keys[2], c.peerId);
    TimeReads(r, keys[36], clock, c.updatedAt);
  }

  /** The reader looks for the IMSI before it calls the validator. */
  function UeRefusal(c: UeContext): LoadError
    requires ValidateLoadedUeContext(c) != None
  {
    if c.imsi == "" then UeWithoutImsi else BadUe(ValidateLoadedUeContext(c).value)
  }

  lemma UeFromObject(r: Reader, c: UeContext, clock: Clock, keys: seq<string>)
    requires |keys| == UE_FIELDS && ReadsBack(r, keys, UeValues(c, clock)) && Faithful(clock)
    ensures ReadUe(r, clock, keys) == Ok(c) <==> DecodableUe(c) && ValidateLoadedUeContext(c) == None
    ensures DecodableUe(c) && ValidateLoadedUeContext(c) != None ==> ReadUe(r, clock, keys) == Err(UeRefusal(c))
  {
    UeGroups(r, c, clock, keys);
    NamesFromObject(r, c, clock, keys);
    AttachFromObject(r, c.attach, keys[3..11]);
    ServiceFromObject(r, c.service, keys[11..18]);
    DetachAndTauFromObject(r, c.detach, c.tau, keys[18..24]);
    SlotsFromObject(r, c, keys[24..35]);
  }

  // ----- round trips of whole records -----

  /** A printed interface entry reads back exactly when it has a decodable name that the configuration knows. */
  lemma IfaceRoundTrip(name: string, up: bool, valid: set<string>)
    ensures ReadIface(ReaderOf(ObjectText(IfaceFields(name, up))), valid, IFACE_NAMES) == Ok((name, up)) <==>
            Decodable(name) && name != "" && (valid == {} || name in valid)
  {
    RecordReadsBack(IFACE_NAMES, IfaceValues(name, up));
    IfaceFromObject(ReaderOf(ObjectText(IfaceFields(name, up))), name, up, valid, IFACE_NAMES);
  }

  /** A printed PDP context reads back as itself exactly when its texts can be decoded and the validator passes it. */
  lemma PdpRoundTrip(c: PdpContext, clock: Clock)
    requires Faithful(clock)
    ensures var read := ReadPdp(ReaderOf(ObjectText(PdpFields(c, clock))), clock, PDP_NAMES);
            && (read == Ok(c) <==> DecodablePdp(c) && ValidateLoadedPdpContext(c) == None)
            && (DecodablePdp(c) && ValidateLoadedPdpContext(c) != None ==>
                  read == Err(BadPdp(ValidateLoadedPdpContext(c).value)))
  {
    PdpNamesAreGood();
    RecordReadsBack(PDP_NAMES, PdpValues(c, clock));
    PdpFromObject(ReaderOf(ObjectText(PdpFields(c, clock))), c, clock, PDP_NAMES);
  }

  /** So does a printed UE context. */
  lemma UeRoundTrip(c: UeContext, clock: Clock)
    requires Faithful(clock)
    ensures var read := ReadUe(ReaderOf(ObjectText(UeFields(c, clock))), clock, UE_NAMES);
            && (read == Ok(c) <==> DecodableUe(c) && ValidateLoadedUeContext(c) == None)
            && (DecodableUe(c) && ValidateLoadedUeContext(c) != None ==> read == Err(UeRefusal(c)))
  {
    UeNamesAreGood();
    RecordReadsBack(UE_NAMES, UeValues(c, clock));
    UeFromObject(ReaderOf(ObjectText(UeFields(c, clock))), c, clock, UE_NAMES);
  }

  // ----- an interface entry read as something else -----

  /** Read as a PDP context, an interface entry lacks a TEID; read as a UE context, an IMSI. */
  lemma IfaceIsNoContext(name: string, up: bool, clock: Clock)
    ensures |PDP_NAMES| == PDP_FIELDS && |UE_NAMES| == UE_FIELDS
    ensures ReadPdp(ReaderOf(ObjectText(IfaceFields(name, up))), clock, PDP_NAMES) == Err(PdpWithoutTeid)
    ensures ReadUe(ReaderOf(ObjectText(IfaceFields(name, up))), clock, UE_NAMES) == Err(UeWithoutImsi)
  {
    var fs := IfaceFields(name, up);
    UeNamesAreGood();
    assert |IFACE_NAMES| == 2;
    assert Record(fs);
    assert Name(PDP_NAMES[0]) && Name(UE_NAMES[0]);
    AbsentField(fs, PDP_NAMES[0]);
    AbsentField(fs, UE_NAMES[0]);
  }
}
