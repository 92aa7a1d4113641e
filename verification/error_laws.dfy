/** Which error each parser, validator and loader reports: the first fault, in an order written out here. */
module ErrorLaws {
  import opened Bytes
  import opened RuntimeStates
  import S1ap
  import GtpHeaders
  import opened GtpValues
  import opened GtpRequests
  import opened GtpFolds
  import opened JsonScan
  import opened SnapshotPrint
  import opened SnapshotRecords
  import opened SnapshotDocument
  import opened Snapshot

  // ----- the S1AP carrier -----

  /** What is wrong with the record a nonempty body starts with, if anything. */
  function RecordFault(rest: seq<byte>): Option<S1ap.CarrierError>
    requires rest != []
  {
    if |rest| < 2 then Some(S1ap.TruncatedHeader)
    else if 2 + rest[1] > |rest| then Some(S1ap.TruncatedPayload)
    else if rest[0] == 0x03 && rest[1] == 0 then Some(S1ap.EmptyNas)
    else None
  }

  /** After well-formed records the walk reports the first fault. */
  lemma {:induction false} FirstRecordFault(ts: seq<S1ap.Record>, rest: seq<byte>, m: S1ap.Carrier)
    requires forall t | t in ts :: S1ap.Fits(t) && !(t.ieType == 0x03 && t.value == [])
    requires rest != [] && RecordFault(rest).Some?
    ensures S1ap.AbsorbAll(S1ap.EncodeRecords(ts) + rest, m) == Err(RecordFault(rest).value)
  {
    if ts == [] {
      assert S1ap.EncodeRecords(ts) + rest == rest;
    } else {
      var t, more := ts[0], S1ap.EncodeRecords(ts[1..]) + rest;
      var body, n := S1ap.EncodeRecords(ts) + rest, |t.value|;
      assert body == S1ap.EncodeRecord(t) + more;
      assert body[0] == t.ieType && body[1] == n && body[2..2 + n] == t.value && body[2 + n..] == more;
      FirstRecordFault(ts[1..], rest, S1ap.Absorb(m, t.ieType, t.value).value);
    }
  }

  /** A packet is refused as too short, of the wrong procedure, for its first faulty record, or for what is missing. */
  lemma CarrierErrors(packet: seq<byte>, expected: byte, ts: seq<S1ap.Record>, rest: seq<byte>)
    requires |packet| >= 1 ==> packet[1..] == S1ap.EncodeRecords(ts) + rest
    requires forall t | t in ts :: S1ap.Fits(t) && !(t.ieType == 0x03 && t.value == [])
    requires rest != [] ==> RecordFault(rest).Some?
    ensures match S1ap.ParsedCarrier(packet, expected)
            case Ok(_) => rest == []
            case Err(e) =>
              e == if |packet| < 3 then S1ap.TooShort
                   else if packet[0] != expected then S1ap.WrongProcedure
                   else if rest != [] then RecordFault(rest).value
                   else if S1ap.LastOf(ts, 0x01) in {None, Some([])} then S1ap.MissingImsi
                   else S1ap.MissingNas
  {
    if |packet| >= 3 && packet[0] == expected {
      var m := S1ap.Blank(packet[0]);
      if rest != [] {
        FirstRecordFault(ts, rest, m);
      } else {
        assert S1ap.EncodeRecords(ts) + rest == S1ap.EncodeRecords(ts);
        MissingRecord(ts, packet[0]);
      }
    }
  }

  lemma MissingRecord(ts: seq<S1ap.Record>, procedureCode: byte)
    requires forall t | t in ts :: S1ap.Fits(t) && !(t.ieType == 0x03 && t.value == [])
    ensures var walked := S1ap.AbsorbAll(S1ap.EncodeRecords(ts), S1ap.Blank(procedureCode));
            && walked.Ok?
            && (walked.value.hasImsi <==> S1ap.LastOf(ts, 0x01) !in {None, Some([])})
            && (walked.value.hasNasPdu <==> S1ap.LastOf(ts, 0x03).Some?)
  {
    S1ap.WalkOfTiling(ts, S1ap.Blank(procedureCode));
    S1ap.LastRecordWins(ts, S1ap.Blank(procedureCode));
  }

  /** Every body is well-formed records up to its end or its first fault. */
  lemma {:induction false} BodyOfRecords(body: seq<byte>) returns (ts: seq<S1ap.Record>, rest: seq<byte>)
    ensures body == S1ap.EncodeRecords(ts) + rest && (rest != [] ==> RecordFault(rest).Some?)
    ensures forall t | t in ts :: S1ap.Fits(t) && !(t.ieType == 0x03 && t.value == [])
    decreases |body|
  {
    if body == [] || RecordFault(body).Some? {
      ts, rest := [], body;
    } else {
      var n := body[1];
      var t := S1ap.Record(body[0], body[2..2 + n]);
      ts, rest := BodyOfRecords(body[2 + n..]);
      assert ([t] + ts)[1..] == ts;
      assert body == S1ap.EncodeRecord(t) + body[2 + n..];
      ts := [t] + ts;
    }
  }

  // ----- the GTP request -----

  /** What is wrong with the element a nonempty body starts with, if anything. */
  function ElementFault(rest: seq<byte>): Option<RequestError>
    requires rest != []
  {
    if rest[0] == 0x02 then (if |rest| < 9 then Some(TruncatedImsi) else None)
    else if |rest| < 3 then Some(TruncatedElementHeader)
    else
      var n := 3 + rest[1] as int * 0x100 + rest[2];
      if n > |rest| then Some(TruncatedPayload)
      else if rest[0] == 0x83 && ApnText(rest[3..n]) == None then Some(LongApnLabel)
      else None
  }

  lemma FaultStops(rest: seq<byte>, r: Request)
    requires rest != [] && ElementFault(rest).Some?
    ensures Walk(rest, r) == Err(ElementFault(rest).value)
  {
  }

  lemma WalkOver(e: Element, more: seq<byte>, r: Request) returns (after: Request)
    requires Encodable(e) && ApnFits(e)
    ensures Walk(EncodeElement(e) + more, r) == Walk(more, after)
  {
    NextOfElement(e, more);
    after := Absorb(r, e).value;
  }

  lemma {:induction false} FirstElementFault(es: seq<Element>, rest: seq<byte>, r: Request)
    requires forall e | e in es :: Encodable(e) && ApnFits(e)
    requires rest != [] && ElementFault(rest).Some?
    ensures Walk(EncodeElements(es) + rest, r) == Err(ElementFault(rest).value)
    decreases |es|
  {
    if es == [] {
      assert EncodeElements(es) + rest == rest;
      FaultStops(rest, r);
    } else {
      var more := EncodeElements(es[1..]) + rest;
      assert EncodeElements(es) + rest == EncodeElement(es[0]) + more;
      var after := WalkOver(es[0], more, r);
      FirstElementFault(es[1..], rest, after);
    }
  }

  /**
    A request is refused for its type, for boundaries beyond the packet, for its first faulty element, or because
    nothing in it is supported.
   */
  lemma RequestErrors(packet: seq<byte>, h: GtpHeaders.Header, expected: byte, es: seq<Element>, rest: seq<byte>)
    requires h.totalLength <= |packet| ==>
               (if h.headerLength < h.totalLength then packet[h.headerLength..h.totalLength] else [])
               == EncodeElements(es) + rest
    requires forall e | e in es :: Encodable(e) && ApnFits(e)
    requires rest != [] ==> ElementFault(rest).Some?
    ensures match ParsedRequest(packet, h, expected)
            case Ok(_) => rest == []
            case Err(e) =>
              e == if h.messageType != expected then WrongMessageType
                   else if h.totalLength > |packet| || h.headerLength > |packet| then BadBoundaries
                   else if rest != [] then ElementFault(rest).value
                   else NothingSupported
  {
    if h.totalLength <= |packet| {
      if rest != [] {
        FirstElementFault(es, rest, NOTHING);
      } else {
        assert EncodeElements(es) + rest == EncodeElements(es);
        WalkIsFold(es, NOTHING);
        FoldSupplies(es);
      }
    }
  }

  /** Every body is well-formed elements up to its end or its first fault. */
  lemma {:induction false} BodyOfElements(body: seq<byte>) returns (es: seq<Element>, rest: seq<byte>)
    ensures body == EncodeElements(es) + rest && (rest != [] ==> ElementFault(rest).Some?)
    ensures forall e | e in es :: Encodable(e) && ApnFits(e)
    decreases |body|
  {
    if body == [] || ElementFault(body).Some? {
      es, rest := [], body;
    } else {
      var e, n := SoundElement(body);
      var more;
      more, rest := BodyOfElements(body[n..]);
      es := [e] + more;
      Prepended(e, more, rest);
    }
  }

  lemma Prepended(e: Element, more: seq<Element>, rest: seq<byte>)
    ensures EncodeElements([e] + more) + rest == EncodeElement(e) + (EncodeElements(more) + rest)
  {
    var es := [e] + more;
    assert es[0] == e && es[1..] == more;
    assert EncodeElements(es) == EncodeElement(e) + EncodeElements(more);
  }

  /** A body without a fault at its start begins with an element. */
  lemma SoundElement(body: seq<byte>) returns (e: Element, n: nat)
    requires body != [] && ElementFault(body).None?
    ensures 0 < n <= |body| && Encodable(e) && ApnFits(e) && body == EncodeElement(e) + body[n..]
  {
    e, n := Next(body).value.0, Next(body).value.1;
    ElementOfNext(body);
  }

  // ----- the validators -----

  function FirstFault<T>(faults: seq<(T, bool)>): Option<T> {
    if faults == [] then None else if faults[0].1 then Some(faults[0].0) else FirstFault(faults[1..])
  }

  /** The faults of a PDP context, in the order they are looked for. */
  function PdpFaults(c: PdpContext): seq<(PdpFault, bool)> {
    [
      (NoTeid, c.teid == 0), (NoMessageType, c.lastMessageType == 0), (NoPeerIp, c.peerIp == ""),
      (NoPdpImsi, c.imsi == ""), (NoApn, c.apn == ""), (ZeroPdpType, c.hasPdpType && c.pdpType == 0),
      (NoPdpUpdatedAt, c.updatedAt == 0)
    ]
  }

  lemma PdpFirstFault(c: PdpContext)
    ensures ValidateLoadedPdpContext(c) == FirstFault(PdpFaults(c))
  {
    var fs := PdpFaults(c);
    FaultSteps(fs);
    FaultSteps(fs[3..]);
    FaultSteps(fs[6..]);
  }

  /** Up to three faults at a time. */
  lemma FaultSteps<T>(fs: seq<(T, bool)>)
    ensures |fs| >= 3 ==>
              FirstFault(fs)
              == if fs[0].1 then Some(fs[0].0)
                 else if fs[1].1 then Some(fs[1].0)
                 else if fs[2].1 then Some(fs[2].0)
                 else FirstFault(fs[3..])
    ensures |fs| == 1 ==> FirstFault(fs) == if fs[0].1 then Some(fs[0].0) else None
  {
    if |fs| >= 3 {
      assert fs[1..][1..] == fs[2..] && fs[2..][1..] == fs[3..];
    }
  }

  /** A flag that stands for a step after authentication began. */
  predicate AnyFlow(c: UeContext) {
    || c.attach.authRequestSent || c.attach.authResponseReceived || c.attach.securityModeCommandSent
    || c.attach.securityModeComplete || c.attach.attachAcceptSent || c.attach.attachCompleteReceived
    || c.attach.attached
    || c.service.requestReceived || c.service.acceptSent || c.service.active || c.service.resumeRequestReceived
    || c.service.resumeAcceptSent || c.service.releaseRequestReceived || c.service.releaseCompleteSent
    || c.tau.requestReceived || c.tau.acceptSent || c.tau.completeReceived
  }

  function IdentityFaults(c: UeContext): seq<(UeFault, bool)> {
    [
      (NoImsi, c.imsi == ""), (NoUpdatedAt, c.updatedAt == 0),
      (ZeroNasType, c.lastNas.present && c.lastNas.value == 0),
      (ZeroAlgorithm, c.algorithm.present && c.algorithm.value == 0),
      (ZeroBearer, c.bearer.present && c.bearer.value == 0),
      (ZeroTrackingArea, c.area.present && c.area.value == 0)
    ]
  }

  function FlowFaults(c: UeContext): seq<(UeFault, bool)> {
    [
      (ResponseWithoutRequest, c.attach.authResponseReceived && !c.attach.authRequestSent),
      (CompleteWithoutCommand, c.attach.securityModeComplete && !c.attach.securityModeCommandSent),
      (CompleteWithoutAccept, c.attach.attachCompleteReceived && !c.attach.attachAcceptSent),
      (AttachedWithoutComplete, c.attach.attached && !c.attach.attachCompleteReceived),
      (ActiveWithoutAttach, c.service.active && (!c.attach.attached || !c.bearer.present)),
      (ResumeWithoutActive, c.service.resumeAcceptSent && !c.service.active),
      (TauWithoutAttach, c.tau.completeReceived && (!c.attach.attached || !c.area.present)),
      (DetachedButLive, c.detach.detached && (c.attach.attached || c.attach.authenticated || c.service.active)),
      (DetachedButHolding, c.detach.detached && (c.security.present || c.bearer.present || c.area.present)),
      (FlowWithoutSecurityContext, AnyFlow(c) && !c.detach.detached && !c.security.present)
    ]
  }

  /** A UE context fails for the first of its faults, and passes exactly without any. */
  lemma UeFirstFault(c: UeContext)
    ensures ValidateLoadedUeContext(c)
         == if FirstFault(IdentityFaults(c)).Some? then FirstFault(IdentityFaults(c)) else FirstFault(FlowFaults(c))
  {
    var ids, fs := IdentityFaults(c), FlowFaults(c);
    FaultSteps(ids);
    FaultSteps(ids[3..]);
    FaultSteps(fs);
    FaultSteps(fs[3..]);
    FaultSteps(fs[6..]);
    FaultSteps(fs[9..]);
    assert ids[3..][3..] == [];
    assert fs[3..][3..] == fs[6..] && fs[6..][3..] == fs[9..];
    assert AnyFlow(c) <==> InSecuredFlow(c);
  }

  // ----- the loader -----

  /** The load fails for its header, then its interfaces, then its PDP contexts, then its UE contexts. */
  lemma LoadErrors(json: string, valid: set<string>, clock: Clock)
    requires LoadTables(json, valid, clock).Err?
    ensures LoadTables(json, valid, clock).error
         == if UintField(json, "schema_version") == None then NoSchemaVersion
            else if UintField(json, "schema_version") != Some(2) then WrongSchemaVersion
            else if StampFault(json, clock) then BadSavedAt
            else if LoadIfaces(json, valid).Err? then LoadIfaces(json, valid).error
            else if LoadPdps(json, clock).Err? then LoadPdps(json, clock).error
            else if LoadUes(json, clock).Err? then LoadUes(json, clock).error
            else BadSavedAt
    ensures ObjectsUnder(json, "pdp_contexts") == None ==> LoadPdps(json, clock) == Err(NoPdpArray)
    ensures ObjectsUnder(json, "ue_contexts") == None ==> LoadUes(json, clock) == Err(NoUeArray)
    ensures ObjectsUnder(json, "interface_admin_state") == None ==> LoadIfaces(json, valid) == Ok([])
  {
  }

  predicate StampFault(json: string, clock: Clock) {
    match StringField(json, "saved_at") case None => true case Some(s) => ParseTimestamp(clock, s).None?
  }

  /** Of the objects of an array, the first that cannot be read decides the error. */
  lemma {:induction false} FirstObjectDecides<T(!new)>(objs: seq<string>, read: Reader -> Result<T, LoadError>, i: nat)
    requires i < |objs| && read(ReaderOf(objs[i])).Err?
    requires forall j :: 0 <= j < i ==> read(ReaderOf(objs[j])).Ok?
    ensures Gather(objs, read).Err? && Gather(objs, read).error == read(ReaderOf(objs[i])).error
    decreases i
  {
    if i > 0 {
      FirstObjectDecides(objs[1..], read, i - 1);
    }
  }
}
