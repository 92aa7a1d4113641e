/** Which key of the snapshot holds which field: the keys are written out here beside the fields they stand for. */
module SnapshotFields {
  import opened Bytes
  import Texts
  import opened JsonText
  import opened JsonScan
  import opened JsonLines
  import opened JsonObjects
  import opened RuntimeStates
  import opened S1ap
  import opened Mme
  import opened SnapshotNames
  import opened SnapshotPrint
  import opened SnapshotRecords

  // ----- the tables -----

  type Entry = (string, Value)

  function IfaceEntries(name: string, adminUp: bool): seq<Entry> {
    [("name", Text(name)), ("admin_up", Flag(adminUp))]
  }

  function PdpEntries(c: PdpContext, clock: Clock): seq<Entry> {
    [
      ("teid", Number(c.teid)),
      ("sequence", Number(c.sequence)),
      ("pdp_type", Number(c.pdpType)),
      ("has_pdp_type", Flag(c.hasPdpType)),
      ("last_message_type", Number(c.lastMessageType)),
      ("peer_ip", Text(c.peerIp)),
      ("ggsn_ip", Text(c.ggsnIp)),
      ("imsi", Text(c.imsi)),
      ("apn", Text(c.apn)),
      ("updated_at", Text(FormatTimestamp(clock, c.updatedAt)))
    ]
  }

  function IdentityEntries(c: UeContext): seq<Entry> {
    [("imsi", Text(c.imsi)), ("guti", Text(c.guti)), ("peer_id", Text(c.peerId))]
  }

  function AttachEntries(a: AttachFlow): seq<Entry> {
    [
      ("authenticated", Flag(a.authenticated)),
      ("auth_request_sent", Flag(a.authRequestSent)),
      ("auth_response_received", Flag(a.authResponseReceived)),
      ("security_mode_command_sent", Flag(a.securityModeCommandSent)),
      ("security_mode_complete", Flag(a.securityModeComplete)),
      ("attach_accept_sent", Flag(a.attachAcceptSent)),
      ("attach_complete_received", Flag(a.attachCompleteReceived)),
      ("attached", Flag(a.attached))
    ]
  }

  function ServiceEntries(s: ServiceFlow): seq<Entry> {
    [
      ("service_request_received", Flag(s.requestReceived)),
      ("service_accept_sent", Flag(s.acceptSent)),
      ("service_active", Flag(s.active)),
      ("service_resume_request_received", Flag(s.resumeRequestReceived)),
      ("service_resume_accept_sent", Flag(s.resumeAcceptSent)),
      ("service_release_request_received", Flag(s.releaseRequestReceived)),
      ("service_release_complete_sent", Flag(s.releaseCompleteSent))
    ]
  }

  function DetachAndTauEntries(d: DetachFlow, t: TauFlow): seq<Entry> {
    [
      ("detach_request_received", Flag(d.requestReceived)),
      ("detach_accept_sent", Flag(d.acceptSent)),
      ("detached", Flag(d.detached)),
      ("tracking_area_update_request_received", Flag(t.requestReceived)),
      ("tracking_area_update_accept_sent", Flag(t.acceptSent)),
      ("tracking_area_update_complete_received", Flag(t.completeReceived))
    ]
  }

  function SlotEntries(c: UeContext): seq<Entry> {
    [
      ("last_nas_message_type", Number(c.lastNas.value)),
      ("has_last_nas_message_type", Flag(c.lastNas.present)),
      ("last_s1ap_procedure", Number(c.lastS1apProcedure)),
      ("security_context_id", Number(c.security.value)),
      ("has_security_context_id", Flag(c.security.present)),
      ("selected_nas_algorithm", Number(c.algorithm.value)),
      ("has_selected_nas_algorithm", Flag(c.algorithm.present)),
      ("default_bearer_id", Number(c.bearer.value)),
      ("has_default_bearer_id", Flag(c.bearer.present)),
      ("tracking_area_code", Number(c.area.value)),
      ("has_tracking_area_code", Flag(c.area.present))
    ]
  }

  function ClosingEntries(c: UeContext, clock: Clock): seq<Entry> {
    [("auth_flow", Text(AuthFlowState(c))), ("updated_at", Text(FormatTimestamp(clock, c.updatedAt)))]
  }

  function UeEntries(c: UeContext, clock: Clock): seq<Entry> {
    IdentityEntries(c) + AttachEntries(c.attach) + ServiceEntries(c.service) + DetachAndTauEntries(c.detach, c.tau)
    + SlotEntries(c) + ClosingEntries(c, clock)
  }

  // ----- the tables agree with the lists the printer and the reader share -----

  /** Keys and values, position by position. */
  predicate Pairs(es: seq<Entry>, keys: seq<string>, values: seq<Value>) {
    |es| == |keys| == |values| && forall i :: 0 <= i < |es| ==> es[i] == (keys[i], values[i])
  }

  lemma PairsConcat(a: seq<Entry>, ak: seq<string>, av: seq<Value>, b: seq<Entry>, bk: seq<string>, bv: seq<Value>)
    requires Pairs(a, ak, av) && Pairs(b, bk, bv)
    ensures Pairs(a + b, ak + bk, av + bv)
  {
  }

  lemma IdentityPairs(c: UeContext)
    ensures Pairs(IdentityEntries(c), IDENTITY_NAMES, IdentityValues(c))
  {
  }

  lemma AttachPairs(a: AttachFlow)
    ensures Pairs(AttachEntries(a), AUTHENTICATION_NAMES + ATTACH_NAMES, AttachValues(a))
  {
  }

  lemma ServicePairs(s: ServiceFlow)
    ensures Pairs(ServiceEntries(s), SERVICE_NAMES + IDLE_NAMES, ServiceValues(s))
  {
  }

  lemma DetachAndTauPairs(d: DetachFlow, t: TauFlow)
    ensures Pairs(DetachAndTauEntries(d, t), DETACH_NAMES + TAU_NAMES, DetachAndTauValues(d, t))
  {
  }

  lemma SlotPairs(c: UeContext)
    ensures Pairs(SlotEntries(c), LAST_NAMES + SECURITY_NAMES + BEARER_NAMES, SlotValues(c))
  {
  }

  lemma ClosingPairs(c: UeContext, clock: Clock)
    ensures Pairs(ClosingEntries(c, clock), CLOSING_NAMES, ClosingValues(c, clock))
  {
  }

  lemma UePairs(c: UeContext, clock: Clock)
    ensures Pairs(UeEntries(c, clock), UE_NAMES, UeValues(c, clock))
  {
    var keys, es, values := IDENTITY_NAMES, IdentityEntries(c), IdentityValues(c);
    IdentityPairs(c);
    AttachPairs(c.attach);
    PairsConcat(es, keys, values, AttachEntries(c.attach), AUTHENTICATION_NAMES + ATTACH_NAMES, AttachValues(c.attach));
    keys, es := keys + (AUTHENTICATION_NAMES + ATTACH_NAMES), es + AttachEntries(c.attach);
    values := values + AttachValues(c.attach);
    ServicePairs(c.service);
    PairsConcat(es, keys, values, ServiceEntries(c.service), SERVICE_NAMES + IDLE_NAMES, ServiceValues(c.service));
    FrontPairs(c, keys + (SERVICE_NAMES + IDLE_NAMES), clock);
    UeNamesInGroups();
  }

  /** The rest of a context's entries, after those up to the service flags. */
  lemma FrontPairs(c: UeContext, keys: seq<string>, clock: Clock)
    requires Pairs(IdentityEntries(c) + AttachEntries(c.attach) + ServiceEntries(c.service), keys,
                   IdentityValues(c) + AttachValues(c.attach) + ServiceValues(c.service))
    ensures Pairs(UeEntries(c, clock),
                  keys + (DETACH_NAMES + TAU_NAMES) + (LAST_NAMES + SECURITY_NAMES + BEARER_NAMES) + CLOSING_NAMES,
                  UeValues(c, clock))
  {
    var es := IdentityEntries(c) + AttachEntries(c.attach) + ServiceEntries(c.service);
    var values := IdentityValues(c) + AttachValues(c.attach) + ServiceValues(c.service);
    var moreEs, moreValues := DetachAndTauEntries(c.detach, c.tau), DetachAndTauValues(c.detach, c.tau);
    DetachAndTauPairs(c.detach, c.tau);
    PairsConcat(es, keys, values, moreEs, DETACH_NAMES + TAU_NAMES, moreValues);
    var most := keys + (DETACH_NAMES + TAU_NAMES);
    var slots := LAST_NAMES + SECURITY_NAMES + BEARER_NAMES;
    SlotPairs(c);
    PairsConcat(es + moreEs, most, values + moreValues, SlotEntries(c), slots, SlotValues(c));
    ClosingPairs(c, clock);
    PairsConcat(es + moreEs + SlotEntries(c), most + slots, values + moreValues + SlotValues(c),
                ClosingEntries(c, clock), CLOSING_NAMES, ClosingValues(c, clock));
  }

  lemma UeNamesInGroups()
    ensures UE_NAMES
         == IDENTITY_NAMES + (AUTHENTICATION_NAMES + ATTACH_NAMES) + (SERVICE_NAMES + IDLE_NAMES)
            + (DETACH_NAMES + TAU_NAMES) + (LAST_NAMES + SECURITY_NAMES + BEARER_NAMES) + CLOSING_NAMES
  {
  }

  lemma PdpPairs(c: PdpContext, clock: Clock)
    ensures Pairs(PdpEntries(c, clock), PDP_NAMES, PdpValues(c, clock))
  {
  }

  // ----- printing -----

  /** Each key of the table reads back from the text as its value. */
  predicate Shows(obj: string, es: seq<Entry>) {
    forall i :: 0 <= i < |es| ==> ReadsAs(ReaderOf(obj), es[i].0, es[i].1)
  }

  lemma PrintedShows(es: seq<Entry>, keys: seq<string>, values: seq<Value>)
    requires Pairs(es, keys, values) && GoodNames(keys) && Plainly(values)
    ensures Shows(ObjectText(FieldLines(keys, values)), es)
  {
    RecordReadsBack(keys, values);
  }

  /** In a printed record each key of the table holds its field. */
  lemma PrintedFields(name: string, up: bool, p: PdpContext, u: UeContext, clock: Clock)
    ensures Shows(ObjectText(IfaceFields(name, up)), IfaceEntries(name, up))
    ensures Shows(ObjectText(PdpFields(p, clock)), PdpEntries(p, clock))
    ensures Shows(ObjectText(UeFields(u, clock)), UeEntries(u, clock))
  {
    PdpNamesAreGood();
    UeNamesAreGood();
    UePairs(u, clock);
    PdpPairs(p, clock);
    IfaceNamesAreGood();
    PrintedShows(IfaceEntries(name, up), IFACE_NAMES, IfaceValues(name, up));
    PrintedShows(PdpEntries(p, clock), PDP_NAMES, PdpValues(p, clock));
    PrintedShows(UeEntries(u, clock), UE_NAMES, UeValues(u, clock));
  }

  lemma IfaceNamesAreGood()
    ensures |IFACE_NAMES| == 2 && GoodNames(IFACE_NAMES)
  {
  }

  // ----- reading -----

  /** A value as the loader takes it from any text; an absent flag is off, an absent number zero, a text empty. */
  predicate TakenAs(obj: string, e: Entry) {
    match e.1
    case Flag(b) => b <==> BoolField(obj, e.0) == Some(true)
    case Number(n) => n == Uint(obj, e.0) % 0x100
    case Text(s) => s == String(obj, e.0)
    case Open(_) => true
  }

  function Uint(obj: string, key: string): nat {
    match UintField(obj, key) case None => 0 case Some(n) => n
  }

  function String(obj: string, key: string): string {
    match StringField(obj, key) case None => "" case Some(s) => s
  }

  predicate Taken(obj: string, es: seq<Entry>) {
    forall i :: 0 <= i < |es| ==> TakenAs(obj, es[i])
  }

  /** The time stamp of a record, zero if it is absent. */
  predicate TakenAt(obj: string, clock: Clock, t: int) {
    match StringField(obj, "updated_at")
    case None => t == 0
    case Some(s) => ParseTimestamp(clock, s) == Some(t)
  }

  lemma UeNameSlices()
    ensures |UE_NAMES| == UE_FIELDS
    ensures UE_NAMES[0] == "imsi" && UE_NAMES[1] == "guti" && UE_NAMES[2] == "peer_id" && UE_NAMES[36] == "updated_at"
    ensures UE_NAMES[3..11] == AUTHENTICATION_NAMES + ATTACH_NAMES
    ensures UE_NAMES[11..18] == SERVICE_NAMES + IDLE_NAMES && UE_NAMES[18..24] == DETACH_NAMES + TAU_NAMES
    ensures UE_NAMES[24..35] == LAST_NAMES + SECURITY_NAMES + BEARER_NAMES
  {
  }

  /** Every flag and number among the values is what the reader takes from its key. */
  predicate Reads(r: Reader, keys: seq<string>, values: seq<Value>) {
    |keys| == |values|
    && forall i :: 0 <= i < |keys| ==>
         match values[i]
         case Flag(b) => b == FlagIn(r, keys[i])
         case Number(n) => n == OctetIn(r, keys[i])
         case _ => false
  }

  lemma ReadsAreTaken(obj: string, es: seq<Entry>, keys: seq<string>, values: seq<Value>)
    requires Pairs(es, keys, values) && Reads(ReaderOf(obj), keys, values)
    ensures Taken(obj, es)
  {
    forall i | 0 <= i < |es|
      ensures TakenAs(obj, es[i])
    {
      assert es[i] == (keys[i], values[i]);
    }
  }

  lemma AttachTaken(obj: string, keys: seq<string>)
    requires keys == AUTHENTICATION_NAMES + ATTACH_NAMES
    ensures |keys| == 8 && Taken(obj, AttachEntries(ReadAttach(ReaderOf(obj), keys)))
  {
    var a := ReadAttach(ReaderOf(obj), keys);
    AttachPairs(a);
    ReadsAreTaken(obj, AttachEntries(a), keys, AttachValues(a));
  }

  lemma ServiceTaken(obj: string, keys: seq<string>)
    requires keys == SERVICE_NAMES + IDLE_NAMES
    ensures |keys| == 7 && Taken(obj, ServiceEntries(ReadService(ReaderOf(obj), keys)))
  {
    var s := ReadService(ReaderOf(obj), keys);
    ServicePairs(s);
    ReadsAreTaken(obj, ServiceEntries(s), keys, ServiceValues(s));
  }

  lemma DetachAndTauTaken(obj: string, keys: seq<string>)
    requires keys == DETACH_NAMES + TAU_NAMES
    ensures |keys| == 6
    ensures Taken(obj, DetachAndTauEntries(ReadDetach(ReaderOf(obj), keys), ReadTau(ReaderOf(obj), keys)))
  {
    var d, t := ReadDetach(ReaderOf(obj), keys), ReadTau(ReaderOf(obj), keys);
    DetachAndTauPairs(d, t);
    ReadsAreTaken(obj, DetachAndTauEntries(d, t), keys, DetachAndTauValues(d, t));
  }

  /** The slots a reader takes from the eleven keys. */
  predicate SlotsFrom(r: Reader, c: UeContext, keys: seq<string>)
    requires |keys| == 11
  {
    && c.lastNas == SlotIn(r, keys[0], keys[1]) && c.lastS1apProcedure == OctetIn(r, keys[2])
    && c.security == SlotIn(r, keys[3], keys[4]) && c.algorithm == SlotIn(r, keys[5], keys[6])
    && c.bearer == SlotIn(r, keys[7], keys[8]) && c.area == SlotIn(r, keys[9], keys[10])
  }

  lemma SlotsTaken(obj: string, c: UeContext, keys: seq<string>)
    requires |keys| == 11 && keys == LAST_NAMES + SECURITY_NAMES + BEARER_NAMES && SlotsFrom(ReaderOf(obj), c, keys)
    ensures Taken(obj, SlotEntries(c))
  {
    SlotPairs(c);
    SlotsRead(ReaderOf(obj), c, keys);
    ReadsAreTaken(obj, SlotEntries(c), keys, SlotValues(c));
  }

  lemma SlotsRead(r: Reader, c: UeContext, keys: seq<string>)
    requires |keys| == 11 && SlotsFrom(r, c, keys)
    ensures Reads(r, keys, SlotValues(c))
  {
  }

  /** The groups of a context that is read, from the slices of any key list. */
  lemma UeParts(r: Reader, clock: Clock, keys: seq<string>)
    requires |keys| == UE_FIELDS
    ensures ReadUe(r, clock, keys) == Err(UeWithoutImsi) <==> TextIn(r, keys[0]) == ""
    ensures match ReadUe(r, clock, keys)
            case Err(_) => true
            case Ok(c) =>
              && c.imsi == TextIn(r, keys[0]) && c.guti == TextIn(r, keys[1]) && c.peerId == TextIn(r, keys[2])
              && c.attach == ReadAttach(r, keys[3..11]) && c.service == ReadService(r, keys[11..18])
              && c.detach == ReadDetach(r, keys[18..24]) && c.tau == ReadTau(r, keys[18..24])
              && SlotsFrom(r, c, keys[24..35]) && TimeIn(r, keys[36], clock) == Some(c.updatedAt)
  {
  }

  /**
    From any text, a UE context that is read takes every field from the key the table gives it, and the reading
    fails first for an absent or empty `imsi`.
   */
  lemma ReadUeFields(obj: string, clock: Clock)
    ensures |UE_NAMES| == UE_FIELDS
    ensures ReadUe(ReaderOf(obj), clock, UE_NAMES) == Err(UeWithoutImsi) <==> String(obj, "imsi") == ""
    ensures match ReadUe(ReaderOf(obj), clock, UE_NAMES)
            case Err(_) => true
            case Ok(c) =>
              && c.imsi == String(obj, "imsi") && c.guti == String(obj, "guti") && c.peerId == String(obj, "peer_id")
              && Taken(obj, AttachEntries(c.attach)) && Taken(obj, ServiceEntries(c.service))
              && Taken(obj, DetachAndTauEntries(c.detach, c.tau)) && Taken(obj, SlotEntries(c))
              && TakenAt(obj, clock, c.updatedAt)
  {
    UeNameSlices();
    var r := ReaderOf(obj);
    UeParts(r, clock, UE_NAMES);
    AttachTaken(obj, UE_NAMES[3..11]);
    ServiceTaken(obj, UE_NAMES[11..18]);
    DetachAndTauTaken(obj, UE_NAMES[18..24]);
    if ReadUe(r, clock, UE_NAMES).Ok? {
      SlotsTaken(obj, ReadUe(r, clock, UE_NAMES).value, UE_NAMES[24..35]);
    }
  }

  /** So does a PDP context; the reading fails first for an absent or unreadable `teid`. */
  lemma ReadPdpFields(obj: string, clock: Clock)
    ensures |PDP_NAMES| == PDP_FIELDS
    ensures ReadPdp(ReaderOf(obj), clock, PDP_NAMES) == Err(PdpWithoutTeid) <==> UintField(obj, "teid") == None
    ensures match ReadPdp(ReaderOf(obj), clock, PDP_NAMES)
            case Err(_) => true
            case Ok(c) =>
              && c.teid == Uint(obj, "teid") % 0x1_0000_0000 && c.sequence == Uint(obj, "sequence") % 0x1_0000
              && c.pdpType == Uint(obj, "pdp_type") % 0x100
              && c.lastMessageType == Uint(obj, "last_message_type") % 0x100
              && (c.hasPdpType <==> BoolField(obj, "has_pdp_type") == Some(true))
              && c.peerIp == String(obj, "peer_ip") && c.ggsnIp == String(obj, "ggsn_ip")
              && c.imsi == String(obj, "imsi") && c.apn == String(obj, "apn") && TakenAt(obj, clock, c.updatedAt)
  {
    PdpKeys();
  }

  lemma PdpKeys()
    ensures |PDP_NAMES| == PDP_FIELDS && PDP_NAMES[0] == "teid" && PDP_NAMES[1] == "sequence"
    ensures PDP_NAMES[2] == "pdp_type" && PDP_NAMES[3] == "has_pdp_type" && PDP_NAMES[4] == "last_message_type"
    ensures PDP_NAMES[5] == "peer_ip" && PDP_NAMES[6] == "ggsn_ip" && PDP_NAMES[7] == "imsi" && PDP_NAMES[8] == "apn"
    ensures PDP_NAMES[9] == "updated_at"
  {
  }

  /** And an interface entry, which must name a known interface and its state. */
  lemma ReadIfaceFields(obj: string, valid: set<string>)
    ensures |IFACE_NAMES| == 2
    ensures ReadIface(ReaderOf(obj), valid, IFACE_NAMES)
         == if String(obj, "name") == "" then Err(IfaceWithoutName)
            else if BoolField(obj, "admin_up") == None then Err(IfaceWithoutState)
            else if valid != {} && String(obj, "name") !in valid then Err(UnknownIface)
            else Ok((String(obj, "name"), BoolField(obj, "admin_up").value))
  {
    assert IFACE_NAMES[0] == "name" && IFACE_NAMES[1] == "admin_up";
  }

  // ----- the written text -----

  /** A field as it is written: six blanks, the quoted key, a colon and a blank, the value, and a comma or not. */
  lemma FieldText(key: string, value: Value, comma: bool)
    ensures Row(Field(INDENT, key, value, comma))
         == "      \"" + key + "\": "
            + (match value
               case Text(s) => "\"" + Escape(s) + "\""
               case Flag(b) => if b then "true" else "false"
               case Number(n) => Texts.Decimal(n)
               case Open(c) => [c])
            + (if comma then ",\n" else "\n")
  {
    assert INDENT + ("\"" + key + "\"") + ": " == "      \"" + key + "\": ";
  }

  // ----- the flow name -----

  /** The flow names with their flags, the most advanced first. */
  function FlowNames(c: UeContext): seq<(string, bool)> {
    [
      ("detached", c.detach.detached || c.detach.acceptSent),
      ("service-resume-accept-sent", c.service.resumeAcceptSent),
      ("tau-updated", c.tau.completeReceived),
      ("tau-accept-sent", c.tau.acceptSent),
      ("service-active", c.service.active),
      ("attached-idle", c.service.releaseCompleteSent),
      ("service-accept-sent", c.service.acceptSent),
      ("attach-complete", c.attach.attached || c.attach.attachCompleteReceived),
      ("attach-accept-sent", c.attach.attachAcceptSent),
      ("security-mode-complete", c.attach.securityModeComplete),
      ("security-mode-command-sent", c.attach.securityModeCommandSent),
      ("authentication-complete", c.attach.authenticated),
      ("authentication-response-received", c.attach.authResponseReceived),
      ("authentication-request-sent", c.attach.authRequestSent),
      ("attach-request-received", c.lastNas.present && c.lastNas.value == 0x41),
      ("idle", true)
    ]
  }

  /** The first name from a position whose flag is set. */
  function FirstSet(names: seq<(string, bool)>, from: nat): string
    decreases |names| - from
  {
    if from >= |names| then "" else if names[from].1 then names[from].0 else FirstSet(names, from + 1)
  }

  lemma FirstStep(names: seq<(string, bool)>, i: nat)
    requires i < |names|
    ensures FirstSet(names, i) == if names[i].1 then names[i].0 else FirstSet(names, i + 1)
  {
  }

  /** The printed name is the first whose flag is set. */
  lemma FlowNameIsFirst(c: UeContext)
    ensures AuthFlowState(c) == FirstSet(FlowNames(c), 0)
  {
    var names := FlowNames(c);
    FirstStep(names, 0);
    FirstStep(names, 1);
    FirstStep(names, 2);
    FirstStep(names, 3);
    FirstStep(names, 4);
    FirstStep(names, 5);
    FirstStep(names, 6);
    FirstStep(names, 7);
    FirstStep(names, 8);
    FirstStep(names, 9);
    FirstStep(names, 10);
    FirstStep(names, 11);
    FirstStep(names, 12);
    FirstStep(names, 13);
    FirstStep(names, 14);
    FirstStep(names, 15);
  }

  /** After most messages the name says which was accepted last, unless a resume flag was left behind. */
  lemma FlowNamesLastMessage(c: UeContext, m: Carrier)
    requires m.nasPdu != [] && m.nasMessageType == m.nasPdu[0] && !React(c, m).Refuse?
    ensures var after := React(c, m).context;
            match m.nasPdu[0]
            case 0x45 => AuthFlowState(after) == "detached"
            case 0x50 => AuthFlowState(after) == "service-resume-accept-sent"
            case 0x48 => AuthFlowState(after) == "tau-accept-sent"
            case 0x4C => AuthFlowState(after) == "service-active"
            case 0x4E => AuthFlowState(after) == "attached-idle"
            case 0x43 => AuthFlowState(after) == "attach-complete"
            case 0x5E => AuthFlowState(after) == "attach-accept-sent" <==> !c.service.resumeAcceptSent
            case 0x41 => AuthFlowState(after) == "authentication-request-sent" <==> !c.service.resumeAcceptSent
            case _ => true
  {
  }
}
