/** What a UE context says about the accepted messages that led to it. */
module MmeHistory {
  import opened Bytes
  import opened RuntimeStates
  import opened S1ap
  import opened Mme

  /** An accepted message: its NAS type and, if long enough, its key set identifier. */
  datatype Event = Event(nasType: byte, key: Option<byte>)

  function EventOf(store: UeStore, a: Arrival, imsi: string): seq<Event> {
    match ParsedCarrier(a.packet, INITIAL_UE_MESSAGE)
    case Err(_) => []
    case Ok(m) =>
      if m.imsi == imsi && Step(store, a).handled then
        [Event(m.nasMessageType, KeySetOf(m.nasPdu, m.nasMessageType))]
      else []
  }

  /** The messages accepted for one IMSI, oldest first. */
  function History(start: UeStore, run: seq<Arrival>, imsi: string): seq<Event> {
    if run == [] then []
    else
      var init := run[..|run| - 1];
      History(start, init, imsi) + EventOf(RunFrom(start, init), run[|run| - 1], imsi)
  }

  /** The context an IMSI has in a table, or a blank one. */
  function ContextIn(store: UeStore, imsi: string): UeContext {
    if imsi in store then store[imsi] else BLANK_UE
  }

  /** The part of one step that concerns one IMSI: nothing, or one accepted event. */
  lemma StepOnOne(store: UeStore, a: Arrival, imsi: string)
    ensures var after := Step(store, a).store;
            var events := EventOf(store, a, imsi);
            if events == [] then
              (imsi in after <==> imsi in store) && (imsi in store ==> after[imsi] == store[imsi])
            else
              && imsi in after && |events| == 1
              && ParsedCarrier(a.packet, INITIAL_UE_MESSAGE).Ok?
              && var m := ParsedCarrier(a.packet, INITIAL_UE_MESSAGE).value;
                 && events[0] == Event(m.nasMessageType, KeySetOf(m.nasPdu, m.nasMessageType))
                 && m.nasPdu != [] && m.nasMessageType == m.nasPdu[0]
                 && var c := Touched(store, m, a.peerId, a.now);
                    && c.imsi == imsi
                    && !React(c, m).Refuse? && after[imsi] == React(c, m).context
                    && var before := ContextIn(store, imsi);
                       c.attach == before.attach && c.service == before.service && c.security == before.security
  {
    if ParsedCarrier(a.packet, INITIAL_UE_MESSAGE).Ok? {
      ParsedTextIsGood(a.packet, INITIAL_UE_MESSAGE);
    }
  }

  /** A context exists exactly when it was there at the start or some message was accepted for its IMSI. */
  lemma {:induction false} KnownIffHeard(start: UeStore, run: seq<Arrival>, imsi: string)
    ensures imsi in RunFrom(start, run) <==> imsi in start || History(start, run, imsi) != []
  {
    if run != [] {
      KnownIffHeard(start, run[..|run| - 1], imsi);
      StepOnOne(RunFrom(start, run[..|run| - 1]), run[|run| - 1], imsi);
    }
  }

  // ----- state flags are functions of the history -----

  const ATTACH_MARKERS := {ATTACH_REQUEST, DETACH_REQUEST, SECURITY_MODE_COMPLETE, ATTACH_COMPLETE}
  const SERVICE_MARKERS := ATTACH_MARKERS + {SERVICE_REQUEST, SERVICE_RESUME_REQUEST, SERVICE_RELEASE_REQUEST}

  /** The NAS type of the latest event among the given kinds. */
  function LatestOf(h: seq<Event>, kinds: set<byte>): Option<byte> {
    if h == [] then None
    else if h[|h| - 1].nasType in kinds then Some(h[|h| - 1].nasType)
    else LatestOf(h[..|h| - 1], kinds)
  }

  /** The flags of a context agree with the latest markers of its history, or without one are as at the start. */
  predicate FlagsMatch(start: UeContext, h: seq<Event>, attach: AttachFlow, service: ServiceFlow) {
    var attachMarker, serviceMarker := LatestOf(h, ATTACH_MARKERS), LatestOf(h, SERVICE_MARKERS);
    && (attach.attached <==>
          if attachMarker.None? then start.attach.attached else attachMarker.value == ATTACH_COMPLETE)
    && (service.active <==>
          if serviceMarker.None? then start.service.active
          else serviceMarker.value == SERVICE_REQUEST || serviceMarker.value == SERVICE_RESUME_REQUEST)
  }

  lemma FlagsMatchOn(start: UeContext, h: seq<Event>, c: UeContext, m: Carrier, e: Event)
    requires FlagsMatch(start, h, c.attach, c.service)
    requires e.nasType == m.nasMessageType && !React(c, m).Refuse?
    ensures FlagsMatch(start, h + [e], React(c, m).context.attach, React(c, m).context.service)
  {
    assert (h + [e])[..|h|] == h;
  }

  /**
    A UE is attached exactly when, among the accepted Attach Request, Detach Request, Security Mode
    Complete and Attach Complete messages, the latest is an Attach Complete; its service is active
    exactly when, adding the service messages, the latest is a Service Request or Service Resume Request.
    Without such a message either is as it was at the start.
   */
  lemma {:induction false} FlagsFollowHistory(start: UeStore, run: seq<Arrival>, imsi: string)
    ensures var c := ContextIn(RunFrom(start, run), imsi);
            FlagsMatch(ContextIn(start, imsi), History(start, run, imsi), c.attach, c.service)
  {
    if run != [] {
      var init, a := run[..|run| - 1], run[|run| - 1];
      var store := RunFrom(start, init);
      FlagsFollowHistory(start, init, imsi);
      StepOnOne(store, a, imsi);
      var h, e := History(start, init, imsi), EventOf(store, a, imsi);
      if e == [] {
        assert History(start, run, imsi) == h;
      } else {
        var m := ParsedCarrier(a.packet, INITIAL_UE_MESSAGE).value;
        FlagsMatchOn(ContextIn(start, imsi), h, Touched(store, m, a.peerId, a.now), m, e[0]);
        assert e == [e[0]];
      }
    }
  }

  // ----- the order of the attach procedure -----

  predicate Resets(e: Event) {
    e.nasType == ATTACH_REQUEST || e.nasType == DETACH_REQUEST
  }

  /** Neither an Attach Request nor a Detach Request was accepted from a position on. */
  predicate NoResetFrom(h: seq<Event>, from: nat) {
    forall j :: from <= j < |h| ==> !Resets(h[j])
  }

  predicate HeardAt(h: seq<Event>, i: int, nasType: byte, key: byte) {
    0 <= i < |h| && h[i] == Event(nasType, Some(key))
  }

  /** The positions of the procedure's messages; a message that came before the start has a negative one. */
  datatype Trail = Trail(request: int, response: int, secured: int, complete: int)

  /** The Attach Request was accepted and nothing reset it, or the flow was under way at the start. */
  predicate RequestedBy(flow: AttachFlow, h: seq<Event>, t: Trail) {
    if t.request < 0 then flow.authRequestSent && NoResetFrom(h, 0)
    else t.request < |h| && h[t.request].nasType == ATTACH_REQUEST && NoResetFrom(h, t.request + 1)
  }

  predicate CommandedBy(flow: AttachFlow, h: seq<Event>, key: byte, t: Trail) {
    if t.response < 0 then flow.securityModeCommandSent && NoResetFrom(h, 0)
    else t.request < t.response && HeardAt(h, t.response, AUTHENTICATION_RESPONSE, key) && RequestedBy(flow, h, t)
  }

  predicate SecuredBy(flow: AttachFlow, h: seq<Event>, key: byte, t: Trail) {
    if t.secured < 0 then flow.attachAcceptSent && NoResetFrom(h, 0)
    else t.response < t.secured && HeardAt(h, t.secured, SECURITY_MODE_COMPLETE, key) && CommandedBy(flow, h, key, t)
  }

  predicate CompletedBy(flow: AttachFlow, h: seq<Event>, key: byte, t: Trail) {
    if t.complete < 0 then flow.attached && NoResetFrom(h, 0)
    else t.secured < t.complete && HeardAt(h, t.complete, ATTACH_COMPLETE, key) && SecuredBy(flow, h, key, t)
  }

  /** Each flag of the present flow has its trail; what was heard since the start still shows in the earlier flags. */
  predicate Follows(flow: AttachFlow, h: seq<Event>, c: UeContext, t: Trail) {
    && (c.attach.authRequestSent ==> RequestedBy(flow, h, t))
    && (c.attach.securityModeCommandSent ==> CommandedBy(flow, h, c.security.value, t))
    && (c.attach.attachAcceptSent ==> SecuredBy(flow, h, c.security.value, t))
    && (c.attach.attached ==> CompletedBy(flow, h, c.security.value, t))
    && (c.attach.attachAcceptSent && t.secured >= 0 ==> c.attach.securityModeCommandSent)
    && (c.attach.attached && t.complete >= 0 ==> c.attach.attachAcceptSent)
  }

  /** A message that does not reset the procedure leaves its trail. */
  lemma TrailStays(flow: AttachFlow, h: seq<Event>, e: Event, key: byte, t: Trail)
    requires !Resets(e)
    ensures RequestedBy(flow, h, t) ==> RequestedBy(flow, h + [e], t)
    ensures CommandedBy(flow, h, key, t) ==> CommandedBy(flow, h + [e], key, t)
    ensures SecuredBy(flow, h, key, t) ==> SecuredBy(flow, h + [e], key, t)
    ensures CompletedBy(flow, h, key, t) ==> CompletedBy(flow, h + [e], key, t)
  {
    assert forall i :: 0 <= i < |h| ==> (h + [e])[i] == h[i];
  }

  /** The message goes on from its trail. */
  function Extended(h: seq<Event>, c: UeContext, kind: byte, t: Trail): Trail {
    if kind == ATTACH_REQUEST then t.(request := |h|)
    else if kind == AUTHENTICATION_RESPONSE && !c.attach.securityModeCommandSent then t.(response := |h|)
    else if kind == SECURITY_MODE_COMPLETE then t.(secured := |h|)
    else if kind == ATTACH_COMPLETE then t.(complete := |h|)
    else t
  }

  lemma FollowsReset(flow: AttachFlow, h: seq<Event>, c: UeContext, m: Carrier, t: Trail)
    requires !React(c, m).Refuse? && (m.nasMessageType == ATTACH_REQUEST || m.nasMessageType == DETACH_REQUEST)
    ensures var e := Event(m.nasMessageType, KeySetOf(m.nasPdu, m.nasMessageType));
            Follows(flow, h + [e], React(c, m).context, Extended(h, c, m.nasMessageType, t))
  {
  }

  /** The four messages of the procedure name the stored key set. */
  lemma NamesKey(c: UeContext, m: Carrier)
    requires m.nasMessageType in {AUTHENTICATION_RESPONSE, SECURITY_MODE_COMPLETE, ATTACH_COMPLETE}
    requires !React(c, m).Refuse?
    ensures KeySetOf(m.nasPdu, m.nasMessageType) == Some(c.security.value)
  {
  }

  lemma FollowsStep(flow: AttachFlow, h: seq<Event>, c: UeContext, m: Carrier, t: Trail)
    requires Follows(flow, h, c, t) && !React(c, m).Refuse?
    requires m.nasMessageType in {AUTHENTICATION_RESPONSE, SECURITY_MODE_COMPLETE, ATTACH_COMPLETE}
    ensures var e := Event(m.nasMessageType, KeySetOf(m.nasPdu, m.nasMessageType));
            Follows(flow, h + [e], React(c, m).context, Extended(h, c, m.nasMessageType, t))
  {
    var e := Event(m.nasMessageType, KeySetOf(m.nasPdu, m.nasMessageType));
    NamesKey(c, m);
    TrailStays(flow, h, e, c.security.value, t);
    assert (h + [e])[|h|] == e;
  }

  lemma OthersKeepFlow(c: UeContext, m: Carrier)
    requires !React(c, m).Refuse?
    requires m.nasMessageType !in {AUTHENTICATION_RESPONSE, SECURITY_MODE_COMPLETE, ATTACH_COMPLETE}
    requires m.nasMessageType != ATTACH_REQUEST && m.nasMessageType != DETACH_REQUEST
    ensures var after := React(c, m).context;
            after.attach.(authenticated := c.attach.authenticated) == c.attach && after.security == c.security
  {
  }

  lemma FollowsOther(flow: AttachFlow, h: seq<Event>, c: UeContext, m: Carrier, t: Trail)
    requires Follows(flow, h, c, t) && !React(c, m).Refuse?
    requires m.nasMessageType !in {AUTHENTICATION_RESPONSE, SECURITY_MODE_COMPLETE, ATTACH_COMPLETE}
    requires m.nasMessageType != ATTACH_REQUEST && m.nasMessageType != DETACH_REQUEST
    ensures var e := Event(m.nasMessageType, KeySetOf(m.nasPdu, m.nasMessageType));
            Follows(flow, h + [e], React(c, m).context, Extended(h, c, m.nasMessageType, t))
  {
    OthersKeepFlow(c, m);
    TrailStays(flow, h, Event(m.nasMessageType, KeySetOf(m.nasPdu, m.nasMessageType)), c.security.value, t);
  }

  lemma FollowsOn(flow: AttachFlow, h: seq<Event>, c: UeContext, m: Carrier, t: Trail)
    requires Follows(flow, h, c, t) && !React(c, m).Refuse?
    ensures var e := Event(m.nasMessageType, KeySetOf(m.nasPdu, m.nasMessageType));
            Follows(flow, h + [e], React(c, m).context, Extended(h, c, m.nasMessageType, t))
  {
    if m.nasMessageType == ATTACH_REQUEST || m.nasMessageType == DETACH_REQUEST {
      FollowsReset(flow, h, c, m, t);
    } else if m.nasMessageType in {AUTHENTICATION_RESPONSE, SECURITY_MODE_COMPLETE, ATTACH_COMPLETE} {
      FollowsStep(flow, h, c, m, t);
    } else {
      FollowsOther(flow, h, c, m, t);
    }
  }

  lemma {:induction false} TrailOf(start: UeStore, run: seq<Arrival>, imsi: string) returns (t: Trail)
    ensures Follows(ContextIn(start, imsi).attach, History(start, run, imsi), ContextIn(RunFrom(start, run), imsi), t)
  {
    if run == [] {
      t := Trail(-1, -1, -1, -1);
    } else {
      var init, a := run[..|run| - 1], run[|run| - 1];
      var store := RunFrom(start, init);
      t := TrailOf(start, init, imsi);
      StepOnOne(store, a, imsi);
      var h, e := History(start, init, imsi), EventOf(store, a, imsi);
      if e == [] {
        assert History(start, run, imsi) == h;
      } else {
        var m := ParsedCarrier(a.packet, INITIAL_UE_MESSAGE).value;
        var c := Touched(store, m, a.peerId, a.now);
        FollowsOn(ContextIn(start, imsi).attach, h, c, m, t);
        t := Extended(h, c, m.nasMessageType, t);
        assert e == [e[0]];
      }
    }
  }

  /**
    If an IMSI is attached then, since its last accepted Attach Request, an Authentication Response, a Security
    Mode Complete and an Attach Complete were accepted in that order, each naming the stored key set, and no Detach
    Request; except for a first part of the procedure that the context had behind it at the start.
   */
  lemma AttachOrdering(start: UeStore, run: seq<Arrival>, imsi: string)
    requires imsi in RunFrom(start, run) && RunFrom(start, run)[imsi].attach.attached
    ensures exists t ::
              CompletedBy(ContextIn(start, imsi).attach, History(start, run, imsi),
                          RunFrom(start, run)[imsi].security.value, t)
  {
    var t := TrailOf(start, run, imsi);
    assert CompletedBy(ContextIn(start, imsi).attach, History(start, run, imsi),
                       RunFrom(start, run)[imsi].security.value, t);
  }

  predicate AttachedInOrder(h: seq<Event>, key: byte, t: Trail) {
    && 0 <= t.request < t.response < t.secured < t.complete
    && t.request < |h| && h[t.request].nasType == ATTACH_REQUEST && NoResetFrom(h, t.request + 1)
    && HeardAt(h, t.response, AUTHENTICATION_RESPONSE, key)
    && HeardAt(h, t.secured, SECURITY_MODE_COMPLETE, key)
    && HeardAt(h, t.complete, ATTACH_COMPLETE, key)
  }

  /** An IMSI that was unknown at the start, or had nothing of the procedure behind it, went through all of it. */
  lemma WholeAttachOrdering(start: UeStore, run: seq<Arrival>, imsi: string)
    requires ContextIn(start, imsi).attach.(authenticated := false) == NO_ATTACH
    requires imsi in RunFrom(start, run) && RunFrom(start, run)[imsi].attach.attached
    ensures exists t :: AttachedInOrder(History(start, run, imsi), RunFrom(start, run)[imsi].security.value, t)
  {
    AttachOrdering(start, run, imsi);
    var t :| CompletedBy(ContextIn(start, imsi).attach, History(start, run, imsi),
                         RunFrom(start, run)[imsi].security.value, t);
    assert AttachedInOrder(History(start, run, imsi), RunFrom(start, run)[imsi].security.value, t);
  }
}
