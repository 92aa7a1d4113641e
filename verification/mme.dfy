/**
  The MME state machine of `handleDemoS1apMessage`: one UE context per IMSI, driven by the
  NAS message an Initial UE Message carries.
 */
module Mme {
  import opened Bytes
  import opened RuntimeStates
  import opened S1ap

  const ATTACH_REQUEST: byte := 0x41
  const ATTACH_COMPLETE: byte := 0x43
  const DETACH_REQUEST: byte := 0x45
  const TAU_REQUEST: byte := 0x48
  const TAU_COMPLETE: byte := 0x4A
  const SERVICE_REQUEST: byte := 0x4C
  const SERVICE_RELEASE_REQUEST: byte := 0x4E
  const SERVICE_RESUME_REQUEST: byte := 0x50
  const AUTHENTICATION_RESPONSE: byte := 0x53
  const SECURITY_MODE_COMPLETE: byte := 0x5E

  /** The key set identifier every Authentication Request offers. */
  const OFFERED_KEY_SET: byte := 0x01
  const OFFERED_ALGORITHM: byte := 0x01
  const DEFAULT_BEARER: byte := 0x05

  type UeStore = map<string, UeContext>

  /** One arriving packet with its environment: sender, clock and whether `send` goes through. */
  datatype Arrival = Arrival(packet: seq<byte>, peerId: string, now: int, sendOk: bool)

  /** What a message does to its context: refuse, store silently, or store after a reply. */
  datatype Reaction =
    | Refuse
    | Silent(context: UeContext)
    | Reply(context: UeContext, nas: seq<byte>, guti: string)

  datatype StepResult = StepResult(store: UeStore, handled: bool, downlink: Option<seq<byte>>)

  // ----- specification -----

  /** The stored or blank context with the header fields every message updates. */
  function Touched(store: UeStore, m: Carrier, peerId: string, now: int): UeContext {
    var c := if m.imsi in store then store[m.imsi] else BLANK_UE;
    c.(imsi := m.imsi,
       guti := if m.hasGuti then m.guti else c.guti,
       peerId := peerId,
       lastS1apProcedure := m.procedureCode,
       lastNas := Slot(m.nasMessageType, true),
       updatedAt := now)
  }

  /** The message names the stored security context. */
  predicate SameKey(c: UeContext, key: Option<byte>) {
    c.security.present && key == Some(c.security.value)
  }

  function KeyAndOctet(nas: seq<byte>, t: byte): Option<byte> {
    match KeySetAndOctetOf(nas, t)
    case None => None
    case Some((k, _)) => Some(k)
  }

  function OnServiceResumeRequest(c: UeContext, nas: seq<byte>): Reaction {
    if && c.attach.attached && !c.service.active && c.tau.completeReceived
       && SameKey(c, KeyAndOctet(nas, SERVICE_RESUME_REQUEST))
    then
      Reply(c.(service := ServiceFlow(false, false, true, true, true, false, false),
               detach := NO_DETACH, tau := NO_TAU, bearer := Slot(DEFAULT_BEARER, true)),
            [0x51, c.security.value, DEFAULT_BEARER], c.guti)
    else Refuse
  }

  function OnTauComplete(c: UeContext, nas: seq<byte>): Reaction {
    if c.attach.attached && c.tau.acceptSent && SameKey(c, KeySetOf(nas, TAU_COMPLETE)) then
      Silent(c.(tau := c.tau.(completeReceived := true)))
    else Refuse
  }

  function OnTauRequest(c: UeContext, nas: seq<byte>): Reaction {
    if c.attach.attached && !c.service.active && SameKey(c, KeyAndOctet(nas, TAU_REQUEST)) then
      var area := KeySetAndOctetOf(nas, TAU_REQUEST).value.1;
      Reply(c.(service := c.service.(resumeRequestReceived := false, resumeAcceptSent := false),
               detach := NO_DETACH, tau := TauFlow(true, true, false), area := Slot(area, true)),
            [0x49, c.security.value, area], c.guti)
    else Refuse
  }

  function OnDetachRequest(c: UeContext, nas: seq<byte>): Reaction {
    if c.attach.attached && SameKey(c, KeyAndOctet(nas, DETACH_REQUEST)) then
      Reply(c.(attach := NO_ATTACH, service := NO_SERVICE, detach := DetachFlow(true, true, true), tau := NO_TAU,
               security := EMPTY, algorithm := EMPTY, bearer := EMPTY, area := EMPTY),
            [0x46, c.security.value, 0x00], c.guti)
    else Refuse
  }

  function OnServiceReleaseRequest(c: UeContext, nas: seq<byte>): Reaction {
    if c.attach.attached && c.service.active && SameKey(c, KeyAndOctet(nas, SERVICE_RELEASE_REQUEST)) then
      Reply(c.(service := ServiceFlow(false, false, false, false, false, true, true),
               detach := NO_DETACH, tau := NO_TAU),
            [0x4F, c.security.value, 0x00], c.guti)
    else Refuse
  }

  function OnServiceRequest(c: UeContext, nas: seq<byte>): Reaction {
    if && c.attach.attached && c.attach.securityModeComplete
       && SameKey(c, KeyAndOctet(nas, SERVICE_REQUEST))
    then
      Reply(c.(service := ServiceFlow(true, true, true, false, false, false, false),
               detach := NO_DETACH, tau := NO_TAU, bearer := Slot(DEFAULT_BEARER, true)),
            [0x4D, c.security.value, DEFAULT_BEARER], c.guti)
    else Refuse
  }

  function OnAttachComplete(c: UeContext, nas: seq<byte>): Reaction {
    if && c.attach.attachAcceptSent && c.attach.securityModeComplete
       && SameKey(c, KeySetOf(nas, ATTACH_COMPLETE))
    then
      Silent(c.(attach := c.attach.(attachCompleteReceived := true, attached := true),
                service := NO_SERVICE, detach := NO_DETACH, tau := NO_TAU, bearer := EMPTY))
    else Refuse
  }

  /** No service; the resume flags stay, as they do in the code. */
  function ServiceButResumeCleared(f: ServiceFlow): ServiceFlow {
    ServiceFlow(false, false, false, f.resumeRequestReceived, f.resumeAcceptSent, false, false)
  }

  function OnSecurityModeComplete(c: UeContext, nas: seq<byte>): Reaction {
    if c.attach.securityModeCommandSent && SameKey(c, KeySetOf(nas, SECURITY_MODE_COMPLETE)) then
      Reply(c.(attach := c.attach.(securityModeComplete := true, attachAcceptSent := true,
                                   attachCompleteReceived := false, attached := false),
               service := ServiceButResumeCleared(c.service),
               detach := NO_DETACH, tau := NO_TAU, bearer := EMPTY),
            [0x42, c.security.value, 0x01], c.guti)
    else Refuse
  }

  function OnAuthenticationResponse(c: UeContext, nas: seq<byte>): Reaction {
    if c.attach.authRequestSent && SameKey(c, KeySetOf(nas, AUTHENTICATION_RESPONSE)) then
      Reply(c.(attach := c.attach.(authResponseReceived := true, authenticated := true,
                                   securityModeCommandSent := true, securityModeComplete := false),
               algorithm := Slot(OFFERED_ALGORITHM, true)),
            [0x5D, c.security.value, OFFERED_ALGORITHM], c.guti)
    else Refuse
  }

  /** An Attach Request always restarts the flow; its reply names only the GUTI of the request itself. */
  function OnAttachRequest(c: UeContext, messageGuti: string): Reaction {
    Reply(c.(attach := NO_ATTACH.(authRequestSent := true),
             service := ServiceButResumeCleared(c.service),
             detach := NO_DETACH, tau := NO_TAU,
             security := Slot(OFFERED_KEY_SET, true), algorithm := EMPTY, bearer := EMPTY, area := EMPTY),
          [0x52, OFFERED_KEY_SET], messageGuti)
  }

  function React(c: UeContext, m: Carrier): Reaction {
    var t, nas := m.nasMessageType, m.nasPdu;
    if t == SERVICE_RESUME_REQUEST then OnServiceResumeRequest(c, nas)
    else if t == TAU_COMPLETE then OnTauComplete(c, nas)
    else if t == TAU_REQUEST then OnTauRequest(c, nas)
    else if t == DETACH_REQUEST then OnDetachRequest(c, nas)
    else if t == SERVICE_RELEASE_REQUEST then OnServiceReleaseRequest(c, nas)
    else if t == SERVICE_REQUEST then OnServiceRequest(c, nas)
    else if t == ATTACH_COMPLETE then OnAttachComplete(c, nas)
    else if t == SECURITY_MODE_COMPLETE then OnSecurityModeComplete(c, nas)
    else if t == AUTHENTICATION_RESPONSE then OnAuthenticationResponse(c, nas)
    else if t == ATTACH_REQUEST then OnAttachRequest(c, m.guti)
    else Silent(c.(attach := c.attach.(authenticated := false)))
  }

  /** A refused message and a failed send leave the store alone. */
  function Commit(store: UeStore, m: Carrier, reaction: Reaction, sendOk: bool): StepResult {
    match reaction
    case Refuse => StepResult(store, false, None)
    case Silent(c) => StepResult(store[c.imsi := c], true, None)
    case Reply(c, nas, guti) =>
      var packet := Downlink(m.imsi, guti, nas);
      if sendOk then StepResult(store[c.imsi := c], true, Some(packet))
      else StepResult(store, false, Some(packet))
  }

  function Step(store: UeStore, a: Arrival): StepResult {
    match ParsedCarrier(a.packet, INITIAL_UE_MESSAGE)
    case Err(_) => StepResult(store, false, None)
    case Ok(m) => Commit(store, m, React(Touched(store, m, a.peerId, a.now), m), a.sendOk)
  }

  /** The store after a whole sequence of arrivals. */
  function RunFrom(start: UeStore, run: seq<Arrival>): UeStore {
    if run == [] then start else Step(RunFrom(start, run[..|run| - 1]), run[|run| - 1]).store
  }

  /** The same, starting from nothing. */
  function RunStore(run: seq<Arrival>): UeStore {
    RunFrom(map[], run)
  }

  // ----- the code: one method per message, updating the local context field by field -----

  method HandleServiceResumeRequest(received: UeContext, nas: seq<byte>) returns (reaction: Reaction)
    ensures reaction == OnServiceResumeRequest(received, nas)
  {
    var context := received;
    var attach, service, detach, tau := context.attach, context.service, context.detach, context.tau;
    var request := KeySetAndOctetOf(nas, SERVICE_RESUME_REQUEST);
    if request.None? {
      return Refuse;
    }
    if !attach.attached || service.active || !tau.completeReceived || !context.security.present {
      return Refuse;
    }
    if request.value.0 != context.security.value {
      return Refuse;
    }
    var accept := [0x51, context.security.value, DEFAULT_BEARER];
    var acceptInfo := KeySetAndOctetOf(accept, 0x51);
    if acceptInfo.None? {
      return Refuse;
    }
    service := service.(requestReceived := false);
    service := service.(acceptSent := false);
    service := service.(active := true);
    service := service.(resumeRequestReceived := true);
    service := service.(resumeAcceptSent := true);
    service := service.(releaseRequestReceived := false);
    service := service.(releaseCompleteSent := false);
    detach := detach.(requestReceived := false);
    detach := detach.(acceptSent := false);
    detach := detach.(detached := false);
    tau := tau.(requestReceived := false);
    tau := tau.(acceptSent := false);
    tau := tau.(completeReceived := false);
    context := context.(bearer := Slot(acceptInfo.value.1, true));
    context := context.(attach := attach, service := service, detach := detach, tau := tau);
    reaction := Reply(context, accept, context.guti);
  }

  method HandleTauComplete(received: UeContext, nas: seq<byte>) returns (reaction: Reaction)
    ensures reaction == OnTauComplete(received, nas)
  {
    var context := received;
    var attach, service, detach, tau := context.attach, context.service, context.detach, context.tau;
    var complete := KeySetOf(nas, TAU_COMPLETE);
    if complete.None? {
      return Refuse;
    }
    if !attach.attached || !tau.acceptSent || !context.security.present {
      return Refuse;
    }
    if complete.value != context.security.value {
      return Refuse;
    }
    tau := tau.(completeReceived := true);
    context := context.(attach := attach, service := service, detach := detach, tau := tau);
    reaction := Silent(context);
  }

  method HandleTauRequest(received: UeContext, nas: seq<byte>) returns (reaction: Reaction)
    ensures reaction == OnTauRequest(received, nas)
  {
    var context := received;
    var attach, service, detach, tau := context.attach, context.service, context.detach, context.tau;
    var request := KeySetAndOctetOf(nas, TAU_REQUEST);
    if request.None? {
      return Refuse;
    }
    if !attach.attached || service.active || !context.security.present {
      return Refuse;
    }
    if request.value.0 != context.security.value {
      return Refuse;
    }
    var accept := [0x49, context.security.value, request.value.1];
    var acceptInfo := KeySetAndOctetOf(accept, 0x49);
    if acceptInfo.None? {
      return Refuse;
    }
    tau := tau.(requestReceived := true);
    tau := tau.(acceptSent := true);
    tau := tau.(completeReceived := false);
    service := service.(resumeRequestReceived := false);
    service := service.(resumeAcceptSent := false);
    context := context.(area := Slot(acceptInfo.value.1, true));
    detach := detach.(requestReceived := false);
    detach := detach.(acceptSent := false);
    detach := detach.(detached := false);
    context := context.(attach := attach, service := service, detach := detach, tau := tau);
    reaction := Reply(context, accept, context.guti);
  }

  method HandleDetachRequest(received: UeContext, nas: seq<byte>) returns (reaction: Reaction)
    ensures reaction == OnDetachRequest(received, nas)
  {
    var context := received;
    var attach, service, detach, tau := context.attach, context.service, context.detach, context.tau;
    var request := KeySetAndOctetOf(nas, DETACH_REQUEST);
    if request.None? {
      return Refuse;
    }
    if !attach.attached || !context.security.present {
      return Refuse;
    }
    if request.value.0 != context.security.value {
      return Refuse;
    }
    var accept := [0x46, context.security.value, 0x00];
    if KeySetAndOctetOf(accept, 0x46).None? {
      return Refuse;
    }
    detach := detach.(requestReceived := true, acceptSent := true, detached := true);
    attach := attach.(authenticated := false);
    attach := attach.(authRequestSent := false, authResponseReceived := false);
    attach := attach.(securityModeCommandSent := false, securityModeComplete := false);
    attach := attach.(attachAcceptSent := false, attachCompleteReceived := false, attached := false);
    service := service.(requestReceived := false, acceptSent := false, active := false);
    service := service.(resumeRequestReceived := false, resumeAcceptSent := false);
    service := service.(releaseRequestReceived := false, releaseCompleteSent := false);
    context := context.(security := Slot(0, false));
    context := context.(algorithm := Slot(0, false));
    context := context.(bearer := Slot(0, false));
    tau := tau.(requestReceived := false, acceptSent := false, completeReceived := false);
    context := context.(area := Slot(0, false));
    context := context.(attach := attach, service := service, detach := detach, tau := tau);
    reaction := Reply(context, accept, context.guti);
  }

  method HandleServiceReleaseRequest(received: UeContext, nas: seq<byte>) returns (reaction: Reaction)
    ensures reaction == OnServiceReleaseRequest(received, nas)
  {
    var context := received;
    var attach, service, detach, tau := context.attach, context.service, context.detach, context.tau;
    var request := KeySetAndOctetOf(nas, SERVICE_RELEASE_REQUEST);
    if request.None? {
      return Refuse;
    }
    if !attach.attached || !service.active || !context.security.present {
      return Refuse;
    }
    if request.value.0 != context.security.value {
      return Refuse;
    }
    var complete := [0x4F, context.security.value, 0x00];
    if KeySetAndOctetOf(complete, 0x4F).None? {
      return Refuse;
    }
    service := service.(releaseRequestReceived := true);
    service := service.(releaseCompleteSent := true);
    service := service.(requestReceived := false);
    service := service.(acceptSent := false);
    service := service.(active := false);
    service := service.(resumeRequestReceived := false);
    service := service.(resumeAcceptSent := false);
    detach := detach.(requestReceived := false, acceptSent := false, detached := false);
    tau := tau.(requestReceived := false, acceptSent := false, completeReceived := false);
    context := context.(attach := attach, service := service, detach := detach, tau := tau);
    reaction := Reply(context, complete, context.guti);
  }

  method HandleServiceRequest(received: UeContext, nas: seq<byte>) returns (reaction: Reaction)
    ensures reaction == OnServiceRequest(received, nas)
  {
    var context := received;
    var attach, service, detach, tau := context.attach, context.service, context.detach, context.tau;
    var request := KeySetAndOctetOf(nas, SERVICE_REQUEST);
    if request.None? {
      return Refuse;
    }
    if !attach.attached || !attach.securityModeComplete || !context.security.present {
      return Refuse;
    }
    if request.value.0 != context.security.value {
      return Refuse;
    }
    var accept := [0x4D, context.security.value, DEFAULT_BEARER];
    var acceptInfo := KeySetAndOctetOf(accept, 0x4D);
    if acceptInfo.None? {
      return Refuse;
    }
    service := service.(requestReceived := true);
    service := service.(acceptSent := true);
    service := service.(active := true);
    service := service.(resumeRequestReceived := false, resumeAcceptSent := false);
    service := service.(releaseRequestReceived := false, releaseCompleteSent := false);
    detach := detach.(requestReceived := false, acceptSent := false, detached := false);
    tau := tau.(requestReceived := false, acceptSent := false, completeReceived := false);
    context := context.(bearer := Slot(acceptInfo.value.1, true));
    context := context.(attach := attach, service := service, detach := detach, tau := tau);
    reaction := Reply(context, accept, context.guti);
  }

  method HandleAttachComplete(received: UeContext, nas: seq<byte>) returns (reaction: Reaction)
    ensures reaction == OnAttachComplete(received, nas)
  {
    var context := received;
    var attach, service, detach, tau := context.attach, context.service, context.detach, context.tau;
    var complete := KeySetOf(nas, ATTACH_COMPLETE);
    if complete.None? {
      return Refuse;
    }
    if !attach.attachAcceptSent || !attach.securityModeComplete || !context.security.present {
      return Refuse;
    }
    if complete.value != context.security.value {
      return Refuse;
    }
    attach := attach.(attachCompleteReceived := true, attached := true);
    service := service.(requestReceived := false, acceptSent := false, active := false);
    service := service.(resumeRequestReceived := false, resumeAcceptSent := false);
    service := service.(releaseRequestReceived := false, releaseCompleteSent := false);
    detach := detach.(requestReceived := false, acceptSent := false, detached := false);
    tau := tau.(requestReceived := false, acceptSent := false, completeReceived := false);
    context := context.(bearer := Slot(0, false));
    context := context.(attach := attach, service := service, detach := detach, tau := tau);
    reaction := Silent(context);
  }

  method HandleSecurityModeComplete(received: UeContext, nas: seq<byte>) returns (reaction: Reaction)
    ensures reaction == OnSecurityModeComplete(received, nas)
  {
    var context := received;
    var attach, service, detach, tau := context.attach, context.service, context.detach, context.tau;
    var complete := KeySetOf(nas, SECURITY_MODE_COMPLETE);
    if complete.None? {
      return Refuse;
    }
    if !attach.securityModeCommandSent || !context.security.present {
      return Refuse;
    }
    if complete.value != context.security.value {
      return Refuse;
    }
    attach := attach.(securityModeComplete := true);
    var accept := [0x42, context.security.value, 0x01];
    if KeySetAndOctetOf(accept, 0x42).None? {
      return Refuse;
    }
    attach := attach.(attachAcceptSent := true, attachCompleteReceived := false, attached := false);
    service := service.(requestReceived := false, acceptSent := false, active := false);
    service := service.(releaseRequestReceived := false, releaseCompleteSent := false);
    detach := detach.(requestReceived := false, acceptSent := false, detached := false);
    tau := tau.(requestReceived := false, acceptSent := false, completeReceived := false);
    context := context.(bearer := Slot(0, false));
    context := context.(attach := attach, service := service, detach := detach, tau := tau);
    reaction := Reply(context, accept, context.guti);
  }

  method HandleAuthenticationResponse(received: UeContext, nas: seq<byte>) returns (reaction: Reaction)
    ensures reaction == OnAuthenticationResponse(received, nas)
  {
    var context := received;
    var attach, service, detach, tau := context.attach, context.service, context.detach, context.tau;
    var response := KeySetOf(nas, AUTHENTICATION_RESPONSE);
    if response.None? {
      return Refuse;
    }
    if !attach.authRequestSent || !context.security.present {
      return Refuse;
    }
    if response.value != context.security.value {
      return Refuse;
    }
    attach := attach.(authResponseReceived := true);
    attach := attach.(authenticated := true);
    var command := [0x5D, context.security.value, OFFERED_ALGORITHM];
    var commandInfo := KeySetAndOctetOf(command, 0x5D);
    if commandInfo.None? {
      return Refuse;
    }
    context := context.(algorithm := Slot(commandInfo.value.1, true));
    attach := attach.(securityModeCommandSent := true);
    attach := attach.(securityModeComplete := false);
    context := context.(attach := attach, service := service, detach := detach, tau := tau);
    reaction := Reply(context, command, context.guti);
  }

  method HandleAttachRequest(received: UeContext, messageGuti: string) returns (reaction: Reaction)
    ensures reaction == OnAttachRequest(received, messageGuti)
  {
    var context := received;
    var attach, service, detach, tau := context.attach, context.service, context.detach, context.tau;
    var request := [0x52, OFFERED_KEY_SET];
    var requestInfo := KeySetOf(request, 0x52);
    if requestInfo.None? {
      return Refuse;
    }
    attach := attach.(authenticated := false);
    attach := attach.(authRequestSent := true);
    attach := attach.(authResponseReceived := false);
    attach := attach.(securityModeCommandSent := false, securityModeComplete := false);
    attach := attach.(attachAcceptSent := false, attachCompleteReceived := false, attached := false);
    service := service.(requestReceived := false, acceptSent := false, active := false);
    service := service.(releaseRequestReceived := false, releaseCompleteSent := false);
    detach := detach.(requestReceived := false, acceptSent := false, detached := false);
    tau := tau.(requestReceived := false, acceptSent := false, completeReceived := false);
    context := context.(security := Slot(requestInfo.value, true));
    context := context.(algorithm := Slot(0, false));
    context := context.(bearer := Slot(0, false));
    context := context.(area := Slot(0, false));
    context := context.(attach := attach, service := service, detach := detach, tau := tau);
    reaction := Reply(context, request, messageGuti);
  }

  method Dispatch(context: UeContext, message: Carrier) returns (reaction: Reaction)
    ensures reaction == React(context, message)
  {
    var nasType, nas := message.nasMessageType, message.nasPdu;
    if nasType == SERVICE_RESUME_REQUEST {
      reaction := HandleServiceResumeRequest(context, nas);
    } else if nasType == TAU_COMPLETE {
      reaction := HandleTauComplete(context, nas);
    } else if nasType == TAU_REQUEST {
      reaction := HandleTauRequest(context, nas);
    } else if nasType == DETACH_REQUEST {
      reaction := HandleDetachRequest(context, nas);
    } else if nasType == SERVICE_RELEASE_REQUEST {
      reaction := HandleServiceReleaseRequest(context, nas);
    } else if nasType == SERVICE_REQUEST {
      reaction := HandleServiceRequest(context, nas);
    } else if nasType == ATTACH_COMPLETE {
      reaction := HandleAttachComplete(context, nas);
    } else if nasType == SECURITY_MODE_COMPLETE {
      reaction := HandleSecurityModeComplete(context, nas);
    } else if nasType == AUTHENTICATION_RESPONSE {
      reaction := HandleAuthenticationResponse(context, nas);
    } else if nasType != ATTACH_REQUEST {
      reaction := Silent(context.(attach := context.attach.(authenticated := false)));
    } else {
      reaction := HandleAttachRequest(context, message.guti);
    }
  }

  method HandleDemoS1apMessage(state: RuntimeState, a: Arrival) returns (handled: bool, downlink: Option<seq<byte>>)
    modifies state`ueContexts
    ensures StepResult(state.ueContexts, handled, downlink) == Step(old(state.ueContexts), a)
  {
    var parsed := ParseDemoNasCarrier(a.packet, INITIAL_UE_MESSAGE);
    if parsed.Err? {
      return false, None;
    }
    var message := parsed.value;
    var _, context := state.TryGetUeContext(message.imsi);
    context := context.(imsi := message.imsi);
    context := context.(guti := if message.hasGuti then message.guti else context.guti);
    context := context.(peerId := a.peerId);
    context := context.(lastS1apProcedure := message.procedureCode);
    context := context.(lastNas := Slot(message.nasMessageType, true));
    context := context.(updatedAt := a.now);
    assert context == Touched(state.ueContexts, message, a.peerId, a.now);

    var reaction := Dispatch(context, message);
    match reaction {
      case Refuse =>
        return false, None;
      case Silent(c) =>
        state.UpsertUeContext(c);
        return true, None;
      case Reply(c, nas, guti) =>
        var response := BuildDemoDownlinkNasTransport(message.imsi, guti, nas);
        downlink := Some(response);
        if !a.sendOk {
          return false, downlink;
        }
        state.UpsertUeContext(c);
        return true, downlink;
    }
  }

  /** The S1AP server loop, from whatever table the start left: messages are handled one after another. */
  method Serve(state: RuntimeState, arrivals: seq<Arrival>)
    modifies state`ueContexts
    ensures state.ueContexts == RunFrom(old(state.ueContexts), arrivals)
  {
    ghost var start := state.ueContexts;
    for i := 0 to |arrivals|
      invariant state.ueContexts == RunFrom(start, arrivals[..i])
    {
      assert arrivals[..i + 1][..i] == arrivals[..i];
      var _, _ := HandleDemoS1apMessage(state, arrivals[i]);
    }
    assert arrivals[..|arrivals|] == arrivals;
  }
}
