/** The records and maps of `VNodeController` that survive between messages. */
module RuntimeStates {
  import opened Bytes

  datatype PdpContext = PdpContext(
    teid: uint32,
    sequence: uint16,
    pdpType: byte,
    hasPdpType: bool,
    lastMessageType: byte,
    peerIp: string,
    ggsnIp: string,
    imsi: string,
    apn: string,
    updatedAt: int)

  /** An octet with its `has_` flag. */
  datatype Slot = Slot(value: byte, present: bool)

  /** Authentication, security mode and attach, in the order a UE goes through them. */
  datatype AttachFlow = AttachFlow(
    authenticated: bool,
    authRequestSent: bool,
    authResponseReceived: bool,
    securityModeCommandSent: bool,
    securityModeComplete: bool,
    attachAcceptSent: bool,
    attachCompleteReceived: bool,
    attached: bool)

  datatype ServiceFlow = ServiceFlow(
    requestReceived: bool,
    acceptSent: bool,
    active: bool,
    resumeRequestReceived: bool,
    resumeAcceptSent: bool,
    releaseRequestReceived: bool,
    releaseCompleteSent: bool)

  datatype DetachFlow = DetachFlow(requestReceived: bool, acceptSent: bool, detached: bool)

  /** Tracking area update. */
  datatype TauFlow = TauFlow(requestReceived: bool, acceptSent: bool, completeReceived: bool)

  /** The fields of the source's flat record, grouped by procedure. */
  datatype UeContext = UeContext(
    imsi: string,
    guti: string,
    peerId: string,
    attach: AttachFlow,
    service: ServiceFlow,
    detach: DetachFlow,
    tau: TauFlow,
    lastNas: Slot,
    lastS1apProcedure: byte,
    security: Slot,
    algorithm: Slot,
    bearer: Slot,
    area: Slot,
    updatedAt: int)

  const EMPTY: Slot := Slot(0, false)
  const NO_ATTACH: AttachFlow := AttachFlow(false, false, false, false, false, false, false, false)
  const NO_SERVICE: ServiceFlow := ServiceFlow(false, false, false, false, false, false, false)
  const NO_DETACH: DetachFlow := DetachFlow(false, false, false)
  const NO_TAU: TauFlow := TauFlow(false, false, false)

  const BLANK_PDP: PdpContext := PdpContext(0, 0, 0, false, 0, "", "", "", "", 0)

  const BLANK_UE: UeContext :=
    UeContext("", "", "", NO_ATTACH, NO_SERVICE, NO_DETACH, NO_TAU, EMPTY, 0, EMPTY, EMPTY, EMPTY, EMPTY, 0)

  // ----- the load-time validators, first failing clause first -----

  datatype PdpFault = NoTeid | NoMessageType | NoPeerIp | NoPdpImsi | NoApn | ZeroPdpType | NoPdpUpdatedAt

  function ValidateLoadedPdpContext(c: PdpContext): Option<PdpFault> {
    if c.teid == 0 then Some(NoTeid)
    else if c.lastMessageType == 0 then Some(NoMessageType)
    else if c.peerIp == "" then Some(NoPeerIp)
    else if c.imsi == "" then Some(NoPdpImsi)
    else if c.apn == "" then Some(NoApn)
    else if c.hasPdpType && c.pdpType == 0 then Some(ZeroPdpType)
    else if c.updatedAt == 0 then Some(NoPdpUpdatedAt)
    else None
  }

  datatype UeFault =
    | NoImsi | NoUpdatedAt | ZeroNasType | ZeroAlgorithm | ZeroBearer | ZeroTrackingArea
    | ResponseWithoutRequest | CompleteWithoutCommand | CompleteWithoutAccept | AttachedWithoutComplete
    | ActiveWithoutAttach | ResumeWithoutActive | TauWithoutAttach
    | DetachedButLive | DetachedButHolding | FlowWithoutSecurityContext

  /** A flow flag whose meaning depends on a negotiated security context. */
  predicate InSecuredFlow(c: UeContext) {
    || c.attach.(authenticated := false) != NO_ATTACH
    || c.service != NO_SERVICE
    || c.tau != NO_TAU
  }

  predicate PresentButZero(slot: Slot) {
    slot.present && slot.value == 0
  }

  function ValidateLoadedUeContext(c: UeContext): Option<UeFault> {
    if c.imsi == "" then Some(NoImsi)
    else if c.updatedAt == 0 then Some(NoUpdatedAt)
    else if PresentButZero(c.lastNas) then Some(ZeroNasType)
    else if PresentButZero(c.algorithm) then Some(ZeroAlgorithm)
    else if PresentButZero(c.bearer) then Some(ZeroBearer)
    else if PresentButZero(c.area) then Some(ZeroTrackingArea)
    else if c.attach.authResponseReceived && !c.attach.authRequestSent then Some(ResponseWithoutRequest)
    else if c.attach.securityModeComplete && !c.attach.securityModeCommandSent then Some(CompleteWithoutCommand)
    else if c.attach.attachCompleteReceived && !c.attach.attachAcceptSent then Some(CompleteWithoutAccept)
    else if c.attach.attached && !c.attach.attachCompleteReceived then Some(AttachedWithoutComplete)
    else if c.service.active && (!c.attach.attached || !c.bearer.present) then Some(ActiveWithoutAttach)
    else if c.service.resumeAcceptSent && !c.service.active then Some(ResumeWithoutActive)
    else if c.tau.completeReceived && (!c.attach.attached || !c.area.present) then Some(TauWithoutAttach)
    else if c.detach.detached && (c.attach.attached || c.attach.authenticated || c.service.active) then
      Some(DetachedButLive)
    else if c.detach.detached && (c.security.present || c.bearer.present || c.area.present) then
      Some(DetachedButHolding)
    else if InSecuredFlow(c) && !c.detach.detached && !c.security.present then Some(FlowWithoutSecurityContext)
    else None
  }

  /** The mutex-protected maps of the controller. */
  class RuntimeState {
    var pdpContexts: map<uint32, PdpContext>
    var ueContexts: map<string, UeContext>
    var interfaceAdminState: map<string, bool>

    constructor ()
      ensures pdpContexts == map[] && ueContexts == map[] && interfaceAdminState == map[]
    {
      pdpContexts, ueContexts, interfaceAdminState := map[], map[], map[];
    }

    method UpsertPdpContext(context: PdpContext)
      modifies this`pdpContexts
      ensures pdpContexts == old(pdpContexts)[context.teid := context]
    {
      pdpContexts := pdpContexts[context.teid := context];
    }

    method TryGetPdpContext(teid: uint32) returns (found: bool, context: PdpContext)
      ensures found == (teid in pdpContexts)
      ensures context == if found then pdpContexts[teid] else BLANK_PDP
    {
      found := teid in pdpContexts;
      context := if found then pdpContexts[teid] else BLANK_PDP;
    }

    method RemovePdpContext(teid: uint32) returns (removed: bool)
      modifies this`pdpContexts
      ensures removed == (teid in old(pdpContexts))
      ensures pdpContexts == old(pdpContexts) - {teid}
    {
      removed := teid in pdpContexts;
      pdpContexts := pdpContexts - {teid};
    }

    method UpsertUeContext(context: UeContext)
      modifies this`ueContexts
      ensures ueContexts == old(ueContexts)[context.imsi := context]
    {
      ueContexts := ueContexts[context.imsi := context];
    }

    method TryGetUeContext(imsi: string) returns (found: bool, context: UeContext)
      ensures found == (imsi in ueContexts)
      ensures context == if found then ueContexts[imsi] else BLANK_UE
    {
      found := imsi in ueContexts;
      context := if found then ueContexts[imsi] else BLANK_UE;
    }

    method ClearRuntimeState()
      modifies this`pdpContexts, this`ueContexts
      ensures pdpContexts == map[] && ueContexts == map[]
    {
      pdpContexts := map[];
      ueContexts := map[];
    }
  }
}
