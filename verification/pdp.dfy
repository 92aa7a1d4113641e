/** The PDP context table: `handleRealGtpMessage` over the TEID-keyed map, one datagram at a time. */
module Pdp {
  import opened Bytes
  import opened RuntimeStates
  import opened GtpHeaders
  import opened GtpRequests
  import Routing
  import RoutingLoad

  const ECHO_REQUEST: byte := 0x01
  const CREATE_REQUEST: byte := 0x10
  const DELETE_REQUEST: byte := 0x14

  const ACCEPTED: byte := 0x80
  const NOT_FOUND: byte := 0xC0

  /** How an APN is chosen for an IMSI and the APN it asked for. */
  type Chooser = (string, string) -> string

  /**
    One received datagram with its sender, the clock, whether the answer can be sent, and the routing
    configured at that moment, which may differ from one datagram to the next.
   */
  datatype Datagram = Datagram(packet: seq<byte>, peerIp: string, now: int, sendOk: bool, choose: Chooser)

  type Store = map<uint32, PdpContext>

  /** What a packet asks for, as far as the table is concerned. */
  datatype Op =
    | Unparsed
    | Rejected
    | Unhandled
    | EchoOp(header: Header)
    | CreateOp(header: Header, request: Request)
    | ModifyOp(header: Header, responder: Responder, request: Request)
    | DeleteOp(header: Header)

  /** The seven messages that edit an existing context all do so in the same way. */
  function ModifyResponder(messageType: byte): Option<Responder> {
    if messageType == 0x12 then Some(Update)
    else if messageType == 0x16 then Some(InitiateActivation)
    else if messageType == 0x1B then Some(Notification)
    else if messageType == 0x1D then Some(NotificationReject)
    else if messageType == 0x22 then Some(FailureReport)
    else if messageType == 0x24 then Some(MsPresent)
    else if messageType == 0x30 then Some(Identification)
    else None
  }

  function OpOf(packet: seq<byte>): Op {
    match ParsedHeader(packet)
    case Err(_) => Unparsed
    case Ok(h) =>
      if h.messageType == ECHO_REQUEST then EchoOp(h)
      else if h.messageType == CREATE_REQUEST then
        match ParsedRequest(packet, h, CREATE_REQUEST) case Err(_) => Rejected case Ok(r) => CreateOp(h, r)
      else if h.messageType == DELETE_REQUEST then DeleteOp(h)
      else
        match ModifyResponder(h.messageType)
        case None => Unhandled
        case Some(b) =>
          match ParsedRequest(packet, h, h.messageType) case Err(_) => Rejected case Ok(r) => ModifyOp(h, b, r)
  }

  /** `allocateCreatePdpTeid`; the sequence number fits below the bit it is combined with. */
  function AllocatedTeid(h: Header): uint32 {
    if h.teid != 0 then h.teid else 0x1000_0000 + h.sequence
  }

  function NewContext(h: Header, r: Request, d: Datagram): PdpContext {
    PdpContext(AllocatedTeid(h), h.sequence, r.pdpType, r.hasPdpType, h.messageType, d.peerIp, r.ggsnIp, r.imsi,
               d.choose(r.imsi, r.apn), d.now)
  }

  /** Fields the request does not supply keep their values. */
  function Edited(c: PdpContext, h: Header, r: Request, d: Datagram): PdpContext {
    c.(sequence := h.sequence,
       lastMessageType := h.messageType,
       peerIp := d.peerIp,
       updatedAt := d.now,
       imsi := if r.hasImsi then r.imsi else c.imsi,
       apn := if r.hasApn then r.apn else c.apn,
       ggsnIp := if r.hasGgsnIp then r.ggsnIp else c.ggsnIp,
       pdpType := if r.hasPdpType then r.pdpType else c.pdpType,
       hasPdpType := r.hasPdpType || c.hasPdpType)
  }

  // ----- specification: one datagram -----

  function Apply(store: Store, d: Datagram): Store {
    match OpOf(d.packet)
    case CreateOp(h, r) => store[AllocatedTeid(h) := NewContext(h, r, d)]
    case ModifyOp(h, _, r) => if h.teid in store then store[h.teid := Edited(store[h.teid], h, r, d)] else store
    case DeleteOp(h) => store - {h.teid}
    case _ => store
  }

  function Cause(found: bool): byte {
    if found then ACCEPTED else NOT_FOUND
  }

  function Answer(store: Store, d: Datagram): Option<seq<byte>> {
    match OpOf(d.packet)
    case EchoOp(h) => Some(Response(Echo, h, 0, 0))
    case CreateOp(h, _) => Some(Response(Create, h, AllocatedTeid(h), ACCEPTED))
    case ModifyOp(h, b, _) => Some(Response(b, h, h.teid, Cause(h.teid in store)))
    case DeleteOp(h) => Some(Response(Delete, h, 0, Cause(h.teid in store)))
    case _ => None
  }

  /** Whether the handler claims the message: answers must go out, rejected requests are claimed silently. */
  function Handled(d: Datagram): bool {
    match OpOf(d.packet)
    case Unparsed => false
    case Unhandled => false
    case Rejected => true
    case _ => d.sendOk
  }

  /** The table after a whole sequence of datagrams. */
  function RunFrom(start: Store, run: seq<Datagram>): Store {
    if run == [] then start else Apply(RunFrom(start, run[..|run| - 1]), run[|run| - 1])
  }

  /** The same, starting from nothing. */
  function RunStore(run: seq<Datagram>): Store {
    RunFrom(map[], run)
  }

  /** Routing by a configuration and the groups loaded from it. */
  function ConfiguredChooser(config: Routing.Config, groups: seq<Routing.Group>): Chooser {
    (imsi, requested) => Routing.Route(config, groups, imsi, requested).0
  }

  // ----- the code -----

  method HandleCreate(state: RuntimeState, d: Datagram, header: Header, request: Request, config: Routing.Config,
                      ghost groups: seq<Routing.Group>)
    returns (response: seq<byte>)
    requires RoutingLoad.IsLoaded(config, groups) && d.choose == ConfiguredChooser(config, groups)
    modifies state`pdpContexts
    ensures state.pdpContexts == old(state.pdpContexts)[AllocatedTeid(header) := NewContext(header, request, d)]
    ensures response == Response(Create, header, AllocatedTeid(header), ACCEPTED)
  {
    var context := BLANK_PDP;
    context := context.(teid := AllocatedTeid(header));
    context := context.(sequence := header.sequence);
    context := context.(lastMessageType := header.messageType);
    context := context.(peerIp := d.peerIp);
    context := context.(updatedAt := d.now);
    context := context.(imsi := request.imsi);
    var apn, _ := RoutingLoad.ResolveApnForImsi(config, request.imsi, request.apn);
    context := context.(apn := apn);
    context := context.(ggsnIp := request.ggsnIp);
    context := context.(pdpType := request.pdpType);
    context := context.(hasPdpType := request.hasPdpType);
    state.UpsertPdpContext(context);
    response := BuildResponse(Create, header, context.teid, ACCEPTED);
  }

  method EditContext(found: PdpContext, header: Header, request: Request, d: Datagram) returns (context: PdpContext)
    ensures context == Edited(found, header, request, d)
  {
    context := found.(sequence := header.sequence);
    context := context.(lastMessageType := header.messageType);
    context := context.(peerIp := d.peerIp);
    context := context.(updatedAt := d.now);
    if request.hasImsi {
      context := context.(imsi := request.imsi);
    }
    if request.hasApn {
      context := context.(apn := request.apn);
    }
    if request.hasGgsnIp {
      context := context.(ggsnIp := request.ggsnIp);
    }
    if request.hasPdpType {
      context := context.(pdpType := request.pdpType);
      context := context.(hasPdpType := true);
    }
  }

  /** Every stored context carries the TEID it is stored under, and no TEID is zero. */
  predicate OwnTeids(store: Store) {
    forall teid | teid in store :: store[teid].teid == teid && teid != 0
  }

  method HandleModify(state: RuntimeState, d: Datagram, header: Header, b: Responder, request: Request)
    returns (response: seq<byte>)
    requires OwnTeids(state.pdpContexts)
    modifies state`pdpContexts
    ensures var before := old(state.pdpContexts);
            state.pdpContexts
            == if header.teid in before then
                 before[header.teid := Edited(before[header.teid], header, request, d)]
               else before
    ensures response == Response(b, header, header.teid, Cause(header.teid in old(state.pdpContexts)))
  {
    var found, context := state.TryGetPdpContext(header.teid);
    if found {
      context := EditContext(context, header, request, d);
      state.UpsertPdpContext(context);
    }
    var cause := if found then ACCEPTED else NOT_FOUND;
    response := BuildResponse(b, header, header.teid, cause);
  }

  method HandleRealGtpMessage(state: RuntimeState, d: Datagram, config: Routing.Config,
                              ghost groups: seq<Routing.Group>)
    returns (handled: bool, answer: Option<seq<byte>>)
    requires OwnTeids(state.pdpContexts)
    requires RoutingLoad.IsLoaded(config, groups) && d.choose == ConfiguredChooser(config, groups)
    modifies state`pdpContexts
    ensures state.pdpContexts == Apply(old(state.pdpContexts), d)
    ensures answer == Answer(old(state.pdpContexts), d) && handled == Handled(d)
  {
    answer := None;
    var parsed := ParseGtpV1Header(d.packet);
    if parsed.Err? {
      return false, None;
    }
    var header := parsed.value;
    if header.messageType == 0x01 {
      var response := BuildResponse(Echo, header, 0, 0);
      return d.sendOk, Some(response);
    }
    if header.messageType == 0x14 {
      var removed := state.RemovePdpContext(header.teid);
      var response := BuildResponse(Delete, header, 0, if removed then ACCEPTED else NOT_FOUND);
      return d.sendOk, Some(response);
    }
    var responder := ModifyResponder(header.messageType);
    if header.messageType != 0x10 && responder.None? {
      return false, None;
    }
    var request := ParseDemoPdpContextRequest(d.packet, header, header.messageType);
    if request.Err? {
      return true, None;
    }
    var response;
    if header.messageType == 0x10 {
      response := HandleCreate(state, d, header, request.value, config, groups);
    } else {
      response := HandleModify(state, d, header, responder.value, request.value);
    }
    handled, answer := d.sendOk, Some(response);
  }

  lemma {:induction false} RunKeepsOwnTeids(start: Store, run: seq<Datagram>)
    requires OwnTeids(start)
    ensures OwnTeids(RunFrom(start, run))
  {
    if run != [] {
      RunKeepsOwnTeids(start, run[..|run| - 1]);
    }
  }

  /** A datagram and the configuration in force when it arrives, which its chooser reads. */
  ghost predicate Configured(run: seq<Datagram>, configs: seq<Routing.Config>, groups: seq<seq<Routing.Group>>) {
    && |run| == |configs| == |groups|
    && forall i :: 0 <= i < |run| ==>
         RoutingLoad.IsLoaded(configs[i], groups[i]) && run[i].choose == ConfiguredChooser(configs[i], groups[i])
  }

  /** The receive loop, from whatever table the start left. */
  method ServeGtp(state: RuntimeState, run: seq<Datagram>, configs: seq<Routing.Config>,
                  ghost groups: seq<seq<Routing.Group>>)
    requires OwnTeids(state.pdpContexts) && Configured(run, configs, groups)
    modifies state`pdpContexts
    ensures state.pdpContexts == RunFrom(old(state.pdpContexts), run)
  {
    ghost var start := state.pdpContexts;
    for i := 0 to |run|
      invariant state.pdpContexts == RunFrom(start, run[..i])
    {
      RunKeepsOwnTeids(start, run[..i]);
      assert run[..i + 1][..i] == run[..i];
      var _, _ := HandleRealGtpMessage(state, run[i], configs[i], groups[i]);
    }
    assert run[..|run|] == run;
  }
}
