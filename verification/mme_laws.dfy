/**
  The NAS messages by their octets: which the MME accepts, what it answers, and what each does to the context.
  Message types, key sets and replies are written out, independently of how the machine is put together.
 */
module MmeLaws {
  import opened Bytes
  import opened RuntimeStates
  import opened S1ap
  import opened Mme
  import opened MmeHistory
  import opened MmeReplies

  // ----- which messages are accepted, and what they are answered with -----

  /** The message names, in its second octet, the key set of the stored security context. */
  predicate NamesStoredKey(c: UeContext, nas: seq<byte>) {
    |nas| >= 2 && c.security.present && nas[1] == c.security.value
  }

  /** What a message of each type asks of the stored context. Types not listed ask nothing. */
  predicate Admits(c: UeContext, nas: seq<byte>)
    requires nas != []
  {
    match nas[0]
    case 0x53 => NamesStoredKey(c, nas) && c.attach.authRequestSent
    case 0x5E => NamesStoredKey(c, nas) && c.attach.securityModeCommandSent
    case 0x43 => NamesStoredKey(c, nas) && c.attach.attachAcceptSent && c.attach.securityModeComplete
    case 0x4A => NamesStoredKey(c, nas) && c.attach.attached && c.tau.acceptSent
    case 0x4C => |nas| >= 3 && NamesStoredKey(c, nas) && c.attach.attached && c.attach.securityModeComplete
    case 0x4E => |nas| >= 3 && NamesStoredKey(c, nas) && c.attach.attached && c.service.active
    case 0x50 =>
      |nas| >= 3 && NamesStoredKey(c, nas) && c.attach.attached && !c.service.active && c.tau.completeReceived
    case 0x48 => |nas| >= 3 && NamesStoredKey(c, nas) && c.attach.attached && !c.service.active
    case 0x45 => |nas| >= 3 && NamesStoredKey(c, nas) && c.attach.attached
    case _ => true
  }

  /** The octets of the answer, for the message types that are answered. */
  function ReplyOctets(c: UeContext, nas: seq<byte>): Option<seq<byte>>
    requires nas != []
  {
    var key := c.security.value;
    match nas[0]
    case 0x41 => Some([0x52, 0x01])
    case 0x53 => Some([0x5D, key, 0x01])
    case 0x5E => Some([0x42, key, 0x01])
    case 0x4C => Some([0x4D, key, 0x05])
    case 0x4E => Some([0x4F, key, 0x00])
    case 0x50 => Some([0x51, key, 0x05])
    case 0x48 => Some([0x49, key, if |nas| >= 3 then nas[2] else 0])
    case 0x45 => Some([0x46, key, 0x00])
    case _ => None
  }

  /** The context an arrival's IMSI has before the arrival. */
  function Met(store: UeStore, m: Carrier): UeContext {
    ContextIn(store, m.imsi)
  }

  lemma ReactsIffAdmitted(c: UeContext, m: Carrier)
    requires m.nasPdu != [] && m.nasMessageType == m.nasPdu[0]
    ensures !React(c, m).Refuse? <==> Admits(c, m.nasPdu)
    ensures Admits(c, m.nasPdu) ==>
              match ReplyOctets(c, m.nasPdu)
              case None => React(c, m).Silent?
              case Some(nas) => React(c, m).Reply? && React(c, m).nas == nas
  {
  }

  lemma SameNeeds(store: UeStore, m: Carrier, peerId: string, now: int)
    requires m.nasPdu != []
    ensures var c := Touched(store, m, peerId, now);
            Admits(c, m.nasPdu) == Admits(Met(store, m), m.nasPdu)
            && ReplyOctets(c, m.nasPdu) == ReplyOctets(Met(store, m), m.nasPdu)
  {
  }

  /**
    Over every run from any table: a parsed message is accepted exactly when the stored context admits it and its
    answer, if it has one, can be sent; an answer is sent exactly when it is admitted and of an answered type.
    A message that is not accepted leaves the table alone.
   */
  lemma AcceptedIffAdmitted(start: UeStore, run: seq<Arrival>, a: Arrival)
    ensures var store := RunFrom(start, run);
            match ParsedCarrier(a.packet, 0x0C)
            case Err(_) => Step(store, a) == StepResult(store, false, None)
            case Ok(m) =>
              && m.nasPdu != []
              && var c := Met(store, m);
                 var step := Step(store, a);
                 && (step.handled <==> Admits(c, m.nasPdu) && (ReplyOctets(c, m.nasPdu).Some? ==> a.sendOk))
                 && (step.downlink.Some? <==> Admits(c, m.nasPdu) && ReplyOctets(c, m.nasPdu).Some?)
                 && (!step.handled ==> step.store == store)
  {
    if ParsedCarrier(a.packet, 0x0C).Ok? {
      var store, m := RunFrom(start, run), ParsedCarrier(a.packet, 0x0C).value;
      ParsedTextIsGood(a.packet, 0x0C);
      SameNeeds(store, m, a.peerId, a.now);
      ReactsIffAdmitted(Touched(store, m, a.peerId, a.now), m);
    }
  }

  /** What is sent carries the message's IMSI and the octets listed for its type, stored key set included. */
  lemma AnswersAreLiteral(start: UeStore, run: seq<Arrival>, a: Arrival)
    requires GoodNames(start) && Step(RunFrom(start, run), a).downlink.Some?
    ensures ParsedCarrier(a.packet, 0x0C).Ok?
    ensures var m := ParsedCarrier(a.packet, 0x0C).value;
            var sent := ParsedCarrier(Step(RunFrom(start, run), a).downlink.value, 0x0D);
            && m.nasPdu != [] && sent.Ok? && sent.value.imsi == m.imsi
            && Some(sent.value.nasPdu) == ReplyOctets(Met(RunFrom(start, run), m), m.nasPdu)
  {
    RepliesParseBack(start, run, a);
    var store, m := RunFrom(start, run), ParsedCarrier(a.packet, 0x0C).value;
    ParsedTextIsGood(a.packet, 0x0C);
    AnswerOf(store, m, a);
  }

  lemma AnswerOf(store: UeStore, m: Carrier, a: Arrival)
    requires m.nasPdu != [] && m.nasMessageType == m.nasPdu[0]
    requires React(Touched(store, m, a.peerId, a.now), m).Reply?
    ensures Some(React(Touched(store, m, a.peerId, a.now), m).nas) == ReplyOctets(Met(store, m), m.nasPdu)
  {
    SameNeeds(store, m, a.peerId, a.now);
    ReactsIffAdmitted(Touched(store, m, a.peerId, a.now), m);
  }

  // ----- what an accepted message does to the flags -----

  /** The flags of a context, by procedure. */
  datatype Flag =
    | Authenticated | AuthRequestSent | AuthResponseReceived | SecurityModeCommandSent | SecurityModeDone
    | AttachAcceptSent | AttachCompleteReceived | Attached
    | ServiceRequested | ServiceAccepted | ServiceActive | ResumeRequested | ResumeAccepted | ReleaseRequested
    | ReleaseCompleted
    | DetachRequested | DetachAccepted | Detached
    | TauRequested | TauAccepted | TauCompleted

  function IsSet(c: UeContext, f: Flag): bool {
    match f
    case Authenticated => c.attach.authenticated
    case AuthRequestSent => c.attach.authRequestSent
    case AuthResponseReceived => c.attach.authResponseReceived
    case SecurityModeCommandSent => c.attach.securityModeCommandSent
    case SecurityModeDone => c.attach.securityModeComplete
    case AttachAcceptSent => c.attach.attachAcceptSent
    case AttachCompleteReceived => c.attach.attachCompleteReceived
    case Attached => c.attach.attached
    case ServiceRequested => c.service.requestReceived
    case ServiceAccepted => c.service.acceptSent
    case ServiceActive => c.service.active
    case ResumeRequested => c.service.resumeRequestReceived
    case ResumeAccepted => c.service.resumeAcceptSent
    case ReleaseRequested => c.service.releaseRequestReceived
    case ReleaseCompleted => c.service.releaseCompleteSent
    case DetachRequested => c.detach.requestReceived
    case DetachAccepted => c.detach.acceptSent
    case Detached => c.detach.detached
    case TauRequested => c.tau.requestReceived
    case TauAccepted => c.tau.acceptSent
    case TauCompleted => c.tau.completeReceived
  }

  /** Whether a message type sets a flag. */
  predicate Sets(f: Flag, t: byte) {
    match f
    case Authenticated => t in {0x53}
    case AuthRequestSent => t in {0x41}
    case AuthResponseReceived => t in {0x53}
    case SecurityModeCommandSent => t in {0x53}
    case SecurityModeDone => t in {0x5E}
    case AttachAcceptSent => t in {0x5E}
    case AttachCompleteReceived => t in {0x43}
    case Attached => t in {0x43}
    case ServiceRequested => t in {0x4C}
    case ServiceAccepted => t in {0x4C}
    case ServiceActive => t in {0x4C, 0x50}
    case ResumeRequested => t in {0x50}
    case ResumeAccepted => t in {0x50}
    case ReleaseRequested => t in {0x4E}
    case ReleaseCompleted => t in {0x4E}
    case DetachRequested => t in {0x45}
    case DetachAccepted => t in {0x45}
    case Detached => t in {0x45}
    case TauRequested => t in {0x48}
    case TauAccepted => t in {0x48}
    case TauCompleted => t in {0x4A}
  }

  /**
    Whether a message type clears a flag. An Attach Request and a Security Mode Complete leave the two resume
    flags; a type the machine does not know clears `Authenticated` and nothing else.
   */
  predicate Clears(f: Flag, t: byte) {
    match f
    case Authenticated => t !in {0x43, 0x48, 0x4A, 0x4C, 0x4E, 0x50, 0x53, 0x5E}
    case AuthRequestSent => t in {0x45}
    case AuthResponseReceived => t in {0x41, 0x45}
    case SecurityModeCommandSent => t in {0x41, 0x45}
    case SecurityModeDone => t in {0x41, 0x45, 0x53}
    case AttachAcceptSent => t in {0x41, 0x45}
    case AttachCompleteReceived => t in {0x41, 0x45, 0x5E}
    case Attached => t in {0x41, 0x45, 0x5E}
    case ServiceRequested => t in {0x41, 0x43, 0x45, 0x4E, 0x50, 0x5E}
    case ServiceAccepted => t in {0x41, 0x43, 0x45, 0x4E, 0x50, 0x5E}
    case ServiceActive => t in {0x41, 0x43, 0x45, 0x4E, 0x5E}
    case ResumeRequested => t in {0x43, 0x45, 0x48, 0x4C, 0x4E}
    case ResumeAccepted => t in {0x43, 0x45, 0x48, 0x4C, 0x4E}
    case ReleaseRequested => t in {0x41, 0x43, 0x45, 0x4C, 0x50, 0x5E}
    case ReleaseCompleted => t in {0x41, 0x43, 0x45, 0x4C, 0x50, 0x5E}
    case DetachRequested => t in {0x41, 0x43, 0x48, 0x4C, 0x4E, 0x50, 0x5E}
    case DetachAccepted => t in {0x41, 0x43, 0x48, 0x4C, 0x4E, 0x50, 0x5E}
    case Detached => t in {0x41, 0x43, 0x48, 0x4C, 0x4E, 0x50, 0x5E}
    case TauRequested => t in {0x41, 0x43, 0x45, 0x4C, 0x4E, 0x50, 0x5E}
    case TauAccepted => t in {0x41, 0x43, 0x45, 0x4C, 0x4E, 0x50, 0x5E}
    case TauCompleted => t in {0x41, 0x43, 0x45, 0x48, 0x4C, 0x4E, 0x50, 0x5E}
  }

  lemma ReactionSets(c: UeContext, m: Carrier, f: Flag)
    requires !React(c, m).Refuse?
    ensures IsSet(React(c, m).context, f)
         == if Sets(f, m.nasMessageType) then true
            else if Clears(f, m.nasMessageType) then false
            else IsSet(c, f)
  {
  }

  /** The flag after a history: as the latest message that sets or clears it left it, or as it was at the start. */
  function Marked(f: Flag, h: seq<Event>, before: bool): bool {
    if h == [] then before
    else
      var t := h[|h| - 1].nasType;
      if Sets(f, t) then true else if Clears(f, t) then false else Marked(f, h[..|h| - 1], before)
  }

  /**
    Every flag of every context is a function of the accepted messages and the table at the start: it is set
    exactly when the latest message that sets or clears it sets it.
   */
  lemma {:induction false} EveryFlagFollowsHistory(start: UeStore, run: seq<Arrival>, imsi: string, f: Flag)
    ensures IsSet(ContextIn(RunFrom(start, run), imsi), f)
         == Marked(f, History(start, run, imsi), IsSet(ContextIn(start, imsi), f))
  {
    if run != [] {
      var init, a := run[..|run| - 1], run[|run| - 1];
      EveryFlagFollowsHistory(start, init, imsi, f);
      FlagStep(RunFrom(start, init), a, imsi, f, History(start, init, imsi), IsSet(ContextIn(start, imsi), f));
    }
  }

  lemma FlagStep(store: UeStore, a: Arrival, imsi: string, f: Flag, h: seq<Event>, atStart: bool)
    requires IsSet(ContextIn(store, imsi), f) == Marked(f, h, atStart)
    ensures IsSet(ContextIn(Step(store, a).store, imsi), f) == Marked(f, h + EventOf(store, a, imsi), atStart)
  {
    var e := EventOf(store, a, imsi);
    OneArrival(store, a, imsi);
    if e == [] {
      assert h + [] == h;
    } else {
      var m := ParsedCarrier(a.packet, 0x0C).value;
      ReactionSets(Touched(store, m, a.peerId, a.now), m, f);
      assert e == [e[0]] && (h + e)[..|h|] == h;
    }
  }

  /** One arrival, seen from one IMSI: nothing happens to its context, or the reaction to its own message. */
  lemma OneArrival(store: UeStore, a: Arrival, imsi: string)
    ensures var after, events := Step(store, a).store, EventOf(store, a, imsi);
            if events == [] then ContextIn(after, imsi) == ContextIn(store, imsi)
            else
              && |events| == 1 && ParsedCarrier(a.packet, 0x0C).Ok?
              && var m := ParsedCarrier(a.packet, 0x0C).value;
                 && m.nasPdu != [] && m.nasMessageType == m.nasPdu[0] && events[0].nasType == m.nasMessageType
                 && m.imsi == imsi && imsi in after
                 && !React(Touched(store, m, a.peerId, a.now), m).Refuse?
                 && after[imsi] == React(Touched(store, m, a.peerId, a.now), m).context
                 && forall f :: IsSet(Touched(store, m, a.peerId, a.now), f) == IsSet(ContextIn(store, imsi), f)
  {
    if ParsedCarrier(a.packet, 0x0C).Ok? {
      ParsedTextIsGood(a.packet, 0x0C);
      TouchedKeepsFlags(store, ParsedCarrier(a.packet, 0x0C).value, a.peerId, a.now);
    }
  }

  lemma TouchedKeepsFlags(store: UeStore, m: Carrier, peerId: string, now: int)
    ensures forall f :: IsSet(Touched(store, m, peerId, now), f) == IsSet(Met(store, m), f)
  {
  }

  // ----- and to everything else -----

  /** Slots by message type: the key set, algorithm, bearer and area code a type stores or empties. */
  predicate SlotsFollow(before: UeContext, after: UeContext, nas: seq<byte>)
    requires nas != []
  {
    var t := nas[0];
    && after.security == (if t == 0x41 then Slot(0x01, true) else if t == 0x45 then Slot(0, false) else before.security)
    && after.algorithm
    == (if t == 0x53 then Slot(0x01, true) else if t in {0x41, 0x45} then Slot(0, false) else before.algorithm)
    && after.bearer
    == (if t in {0x4C, 0x50} then Slot(0x05, true)
        else if t in {0x41, 0x43, 0x45, 0x5E} then Slot(0, false)
        else before.bearer)
    && after.area
    == (if t == 0x48 && |nas| >= 3 then Slot(nas[2], true)
        else if t in {0x41, 0x45} then Slot(0, false)
        else before.area)
  }

  lemma ReactionStores(c: UeContext, m: Carrier)
    requires m.nasPdu != [] && m.nasMessageType == m.nasPdu[0] && !React(c, m).Refuse?
    ensures var after := React(c, m).context;
            && SlotsFollow(c, after, m.nasPdu)
            && after.imsi == c.imsi && after.guti == c.guti && after.peerId == c.peerId
            && after.updatedAt == c.updatedAt && after.lastNas == c.lastNas
            && after.lastS1apProcedure == c.lastS1apProcedure
  {
  }

  /**
    An accepted message changes the context of its own IMSI only, which then carries the sender, the time, the
    message type and the procedure of the packet, a GUTI if the message names one, and the slots its type stores.
   */
  lemma AcceptedStores(store: UeStore, a: Arrival)
    requires Step(store, a).handled
    ensures ParsedCarrier(a.packet, 0x0C).Ok?
    ensures var m, after := ParsedCarrier(a.packet, 0x0C).value, Step(store, a).store;
            && m.nasPdu != [] && m.imsi in after && after == store[m.imsi := after[m.imsi]]
            && var c := after[m.imsi];
               && SlotsFollow(Met(store, m), c, m.nasPdu)
               && c.imsi == m.imsi && c.peerId == a.peerId && c.updatedAt == a.now
               && c.lastNas == Slot(m.nasPdu[0], true) && c.lastS1apProcedure == 0x0C
               && c.guti == (if m.guti != "" then m.guti else Met(store, m).guti)
  {
    ParsedTextIsGood(a.packet, 0x0C);
    var m := ParsedCarrier(a.packet, 0x0C).value;
    ReactionStores(Touched(store, m, a.peerId, a.now), m);
  }
}
