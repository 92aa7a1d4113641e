/**
  The PDP messages by their octets: which table entry a packet concerns, what a Create leaves in it, and what each
  is answered with. Message types, TEIDs and causes are written out, independently of how the server is put together.
 */
module PdpLaws {
  import opened Bytes
  import opened RuntimeStates
  import opened GtpHeaders
  import opened GtpRequests
  import opened Pdp
  import opened PdpHistory

  // ----- reading a packet -----

  function TeidOctets(p: seq<byte>): nat
    requires |p| >= 8
  {
    p[4] as int * 0x100_0000 + p[5] as int * 0x1_0000 + p[6] as int * 0x100 + p[7]
  }

  /** The sequence number, or zero without the optional octets. */
  function SequenceOctets(p: seq<byte>): nat
    requires p != [] && (Optional(p) ==> |p| >= 10)
  {
    if Optional(p) then p[8] as int * 0x100 + p[9] else 0
  }

  const MODIFIES: set<byte> := {0x12, 0x16, 0x1B, 0x1D, 0x22, 0x24, 0x30}

  /** What an operation says of the packet it was read from. */
  predicate Says(op: Op, p: seq<byte>) {
    match op
    case Unparsed => ParsedHeader(p).Err?
    case EchoOp(h) => HeaderOf(h, p) && p[1] == 0x01
    case CreateOp(h, r) => HeaderOf(h, p) && p[1] == 0x10 && ParsedRequest(p, h, 0x10) == Ok(r)
    case DeleteOp(h) => HeaderOf(h, p) && p[1] == 0x14
    case ModifyOp(h, b, r) =>
      HeaderOf(h, p) && p[1] in MODIFIES && ModifyResponder(p[1]) == Some(b) && ParsedRequest(p, h, p[1]) == Ok(r)
    case Rejected =>
      && ParsedHeader(p).Ok? && |p| >= 8 && p[1] in MODIFIES + {0x10}
      && ParsedRequest(p, ParsedHeader(p).value, p[1]).Err?
    case Unhandled => ParsedHeader(p).Ok? && |p| >= 8 && p[1] !in MODIFIES + {0x01, 0x10, 0x14}
  }

  predicate HeaderOf(h: Header, p: seq<byte>) {
    && |p| >= 8 && ParsedHeader(p) == Ok(h) && (Optional(p) ==> |p| >= 12)
    && h.messageType == p[1] && h.teid == TeidOctets(p) && h.sequence == SequenceOctets(p)
  }

  /** The second octet decides what a packet asks for. */
  lemma OpsByOctets(p: seq<byte>)
    ensures Says(OpOf(p), p)
  {
    HeaderByOctets(p);
  }

  // ----- where a Create lands -----

  /** A Create is stored under its own TEID, or, without one, under its sequence number above 0x10000000. */
  function StoredUnder(p: seq<byte>): nat
    requires |p| >= 8 && (Optional(p) ==> |p| >= 12)
  {
    if TeidOctets(p) != 0 then TeidOctets(p) else 0x1000_0000 + SequenceOctets(p)
  }

  /** The entry a Create leaves: its own request's fields, the routed APN, and who sent it when. */
  predicate LeavesEntry(c: PdpContext, d: Datagram, r: Request)
    requires |d.packet| >= 8 && (Optional(d.packet) ==> |d.packet| >= 12)
  {
    && c.teid == StoredUnder(d.packet) && c.sequence == SequenceOctets(d.packet) && c.lastMessageType == 0x10
    && c.imsi == r.imsi && c.apn == d.choose(r.imsi, r.apn) && c.ggsnIp == r.ggsnIp
    && c.pdpType == r.pdpType && c.hasPdpType == r.hasPdpType && c.peerIp == d.peerIp && c.updatedAt == d.now
  }

  /** A packet that is an accepted Create, with what it asks for. */
  predicate IsCreate(d: Datagram, r: Request) {
    OpOf(d.packet).CreateOp? && OpOf(d.packet).request == r
  }

  lemma CreateHasOctets(d: Datagram, r: Request)
    requires IsCreate(d, r)
    ensures |d.packet| >= 8 && (Optional(d.packet) ==> |d.packet| >= 12)
    ensures StoredUnder(d.packet) < 0x1_0000_0000 && StoredUnder(d.packet) != 0
  {
    OpsByOctets(d.packet);
  }

  /** After any run, a Create changes exactly the entry of its TEID, to what it asked for. */
  lemma CreateLands(start: Store, run: seq<Datagram>, d: Datagram, r: Request)
    requires IsCreate(d, r)
    ensures |d.packet| >= 8 && (Optional(d.packet) ==> |d.packet| >= 12)
    ensures var teid, after := StoredUnder(d.packet), RunFrom(start, run + [d]);
            && teid in after && LeavesEntry(after[teid], d, r) && after == RunFrom(start, run)[teid := after[teid]]
  {
    OpsByOctets(d.packet);
    CreateHasOctets(d, r);
    assert (run + [d])[..|run|] == run;
  }

  /** Creates for different TEIDs, or without a TEID and with different sequence numbers, leave separate entries. */
  lemma CreatesStaySeparate(start: Store, run: seq<Datagram>, a: Datagram, ra: Request, b: Datagram, rb: Request)
    requires IsCreate(a, ra) && IsCreate(b, rb)
    ensures |a.packet| >= 8 && (Optional(a.packet) ==> |a.packet| >= 12)
    ensures |b.packet| >= 8 && (Optional(b.packet) ==> |b.packet| >= 12)
    ensures if TeidOctets(a.packet) == 0 && TeidOctets(b.packet) == 0 then
              (SequenceOctets(a.packet) == SequenceOctets(b.packet) <==> StoredUnder(a.packet) == StoredUnder(b.packet))
            else
              TeidOctets(a.packet) != 0 && TeidOctets(b.packet) != 0 ==>
                (TeidOctets(a.packet) == TeidOctets(b.packet) <==> StoredUnder(a.packet) == StoredUnder(b.packet))
    ensures StoredUnder(a.packet) != StoredUnder(b.packet) ==>
              var after := RunFrom(start, run + [a] + [b]);
              && StoredUnder(a.packet) in after && LeavesEntry(after[StoredUnder(a.packet)], a, ra)
              && StoredUnder(b.packet) in after && LeavesEntry(after[StoredUnder(b.packet)], b, rb)
  {
    CreateLands(start, run, a, ra);
    CreateLands(start, run + [a], b, rb);
  }

  // ----- what leaves an entry alone -----

  /** The packet is of a type that changes the table, and names the TEID. */
  predicate Names(p: seq<byte>, teid: nat) {
    && |p| >= 8 && ParsedHeader(p).Ok? && (Optional(p) ==> |p| >= 12)
    && if p[1] == 0x10 then StoredUnder(p) == teid
       else p[1] in MODIFIES + {0x14} && TeidOctets(p) == teid
  }

  /** A run that does not name a TEID leaves its entry as it was. */
  lemma {:induction false} UnnamedStays(start: Store, run: seq<Datagram>, teid: uint32)
    requires OwnTeids(start) && forall i :: 0 <= i < |run| ==> !Names(run[i].packet, teid)
    ensures teid in RunFrom(start, run) <==> teid in start
    ensures teid in start ==> RunFrom(start, run)[teid] == start[teid]
  {
    if run != [] {
      var init, d := run[..|run| - 1], run[|run| - 1];
      UnnamedStays(start, init, teid);
      RunKeepsOwnTeids(start, init);
      OpsByOctets(d.packet);
      UnnamedStep(RunFrom(start, init), d, teid);
    }
  }

  lemma UnnamedStep(store: Store, d: Datagram, teid: uint32)
    requires !Names(d.packet, teid)
    ensures teid in Apply(store, d) <==> teid in store
    ensures teid in store ==> Apply(store, d)[teid] == store[teid]
  {
    OpsByOctets(d.packet);
  }

  // ----- what a modify and a delete do -----

  /** A modify overwrites the stamps and the fields it supplies, a delete removes; both only what is stored. */
  lemma EditLands(store: Store, d: Datagram)
    requires OwnTeids(store) && |d.packet| >= 8
    requires OpOf(d.packet).ModifyOp? || OpOf(d.packet).DeleteOp?
    ensures Optional(d.packet) ==> |d.packet| >= 12
    ensures var teid, after := TeidOctets(d.packet), Apply(store, d);
            if teid !in store then after == store
            else if d.packet[1] == 0x14 then after == store - {teid}
            else
              var r, was := OpOf(d.packet).request, store[teid];
              && teid in after && after == store[teid := after[teid]]
              && after[teid] == PdpContext(teid, SequenceOctets(d.packet),
                                           if r.hasPdpType then r.pdpType else was.pdpType,
                                           r.hasPdpType || was.hasPdpType, d.packet[1], d.peerIp,
                                           if r.hasGgsnIp then r.ggsnIp else was.ggsnIp,
                                           if r.hasImsi then r.imsi else was.imsi,
                                           if r.hasApn then r.apn else was.apn, d.now)
  {
    OpsByOctets(d.packet);
  }

  // ----- the answers -----

  /** The packet is of a type the server handles, and, for a Create or modify, its request is accepted. */
  predicate Answerable(p: seq<byte>) {
    && |p| >= 8 && ParsedHeader(p).Ok?
    && (p[1] in {0x01, 0x14}
        || (p[1] in MODIFIES + {0x10} && ParsedRequest(p, ParsedHeader(p).value, p[1]).Ok?))
  }

  /** The cause, or the recovery counter of an echo. */
  function LastOctet(store: Store, p: seq<byte>): byte
    requires |p| >= 8
  {
    if p[1] == 0x01 then 0 else if p[1] == 0x10 || TeidOctets(p) in store then 0x80 else 0xC0
  }

  /**
    The answer has the request's type plus one; a Create's names the entry it made, every other the TEID it was
    asked about; and its last two octets are an element and its value.
   */
  predicate Answers(answer: seq<byte>, p: seq<byte>, last: byte) {
    && |p| >= 8 && (Optional(p) ==> |p| >= 12)
    && |answer| == (if Optional(p) then 14 else 10) && answer[1] as int == p[1] as int + 1
    && TeidOctets(answer) == (if p[1] == 0x10 then StoredUnder(p) else TeidOctets(p))
    && answer[|answer| - 2] == (if p[1] == 0x01 then 0x0E else 0x01) && answer[|answer| - 1] == last
  }

  /**
    Over any table: an echo request, a delete, and a Create or modify whose request is accepted are answered, with
    cause 0x80 for a Create and wherever the TEID is stored and 0xC0 elsewhere, and claimed if the answer can be
    sent; a Create or modify with a request that is not accepted is claimed silently; nothing else is claimed.
   */
  lemma AnswersByOctets(store: Store, d: Datagram)
    ensures Answer(store, d).Some? <==> Answerable(d.packet)
    ensures Answerable(d.packet) ==> Answers(Answer(store, d).value, d.packet, LastOctet(store, d.packet))
    ensures Handled(d) <==>
            && ParsedHeader(d.packet).Ok? && |d.packet| >= 8 && d.packet[1] in MODIFIES + {0x01, 0x10, 0x14}
            && (Answerable(d.packet) ==> d.sendOk)
  {
    OpsByOctets(d.packet);
    AnsweredIffAnswerable(store, d);
    if Answerable(d.packet) {
      AnswerIsLiteral(store, d);
    }
  }

  lemma AnsweredIffAnswerable(store: Store, d: Datagram)
    requires Says(OpOf(d.packet), d.packet)
    ensures Answer(store, d).Some? <==> Answerable(d.packet)
    ensures Handled(d) <==>
            && ParsedHeader(d.packet).Ok? && |d.packet| >= 8 && d.packet[1] in MODIFIES + {0x01, 0x10, 0x14}
            && (Answerable(d.packet) ==> d.sendOk)
  {
  }

  lemma AnswerIsLiteral(store: Store, d: Datagram)
    requires Answer(store, d).Some? && Says(OpOf(d.packet), d.packet)
    ensures |d.packet| >= 8 && Answers(Answer(store, d).value, d.packet, LastOctet(store, d.packet))
  {
    match OpOf(d.packet) {
      case EchoOp(h) => EchoAnswers(store, d.packet, h);
      case CreateOp(h, _) => CreateAnswers(store, d.packet, h);
      case ModifyOp(h, b, _) => ModifyAnswers(store, d.packet, h, b);
      case DeleteOp(h) => DeleteAnswers(store, d.packet, h);
    }
  }

  lemma EchoAnswers(store: Store, p: seq<byte>, h: Header)
    requires HeaderOf(h, p) && p[1] == 0x01
    ensures Answers(Response(Echo, h, 0, 0), p, LastOctet(store, p))
  {
    Responds(p, Echo, 0, 0);
  }

  lemma CreateAnswers(store: Store, p: seq<byte>, h: Header)
    requires HeaderOf(h, p) && p[1] == 0x10
    ensures Answers(Response(Create, h, AllocatedTeid(h), ACCEPTED), p, LastOctet(store, p))
  {
    Responds(p, Create, AllocatedTeid(h), ACCEPTED);
  }

  lemma DeleteAnswers(store: Store, p: seq<byte>, h: Header)
    requires HeaderOf(h, p) && p[1] == 0x14
    ensures Answers(Response(Delete, h, 0, Cause(h.teid in store)), p, LastOctet(store, p))
  {
    Responds(p, Delete, 0, Cause(h.teid in store));
  }

  lemma ModifyAnswers(store: Store, p: seq<byte>, h: Header, b: Responder)
    requires HeaderOf(h, p) && p[1] in MODIFIES && ModifyResponder(p[1]) == Some(b)
    ensures Answers(Response(b, h, h.teid, Cause(h.teid in store)), p, LastOctet(store, p))
  {
    Responds(p, b, h.teid, Cause(h.teid in store));
  }

  lemma Responds(p: seq<byte>, b: Responder, teid: uint32, octet: byte)
    requires ParsedHeader(p).Ok?
    ensures |p| >= 8
    ensures var r := Response(b, ParsedHeader(p).value, teid, octet);
            var n := |r|;
            && n == (if Optional(p) then 14 else 10) && r[1] == ResponseType(b)
            && TeidOctets(r) == (if b.Echo? || b.Delete? then TeidOctets(p) else teid)
            && r[n - 2] == (if b.Echo? then 0x0E else 0x01) && r[n - 1] == octet
  {
    HeaderByOctets(p);
    ResponseByOctets(p, b, teid, octet);
    var r := Response(b, ParsedHeader(p).value, teid, octet);
    if b.Echo? || b.Delete? {
      assert forall i :: 0 <= i < 4 ==> r[4 + i] == r[4..8][i] == p[4..8][i] == p[4 + i];
    } else {
      Word32(r, 4, teid);
    }
  }
}
