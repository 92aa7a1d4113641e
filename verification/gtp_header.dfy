/** The GTPv1-C header and the responses built from it: `src/gtp_parser.cpp`. */
module GtpHeaders {
  import opened Bytes

  datatype Header = Header(
    flags: byte,
    hasExtensionHeader: bool,
    hasSequenceNumber: bool,
    hasNpduNumber: bool,
    messageType: byte,
    payloadLength: uint16,
    teid: uint32,
    sequence: uint16,
    npduNumber: byte,
    nextExtensionHeaderType: byte,
    headerLength: nat,
    totalLength: nat)

  datatype HeaderError =
    | TooShort | WrongVersion | NotGtp | NoOptionalFields | DeclaredTooLong | DeclaredTooShort

  predicate Bit(flags: byte, weight: byte)
    requires weight > 0
  {
    flags / weight % 2 == 1
  }

  /** Any of the three flags brings in all four optional octets. */
  predicate HasOptionalFields(h: Header) {
    h.hasExtensionHeader || h.hasSequenceNumber || h.hasNpduNumber
  }

  function BaseHeader(packet: seq<byte>): Header
    requires |packet| >= 8
  {
    Header(packet[0], Bit(packet[0], 4), Bit(packet[0], 2), Bit(packet[0], 1), packet[1], Uint16At(packet, 2),
           Uint32At(packet, 4), 0, 0, 0, 8, 8 + Uint16At(packet, 2))
  }

  function FullHeader(packet: seq<byte>): Header
    requires |packet| >= 8
  {
    var h := BaseHeader(packet);
    if HasOptionalFields(h) && |packet| >= 12 then
      h.(sequence := Uint16At(packet, 8), npduNumber := packet[10], nextExtensionHeaderType := packet[11],
         headerLength := 12)
    else h
  }

  function ParsedHeader(packet: seq<byte>): Result<Header, HeaderError> {
    if |packet| < 8 then Err(TooShort)
    else
      var h := FullHeader(packet);
      if h.flags / 32 != 1 then Err(WrongVersion)
      else if !Bit(h.flags, 16) then Err(NotGtp)
      else if HasOptionalFields(h) && |packet| < 12 then Err(NoOptionalFields)
      else if |packet| < h.totalLength then Err(DeclaredTooLong)
      else if h.totalLength < h.headerLength then Err(DeclaredTooShort)
      else Ok(h)
  }

  method ParseGtpV1Header(packet: seq<byte>) returns (r: Result<Header, HeaderError>)
    ensures r == ParsedHeader(packet)
  {
    if |packet| < 8 {
      return Err(TooShort);
    }
    var header := BaseHeader(packet);
    if header.flags / 32 != 1 {
      return Err(WrongVersion);
    }
    if !Bit(header.flags, 16) {
      return Err(NotGtp);
    }
    if header.hasExtensionHeader || header.hasSequenceNumber || header.hasNpduNumber {
      if |packet| < 12 {
        return Err(NoOptionalFields);
      }
      header := header.(sequence := Uint16At(packet, 8));
      header := header.(npduNumber := packet[10]);
      header := header.(nextExtensionHeaderType := packet[11]);
      header := header.(headerLength := 12);
    }
    if |packet| < header.totalLength {
      return Err(DeclaredTooLong);
    }
    if header.totalLength < header.headerLength {
      return Err(DeclaredTooShort);
    }
    r := Ok(header);
  }

  /** What an accepted header promises about the packet it came from. */
  lemma AcceptedHeader(packet: seq<byte>)
    requires ParsedHeader(packet).Ok?
    ensures var h := ParsedHeader(packet).value;
            && 8 <= h.headerLength <= h.totalLength <= |packet|
            && h.totalLength == 8 + h.payloadLength
            && h.headerLength == (if HasOptionalFields(h) then 12 else 8)
            && (!HasOptionalFields(h) ==> h.sequence == 0 && h.npduNumber == 0 && h.nextExtensionHeaderType == 0)
  {
  }

  // ----- the header, octet by octet -----

  /** One of the three flags that bring in the four optional octets. */
  predicate Optional(p: seq<byte>)
    requires p != []
  {
    p[0] % 8 != 0
  }

  /** The length the header declares: eight octets and the payload. */
  function DeclaredLength(p: seq<byte>): nat
    requires |p| >= 8
  {
    8 + p[2] as int * 0x100 + p[3]
  }

  /**
    A header is accepted exactly for version 1 and protocol type GTP, when the declared length reaches past the
    header and not past the packet; and then it holds the octets at their places.
   */
  lemma HeaderByOctets(p: seq<byte>)
    ensures ParsedHeader(p).Ok? <==>
            && |p| >= 8 && p[0] / 16 == 3
            && DeclaredLength(p) <= |p| && (Optional(p) ==> DeclaredLength(p) >= 12)
    ensures ParsedHeader(p).Ok? ==>
              var h := ParsedHeader(p).value;
              && h.flags == p[0] && h.messageType == p[1] && h.totalLength == DeclaredLength(p)
              && h.headerLength == (if Optional(p) then 12 else 8)
              && h.teid == p[4] as int * 0x100_0000 + p[5] as int * 0x1_0000 + p[6] as int * 0x100 + p[7]
              && h.sequence == (if Optional(p) then p[8] as int * 0x100 + p[9] else 0)
              && h.npduNumber == (if Optional(p) then p[10] else 0)
              && h.nextExtensionHeaderType == (if Optional(p) then p[11] else 0)
              && (h.hasExtensionHeader <==> p[0] / 4 % 2 == 1) && (h.hasSequenceNumber <==> p[0] / 2 % 2 == 1)
              && (h.hasNpduNumber <==> p[0] % 2 == 1)
  {
  }

  /** The header errors, first failing test first. */
  lemma HeaderErrors(p: seq<byte>)
    ensures ParsedHeader(p).Err? ==>
              ParsedHeader(p).error
              == if |p| < 8 then TooShort
                 else if p[0] / 32 != 1 then WrongVersion
                 else if p[0] / 16 % 2 != 1 then NotGtp
                 else if Optional(p) && |p| < 12 then NoOptionalFields
                 else if |p| < DeclaredLength(p) then DeclaredTooLong
                 else DeclaredTooShort
  {
  }

  // ----- responses -----

  /** The ten response builders. */
  datatype Responder =
    | Echo | Create | Update | Delete | InitiateActivation | Notification | NotificationReject
    | FailureReport | MsPresent | Identification

  function ResponseType(b: Responder): byte {
    match b
    case Echo => 0x02
    case Create => 0x11
    case Update => 0x13
    case Delete => 0x15
    case InitiateActivation => 0x17
    case Notification => 0x1C
    case NotificationReject => 0x1E
    case FailureReport => 0x23
    case MsPresent => 0x25
    case Identification => 0x31
  }

  /** Echo and delete responses carry the TEID of the request. */
  function ResponseTeid(b: Responder, h: Header, teid: uint32): uint32 {
    if b.Echo? || b.Delete? then h.teid else teid
  }

  /** Echo carries a recovery element, every other response a cause. */
  function ResponseElement(b: Responder): byte {
    if b.Echo? then 0x0E else 0x01
  }

  function ResponseFlags(h: Header): byte {
    32 + 16
    + (if h.hasExtensionHeader then 4 else 0) + (if h.hasSequenceNumber then 2 else 0)
    + (if h.hasNpduNumber then 1 else 0)
  }

  function OptionalFields(h: Header): seq<byte> {
    if !HasOptionalFields(h) then []
    else
      Octets16(h.sequence)
      + [if h.hasNpduNumber then h.npduNumber else 0, if h.hasExtensionHeader then h.nextExtensionHeaderType else 0]
  }

  function Response(b: Responder, h: Header, teid: uint32, octet: byte): seq<byte> {
    [ResponseFlags(h), ResponseType(b)] + Octets16(|OptionalFields(h)| + 2) + Octets32(ResponseTeid(b, h, teid))
    + OptionalFields(h) + [ResponseElement(b), octet]
  }

  method AppendOptionalFields(response: seq<byte>, h: Header) returns (r: seq<byte>)
    ensures r == response + OptionalFields(h)
  {
    r := response;
    if !HasOptionalFields(h) {
      return;
    }
    r := r + [h.sequence / 0x100 % 0x100];
    r := r + [h.sequence % 0x100];
    r := r + [if h.hasNpduNumber then h.npduNumber else 0];
    r := r + [if h.hasExtensionHeader then h.nextExtensionHeaderType else 0];
  }

  method BuildResponse(b: Responder, h: Header, teid: uint32, octet: byte) returns (response: seq<byte>)
    ensures response == Response(b, h, teid, octet)
  {
    var payloadLength: uint16 := (if HasOptionalFields(h) then 4 else 0) + 2;
    var to := ResponseTeid(b, h, teid);
    response := [ResponseFlags(h)];
    response := response + [ResponseType(b)];
    response := response + [payloadLength / 0x100, payloadLength % 0x100];
    response := response + [to / 0x100_0000, to / 0x1_0000 % 0x100];
    response := response + [to / 0x100 % 0x100, to % 0x100];
    ResponseStart(b, h, teid);
    assert response == ResponseHead(b, h, teid);
    response := AppendOptionalFields(response, h);
    response := response + [ResponseElement(b)];
    response := response + [octet];
    assert response == ResponseHead(b, h, teid) + OptionalFields(h) + [ResponseElement(b), octet];
  }

  function ResponseHead(b: Responder, h: Header, teid: uint32): seq<byte> {
    [ResponseFlags(h), ResponseType(b)] + Octets16(|OptionalFields(h)| + 2) + Octets32(ResponseTeid(b, h, teid))
  }

  lemma ResponseStart(b: Responder, h: Header, teid: uint32)
    ensures var n, to := |OptionalFields(h)| + 2, ResponseTeid(b, h, teid);
            ResponseHead(b, h, teid)
            == [ResponseFlags(h), ResponseType(b), n / 0x100, n % 0x100,
                to / 0x100_0000, to / 0x1_0000 % 0x100, to / 0x100 % 0x100, to % 0x100]
  {
    var to := ResponseTeid(b, h, teid);
    Octets32Are(to);
  }

  /** The header a response is expected to show. */
  function Answered(b: Responder, h: Header, teid: uint32): Header {
    h.(flags := ResponseFlags(h),
       messageType := ResponseType(b),
       payloadLength := |OptionalFields(h)| + 2,
       teid := ResponseTeid(b, h, teid),
       npduNumber := if h.hasNpduNumber then h.npduNumber else 0,
       nextExtensionHeaderType := if h.hasExtensionHeader then h.nextExtensionHeaderType else 0,
       totalLength := h.headerLength + 2)
  }

  /**
    Answering an accepted header gives a packet whose own header is accepted: same optional fields, same
    sequence, the flagged N-PDU number, the given TEID, and a declared length that is the byte count.
   */
  lemma ResponseRoundTrip(packet: seq<byte>, b: Responder, teid: uint32, octet: byte)
    requires ParsedHeader(packet).Ok?
    ensures var h := ParsedHeader(packet).value;
            var r := Response(b, h, teid, octet);
            ParsedHeader(r) == Ok(Answered(b, h, teid)) && |r| == Answered(b, h, teid).totalLength
  {
    var h := ParsedHeader(packet).value;
    AcceptedHeader(packet);
    HeaderByOctets(packet);
    ResponseLayout(b, h, teid, octet);
    HeaderByOctets(Response(b, h, teid, octet));
    FlagsOfResponse(h);
    TeidOfResponse(b, h, teid, Response(b, h, teid, octet));
  }

  /** The pieces of a response, where they stand. */
  lemma ResponseLayout(b: Responder, h: Header, teid: uint32, octet: byte)
    ensures var r, n := Response(b, h, teid, octet), |OptionalFields(h)|;
            && |r| == 10 + n && r[0] == ResponseFlags(h) && r[1] == ResponseType(b)
            && r[2] == 0 && r[3] == n + 2 && n == (if HasOptionalFields(h) then 4 else 0)
            && r[4..8] == Octets32(ResponseTeid(b, h, teid))
            && r[8..8 + n] == OptionalFields(h)
            && r[8 + n] == ResponseElement(b) && r[9 + n] == octet
  {
    ResponseStart(b, h, teid);
  }

  lemma FlagsOfResponse(h: Header)
    ensures var f := ResponseFlags(h);
            && f / 16 == 3 && (f / 4 % 2 == 1 <==> h.hasExtensionHeader) && (f / 2 % 2 == 1 <==> h.hasSequenceNumber)
            && (f % 2 == 1 <==> h.hasNpduNumber) && (f % 8 != 0 <==> HasOptionalFields(h))
  {
  }

  lemma TeidOfResponse(b: Responder, h: Header, teid: uint32, r: seq<byte>)
    requires |r| >= 8 && r[4..8] == Octets32(ResponseTeid(b, h, teid))
    ensures r[4] as int * 0x100_0000 + r[5] as int * 0x1_0000 + r[6] as int * 0x100 + r[7] == ResponseTeid(b, h, teid)
  {
    Word32(r, 4, ResponseTeid(b, h, teid));
  }

  /**
    A response, octet by octet: version, protocol type and the flags of the request; one of ten types; the payload
    length; a TEID, which for echo and delete is the request's; the optional octets; and one element, a recovery
    counter for echo and a cause for the others.
   */
  lemma ResponseByOctets(packet: seq<byte>, b: Responder, teid: uint32, octet: byte)
    requires ParsedHeader(packet).Ok?
    ensures var r := Response(b, ParsedHeader(packet).value, teid, octet);
            var n := |r|;
            && n == (if Optional(packet) then 14 else 10)
            && r[0] == 0x30 + packet[0] % 8
            && r[1] == (match b
                        case Echo => 0x02 case Create => 0x11 case Update => 0x13 case Delete => 0x15
                        case InitiateActivation => 0x17 case Notification => 0x1C case NotificationReject => 0x1E
                        case FailureReport => 0x23 case MsPresent => 0x25 case Identification => 0x31)
            && r[2] == 0 && r[3] == n - 8
            && r[4..8] == (if b.Echo? || b.Delete? then packet[4..8] else Octets32(teid))
            && (Optional(packet) ==> r[8..10] == packet[8..10])
            && (Optional(packet) ==> r[10] == (if packet[0] % 2 == 1 then packet[10] else 0))
            && (Optional(packet) ==> r[11] == (if packet[0] / 4 % 2 == 1 then packet[11] else 0))
            && r[n - 2] == (if b.Echo? then 0x0E else 0x01) && r[n - 1] == octet
  {
    var h := ParsedHeader(packet).value;
    HeaderByOctets(packet);
    ResponseLayout(b, h, teid, octet);
    TeidByOctets(packet);
    FlagsByOctets(packet);
    var r := Response(b, h, teid, octet);
    if Optional(packet) {
      OptionalByOctets(packet);
      assert r[8..12][..2] == r[8..10];
      assert r[8..12][2] == r[10] && r[8..12][3] == r[11];
    }
  }

  lemma FlagsByOctets(packet: seq<byte>)
    requires ParsedHeader(packet).Ok?
    ensures ResponseFlags(ParsedHeader(packet).value) == 0x30 + packet[0] % 8
    ensures HasOptionalFields(ParsedHeader(packet).value) <==> Optional(packet)
  {
    HeaderByOctets(packet);
  }

  lemma OptionalByOctets(packet: seq<byte>)
    requires ParsedHeader(packet).Ok?
    requires packet != [] && Optional(packet)
    ensures var o := OptionalFields(ParsedHeader(packet).value);
            && |o| == 4 && o[..2] == packet[8..10]
            && o[2] == (if packet[0] % 2 == 1 then packet[10] else 0)
            && o[3] == (if packet[0] / 4 % 2 == 1 then packet[11] else 0)
  {
    HeaderByOctets(packet);
  }

  lemma TeidByOctets(packet: seq<byte>)
    requires ParsedHeader(packet).Ok?
    ensures Octets32(ParsedHeader(packet).value.teid) == packet[4..8]
  {
    WordOctets(packet, 4);
  }
}
