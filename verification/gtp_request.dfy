/** The information element walker of `src/gtp_parser.cpp`: a fold over the elements that tile the body. */
module GtpRequests {
  import opened Bytes
  import opened GtpHeaders
  import opened GtpValues

  const IE_IMSI: byte := 0x02
  const IE_PDP_TYPE: byte := 0x80
  const IE_APN: byte := 0x83
  const IE_ADDRESS: byte := 0x85

  /** `CreatePdpRequestInfo`. */
  datatype Request = Request(
    imsi: string,
    apn: string,
    ggsnIp: string,
    pdpType: byte,
    hasImsi: bool,
    hasApn: bool,
    hasGgsnIp: bool,
    hasPdpType: bool)

  datatype RequestError =
    | WrongMessageType | BadBoundaries | TruncatedImsi | TruncatedElementHeader | TruncatedPayload
    | LongApnLabel | NothingSupported

  const NOTHING: Request := Request("", "", "", 0, false, false, false, false)

  /** An IMSI has a fixed size; every other element states its length. */
  datatype Element = Imsi(tbcd: seq<byte>) | Tlv(ieType: byte, value: seq<byte>)

  predicate Encodable(e: Element) {
    match e
    case Imsi(tbcd) => |tbcd| == 8
    case Tlv(t, v) => t != IE_IMSI && |v| < 0x1_0000
  }

  // ----- specification: one element at a time -----

  function Absorb(r: Request, e: Element): Result<Request, RequestError> {
    match e
    case Imsi(tbcd) => Ok(r.(imsi := TbcdText(tbcd), hasImsi := TbcdText(tbcd) != ""))
    case Tlv(t, v) =>
      if t == IE_PDP_TYPE then Ok(if |v| >= 2 then r.(pdpType := v[1], hasPdpType := true) else r)
      else if t == IE_APN then
        match ApnText(v)
        case None => Err(LongApnLabel)
        case Some(apn) => Ok(r.(apn := apn, hasApn := apn != ""))
      else if t == IE_ADDRESS then
        Ok(if Ipv4Text(v) != "" && !r.hasGgsnIp then r.(ggsnIp := Ipv4Text(v), hasGgsnIp := true) else r)
      else Ok(r)
  }

  /** The next element of a body and its size. */
  function Next(body: seq<byte>): (n: Result<(Element, nat), RequestError>)
    requires body != []
    ensures n.Ok? ==> 0 < n.value.1 <= |body| && Encodable(n.value.0)
  {
    if body[0] == IE_IMSI then
      if |body| < 9 then Err(TruncatedImsi) else Ok((Imsi(body[1..9]), 9))
    else if |body| < 3 then Err(TruncatedElementHeader)
    else
      var n := 3 + Uint16At(body, 1) as int;
      if n > |body| then Err(TruncatedPayload) else Ok((Tlv(body[0], body[3..n]), n))
  }

  function Walk(body: seq<byte>, r: Request): Result<Request, RequestError>
    decreases |body|
  {
    if body == [] then Ok(r)
    else
      match Next(body)
      case Err(e) => Err(e)
      case Ok((e, n)) =>
        match Absorb(r, e)
        case Err(e) => Err(e)
        case Ok(r') => Walk(body[n..], r')
  }

  predicate HasSupported(r: Request) {
    r.hasImsi || r.hasApn || r.hasGgsnIp || r.hasPdpType
  }

  /** The part of the packet still to be walked. */
  function Remaining(packet: seq<byte>, offset: nat, end: nat): seq<byte>
    requires end <= |packet|
  {
    if offset < end then packet[offset..end] else []
  }

  function ParsedRequest(packet: seq<byte>, h: Header, expected: byte): Result<Request, RequestError> {
    if h.messageType != expected then Err(WrongMessageType)
    else if h.totalLength > |packet| || h.headerLength > |packet| then Err(BadBoundaries)
    else
      match Walk(Remaining(packet, h.headerLength, h.totalLength), NOTHING)
      case Err(e) => Err(e)
      case Ok(r) => if HasSupported(r) then Ok(r) else Err(NothingSupported)
  }

  // ----- the code's loop -----

  method AbsorbTlv(request: Request, ieType: byte, value: seq<byte>) returns (r: Result<Request, RequestError>)
    requires ieType != IE_IMSI
    ensures r == Absorb(request, Tlv(ieType, value))
  {
    var next := request;
    match ieType {
      case 0x80 =>
        if |value| >= 2 {
          next := next.(pdpType := value[1]);
          next := next.(hasPdpType := true);
        }
      case 0x83 =>
        var apn := DecodeAccessPointName(value);
        if apn.None? {
          return Err(LongApnLabel);
        }
        next := next.(apn := apn.value);
        next := next.(hasApn := next.apn != "");
      case 0x85 =>
        var ip := Ipv4Text(value);
        if ip != "" && !next.hasGgsnIp {
          next := next.(ggsnIp := ip);
          next := next.(hasGgsnIp := true);
        }
      case _ =>
    }
    r := Ok(next);
  }

  method AbsorbElement(request: Request, element: Element) returns (r: Result<Request, RequestError>)
    requires Encodable(element)
    ensures r == Absorb(request, element)
  {
    match element {
      case Imsi(tbcd) =>
        var next := request;
        var imsi := DecodeTbcdDigits(tbcd);
        next := next.(imsi := imsi);
        next := next.(hasImsi := next.imsi != "");
        r := Ok(next);
      case Tlv(ieType, value) =>
        r := AbsorbTlv(request, ieType, value);
    }
  }

  /** One turn of the loop: the request so far and the size of the element. */
  method WalkElement(packet: seq<byte>, offset: nat, end: nat, request: Request, ghost rest: seq<byte>)
    returns (r: Result<(Request, nat), RequestError>, ghost after: seq<byte>)
    requires offset < end <= |packet| && rest == packet[offset..end]
    ensures match r
            case Err(e) => Walk(rest, request) == Err(e)
            case Ok((next, n)) =>
              && 0 < n <= end - offset && after == packet[offset + n..end]
              && Walk(rest, request) == Walk(after, next)
  {
    after := [];
    var element, n := NextElement(packet, offset, end);
    if element.Err? {
      r := Err(element.error);
      return;
    }
    var absorbed := AbsorbElement(request, element.value);
    if absorbed.Err? {
      r := Err(absorbed.error);
      return;
    }
    after := rest[n..];
    r := Ok((absorbed.value, n));
  }

  method WalkElements(packet: seq<byte>, start: nat, end: nat, blank: Request)
    returns (r: Result<Request, RequestError>)
    requires end <= |packet|
    ensures r == Walk(Remaining(packet, start, end), blank)
  {
    var request, offset := blank, start;
    ghost var rest := Remaining(packet, start, end);
    ghost var all := Walk(rest, blank);
    while offset < end
      invariant rest == if offset < end then packet[offset..end] else []
      invariant all == Walk(rest, request)
      decreases if offset < end then end - offset else 0
    {
      var walked, after := WalkElement(packet, offset, end, request, rest);
      if walked.Err? {
        r := Err(walked.error);
        return;
      }
      request, offset, rest := walked.value.0, offset + walked.value.1, after;
    }
    r := Ok(request);
  }

  method ParseDemoPdpContextRequest(packet: seq<byte>, header: Header, expected: byte)
    returns (r: Result<Request, RequestError>)
    ensures r == ParsedRequest(packet, header, expected)
  {
    if header.messageType != expected {
      return Err(WrongMessageType);
    }
    if header.totalLength > |packet| || header.headerLength > |packet| {
      return Err(BadBoundaries);
    }
    r := WalkElements(packet, header.headerLength, header.totalLength, NOTHING);
    if r.Err? {
      return;
    }
    var request := r.value;
    if !request.hasImsi && !request.hasApn && !request.hasGgsnIp && !request.hasPdpType {
      return Err(NothingSupported);
    }
  }

  method NextElement(packet: seq<byte>, offset: nat, end: nat) returns (element: Result<Element, RequestError>, n: nat)
    requires offset < end <= |packet|
    ensures Next(packet[offset..end]) == match element case Err(e) => Err(e) case Ok(e) => Ok((e, n))
    ensures element.Ok? ==> 0 < n && offset + n <= end && Encodable(element.value)
  {
    n := 0;
    var ieType := packet[offset];
    if ieType == IE_IMSI {
      if offset + 9 > end {
        element := Err(TruncatedImsi);
        return;
      }
      SliceOfSlice(packet, offset, end, 1, 9);
      element, n := Ok(Imsi(packet[offset + 1..offset + 9])), 9;
      return;
    }
    if offset + 3 > end {
      element := Err(TruncatedElementHeader);
      return;
    }
    var ieLength: nat := Uint16At(packet, offset + 1);
    var valueOffset := offset + 3;
    var nextOffset := valueOffset + ieLength;
    if nextOffset > end {
      element := Err(TruncatedPayload);
      return;
    }
    SliceOfSlice(packet, offset, end, 3, 3 + ieLength);
    ghost var body := packet[offset..end];
    assert Uint16At(body, 1) == ieLength;
    assert Next(body) == Ok((Tlv(body[0], body[3..3 + ieLength]), 3 + ieLength));
    element, n := Ok(Tlv(ieType, packet[valueOffset..nextOffset])), nextOffset - offset;
  }
}
