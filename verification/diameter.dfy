/** Diameter messages: `src/diameter_parser.cpp`. Strings are octet strings, as on the wire. */
module Diameter {
  import opened Bytes

  const ORIGIN_HOST: uint32 := 264
  const ORIGIN_REALM: uint32 := 296
  const USER_NAME: uint32 := 1
  const DISCONNECT_CAUSE: uint32 := 273
  const AUTH_SESSION_STATE: uint32 := 277
  const RESULT_CODE: uint32 := 268
  const S6A_APPLICATION: uint32 := 16777251
  const MANDATORY: byte := 0x40

  datatype Header = Header(
    messageLength: uint24,
    flags: byte,
    commandCode: uint24,
    applicationId: uint32,
    hopByHopId: uint32,
    endToEndId: uint32)

  datatype DiameterError =
    | ShortHeader | WrongVersion | LengthTooSmall | LengthTooLarge | WrongCommand
    | TruncatedAvp | InvalidAvpLength | AvpTooLong

  predicate IsRequest(h: Header) {
    h.flags / 0x80 == 1
  }

  function ParsedHeader(packet: seq<byte>): Result<Header, DiameterError> {
    if |packet| < 20 then Err(ShortHeader)
    else
      var h := Header(Uint24At(packet, 1), packet[4], Uint24At(packet, 5), Uint32At(packet, 8), Uint32At(packet, 12),
                      Uint32At(packet, 16));
      if packet[0] != 1 then Err(WrongVersion)
      else if h.messageLength < 20 then Err(LengthTooSmall)
      else if |packet| < h.messageLength then Err(LengthTooLarge)
      else Ok(h)
  }

  // ----- attribute-value pairs -----

  /** The vendor identifier is there exactly when the flag says so. */
  datatype Avp = Avp(code: uint32, flags: byte, vendor: seq<byte>, payload: seq<byte>)

  predicate Flagged(flags: byte) {
    flags >= 0x80
  }

  /** `paddedAvpLength`: up to the next multiple of four. */
  function Padded(n: nat): nat {
    (n + 3) / 4 * 4
  }

  /** The next pair of a nonempty body and the octets it takes up, padding included. */
  function NextAvp(body: seq<byte>): (r: Result<(Avp, nat), DiameterError>)
    requires body != []
    ensures r.Ok? ==> 0 < r.value.1 <= |body|
  {
    if |body| < 8 then Err(TruncatedAvp)
    else
      var n: nat := Uint24At(body, 5);
      var head := if Flagged(body[4]) then 12 else 8;
      if n < head then Err(InvalidAvpLength)
      else if n > |body| then Err(AvpTooLong)
      else Ok((Avp(Uint32At(body, 0), body[4], body[8..head], body[head..n]),
               if Padded(n) < |body| then Padded(n) else |body|))
  }

  function Avps(body: seq<byte>): Result<seq<Avp>, DiameterError>
    decreases |body|
  {
    if body == [] then Ok([])
    else
      match NextAvp(body)
      case Err(e) => Err(e)
      case Ok((a, n)) =>
        match Avps(body[n..])
        case Err(e) => Err(e)
        case Ok(rest) => Ok([a] + rest)
  }

  // ----- requests -----

  datatype Kind = Cer | Dwr | Dpr | Air | Ulr | Pur | Clr | Idr | Dsr

  function CommandCode(k: Kind): uint24 {
    match k
    case Cer => 257
    case Dwr => 280
    case Dpr => 282
    case Air => 318
    case Ulr => 316
    case Pur => 321
    case Clr => 317
    case Idr => 319
    case Dsr => 320
  }

  predicate ReadsRealm(k: Kind) {
    !k.Dwr? && !k.Dpr?
  }

  predicate ReadsUser(k: Kind) {
    ReadsRealm(k) && !k.Cer?
  }

  /** Each string with its `has_` flag, and the disconnect cause. */
  datatype Fields = Fields(
    host: Option<seq<byte>>,
    realm: Option<seq<byte>>,
    user: Option<seq<byte>>,
    cause: Option<uint32>)

  const NO_FIELDS: Fields := Fields(None, None, None, None)

  function Take(k: Kind, f: Fields, code: uint32, payload: seq<byte>): Fields {
    if code == ORIGIN_HOST then f.(host := Some(payload))
    else if code == ORIGIN_REALM && ReadsRealm(k) then f.(realm := Some(payload))
    else if code == USER_NAME && ReadsUser(k) then f.(user := Some(payload))
    else if code == DISCONNECT_CAUSE && k.Dpr? && |payload| == 4 then f.(cause := Some(Uint32At(payload, 0)))
    else f
  }

  function TakeAll(k: Kind, f: Fields, avps: seq<Avp>): Fields
    decreases |avps|
  {
    if avps == [] then f else TakeAll(k, Take(k, f, avps[0].code, avps[0].payload), avps[1..])
  }

  /** The strict loop: any malformed pair fails the message. */
  function StrictFields(k: Kind, body: seq<byte>, f: Fields): Result<Fields, DiameterError> {
    match Avps(body)
    case Err(e) => Err(e)
    case Ok(avps) => Ok(TakeAll(k, f, avps))
  }

  /** The lenient loop takes the vendor identifier for data, and skips pairs without data. */
  function Data(a: Avp): seq<byte> {
    a.vendor + a.payload
  }

  function LenientTake(f: Fields, code: uint32, data: seq<byte>): Fields {
    if data == [] then f
    else if code == ORIGIN_HOST then f.(host := Some(data))
    else if code == ORIGIN_REALM then f.(realm := Some(data))
    else if code == USER_NAME then f.(user := Some(data))
    else f
  }

  /** The next pair as the lenient loop reads it, and the octets it takes up. */
  function NextData(body: seq<byte>): (r: Option<(uint32, seq<byte>, nat)>)
    ensures r.Some? ==> 0 < r.value.2 <= |body|
  {
    if |body| < 8 then None
    else
      var n: nat := Uint24At(body, 5);
      if n < 8 || n > |body| then None
      else Some((Uint32At(body, 0), body[8..n], if Padded(n) < |body| then Padded(n) else |body|))
  }

  /** It stops quietly at the first malformed pair. */
  function LenientFields(body: seq<byte>, f: Fields): Fields
    decreases |body|
  {
    match NextData(body)
    case None => f
    case Some((code, data, n)) => LenientFields(body[n..], LenientTake(f, code, data))
  }

  predicate Lenient(k: Kind) {
    k.Idr? || k.Dsr?
  }

  /**
    IDR and DSR walk the whole packet leniently and keep what the given request holds; every other parser
    blanks the request and walks the declared length strictly.
   */
  function ParsedRequest(k: Kind, packet: seq<byte>, given: Fields): Result<(Header, Fields), DiameterError> {
    match ParsedHeader(packet)
    case Err(e) => Err(e)
    case Ok(h) =>
      if h.commandCode != CommandCode(k) || !IsRequest(h) then Err(WrongCommand)
      else if Lenient(k) then Ok((h, LenientFields(packet[20..], given)))
      else
        match StrictFields(k, packet[20..h.messageLength], NO_FIELDS)
        case Err(e) => Err(e)
        case Ok(f) => Ok((h, f))
  }

  // ----- the code's loops -----

  lemma StrictStep(k: Kind, body: seq<byte>, f: Fields)
    requires body != []
    ensures StrictFields(k, body, f)
         == match NextAvp(body)
            case Err(e) => Err(e)
            case Ok((a, n)) => StrictFields(k, body[n..], Take(k, f, a.code, a.payload))
  {
    if NextAvp(body).Ok? {
      var (a, n) := NextAvp(body).value;
      if Avps(body[n..]).Ok? {
        var rest := Avps(body[n..]).value;
        assert ([a] + rest)[1..] == rest;
      }
    }
  }

  /** What is left of a packet after a padded pair, which may reach past the end. */
  function Left(packet: seq<byte>, offset: nat, end: nat): seq<byte>
    requires end <= |packet|
  {
    if offset < end then packet[offset..end] else []
  }

  /** Code, payload and size of the pair at an offset; the size counts padding that may be missing. */
  method ReadAvp(packet: seq<byte>, offset: nat, end: nat) returns (r: Result<(uint32, seq<byte>, nat), DiameterError>)
    requires offset < end <= |packet|
    ensures match r
            case Err(e) => NextAvp(packet[offset..end]) == Err(e)
            case Ok((code, payload, n)) =>
              && n > 0 && NextAvp(packet[offset..end]).Ok?
              && var (a, size) := NextAvp(packet[offset..end]).value;
                 a.code == code && a.payload == payload && packet[offset..end][size..] == Left(packet, offset + n, end)
  {
    if offset + 8 > end {
      return Err(TruncatedAvp);
    }
    var avpCode := Uint32At(packet, offset);
    var avpFlags := packet[offset + 4];
    var avpLength: nat := Uint24At(packet, offset + 5);
    var avpHeaderLength := if Flagged(avpFlags) then 12 else 8;
    if avpLength < avpHeaderLength {
      return Err(InvalidAvpLength);
    }
    if offset + avpLength > end {
      return Err(AvpTooLong);
    }
    SliceOfSlice(packet, offset, end, avpHeaderLength, avpLength);
    ghost var size := if Padded(avpLength) < end - offset then Padded(avpLength) else end - offset;
    SliceOfSlice(packet, offset, end, size, end - offset);
    r := Ok((avpCode, packet[offset + avpHeaderLength..offset + avpLength], Padded(avpLength)));
  }

  method StrictTurn(k: Kind, packet: seq<byte>, offset: nat, end: nat, fields: Fields, ghost rest: seq<byte>)
    returns (r: Result<(Fields, nat), DiameterError>)
    requires offset < end <= |packet| && rest == packet[offset..end]
    ensures match r
            case Err(e) => StrictFields(k, rest, fields) == Err(e)
            case Ok((f, n)) =>
              n > 0 && StrictFields(k, rest, fields) == StrictFields(k, Left(packet, offset + n, end), f)
  {
    StrictStep(k, rest, fields);
    var avp := ReadAvp(packet, offset, end);
    if avp.Err? {
      return Err(avp.error);
    }
    var (code, payload, n) := avp.value;
    var f := TakeAvp(k, fields, code, payload);
    r := Ok((f, n));
  }

  method StrictLoop(k: Kind, packet: seq<byte>, messageLength: nat, blank: Fields)
    returns (r: Result<Fields, DiameterError>)
    requires 20 <= messageLength <= |packet|
    ensures r == StrictFields(k, packet[20..messageLength], blank)
  {
    var f, offset := blank, 20;
    ghost var rest := packet[20..messageLength];
    ghost var all := StrictFields(k, rest, blank);
    while offset < messageLength
      invariant rest == Left(packet, offset, messageLength) && all == StrictFields(k, rest, f)
      decreases if offset < messageLength then messageLength - offset else 0
    {
      var turn := StrictTurn(k, packet, offset, messageLength, f, rest);
      if turn.Err? {
        r := Err(turn.error);
        return;
      }
      f, offset := turn.value.0, offset + turn.value.1;
      rest := Left(packet, offset, messageLength);
    }
    assert Avps([]) == Ok([]);
    r := Ok(f);
  }

  method TakeAvp(k: Kind, fields: Fields, avpCode: uint32, payload: seq<byte>) returns (f: Fields)
    ensures f == Take(k, fields, avpCode, payload)
  {
    f := fields;
    if avpCode == 264 {
      f := f.(host := Some(payload));
    } else if avpCode == 296 && ReadsRealm(k) {
      f := f.(realm := Some(payload));
    } else if avpCode == 1 && ReadsUser(k) {
      f := f.(user := Some(payload));
    } else if avpCode == 273 && k.Dpr? && |payload| == 4 {
      f := f.(cause := Some(Uint32At(payload, 0)));
    }
  }

  /** Code, data and size of the next pair; the size counts padding that may be missing. */
  method ReadData(packet: seq<byte>, offset: nat) returns (r: Option<(uint32, seq<byte>, nat)>)
    requires offset + 8 <= |packet|
    ensures match r
            case None => NextData(packet[offset..]) == None
            case Some((code, data, n)) =>
              && n > 0 && NextData(packet[offset..]).Some?
              && var (c, d, size) := NextData(packet[offset..]).value;
                 c == code && d == data && packet[offset..][size..] == Left(packet, offset + n, |packet|)
  {
    assert packet[offset..] == packet[offset..|packet|];
    var avpCode := Uint32At(packet, offset);
    var avpLength: nat := Uint24At(packet, offset + 5);
    if avpLength < 8 || offset + avpLength > |packet| {
      return None;
    }
    var dataOffset, dataLength := offset + 8, avpLength - 8;
    SliceOfSlice(packet, offset, |packet|, 8, avpLength);
    ghost var size := if Padded(avpLength) < |packet| - offset then Padded(avpLength) else |packet| - offset;
    SliceOfSlice(packet, offset, |packet|, size, |packet| - offset);
    r := Some((avpCode, packet[dataOffset..dataOffset + dataLength], Padded(avpLength)));
  }

  method LenientTurn(packet: seq<byte>, offset: nat, fields: Fields, ghost rest: seq<byte>)
    returns (r: Option<(Fields, nat)>)
    requires offset + 8 <= |packet| && rest == packet[offset..]
    ensures match r
            case None => LenientFields(rest, fields) == fields
            case Some((f, n)) =>
              n > 0 && LenientFields(rest, fields) == LenientFields(Left(packet, offset + n, |packet|), f)
  {
    var avp := ReadData(packet, offset);
    if avp.None? {
      return None;
    }
    var (code, data, n) := avp.value;
    var f := TakeData(fields, code, data);
    r := Some((f, n));
  }

  method LenientLoop(packet: seq<byte>, blank: Fields) returns (f: Fields)
    requires |packet| >= 20
    ensures f == LenientFields(packet[20..], blank)
  {
    f := blank;
    var offset := 20;
    ghost var rest := packet[20..];
    ghost var all := LenientFields(rest, blank);
    while offset + 8 <= |packet|
      invariant rest == Left(packet, offset, |packet|) && all == LenientFields(rest, f)
      decreases if offset < |packet| then |packet| - offset else 0
    {
      assert rest == packet[offset..];
      var turn := LenientTurn(packet, offset, f, rest);
      if turn.None? {
        return;
      }
      f, offset := turn.value.0, offset + turn.value.1;
      rest := Left(packet, offset, |packet|);
    }
  }

  method TakeData(fields: Fields, avpCode: uint32, data: seq<byte>) returns (f: Fields)
    ensures f == LenientTake(fields, avpCode, data)
  {
    f := fields;
    if avpCode == 264 && |data| > 0 {
      f := f.(host := Some(data));
    } else if avpCode == 296 && |data| > 0 {
      f := f.(realm := Some(data));
    } else if avpCode == 1 && |data| > 0 {
      f := f.(user := Some(data));
    }
  }

  method ParseDiameterHeader(packet: seq<byte>) returns (r: Result<Header, DiameterError>)
    ensures r == ParsedHeader(packet)
  {
    if |packet| < 20 {
      return Err(ShortHeader);
    }
    var header := Header(Uint24At(packet, 1), packet[4], Uint24At(packet, 5), Uint32At(packet, 8), Uint32At(packet, 12),
                         Uint32At(packet, 16));
    if packet[0] != 1 {
      return Err(WrongVersion);
    }
    if header.messageLength < 20 {
      return Err(LengthTooSmall);
    }
    if |packet| < header.messageLength {
      return Err(LengthTooLarge);
    }
    r := Ok(header);
  }

  method ParseRequest(k: Kind, packet: seq<byte>, given: Fields) returns (r: Result<(Header, Fields), DiameterError>)
    ensures r == ParsedRequest(k, packet, given)
  {
    var header := ParseDiameterHeader(packet);
    if header.Err? {
      return Err(header.error);
    }
    var h := header.value;
    if h.commandCode != CommandCode(k) || !IsRequest(h) {
      return Err(WrongCommand);
    }
    if Lenient(k) {
      var f := LenientLoop(packet, given);
      return Ok((h, f));
    }
    var f := StrictLoop(k, packet, h.messageLength, NO_FIELDS);
    if f.Err? {
      return Err(f.error);
    }
    r := Ok((h, f.value));
  }
}
