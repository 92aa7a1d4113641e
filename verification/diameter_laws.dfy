/**
  Diameter messages by their octets: command codes, flags, application identifiers and attribute codes are written
  out, independently of how parsers and builders are put together.
 */
module DiameterLaws {
  import opened Bytes
  import opened Diameter
  import opened DiameterWalks
  import opened DiameterBuild

  // ----- reading -----

  function Word24(p: seq<byte>, i: nat): nat
    requires i + 3 <= |p|
  {
    p[i] as int * 0x1_0000 + p[i + 1] as int * 0x100 + p[i + 2]
  }

  function Word(p: seq<byte>, i: nat): nat
    requires i + 4 <= |p|
  {
    p[i] as int * 0x100_0000 + p[i + 1] as int * 0x1_0000 + p[i + 2] as int * 0x100 + p[i + 3]
  }

  /** A header is accepted exactly for version 1 and a declared length from 20 octets up to the packet's. */
  lemma HeaderByOctets(p: seq<byte>)
    ensures ParsedHeader(p).Ok? <==> |p| >= 20 && p[0] == 1 && 20 <= Word24(p, 1) <= |p|
    ensures ParsedHeader(p).Ok? ==>
              ParsedHeader(p).value == Header(Word24(p, 1), p[4], Word24(p, 5), Word(p, 8), Word(p, 12), Word(p, 16))
    ensures ParsedHeader(p).Err? ==>
              ParsedHeader(p).error
              == if |p| < 20 then ShortHeader
                 else if p[0] != 1 then WrongVersion
                 else if Word24(p, 1) < 20 then LengthTooSmall
                 else LengthTooLarge
  {
  }

  /** The command of each kind of request. */
  function Command(k: Kind): nat {
    match k
    case Cer => 257
    case Dwr => 280
    case Dpr => 282
    case Ulr => 316
    case Clr => 317
    case Air => 318
    case Idr => 319
    case Dsr => 320
    case Pur => 321
  }

  /**
    A packet parses as a request exactly when its header is accepted, it has the command of its kind and the request
    flag, and, except for the two subscriber-data requests, its declared body is well-formed pairs.
   */
  lemma RequestByOctets(k: Kind, p: seq<byte>, given: Fields)
    ensures ParsedRequest(k, p, given).Ok? <==>
            && ParsedHeader(p).Ok? && |p| >= 20 && Word24(p, 1) <= |p|
            && Word24(p, 5) == Command(k) && p[4] >= 0x80
            && (k.Idr? || k.Dsr? || Avps(p[20..if Word24(p, 1) >= 20 then Word24(p, 1) else 20]).Ok?)
    ensures ParsedRequest(k, p, given).Ok? ==> ParsedRequest(k, p, given).value.0 == ParsedHeader(p).value
    ensures ParsedHeader(p).Ok? && |p| >= 20 && (Word24(p, 5) != Command(k) || p[4] < 0x80) ==>
              ParsedRequest(k, p, given) == Err(WrongCommand)
  {
    HeaderByOctets(p);
  }

  /** A pair: a code, a flag that brings in a vendor identifier, and a length that counts all but padding. */
  lemma PairByOctets(body: seq<byte>)
    requires body != []
    ensures NextAvp(body).Ok? <==>
            |body| >= 8 && (if body[4] >= 0x80 then 12 else 8) <= Word24(body, 5) <= |body|
    ensures NextAvp(body).Ok? ==>
              var (a, n) := NextAvp(body).value;
              var head := if body[4] >= 0x80 then 12 else 8;
              && a.code == Word(body, 0) && a.flags == body[4] && a.vendor == body[8..head]
              && a.payload == body[head..Word24(body, 5)]
              && (n == |body| || (n % 4 == 0 && Word24(body, 5) <= n < Word24(body, 5) + 4))
    ensures NextAvp(body).Err? ==>
              NextAvp(body).error
              == if |body| < 8 then TruncatedAvp
                 else if Word24(body, 5) < (if body[4] >= 0x80 then 12 else 8) then InvalidAvpLength
                 else AvpTooLong
  {
  }

  /** The lenient loop's pair: eight octets of head whatever the flags, and everything after them is data. */
  lemma LenientPairByOctets(body: seq<byte>)
    ensures NextData(body).Some? <==> |body| >= 8 && 8 <= Word24(body, 5) <= |body|
    ensures NextData(body).Some? ==>
              var (code, data, n) := NextData(body).value;
              && code == Word(body, 0) && data == body[8..Word24(body, 5)]
              && (n == |body| || (n % 4 == 0 && Word24(body, 5) <= n < Word24(body, 5) + 4))
  {
  }

  // ----- writing -----

  /** A written pair: code, flags, the length without padding, the payload, and zeros up to a multiple of four. */
  lemma WrittenPairByOctets(a: Avp)
    requires a.flags < 0x80 && a.vendor == [] && 8 + |a.payload| < 0x100_0000
    ensures var o, n := EncodeAvp(a), 8 + |a.payload|;
            && n <= |o| < n + 4 && |o| % 4 == 0
            && Word(o, 0) == a.code && o[4] == a.flags && Word24(o, 5) == n && o[8..n] == a.payload
            && forall i :: n <= i < |o| ==> o[i] == 0
  {
    PaddingOfPayload(|a.payload|);
    EncodedWords(a, []);
    assert EncodeAvp(a) + [] == EncodeAvp(a);
    PaddingIsZero(a, |a.payload|);
  }

  lemma PaddingIsZero(a: Avp, n: nat)
    requires n == |a.payload|
    ensures forall i :: 8 + n <= i < |EncodeAvp(a)| ==> EncodeAvp(a)[i] == 0
  {
    PaddingOfPayload(n);
    var front := Octets32(a.code) + [a.flags] + Octets24((8 + n) % 0x100_0000) + a.payload;
    assert EncodeAvp(a) == front + Zeros(Padded(n) - n) && |front| == 8 + n;
  }

  function Text(code: uint32, value: seq<byte>): Avp {
    Avp(code, 0x40, [], value)
  }

  function Number(code: uint32, value: uint32): Avp {
    Avp(code, 0x40, [], Octets32(value))
  }

  /** The pairs of each kind of request, in order. */
  function Asks(k: Kind, c: Content): seq<Avp> {
    match k
    case Cer => [Text(264, c.host), Text(296, c.realm)]
    case Dwr => [Text(264, c.host)]
    case Dpr => [Text(264, c.host), Number(273, c.cause)]
    case Air => [Text(264, c.host), Text(296, c.realm), Text(1, c.user), Number(277, 1)]
    case Ulr => [Text(264, c.host), Text(296, c.realm), Text(1, c.user), Number(277, 1)]
    case _ => [Text(264, c.host), Text(296, c.realm), Text(1, c.user)]
  }

  /** The pairs of each kind of answer, in order. */
  function Tells(k: Kind, host: seq<byte>, realm: seq<byte>, result: uint32): seq<Avp> {
    var start := [Number(268, result), Text(264, host)];
    match k
    case Dwr => start
    case Dpr => start
    case Air => start + [Text(296, realm), Number(277, 1)]
    case _ => start + [Text(296, realm)]
  }

  /** The header octets of a built message. */
  predicate Heads(m: seq<byte>, flags: byte, command: nat, application: nat, hop: nat, end: nat) {
    && |m| >= 20 && m[0] == 1 && Word24(m, 1) == |m| && m[4] == flags && Word24(m, 5) == command
    && Word(m, 8) == application && Word(m, 12) == hop && Word(m, 16) == end
  }

  /** A built request, octet by octet: the base protocol's three kinds have no application and are not proxiable. */
  lemma BuiltRequestByOctets(k: Kind, c: Content, hop: uint32, end: uint32)
    requires |Request(k, c, hop, end)| < 0x100_0000
    ensures var m := Request(k, c, hop, end);
            && (if k.Cer? || k.Dwr? || k.Dpr? then Heads(m, 0x80, Command(k), 0, hop, end)
                else Heads(m, 0xC0, Command(k), 16777251, hop, end))
            && Avps(m[20..]) == Ok(Asks(k, c))
  {
    var flags: byte := if BaseProtocol(k) then 0x80 else 0xC0;
    var application: uint32 := if BaseProtocol(k) then 0 else S6A_APPLICATION;
    RequestAvpsArePlain(k, c);
    AsksAreRequestAvps(k, c);
    MessageRoundTrip(flags, CommandCode(k), application, hop, end, RequestAvps(k, c));
    HeaderByOctets(Request(k, c, hop, end));
  }

  lemma AsksAreRequestAvps(k: Kind, c: Content)
    ensures RequestAvps(k, c) == Asks(k, c)
  {
  }

  /**
    A built answer, octet by octet: the request's proxiable flag and identifiers, its application for the base
    protocol, and the result, the host and, but for watchdog and disconnect, the realm under their codes.
   */
  lemma BuiltAnswerByOctets(k: Kind, h: Header, host: seq<byte>, realm: seq<byte>, result: uint32)
    requires |Answer(k, h, host, realm, result)| < 0x100_0000
    ensures var m := Answer(k, h, host, realm, result);
            && Heads(m, if h.flags / 0x40 % 2 == 1 then 0x40 else 0, Command(k),
                     if k.Cer? || k.Dwr? || k.Dpr? then h.applicationId else 16777251, h.hopByHopId, h.endToEndId)
            && Avps(m[20..]) == Ok(Tells(k, host, realm, result))
  {
    AnswerRoundTrip(k, h, host, realm, result);
    TellsAreAnswerAvps(k, host, realm, result);
    HeaderByOctets(Answer(k, h, host, realm, result));
  }

  lemma TellsAreAnswerAvps(k: Kind, host: seq<byte>, realm: seq<byte>, result: uint32)
    ensures AnswerAvps(k, host, realm, result) == Tells(k, host, realm, result)
  {
  }
}
