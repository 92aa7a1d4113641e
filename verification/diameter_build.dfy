/** Building Diameter messages, and parsing them back. */
module DiameterBuild {
  import opened Bytes
  import opened Diameter
  import opened DiameterWalks

  // ----- encoding -----

  function Zeros(n: nat): (z: seq<byte>)
    ensures |z| == n
  {
    seq(n, i => 0)
  }

  function EncodeAvp(a: Avp): seq<byte> {
    Octets32(a.code) + [a.flags] + Octets24((8 + |a.payload|) % 0x100_0000) + a.payload
    + Zeros(Padded(|a.payload|) - |a.payload|)
  }

  function EncodeAvps(avps: seq<Avp>): seq<byte> {
    if avps == [] then [] else EncodeAvp(avps[0]) + EncodeAvps(avps[1..])
  }

  function HeaderOctets(length: uint24, flags: byte, code: uint24, application: uint32, hop: uint32, end: uint32)
    : (o: seq<byte>)
    ensures |o| == 20
  {
    [1] + Octets24(length) + [flags] + Octets24(code) + Octets32(application) + Octets32(hop) + Octets32(end)
  }

  /** A header that declares the length of what it starts. */
  function Framed(flags: byte, code: uint24, application: uint32, hop: uint32, end: uint32, body: seq<byte>)
    : seq<byte>
  {
    HeaderOctets((20 + |body|) % 0x100_0000, flags, code, application, hop, end) + body
  }

  function Message(flags: byte, code: uint24, application: uint32, hop: uint32, end: uint32, avps: seq<Avp>)
    : seq<byte>
  {
    Framed(flags, code, application, hop, end, EncodeAvps(avps))
  }

  function StringAvp(code: uint32, value: seq<byte>): Avp {
    Avp(code, MANDATORY, [], value)
  }

  function Uint32Avp(code: uint32, value: uint32): Avp {
    Avp(code, MANDATORY, [], Octets32(value))
  }

  // ----- padding -----

  /** Padding computed on the payload is padding computed on the whole pair. */
  lemma PaddingOfPayload(n: nat)
    ensures Padded(8 + n) == 8 + Padded(n) && n <= Padded(n) < n + 4 && Padded(n) % 4 == 0
  {
  }

  lemma AlignedSum(a: nat, b: nat)
    requires a % 4 == 0 && b % 4 == 0
    ensures (a + b) % 4 == 0
  {
  }

  lemma {:induction false} EncodedLengths(avps: seq<Avp>)
    ensures |EncodeAvps(avps)| % 4 == 0
  {
    if avps != [] {
      EncodedLengths(avps[1..]);
      AlignedSum(|EncodeAvp(avps[0])|, |EncodeAvps(avps[1..])|);
    }
  }

  // ----- reading pairs back -----

  /** A pair the builders write: no vendor, and a length that fits. */
  predicate Plain(a: Avp) {
    !Flagged(a.flags) && a.vendor == [] && 8 + |a.payload| < 0x100_0000
  }

  lemma EncodedWords(a: Avp, rest: seq<byte>)
    requires Plain(a)
    ensures var body := EncodeAvp(a) + rest;
            && Uint32At(body, 0) == a.code && body[4] == a.flags && Uint24At(body, 5) == 8 + |a.payload|
            && |EncodeAvp(a)| >= 8 + |a.payload| && body[8..8 + |a.payload|] == a.payload
  {
    PaddingOfPayload(|a.payload|);
    var head := Octets32(a.code) + [a.flags] + Octets24(8 + |a.payload|);
    var tail := Zeros(Padded(|a.payload|) - |a.payload|) + rest;
    var body := EncodeAvp(a) + rest;
    assert body == head + (a.payload + tail);
    Word32(body, 0, a.code);
  }

  lemma NextOfEncoded(a: Avp, rest: seq<byte>)
    requires Plain(a)
    ensures NextAvp(EncodeAvp(a) + rest) == Ok((a, |EncodeAvp(a)|))
    ensures (EncodeAvp(a) + rest)[|EncodeAvp(a)|..] == rest
  {
    EncodedWords(a, rest);
    var body := EncodeAvp(a) + rest;
    assert body[8..8] == [];
  }

  lemma {:induction false} AvpsRoundTrip(avps: seq<Avp>)
    requires forall a | a in avps :: Plain(a)
    ensures Avps(EncodeAvps(avps)) == Ok(avps)
  {
    if avps != [] {
      NextOfEncoded(avps[0], EncodeAvps(avps[1..]));
      AvpsRoundTrip(avps[1..]);
      assert avps == [avps[0]] + avps[1..];
    }
  }

  /** A pair of a short enough message fits its length field. */
  lemma {:induction false} AllPlain(avps: seq<Avp>)
    requires |EncodeAvps(avps)| < 0x100_0000 - 8
    requires forall a | a in avps :: !Flagged(a.flags) && a.vendor == []
    ensures forall a | a in avps :: Plain(a)
  {
    if avps != [] {
      PaddingOfPayload(|avps[0].payload|);
      AllPlain(avps[1..]);
      assert avps == [avps[0]] + avps[1..];
    }
  }

  lemma HeaderWords(length: uint24, flags: byte, code: uint24, application: uint32, hop: uint32, end: uint32,
                    body: seq<byte>)
    ensures var p := HeaderOctets(length, flags, code, application, hop, end) + body;
            && p[0] == 1 && Uint24At(p, 1) == length && p[4] == flags && Uint24At(p, 5) == code
            && Uint32At(p, 8) == application && Uint32At(p, 12) == hop && Uint32At(p, 16) == end
            && p[20..] == body
  {
    var p := HeaderOctets(length, flags, code, application, hop, end) + body;
    assert p[1..4] == Octets24(length) && p[5..8] == Octets24(code);
    assert p[8..12] == Octets32(application) && p[12..16] == Octets32(hop) && p[16..20] == Octets32(end);
    Word32(p, 8, application);
    Word32(p, 12, hop);
    Word32(p, 16, end);
  }

  /**
    A message parses to its own header, its declared length is its octet count, a multiple of four, and its
    pairs come back.
   */
  lemma MessageRoundTrip(flags: byte, code: uint24, application: uint32, hop: uint32, end: uint32, avps: seq<Avp>)
    requires |Message(flags, code, application, hop, end, avps)| < 0x100_0000
    requires forall a | a in avps :: !Flagged(a.flags) && a.vendor == []
    ensures var m := Message(flags, code, application, hop, end, avps);
            && ParsedHeader(m) == Ok(Header(|m|, flags, code, application, hop, end))
            && |m| % 4 == 0
            && m[20..] == EncodeAvps(avps) && m[20..|m|] == EncodeAvps(avps)
            && Avps(m[20..]) == Ok(avps)
  {
    MessageIsAligned(flags, code, application, hop, end, avps);
    FramedBody(flags, code, application, hop, end, EncodeAvps(avps));
    AllPlain(avps);
    AvpsRoundTrip(avps);
  }

  lemma MessageIsAligned(flags: byte, code: uint24, application: uint32, hop: uint32, end: uint32, avps: seq<Avp>)
    ensures |Message(flags, code, application, hop, end, avps)| % 4 == 0
  {
    EncodedLengths(avps);
    AlignedSum(20, |EncodeAvps(avps)|);
    assert |Message(flags, code, application, hop, end, avps)| == 20 + |EncodeAvps(avps)|;
  }

  /** The header in front of a body, parsed. */
  lemma FramedBody(flags: byte, code: uint24, application: uint32, hop: uint32, end: uint32, body: seq<byte>)
    requires 20 + |body| < 0x100_0000
    ensures var m := Framed(flags, code, application, hop, end, body);
            && |m| == 20 + |body|
            && ParsedHeader(m) == Ok(Header(|m|, flags, code, application, hop, end))
            && m[20..] == body && m[20..|m|] == body
  {
    var n := 20 + |body|;
    HeaderWords(n, flags, code, application, hop, end, body);
    var m := HeaderOctets(n, flags, code, application, hop, end) + body;
    assert m[20..|m|] == m[20..];
  }

  // ----- requests -----

  /** What a request builder is given; builders ignore what their message does not carry. */
  datatype Content = Content(host: seq<byte>, realm: seq<byte>, user: seq<byte>, cause: uint32)

  function When(present: bool, a: Avp): seq<Avp> {
    if present then [a] else []
  }

  function RequestAvps(k: Kind, c: Content): seq<Avp> {
    [StringAvp(ORIGIN_HOST, c.host)]
    + When(ReadsRealm(k), StringAvp(ORIGIN_REALM, c.realm))
    + When(ReadsUser(k), StringAvp(USER_NAME, c.user))
    + When(k.Dpr?, Uint32Avp(DISCONNECT_CAUSE, c.cause))
    + When(k.Air? || k.Ulr?, Uint32Avp(AUTH_SESSION_STATE, 1))
  }

  predicate BaseProtocol(k: Kind) {
    k.Cer? || k.Dwr? || k.Dpr?
  }

  function Request(k: Kind, c: Content, hop: uint32, end: uint32): seq<byte> {
    Message(if BaseProtocol(k) then 0x80 else 0xC0, CommandCode(k), if BaseProtocol(k) then 0 else S6A_APPLICATION,
            hop, end, RequestAvps(k, c))
  }

  function Filled(lenient: bool, value: seq<byte>, given: Option<seq<byte>>): Option<seq<byte>> {
    if lenient && value == [] then given else Some(value)
  }

  /** What the parsers recover; for an empty string the lenient ones leave what was there. */
  function Recovered(k: Kind, c: Content, given: Fields): Fields {
    Fields(
      Filled(Lenient(k), c.host, given.host),
      if ReadsRealm(k) then Filled(Lenient(k), c.realm, given.realm) else None,
      if ReadsUser(k) then Filled(Lenient(k), c.user, given.user) else None,
      if k.Dpr? then Some(c.cause) else if Lenient(k) then given.cause else None)
  }

  lemma RequestAvpsArePlain(k: Kind, c: Content)
    ensures forall a | a in RequestAvps(k, c) :: !Flagged(a.flags) && a.vendor == []
  {
  }

  lemma {:induction false} TakeConcat(k: Kind, f: Fields, a: seq<Avp>, b: seq<Avp>)
    ensures TakeAll(k, f, a + b) == TakeAll(k, TakeAll(k, f, a), b)
    ensures LenientAll(f, a + b) == LenientAll(LenientAll(f, a), b)
    decreases |a|
  {
    if a == [] {
      assert a + b == b;
    } else {
      assert (a + b)[1..] == a[1..] + b;
      TakeConcat(k, Take(k, f, a[0].code, a[0].payload), a[1..], b);
      TakeConcat(k, LenientTake(f, a[0].code, Data(a[0])), a[1..], b);
    }
  }

  lemma TakeWhen(k: Kind, f: Fields, front: seq<Avp>, present: bool, a: Avp)
    ensures TakeAll(k, f, front + When(present, a))
         == if present then Take(k, TakeAll(k, f, front), a.code, a.payload) else TakeAll(k, f, front)
    ensures LenientAll(f, front + When(present, a))
         == if present then LenientTake(LenientAll(f, front), a.code, Data(a)) else LenientAll(f, front)
  {
    TakeConcat(k, f, front, When(present, a));
    assert [a][1..] == [];
  }

  /** The pairs of a request, taken one after the other. */
  lemma TakeRequest(k: Kind, f: Fields, c: Content)
    ensures var one := Take(k, f, ORIGIN_HOST, c.host);
            var two := if ReadsRealm(k) then Take(k, one, ORIGIN_REALM, c.realm) else one;
            var three := if ReadsUser(k) then Take(k, two, USER_NAME, c.user) else two;
            var four := if k.Dpr? then Take(k, three, DISCONNECT_CAUSE, Octets32(c.cause)) else three;
            TakeAll(k, f, RequestAvps(k, c))
            == if k.Air? || k.Ulr? then Take(k, four, AUTH_SESSION_STATE, Octets32(1)) else four
  {
    var a1 := [StringAvp(ORIGIN_HOST, c.host)];
    var a2 := a1 + When(ReadsRealm(k), StringAvp(ORIGIN_REALM, c.realm));
    var a3 := a2 + When(ReadsUser(k), StringAvp(USER_NAME, c.user));
    var a4 := a3 + When(k.Dpr?, Uint32Avp(DISCONNECT_CAUSE, c.cause));
    TakeWhen(k, f, [], true, a1[0]);
    assert [] + When(true, a1[0]) == a1;
    assert TakeAll(k, f, []) == f;
    TakeWhen(k, f, a1, ReadsRealm(k), StringAvp(ORIGIN_REALM, c.realm));
    TakeWhen(k, f, a2, ReadsUser(k), StringAvp(USER_NAME, c.user));
    TakeWhen(k, f, a3, k.Dpr?, Uint32Avp(DISCONNECT_CAUSE, c.cause));
    TakeWhen(k, f, a4, k.Air? || k.Ulr?, Uint32Avp(AUTH_SESSION_STATE, 1));
  }

  lemma StrictRecovers(k: Kind, c: Content, given: Fields)
    requires !Lenient(k)
    ensures TakeAll(k, NO_FIELDS, RequestAvps(k, c)) == Recovered(k, c, given)
  {
    TakeRequest(k, NO_FIELDS, c);
  }

  lemma LenientRecovers(k: Kind, c: Content, given: Fields)
    requires Lenient(k)
    ensures LenientAll(given, RequestAvps(k, c)) == Recovered(k, c, given)
  {
    var host, realm := StringAvp(ORIGIN_HOST, c.host), StringAvp(ORIGIN_REALM, c.realm);
    var user := StringAvp(USER_NAME, c.user);
    TakeWhen(k, given, [], true, host);
    TakeWhen(k, given, [host], true, realm);
    TakeWhen(k, given, [host] + [realm], true, user);
    assert LenientAll(given, []) == given && [] + [host] == [host];
    assert [] + c.host == c.host && [] + c.realm == c.realm && [] + c.user == c.user;
    assert RequestAvps(k, c) == [host] + [realm] + [user];
  }

  /**
    Every request parser recovers what its builder was given, and the declared length is the octet count,
    a multiple of four. The two lenient parsers lose exactly the empty strings: for one of those a reused
    request keeps the value of the message parsed into it before.
   */
  lemma RequestRoundTrip(k: Kind, c: Content, hop: uint32, end: uint32, given: Fields)
    requires |Request(k, c, hop, end)| < 0x100_0000
    ensures var m := Request(k, c, hop, end);
            && |m| % 4 == 0
            && ParsedRequest(k, m, given)
            == Ok((Header(|m|, if BaseProtocol(k) then 0x80 else 0xC0, CommandCode(k),
                          if BaseProtocol(k) then 0 else S6A_APPLICATION, hop, end), Recovered(k, c, given)))
  {
    RequestAvpsArePlain(k, c);
    var flags: byte := if BaseProtocol(k) then 0x80 else 0xC0;
    var application: uint32 := if BaseProtocol(k) then 0 else S6A_APPLICATION;
    MessageRoundTrip(flags, CommandCode(k), application, hop, end, RequestAvps(k, c));
    FieldsRecovered(k, c, EncodeAvps(RequestAvps(k, c)), given);
  }

  lemma FieldsRecovered(k: Kind, c: Content, body: seq<byte>, given: Fields)
    requires Avps(body) == Ok(RequestAvps(k, c))
    ensures if Lenient(k) then LenientFields(body, given) == Recovered(k, c, given)
            else StrictFields(k, body, NO_FIELDS) == Ok(Recovered(k, c, given))
  {
    if Lenient(k) {
      LenientRecovers(k, c, given);
      LenientVisitsAll(body, given);
    } else {
      StrictRecovers(k, c, given);
    }
  }

  // ----- answers -----

  function AnswerAvps(k: Kind, host: seq<byte>, realm: seq<byte>, result: uint32): seq<Avp> {
    [Uint32Avp(RESULT_CODE, result)] + [StringAvp(ORIGIN_HOST, host)]
    + When(ReadsRealm(k), StringAvp(ORIGIN_REALM, realm))
    + When(k.Air?, Uint32Avp(AUTH_SESSION_STATE, 1))
  }

  function AnswerFlags(h: Header): byte {
    if h.flags / 0x40 % 2 == 1 then 0x40 else 0
  }

  function Answer(k: Kind, h: Header, host: seq<byte>, realm: seq<byte>, result: uint32): seq<byte> {
    Message(AnswerFlags(h), CommandCode(k), if BaseProtocol(k) then h.applicationId else S6A_APPLICATION, h.hopByHopId,
            h.endToEndId, AnswerAvps(k, host, realm, result))
  }

  function AnswerHeader(k: Kind, h: Header, length: uint24): Header {
    Header(length, AnswerFlags(h), CommandCode(k), if BaseProtocol(k) then h.applicationId else S6A_APPLICATION,
           h.hopByHopId, h.endToEndId)
  }

  lemma AnswerFlagsKept(h: Header)
    ensures AnswerFlags(h) / 0x80 == 0 && (AnswerFlags(h) / 0x40 % 2 == 1 <==> h.flags / 0x40 % 2 == 1)
  {
  }

  /** An answer is no request, matches its request's identifiers and proxiable flag, and carries the result code. */
  lemma AnswerRoundTrip(k: Kind, h: Header, host: seq<byte>, realm: seq<byte>, result: uint32)
    requires |Answer(k, h, host, realm, result)| < 0x100_0000
    ensures var m := Answer(k, h, host, realm, result);
            && ParsedHeader(m) == Ok(AnswerHeader(k, h, |m|)) && !IsRequest(AnswerHeader(k, h, |m|))
            && (AnswerFlags(h) / 0x40 % 2 == 1 <==> h.flags / 0x40 % 2 == 1)
            && |m| % 4 == 0
            && Avps(m[20..]) == Ok(AnswerAvps(k, host, realm, result))
    ensures StrictValue(AnswerAvps(k, host, realm, result), RESULT_CODE) == Some(Octets32(result))
  {
    AnswerFlagsKept(h);
    ResultComesFirst(k, host, realm, result);
    var application := if BaseProtocol(k) then h.applicationId else S6A_APPLICATION;
    MessageRoundTrip(AnswerFlags(h), CommandCode(k), application, h.hopByHopId, h.endToEndId,
                     AnswerAvps(k, host, realm, result));
  }

  lemma ResultComesFirst(k: Kind, host: seq<byte>, realm: seq<byte>, result: uint32)
    ensures StrictValue(AnswerAvps(k, host, realm, result), RESULT_CODE) == Some(Octets32(result))
  {
    var avps := AnswerAvps(k, host, realm, result);
    assert forall a | a in avps[1..] :: a.code != RESULT_CODE;
    NoLaterResult(avps[1..]);
  }

  lemma {:induction false} NoLaterResult(avps: seq<Avp>)
    requires forall a | a in avps :: a.code != RESULT_CODE
    ensures LastOf(avps, RESULT_CODE) == None
  {
    if avps != [] {
      NoLaterResult(avps[1..]);
    }
  }

  // ----- the builders -----

  method AppendUint24Be(output: seq<byte>, value: uint24) returns (r: seq<byte>)
    ensures r == output + Octets24(value)
  {
    r := output + [value / 0x1_0000];
    r := r + [value / 0x100 % 0x100];
    r := r + [value % 0x100];
    Octets24Are(value);
  }

  method AppendUint32Be(output: seq<byte>, value: uint32) returns (r: seq<byte>)
    ensures r == output + Octets32(value)
  {
    r := output + [value / 0x100_0000];
    r := r + [value / 0x1_0000 % 0x100];
    r := r + [value / 0x100 % 0x100];
    r := r + [value % 0x100];
    Octets32Are(value);
  }

  /** `appendStringAvp`, and `appendUint32Avp` whose value needs no padding. */
  method AppendAvp(output: seq<byte>, a: Avp) returns (r: seq<byte>)
    ensures r == output + EncodeAvp(a)
  {
    r := AppendUint32Be(output, a.code);
    r := r + [a.flags];
    r := AppendUint24Be(r, (8 + |a.payload|) % 0x100_0000);
    r := r + a.payload;
    PaddingOfPayload(|a.payload|);
    r := r + Zeros(Padded(|a.payload|) - |a.payload|);
    assert r == output + EncodeAvp(a);
  }

  method StartMessage(flags: byte, code: uint24, application: uint32, hop: uint32, end: uint32) returns (r: seq<byte>)
    ensures r == HeaderOctets(0, flags, code, application, hop, end)
  {
    r := [1];
    r := AppendUint24Be(r, 0);
    r := r + [flags];
    r := AppendUint24Be(r, code);
    r := AppendUint32Be(r, application);
    r := AppendUint32Be(r, hop);
    r := AppendUint32Be(r, end);
  }

  /** The length is patched in once the message is complete. */
  method PatchLength(message: seq<byte>, ghost flags: byte, ghost code: uint24, ghost application: uint32,
                     ghost hop: uint32, ghost end: uint32, ghost avps: seq<Avp>)
    returns (r: seq<byte>)
    requires message == HeaderOctets(0, flags, code, application, hop, end) + EncodeAvps(avps)
    ensures r == Message(flags, code, application, hop, end, avps)
  {
    var totalLength := |message| % 0x100_0000;
    r := message[1 := totalLength / 0x1_0000];
    r := r[2 := totalLength / 0x100 % 0x100];
    r := r[3 := totalLength % 0x100];
    ghost var tail := [flags] + Octets24(code) + Octets32(application) + Octets32(hop) + Octets32(end);
    Octets24Are(0);
    Octets24Are(totalLength);
  }

  lemma {:induction false} EncodeSnoc(avps: seq<Avp>, a: Avp)
    ensures EncodeAvps(avps + [a]) == EncodeAvps(avps) + EncodeAvp(a)
    decreases |avps|
  {
    if avps == [] {
      assert avps + [a] == [a] && [a][1..] == [];
    } else {
      assert (avps + [a])[1..] == avps[1..] + [a];
      EncodeSnoc(avps[1..], a);
    }
  }

  method BuildRequest(k: Kind, c: Content, hop: uint32, end: uint32) returns (request: seq<byte>)
    ensures request == Request(k, c, hop, end)
  {
    var flags := if BaseProtocol(k) then 0x80 else 0xC0;
    var application: uint32 := if BaseProtocol(k) then 0 else S6A_APPLICATION;
    request := StartMessage(flags, CommandCode(k), application, hop, end);
    var body := RequestBody(k, c);
    request := PatchLength(request + body, flags, CommandCode(k), application, hop, end, RequestAvps(k, c));
  }

  /** The pairs, appended one after the other. */
  method RequestBody(k: Kind, c: Content) returns (body: seq<byte>)
    ensures body == EncodeAvps(RequestAvps(k, c))
  {
    var host, realm := StringAvp(ORIGIN_HOST, c.host), StringAvp(ORIGIN_REALM, c.realm);
    var user := StringAvp(USER_NAME, c.user);
    ghost var avps := [];
    body := AppendWhen(true, [], host, avps);
    avps := [host];
    body := AppendWhen(ReadsRealm(k), body, realm, avps);
    avps := avps + When(ReadsRealm(k), realm);
    body := AppendWhen(ReadsUser(k), body, user, avps);
    avps := avps + When(ReadsUser(k), user);
    body := AppendWhen(k.Dpr?, body, Uint32Avp(DISCONNECT_CAUSE, c.cause), avps);
    avps := avps + When(k.Dpr?, Uint32Avp(DISCONNECT_CAUSE, c.cause));
    body := AppendWhen(k.Air? || k.Ulr?, body, Uint32Avp(AUTH_SESSION_STATE, 1), avps);
  }

  /** The answer keeps the request's proxiable flag and identifiers; its length is patched in at the end. */
  method BuildAnswer(k: Kind, h: Header, host: seq<byte>, realm: seq<byte>, result: uint32) returns (answer: seq<byte>)
    ensures answer == Answer(k, h, host, realm, result)
  {
    var flags := if h.flags / 0x40 % 2 == 1 then 0x40 else 0;
    var application: uint32 := if BaseProtocol(k) then h.applicationId else S6A_APPLICATION;
    answer := StartMessage(flags, CommandCode(k), application, h.hopByHopId, h.endToEndId);
    var body := AnswerBody(k, host, realm, result);
    answer := PatchLength(answer + body, flags, CommandCode(k), application, h.hopByHopId, h.endToEndId,
                          AnswerAvps(k, host, realm, result));
  }

  method AnswerBody(k: Kind, host: seq<byte>, realm: seq<byte>, result: uint32) returns (body: seq<byte>)
    ensures body == EncodeAvps(AnswerAvps(k, host, realm, result))
  {
    var code, origin := Uint32Avp(RESULT_CODE, result), StringAvp(ORIGIN_HOST, host);
    ghost var avps := [];
    body := AppendWhen(true, [], code, avps);
    avps := [code];
    body := AppendWhen(true, body, origin, avps);
    avps := avps + [origin];
    body := AppendWhen(ReadsRealm(k), body, StringAvp(ORIGIN_REALM, realm), avps);
    avps := avps + When(ReadsRealm(k), StringAvp(ORIGIN_REALM, realm));
    body := AppendWhen(k.Air?, body, Uint32Avp(AUTH_SESSION_STATE, 1), avps);
  }

  method AppendWhen(present: bool, body: seq<byte>, a: Avp, ghost avps: seq<Avp>) returns (r: seq<byte>)
    requires body == EncodeAvps(avps) && a.flags == MANDATORY && a.vendor == []
    ensures r == EncodeAvps(avps + When(present, a))
  {
    r := body;
    if present {
      EncodeSnoc(avps, a);
      r := AppendAvp(r, a);
    } else {
      assert avps + [] == avps;
    }
  }
}
