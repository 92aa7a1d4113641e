/** The strict and the lenient attribute-value pair loops read the same message: when they agree, exactly. */
module DiameterWalks {
  import opened Bytes
  import opened Diameter

  function LenientAll(f: Fields, avps: seq<Avp>): Fields
    decreases |avps|
  {
    if avps == [] then f else LenientAll(LenientTake(f, avps[0].code, Data(avps[0])), avps[1..])
  }

  /** Both loops step over a well-formed pair in the same way. */
  lemma SameStep(body: seq<byte>)
    requires body != [] && NextAvp(body).Ok?
    ensures var (a, n) := NextAvp(body).value;
            NextData(body) == Some((a.code, Data(a), n))
  {
    var (a, _) := NextAvp(body).value;
    var n: nat := Uint24At(body, 5);
    var head := if Flagged(body[4]) then 12 else 8;
    assert body[8..n] == body[8..head] + body[head..n];
  }

  lemma {:induction false} LenientVisitsAll(body: seq<byte>, f: Fields)
    requires Avps(body).Ok?
    ensures LenientFields(body, f) == LenientAll(f, Avps(body).value)
    decreases |body|
  {
    if body != [] {
      SameStep(body);
      var (a, n) := NextAvp(body).value;
      var rest := Avps(body[n..]).value;
      LenientVisitsAll(body[n..], LenientTake(f, a.code, Data(a)));
      assert ([a] + rest)[1..] == rest;
    }
  }

  // ----- the pair that supplies a value -----

  function LastOf(avps: seq<Avp>, code: uint32): Option<Avp> {
    if avps == [] then None
    else if LastOf(avps[1..], code).Some? then LastOf(avps[1..], code)
    else if avps[0].code == code then Some(avps[0])
    else None
  }

  function LastWithData(avps: seq<Avp>, code: uint32): Option<Avp> {
    if avps == [] then None
    else if LastWithData(avps[1..], code).Some? then LastWithData(avps[1..], code)
    else if avps[0].code == code && Data(avps[0]) != [] then Some(avps[0])
    else None
  }

  function StrictValue(avps: seq<Avp>, code: uint32): Option<seq<byte>> {
    match LastOf(avps, code) case None => None case Some(a) => Some(a.payload)
  }

  function LenientValue(avps: seq<Avp>, code: uint32): Option<seq<byte>> {
    match LastWithData(avps, code) case None => None case Some(a) => Some(Data(a))
  }

  function Or<T>(a: Option<T>, b: Option<T>): Option<T> {
    if a.Some? then a else b
  }

  /** The last payload of four octets that a code has. */
  function LastWord(avps: seq<Avp>, code: uint32): Option<uint32> {
    if avps == [] then None
    else if LastWord(avps[1..], code).Some? then LastWord(avps[1..], code)
    else if avps[0].code == code && |avps[0].payload| == 4 then Some(Uint32At(avps[0].payload, 0))
    else None
  }

  /**
    The strict loop keeps the last value of each code it reads: 264 always, 296 unless for a watchdog or disconnect
    request, 1 unless also for a capabilities exchange, and a four-octet 273 for a disconnect request.
   */
  lemma {:induction false} StrictKeepsLast(k: Kind, f: Fields, avps: seq<Avp>)
    ensures var r := TakeAll(k, f, avps);
            && r.host == Or(StrictValue(avps, 264), f.host)
            && r.realm == (if k.Dwr? || k.Dpr? then f.realm else Or(StrictValue(avps, 296), f.realm))
            && r.user == (if k.Cer? || k.Dwr? || k.Dpr? then f.user else Or(StrictValue(avps, 1), f.user))
            && r.cause == (if k.Dpr? then Or(LastWord(avps, 273), f.cause) else f.cause)
    decreases |avps|
  {
    if avps != [] {
      StrictKeepsLast(k, Take(k, f, avps[0].code, avps[0].payload), avps[1..]);
    }
  }

  /** The lenient loop keeps the last data of each of the codes 264, 296 and 1 that has any. */
  lemma {:induction false} LenientKeepsLast(f: Fields, avps: seq<Avp>)
    ensures var r := LenientAll(f, avps);
            && r.host == Or(LenientValue(avps, 264), f.host)
            && r.realm == Or(LenientValue(avps, 296), f.realm)
            && r.user == Or(LenientValue(avps, 1), f.user)
            && r.cause == f.cause
    decreases |avps|
  {
    if avps != [] {
      LenientKeepsLast(LenientTake(f, avps[0].code, Data(avps[0])), avps[1..]);
    }
  }

  /** The last pair of a code, if any, has a payload and no vendor identifier. */
  predicate LastIsPlain(avps: seq<Avp>, code: uint32) {
    match LastOf(avps, code)
    case None => true
    case Some(a) => a.vendor == [] && a.payload != []
  }

  lemma {:induction false} LastWithDataIsLast(avps: seq<Avp>, code: uint32)
    ensures LastOf(avps, code).None? ==> LastWithData(avps, code).None?
    ensures LastOf(avps, code).Some? && Data(LastOf(avps, code).value) != [] ==>
              LastWithData(avps, code) == LastOf(avps, code)
    ensures LastWithData(avps, code).Some? ==> Data(LastWithData(avps, code).value) != []
  {
    if avps != [] {
      LastWithDataIsLast(avps[1..], code);
    }
  }

  lemma SameValue(avps: seq<Avp>, code: uint32)
    ensures StrictValue(avps, code) == LenientValue(avps, code) <==> LastIsPlain(avps, code)
  {
    LastWithDataIsLast(avps, code);
    if LastOf(avps, code).Some? {
      var a := LastOf(avps, code).value;
      assert a.vendor == [] ==> Data(a) == a.payload;
      assert |Data(a)| == |a.vendor| + |a.payload|;
    }
  }

  /**
    On a packet of exactly its declared length whose pairs are well formed, the two loops extract the same
    host, realm and user name if and only if the last pair of each of the three codes, where there is one,
    is not empty and carries no vendor identifier.
   */
  lemma WalkersAgree(packet: seq<byte>, k: Kind)
    requires ParsedHeader(packet).Ok? && ParsedHeader(packet).value.messageLength == |packet|
    requires ReadsUser(k) && Avps(packet[20..]).Ok?
    ensures var avps := Avps(packet[20..]).value;
            StrictFields(k, packet[20..], NO_FIELDS) == Ok(LenientFields(packet[20..], NO_FIELDS))
            <==> LastIsPlain(avps, 264) && LastIsPlain(avps, 296) && LastIsPlain(avps, 1)
  {
    var avps := Avps(packet[20..]).value;
    LenientVisitsAll(packet[20..], NO_FIELDS);
    StrictKeepsLast(k, NO_FIELDS, avps);
    LenientKeepsLast(NO_FIELDS, avps);
    SameValue(avps, 264);
    SameValue(avps, 296);
    SameValue(avps, 1);
  }

  /** In particular the loops agree on any message without vendor flags and without empty pairs of the three codes. */
  lemma PlainMessagesAgree(packet: seq<byte>, k: Kind)
    requires ParsedHeader(packet).Ok? && ParsedHeader(packet).value.messageLength == |packet|
    requires ReadsUser(k) && Avps(packet[20..]).Ok?
    requires forall a | a in Avps(packet[20..]).value :: a.vendor == [] && a.payload != []
    ensures StrictFields(k, packet[20..], NO_FIELDS) == Ok(LenientFields(packet[20..], NO_FIELDS))
  {
    var avps := Avps(packet[20..]).value;
    LastIsMember(avps, 264);
    LastIsMember(avps, 296);
    LastIsMember(avps, 1);
    WalkersAgree(packet, k);
  }

  lemma {:induction false} LastIsMember(avps: seq<Avp>, code: uint32)
    ensures LastOf(avps, code).Some? ==> LastOf(avps, code).value in avps
  {
    if avps != [] {
      LastIsMember(avps[1..], code);
    }
  }
}
