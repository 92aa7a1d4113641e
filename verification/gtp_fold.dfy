/** The element walker as a fold: which bodies it accepts, and which element supplies each field. */
module GtpFolds {
  import opened Bytes
  import opened GtpHeaders
  import opened GtpValues
  import opened GtpRequests

  // ----- bodies that tile -----

  function EncodeElement(e: Element): (o: seq<byte>)
    ensures o != []
  {
    match e
    case Imsi(tbcd) => [0x02] + tbcd
    case Tlv(t, v) => [t] + Octets16(|v| % 0x1_0000) + v
  }

  function EncodeElements(es: seq<Element>): seq<byte> {
    if es == [] then [] else EncodeElement(es[0]) + EncodeElements(es[1..])
  }

  ghost predicate Tiles(body: seq<byte>, es: seq<Element>) {
    (forall e | e in es :: Encodable(e)) && body == EncodeElements(es)
  }

  lemma NextOfElement(e: Element, rest: seq<byte>)
    requires Encodable(e)
    ensures Next(EncodeElement(e) + rest) == Ok((e, |EncodeElement(e)|))
    ensures (EncodeElement(e) + rest)[|EncodeElement(e)|..] == rest
  {
    var body := EncodeElement(e) + rest;
    match e {
      case Imsi(tbcd) =>
        assert body[1..9] == tbcd;
      case Tlv(t, v) =>
        assert body[1] == Octets16(|v|)[0] && body[2] == Octets16(|v|)[1];
        assert Uint16At(body, 1) == |v|;
        assert body[3..3 + |v|] == v;
        assert Next(body) == Ok((Tlv(body[0], body[3..3 + |v|]), 3 + |v|));
    }
  }

  lemma ElementOfNext(body: seq<byte>)
    requires body != [] && Next(body).Ok?
    ensures var (e, n) := Next(body).value; body == EncodeElement(e) + body[n..]
  {
    var (e, n) := Next(body).value;
    match e {
      case Imsi(tbcd) =>
        assert body == [body[0]] + body[1..9] + body[9..];
      case Tlv(t, v) =>
        assert |v| == Uint16At(body, 1);
        assert Octets16(|v|) == [body[1], body[2]];
        assert body == [body[0]] + [body[1], body[2]] + body[3..n] + body[n..];
    }
  }

  /** The elements folded over a request, front to back. */
  function Fold(es: seq<Element>, r: Request): Result<Request, RequestError> {
    if es == [] then Ok(r)
    else
      match Absorb(r, es[0])
      case Err(e) => Err(e)
      case Ok(r') => Fold(es[1..], r')
  }

  /** The walker folds the elements of whatever tiling the body has. */
  lemma {:induction false} WalkIsFold(es: seq<Element>, r: Request)
    requires forall e | e in es :: Encodable(e)
    ensures Walk(EncodeElements(es), r) == Fold(es, r)
    decreases |es|
  {
    if es != [] {
      var rest := EncodeElements(es[1..]);
      NextOfElement(es[0], rest);
      assert EncodeElements(es) == EncodeElement(es[0]) + rest;
      match Absorb(r, es[0]) {
        case Err(_) =>
        case Ok(r') => WalkIsFold(es[1..], r');
      }
    }
  }

  lemma {:induction false} TilingOfWalk(body: seq<byte>, r: Request) returns (es: seq<Element>)
    requires Walk(body, r).Ok?
    ensures Tiles(body, es)
    decreases |body|
  {
    if body == [] {
      es := [];
    } else {
      var (e, n) := Next(body).value;
      var rest := TilingOfWalk(body[n..], Absorb(r, e).value);
      es := [e] + rest;
      ElementOfNext(body);
      assert es[1..] == rest;
    }
  }

  lemma SameFirst(a: Element, x: seq<byte>, b: Element, y: seq<byte>)
    requires Encodable(a) && Encodable(b) && EncodeElement(a) + x == EncodeElement(b) + y
    ensures a == b && x == y
  {
    NextOfElement(a, x);
    NextOfElement(b, y);
  }

  /** A body has at most one tiling. */
  lemma {:induction false} TilingIsUnique(a: seq<Element>, b: seq<Element>)
    requires (forall e | e in a :: Encodable(e)) && (forall e | e in b :: Encodable(e))
    requires EncodeElements(a) == EncodeElements(b)
    ensures a == b
    decreases |a|
  {
    if a != [] && b != [] {
      SameFirst(a[0], EncodeElements(a[1..]), b[0], EncodeElements(b[1..]));
      TilingIsUnique(a[1..], b[1..]);
      assert a == [a[0]] + a[1..] && b == [b[0]] + b[1..];
    }
  }

  // ----- which element supplies a field -----

  predicate IsImsi(e: Element) {
    e.Imsi?
  }

  predicate IsApn(e: Element) {
    e.Tlv? && e.ieType == 0x83
  }

  predicate IsPdpType(e: Element) {
    e.Tlv? && e.ieType == 0x80 && |e.value| >= 2
  }

  predicate IsAddress(e: Element) {
    e.Tlv? && e.ieType == 0x85 && |e.value| == 4
  }

  function LastThat(es: seq<Element>, p: Element -> bool): (r: Option<Element>)
    ensures r.Some? ==> p(r.value) && r.value in es
  {
    if es == [] then None
    else if p(es[|es| - 1]) then Some(es[|es| - 1])
    else LastThat(es[..|es| - 1], p)
  }

  function FirstThat(es: seq<Element>, p: Element -> bool): (r: Option<Element>)
    ensures r.Some? ==> p(r.value) && r.value in es
  {
    if es == [] then None
    else
      match FirstThat(es[..|es| - 1], p)
      case Some(e) => Some(e)
      case None => if p(es[|es| - 1]) then Some(es[|es| - 1]) else None
  }

  predicate ApnFits(e: Element) {
    IsApn(e) ==> ApnText(e.value).Some?
  }

  ghost predicate SuppliedImsi(es: seq<Element>, r: Request) {
    match LastThat(es, IsImsi)
    case None => r.imsi == "" && !r.hasImsi
    case Some(e) => r.imsi == TbcdText(e.tbcd) && r.hasImsi == (r.imsi != "")
  }

  ghost predicate SuppliedApn(es: seq<Element>, r: Request) {
    match LastThat(es, IsApn)
    case None => r.apn == "" && !r.hasApn
    case Some(e) => Some(r.apn) == ApnText(e.value) && r.hasApn == (r.apn != "")
  }

  ghost predicate SuppliedAddress(es: seq<Element>, r: Request) {
    && (match LastThat(es, IsPdpType)
        case None => r.pdpType == 0 && !r.hasPdpType
        case Some(e) => r.pdpType == e.value[1] && r.hasPdpType)
    && (match FirstThat(es, IsAddress)
        case None => r.ggsnIp == "" && !r.hasGgsnIp
        case Some(e) => r.ggsnIp == Ipv4Text(e.value) && WritesOctets(r.ggsnIp, e.value) && r.hasGgsnIp)
  }

  /** Last IMSI, last APN, last PDP type and first address; anything else is ignored. */
  ghost predicate Supplied(es: seq<Element>, r: Request) {
    SuppliedImsi(es, r) && SuppliedApn(es, r) && SuppliedAddress(es, r)
  }

  lemma {:induction false} FoldSnoc(es: seq<Element>, e: Element, r: Request)
    ensures Fold(es + [e], r)
         == match Fold(es, r) case Err(x) => Err(x) case Ok(m) => Absorb(m, e)
    decreases |es|
  {
    if es == [] {
      assert es + [e] == [e] && [e][1..] == [];
    } else {
      assert (es + [e])[0] == es[0] && (es + [e])[1..] == es[1..] + [e];
      match Absorb(r, es[0]) {
        case Err(_) =>
        case Ok(r') => FoldSnoc(es[1..], e, r');
      }
    }
  }

  lemma ThatSnoc(es: seq<Element>, e: Element, p: Element -> bool)
    ensures LastThat(es + [e], p) == if p(e) then Some(e) else LastThat(es, p)
    ensures FirstThat(es + [e], p)
         == if FirstThat(es, p).Some? then FirstThat(es, p) else if p(e) then Some(e) else None
  {
    var all := es + [e];
    assert all[..|all| - 1] == es && all[|all| - 1] == e;
  }

  /** What one element does to the IMSI. */
  lemma AbsorbedImsi(e: Element, before: Request, after: Request)
    requires Absorb(before, e) == Ok(after)
    ensures after.imsi == if IsImsi(e) then TbcdText(e.tbcd) else before.imsi
    ensures after.hasImsi == if IsImsi(e) then after.imsi != "" else before.hasImsi
  {
  }

  lemma ImsiStep(es: seq<Element>, e: Element, before: Request, after: Request)
    requires SuppliedImsi(es, before)
    requires after.imsi == if IsImsi(e) then TbcdText(e.tbcd) else before.imsi
    requires after.hasImsi == if IsImsi(e) then after.imsi != "" else before.hasImsi
    ensures SuppliedImsi(es + [e], after)
  {
    ThatSnoc(es, e, IsImsi);
  }

  lemma ApnStep(es: seq<Element>, e: Element, before: Request, after: Request)
    requires SuppliedApn(es, before) && Absorb(before, e) == Ok(after)
    ensures SuppliedApn(es + [e], after)
  {
    ThatSnoc(es, e, IsApn);
  }

  lemma AddressStep(es: seq<Element>, e: Element, before: Request, after: Request)
    requires SuppliedAddress(es, before) && Absorb(before, e) == Ok(after)
    ensures SuppliedAddress(es + [e], after)
  {
    ThatSnoc(es, e, IsPdpType);
    ThatSnoc(es, e, IsAddress);
    AddressDenotes(e);
  }

  lemma SuppliedStep(es: seq<Element>, e: Element, before: Request, after: Request)
    requires Supplied(es, before) && Absorb(before, e) == Ok(after)
    ensures Supplied(es + [e], after)
  {
    AbsorbedImsi(e, before, after);
    ImsiStep(es, e, before, after);
    ApnStep(es, e, before, after);
    AddressStep(es, e, before, after);
  }

  lemma AddressDenotes(e: Element)
    ensures IsAddress(e) ==> WritesOctets(Ipv4Text(e.value), e.value)
  {
    if IsAddress(e) {
      Ipv4Denotes(e.value);
    }
  }

  ghost predicate AllFit(es: seq<Element>) {
    forall e | e in es :: ApnFits(e)
  }

  lemma AllFitSnoc(es: seq<Element>, e: Element)
    ensures AllFit(es + [e]) <==> AllFit(es) && ApnFits(e)
  {
    assert e in es + [e];
    assert forall x | x in es :: x in es + [e];
  }

  /** The fold succeeds exactly when every APN fits, and then each field holds what is supplied. */
  lemma {:induction false} FoldSupplies(es: seq<Element>)
    ensures Fold(es, NOTHING).Ok? <==> AllFit(es)
    ensures Fold(es, NOTHING).Ok? ==> Supplied(es, Fold(es, NOTHING).value)
    decreases |es|
  {
    if es != [] {
      var init, e := es[..|es| - 1], es[|es| - 1];
      assert es == init + [e];
      FoldSupplies(init);
      FoldSnoc(init, e, NOTHING);
      AllFitSnoc(init, e);
      if Fold(es, NOTHING).Ok? {
        SuppliedStep(init, e, Fold(init, NOTHING).value, Fold(es, NOTHING).value);
      }
    }
  }

  /** Some element supplies a field with something in it. */
  ghost predicate SuppliesSomething(es: seq<Element>) {
    || (LastThat(es, IsImsi).Some? && TbcdText(LastThat(es, IsImsi).value.tbcd) != "")
    || (LastThat(es, IsApn).Some? && ApnText(LastThat(es, IsApn).value.value) != Some(""))
    || LastThat(es, IsPdpType).Some?
    || FirstThat(es, IsAddress).Some?
  }

  /**
    With a header parsed from the same packet and the expected type, parsing succeeds exactly when the
    body tiles into elements whose access point names fit and that supply something.
   */
  lemma RequestAcceptance(packet: seq<byte>, expected: byte)
    requires ParsedHeader(packet).Ok? && ParsedHeader(packet).value.messageType == expected
    ensures var h := ParsedHeader(packet).value;
            ParsedRequest(packet, h, expected).Ok? <==>
            exists es :: Tiles(packet[h.headerLength..h.totalLength], es) && AllFit(es)
                         && SuppliesSomething(es)
  {
    var h := ParsedHeader(packet).value;
    AcceptedHeader(packet);
    var body := packet[h.headerLength..h.totalLength];
    assert body == Remaining(packet, h.headerLength, h.totalLength);
    if Walk(body, NOTHING).Ok? {
      var es := TilingOfWalk(body, NOTHING);
      TiledRequest(body, es);
    }
    forall es | Tiles(body, es) && AllFit(es) && SuppliesSomething(es)
      ensures ParsedRequest(packet, h, expected).Ok?
    {
      TiledRequest(body, es);
    }
  }

  lemma TiledRequest(body: seq<byte>, es: seq<Element>)
    requires Tiles(body, es)
    ensures Walk(body, NOTHING).Ok? <==> AllFit(es)
    ensures Walk(body, NOTHING).Ok? ==> (HasSupported(Walk(body, NOTHING).value) <==> SuppliesSomething(es))
    ensures Walk(body, NOTHING).Ok? ==> Supplied(es, Walk(body, NOTHING).value)
  {
    WalkIsFold(es, NOTHING);
    FoldSupplies(es);
  }

  /** Every accepted request holds, field by field, what the elements of its body supply. */
  lemma RequestValues(packet: seq<byte>, expected: byte, es: seq<Element>)
    requires ParsedHeader(packet).Ok?
    requires var h := ParsedHeader(packet).value;
             ParsedRequest(packet, h, expected).Ok?
             && h.headerLength <= h.totalLength <= |packet|
             && Tiles(packet[h.headerLength..h.totalLength], es)
    ensures Supplied(es, ParsedRequest(packet, ParsedHeader(packet).value, expected).value)
  {
    var h := ParsedHeader(packet).value;
    var body := packet[h.headerLength..h.totalLength];
    assert body == Remaining(packet, h.headerLength, h.totalLength);
    TiledRequest(body, es);
  }
}
