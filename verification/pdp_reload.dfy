/** Which PDP contexts of the running table survive a restart. */
module PdpReload {
  import opened Bytes
  import opened RuntimeStates
  import opened GtpHeaders
  import opened GtpValues
  import opened GtpRequests
  import opened GtpFolds
  import opened Pdp
  import Routing
  import RoutingLoad
  import ConfigStores

  /** The clock never reads zero and every sender has an address. */
  predicate Attributed(run: seq<Datagram>) {
    forall i :: 0 <= i < |run| ==> run[i].now != 0 && run[i].peerIp != ""
  }

  predicate SoundPdp(teid: uint32, c: PdpContext) {
    c.teid == teid && teid != 0 && c.lastMessageType != 0 && c.peerIp != "" && c.updatedAt != 0
  }

  predicate SoundPdpStore(store: Store) {
    forall teid | teid in store :: SoundPdp(teid, store[teid])
  }

  /** What a successful load leaves: contexts under their own TEIDs that the validator admits. */
  predicate Admitted(start: Store) {
    forall teid | teid in start :: start[teid].teid == teid && ValidateLoadedPdpContext(start[teid]) == None
  }

  lemma AdmittedIsSound(start: Store)
    requires Admitted(start)
    ensures SoundPdpStore(start)
  {
  }

  lemma {:induction false} RunIsSound(start: Store, run: seq<Datagram>)
    requires SoundPdpStore(start) && Attributed(run)
    ensures SoundPdpStore(RunFrom(start, run))
  {
    if run != [] {
      RunIsSound(start, run[..|run| - 1]);
    }
  }

  /** The context names an IMSI and an APN, and its PDP type is not a present zero. */
  predicate Survives(c: PdpContext) {
    c.imsi != "" && c.apn != "" && !(c.hasPdpType && c.pdpType == 0)
  }

  const BOUNDARY: set<Option<PdpFault>> := {None, Some(NoPdpImsi), Some(NoApn), Some(ZeroPdpType)}

  lemma SoundIsBounded(teid: uint32, c: PdpContext)
    requires SoundPdp(teid, c)
    ensures (ValidateLoadedPdpContext(c) == None <==> Survives(c)) && ValidateLoadedPdpContext(c) in BOUNDARY
  {
  }

  /**
    A context reached by any run, from nothing or from any table the validator admitted, passes the load-time
    validator exactly when it meets these three conditions, and fails it for no other reason.
   */
  lemma PdpReloadBoundary(start: Store, run: seq<Datagram>, teid: uint32)
    requires Admitted(start) && Attributed(run) && teid in RunFrom(start, run)
    ensures var c := RunFrom(start, run)[teid];
            (ValidateLoadedPdpContext(c) == None <==> Survives(c)) && ValidateLoadedPdpContext(c) in BOUNDARY
  {
    AdmittedIsSound(start);
    RunIsSound(start, run);
    SoundIsBounded(teid, RunFrom(start, run)[teid]);
  }

  // ----- a request packet, for witnesses -----

  function RequestPacket(messageType: byte, teid: uint32, es: seq<Element>): seq<byte> {
    [0x30, messageType] + Octets16(|EncodeElements(es)| % 0x1_0000) + Octets32(teid) + EncodeElements(es)
  }

  lemma RequestPacketHeader(messageType: byte, teid: uint32, es: seq<Element>)
    requires |EncodeElements(es)| < 0x1_0000
    ensures var p := RequestPacket(messageType, teid, es);
            && |p| == 8 + |EncodeElements(es)| && p[8..] == EncodeElements(es)
            && ParsedHeader(p)
            == Ok(Header(0x30, false, false, false, messageType, |EncodeElements(es)|, teid, 0, 0, 0, 8, |p|))
  {
    var p, n := RequestPacket(messageType, teid, es), |EncodeElements(es)|;
    RequestWords(messageType, teid, es);
    Word16(p, 2, n);
    Word32(p, 4, teid);
    PlainHeader(p, messageType, n, teid);
  }

  lemma RequestWords(messageType: byte, teid: uint32, es: seq<Element>)
    requires |EncodeElements(es)| < 0x1_0000
    ensures var p := RequestPacket(messageType, teid, es);
            && |p| == 8 + |EncodeElements(es)| && p[8..] == EncodeElements(es)
            && p[0] == 0x30 && p[1] == messageType
            && p[2..4] == Octets16(|EncodeElements(es)|) && p[4..8] == Octets32(teid)
  {
  }

  lemma PlainHeader(p: seq<byte>, messageType: byte, n: uint16, teid: uint32)
    requires |p| == 8 + n && p[0] == 0x30 && p[1] == messageType && Uint16At(p, 2) == n && Uint32At(p, 4) == teid
    ensures ParsedHeader(p) == Ok(Header(0x30, false, false, false, messageType, n, teid, 0, 0, 0, 8, |p|))
  {
  }

  /** A built request parses to what folding its elements supplies. */
  lemma RequestRoundTrip(messageType: byte, teid: uint32, es: seq<Element>)
    requires (forall e | e in es :: Encodable(e)) && |EncodeElements(es)| < 0x1_0000
    ensures var p := RequestPacket(messageType, teid, es);
            && ParsedHeader(p).Ok?
            && ParsedHeader(p).value.messageType == messageType && ParsedHeader(p).value.teid == teid
            && ParsedRequest(p, ParsedHeader(p).value, messageType)
            == match Fold(es, NOTHING)
               case Err(e) => Err(e)
               case Ok(r) => if HasSupported(r) then Ok(r) else Err(NothingSupported)
  {
    RequestPacketHeader(messageType, teid, es);
    WalkIsFold(es, NOTHING);
    var p := RequestPacket(messageType, teid, es);
    assert Remaining(p, 8, |p|) == EncodeElements(es);
  }

  // ----- witnesses -----

  function CreateOf(teid: uint32, es: seq<Element>, peerIp: string, choose: Chooser): Datagram {
    Datagram(RequestPacket(CREATE_REQUEST, teid, es), peerIp, 1, true, choose)
  }

  /** What a Create with these request fields stores. */
  function Created(teid: uint32, r: Request, peerIp: string, choose: Chooser): PdpContext {
    PdpContext(teid, 0, r.pdpType, r.hasPdpType, CREATE_REQUEST, peerIp, r.ggsnIp, r.imsi, choose(r.imsi, r.apn), 1)
  }

  lemma CreateStores(store: Store, teid: uint32, es: seq<Element>, r: Request, peerIp: string, choose: Chooser)
    requires teid != 0 && (forall e | e in es :: Encodable(e)) && |EncodeElements(es)| < 0x1_0000
    requires Fold(es, NOTHING) == Ok(r) && HasSupported(r)
    ensures Apply(store, CreateOf(teid, es, peerIp, choose)) == store[teid := Created(teid, r, peerIp, choose)]
  {
    var packet := RequestPacket(CREATE_REQUEST, teid, es);
    RequestPacketHeader(CREATE_REQUEST, teid, es);
    RequestRoundTrip(CREATE_REQUEST, teid, es);
    assert OpOf(packet) == CreateOp(ParsedHeader(packet).value, r);
  }

  lemma RunOfOne(d: Datagram)
    ensures RunStore([d]) == Apply(map[], d)
  {
    var run := [d];
    assert run[..|run| - 1] == [] && run[|run| - 1] == d;
    assert RunFrom(map[], run) == Apply(RunFrom(map[], []), d);
  }

  lemma OneElement(e: Element)
    ensures EncodeElements([e]) == EncodeElement(e)
  {
    assert [e][1..] == [];
  }

  lemma OneCreate(teid: uint32, e: Element, r: Request, peerIp: string, choose: Chooser)
    requires teid != 0 && Encodable(e) && |EncodeElement(e)| < 0x1_0000
    requires Absorb(NOTHING, e) == Ok(r) && HasSupported(r)
    ensures RunStore([CreateOf(teid, [e], peerIp, choose)]) == map[teid := Created(teid, r, peerIp, choose)]
  {
    OneElement(e);
    assert [e][1..] == [];
    assert Fold([e], NOTHING) == Ok(r);
    CreateStores(map[], teid, [e], r, peerIp, choose);
    RunOfOne(CreateOf(teid, [e], peerIp, choose));
    var c := Created(teid, r, peerIp, choose);
    assert map[][teid := c] == map[teid := c];
  }

  const PDP_TYPE_ONLY: Element := Tlv(IE_PDP_TYPE, [0xF1, 0x21])

  /** A Create that names only a PDP type is accepted, stored without an IMSI, and refused at load. */
  lemma NamelessCreateReached(teid: uint32, peerIp: string, choose: Chooser)
    requires teid != 0 && peerIp != ""
    ensures var run := [CreateOf(teid, [PDP_TYPE_ONLY], peerIp, choose)];
            && Attributed(run) && teid in RunStore(run)
            && ValidateLoadedPdpContext(RunStore(run)[teid]) == Some(NoPdpImsi)
  {
    OneCreate(teid, PDP_TYPE_ONLY, NOTHING.(pdpType := 0x21, hasPdpType := true), peerIp, choose);
  }

  /** A Create without an APN, for an IMSI that routing gives none, is stored without one and refused at load. */
  lemma ApnlessCreateReached(teid: uint32, peerIp: string, tbcd: seq<byte>, choose: Chooser)
    requires teid != 0 && peerIp != "" && |tbcd| == 8 && TbcdText(tbcd) != ""
    requires choose(TbcdText(tbcd), "") == ""
    ensures var run := [CreateOf(teid, [Imsi(tbcd)], peerIp, choose)];
            && Attributed(run) && teid in RunStore(run)
            && ValidateLoadedPdpContext(RunStore(run)[teid]) == Some(NoApn)
  {
    OneCreate(teid, Imsi(tbcd), NOTHING.(imsi := TbcdText(tbcd), hasImsi := true), peerIp, choose);
  }

  /** The default configuration gives no IMSI an APN, so under it every such Create is refused at load. */
  lemma DefaultsGiveNoApn(teid: uint32, peerIp: string, tbcd: seq<byte>)
    requires teid != 0 && peerIp != "" && |tbcd| == 8 && TbcdText(tbcd) != ""
    ensures RoutingLoad.IsLoaded(ConfigStores.DEFAULTS, [])
    ensures var run := [CreateOf(teid, [Imsi(tbcd)], peerIp, ConfiguredChooser(ConfigStores.DEFAULTS, []))];
            teid in RunStore(run) && ValidateLoadedPdpContext(RunStore(run)[teid]) == Some(NoApn)
  {
    DefaultsHaveNoGroups();
    RoutingLoad.NothingLoaded(ConfigStores.DEFAULTS);
    ApnlessCreateReached(teid, peerIp, tbcd, ConfiguredChooser(ConfigStores.DEFAULTS, []));
  }

  lemma DefaultsHaveNoGroups()
    ensures forall key | key in ConfigStores.DEFAULTS :: RoutingLoad.KeyParts(key).None?
    ensures Routing.DefaultApn(ConfigStores.DEFAULTS) == ""
  {
  }

  function ZeroType(tbcd: seq<byte>): seq<Element> {
    [Imsi(tbcd), Tlv(IE_PDP_TYPE, [0xF1, 0x00])]
  }

  lemma ZeroTypeFolds(tbcd: seq<byte>)
    requires |tbcd| == 8 && TbcdText(tbcd) != ""
    ensures Fold(ZeroType(tbcd), NOTHING)
         == Ok(NOTHING.(imsi := TbcdText(tbcd), hasImsi := true, pdpType := 0, hasPdpType := true))
    ensures |EncodeElements(ZeroType(tbcd))| < 0x1_0000
  {
    var first, last: Element := Imsi(tbcd), Tlv(IE_PDP_TYPE, [0xF1, 0x00]);
    var named := NOTHING.(imsi := TbcdText(tbcd), hasImsi := true);
    OneElement(last);
    assert [first, last][1..] == [last] && [last][1..] == [];
    assert EncodeElements([first, last]) == EncodeElement(first) + EncodeElements([last]);
    assert Fold([last], named) == Ok(named.(pdpType := 0, hasPdpType := true));
  }

  /** So is a Create with PDP type zero, though it names its IMSI and is given an APN. */
  lemma ZeroPdpTypeReached(teid: uint32, peerIp: string, tbcd: seq<byte>, choose: Chooser)
    requires teid != 0 && peerIp != "" && |tbcd| == 8 && TbcdText(tbcd) != ""
    requires choose(TbcdText(tbcd), "") != ""
    ensures var run := [CreateOf(teid, ZeroType(tbcd), peerIp, choose)];
            && Attributed(run) && teid in RunStore(run)
            && ValidateLoadedPdpContext(RunStore(run)[teid]) == Some(ZeroPdpType)
  {
    ZeroTypeFolds(tbcd);
    var r := NOTHING.(imsi := TbcdText(tbcd), hasImsi := true, pdpType := 0, hasPdpType := true);
    CreateStores(map[], teid, ZeroType(tbcd), r, peerIp, choose);
    RunOfOne(CreateOf(teid, ZeroType(tbcd), peerIp, choose));
  }
}
