/** The texts a PDP context can hold: digits, addresses, and an access point name of printable characters. */
module PdpTexts {
  import opened Bytes
  import opened Texts
  import opened JsonText
  import opened RuntimeStates
  import opened GtpValues
  import opened GtpRequests
  import opened Pdp
  import Routing
  import RoutingLoad

  // ----- what a parsed request holds -----

  /** Digits and dots, as `inet_ntop` and the address decoder write. */
  predicate AddressText(s: string) {
    forall i :: 0 <= i < |s| ==> IsDigit(s[i]) || s[i] == '.'
  }

  predicate PlainRequest(r: Request) {
    AllDigits(r.imsi) && PrintableText(r.apn) && AddressText(r.ggsnIp)
  }

  lemma {:induction false} TbcdIsDigits(data: seq<byte>)
    ensures AllDigits(TbcdText(data))
  {
    if data != [] {
      TbcdIsDigits(data[1..]);
    }
  }

  lemma {:induction false} ApnIsPrintable(data: seq<byte>, apn: string)
    requires PrintableText(apn)
    ensures ApnFrom(data, apn).Some? ==> PrintableText(ApnFrom(data, apn).value)
    decreases |data|
  {
    if data != [] && data[0] != 0 && 1 + data[0] <= |data| {
      ApnIsPrintable(data[1 + data[0]..], Dotted(apn, data[1..1 + data[0]]));
    }
  }

  lemma Ipv4IsAddress(data: seq<byte>)
    ensures AddressText(Ipv4Text(data))
  {
    if |data| == 4 {
      DecimalIsAddress(data[0]);
      DecimalIsAddress(data[1]);
      DecimalIsAddress(data[2]);
      DecimalIsAddress(data[3]);
    }
  }

  lemma DecimalIsAddress(n: nat)
    ensures AddressText(Decimal(n))
  {
    assert AllDigits(Decimal(n));
  }

  lemma AbsorbKeepsPlain(r: Request, e: Element)
    requires PlainRequest(r)
    ensures Absorb(r, e).Ok? ==> PlainRequest(Absorb(r, e).value)
  {
    match e {
      case Imsi(tbcd) => TbcdIsDigits(tbcd);
      case Tlv(_, v) =>
        ApnIsPrintable(v, "");
        Ipv4IsAddress(v);
    }
  }

  lemma {:induction false} WalkKeepsPlain(body: seq<byte>, r: Request)
    requires PlainRequest(r)
    ensures Walk(body, r).Ok? ==> PlainRequest(Walk(body, r).value)
    decreases |body|
  {
    if body != [] && Next(body).Ok? {
      var (e, n) := Next(body).value;
      AbsorbKeepsPlain(r, e);
      if Absorb(r, e).Ok? {
        WalkKeepsPlain(body[n..], Absorb(r, e).value);
      }
    }
  }

  /** Every accepted request holds a digit string, a printable name and an address. */
  lemma OpIsPlain(packet: seq<byte>)
    ensures OpOf(packet).CreateOp? || OpOf(packet).ModifyOp? ==> PlainRequest(OpOf(packet).request)
  {
    if OpOf(packet).CreateOp? || OpOf(packet).ModifyOp? {
      var h := OpOf(packet).header;
      WalkKeepsPlain(Remaining(packet, h.headerLength, h.totalLength), NOTHING);
    }
  }

  // ----- what a stored context holds -----

  /** Everything but the APN is digits and dots; the APN comes back from the escaper. */
  predicate PlainPdp(c: PdpContext) {
    AllDigits(c.imsi) && AddressText(c.peerIp) && AddressText(c.ggsnIp) && Decodable(c.apn)
  }

  predicate PlainPdpStore(store: Store) {
    forall teid | teid in store :: PlainPdp(store[teid])
  }

  /** Asked by a parsed request, the chooser returns an APN that comes back from the escaper. */
  ghost predicate ChoosesDecodable(choose: Chooser) {
    forall imsi, apn :: PrintableText(apn) ==> Decodable(choose(imsi, apn))
  }

  /** Senders have addresses, and routing chooses decodable names. */
  ghost predicate PlainRun(run: seq<Datagram>) {
    forall i :: 0 <= i < |run| ==> AddressText(run[i].peerIp) && ChoosesDecodable(run[i].choose)
  }

  lemma PrintableIsDecodable(s: string)
    requires PrintableText(s)
    ensures Decodable(s)
  {
  }

  lemma StepKeepsPlain(store: Store, d: Datagram)
    requires PlainPdpStore(store) && AddressText(d.peerIp) && ChoosesDecodable(d.choose)
    ensures PlainPdpStore(Apply(store, d))
  {
    OpIsPlain(d.packet);
    if OpOf(d.packet).ModifyOp? {
      PrintableIsDecodable(OpOf(d.packet).request.apn);
    }
  }

  lemma {:induction false} RunKeepsPlain(start: Store, run: seq<Datagram>)
    requires PlainPdpStore(start) && PlainRun(run)
    ensures PlainPdpStore(RunFrom(start, run))
  {
    if run != [] {
      RunKeepsPlain(start, run[..|run| - 1]);
      StepKeepsPlain(RunFrom(start, run[..|run| - 1]), run[|run| - 1]);
    }
  }

  /** A configuration whose values come back from the escaper chooses only such names. */
  lemma ConfiguredChooserDecodes(config: Routing.Config, groups: seq<Routing.Group>)
    requires RoutingLoad.IsLoaded(config, groups) && forall key | key in config :: Decodable(config[key])
    ensures ChoosesDecodable(ConfiguredChooser(config, groups))
  {
    forall imsi, apn | PrintableText(apn)
      ensures Decodable(ConfiguredChooser(config, groups)(imsi, apn))
    {
      PrintableIsDecodable(apn);
      RoutingLoad.RoutesToMostSpecific(config, groups, imsi);
      if Routing.FirstMatch(groups, imsi).Some? {
        ProfileIsSetting(config, Routing.FirstMatch(groups, imsi).value);
      }
    }
  }

  lemma ProfileIsSetting(config: Routing.Config, g: Routing.Group)
    requires RoutingLoad.Accepted(config, g) && forall key | key in config :: Decodable(config[key])
    ensures Decodable(g.apnProfile)
  {
    var name :| name in RoutingLoad.GroupNames(config)
                && Routing.Normalised(RoutingLoad.GroupOf(config, name)) == Some(g);
  }
}
