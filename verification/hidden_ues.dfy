/** Two received datagrams after which a restart loses every UE context without an error. */
module HiddenUes {
  import opened Bytes
  import opened RuntimeStates
  import S1ap
  import opened GtpValues
  import opened GtpRequests
  import opened GtpFolds
  import opened Pdp
  import opened PdpTexts
  import opened PdpReload
  import Routing
  import opened SnapshotPrint
  import opened Snapshot
  import opened SnapshotState
  import opened SnapshotLocate
  import opened SnapshotFaked

  // ----- a Create that names an access point -----

  /** An IMSI and an access point name of one label. */
  function Naming(tbcd: seq<byte>, apn: string): seq<Element> {
    [Imsi(tbcd), Tlv(IE_APN, [|apn| % 0x100] + TextToBytes(apn))]
  }

  /** An IMSI element that names some digit. */
  predicate Identified(tbcd: seq<byte>) {
    |tbcd| == 8 && TbcdText(tbcd) != ""
  }

  predicate Namable(tbcd: seq<byte>, apn: string) {
    Identified(tbcd) && 0 < |apn| < 0x100 && PrintableText(apn)
  }

  lemma OneLabel(apn: string)
    requires 0 < |apn| < 0x100 && PrintableText(apn)
    ensures ApnText([|apn| % 0x100] + TextToBytes(apn)) == Some(apn)
  {
    var octets := TextToBytes(apn);
    assert S1ap.Sanitized(octets) == apn by {
      S1ap.SanitizedText(apn);
    }
    OneLabelReads([|apn| % 0x100] + octets, octets);
  }

  lemma OneLabelReads(data: seq<byte>, octets: seq<byte>)
    requires Label(octets) && data == [|octets|] + octets
    ensures ApnText(data) == Some(S1ap.Sanitized(octets))
  {
    assert data[1..1 + data[0]] == octets && data[1 + data[0]..] == [];
    assert Dotted("", octets) == "" + S1ap.Sanitized(octets) == S1ap.Sanitized(octets);
    assert ApnFrom([], Dotted("", octets)) == Some(Dotted("", octets));
  }

  function Named(tbcd: seq<byte>, apn: string): Request {
    NOTHING.(imsi := TbcdText(tbcd), hasImsi := true, apn := apn, hasApn := true)
  }

  lemma NamingFolds(tbcd: seq<byte>, apn: string)
    requires Namable(tbcd, apn)
    ensures Fold(Naming(tbcd, apn), NOTHING) == Ok(Named(tbcd, apn))
    ensures (forall e | e in Naming(tbcd, apn) :: Encodable(e)) && |EncodeElements(Naming(tbcd, apn))| < 0x1_0000
  {
    var first, last: Element := Imsi(tbcd), Tlv(IE_APN, [|apn| % 0x100] + TextToBytes(apn));
    var imsiOnly := NOTHING.(imsi := TbcdText(tbcd), hasImsi := true);
    OneLabel(apn);
    OneElement(last);
    assert [first, last][1..] == [last] && [last][1..] == [];
    assert EncodeElements([first, last]) == EncodeElement(first) + EncodeElements([last]);
    assert Fold([last], imsiOnly) == Ok(imsiOnly.(apn := apn, hasApn := true));
  }

  /** Routing returns a requested name as it is, whatever the configuration. */
  lemma RequestedIsChosen(config: Routing.Config, groups: seq<Routing.Group>, imsi: string, apn: string)
    requires apn != ""
    ensures ConfiguredChooser(config, groups)(imsi, apn) == apn
  {
  }

  // ----- the two datagrams -----

  function Creator(teid: uint32, tbcd: seq<byte>, apn: string, peerIp: string, choose: Chooser): Datagram {
    CreateOf(teid, Naming(tbcd, apn), peerIp, choose)
  }

  function Hiding(teid: uint32, tbcd: seq<byte>, apn: string, peerIp: string): PdpContext {
    PdpContext(teid, 0, 0, false, CREATE_REQUEST, peerIp, "", TbcdText(tbcd), apn, 1)
  }

  function PairRun(tbcd: seq<byte>, first: string, second: string, peerIp: string, choose: Chooser): seq<Datagram> {
    [Creator(1, tbcd, first, peerIp, choose), Creator(2, tbcd, second, peerIp, choose)]
  }

  function PairPdps(tbcd: seq<byte>, first: string, second: string, peerIp: string): seq<PdpContext> {
    [Hiding(1, tbcd, first, peerIp), Hiding(2, tbcd, second, peerIp)]
  }

  lemma CreatorStores(store: Store, teid: uint32, tbcd: seq<byte>, apn: string, peerIp: string, choose: Chooser)
    requires teid != 0 && Namable(tbcd, apn) && choose(TbcdText(tbcd), apn) == apn
    ensures var c := Hiding(teid, tbcd, apn, peerIp);
            Apply(store, Creator(teid, tbcd, apn, peerIp, choose)) == store[c.teid := c]
  {
    NamingFolds(tbcd, apn);
    CreateStores(store, teid, Naming(tbcd, apn), Named(tbcd, apn), peerIp, choose);
  }

  lemma RunOfTwo(a: Datagram, b: Datagram)
    ensures RunStore([a, b]) == Apply(Apply(map[], a), b)
  {
    RunOfOne(a);
    assert [a, b][..1] == [a];
  }

  /** The two datagrams leave two contexts. */
  lemma PairRunStores(tbcd: seq<byte>, first: string, second: string, peerIp: string, choose: Chooser)
    requires Namable(tbcd, first) && Namable(tbcd, second)
    requires choose(TbcdText(tbcd), first) == first && choose(TbcdText(tbcd), second) == second
    ensures RunStore(PairRun(tbcd, first, second, peerIp, choose)) == PdpTable(PairPdps(tbcd, first, second, peerIp))
  {
    var c, d := Hiding(1, tbcd, first, peerIp), Hiding(2, tbcd, second, peerIp);
    CreatorStores(map[], 1, tbcd, first, peerIp, choose);
    CreatorStores(map[][c.teid := c], 2, tbcd, second, peerIp, choose);
    TwoLeave(Creator(1, tbcd, first, peerIp, choose), Creator(2, tbcd, second, peerIp, choose), c, d);
  }

  lemma TwoLeave(a: Datagram, b: Datagram, c: PdpContext, d: PdpContext)
    requires Apply(map[], a) == map[][c.teid := c]
    requires Apply(map[][c.teid := c], b) == map[][c.teid := c][d.teid := d]
    ensures RunStore([a, b]) == PdpTable([c, d])
  {
    RunOfTwo(a, b);
    TableOfTwo(c, d);
  }

  lemma TableOfTwo(c: PdpContext, d: PdpContext)
    ensures PdpTable([c, d]) == map[][c.teid := c][d.teid := d]
  {
    var pair := [c, d];
    assert pair[..|pair| - 1] == [c] && pair[|pair| - 1] == d;
    assert [c][..|[c]| - 1] == [];
    assert PdpTable([c]) == PdpTable([])[c.teid := c];
  }

  lemma HidingLoads(teid: uint32, tbcd: seq<byte>, apn: string, peerIp: string)
    requires teid != 0 && TbcdText(tbcd) != "" && peerIp != "" && AddressText(peerIp) && apn != "" && PrintableText(apn)
    ensures PlainPdp(Hiding(teid, tbcd, apn, peerIp)) && PdpLoads(Hiding(teid, tbcd, apn, peerIp))
  {
    TbcdIsDigits(tbcd);
    PrintableIsDecodable(apn);
  }

  lemma PairLoads(tbcd: seq<byte>, first: string, second: string, peerIp: string)
    requires Namable(tbcd, first) && Namable(tbcd, second) && peerIp != "" && AddressText(peerIp)
    ensures forall c | c in PairPdps(tbcd, first, second, peerIp) :: PlainPdp(c) && PdpLoads(c)
  {
    HidingLoads(1, tbcd, first, peerIp);
    HidingLoads(2, tbcd, second, peerIp);
  }

  lemma NamesAreNamable(tbcd: seq<byte>)
    requires Identified(tbcd)
    ensures Namable(tbcd, UES) && Namable(tbcd, "[]")
  {
  }

  /** The run leaves the PDP table of the snapshot, which loads without an error and without a UE context. */
  ghost predicate LosesUes(run: seq<Datagram>, s: Setting, t: Tables, valid: set<string>) {
    && Attributed(run) && RunStore(run) == PdpTable(t.pdps)
    && !CanLocate(s, t) && LoadTables(Render(s, t), valid, s.clock) == Ok(t.(ues := []))
  }

  lemma PairLosesUes(tbcd: seq<byte>, first: string, second: string, peerIp: string, config: Routing.Config,
                     groups: seq<Routing.Group>, s: Setting, t: Tables, valid: set<string>)
    requires Namable(tbcd, first) && Namable(tbcd, second) && peerIp != "" && AddressText(peerIp)
    requires Faithful(s.clock) && SettingInOrder(s, t.ifaces) && forall e | e in t.ifaces :: IfaceAccepted(e, valid)
    requires first == UES && second == "[]" && t.pdps == PairPdps(tbcd, first, second, peerIp)
    ensures LosesUes(PairRun(tbcd, first, second, peerIp, ConfiguredChooser(config, groups)), s, t, valid)
  {
    CreatesLeavePair(tbcd, first, second, peerIp, config, groups);
    PairIsHiding(tbcd, first, second, peerIp);
    PairVanishes(s, t, valid);
  }

  lemma PairIsHiding(tbcd: seq<byte>, first: string, second: string, peerIp: string)
    requires first == UES && second == "[]"
    requires forall c | c in PairPdps(tbcd, first, second, peerIp) :: PlainPdp(c)
    ensures HidingPair(PairPdps(tbcd, first, second, peerIp))
  {
  }

  /**
    Under any configuration, a Create Request for the access point `ue_contexts` and one for `[]` lose the UE
    contexts of the next snapshot, whatever they are.
   */
  lemma CreatesHideUes(tbcd: seq<byte>, peerIp: string, config: Routing.Config, groups: seq<Routing.Group>,
                       s: Setting, t: Tables, valid: set<string>)
    requires Identified(tbcd) && peerIp != "" && AddressText(peerIp)
    requires Faithful(s.clock) && SettingInOrder(s, t.ifaces) && forall e | e in t.ifaces :: IfaceAccepted(e, valid)
    requires t.pdps == PairPdps(tbcd, UES, "[]", peerIp)
    ensures LosesUes(PairRun(tbcd, UES, "[]", peerIp, ConfiguredChooser(config, groups)), s, t, valid)
  {
    NamesAreNamable(tbcd);
    PairLosesUes(tbcd, UES, "[]", peerIp, config, groups, s, t, valid);
  }

  lemma PairVanishes(s: Setting, t: Tables, valid: set<string>)
    requires Faithful(s.clock) && SettingInOrder(s, t.ifaces) && HidingPair(t.pdps)
    requires (forall e | e in t.ifaces :: IfaceAccepted(e, valid)) && forall c | c in t.pdps :: PdpLoads(c)
    ensures !CanLocate(s, t) && LoadTables(Render(s, t), valid, s.clock) == Ok(t.(ues := []))
  {
    PairCannotBeLocated(s, t);
    UesVanish(s, t, valid);
  }

  lemma PairRunIsAttributed(tbcd: seq<byte>, first: string, second: string, peerIp: string, choose: Chooser)
    requires peerIp != ""
    ensures Attributed(PairRun(tbcd, first, second, peerIp, choose))
  {
  }

  lemma ConfiguredPairRun(tbcd: seq<byte>, first: string, second: string, peerIp: string, config: Routing.Config,
                          groups: seq<Routing.Group>)
    requires Namable(tbcd, first) && Namable(tbcd, second)
    ensures RunStore(PairRun(tbcd, first, second, peerIp, ConfiguredChooser(config, groups)))
         == PdpTable(PairPdps(tbcd, first, second, peerIp))
  {
    RequestedIsChosen(config, groups, TbcdText(tbcd), first);
    RequestedIsChosen(config, groups, TbcdText(tbcd), second);
    PairRunStores(tbcd, first, second, peerIp, ConfiguredChooser(config, groups));
  }

  lemma CreatesLeavePair(tbcd: seq<byte>, first: string, second: string, peerIp: string, config: Routing.Config,
                         groups: seq<Routing.Group>)
    requires Namable(tbcd, first) && Namable(tbcd, second) && peerIp != "" && AddressText(peerIp)
    ensures var run := PairRun(tbcd, first, second, peerIp, ConfiguredChooser(config, groups));
            Attributed(run) && RunStore(run) == PdpTable(PairPdps(tbcd, first, second, peerIp))
    ensures forall c | c in PairPdps(tbcd, first, second, peerIp) :: PlainPdp(c) && PdpLoads(c)
  {
    PairRunIsAttributed(tbcd, first, second, peerIp, ConfiguredChooser(config, groups));
    ConfiguredPairRun(tbcd, first, second, peerIp, config, groups);
    PairLoads(tbcd, first, second, peerIp);
  }
}
