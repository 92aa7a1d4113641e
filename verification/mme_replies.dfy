/** Every downlink message the MME sends, in every reachable state, parses back to what it says. */
module MmeReplies {
  import opened Bytes
  import opened S1ap
  import opened Mme

  predicate GoodNames(store: UeStore) {
    forall imsi | imsi in store :: GoodText(store[imsi].guti)
  }

  lemma StepKeepsGoodNames(store: UeStore, a: Arrival)
    requires GoodNames(store)
    ensures GoodNames(Step(store, a).store)
  {
    if ParsedCarrier(a.packet, INITIAL_UE_MESSAGE).Ok? {
      ParsedTextIsGood(a.packet, INITIAL_UE_MESSAGE);
    }
  }

  lemma {:induction false} RunKeepsGoodNames(start: UeStore, run: seq<Arrival>)
    requires GoodNames(start)
    ensures GoodNames(RunFrom(start, run))
  {
    if run != [] {
      var init, a := run[..|run| - 1], run[|run| - 1];
      RunKeepsGoodNames(start, init);
      StepKeepsGoodNames(RunFrom(start, init), a);
    }
  }

  /**
    A packet handed to `send` after any run answers a parsed message; it parses as a Downlink NAS
    Transport with that message's IMSI, the GUTI the reaction chose and the NAS bytes it built.
   */
  lemma RepliesParseBack(start: UeStore, run: seq<Arrival>, a: Arrival)
    requires GoodNames(start) && Step(RunFrom(start, run), a).downlink.Some?
    ensures ParsedCarrier(a.packet, INITIAL_UE_MESSAGE).Ok?
    ensures var m := ParsedCarrier(a.packet, INITIAL_UE_MESSAGE).value;
            var reaction := React(Touched(RunFrom(start, run), m, a.peerId, a.now), m);
            && reaction.Reply?
            && 0 < |reaction.nas|
            && ParsedCarrier(Step(RunFrom(start, run), a).downlink.value, DOWNLINK_NAS_TRANSPORT)
            == Ok(Carrier(DOWNLINK_NAS_TRANSPORT, m.imsi, reaction.guti, reaction.nas, reaction.nas[0],
                          true, reaction.guti != "", true))
  {
    RunKeepsGoodNames(start, run);
    ParsedTextIsGood(a.packet, INITIAL_UE_MESSAGE);
    var m := ParsedCarrier(a.packet, INITIAL_UE_MESSAGE).value;
    var reaction := React(Touched(RunFrom(start, run), m, a.peerId, a.now), m);
    DownlinkRoundTrip(m.imsi, reaction.guti, reaction.nas);
  }

  /** The reply names the stored GUTI, except that an Attach Request is answered with its own. */
  lemma ReplyGuti(start: UeStore, run: seq<Arrival>, a: Arrival)
    requires GoodNames(start) && Step(RunFrom(start, run), a).downlink.Some? && a.sendOk
    ensures var m := ParsedCarrier(a.packet, INITIAL_UE_MESSAGE).value;
            var reaction := React(Touched(RunFrom(start, run), m, a.peerId, a.now), m);
            && m.imsi in Step(RunFrom(start, run), a).store
            && (reaction.guti == Step(RunFrom(start, run), a).store[m.imsi].guti
                <==> m.nasMessageType != ATTACH_REQUEST || m.hasGuti
                     || !(m.imsi in RunFrom(start, run)) || RunFrom(start, run)[m.imsi].guti == "")
  {
    RunKeepsGoodNames(start, run);
    ParsedTextIsGood(a.packet, INITIAL_UE_MESSAGE);
    var m := ParsedCarrier(a.packet, INITIAL_UE_MESSAGE).value;
  }
}
