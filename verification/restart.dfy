/** Restarts: which tables the two servers reach come back from their snapshot, and over how many restarts. */
module Restarts {
  import opened Bytes
  import opened JsonText
  import opened RuntimeStates
  import opened S1ap
  import opened Mme
  import opened MmeReload
  import Pdp
  import PdpTexts
  import PdpReload
  import Routing
  import opened SnapshotPrint
  import opened SnapshotRecords
  import opened Snapshot
  import opened SnapshotState
  import opened SnapshotLocate

  // ----- the UE table -----

  predicate PeersDecodable(run: seq<Arrival>) {
    forall i :: 0 <= i < |run| ==> Decodable(run[i].peerId)
  }

  predicate StoreDecodes(store: UeStore) {
    forall imsi | imsi in store :: Decodable(imsi) && store[imsi].imsi == imsi && DecodableUe(store[imsi])
  }

  lemma StepDecodes(store: UeStore, a: Arrival)
    requires StoreDecodes(store) && Decodable(a.peerId)
    ensures StoreDecodes(Step(store, a).store)
  {
    var parsed := ParsedCarrier(a.packet, INITIAL_UE_MESSAGE);
    if parsed.Ok? {
      ParsedTextIsGood(a.packet, INITIAL_UE_MESSAGE);
    }
  }

  lemma {:induction false} RunDecodes(start: UeStore, run: seq<Arrival>)
    requires StoreDecodes(start) && PeersDecodable(run)
    ensures StoreDecodes(RunFrom(start, run))
  {
    if run != [] {
      RunDecodes(start, run[..|run| - 1]);
      StepDecodes(RunFrom(start, run[..|run| - 1]), run[|run| - 1]);
    }
  }

  // ----- both tables -----

  /** What both servers keep of their tables, and all a snapshot needs of them. */
  predicate Kept(ues: UeStore, pdps: Pdp.Store) {
    && SoundStore(ues) && StoreDecodes(ues)
    && PdpReload.SoundPdpStore(pdps) && PdpTexts.PlainPdpStore(pdps)
  }

  /** Clocks do not read zero, and senders and routing bring texts the snapshot can hold. */
  ghost predicate Regular(ueRun: seq<Arrival>, gtpRun: seq<Pdp.Datagram>) {
    && Clocked(ueRun) && PeersDecodable(ueRun)
    && PdpReload.Attributed(gtpRun) && PdpTexts.PlainRun(gtpRun)
  }

  lemma RunsKeep(ues: UeStore, pdps: Pdp.Store, ueRun: seq<Arrival>, gtpRun: seq<Pdp.Datagram>)
    requires Kept(ues, pdps) && Regular(ueRun, gtpRun)
    ensures Kept(RunFrom(ues, ueRun), Pdp.RunFrom(pdps, gtpRun))
  {
    MmeReload.RunIsSound(ues, ueRun);
    RunDecodes(ues, ueRun);
    PdpReload.RunIsSound(pdps, gtpRun);
    PdpTexts.RunKeepsPlain(pdps, gtpRun);
  }

  predicate AllSurvive(ues: UeStore, pdps: Pdp.Store) {
    && (forall imsi | imsi in ues :: Reloadable(ues[imsi]))
    && (forall teid | teid in pdps :: PdpReload.Survives(pdps[teid]))
  }

  lemma UesReload(ues: UeStore)
    requires SoundStore(ues)
    ensures forall imsi | imsi in ues :: UeReloads(ues[imsi]) <==> Reloadable(ues[imsi])
  {
    forall imsi | imsi in ues
      ensures UeReloads(ues[imsi]) <==> Reloadable(ues[imsi])
    {
      SoundIsBounded(imsi, ues[imsi]);
    }
  }

  lemma PdpsReload(pdps: Pdp.Store)
    requires PdpReload.SoundPdpStore(pdps)
    ensures forall teid | teid in pdps :: PdpReloads(pdps[teid]) <==> PdpReload.Survives(pdps[teid])
  {
    forall teid | teid in pdps
      ensures PdpReloads(pdps[teid]) <==> PdpReload.Survives(pdps[teid])
    {
      PdpReload.SoundIsBounded(teid, pdps[teid]);
    }
  }

  lemma KeptIsDecipherable(ues: UeStore, pdps: Pdp.Store, t: Tables, ifaces: map<string, bool>, valid: set<string>)
    requires Kept(ues, pdps) && Lists(t, ifaces, pdps, ues) && forall e | e in t.ifaces :: IfaceAccepted(e, valid)
    ensures Decipherable(t, valid) && forall c | c in t.pdps :: PdpTexts.PlainPdp(c)
  {
    UesListed(t.ues, ues);
    PdpsListed(t.pdps, pdps);
    forall c | c in t.pdps
      ensures PdpTexts.PlainPdp(c) && DecodablePdp(c)
    {
      PlainIsDecodable(c);
    }
  }

  lemma PlainIsDecodable(c: PdpContext)
    requires PdpTexts.PlainPdp(c)
    ensures DecodablePdp(c)
  {
  }

  // ----- one restart -----

  /**
    What the caller of a snapshot must see to: a faithful clock, a listing of the three maps, interfaces the
    loader accepts, header texts and interface names out of the arrays' way, and no access point name that looks
    like `ue_contexts` listed before one with a bracket.
   */
  ghost predicate Orderly(s: Setting, t: Tables, ues: UeStore, pdps: Pdp.Store, ifaces: map<string, bool>,
                          valid: set<string>) {
    && Faithful(s.clock) && Lists(t, ifaces, pdps, ues)
    && (forall e | e in t.ifaces :: IfaceAccepted(e, valid))
    && SettingInOrder(s, t.ifaces) && InOrder(Apns(t.pdps), UES)
  }

  /** The load succeeds exactly when every context survives, and then returns all three tables. */
  ghost predicate RestoresOrNothing(r: Result<Tables, LoadError>, ues: UeStore, pdps: Pdp.Store,
                                    ifaces: map<string, bool>) {
    && (r.Ok? <==> AllSurvive(ues, pdps))
    && (r.Ok? ==> UeTable(r.value.ues) == ues && PdpTable(r.value.pdps) == pdps && IfaceTable(r.value.ifaces) == ifaces)
  }

  lemma OrderlyIsReadable(ues: UeStore, pdps: Pdp.Store, s: Setting, t: Tables, ifaces: map<string, bool>,
                          valid: set<string>)
    requires Kept(ues, pdps) && Orderly(s, t, ues, pdps, ifaces, valid)
    ensures Decipherable(t, valid) && CanLocate(s, t)
  {
    KeptIsDecipherable(ues, pdps, t, ifaces, valid);
    CanLocateIffApnsInOrder(s, t);
  }

  lemma RestartOnBoundary(ues: UeStore, pdps: Pdp.Store, s: Setting, t: Tables, ifaces: map<string, bool>,
                          valid: set<string>)
    requires Kept(ues, pdps) && Orderly(s, t, ues, pdps, ifaces, valid)
    ensures RestoresOrNothing(LoadTables(Render(s, t), valid, s.clock), ues, pdps, ifaces)
  {
    OrderlyIsReadable(ues, pdps, s, t, ifaces, valid);
    RestartRestores(s, t, ifaces, pdps, ues, valid);
    KeptSurvives(ues, pdps);
  }

  lemma KeptSurvives(ues: UeStore, pdps: Pdp.Store)
    requires Kept(ues, pdps)
    ensures AllSurvive(ues, pdps) <==>
            (forall k | k in pdps :: PdpReloads(pdps[k])) && (forall k | k in ues :: UeReloads(ues[k]))
  {
    UesReload(ues);
    PdpsReload(pdps);
  }

  /**
    After any run of the MME and any run of the GTP server, from tables they kept, a snapshot of their tables
    loads exactly when every UE context and every PDP context meets its reload boundary, and then restores all
    the tables. A single context outside its boundary loses them all.
   */
  lemma RunsSurviveRestart(ues: UeStore, pdps: Pdp.Store, ueRun: seq<Arrival>, gtpRun: seq<Pdp.Datagram>, s: Setting,
                           t: Tables, ifaces: map<string, bool>, valid: set<string>)
    requires Kept(ues, pdps) && Regular(ueRun, gtpRun)
    requires Orderly(s, t, RunFrom(ues, ueRun), Pdp.RunFrom(pdps, gtpRun), ifaces, valid)
    ensures RestoresOrNothing(LoadTables(Render(s, t), valid, s.clock), RunFrom(ues, ueRun),
                              Pdp.RunFrom(pdps, gtpRun), ifaces)
  {
    RunsKeep(ues, pdps, ueRun, gtpRun);
    RestartOnBoundary(RunFrom(ues, ueRun), Pdp.RunFrom(pdps, gtpRun), s, t, ifaces, valid);
  }

  lemma KeptIsKeyed(ues: UeStore, pdps: Pdp.Store)
    requires Kept(ues, pdps)
    ensures Keyed(TeidOf, pdps) && Keyed(ImsiOf, ues) && Pdp.OwnTeids(pdps)
  {
  }

  /** A whole session of the program: both servers run, their tables are saved, and the next program loads them. */
  method RunSession(state: RuntimeState, restarted: RuntimeState, ueRun: seq<Arrival>, gtpRun: seq<Pdp.Datagram>,
                    configs: seq<Routing.Config>, ghost groups: seq<seq<Routing.Group>>, s: Setting, valid: set<string>)
    returns (t: Tables, r: Result<(), LoadError>)
    requires state != restarted && Faithful(s.clock) && Kept(state.ueContexts, state.pdpContexts)
    requires Regular(ueRun, gtpRun) && Pdp.Configured(gtpRun, configs, groups)
    modifies state`ueContexts, state`pdpContexts, restarted
    ensures state.ueContexts == RunFrom(old(state.ueContexts), ueRun)
    ensures state.pdpContexts == Pdp.RunFrom(old(state.pdpContexts), gtpRun)
    ensures Orderly(s, t, state.ueContexts, state.pdpContexts, state.interfaceAdminState, valid) ==>
              if AllSurvive(state.ueContexts, state.pdpContexts) then
                r.Ok? && restarted.ueContexts == state.ueContexts && restarted.pdpContexts == state.pdpContexts
              else
                r.Err? && restarted.ueContexts == map[] && restarted.pdpContexts == map[]
  {
    KeptIsKeyed(state.ueContexts, state.pdpContexts);
    RunsKeep(state.ueContexts, state.pdpContexts, ueRun, gtpRun);
    Serve(state, ueRun);
    Pdp.ServeGtp(state, gtpRun, configs, groups);
    KeptIsKeyed(state.ueContexts, state.pdpContexts);
    t, r := Restart(state, restarted, s, valid);
    if Orderly(s, t, state.ueContexts, state.pdpContexts, state.interfaceAdminState, valid) {
      OrderlyIsReadable(state.ueContexts, state.pdpContexts, s, t, state.interfaceAdminState, valid);
      KeptSurvives(state.ueContexts, state.pdpContexts);
    }
  }

  // ----- any number of restarts -----

  /** The messages the servers handle between two starts, and the snapshot they leave. */
  datatype Session = Session(ueRun: seq<Arrival>, gtpRun: seq<Pdp.Datagram>, setting: Setting, tables: Tables,
                             ifaces: map<string, bool>)

  datatype Both = Both(ues: UeStore, pdps: Pdp.Store)

  /** The tables at the end of a session that began with the given ones. */
  function Ran(b: Both, session: Session): Both {
    Both(RunFrom(b.ues, session.ueRun), Pdp.RunFrom(b.pdps, session.gtpRun))
  }

  /** What the next start loads: a failed load leaves both tables empty. */
  function Restarted(session: Session, valid: set<string>): Both {
    match LoadTables(Render(session.setting, session.tables), valid, session.setting.clock)
    case Err(_) => Both(map[], map[])
    case Ok(t) => Both(UeTable(t.ues), PdpTable(t.pdps))
  }

  /** The tables after a sequence of sessions, each ended by a restart. */
  function After(sessions: seq<Session>, valid: set<string>): Both {
    if sessions == [] then Both(map[], map[]) else Restarted(sessions[|sessions| - 1], valid)
  }

  /** Every session is regular and leaves an orderly snapshot. */
  ghost predicate AllOrderly(sessions: seq<Session>, valid: set<string>) {
    sessions == []
    || (var init, last := sessions[..|sessions| - 1], sessions[|sessions| - 1];
        var end := Ran(After(init, valid), last);
        && AllOrderly(init, valid) && Regular(last.ueRun, last.gtpRun)
        && Orderly(last.setting, last.tables, end.ues, end.pdps, last.ifaces, valid))
  }

  /** However often the program restarts, what the servers keep holds, and each restart restores or empties. */
  lemma {:induction false} SessionsKeep(sessions: seq<Session>, valid: set<string>)
    requires AllOrderly(sessions, valid)
    ensures Kept(After(sessions, valid).ues, After(sessions, valid).pdps)
    ensures sessions != [] ==>
              var n := |sessions| - 1;
              var end := Ran(After(sessions[..n], valid), sessions[n]);
              After(sessions, valid) == if AllSurvive(end.ues, end.pdps) then end else Both(map[], map[])
  {
    if sessions != [] {
      var n := |sessions| - 1;
      var init, session := sessions[..n], sessions[n];
      SessionsKeep(init, valid);
      var b := After(init, valid);
      RunsKeep(b.ues, b.pdps, session.ueRun, session.gtpRun);
      var end := Ran(b, session);
      RestartOnBoundary(end.ues, end.pdps, session.setting, session.tables, session.ifaces, valid);
    }
  }

  function UeRuns(sessions: seq<Session>): seq<Arrival> {
    if sessions == [] then [] else UeRuns(sessions[..|sessions| - 1]) + sessions[|sessions| - 1].ueRun
  }

  function GtpRuns(sessions: seq<Session>): seq<Pdp.Datagram> {
    if sessions == [] then [] else GtpRuns(sessions[..|sessions| - 1]) + sessions[|sessions| - 1].gtpRun
  }

  lemma {:induction false} UeRunsCompose(start: UeStore, a: seq<Arrival>, b: seq<Arrival>)
    ensures RunFrom(start, a + b) == RunFrom(RunFrom(start, a), b)
  {
    if b == [] {
      assert a + b == a;
    } else {
      UeRunsCompose(start, a, b[..|b| - 1]);
      assert (a + b)[..|a + b| - 1] == a + b[..|b| - 1];
    }
  }

  lemma {:induction false} GtpRunsCompose(start: Pdp.Store, a: seq<Pdp.Datagram>, b: seq<Pdp.Datagram>)
    ensures Pdp.RunFrom(start, a + b) == Pdp.RunFrom(Pdp.RunFrom(start, a), b)
  {
    if b == [] {
      assert a + b == a;
    } else {
      GtpRunsCompose(start, a, b[..|b| - 1]);
      assert (a + b)[..|a + b| - 1] == a + b[..|b| - 1];
    }
  }

  /** At the end of every session all contexts meet their boundaries. */
  predicate AllSessionsSurvive(sessions: seq<Session>, valid: set<string>) {
    sessions == []
    || (var init, last := sessions[..|sessions| - 1], sessions[|sessions| - 1];
        var end := Ran(After(init, valid), last);
        AllSessionsSurvive(init, valid) && AllSurvive(end.ues, end.pdps))
  }

  /**
    If every session ends within the boundaries, restarts cannot be noticed: the tables are those of one
    uninterrupted run of all the messages.
   */
  lemma {:induction false} RestartsAreInvisible(sessions: seq<Session>, valid: set<string>)
    requires AllOrderly(sessions, valid) && AllSessionsSurvive(sessions, valid)
    ensures After(sessions, valid) == Both(RunStore(UeRuns(sessions)), Pdp.RunStore(GtpRuns(sessions)))
  {
    if sessions != [] {
      var init, last := sessions[..|sessions| - 1], sessions[|sessions| - 1];
      RestartsAreInvisible(init, valid);
      SessionsKeep(sessions, valid);
      assert After(sessions, valid) == Ran(After(init, valid), last);
      UeRunsCompose(map[], UeRuns(init), last.ueRun);
      GtpRunsCompose(map[], GtpRuns(init), last.gtpRun);
    }
  }
}
