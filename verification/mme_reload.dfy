/**
  Which UE contexts the load-time validator accepts, over every run of the MME machine.
  The validator was written apart from the machine; this module finds where the two differ.
 */
module MmeReload {
  import opened Bytes
  import opened RuntimeStates
  import opened S1ap
  import opened Mme

  /** The clock never reads zero, which the records use for "never". */
  predicate Clocked(run: seq<Arrival>) {
    forall i :: 0 <= i < |run| ==> run[i].now != 0
  }

  /** Every validator clause the machine keeps; its one addition is that a pending area update has its area code. */
  predicate Sound(key: string, c: UeContext) {
    && c.imsi == key && key != "" && c.updatedAt != 0
    && !PresentButZero(c.algorithm) && !PresentButZero(c.bearer)
    && (c.attach.authResponseReceived ==> c.attach.authRequestSent)
    && (c.attach.securityModeComplete ==> c.attach.securityModeCommandSent)
    && (c.attach.attachCompleteReceived ==> c.attach.attachAcceptSent)
    && (c.attach.attached ==> c.attach.attachCompleteReceived)
    && (c.service.active ==> c.attach.attached && c.bearer.present)
    && (c.tau.completeReceived ==> c.attach.attached && c.area.present)
    && (c.detach.detached ==> !c.attach.attached && !c.attach.authenticated && !c.service.active)
    && (c.detach.detached ==> !c.security.present && !c.bearer.present && !c.area.present)
    && (InSecuredFlow(c) && !c.detach.detached ==> c.security.present)
    && !Arealess(c)
  }

  /** Attached, with a Tracking Area Update Accept sent and no area code stored. */
  predicate Arealess(c: UeContext) {
    c.attach.attached && c.tau.acceptSent && !c.area.present
  }

  predicate SoundStore(store: UeStore) {
    forall imsi | imsi in store :: Sound(imsi, store[imsi])
  }

  predicate SoundReaction(c: UeContext, r: Reaction) {
    r.Refuse? || (r.context.imsi == c.imsi && Sound(c.imsi, r.context))
  }

  lemma ServiceIsSound(c: UeContext, nas: seq<byte>)
    requires Sound(c.imsi, c)
    ensures SoundReaction(c, OnServiceRequest(c, nas)) && SoundReaction(c, OnServiceReleaseRequest(c, nas))
    ensures SoundReaction(c, OnServiceResumeRequest(c, nas))
  {
  }

  lemma AreaIsSound(c: UeContext, nas: seq<byte>)
    requires Sound(c.imsi, c)
    ensures SoundReaction(c, OnTauRequest(c, nas)) && SoundReaction(c, OnTauComplete(c, nas))
    ensures SoundReaction(c, OnDetachRequest(c, nas))
  {
  }

  lemma AttachIsSound(c: UeContext, nas: seq<byte>, guti: string)
    requires Sound(c.imsi, c)
    ensures SoundReaction(c, OnAttachRequest(c, guti)) && SoundReaction(c, OnAuthenticationResponse(c, nas))
    ensures SoundReaction(c, OnSecurityModeComplete(c, nas)) && SoundReaction(c, OnAttachComplete(c, nas))
  {
  }

  lemma ReactionIsSound(c: UeContext, m: Carrier)
    requires Sound(c.imsi, c)
    ensures SoundReaction(c, React(c, m))
  {
    ServiceIsSound(c, m.nasPdu);
    AreaIsSound(c, m.nasPdu);
    AttachIsSound(c, m.nasPdu, m.guti);
  }

  lemma StepIsSound(store: UeStore, a: Arrival)
    requires SoundStore(store) && a.now != 0
    ensures SoundStore(Step(store, a).store)
  {
    var parsed := ParsedCarrier(a.packet, INITIAL_UE_MESSAGE);
    if parsed.Ok? {
      ParsedTextIsGood(a.packet, INITIAL_UE_MESSAGE);
      ReactionIsSound(Touched(store, parsed.value, a.peerId, a.now), parsed.value);
    }
  }

  lemma {:induction false} RunIsSound(start: UeStore, run: seq<Arrival>)
    requires SoundStore(start) && Clocked(run)
    ensures SoundStore(RunFrom(start, run))
  {
    if run != [] {
      RunIsSound(start, run[..|run| - 1]);
      StepIsSound(RunFrom(start, run[..|run| - 1]), run[|run| - 1]);
    }
  }

  /** The three things a context can get wrong. */
  predicate Reloadable(c: UeContext) {
    && !PresentButZero(c.lastNas)
    && !PresentButZero(c.area)
    && (c.service.resumeAcceptSent ==> c.service.active)
  }

  const BOUNDARY: set<Option<UeFault>> :=
    {None, Some(ZeroNasType), Some(ZeroTrackingArea), Some(ResumeWithoutActive)}

  /** A sound context passes the validator exactly when it gets none of the three wrong; nothing else fails it. */
  lemma SoundIsBounded(key: string, c: UeContext)
    requires Sound(key, c)
    ensures ValidateLoadedUeContext(c) == None <==> Reloadable(c)
    ensures ValidateLoadedUeContext(c) in BOUNDARY
  {
  }

  // ----- the tables a program can start from -----

  /** What a successful load leaves: contexts under their own IMSIs that the validator admits. */
  predicate Admitted(start: UeStore) {
    forall imsi | imsi in start :: start[imsi].imsi == imsi && ValidateLoadedUeContext(start[imsi]) == None
  }

  /** An IMSI that a message can carry. */
  predicate Usable(imsi: string) {
    imsi != "" && GoodText(imsi)
  }

  /** No context that a message can reach waits for an area code it does not have. */
  predicate NoneArealess(start: UeStore) {
    forall imsi | imsi in start && Usable(imsi) :: !Arealess(start[imsi])
  }

  /** Sound, or as admitted and out of every message's reach. */
  predicate SoundOrOriginal(start: UeStore, imsi: string, c: UeContext) {
    Sound(imsi, c) || (!Usable(imsi) && imsi in start && c == start[imsi])
  }

  lemma AdmittedIsSound(start: UeStore, imsi: string)
    requires Admitted(start) && imsi in start
    ensures Sound(imsi, start[imsi]) <==> !Arealess(start[imsi])
  {
  }

  lemma StepOnReachable(store: UeStore, a: Arrival, imsi: string)
    requires imsi in Step(store, a).store && a.now != 0
    requires imsi in store && Usable(imsi) ==> Sound(imsi, store[imsi])
    ensures if Usable(imsi) then Sound(imsi, Step(store, a).store[imsi])
            else imsi in store && Step(store, a).store[imsi] == store[imsi]
  {
    var parsed := ParsedCarrier(a.packet, INITIAL_UE_MESSAGE);
    if parsed.Ok? {
      ParsedTextIsGood(a.packet, INITIAL_UE_MESSAGE);
      var c := Touched(store, parsed.value, a.peerId, a.now);
      if parsed.value.imsi == imsi {
        ReactionIsSound(c, parsed.value);
      }
      ReactKeepsImsi(c, parsed.value);
    }
  }

  lemma ReactKeepsImsi(c: UeContext, m: Carrier)
    ensures !React(c, m).Refuse? ==> React(c, m).context.imsi == c.imsi
  {
  }

  lemma {:induction false} RunIsSoundOrOriginal(start: UeStore, run: seq<Arrival>, imsi: string)
    requires Admitted(start) && NoneArealess(start) && Clocked(run) && imsi in RunFrom(start, run)
    ensures SoundOrOriginal(start, imsi, RunFrom(start, run)[imsi])
  {
    if run == [] {
      AdmittedIsSound(start, imsi);
    } else {
      var init := run[..|run| - 1];
      if imsi in RunFrom(start, init) {
        RunIsSoundOrOriginal(start, init, imsi);
      }
      StepOnReachable(RunFrom(start, init), run[|run| - 1], imsi);
    }
  }

  /**
    A context reached by any run, from nothing or from any table the validator admitted without a context that
    waits for a missing area code, passes the validator exactly when its last NAS type and its tracking area code,
    if there, are not zero and a sent Service Resume Accept still has its service. No other clause can be the first
    to fail.
   */
  lemma ReloadBoundary(start: UeStore, run: seq<Arrival>, imsi: string)
    requires Admitted(start) && NoneArealess(start) && Clocked(run) && imsi in RunFrom(start, run)
    ensures var c := RunFrom(start, run)[imsi];
            (ValidateLoadedUeContext(c) == None <==> Reloadable(c)) && ValidateLoadedUeContext(c) in BOUNDARY
  {
    var c := RunFrom(start, run)[imsi];
    RunIsSoundOrOriginal(start, run, imsi);
    if Sound(imsi, c) {
      SoundIsBounded(imsi, c);
    }
  }

  // ----- the boundary is not empty: a run for each excluded clause -----

  /** The Initial UE Message a UE without a GUTI sends. */
  function Uplink(imsi: string, nas: seq<byte>): seq<byte> {
    [INITIAL_UE_MESSAGE] + EncodeRecords([Record(IE_IMSI, TextToBytes(imsi)), Record(IE_NAS, nas)])
  }

  function Sent(imsi: string, nas: seq<byte>): Arrival {
    Arrival(Uplink(imsi, nas), "peer", 1, true)
  }

  lemma UplinkParses(imsi: string, nas: seq<byte>)
    requires Usable(imsi) && 0 < |nas| < 0x100
    ensures ParsedCarrier(Uplink(imsi, nas), INITIAL_UE_MESSAGE)
         == Ok(Carrier(INITIAL_UE_MESSAGE, imsi, "", nas, nas[0], true, false, true))
  {
    var blank := Blank(INITIAL_UE_MESSAGE);
    var i, n := Record(IE_IMSI, TextToBytes(imsi)), Record(IE_NAS, nas);
    assert Uplink(imsi, nas)[1..] == EncodeRecords([i, n]);
    assert |EncodeRecords([i, n])| >= |EncodeRecord(i)| > 2;
    WalkOfTiling([i, n], blank);
    LastRecordWins([i, n], blank);
    assert [] + [i] == [i] && [i] + [n] == [i, n];
    forall t
      ensures LastOf([i, n], t) == if t == IE_NAS then Some(nas) else if t == IE_IMSI then Some(i.value) else None
    {
      LastOfSnoc([], i, t);
      LastOfSnoc([i], n, t);
    }
    SanitizedText(imsi);
  }

  /** One more message of the witness runs, on the context it meets. */
  lemma OneMoreFrom(start: UeStore, run: seq<Arrival>, imsi: string, before: UeContext, nas: seq<byte>)
    requires Usable(imsi) && 0 < |nas| < 0x100
    requires before == if imsi in RunFrom(start, run) then RunFrom(start, run)[imsi] else BLANK_UE
    ensures var c := before.(imsi := imsi, peerId := "peer", lastS1apProcedure := INITIAL_UE_MESSAGE,
                             lastNas := Slot(nas[0], true), updatedAt := 1);
            var r := React(c, Carrier(INITIAL_UE_MESSAGE, imsi, "", nas, nas[0], true, false, true));
            && (!r.Refuse? && r.context.imsi == imsi ==>
                  var store := RunFrom(start, run + [Sent(imsi, nas)]);
                  imsi in store && store[imsi] == r.context)
  {
    UplinkParses(imsi, nas);
    var longer := run + [Sent(imsi, nas)];
    assert longer[..|longer| - 1] == run && longer[|longer| - 1] == Sent(imsi, nas);
  }

  lemma RunOneMore(run: seq<Arrival>, imsi: string, before: UeContext, nas: seq<byte>)
    requires Usable(imsi) && 0 < |nas| < 0x100
    requires before == if imsi in RunStore(run) then RunStore(run)[imsi] else BLANK_UE
    ensures var c := before.(imsi := imsi, peerId := "peer", lastS1apProcedure := INITIAL_UE_MESSAGE,
                             lastNas := Slot(nas[0], true), updatedAt := 1);
            var r := React(c, Carrier(INITIAL_UE_MESSAGE, imsi, "", nas, nas[0], true, false, true));
            && (!r.Refuse? && r.context.imsi == imsi ==>
                  var store := RunStore(run + [Sent(imsi, nas)]);
                  imsi in store && store[imsi] == r.context)
  {
    OneMoreFrom(map[], run, imsi, before, nas);
  }

  /** NAS type zero is stored by the default branch and refused at load. */
  lemma ZeroNasTypeReached(imsi: string)
    requires Usable(imsi)
    ensures var run := [Sent(imsi, [0x00])];
            && Clocked(run) && imsi in RunStore(run)
            && ValidateLoadedUeContext(RunStore(run)[imsi]) == Some(ZeroNasType)
  {
    RunOneMore([], imsi, BLANK_UE, [0x00]);
    var run := [Sent(imsi, [0x00])];
    assert [] + run == run;
    assert RunStore(run)[imsi]
        == BLANK_UE.(imsi := imsi, peerId := "peer", lastNas := Slot(0, true), lastS1apProcedure := INITIAL_UE_MESSAGE,
                     updatedAt := 1);
  }

  function AttachRun(imsi: string): seq<Arrival> {
    [Sent(imsi, [ATTACH_REQUEST]),
     Sent(imsi, [AUTHENTICATION_RESPONSE, OFFERED_KEY_SET]),
     Sent(imsi, [SECURITY_MODE_COMPLETE, OFFERED_KEY_SET]),
     Sent(imsi, [ATTACH_COMPLETE, OFFERED_KEY_SET])]
  }

  function AttachedContext(imsi: string): UeContext {
    UeContext(imsi, "", "peer", AttachFlow(true, true, true, true, true, true, true, true),
              NO_SERVICE, NO_DETACH, NO_TAU, Slot(ATTACH_COMPLETE, true), INITIAL_UE_MESSAGE,
              Slot(OFFERED_KEY_SET, true), Slot(OFFERED_ALGORITHM, true), EMPTY, EMPTY, 1)
  }

  function ChallengedContext(imsi: string): UeContext {
    BLANK_UE.(imsi := imsi, peerId := "peer", attach := AttachFlow(true, true, true, true, false, false, false, false),
              lastNas := Slot(AUTHENTICATION_RESPONSE, true), lastS1apProcedure := INITIAL_UE_MESSAGE,
              security := Slot(OFFERED_KEY_SET, true), algorithm := Slot(OFFERED_ALGORITHM, true), updatedAt := 1)
  }

  lemma AttachRunChallenges(imsi: string)
    requires Usable(imsi)
    ensures var run := AttachRun(imsi)[..2];
            imsi in RunStore(run) && RunStore(run)[imsi] == ChallengedContext(imsi)
  {
    var r1 := [] + [Sent(imsi, [ATTACH_REQUEST])];
    RunOneMore([], imsi, BLANK_UE, [ATTACH_REQUEST]);
    var asked := BLANK_UE.(imsi := imsi, peerId := "peer", attach := NO_ATTACH.(authRequestSent := true),
                           lastNas := Slot(ATTACH_REQUEST, true), lastS1apProcedure := INITIAL_UE_MESSAGE,
                           security := Slot(OFFERED_KEY_SET, true), updatedAt := 1);
    assert RunStore(r1)[imsi] == asked;
    RunOneMore(r1, imsi, asked, [AUTHENTICATION_RESPONSE, OFFERED_KEY_SET]);
    assert AttachRun(imsi)[..2] == r1 + [Sent(imsi, [AUTHENTICATION_RESPONSE, OFFERED_KEY_SET])];
  }

  function SecuredContext(imsi: string): UeContext {
    ChallengedContext(imsi).(attach := AttachFlow(true, true, true, true, true, true, false, false),
                             lastNas := Slot(SECURITY_MODE_COMPLETE, true))
  }

  lemma AttachRunSecures(imsi: string)
    requires Usable(imsi)
    ensures var run := AttachRun(imsi)[..3];
            imsi in RunStore(run) && RunStore(run)[imsi] == SecuredContext(imsi)
  {
    AttachRunChallenges(imsi);
    var r2 := AttachRun(imsi)[..2];
    RunOneMore(r2, imsi, ChallengedContext(imsi), [SECURITY_MODE_COMPLETE, OFFERED_KEY_SET]);
    assert AttachRun(imsi)[..3] == r2 + [Sent(imsi, [SECURITY_MODE_COMPLETE, OFFERED_KEY_SET])];
  }

  /** The documented attach sequence attaches any IMSI. */
  lemma AttachRunAttaches(imsi: string)
    requires Usable(imsi)
    ensures var run := AttachRun(imsi);
            Clocked(run) && imsi in RunStore(run) && RunStore(run)[imsi] == AttachedContext(imsi)
  {
    AttachRunSecures(imsi);
    var r3 := AttachRun(imsi)[..3];
    RunOneMore(r3, imsi, SecuredContext(imsi), [ATTACH_COMPLETE, OFFERED_KEY_SET]);
    assert r3 + [Sent(imsi, [ATTACH_COMPLETE, OFFERED_KEY_SET])] == AttachRun(imsi);
  }

  /** Tracking area code zero is stored by a tracking area update and refused at load. */
  lemma ZeroTrackingAreaReached(imsi: string)
    requires Usable(imsi)
    ensures var run := AttachRun(imsi) + [Sent(imsi, [TAU_REQUEST, OFFERED_KEY_SET, 0x00])];
            && Clocked(run) && imsi in RunStore(run)
            && ValidateLoadedUeContext(RunStore(run)[imsi]) == Some(ZeroTrackingArea)
  {
    AttachRunAttaches(imsi);
    RunOneMore(AttachRun(imsi), imsi, AttachedContext(imsi), [TAU_REQUEST, OFFERED_KEY_SET, 0x00]);
  }

  function ResumedRun(imsi: string, area: byte): seq<Arrival> {
    AttachRun(imsi)
    + [Sent(imsi, [TAU_REQUEST, OFFERED_KEY_SET, area])]
    + [Sent(imsi, [TAU_COMPLETE, OFFERED_KEY_SET])]
    + [Sent(imsi, [SERVICE_RESUME_REQUEST, OFFERED_KEY_SET, 0x00])]
  }

  function ResumedContext(imsi: string, area: byte): UeContext {
    AttachedContext(imsi).(
      service := ServiceFlow(false, false, true, true, true, false, false),
      lastNas := Slot(SERVICE_RESUME_REQUEST, true), bearer := Slot(DEFAULT_BEARER, true), area := Slot(area, true))
  }

  function UpdatedContext(imsi: string, area: byte): UeContext {
    AttachedContext(imsi).(tau := TauFlow(true, true, true), area := Slot(area, true),
                           lastNas := Slot(TAU_COMPLETE, true))
  }

  lemma ResumedRunUpdates(imsi: string, area: byte)
    requires Usable(imsi)
    ensures var run := ResumedRun(imsi, area)[..6];
            imsi in RunStore(run) && RunStore(run)[imsi] == UpdatedContext(imsi, area)
  {
    AttachRunAttaches(imsi);
    var r1 := AttachRun(imsi);
    RunOneMore(r1, imsi, AttachedContext(imsi), [TAU_REQUEST, OFFERED_KEY_SET, area]);
    var r2 := r1 + [Sent(imsi, [TAU_REQUEST, OFFERED_KEY_SET, area])];
    var asked := AttachedContext(imsi).(tau := TauFlow(true, true, false), area := Slot(area, true),
                                        lastNas := Slot(TAU_REQUEST, true));
    assert RunStore(r2)[imsi] == asked;
    RunOneMore(r2, imsi, asked, [TAU_COMPLETE, OFFERED_KEY_SET]);
    assert ResumedRun(imsi, area)[..6] == r2 + [Sent(imsi, [TAU_COMPLETE, OFFERED_KEY_SET])];
  }

  /** A tracking area update followed by a resume leaves the service active and the resume flag set. */
  lemma ResumedRunResumes(imsi: string, area: byte)
    requires Usable(imsi)
    ensures var run := ResumedRun(imsi, area);
            Clocked(run) && imsi in RunStore(run) && RunStore(run)[imsi] == ResumedContext(imsi, area)
  {
    ResumedRunUpdates(imsi, area);
    var run := ResumedRun(imsi, area)[..6];
    RunOneMore(run, imsi, UpdatedContext(imsi, area), [SERVICE_RESUME_REQUEST, OFFERED_KEY_SET, 0x00]);
    assert ResumedRun(imsi, area) == run + [Sent(imsi, [SERVICE_RESUME_REQUEST, OFFERED_KEY_SET, 0x00])];
  }

  /** A fresh attach over a resumed service leaves the resume flag behind, refused at load. */
  lemma StaleResumeReached(imsi: string, area: byte)
    requires Usable(imsi)
    ensures var run := ResumedRun(imsi, area) + [Sent(imsi, [ATTACH_REQUEST])];
            && Clocked(run) && imsi in RunStore(run)
            && ValidateLoadedUeContext(RunStore(run)[imsi]) == Some(ResumeWithoutActive)
  {
    ResumedRunResumes(imsi, area);
    RunOneMore(ResumedRun(imsi, area), imsi, ResumedContext(imsi, area), [ATTACH_REQUEST]);
  }

  /** So does a second Security Mode Complete over a resumed service. */
  lemma StaleResumeAfterSecurityMode(imsi: string, area: byte)
    requires Usable(imsi) && area != 0
    ensures var run := ResumedRun(imsi, area) + [Sent(imsi, [SECURITY_MODE_COMPLETE, OFFERED_KEY_SET])];
            && Clocked(run) && imsi in RunStore(run)
            && ValidateLoadedUeContext(RunStore(run)[imsi]) == Some(ResumeWithoutActive)
  {
    ResumedRunResumes(imsi, area);
    RunOneMore(ResumedRun(imsi, area), imsi, ResumedContext(imsi, area), [SECURITY_MODE_COMPLETE, OFFERED_KEY_SET]);
  }

  // ----- the condition on the start is exact -----

  /** Every run stays within the boundary. */
  ghost predicate StaysWithin(start: UeStore) {
    forall run, imsi :: Clocked(run) && imsi in RunFrom(start, run) ==>
                          ValidateLoadedUeContext(RunFrom(start, run)[imsi]) in BOUNDARY
  }

  /** A Tracking Area Update Complete takes an attached context without an area code out of the boundary. */
  lemma ArealessLeaves(start: UeStore, imsi: string)
    requires Admitted(start) && imsi in start && Usable(imsi) && Arealess(start[imsi])
    ensures var after := RunFrom(start, [Sent(imsi, [TAU_COMPLETE, start[imsi].security.value])]);
            imsi in after && ValidateLoadedUeContext(after[imsi]) == Some(TauWithoutAttach)
  {
    var c := start[imsi];
    var nas := [TAU_COMPLETE, c.security.value];
    assert KeySetOf(nas, TAU_COMPLETE) == Some(c.security.value);
    OneMoreFrom(start, [], imsi, c, nas);
    assert [] + [Sent(imsi, nas)] == [Sent(imsi, nas)];
  }

  lemma ArealessMeansLeaving(start: UeStore, imsi: string)
    requires Admitted(start) && imsi in start && Usable(imsi) && Arealess(start[imsi])
    ensures !StaysWithin(start)
  {
    var run := [Sent(imsi, [TAU_COMPLETE, start[imsi].security.value])];
    ArealessLeaves(start, imsi);
    assert Clocked(run) && imsi in RunFrom(start, run);
  }

  /**
    From a table the validator admitted, every run stays within the boundary exactly when no context that a
    message can reach is attached with a Tracking Area Update Accept sent and no area code.
   */
  lemma StaysWithinIffNoneArealess(start: UeStore)
    requires Admitted(start)
    ensures StaysWithin(start) <==> NoneArealess(start)
  {
    if NoneArealess(start) {
      forall run, imsi | Clocked(run) && imsi in RunFrom(start, run)
        ensures ValidateLoadedUeContext(RunFrom(start, run)[imsi]) in BOUNDARY
      {
        ReloadBoundary(start, run, imsi);
      }
    } else {
      var imsi :| imsi in start && Usable(imsi) && Arealess(start[imsi]);
      ArealessMeansLeaving(start, imsi);
    }
  }

  /** The validator admits such a context: an attached one whose accept flag was written by hand. */
  lemma ArealessIsAdmitted(imsi: string)
    requires imsi != ""
    ensures var c := AttachedContext(imsi).(tau := TauFlow(true, true, false));
            Admitted(map[imsi := c]) && Arealess(c)
  {
  }
}
