/**
  Handler threads over the PDP table, interleaved at mutex granularity: looking a context up and storing
  the edited copy are two critical sections, and other threads may run in between.
 */
module PdpInterleave {
  import opened Bytes
  import opened RuntimeStates
  import opened GtpHeaders
  import opened GtpRequests
  import opened Pdp
  import opened PdpHistory

  /** A thread starts on a datagram, up to its first critical section, or stores the copy it holds. */
  datatype Action = Begin(thread: nat, datagram: Datagram) | Commit(thread: nat)

  /** The shared table and, for each thread between its two sections, the copy it will store. */
  datatype State = State(store: Store, held: map<nat, PdpContext>)

  const INITIAL: State := State(map[], map[])

  /** Delete needs one section, create only the second; a modify that finds nothing stores nothing. */
  function Began(s: State, thread: nat, d: Datagram): State {
    match OpOf(d.packet)
    case CreateOp(h, r) => s.(held := s.held[thread := NewContext(h, r, d)])
    case ModifyOp(h, _, r) =>
      if h.teid in s.store then s.(held := s.held[thread := Edited(s.store[h.teid], h, r, d)]) else s
    case DeleteOp(h) => s.(store := s.store - {h.teid})
    case _ => s
  }

  /** Actions a thread cannot take in its present position leave the state alone. */
  function Next(s: State, a: Action): State {
    match a
    case Begin(t, d) => if t in s.held then s else Began(s, t, d)
    case Commit(t) =>
      if t in s.held then State(s.store[s.held[t].teid := s.held[t]], s.held - {t}) else s
  }

  function Execute(trace: seq<Action>): State {
    if trace == [] then INITIAL else Next(Execute(trace[..|trace| - 1]), trace[|trace| - 1])
  }

  // ----- safety under every interleaving -----

  ghost predicate Announced(trace: seq<Action>, teid: uint32) {
    exists i :: 0 <= i < |trace| && trace[i].Begin? && Creates(trace[i].datagram, teid)
  }

  /** Stored or held, a context carries its own nonzero TEID, and some create for that TEID has begun. */
  ghost predicate Safe(trace: seq<Action>, s: State) {
    && (forall teid | teid in s.store :: s.store[teid].teid == teid && teid != 0 && Announced(trace, teid))
    && (forall t | t in s.held :: s.held[t].teid != 0 && Announced(trace, s.held[t].teid))
  }

  lemma AnnouncedSnoc(trace: seq<Action>, a: Action, teid: uint32)
    ensures Announced(trace, teid) ==> Announced(trace + [a], teid)
    ensures a.Begin? && Creates(a.datagram, teid) ==> Announced(trace + [a], teid)
  {
    var more := trace + [a];
    if Announced(trace, teid) {
      var i :| 0 <= i < |trace| && trace[i].Begin? && Creates(trace[i].datagram, teid);
      assert more[i] == trace[i];
    }
    if a.Begin? && Creates(a.datagram, teid) {
      assert more[|trace|] == a;
    }
  }

  lemma NextIsSafe(trace: seq<Action>, s: State, a: Action)
    requires Safe(trace, s)
    ensures Safe(trace + [a], Next(s, a))
  {
    SafeStays(trace, s, a);
    if a.Begin? && a.thread !in s.held {
      BeganIsSafe(trace + [a], s, a.thread, a.datagram);
    }
  }

  lemma SafeStays(trace: seq<Action>, s: State, a: Action)
    requires Safe(trace, s)
    ensures Safe(trace + [a], s)
    ensures a.Begin? ==> forall teid: uint32 :: Creates(a.datagram, teid) ==> Announced(trace + [a], teid)
  {
    forall teid: uint32
      ensures Announced(trace, teid) ==> Announced(trace + [a], teid)
      ensures a.Begin? && Creates(a.datagram, teid) ==> Announced(trace + [a], teid)
    {
      AnnouncedSnoc(trace, a, teid);
    }
  }

  lemma BeganIsSafe(trace: seq<Action>, s: State, t: nat, d: Datagram)
    requires Safe(trace, s) && forall teid: uint32 :: Creates(d, teid) ==> Announced(trace, teid)
    ensures Safe(trace, Began(s, t, d))
  {
    if OpOf(d.packet).CreateOp? {
      assert Creates(d, AllocatedTeid(OpOf(d.packet).header));
    }
  }

  lemma {:induction false} EveryInterleavingIsSafe(trace: seq<Action>)
    ensures Safe(trace, Execute(trace))
  {
    if trace != [] {
      var init, a := trace[..|trace| - 1], trace[|trace| - 1];
      EveryInterleavingIsSafe(init);
      NextIsSafe(init, Execute(init), a);
      assert init + [a] == trace;
    }
  }

  // ----- handlers that do not overlap -----

  /** Each datagram handled to the end before the next begins. */
  function Serial(run: seq<Datagram>): seq<Action> {
    if run == [] then [] else Serial(run[..|run| - 1]) + [Begin(0, run[|run| - 1]), Commit(0)]
  }

  /** Without overlap, the interleaved table is the sequential one. */
  lemma {:induction false} SerialIsSequential(run: seq<Datagram>)
    ensures Execute(Serial(run)) == State(RunStore(run), map[])
  {
    if run != [] {
      var init, d := run[..|run| - 1], run[|run| - 1];
      SerialIsSequential(init);
      RunKeepsOwnTeids(map[], init);
      ExecuteTwo(Serial(init), Begin(0, d), Commit(0));
    }
  }

  // ----- handlers that overlap on different TEIDs -----

  predicate Targets(d: Datagram, teid: uint32) {
    Creates(d, teid) || Modifies(d, teid) || Deletes(d, teid)
  }

  ghost predicate Holds(s: State, teid: uint32) {
    exists t :: t in s.held && s.held[t].teid == teid
  }

  /** A thread begins on a TEID only while no other thread holds a copy of its context. */
  ghost predicate Separate(trace: seq<Action>) {
    trace == []
    || (var init, a := trace[..|trace| - 1], trace[|trace| - 1];
        && Separate(init)
        && (a.Begin? && a.thread !in Execute(init).held ==>
              forall teid: uint32 :: Targets(a.datagram, teid) ==> !Holds(Execute(init), teid)))
  }

  /** The datagrams whose handling has begun, in that order. */
  function Begun(trace: seq<Action>): seq<Datagram> {
    if trace == [] then []
    else
      var init, a := trace[..|trace| - 1], trace[|trace| - 1];
      Begun(init)
      + if a.Begin? && a.thread !in Execute(init).held then [a.datagram] else []
  }

  /** Each held copy is of a different context, and is what the settled table has for it. */
  ghost predicate HeldSettled(s: State, settled: Store) {
    && (forall t, u | t in s.held && u in s.held && t != u :: s.held[t].teid != s.held[u].teid)
    && (forall t | t in s.held :: s.held[t].teid in settled && settled[s.held[t].teid] == s.held[t])
  }

  /** The shared table with every held copy already stored. */
  ghost predicate Settles(s: State, settled: Store) {
    && HeldSettled(s, settled)
    && (forall teid: uint32 :: !Holds(s, teid) ==>
          (teid in s.store <==> teid in settled) && (teid in settled ==> s.store[teid] == settled[teid]))
  }

  lemma CommitSettles(s: State, t: nat, settled: Store)
    requires t in s.held && Settles(s, settled)
    ensures Settles(State(s.store[s.held[t].teid := s.held[t]], s.held - {t}), settled)
  {
    var after := State(s.store[s.held[t].teid := s.held[t]], s.held - {t});
    forall teid: uint32 | Holds(s, teid) && teid != s.held[t].teid
      ensures Holds(after, teid)
    {
      var u :| u in s.held && s.held[u].teid == teid;
      assert u in after.held;
    }
  }

  /** Beginning to store a context for a TEID nobody holds. */
  lemma HoldSettles(s: State, t: nat, c: PdpContext, settled: Store)
    requires t !in s.held && !Holds(s, c.teid) && Settles(s, settled)
    ensures Settles(s.(held := s.held[t := c]), settled[c.teid := c])
  {
    var after := s.(held := s.held[t := c]);
    NowHolds(s, t, c);
    HeldStaySettled(s, t, c, settled);
    assert forall teid: uint32 :: !Holds(after, teid) ==> teid != c.teid && !Holds(s, teid);
  }

  lemma HeldStaySettled(s: State, t: nat, c: PdpContext, settled: Store)
    requires t !in s.held && !Holds(s, c.teid) && HeldSettled(s, settled)
    ensures HeldSettled(s.(held := s.held[t := c]), settled[c.teid := c])
  {
    forall u | u in s.held
      ensures s.held[u].teid != c.teid
    {
      assert Holds(s, s.held[u].teid);
    }
  }

  lemma NowHolds(s: State, t: nat, c: PdpContext)
    requires t !in s.held
    ensures forall teid: uint32 :: teid == c.teid || Holds(s, teid) ==> Holds(s.(held := s.held[t := c]), teid)
  {
    var after := s.(held := s.held[t := c]);
    assert t in after.held;
    forall teid: uint32 | Holds(s, teid)
      ensures Holds(after, teid)
    {
      var u :| u in s.held && s.held[u].teid == teid;
      assert u in after.held;
    }
  }

  lemma BeginSettles(s: State, t: nat, d: Datagram, settled: Store)
    requires t !in s.held && Settles(s, settled) && OwnTeids(settled)
    requires forall teid: uint32 :: Targets(d, teid) ==> !Holds(s, teid)
    ensures Settles(Began(s, t, d), Apply(settled, d))
  {
    match OpOf(d.packet) {
      case CreateOp(h, r) =>
        assert Targets(d, AllocatedTeid(h));
        HoldSettles(s, t, NewContext(h, r, d), settled);
      case ModifyOp(h, _, r) =>
        assert Targets(d, h.teid);
        if h.teid in s.store {
          HoldSettles(s, t, Edited(s.store[h.teid], h, r, d), settled);
        }
      case DeleteOp(h) =>
        assert Targets(d, h.teid);
      case _ =>
    }
  }

  /**
    If handlers of one TEID never overlap, every interleaving settles to the sequential table of the
    datagrams in the order their handling began.
   */
  lemma {:induction false} SeparateTracesAreSequential(trace: seq<Action>)
    requires Separate(trace)
    ensures Settles(Execute(trace), RunStore(Begun(trace)))
    ensures Execute(trace).held == map[] ==> Execute(trace).store == RunStore(Begun(trace))
  {
    if trace != [] {
      var init, a := trace[..|trace| - 1], trace[|trace| - 1];
      var s, run := Execute(init), Begun(init);
      SeparateTracesAreSequential(init);
      RunKeepsOwnTeids(map[], run);
      if a.Commit? && a.thread in s.held {
        CommitSettles(s, a.thread, RunStore(run));
        assert run + [] == run;
      } else if a.Begin? && a.thread !in s.held {
        BeginSettles(s, a.thread, a.datagram, RunStore(run));
      } else {
        assert run + [] == run;
      }
    }
    NothingHeld(Execute(trace), RunStore(Begun(trace)));
  }

  lemma NothingHeld(s: State, settled: Store)
    requires Settles(s, settled)
    ensures s.held == map[] ==> s.store == settled
  {
    if s.held == map[] {
      assert forall teid: uint32 :: !Holds(s, teid);
    }
  }

  // ----- handlers that overlap on one TEID -----

  /** What a thread last began on, and the table its first section found. */
  datatype Opening = Opening(datagram: Datagram, store: Store)

  function Started(trace: seq<Action>, thread: nat): Option<Opening> {
    if trace == [] then None
    else
      var init, a := trace[..|trace| - 1], trace[|trace| - 1];
      if a.Begin? && a.thread == thread && thread !in Execute(init).held then
        Some(Opening(a.datagram, Execute(init).store))
      else Started(init, thread)
  }

  /** The copy a thread holds: a new context, or the one it looked up, edited. */
  predicate CopyOf(c: PdpContext, o: Opening) {
    match OpOf(o.datagram.packet)
    case CreateOp(h, r) => c == NewContext(h, r, o.datagram)
    case ModifyOp(h, _, r) =>
      && h.teid in o.store && o.store[h.teid].teid == h.teid
      && c == Edited(o.store[h.teid], h, r, o.datagram)
    case _ => false
  }

  lemma BeganIsCopy(s: State, t: nat, d: Datagram)
    requires OwnTeids(s.store) && t !in s.held && t in Began(s, t, d).held
    ensures CopyOf(Began(s, t, d).held[t], Opening(d, s.store))
  {
  }

  lemma {:induction false} HeldIsCopy(trace: seq<Action>, t: nat)
    requires t in Execute(trace).held
    ensures Started(trace, t).Some? && CopyOf(Execute(trace).held[t], Started(trace, t).value)
  {
    var init, a := trace[..|trace| - 1], trace[|trace| - 1];
    if t in Execute(init).held {
      HeldIsCopy(init, t);
    } else {
      EveryInterleavingIsSafe(init);
      BeganIsCopy(Execute(init), t, a.datagram);
    }
  }

  /** Two contexts agree on everything a modify leaves as it finds it. */
  predicate SameUnsupplied(a: PdpContext, b: PdpContext, r: Request) {
    && (r.hasImsi || a.imsi == b.imsi)
    && (r.hasApn || a.apn == b.apn)
    && (r.hasGgsnIp || a.ggsnIp == b.ggsnIp)
    && (r.hasPdpType || (a.pdpType == b.pdpType && a.hasPdpType == b.hasPdpType))
  }

  /** A modify that stores now finds its context still there, the fields it does not supply as it looked them up. */
  predicate StillFits(now: Store, o: Opening) {
    match OpOf(o.datagram.packet)
    case ModifyOp(h, _, r) =>
      h.teid in now && h.teid in o.store && SameUnsupplied(now[h.teid], o.store[h.teid], r)
    case _ => true
  }

  /** Every modify stores where it still fits. */
  predicate Calm(trace: seq<Action>) {
    trace == []
    || (var init, a := trace[..|trace| - 1], trace[|trace| - 1];
        && Calm(init)
        && (a.Commit? && a.thread in Execute(init).held && Started(init, a.thread).Some? ==>
              StillFits(Execute(init).store, Started(init, a.thread).value)))
  }

  /** Whether an action is the last section of its handler. */
  predicate Ends(s: State, a: Action) {
    match a
    case Begin(t, d) => t !in s.held && t !in Began(s, t, d).held
    case Commit(t) => t in s.held
  }

  /** The datagrams whose handling has ended, in that order. */
  function Ended(trace: seq<Action>): seq<Datagram> {
    if trace == [] then []
    else
      var init, a := trace[..|trace| - 1], trace[|trace| - 1];
      var s := Execute(init);
      if !Ends(s, a) then Ended(init)
      else
        match a
        case Begin(_, d) => Ended(init) + [d]
        case Commit(t) =>
          if Started(init, t).Some? then Ended(init) + [Started(init, t).value.datagram] else Ended(init)
  }

  /** The shared table is the sequential table of the datagrams in the order their last sections ran. */
  predicate InStep(trace: seq<Action>) {
    Execute(trace).store == RunStore(Ended(trace))
  }

  /** So it is at every moment. */
  predicate Sequential(trace: seq<Action>) {
    forall n :: 0 <= n <= |trace| ==> InStep(trace[..n])
  }

  /**
    A trace is sequential at every moment exactly when every modify, as it stores, finds its context still there
    with the fields it does not supply as it looked them up. Handlers may overlap otherwise, also on one TEID.
   */
  lemma {:induction false} CalmIffSequential(trace: seq<Action>)
    ensures Calm(trace) <==> Sequential(trace)
  {
    if trace == [] {
      assert trace[..0] == [];
    } else {
      var init, a := trace[..|trace| - 1], trace[|trace| - 1];
      CalmIffSequential(init);
      SequentialSnoc(trace);
      if InStep(init) {
        StepStaysInStep(trace, init, a);
      } else {
        assert init[..|init|] == init;
      }
    }
  }

  lemma SequentialSnoc(trace: seq<Action>)
    requires trace != []
    ensures Sequential(trace) <==> Sequential(trace[..|trace| - 1]) && InStep(trace)
  {
    var init := trace[..|trace| - 1];
    assert trace[..|trace|] == trace;
    forall n | 0 <= n <= |init|
      ensures init[..n] == trace[..n]
    {
    }
    assert forall n :: 0 <= n <= |trace| ==> n <= |init| || trace[..n] == trace;
  }

  lemma StepStaysInStep(trace: seq<Action>, init: seq<Action>, a: Action)
    requires trace != [] && init == trace[..|trace| - 1] && a == trace[|trace| - 1] && InStep(init)
    ensures InStep(trace) <==>
            (a.Commit? && a.thread in Execute(init).held && Started(init, a.thread).Some? ==>
               StillFits(Execute(init).store, Started(init, a.thread).value))
  {
    var s := Execute(init);
    match a {
      case Begin(t, d) => BeginLinearises(s, t, d, Ended(init));
      case Commit(t) =>
        if t in s.held {
          HeldIsCopy(init, t);
          RunKeepsOwnTeids(map[], Ended(init));
          var o := Started(init, t).value;
          RunSnoc(Ended(init), o.datagram);
          CommitApplies(s.store, s.held[t], o);
          assert s.held[t].teid in Next(s, a).store;
        }
    }
  }

  /** Storing a copy does what its datagram does to the present table exactly when the copy still fits. */
  lemma CommitApplies(now: Store, c: PdpContext, o: Opening)
    requires CopyOf(c, o) && OwnTeids(now)
    ensures now[c.teid := c] == Apply(now, o.datagram) <==> StillFits(now, o)
  {
    if OpOf(o.datagram.packet).ModifyOp? {
      var h, r := OpOf(o.datagram.packet).header, OpOf(o.datagram.packet).request;
      if h.teid in now {
        EditsAgree(now[h.teid], o.store[h.teid], h, r, o.datagram);
        SameStore(now, h.teid, c, Edited(now[h.teid], h, r, o.datagram));
      }
    }
  }

  lemma EditsAgree(a: PdpContext, b: PdpContext, h: Header, r: Request, d: Datagram)
    requires a.teid == b.teid
    ensures Edited(a, h, r, d) == Edited(b, h, r, d) <==> SameUnsupplied(a, b, r)
  {
  }

  lemma SameStore(now: Store, teid: uint32, c: PdpContext, d: PdpContext)
    ensures now[teid := c] == now[teid := d] <==> c == d
  {
    assert now[teid := c][teid] == c && now[teid := d][teid] == d;
  }

  // ----- a guard on the actions -----

  /** The thread is between the two sections of a modify of this TEID. */
  predicate Editing(trace: seq<Action>, t: nat, teid: uint32) {
    t in Execute(trace).held && Started(trace, t).Some? && Modifies(Started(trace, t).value.datagram, teid)
  }

  /** The action stores a context for the TEID or removes it. */
  predicate Touches(s: State, a: Action, teid: uint32) {
    match a
    case Begin(t, d) => t !in s.held && Deletes(d, teid)
    case Commit(t) => t in s.held && s.held[t].teid == teid
  }

  /** The action leaves every context alone that another thread is editing. */
  ghost predicate LeavesEdited(trace: seq<Action>, a: Action) {
    forall t: nat, teid: uint32 | Editing(trace, t, teid) && t != a.thread :: !Touches(Execute(trace), a, teid)
  }

  /** Between the two sections of a modify no other thread stores or removes its context. */
  ghost predicate Guarded(trace: seq<Action>) {
    trace == []
    || (Guarded(trace[..|trace| - 1]) && LeavesEdited(trace[..|trace| - 1], trace[|trace| - 1]))
  }

  lemma UntouchedStays(s: State, a: Action, t: nat, teid: uint32)
    requires t in s.held && t in Next(s, a).held && (t != a.thread ==> !Touches(s, a, teid))
    ensures teid in Next(s, a).store <==> teid in s.store
    ensures teid in s.store ==> Next(s, a).store[teid] == s.store[teid]
  {
  }

  /** A guarded modify sees its context unchanged until it stores. */
  lemma {:induction false} GuardedSeesNoChange(trace: seq<Action>, t: nat, teid: uint32)
    requires Guarded(trace) && Editing(trace, t, teid)
    ensures var looked := Started(trace, t).value.store;
            teid in looked && teid in Execute(trace).store && Execute(trace).store[teid] == looked[teid]
  {
    var init, a := trace[..|trace| - 1], trace[|trace| - 1];
    if t in Execute(init).held {
      assert Started(trace, t) == Started(init, t);
      assert Editing(init, t, teid) && LeavesEdited(init, a);
      GuardedSeesNoChange(init, t, teid);
      UntouchedStays(Execute(init), a, t, teid);
    }
  }

  lemma {:induction false} GuardedIsCalm(trace: seq<Action>)
    requires Guarded(trace)
    ensures Calm(trace)
  {
    if trace != [] {
      var init, a := trace[..|trace| - 1], trace[|trace| - 1];
      GuardedIsCalm(init);
      if a.Commit? && a.thread in Execute(init).held {
        HeldIsCopy(init, a.thread);
        var d := Started(init, a.thread).value.datagram;
        if OpOf(d.packet).ModifyOp? {
          GuardedSeesNoChange(init, a.thread, OpOf(d.packet).header.teid);
        }
      }
    }
  }

  /**
    If no other thread stores or removes a context between the two sections of a modify of it, the shared table is
    at every moment a sequential one.
   */
  lemma GuardedIsSequential(trace: seq<Action>)
    requires Guarded(trace)
    ensures Sequential(trace)
  {
    GuardedIsCalm(trace);
    CalmIffSequential(trace);
  }

  lemma BeginLinearises(s: State, t: nat, d: Datagram, run: seq<Datagram>)
    requires s.store == RunStore(run)
    ensures Next(s, Begin(t, d)).store == if Ends(s, Begin(t, d)) then RunStore(run + [d]) else RunStore(run)
  {
    RunSnoc(run, d);
    if t !in s.held {
      LastSectionApplies(s, t, d);
    }
  }

  /** A handler that is over after its first section has done all its datagram does. */
  lemma LastSectionApplies(s: State, t: nat, d: Datagram)
    requires t !in s.held
    ensures Began(s, t, d).store == if t in Began(s, t, d).held then s.store else Apply(s.store, d)
  {
  }

  lemma RunSnoc(run: seq<Datagram>, d: Datagram)
    ensures RunStore(run + [d]) == Apply(RunStore(run), d)
  {
    assert (run + [d])[..|run|] == run;
  }

  lemma ExecuteSnoc(trace: seq<Action>, a: Action)
    ensures Execute(trace + [a]) == Next(Execute(trace), a)
  {
    assert (trace + [a])[..|trace|] == trace;
  }

  lemma ExecuteTwo(trace: seq<Action>, a: Action, b: Action)
    ensures Execute(trace + [a, b]) == Next(Next(Execute(trace), a), b)
  {
    var one := trace + [a];
    assert trace + [a, b] == one + [b];
    assert Execute(one) == Next(Execute(trace), a) by { ExecuteSnoc(trace, a); }
    ExecuteSnoc(one, b);
  }

  lemma RunOfThree(a: Datagram, b: Datagram, c: Datagram)
    ensures RunStore([a, b, c]) == Apply(Apply(Apply(map[], a), b), c)
  {
    RunSnoc([], a);
    RunSnoc([a], b);
    RunSnoc([a, b], c);
    assert [] + [a] == [a] && [a] + [b] == [a, b] && [a, b] + [c] == [a, b, c];
  }

  // ----- what overlapping handlers can do -----

  /** Modify looks the context up, delete removes it, modify stores its copy. */
  function Resurrection(creator: Datagram, editor: Datagram, deleter: Datagram): seq<Action> {
    [Begin(1, creator), Commit(1)] + [Begin(1, editor), Begin(2, deleter)] + [Commit(1)]
  }

  /**
    A context deleted while an edit of it is under way comes back, although both sequential orders that
    respect the completed create leave it deleted.
   */
  lemma DeletedContextReturns(creator: Datagram, editor: Datagram, deleter: Datagram, teid: uint32)
    requires Creates(creator, teid) && Modifies(editor, teid) && Deletes(deleter, teid)
    ensures teid in Execute(Resurrection(creator, editor, deleter)).store
    ensures teid !in RunStore([creator, editor, deleter])
    ensures teid !in RunStore([creator, deleter, editor])
  {
    var one := [Begin(1, creator), Commit(1)];
    var two := one + [Begin(1, editor), Begin(2, deleter)];
    ExecuteTwo([], Begin(1, creator), Commit(1));
    assert [] + one == one;
    ExecuteTwo(one, Begin(1, editor), Begin(2, deleter));
    ExecuteSnoc(two, Commit(1));
    assert two + [Commit(1)] == Resurrection(creator, editor, deleter);
    Resurrects(Execute(one), creator, editor, deleter, teid);
    StaysDeleted(creator, editor, deleter, teid);
  }

  lemma StaysDeleted(creator: Datagram, editor: Datagram, deleter: Datagram, teid: uint32)
    requires Creates(creator, teid) && Modifies(editor, teid) && Deletes(deleter, teid)
    ensures teid !in RunStore([creator, editor, deleter])
    ensures teid !in RunStore([creator, deleter, editor])
  {
    RunOfThree(creator, editor, deleter);
    RunOfThree(creator, deleter, editor);
  }

  lemma Resurrects(s: State, creator: Datagram, editor: Datagram, deleter: Datagram, teid: uint32)
    requires Creates(creator, teid) && Modifies(editor, teid) && Deletes(deleter, teid)
    requires s == Next(Next(INITIAL, Begin(1, creator)), Commit(1))
    ensures teid in Next(Next(Next(s, Begin(1, editor)), Begin(2, deleter)), Commit(1)).store
  {
    assert s.held == map[] && teid in s.store && s.store[teid].teid == teid;
  }

  function Imsi(store: Store, teid: uint32): Option<string> {
    if teid in store then Some(store[teid].imsi) else None
  }

  /** Two edits of one context look it up before either stores. */
  function LostUpdate(creator: Datagram, first: Datagram, second: Datagram): seq<Action> {
    [Begin(1, creator), Commit(1)] + [Begin(1, first), Begin(2, second)] + [Commit(1), Commit(2)]
  }

  /**
    Of two overlapping edits, the IMSI the first one supplied is lost: the table keeps the created one, although
    both sequential orders that respect the completed create keep the edited one.
   */
  lemma EditIsLost(creator: Datagram, first: Datagram, second: Datagram, teid: uint32)
    requires Creates(creator, teid) && Modifies(first, teid) && Modifies(second, teid)
    requires OpOf(first.packet).request.hasImsi && !OpOf(second.packet).request.hasImsi
    ensures Imsi(Execute(LostUpdate(creator, first, second)).store, teid) == Some(OpOf(creator.packet).request.imsi)
    ensures Imsi(RunStore([creator, first, second]), teid) == Some(OpOf(first.packet).request.imsi)
    ensures Imsi(RunStore([creator, second, first]), teid) == Some(OpOf(first.packet).request.imsi)
  {
    var one := [Begin(1, creator), Commit(1)];
    var two := one + [Begin(1, first), Begin(2, second)];
    ExecuteTwo([], Begin(1, creator), Commit(1));
    assert [] + one == one;
    ExecuteTwo(one, Begin(1, first), Begin(2, second));
    ExecuteTwo(two, Commit(1), Commit(2));
    assert two + [Commit(1), Commit(2)] == LostUpdate(creator, first, second);
    Loses(Execute(one), creator, first, second, teid);
    Keeps(creator, first, second, teid);
  }

  lemma Keeps(creator: Datagram, first: Datagram, second: Datagram, teid: uint32)
    requires Creates(creator, teid) && Modifies(first, teid) && Modifies(second, teid)
    requires OpOf(first.packet).request.hasImsi && !OpOf(second.packet).request.hasImsi
    ensures Imsi(RunStore([creator, first, second]), teid) == Some(OpOf(first.packet).request.imsi)
    ensures Imsi(RunStore([creator, second, first]), teid) == Some(OpOf(first.packet).request.imsi)
  {
    RunOfThree(creator, first, second);
    RunOfThree(creator, second, first);
  }

  lemma Loses(s: State, creator: Datagram, first: Datagram, second: Datagram, teid: uint32)
    requires Creates(creator, teid) && Modifies(first, teid) && Modifies(second, teid)
    requires !OpOf(second.packet).request.hasImsi
    requires s == Next(Next(INITIAL, Begin(1, creator)), Commit(1))
    ensures var after := Next(Next(Next(Next(s, Begin(1, first)), Begin(2, second)), Commit(1)), Commit(2)).store;
            Imsi(after, teid) == Some(OpOf(creator.packet).request.imsi)
  {
    assert s.held == map[] && teid in s.store && s.store[teid].teid == teid;
  }
}
