/** The PDP table as a function of the datagrams received. */
module PdpHistory {
  import opened Bytes
  import opened RuntimeStates
  import opened Pdp

  // ----- presence -----

  predicate Creates(d: Datagram, teid: uint32) {
    OpOf(d.packet).CreateOp? && AllocatedTeid(OpOf(d.packet).header) == teid
  }

  predicate Modifies(d: Datagram, teid: uint32) {
    OpOf(d.packet).ModifyOp? && OpOf(d.packet).header.teid == teid
  }

  predicate Deletes(d: Datagram, teid: uint32) {
    OpOf(d.packet).DeleteOp? && OpOf(d.packet).header.teid == teid
  }

  /** The datagram at `i` created the TEID and nothing later deleted it. */
  predicate LiveSince(run: seq<Datagram>, teid: uint32, i: nat) {
    i < |run| && Creates(run[i], teid) && forall j :: i < j < |run| ==> !Deletes(run[j], teid)
  }

  /** Live at the end of a run from a given table: created and kept, or there from the start and never deleted. */
  ghost predicate Live(start: Store, run: seq<Datagram>, teid: uint32) {
    || (exists i :: LiveSince(run, teid, i))
    || (teid in start && forall j :: 0 <= j < |run| ==> !Deletes(run[j], teid))
  }

  lemma LiveSnoc(start: Store, run: seq<Datagram>, d: Datagram, teid: uint32)
    ensures Live(start, run + [d], teid) <==> Creates(d, teid) || (Live(start, run, teid) && !Deletes(d, teid))
  {
    var more := run + [d];
    assert forall i :: 0 <= i < |run| ==> more[i] == run[i];
    assert more[|run|] == d;
    if Creates(d, teid) {
      assert LiveSince(more, teid, |run|);
    }
    if i :| LiveSince(run, teid, i) && !Deletes(d, teid) {
      assert LiveSince(more, teid, i);
    }
    if i :| LiveSince(more, teid, i) && !Creates(d, teid) {
      assert LiveSince(run, teid, i);
    }
  }

  /**
    A TEID is in the table exactly when some accepted Create allocated it and no later Delete named it, or
    it was there at the start and no Delete named it.
   */
  lemma {:induction false} PresentIffLive(start: Store, run: seq<Datagram>, teid: uint32)
    ensures teid in RunFrom(start, run) <==> Live(start, run, teid)
  {
    if run != [] {
      var init, d := run[..|run| - 1], run[|run| - 1];
      PresentIffLive(start, init, teid);
      LiveSnoc(start, init, d, teid);
      assert init + [d] == run;
    }
  }

  /** A modify or delete is answered with acceptance exactly when its TEID is live; so answers tell the truth. */
  lemma CauseTellsPresence(start: Store, run: seq<Datagram>, d: Datagram)
    requires OpOf(d.packet).ModifyOp? || OpOf(d.packet).DeleteOp?
    ensures var teid := OpOf(d.packet).header.teid;
            var answer := Answer(RunFrom(start, run), d);
            && answer.Some? && answer.value != []
            && answer.value[|answer.value| - 1] == (if Live(start, run, teid) then ACCEPTED else NOT_FOUND)
  {
    PresentIffLive(start, run, OpOf(d.packet).header.teid);
  }

  // ----- field values -----

  /** The latest value that some datagram supplied, or else what was there before. */
  function Latest<T>(run: seq<Datagram>, supply: Datagram -> Option<T>, before: Option<T>): Option<T> {
    if run == [] then before
    else
      match supply(run[|run| - 1])
      case Some(v) => Some(v)
      case None => Latest(run[..|run| - 1], supply, before)
  }

  /** What every accepted Create or modify supplies: sequence, message type, sender, time. */
  function Stamp(d: Datagram, teid: uint32): Option<(uint16, byte, string, int)> {
    if Creates(d, teid) || Modifies(d, teid) then
      var h := OpOf(d.packet).header;
      Some((h.sequence, h.messageType, d.peerIp, d.now))
    else None
  }

  function SuppliedImsi(d: Datagram, teid: uint32): Option<string> {
    if Creates(d, teid) || (Modifies(d, teid) && OpOf(d.packet).request.hasImsi) then
      Some(OpOf(d.packet).request.imsi)
    else None
  }

  function SuppliedApn(d: Datagram, teid: uint32): Option<string> {
    if Creates(d, teid) then Some(d.choose(OpOf(d.packet).request.imsi, OpOf(d.packet).request.apn))
    else if Modifies(d, teid) && OpOf(d.packet).request.hasApn then Some(OpOf(d.packet).request.apn)
    else None
  }

  function SuppliedGgsn(d: Datagram, teid: uint32): Option<string> {
    if Creates(d, teid) || (Modifies(d, teid) && OpOf(d.packet).request.hasGgsnIp) then
      Some(OpOf(d.packet).request.ggsnIp)
    else None
  }

  function SuppliedPdpType(d: Datagram, teid: uint32): Option<(byte, bool)> {
    if Creates(d, teid) || (Modifies(d, teid) && OpOf(d.packet).request.hasPdpType) then
      Some((OpOf(d.packet).request.pdpType, OpOf(d.packet).request.hasPdpType))
    else None
  }

  function Before<T>(start: Store, teid: uint32, field: PdpContext -> T): Option<T> {
    if teid in start then Some(field(start[teid])) else None
  }

  /** Each field holds the latest value supplied for the TEID, or else its first one; a Create supplies all of them. */
  ghost predicate HoldsLatest(start: Store, run: seq<Datagram>, teid: uint32, c: PdpContext) {
    && c.teid == teid
    && Latest(run, d => Stamp(d, teid), Before(start, teid, StampOf)) == Some(StampOf(c))
    && Latest(run, d => SuppliedImsi(d, teid), Before(start, teid, (b: PdpContext) => b.imsi)) == Some(c.imsi)
    && Latest(run, d => SuppliedApn(d, teid), Before(start, teid, (b: PdpContext) => b.apn)) == Some(c.apn)
    && Latest(run, d => SuppliedGgsn(d, teid), Before(start, teid, (b: PdpContext) => b.ggsnIp)) == Some(c.ggsnIp)
    && Latest(run, d => SuppliedPdpType(d, teid), Before(start, teid, TypeOf)) == Some(TypeOf(c))
  }

  function StampOf(c: PdpContext): (uint16, byte, string, int) {
    (c.sequence, c.lastMessageType, c.peerIp, c.updatedAt)
  }

  function TypeOf(c: PdpContext): (byte, bool) {
    (c.pdpType, c.hasPdpType)
  }

  lemma {:induction false} FieldsHoldLatest(start: Store, run: seq<Datagram>, teid: uint32)
    requires OwnTeids(start) && teid in RunFrom(start, run)
    ensures HoldsLatest(start, run, teid, RunFrom(start, run)[teid])
  {
    if run != [] {
      var init, d := run[..|run| - 1], run[|run| - 1];
      if teid in RunFrom(start, init) {
        FieldsHoldLatest(start, init, teid);
      }
      RunKeepsOwnTeids(start, run);
      FieldsStep(start, run, teid, RunFrom(start, init));
    }
  }

  lemma FieldsStep(start: Store, run: seq<Datagram>, teid: uint32, before: Store)
    requires run != [] && teid in Apply(before, run[|run| - 1]) && Apply(before, run[|run| - 1])[teid].teid == teid
    requires teid in before ==> HoldsLatest(start, run[..|run| - 1], teid, before[teid])
    ensures HoldsLatest(start, run, teid, Apply(before, run[|run| - 1])[teid])
  {
  }
}
