/** The runtime snapshot printer: which lines `saveRuntimeStateToFile` writes. */
module SnapshotPrint {
  import opened Bytes
  import opened Texts
  import opened JsonText
  import opened JsonLines
  import opened RuntimeStates
  import opened Mme
  import opened SnapshotNames

  const SCHEMA_VERSION := 2
  const IFACES := "interface_admin_state"
  const PDPS := "pdp_contexts"
  const UES := "ue_contexts"

  // ----- time stamps -----

  /** `strftime` and `get_time`/`mktime` for one time zone, kept abstract. */
  datatype Clock = Clock(format: int -> string, parse: string -> Option<int>)

  predicate StampChar(c: char) {
    IsDigit(c) || c == '-' || c == ':' || c == ' '
  }

  /** Formatting writes digits, dashes, colons and blanks, and parsing undoes it on nonzero times. */
  ghost predicate Faithful(clock: Clock) {
    forall t: int :: t != 0 ==>
      && clock.format(t) != ""
      && (forall i :: 0 <= i < |clock.format(t)| ==> StampChar(clock.format(t)[i]))
      && clock.parse(clock.format(t)) == Some(t)
  }

  /** Signed decimal numerals make such a clock. */
  const SIGNED_CLOCK: Clock := Clock((t: int) => SignedText(t), (s: string) => SignedNumber(s))

  function SignedText(t: int): string {
    if t < 0 then "-" + Decimal(-t) else Decimal(t)
  }

  function SignedNumber(s: string): Option<int> {
    if DigitsOnly(s) then Some(NumberOf(s))
    else if s != "" && AllDigits(s[1..]) then Some(0 - NumberOf(s[1..]))
    else None
  }

  lemma SignedRoundTrip(t: int)
    ensures SignedText(t) != "" && (forall i :: 0 <= i < |SignedText(t)| ==> StampChar(SignedText(t)[i]))
    ensures SignedNumber(SignedText(t)) == Some(t)
  {
    if t < 0 {
      var d := Decimal(-t);
      assert ("-" + d)[0] == '-' && ("-" + d)[1..] == d;
    }
  }

  lemma SomeClockIsFaithful()
    ensures Faithful(SIGNED_CLOCK)
  {
    forall t: int | t != 0
      ensures SIGNED_CLOCK.format(t) == SignedText(t) && SIGNED_CLOCK.parse(SignedText(t)) == Some(t)
      ensures SignedText(t) != "" && forall i :: 0 <= i < |SignedText(t)| ==> StampChar(SignedText(t)[i])
    {
      SignedRoundTrip(t);
    }
  }

  function FormatTimestamp(clock: Clock, t: int): string {
    if t == 0 then "n/a" else clock.format(t)
  }

  function ParseTimestamp(clock: Clock, s: string): Option<int> {
    if s == "" || s == "n/a" then Some(0) else clock.parse(s)
  }

  lemma StampRoundTrip(clock: Clock, t: int)
    requires Faithful(clock)
    ensures var s := FormatTimestamp(clock, t); ParseTimestamp(clock, s) == Some(t) && Decodable(s)
  {
    var s := FormatTimestamp(clock, t);
    if t != 0 {
      assert StampChar(s[0]) && StampChar(s[|s| - 1]);
      assert s != "n/a";
    }
  }

  /** A time stamp ends in a digit, a mark or the letter a, which no array name does. */
  lemma StampIsNoName(clock: Clock, t: int)
    requires Faithful(clock)
    ensures var s := FormatTimestamp(clock, t); !Fakes(s, IFACES) && !Fakes(s, PDPS) && !Fakes(s, UES)
  {
    var s := FormatTimestamp(clock, t);
    assert s[|s| - 1] == 'a' || StampChar(s[|s| - 1]);
  }

  // ----- the derived flow name, written but never read -----

  function AuthFlowState(c: UeContext): string {
    if c.detach.detached || c.detach.acceptSent then "detached"
    else if c.service.resumeAcceptSent then "service-resume-accept-sent"
    else if c.tau.completeReceived then "tau-updated"
    else if c.tau.acceptSent then "tau-accept-sent"
    else if c.service.active then "service-active"
    else if c.service.releaseCompleteSent then "attached-idle"
    else if c.service.acceptSent then "service-accept-sent"
    else if c.attach.attached || c.attach.attachCompleteReceived then "attach-complete"
    else if c.attach.attachAcceptSent then "attach-accept-sent"
    else if c.attach.securityModeComplete then "security-mode-complete"
    else if c.attach.securityModeCommandSent then "security-mode-command-sent"
    else if c.attach.authenticated then "authentication-complete"
    else if c.attach.authResponseReceived then "authentication-response-received"
    else if c.attach.authRequestSent then "authentication-request-sent"
    else if c.lastNas == Slot(ATTACH_REQUEST, true) then "attach-request-received"
    else "idle"
  }

  // ----- the fields of each record -----

  const INDENT := "      "

  /** One field a line; every line but the last ends in a comma. */
  function FieldLines(names: seq<string>, values: seq<Value>): (fs: seq<Line>)
    requires |names| == |values|
    ensures |fs| == |names|
    ensures forall i :: 0 <= i < |fs| ==> fs[i] == Field(INDENT, names[i], values[i], i + 1 < |names|)
  {
    seq(|names|, i requires 0 <= i < |names| => Field(INDENT, names[i], values[i], i + 1 < |names|))
  }

  /** No value is an opening bracket. */
  predicate Plainly(vs: seq<Value>) {
    forall i :: 0 <= i < |vs| ==> !vs[i].Open?
  }

  function IfaceValues(name: string, adminUp: bool): (vs: seq<Value>)
    ensures |vs| == 2 && Plainly(vs)
  {
    [Text(name), Flag(adminUp)]
  }

  function PdpValues(c: PdpContext, clock: Clock): (vs: seq<Value>)
    ensures |vs| == PDP_FIELDS && Plainly(vs)
  {
    [Number(c.teid), Number(c.sequence), Number(c.pdpType), Flag(c.hasPdpType), Number(c.lastMessageType),
     Text(c.peerIp), Text(c.ggsnIp), Text(c.imsi), Text(c.apn), Text(FormatTimestamp(clock, c.updatedAt))]
  }

  function IdentityValues(c: UeContext): (vs: seq<Value>)
    ensures |vs| == 3 && Plainly(vs)
  {
    [Text(c.imsi), Text(c.guti), Text(c.peerId)]
  }

  function AttachValues(a: AttachFlow): (vs: seq<Value>)
    ensures |vs| == 8 && Plainly(vs)
  {
    [Flag(a.authenticated), Flag(a.authRequestSent), Flag(a.authResponseReceived),
     Flag(a.securityModeCommandSent), Flag(a.securityModeComplete), Flag(a.attachAcceptSent),
     Flag(a.attachCompleteReceived), Flag(a.attached)]
  }

  function ServiceValues(s: ServiceFlow): (vs: seq<Value>)
    ensures |vs| == 7 && Plainly(vs)
  {
    [Flag(s.requestReceived), Flag(s.acceptSent), Flag(s.active), Flag(s.resumeRequestReceived),
     Flag(s.resumeAcceptSent), Flag(s.releaseRequestReceived), Flag(s.releaseCompleteSent)]
  }

  function DetachAndTauValues(d: DetachFlow, t: TauFlow): (vs: seq<Value>)
    ensures |vs| == 6 && Plainly(vs)
  {
    [Flag(d.requestReceived), Flag(d.acceptSent), Flag(d.detached),
     Flag(t.requestReceived), Flag(t.acceptSent), Flag(t.completeReceived)]
  }

  function SlotValues(c: UeContext): (vs: seq<Value>)
    ensures |vs| == 11 && Plainly(vs)
  {
    [Number(c.lastNas.value), Flag(c.lastNas.present), Number(c.lastS1apProcedure),
     Number(c.security.value), Flag(c.security.present), Number(c.algorithm.value), Flag(c.algorithm.present),
     Number(c.bearer.value), Flag(c.bearer.present), Number(c.area.value), Flag(c.area.present)]
  }

  function ClosingValues(c: UeContext, clock: Clock): (vs: seq<Value>)
    ensures |vs| == 2 && Plainly(vs)
  {
    [Text(AuthFlowState(c)), Text(FormatTimestamp(clock, c.updatedAt))]
  }

  function UeValues(c: UeContext, clock: Clock): (vs: seq<Value>)
    ensures |vs| == UE_FIELDS && Plainly(vs)
  {
    IdentityValues(c) + AttachValues(c.attach) + ServiceValues(c.service) + DetachAndTauValues(c.detach, c.tau)
    + SlotValues(c) + ClosingValues(c, clock)
  }

  function IfaceFields(name: string, adminUp: bool): seq<Line> {
    FieldLines(IFACE_NAMES, IfaceValues(name, adminUp))
  }

  function PdpFields(c: PdpContext, clock: Clock): seq<Line> {
    FieldLines(PDP_NAMES, PdpValues(c, clock))
  }

  function UeFields(c: UeContext, clock: Clock): seq<Line> {
    FieldLines(UE_NAMES, UeValues(c, clock))
  }
}
