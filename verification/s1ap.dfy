/**
  The demo S1AP carrier of `src/s1ap_parser.cpp`: a procedure code followed by one-octet
  type, one-octet length records, and the NAS payloads it transports.
 */
module S1ap {
  import opened Bytes

  const INITIAL_UE_MESSAGE: byte := 0x0C
  const DOWNLINK_NAS_TRANSPORT: byte := 0x0D
  const IE_IMSI: byte := 0x01
  const IE_GUTI: byte := 0x02
  const IE_NAS: byte := 0x03

  datatype CarrierError =
    | TooShort
    | WrongProcedure
    | TruncatedHeader
    | TruncatedPayload
    | EmptyNas
    | MissingImsi
    | MissingNas

  /** `DemoInitialUeMessage` and `DemoDownlinkNasTransport`, which have the same fields. */
  datatype Carrier = Carrier(
    procedureCode: byte,
    imsi: string,
    guti: string,
    nasPdu: seq<byte>,
    nasMessageType: byte,
    hasImsi: bool,
    hasGuti: bool,
    hasNasPdu: bool)

  function Blank(procedureCode: byte): Carrier {
    Carrier(procedureCode, "", "", [], 0, false, false, false)
  }

  // ----- specification: one record at a time -----

  /** Non-printable octets become a dot. */
  function Sanitized(data: seq<byte>): (s: string)
    ensures |s| == |data| && PrintableText(s)
    ensures forall i :: 0 <= i < |s| ==> s[i] == if 0x20 <= data[i] <= 0x7E then ByteToChar(data[i]) else '.'
  {
    seq(|data|, i requires 0 <= i < |data| => if 0x20 <= data[i] <= 0x7E then ByteToChar(data[i]) else '.')
  }

  /** What one record does to the message being assembled. */
  function Absorb(m: Carrier, ieType: byte, value: seq<byte>): Result<Carrier, CarrierError> {
    if ieType == IE_IMSI then
      Ok(m.(imsi := Sanitized(value), hasImsi := value != []))
    else if ieType == IE_GUTI then
      Ok(m.(guti := Sanitized(value), hasGuti := value != []))
    else if ieType == IE_NAS then
      if value == [] then Err(EmptyNas)
      else Ok(m.(nasPdu := value, nasMessageType := value[0], hasNasPdu := true))
    else
      Ok(m)
  }

  function AbsorbAll(body: seq<byte>, m: Carrier): Result<Carrier, CarrierError> {
    if body == [] then Ok(m)
    else if |body| < 2 then Err(TruncatedHeader)
    else if 2 + body[1] > |body| then Err(TruncatedPayload)
    else
      match Absorb(m, body[0], body[2..2 + body[1]])
      case Err(e) => Err(e)
      case Ok(m') => AbsorbAll(body[2 + body[1]..], m')
  }

  function ParsedCarrier(packet: seq<byte>, expected: byte): Result<Carrier, CarrierError> {
    if |packet| < 3 then Err(TooShort)
    else if packet[0] != expected then Err(WrongProcedure)
    else
      match AbsorbAll(packet[1..], Blank(packet[0]))
      case Err(e) => Err(e)
      case Ok(m) =>
        if !m.hasImsi then Err(MissingImsi)
        else if !m.hasNasPdu then Err(MissingNas)
        else Ok(m)
  }

  // ----- the code's loops -----

  method SanitizeAscii(data: seq<byte>) returns (value: string)
    ensures value == Sanitized(data)
  {
    value := "";
    for index := 0 to |data|
      invariant value == Sanitized(data)[..index]
    {
      var ch := data[index];
      value := value + [if 0x20 <= ch <= 0x7E then ByteToChar(ch) else '.'];
    }
  }

  method ParseDemoNasCarrier(packet: seq<byte>, expectedProcedureCode: byte)
    returns (r: Result<Carrier, CarrierError>)
    ensures r == ParsedCarrier(packet, expectedProcedureCode)
  {
    if |packet| < 3 {
      return Err(TooShort);
    }
    var message := Blank(packet[0]);
    if message.procedureCode != expectedProcedureCode {
      return Err(WrongProcedure);
    }
    var offset := 1;
    while offset < |packet|
      invariant 1 <= offset <= |packet|
      invariant AbsorbAll(packet[1..], Blank(packet[0])) == AbsorbAll(packet[offset..], message)
    {
      if offset + 2 > |packet| {
        return Err(TruncatedHeader);
      }
      var ieType, ieLength := packet[offset], packet[offset + 1];
      ghost var rest := packet[offset..];
      assert rest[0] == ieType && rest[1] == ieLength;
      offset := offset + 2;
      if offset + ieLength > |packet| {
        return Err(TruncatedPayload);
      }
      var value := packet[offset..offset + ieLength];
      assert value == rest[2..2 + ieLength];
      assert packet[offset + ieLength..] == rest[2 + ieLength..];
      if ieType == IE_IMSI {
        var text := SanitizeAscii(value);
        message := message.(imsi := text, hasImsi := text != "");
      } else if ieType == IE_GUTI {
        var text := SanitizeAscii(value);
        message := message.(guti := text, hasGuti := text != "");
      } else if ieType == IE_NAS {
        if ieLength == 0 {
          return Err(EmptyNas);
        }
        message := message.(nasPdu := value);
        message := message.(nasMessageType := message.nasPdu[0], hasNasPdu := true);
      }
      offset := offset + ieLength;
    }
    if !message.hasImsi {
      return Err(MissingImsi);
    }
    if !message.hasNasPdu {
      return Err(MissingNas);
    }
    r := Ok(message);
  }

  method BuildDemoDownlinkNasTransport(imsi: string, guti: string, nasPdu: seq<byte>) returns (packet: seq<byte>)
    ensures packet == Downlink(imsi, guti, nasPdu)
  {
    packet := [DOWNLINK_NAS_TRANSPORT];
    packet := packet + [IE_IMSI];
    packet := packet + [|imsi| % 0x100];
    packet := packet + TextToBytes(imsi);
    if guti != "" {
      packet := packet + [IE_GUTI];
      packet := packet + [|guti| % 0x100];
      packet := packet + TextToBytes(guti);
    }
    packet := packet + [IE_NAS];
    packet := packet + [|nasPdu| % 0x100];
    packet := packet + nasPdu;
    DownlinkBytes(imsi, guti, nasPdu);
  }

  // ----- the format: tilings by records -----

  datatype Record = Record(ieType: byte, value: seq<byte>)

  /** A record whose length fits its one-octet length field. */
  predicate Fits(t: Record) {
    |t.value| < 0x100
  }

  function EncodeRecord(t: Record): seq<byte> {
    [t.ieType, |t.value| % 0x100] + t.value
  }

  function EncodeRecords(ts: seq<Record>): seq<byte> {
    if ts == [] then [] else EncodeRecord(ts[0]) + EncodeRecords(ts[1..])
  }

  function Downlink(imsi: string, guti: string, nasPdu: seq<byte>): seq<byte> {
    [DOWNLINK_NAS_TRANSPORT] + EncodeRecords(DownlinkRecords(imsi, guti, nasPdu))
  }

  function DownlinkRecords(imsi: string, guti: string, nasPdu: seq<byte>): seq<Record> {
    [Record(IE_IMSI, TextToBytes(imsi))]
    + (if guti == "" then [] else [Record(IE_GUTI, TextToBytes(guti))])
    + [Record(IE_NAS, nasPdu)]
  }

  lemma EncodeThree(a: Record, b: Record, c: Record)
    ensures EncodeRecords([a, b, c]) == EncodeRecord(a) + EncodeRecord(b) + EncodeRecord(c)
    ensures EncodeRecords([a, c]) == EncodeRecord(a) + EncodeRecord(c)
  {
    assert [a, b, c][1..] == [b, c] && [b, c][1..] == [c] && [c][1..] == [] && [a, c][1..] == [c];
    assert EncodeRecords([c]) == EncodeRecord(c) + [];
    assert EncodeRecords([b, c]) == EncodeRecord(b) + EncodeRecords([c]);
  }

  lemma DownlinkBytes(imsi: string, guti: string, nasPdu: seq<byte>)
    ensures Downlink(imsi, guti, nasPdu)
         == [0x0D] + [0x01] + [|imsi| % 0x100] + TextToBytes(imsi)
            + (if guti == "" then [] else [0x02] + [|guti| % 0x100] + TextToBytes(guti))
            + [0x03] + [|nasPdu| % 0x100] + nasPdu
  {
    var a, g, n := Record(IE_IMSI, TextToBytes(imsi)), Record(IE_GUTI, TextToBytes(guti)), Record(IE_NAS, nasPdu);
    EncodeThree(a, g, n);
    assert [a] + [] + [n] == [a, n] && [a] + [g] + [n] == [a, g, n];
  }

  /** The last record of the given type, if any. */
  function LastOf(ts: seq<Record>, ieType: byte): Option<seq<byte>> {
    if ts == [] then None
    else if ts[|ts| - 1].ieType == ieType then Some(ts[|ts| - 1].value)
    else LastOf(ts[..|ts| - 1], ieType)
  }

  ghost predicate WellTiled(body: seq<byte>, ts: seq<Record>) {
    && (forall t | t in ts :: Fits(t) && !(t.ieType == 0x03 && t.value == []))
    && body == EncodeRecords(ts)
  }

  function AbsorbRecords(ts: seq<Record>, m: Carrier): Carrier {
    if ts == [] then m
    else
      match Absorb(m, ts[0].ieType, ts[0].value)
      case Err(_) => m
      case Ok(m') => AbsorbRecords(ts[1..], m')
  }

  /** Walking the encoding of a tiling visits exactly its records. */
  lemma {:induction false} WalkOfTiling(ts: seq<Record>, m: Carrier)
    requires forall t | t in ts :: Fits(t) && !(t.ieType == IE_NAS && t.value == [])
    ensures AbsorbAll(EncodeRecords(ts), m) == Ok(AbsorbRecords(ts, m))
  {
    if ts != [] {
      var t := ts[0];
      var body := EncodeRecords(ts);
      var n := |t.value|;
      assert body[0] == t.ieType && body[1] == n;
      assert body[2..2 + n] == t.value;
      assert body[2 + n..] == EncodeRecords(ts[1..]);
      WalkOfTiling(ts[1..], Absorb(m, t.ieType, t.value).value);
    }
  }

  /** Conversely, a walk that succeeds went over a tiling. */
  lemma {:induction false} TilingOfWalk(body: seq<byte>, m: Carrier) returns (ts: seq<Record>)
    requires AbsorbAll(body, m).Ok?
    ensures WellTiled(body, ts)
    decreases |body|
  {
    if body == [] {
      ts := [];
    } else {
      var n := body[1];
      var t := Record(body[0], body[2..2 + n]);
      var rest := TilingOfWalk(body[2 + n..], Absorb(m, t.ieType, t.value).value);
      ts := [t] + rest;
      assert body == EncodeRecord(t) + body[2 + n..];
    }
  }

  /** Every field of `r` holds what the last record of its type supplied, or else what `m` held. */
  ghost predicate LastSupplied(ts: seq<Record>, m: Carrier, r: Carrier) {
    && r.procedureCode == m.procedureCode
    && (match LastOf(ts, 0x01)
        case None => r.imsi == m.imsi && r.hasImsi == m.hasImsi
        case Some(v) => r.imsi == Sanitized(v) && r.hasImsi == (v != []))
    && (match LastOf(ts, 0x02)
        case None => r.guti == m.guti && r.hasGuti == m.hasGuti
        case Some(v) => r.guti == Sanitized(v) && r.hasGuti == (v != []))
    && (match LastOf(ts, 0x03)
        case None => r.nasPdu == m.nasPdu && r.nasMessageType == m.nasMessageType && r.hasNasPdu == m.hasNasPdu
        case Some(v) => v != [] && r.nasPdu == v && r.nasMessageType == v[0] && r.hasNasPdu)
  }

  lemma {:induction false} LastRecordWins(ts: seq<Record>, m: Carrier)
    requires forall t | t in ts :: !(t.ieType == IE_NAS && t.value == [])
    ensures LastSupplied(ts, m, AbsorbRecords(ts, m))
    decreases |ts|
  {
    if ts != [] {
      var init, t := ts[..|ts| - 1], ts[|ts| - 1];
      assert ts == init + [t];
      LastRecordWins(init, m);
      AbsorbSnoc(init, t, m);
      LastSuppliedStep(init, t, m, AbsorbRecords(init, m), AbsorbRecords(ts, m));
    }
  }

  lemma LastSuppliedStep(init: seq<Record>, t: Record, m: Carrier, before: Carrier, after: Carrier)
    requires LastSupplied(init, m, before)
    requires Absorb(before, t.ieType, t.value) == Ok(after)
    ensures LastSupplied(init + [t], m, after)
  {
    LastOfSnoc(init, t, IE_IMSI);
    LastOfSnoc(init, t, IE_GUTI);
    LastOfSnoc(init, t, IE_NAS);
  }

  lemma LastOfSnoc(init: seq<Record>, t: Record, ieType: byte)
    ensures LastOf(init + [t], ieType) == if t.ieType == ieType then Some(t.value) else LastOf(init, ieType)
  {
    var ts := init + [t];
    assert ts[..|ts| - 1] == init && ts[|ts| - 1] == t;
  }

  lemma {:induction false} AbsorbSnoc(ts: seq<Record>, t: Record, m: Carrier)
    requires forall u | u in ts + [t] :: !(u.ieType == IE_NAS && u.value == [])
    ensures Absorb(AbsorbRecords(ts, m), t.ieType, t.value) == Ok(AbsorbRecords(ts + [t], m))
  {
    if ts == [] {
      assert ts + [t] == [t];
      assert [t][1..] == [];
    } else {
      assert (ts + [t])[0] == ts[0] && (ts + [t])[1..] == ts[1..] + [t];
      AbsorbSnoc(ts[1..], t, Absorb(m, ts[0].ieType, ts[0].value).value);
    }
  }

  /**
    The parser accepts exactly the packets that tile into records with no empty NAS record,
    whose last IMSI record is not empty and that hold a NAS record.
   */
  lemma CarrierAcceptance(packet: seq<byte>, expected: byte)
    ensures ParsedCarrier(packet, expected).Ok? <==>
            && |packet| >= 3 && packet[0] == expected
            && exists ts ::
                 && WellTiled(packet[1..], ts)
                 && LastOf(ts, 0x01).Some? && LastOf(ts, 0x01).value != []
                 && LastOf(ts, 0x03).Some?
  {
    if |packet| >= 3 && packet[0] == expected {
      var m := Blank(packet[0]);
      if AbsorbAll(packet[1..], m).Ok? {
        var ts := TilingOfWalk(packet[1..], m);
        WalkOfTiling(ts, m);
        LastRecordWins(ts, m);
        forall us | WellTiled(packet[1..], us)
          ensures AbsorbRecords(us, m) == AbsorbRecords(ts, m)
          ensures LastOf(us, IE_IMSI).Some? && LastOf(us, IE_IMSI).value != [] <==> AbsorbRecords(us, m).hasImsi
          ensures LastOf(us, IE_NAS).Some? <==> AbsorbRecords(us, m).hasNasPdu
        {
          WalkOfTiling(us, m);
          LastRecordWins(us, m);
        }
      } else {
        forall us | WellTiled(packet[1..], us)
          ensures false
        {
          WalkOfTiling(us, m);
        }
      }
    }
  }

  /** What a parsed message carries: printable text that fits its length octet, and a NAS payload. */
  predicate GoodText(s: string) {
    |s| < 0x100 && PrintableText(s)
  }

  lemma {:induction false} AbsorbedTextIsGood(body: seq<byte>, m: Carrier)
    requires GoodText(m.imsi) && GoodText(m.guti)
    requires m.hasImsi == (m.imsi != "") && m.hasGuti == (m.guti != "")
    requires m.hasNasPdu ==> m.nasPdu != [] && m.nasMessageType == m.nasPdu[0]
    requires AbsorbAll(body, m).Ok?
    ensures var r := AbsorbAll(body, m).value;
            && r.procedureCode == m.procedureCode
            && GoodText(r.imsi) && GoodText(r.guti)
            && r.hasImsi == (r.imsi != "") && r.hasGuti == (r.guti != "")
            && (r.hasNasPdu ==> r.nasPdu != [] && r.nasMessageType == r.nasPdu[0])
    decreases |body|
  {
    if body != [] {
      AbsorbedTextIsGood(body[2 + body[1]..], Absorb(m, body[0], body[2..2 + body[1]]).value);
    }
  }

  lemma ParsedTextIsGood(packet: seq<byte>, expected: byte)
    requires ParsedCarrier(packet, expected).Ok?
    ensures var m := ParsedCarrier(packet, expected).value;
            && m.procedureCode == expected
            && m.imsi != "" && GoodText(m.imsi) && GoodText(m.guti) && m.hasGuti == (m.guti != "")
            && m.nasPdu != [] && m.nasMessageType == m.nasPdu[0]
  {
    AbsorbedTextIsGood(packet[1..], Blank(packet[0]));
  }

  lemma SanitizedText(s: string)
    requires PrintableText(s)
    ensures Sanitized(TextToBytes(s)) == s
  {
    assert forall i :: 0 <= i < |s| ==> 0x20 <= TextToBytes(s)[i] == s[i] as int <= 0x7E;
  }

  /** A downlink message built from good text parses back to exactly what it was built from. */
  lemma DownlinkRoundTrip(imsi: string, guti: string, nasPdu: seq<byte>)
    requires imsi != "" && GoodText(imsi) && GoodText(guti)
    requires 0 < |nasPdu| < 0x100
    ensures ParsedCarrier(Downlink(imsi, guti, nasPdu), 0x0D)
         == Ok(Carrier(0x0D, imsi, guti, nasPdu, nasPdu[0], true, guti != "", true))
  {
    var blank := Blank(DOWNLINK_NAS_TRANSPORT);
    var ts := DownlinkRecords(imsi, guti, nasPdu);
    var packet := Downlink(imsi, guti, nasPdu);
    assert packet[1..] == EncodeRecords(ts);
    assert |packet| >= 1 + |EncodeRecord(ts[0])| > 3;
    WalkOfTiling(ts, blank);
    LastRecordWins(ts, blank);
    LastOfDownlink(imsi, guti, nasPdu);
    SanitizedText(imsi);
    SanitizedText(guti);
  }

  lemma LastOfDownlink(imsi: string, guti: string, nasPdu: seq<byte>)
    ensures var ts := DownlinkRecords(imsi, guti, nasPdu);
            && LastOf(ts, IE_IMSI) == Some(TextToBytes(imsi))
            && LastOf(ts, IE_GUTI) == (if guti == "" then None else Some(TextToBytes(guti)))
            && LastOf(ts, IE_NAS) == Some(nasPdu)
  {
    var a, g, n := Record(IE_IMSI, TextToBytes(imsi)), Record(IE_GUTI, TextToBytes(guti)), Record(IE_NAS, nasPdu);
    var ieTypes := {IE_IMSI, IE_GUTI, IE_NAS};
    forall ieType | ieType in ieTypes
      ensures LastOf([a], ieType) == if ieType == IE_IMSI then Some(a.value) else None
    {
      LastOfSnoc([], a, ieType);
      assert [] + [a] == [a];
    }
    var front := if guti == "" then [a] else [a] + [g];
    assert DownlinkRecords(imsi, guti, nasPdu) == front + [n];
    forall ieType | ieType in ieTypes
      ensures LastOf(front + [n], ieType) == if ieType == IE_NAS then Some(nasPdu) else LastOf(front, ieType)
      ensures LastOf([a] + [g], ieType) == if ieType == IE_GUTI then Some(g.value) else LastOf([a], ieType)
    {
      LastOfSnoc(front, n, ieType);
      LastOfSnoc([a], g, ieType);
    }
  }

  // ----- NAS payloads -----

  /** The parsers that read a message type and a key set identifier. */
  function KeySetOf(nas: seq<byte>, messageType: byte): Option<byte> {
    if |nas| < 2 || nas[0] != messageType then None else Some(nas[1])
  }

  /** The parsers that read a key set identifier and one more octet. */
  function KeySetAndOctetOf(nas: seq<byte>, messageType: byte): Option<(byte, byte)> {
    if |nas| < 3 || nas[0] != messageType then None else Some((nas[1], nas[2]))
  }
}
