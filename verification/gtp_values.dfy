/** The values inside GTP information elements: telephony digits, access point names, addresses. */
module GtpValues {
  import opened Bytes
  import opened Texts
  import S1ap

  // ----- telephony binary coded decimal -----

  function NibbleText(n: nat): string {
    if n <= 9 then [DigitChar(n)] else ""
  }

  /** Low half first; halves above nine are fillers. */
  function OctetDigits(o: byte): string {
    NibbleText(o % 16) + NibbleText(o / 16)
  }

  function TbcdText(data: seq<byte>): string {
    if data == [] then "" else OctetDigits(data[0]) + TbcdText(data[1..])
  }

  method DecodeTbcdDigits(data: seq<byte>) returns (digits: string)
    ensures digits == TbcdText(data)
  {
    digits := "";
    for index := 0 to |data|
      invariant digits + TbcdText(data[index..]) == TbcdText(data)
    {
      TbcdStep(digits, data, index);
      digits := AppendDigits(digits, data[index]);
    }
    assert data[|data|..] == [];
  }

  method AppendDigits(digits: string, octet: byte) returns (r: string)
    ensures r == digits + OctetDigits(octet)
  {
    r := digits;
    var low, high := octet % 16, octet / 16 % 16;
    if low <= 9 {
      r := r + [DigitChar(low)];
    }
    if high <= 9 {
      r := r + [DigitChar(high)];
    }
  }

  lemma TbcdStep(digits: string, data: seq<byte>, i: nat)
    requires i < |data|
    ensures digits + TbcdText(data[i..]) == digits + OctetDigits(data[i]) + TbcdText(data[i + 1..])
  {
    assert data[i..][1..] == data[i + 1..];
  }

  function NibbleOf(digits: string, i: nat): nat
    requires AllDigits(digits)
  {
    if i < |digits| then DigitValue(digits[i]) else 0xF
  }

  /** The digits packed into a fixed number of octets, the rest filled with ones. */
  function Tbcd(digits: string, size: nat): (data: seq<byte>)
    requires AllDigits(digits)
    ensures |data| == size
    decreases size
  {
    if size == 0 then []
    else
      [NibbleOf(digits, 0) + 16 * NibbleOf(digits, 1)]
      + Tbcd(if |digits| <= 2 then "" else digits[2..], size - 1)
  }

  /** The first octet holds the first two digits. */
  lemma FirstOctet(digits: string, rest: string)
    requires AllDigits(digits) && rest == if |digits| <= 2 then "" else digits[2..]
    ensures OctetDigits(NibbleOf(digits, 0) + 16 * NibbleOf(digits, 1)) + rest == digits
  {
  }

  lemma TbcdCons(o: byte, tail: seq<byte>)
    ensures TbcdText([o] + tail) == OctetDigits(o) + TbcdText(tail)
  {
    assert ([o] + tail)[1..] == tail;
  }

  lemma {:induction false} TbcdRoundTrip(digits: string, size: nat)
    requires AllDigits(digits) && |digits| <= 2 * size
    ensures TbcdText(Tbcd(digits, size)) == digits
    decreases size
  {
    if size > 0 {
      var rest := if |digits| <= 2 then "" else digits[2..];
      var o, tail := NibbleOf(digits, 0) + 16 * NibbleOf(digits, 1), Tbcd(rest, size - 1);
      TbcdRoundTrip(rest, size - 1);
      FirstOctet(digits, rest);
      TbcdCons(o, tail);
    }
  }

  // ----- access point names -----

  /** One more label after what was decoded so far. */
  function Dotted(apn: string, part: seq<byte>): string {
    (if apn == "" then "" else apn + ".") + S1ap.Sanitized(part)
  }

  /** Labels up to the first zero length or the end; a label that does not fit fails the whole name. */
  function ApnFrom(data: seq<byte>, apn: string): Option<string> {
    if data == [] || data[0] == 0 then Some(apn)
    else if 1 + data[0] > |data| then None
    else ApnFrom(data[1 + data[0]..], Dotted(apn, data[1..1 + data[0]]))
  }

  function ApnText(data: seq<byte>): Option<string> {
    ApnFrom(data, "")
  }

  method DecodeAccessPointName(data: seq<byte>) returns (r: Option<string>)
    ensures r == ApnText(data)
  {
    var apn, offset := "", 0;
    while offset < |data|
      invariant offset <= |data|
      invariant ApnText(data) == ApnFrom(data[offset..], apn)
    {
      ghost var rest := data[offset..];
      var labelLength := data[offset];
      offset := offset + 1;
      if labelLength == 0 {
        break;
      }
      if offset + labelLength > |data| {
        return None;
      }
      ghost var part := data[offset..offset + labelLength];
      assert part == rest[1..1 + labelLength] && data[offset + labelLength..] == rest[1 + labelLength..];
      apn := AppendLabel(apn, data, offset, labelLength);
      offset := offset + labelLength;
    }
    r := Some(apn);
  }

  method AppendLabel(apn: string, data: seq<byte>, offset: nat, length: nat) returns (r: string)
    requires offset + length <= |data|
    ensures r == Dotted(apn, data[offset..offset + length])
  {
    r := apn;
    if r != "" {
      r := r + ".";
    }
    ghost var front, part := r, data[offset..offset + length];
    for index := 0 to length
      invariant r == front + S1ap.Sanitized(part)[..index]
    {
      var ch := data[offset + index];
      assert ch == part[index];
      r := r + [if 0x20 <= ch <= 0x7E then ByteToChar(ch) else '.'];
    }
  }

  /** A label that fits its length octet and is not the terminator. */
  predicate Label(l: seq<byte>) {
    0 < |l| < 0x100
  }

  function EncodeLabels(labels: seq<seq<byte>>): seq<byte> {
    if labels == [] then [] else [|labels[0]| % 0x100] + labels[0] + EncodeLabels(labels[1..])
  }

  function DottedAll(apn: string, labels: seq<seq<byte>>): string
    decreases |labels|
  {
    if labels == [] then apn else DottedAll(Dotted(apn, labels[0]), labels[1..])
  }

  /** The octets are labels and then, possibly, a zero octet and anything. */
  ghost predicate Labelled(data: seq<byte>, labels: seq<seq<byte>>) {
    && (forall l | l in labels :: Label(l))
    && EncodeLabels(labels) <= data
    && (|EncodeLabels(labels)| < |data| ==> data[|EncodeLabels(labels)|] == 0)
  }

  /** The first label, read off the octets. */
  predicate StartsWithLabel(data: seq<byte>, l: seq<byte>) {
    1 + |l| <= |data| && Label(l) && data[0] == |l| && data[1..1 + |l|] == l
  }

  lemma LabelSplits(data: seq<byte>, l: seq<byte>, rest: seq<byte>)
    requires Label(l)
    ensures [|l| % 0x100] + l + rest <= data <==> StartsWithLabel(data, l) && rest <= data[1 + |l|..]
  {
    var n, head := 1 + |l|, [|l| % 0x100] + l;
    if head + rest <= data {
      assert data[0] == (head + rest)[0];
      assert data[1..n] == (head + rest)[1..n] == l;
      assert data[n..][..|rest|] == (head + rest)[n..] == rest;
    }
    if StartsWithLabel(data, l) && rest <= data[n..] {
      assert data == [data[0]] + data[1..n] + data[n..];
    }
  }

  lemma LabelledCons(data: seq<byte>, labels: seq<seq<byte>>)
    requires labels != [] && Label(labels[0])
    ensures Labelled(data, labels) <==>
            StartsWithLabel(data, labels[0]) && Labelled(data[1 + |labels[0]|..], labels[1..])
  {
    var l, rest := labels[0], EncodeLabels(labels[1..]);
    LabelSplits(data, l, rest);
    assert labels == [l] + labels[1..];
    assert (forall x | x in labels :: Label(x)) <==> (forall x | x in labels[1..] :: Label(x));
    assert |EncodeLabels(labels)| == 1 + |l| + |rest|;
  }

  lemma {:induction false} NameOfLabels(data: seq<byte>, labels: seq<seq<byte>>, apn: string)
    requires Labelled(data, labels)
    ensures ApnFrom(data, apn) == Some(DottedAll(apn, labels))
    decreases |labels|
  {
    if labels != [] {
      LabelledCons(data, labels);
      NameOfLabels(data[1 + |labels[0]|..], labels[1..], Dotted(apn, labels[0]));
    }
  }

  lemma {:induction false} LabelsOfName(data: seq<byte>, apn: string) returns (labels: seq<seq<byte>>)
    requires ApnFrom(data, apn).Some?
    ensures Labelled(data, labels)
    decreases |data|
  {
    if data == [] || data[0] == 0 {
      labels := [];
    } else {
      var n := 1 + data[0] as int;
      var rest := LabelsOfName(data[n..], Dotted(apn, data[1..n]));
      labels := [data[1..n]] + rest;
      assert labels[1..] == rest;
      LabelledCons(data, labels);
    }
  }

  /** A name decodes exactly when its octets are labels that fit, and then reads as the dotted labels. */
  lemma ApnAcceptance(data: seq<byte>)
    ensures ApnText(data).Some? <==> exists labels :: Labelled(data, labels)
    ensures forall labels | Labelled(data, labels) :: ApnText(data) == Some(DottedAll("", labels))
  {
    if ApnText(data).Some? {
      var labels := LabelsOfName(data, "");
    }
    forall labels | Labelled(data, labels)
      ensures ApnText(data) == Some(DottedAll("", labels))
    {
      NameOfLabels(data, labels, "");
    }
  }

  // ----- addresses -----

  function Ipv4Text(data: seq<byte>): string {
    if |data| != 4 then ""
    else Decimal(data[0]) + "." + Decimal(data[1]) + "." + Decimal(data[2]) + "." + Decimal(data[3])
  }

  // ----- what the texts denote -----

  /** The pieces of a text between its dots. */
  function Pieces(s: string): (ps: seq<string>)
    ensures ps != []
  {
    if s == "" then [""]
    else
      var rest := Pieces(s[1..]);
      if s[0] == '.' then [""] + rest else [[s[0]] + rest[0]] + rest[1..]
  }

  lemma {:induction false} PiecesAfterDigits(d: string, rest: string)
    requires '.' !in d
    ensures Pieces(d + "." + rest) == [d] + Pieces(rest) && Pieces(d) == [d]
  {
    var text := d + "." + rest;
    if d == "" {
      assert text[1..] == rest;
    } else {
      assert text[1..] == d[1..] + "." + rest;
      PiecesAfterDigits(d[1..], rest);
      assert [d[0]] + d[1..] == d;
    }
  }

  /** The text writes the octets as four numbers, first octet first, without needless zeros. */
  predicate WritesOctets(s: string, data: seq<byte>) {
    var ps := Pieces(s);
    && |ps| == |data| == 4
    && forall i :: 0 <= i < 4 ==>
         DigitsOnly(ps[i]) && NumberOf(ps[i]) == data[i] && (ps[i][0] == '0' ==> |ps[i]| == 1)
  }

  lemma {:induction false} NoLeadingZero(n: nat)
    ensures Decimal(n)[0] == '0' ==> |Decimal(n)| == 1
    ensures '.' !in Decimal(n)
    ensures n > 0 ==> Decimal(n)[0] != '0'
  {
    if n >= 10 {
      NoLeadingZero(n / 10);
    }
  }

  /** An address of four octets is written as those octets; any other length as nothing. */
  lemma Ipv4Denotes(data: seq<byte>)
    ensures if |data| == 4 then WritesOctets(Ipv4Text(data), data) else Ipv4Text(data) == ""
  {
    if |data| == 4 {
      var a, b, c, d := Decimal(data[0]), Decimal(data[1]), Decimal(data[2]), Decimal(data[3]);
      NoLeadingZero(data[0]);
      NoLeadingZero(data[1]);
      NoLeadingZero(data[2]);
      NoLeadingZero(data[3]);
      FourPieces(a, b, c, d);
    }
  }

  lemma FourPieces(a: string, b: string, c: string, d: string)
    requires '.' !in a && '.' !in b && '.' !in c && '.' !in d
    ensures Pieces(a + "." + b + "." + c + "." + d) == [a, b, c, d]
  {
    var y := c + "." + d;
    var x := b + "." + y;
    PiecesAfterDigits(d, "");
    PiecesAfterDigits(c, d);
    PiecesAfterDigits(b, y);
    PiecesAfterDigits(a, x);
    Reassociated(a, b, c, d);
  }

  lemma Reassociated(a: string, b: string, c: string, d: string)
    ensures a + "." + b + "." + c + "." + d == a + "." + (b + "." + (c + "." + d))
  {
  }

  /** The digit of half an octet, if it is one. */
  function HalfDigit(n: nat): string
    requires n < 16
  {
    if n < 10 then ["0123456789"[n]] else ""
  }

  lemma {:induction false} TbcdIsFlat(data: seq<byte>)
    ensures TbcdText(data) == Flat(OctetDigits, data)
  {
    if data != [] {
      TbcdIsFlat(data[1..]);
    }
  }

  /** One octet gives its low half, then its high half; and octets give their digits one after the other. */
  lemma TbcdByHalves(a: seq<byte>, o: byte)
    ensures TbcdText([]) == "" && TbcdText(a + [o]) == TbcdText(a) + HalfDigit(o % 16) + HalfDigit(o / 16)
  {
    TbcdIsFlat(a);
    TbcdIsFlat(a + [o]);
    FlatSnoc(OctetDigits, a, o);
    Half(o % 16);
    Half(o / 16);
  }

  lemma Half(n: nat)
    requires n < 16
    ensures NibbleText(n) == HalfDigit(n)
  {
  }

  /** The labels one after the other, with a dot between each two. */
  function JoinedByDots(labels: seq<seq<byte>>): string
    requires labels != []
  {
    if |labels| == 1 then S1ap.Sanitized(labels[0])
    else S1ap.Sanitized(labels[0]) + "." + JoinedByDots(labels[1..])
  }

  lemma {:induction false} DottedIsJoined(apn: string, labels: seq<seq<byte>>)
    requires labels != [] && forall l | l in labels :: Label(l)
    ensures DottedAll(apn, labels) == (if apn == "" then "" else apn + ".") + JoinedByDots(labels)
    decreases |labels|
  {
    assert labels[0] in labels;
    var front := if apn == "" then "" else apn + ".";
    if |labels| == 1 {
      assert labels[1..] == [];
    } else {
      DottedIsJoined(Dotted(apn, labels[0]), labels[1..]);
      var x, y := S1ap.Sanitized(labels[0]), JoinedByDots(labels[1..]);
      assert (front + x) + "." + y == front + (x + "." + y);
    }
  }

  /** A name decodes to its labels, dots between them, or to nothing when it has none. */
  lemma ApnIsJoined(data: seq<byte>, labels: seq<seq<byte>>)
    requires Labelled(data, labels)
    ensures ApnText(data) == Some(if labels == [] then "" else JoinedByDots(labels))
  {
    NameOfLabels(data, labels, "");
    if labels != [] {
      DottedIsJoined("", labels);
      assert "" + JoinedByDots(labels) == JoinedByDots(labels);
    }
  }
}
