/** Octets, fixed-width unsigned integers and the two wrapper types shared by every module. */
module Bytes {

  type byte = x: int | 0 <= x < 0x100
  type uint16 = x: int | 0 <= x < 0x1_0000
  type uint24 = x: int | 0 <= x < 0x100_0000
  type uint32 = x: int | 0 <= x < 0x1_0000_0000

  datatype Option<+T> = None | Some(value: T)

  datatype Result<+T, +E> = Ok(value: T) | Err(error: E)

  function Octets16(v: uint16): (o: seq<byte>)
    ensures |o| == 2 && Uint16At(o, 0) == v
  {
    [v / 0x100, v % 0x100]
  }

  function Octets24(v: uint24): (o: seq<byte>)
    ensures |o| == 3 && Uint24At(o, 0) == v
  {
    [v / 0x1_0000] + Octets16(v % 0x1_0000)
  }

  function Octets32(v: uint32): (o: seq<byte>)
    ensures |o| == 4 && Uint32At(o, 0) == v
  {
    Octets16(v / 0x1_0000) + Octets16(v % 0x1_0000)
  }

  function Uint16At(s: seq<byte>, i: nat): uint16
    requires i + 2 <= |s|
  {
    s[i] as int * 0x100 + s[i + 1]
  }

  function Uint24At(s: seq<byte>, i: nat): uint24
    requires i + 3 <= |s|
  {
    s[i] as int * 0x1_0000 + Uint16At(s, i + 1)
  }

  function Uint32At(s: seq<byte>, i: nat): uint32
    requires i + 4 <= |s|
  {
    Uint16At(s, i) as int * 0x1_0000 + Uint16At(s, i + 2)
  }

  /** The octets of a number, each on its own. */
  lemma Octets24Are(v: uint24)
    ensures Octets24(v) == [v / 0x1_0000, v / 0x100 % 0x100, v % 0x100]
  {
    assert v % 0x1_0000 / 0x100 == v / 0x100 % 0x100;
    assert v % 0x1_0000 % 0x100 == v % 0x100;
    assert Octets16(v % 0x1_0000) == [v % 0x1_0000 / 0x100, v % 0x1_0000 % 0x100];
  }

  lemma Octets32Are(v: uint32)
    ensures Octets32(v) == [v / 0x100_0000, v / 0x1_0000 % 0x100, v / 0x100 % 0x100, v % 0x100]
  {
    SplitWord(v);
    assert Octets16(v / 0x1_0000) == [v / 0x1_0000 / 0x100, v / 0x1_0000 % 0x100];
    assert Octets16(v % 0x1_0000) == [v % 0x1_0000 / 0x100, v % 0x1_0000 % 0x100];
  }

  lemma SplitWord(v: uint32)
    ensures v / 0x1_0000 / 0x100 == v / 0x100_0000
    ensures v % 0x1_0000 / 0x100 == v / 0x100 % 0x100
    ensures v % 0x1_0000 % 0x100 == v % 0x100
  {
  }

  /** A number is read where its octets stand. */
  lemma Word16(p: seq<byte>, i: nat, v: uint16)
    requires i + 2 <= |p| && p[i..i + 2] == Octets16(v)
    ensures Uint16At(p, i) == v
  {
    assert p[i] == p[i..i + 2][0] && p[i + 1] == p[i..i + 2][1];
  }

  lemma Word32(p: seq<byte>, i: nat, v: uint32)
    requires i + 4 <= |p| && p[i..i + 4] == Octets32(v)
    ensures Uint32At(p, i) == v
  {
    var w := p[i..i + 4];
    assert p[i] == w[0] && p[i + 1] == w[1] && p[i + 2] == w[2] && p[i + 3] == w[3];
  }

  lemma HalfOctets(p: seq<byte>, i: nat)
    requires i + 2 <= |p|
    ensures Octets16(Uint16At(p, i)) == [p[i], p[i + 1]]
  {
  }

  /** The octets of the number read at a position are those that stand there. */
  lemma WordOctets(p: seq<byte>, i: nat)
    requires i + 4 <= |p|
    ensures Octets32(Uint32At(p, i)) == p[i..i + 4]
  {
    HalfOctets(p, i);
    HalfOctets(p, i + 2);
    assert Uint32At(p, i) / 0x1_0000 == Uint16At(p, i) && Uint32At(p, i) % 0x1_0000 == Uint16At(p, i + 2);
  }

  lemma SliceOfSlice(packet: seq<byte>, offset: nat, end: nat, i: nat, j: nat)
    requires offset <= end <= |packet| && i <= j <= end - offset
    ensures packet[offset..end][i..j] == packet[offset + i..offset + j]
  {
    var a, b := packet[offset..end][i..j], packet[offset + i..offset + j];
    assert |a| == |b| && forall k :: 0 <= k < |a| ==> a[k] == b[k];
  }

  /** A C++ string element, narrowed to the octet it stands for. */
  function CharToByte(c: char): byte {
    c as int % 0x100
  }

  function ByteToChar(b: byte): char {
    b as char
  }

  function TextToBytes(s: string): (o: seq<byte>)
    ensures |o| == |s|
    ensures forall i :: 0 <= i < |s| ==> o[i] == CharToByte(s[i])
  {
    seq(|s|, i requires 0 <= i < |s| => CharToByte(s[i]))
  }

  /** `isprint` in the C locale. */
  predicate Printable(c: char) {
    ' ' <= c <= '~'
  }

  predicate PrintableText(s: string) {
    forall i :: 0 <= i < |s| ==> Printable(s[i])
  }
}
