/** Octets, fixed-width words and network byte order, shared by every packet module. */
module Bytes {

  type byte = x: int | 0 <= x < 0x100
  type u16 = x: int | 0 <= x < 0x1_0000
  type u32 = x: int | 0 <= x < 0x1_0000_0000

  datatype Option<+T> = None | Some(value: T)

  function Join(hi: byte, lo: byte): u16 {
    256 * hi + lo
  }

  /** The big-endian 16-bit word at index i (`rd16` of tls.c, `ntohs` of a header field). */
  function Rd16(b: seq<byte>, i: nat): u16
    requires i + 2 <= |b|
  {
    Join(b[i], b[i + 1])
  }

  function Rd32(b: seq<byte>, i: nat): u32
    requires i + 4 <= |b|
  {
    0x1_0000 * Rd16(b, i) + Rd16(b, i + 2)
  }

  /** Octet k of a value in network order, counted from its least significant end. */
  function Octet(v: nat, k: nat): byte {
    if k == 0 then v % 256
    else if k == 1 then v / 256 % 256
    else if k == 2 then v / 256 / 256 % 256
    else v / 256 / 256 / 256 % 256
  }

  /** htons and htonl: the octets of a value as they go on the wire. */
  function Be16(v: u16): (b: seq<byte>)
    ensures |b| == 2 && Rd16(b, 0) == v
  {
    [v / 256, v % 256]
  }

  function Be32(v: u32): (b: seq<byte>)
    ensures |b| == 4
  {
    [Octet(v, 3), Octet(v, 2), Octet(v, 1), Octet(v, 0)]
  }

  lemma OctetsOf16(v: u16)
    ensures Join(Octet(v, 1), Octet(v, 0)) == v
  {}

  lemma OctetsOf32(v: u32)
    ensures 0x1_0000 * Join(Octet(v, 3), Octet(v, 2)) + Join(Octet(v, 1), Octet(v, 0)) == v
  {
    var a := v / 256;
    var b := a / 256;
    assert b / 256 < 256;
  }

  function Word16(hi: int, lo: int): int {
    0x100 * hi + lo
  }

  function Word32(a: int, b: int, c: int, d: int): int {
    0x100_0000 * a + 0x1_0000 * b + 0x100 * c + d
  }

  /** Network order, octet by octet: the most significant first. */
  lemma NetworkOrder(s: seq<byte>, i: nat)
    requires i + 4 <= |s|
    ensures Rd16(s, i) == Word16(s[i], s[i + 1])
    ensures Rd32(s, i) == Word32(s[i], s[i + 1], s[i + 2], s[i + 3])
  {}

  /** 32-bit wrap-around addition. */
  function Add32(a: u32, n: nat): u32 {
    (a + n) % 0x1_0000_0000
  }

  lemma Regroup<T>(a: seq<T>, b: seq<T>, c: seq<T>)
    ensures a + b + c == a + (b + c)
  {}

  /** Whether the flag whose weight is `bit` (a power of two) is set in f. */
  predicate HasBit(f: byte, bit: byte)
    requires bit > 0
  {
    f / bit % 2 == 1
  }

  function ClearBit(f: byte, bit: byte): (g: byte)
    requires bit > 0
    ensures !HasBit(f, bit) ==> g == f
  {
    if HasBit(f, bit) then f - bit else f
  }
}
