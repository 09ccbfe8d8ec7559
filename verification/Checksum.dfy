/**
 * The Internet checksum (net.c:26-48).  The code adds native 16-bit words into a
 * 32-bit accumulator; the specification is the big-endian one's complement sum of
 * RFC 1071.
 */
module Checksum {
  import opened Bytes

  datatype Endian = Little | Big

  /** The value a native 16-bit load gives for two adjacent octets. */
  function Word(e: Endian, first: byte, second: byte): u16 {
    if e.Little? then first + 256 * second else 256 * first + second
  }

  /** The two octets a native 16-bit store leaves in memory. */
  function FirstStored(e: Endian, v: u16): byte {
    if e.Little? then v % 256 else v / 256
  }

  function SecondStored(e: Endian, v: u16): byte {
    if e.Little? then v / 256 else v % 256
  }

  function WordSum(e: Endian, b: seq<byte>): nat {
    if |b| == 0 then 0
    else if |b| == 1 then Word(e, b[0], 0)
    else Word(e, b[0], b[1]) + WordSum(e, b[2..])
  }

  /** The value the fold loop leaves in a sum: its residue mod 65535, with 0xffff for a non-zero multiple. */
  function Folded(sum: nat): u16 {
    if sum == 0 then 0 else (sum - 1) % 0xffff + 1
  }

  /** Folding keeps the residue modulo 65535 and gives zero only for zero; nothing else does. */
  lemma FoldedIsTheResidue(sum: nat, f: u16)
    ensures f == Folded(sum) <==> f % 0xffff == sum % 0xffff && (f == 0 <==> sum == 0)
  {
    if sum > 0 {
      var q := (sum - 1) / 0xffff;
      assert sum == 0xffff * q + Folded(sum);
    }
  }

  // ---- RFC 1071 ----

  /** 16-bit addition with end-around carry. */
  function OnesAdd(x: u16, y: u16): u16 {
    if x + y > 0xffff then x + y - 0xffff else x + y
  }

  /** The one's complement sum of the big-endian words of b, an odd last octet padded with zero. */
  function OnesSum(b: seq<byte>): u16 {
    if |b| == 0 then 0
    else if |b| == 1 then 256 * b[0]
    else OnesAdd(Join(b[0], b[1]), OnesSum(b[2..]))
  }

  function Rfc1071(b: seq<byte>): u16 {
    0xffff - OnesSum(b)
  }

  // ---- the two loops of net.c ----

  method Accumulate(e: Endian, buf: array<byte>, start: nat, count: nat, sum: u32) returns (r: u32)
    requires start + count <= buf.Length
    ensures r == (sum + WordSum(e, buf[start..start + count])) % 0x1_0000_0000
  {
    ghost var total := sum + WordSum(e, buf[start..start + count]);
    ghost var wraps := 0;
    r := sum;
    var w, len := start, count;
    while len > 1
      invariant w + len == start + count
      invariant r + 0x1_0000_0000 * wraps + WordSum(e, buf[w..w + len]) == total
    {
      ghost var s := buf[w..w + len];
      assert s[2..] == buf[w + 2..w + 2 + (len - 2)];
      assert WordSum(e, s) == Word(e, buf[w], buf[w + 1]) + WordSum(e, s[2..]);
      ghost var before := r;
      r := AddWord(r, Word(e, buf[w], buf[w + 1]));
      wraps := if r < before then wraps + 1 else wraps;
      w := w + 2;
      len := len - 2;
    }
    if len == 1 {
      ghost var before := r;
      r := AddWord(r, Word(e, buf[w], 0));
      wraps := if r < before then wraps + 1 else wraps;
    }
    Remainder(r, wraps, total);
  }

  /** One unsigned 32-bit addition: it wraps exactly when the result is smaller. */
  function AddWord(sum: u32, w: u16): (r: u32)
    ensures r == sum + w - if r < sum then 0x1_0000_0000 else 0
  {
    (sum + w) % 0x1_0000_0000
  }

  lemma Remainder(r: u32, wraps: int, total: nat)
    requires r + 0x1_0000_0000 * wraps == total
    ensures r == total % 0x1_0000_0000
  {}

  method Fold(sum0: u32) returns (c: u16)
    ensures c == 0xffff - Folded(sum0)
  {
    var sum := sum0;
    while sum >= 0x1_0000
      invariant 0 <= sum < 0x1_0000_0000
      invariant Folded(sum) == Folded(sum0)
    {
      CarryKeepsFolded(sum, sum / 0x1_0000);
      sum := sum % 0x1_0000 + sum / 0x1_0000;
    }
    c := 0xffff - sum;
  }

  /** Moving k carries out of bit 16 back in at bit 0 keeps the folded value. */
  lemma CarryKeepsFolded(sum: nat, k: nat)
    requires 0xffff * k < sum
    ensures Folded(sum - 0xffff * k) == Folded(sum)
  {}

  // ---- the native loops against RFC 1071 ----

  /** A frame the size checks admit cannot wrap the 32-bit accumulator. */
  lemma {:induction false} WordSumBound(e: Endian, b: seq<byte>)
    ensures 2 * WordSum(e, b) <= 0xffff * (|b| + 1)
  {
    if |b| >= 2 {
      WordSumBound(e, b[2..]);
    }
  }

  lemma {:induction false} WordSumConcat(e: Endian, a: seq<byte>, b: seq<byte>)
    requires |a| % 2 == 0
    ensures WordSum(e, a + b) == WordSum(e, a) + WordSum(e, b)
  {
    if |a| == 0 {
      assert a + b == b;
    } else {
      assert (a + b)[2..] == a[2..] + b;
      WordSumConcat(e, a[2..], b);
    }
  }

  lemma {:induction false} OnesSumFoldsWordSum(b: seq<byte>)
    ensures OnesSum(b) == Folded(WordSum(Big, b))
  {
    if |b| >= 2 {
      OnesSumFoldsWordSum(b[2..]);
      FoldedStep(Join(b[0], b[1]), WordSum(Big, b[2..]));
    }
  }

  lemma FoldedStep(w: u16, s: nat)
    ensures OnesAdd(w, Folded(s)) == Folded(w + s)
  {}

  function HighOctets(b: seq<byte>): nat {
    if |b| == 0 then 0 else if |b| == 1 then b[0] else b[0] + HighOctets(b[2..])
  }

  /** Swapping the octets of every word multiplies the sum by 256 modulo 65535. */
  lemma {:induction false} LittleIsShiftedBig(b: seq<byte>)
    ensures WordSum(Little, b) == 256 * WordSum(Big, b) - 0xffff * HighOctets(b)
    ensures WordSum(Little, b) == 0 <==> WordSum(Big, b) == 0
  {
    if |b| >= 2 {
      LittleIsShiftedBig(b[2..]);
    }
  }

  function Swap(v: u16): u16 {
    v % 256 * 256 + v / 256
  }

  lemma SwapFolded(big: nat, little: nat, h: nat)
    requires little == 256 * big - 0xffff * h
    requires little == 0 <==> big == 0
    ensures Folded(little) == Swap(Folded(big))
  {
    if big > 0 {
      var q, r := (big - 1) / 0xffff, (little - 1) / 0xffff;
      var f, g := Folded(big), Folded(little);
      assert big == 0xffff * q + f && little == 0xffff * r + g;
      assert Swap(f) == 256 * f - 0xffff * (f / 256);
      assert Swap(f) - g == 0xffff * (h + r - 256 * q - f / 256);
      assert 1 <= Swap(f) <= 0xffff && 1 <= g <= 0xffff;
    }
  }

  /**
   * Byte-order independence, RFC 1071 section 2(B): folding a native sum and storing the
   * complement natively leaves exactly the octets of the big-endian checksum.
   */
  lemma {:induction false} ByteOrderIndependence(e: Endian, b: seq<byte>)
    ensures FirstStored(e, 0xffff - Folded(WordSum(e, b))) == Rfc1071(b) / 256
    ensures SecondStored(e, 0xffff - Folded(WordSum(e, b))) == Rfc1071(b) % 256
  {
    var v := Rfc1071(b);
    OnesSumFoldsWordSum(b);
    match e
    case Big =>
    case Little =>
      assert 0xffff - Folded(WordSum(Little, b)) == Swap(v) by {
        LittleIsShiftedBig(b);
        SwapFolded(WordSum(Big, b), WordSum(Little, b), HighOctets(b));
        ComplementOfSwap(OnesSum(b));
      }
      ComplementOfSwap(v);
  }

  lemma ComplementOfSwap(v: u16)
    ensures 0xffff - Swap(v) == Swap(0xffff - v)
    ensures Swap(v) % 256 == v / 256 && Swap(v) / 256 == v % 256
  {
    var hi, lo := v / 256, v % 256;
    SwapOf(hi, lo);
    SwapOf(255 - hi, 255 - lo);
    assert 0xffff - v == 256 * (255 - hi) + (255 - lo);
  }

  lemma SwapOf(hi: byte, lo: byte)
    ensures Swap(256 * hi + lo) == 256 * lo + hi
    ensures (256 * lo + hi) % 256 == hi && (256 * lo + hi) / 256 == lo
  {}

  // ---- what a receiver that sums the stored checksum sees ----

  /** b with the 16-bit value c stored in network order at offset off. */
  function WithCheck(b: seq<byte>, off: nat, c: u16): (r: seq<byte>)
    requires off + 2 <= |b|
    ensures |r| == |b|
    ensures forall k :: 0 <= k < |b| && k != off && k != off + 1 ==> r[k] == b[k]
    ensures Rd16(r, off) == c
  {
    b[off := c / 256][off + 1 := c % 256]
  }

  lemma WordSumPair(x: byte, y: byte, rest: seq<byte>)
    ensures WordSum(Big, [x, y] + rest) == Join(x, y) + WordSum(Big, rest)
  {
    assert ([x, y] + rest)[2..] == rest;
  }

  lemma WordSumAround(b: seq<byte>, off: nat)
    requires off % 2 == 0 && off + 2 <= |b|
    ensures WordSum(Big, b) == WordSum(Big, b[..off]) + Rd16(b, off) + WordSum(Big, b[off + 2..])
  {
    assert b == b[..off] + b[off..];
    assert b[off..] == [b[off], b[off + 1]] + b[off + 2..];
    WordSumConcat(Big, b[..off], b[off..]);
    WordSumPair(b[off], b[off + 1], b[off + 2..]);
  }

  lemma WordSumWithCheck(b: seq<byte>, off: nat, c: u16)
    requires off % 2 == 0 && off + 2 <= |b| && b[off] == b[off + 1] == 0
    ensures WordSum(Big, WithCheck(b, off, c)) == WordSum(Big, b) + c
  {
    var r := WithCheck(b, off, c);
    WordSumAround(b, off);
    WordSumAround(r, off);
    assert r[..off] == b[..off] && r[off + 2..] == b[off + 2..];
  }

  /**
   * Soundness: with the RFC 1071 checksum in place the whole sums to all ones, and so it
   * does when a zero checksum is sent as 0xffff (RFC 768; section 8.1 of RFC 8200).
   */
  lemma StoredChecksumVerifies(b: seq<byte>, off: nat, c: u16)
    requires off % 2 == 0 && off + 2 <= |b| && b[off] == b[off + 1] == 0
    ensures OnesSum(WithCheck(b, off, c)) == 0xffff
       <==> c == Rfc1071(b) || (Rfc1071(b) == 0 && c == 0xffff)
  {
    WordSumWithCheck(b, off, c);
    OnesSumFoldsWordSum(b);
    OnesSumFoldsWordSum(WithCheck(b, off, c));
    ComplementFoldsToOnes(WordSum(Big, b), c);
  }

  lemma ComplementFoldsToOnes(s: nat, c: u16)
    ensures Folded(s + c) == 0xffff <==> c == 0xffff - Folded(s) || (Folded(s) == 0xffff && c == 0xffff)
  {
    FoldedStep(c, s);
  }
}
