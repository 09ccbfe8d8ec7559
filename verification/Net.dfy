/** Checksums over buffers, frame construction in place, and the raw-socket injector (net.c). */
module Net {
  import opened Bytes
  import opened Config
  import opened Checksum
  import opened Packet
  import K = Kernel

  /** The outcome of one sendto and the value rand() gave for the IPv4 identification. */
  datatype SendEnv = SendEnv(ok: bool, id: u16)

  // ---- checksums ----

  /** Stores the native value v at off, as a 16-bit assignment through a struct pointer does. */
  method StoreNative(e: Endian, buf: array<byte>, off: nat, v: u16)
    requires off + 2 <= buf.Length
    modifies buf
    ensures buf[..] == old(buf[..])[off := FirstStored(e, v)][off + 1 := SecondStored(e, v)]
  {
    buf[off] := FirstStored(e, v);
    buf[off + 1] := SecondStored(e, v);
  }

  /** memcpy. */
  method Copy(buf: array<byte>, off: nat, s: seq<byte>)
    requires off + |s| <= buf.Length
    modifies buf
    ensures buf[..] == old(buf[..off]) + s + old(buf[off + |s|..])
    ensures buf[..off] == old(buf[..off])
    ensures buf[off..off + |s|] == s
    ensures buf[..off + |s|] == old(buf[..off]) + s
  {
    forall k | 0 <= k < |s| {
      buf[off + k] := s[k];
    }
    assert buf[..off + |s|] == buf[..off] + buf[off..off + |s|];
  }

  /** Two runs of the accumulator over parts small enough to fit in a frame do not wrap. */
  lemma {:induction false} TwoSums(e: Endian, a: seq<byte>, b: seq<byte>, sumA: u32, sumAB: u32)
    requires |a| % 2 == 0 && |a| <= 40 && |b| <= MAX_FRAME
    requires sumA == WordSum(e, a) % 0x1_0000_0000
    requires sumAB == (sumA + WordSum(e, b)) % 0x1_0000_0000
    ensures sumAB == WordSum(e, a + b)
  {
    WordSumBound(e, a);
    WordSumBound(e, b);
    WordSumConcat(e, a, b);
    NoWrap(WordSum(e, a), WordSum(e, b), sumA, sumAB);
  }

  lemma NoWrap(x: nat, y: nat, sx: nat, sxy: nat)
    requires x + y < 0x1_0000_0000
    requires sx == x % 0x1_0000_0000 && sxy == (sx + y) % 0x1_0000_0000
    ensures sx == x && sxy == x + y
  {}

  /** The pseudo-header, laid out in a buffer of its own and summed. */
  method PseudoSum(e: Endian, f: Family, src: Address, dst: Address, proto: byte, l4len: nat) returns (sum: u32)
    ensures sum == WordSum(e, Pseudo(f, src, dst, proto, l4len)) % 0x1_0000_0000
  {
    var size := if f.Inet? then 12 else 40;
    var ph := new byte[size];
    var fill := Pseudo(f, src, dst, proto, l4len);
    Copy(ph, 0, fill);
    assert ph[0..0 + size] == fill;
    sum := Accumulate(e, ph, 0, size, 0);
  }

  /**
   * l4_checksum4 and l4_checksum6: the pseudo-header is summed first, then the segment where
   * it lies.  For a segment within a frame the accumulator cannot wrap.
   */
  method L4Checksum(e: Endian, f: Family, src: Address, dst: Address, proto: byte,
                    buf: array<byte>, off: nat, l4len: nat) returns (c: u16)
    requires off + l4len <= buf.Length <= MAX_FRAME
    ensures c == 0xffff - Folded(WordSum(e, Pseudo(f, src, dst, proto, l4len) + buf[off..off + l4len]))
  {
    var sum1 := PseudoSum(e, f, src, dst, proto, l4len);
    var sum2 := Accumulate(e, buf, off, l4len, sum1);
    TwoSums(e, Pseudo(f, src, dst, proto, l4len), buf[off..off + l4len], sum1, sum2);
    c := Fold(sum2);
  }

  // ---- L4 segments ----

  method BuildTcpL4(buf: array<byte>, t: TcpFields, payload: seq<byte>) returns (n: nat)
    requires 20 + |payload| <= buf.Length
    modifies buf
    ensures n == 20 + |payload|
    ensures buf[..n] == TcpHeader(t) + payload
  {
    forall k | 0 <= k < 20 {
      buf[k] := 0;
    }
    Copy(buf, 0, Be16(t.sport));
    Copy(buf, 2, Be16(t.dport));
    Copy(buf, 4, Be32(t.sn));
    Copy(buf, 8, Be32(t.ack));
    Copy(buf, 12, [5 * 16, t.flags]);
    Copy(buf, 14, Be16(t.window));
    Copy(buf, 16, [0, 0]);
    Copy(buf, 18, [0, 0]);
    TcpHeaderParts(t);
    assert buf[..20] == TcpHeader(t);
    Copy(buf, 20, payload);
    n := 20 + |payload|;
  }

  method BuildUdpL4(buf: array<byte>, sport: u16, dport: u16, payload: seq<byte>) returns (n: nat)
    requires 8 + |payload| <= buf.Length
    modifies buf
    ensures n == 8 + |payload|
    ensures buf[..n] == UdpHeader(sport, dport, 8 + |payload|) + payload
  {
    buf[0], buf[1] := Octet(sport, 1), Octet(sport, 0);
    buf[2], buf[3] := Octet(dport, 1), Octet(dport, 0);
    buf[4], buf[5] := Octet(8 + |payload|, 1), Octet(8 + |payload|, 0);
    buf[6], buf[7] := 0, 0;
    assert buf[..8] == UdpHeader(sport, dport, 8 + |payload|);
    Copy(buf, 8, payload);
    n := 8 + |payload|;
  }

  // ---- IP headers in place ----

  method WriteIp4(e: Endian, frame: array<byte>, total: nat, id: u16, ttl: nat, proto: byte, src: Address, dst: Address)
    requires 20 <= frame.Length <= MAX_FRAME
    modifies frame
    ensures frame[..20] == Ip4Header(total, id, ttl, proto, src, dst)
  {
    ghost var bare := Ip4Bare(total, id, ttl, proto, src, dst);
    frame[0], frame[1] := 4 * 16 + 5, 0;
    frame[2], frame[3] := Octet(total, 1), Octet(total, 0);
    frame[4], frame[5] := Octet(id, 1), Octet(id, 0);
    frame[6], frame[7] := 0x40, 0;
    frame[8], frame[9] := Octet(ttl, 0), proto;
    frame[10], frame[11] := 0, 0;
    assert frame[..12] == bare[..12];
    Copy(frame, 12, src[..4]);
    Copy(frame, 16, dst[..4]);
    assert frame[..20] == bare;
    SealIp4(e, frame, bare);
  }

  /** ip->check = csum_fold(csum_accumulate(ip, 20, 0)). */
  method SealIp4(e: Endian, frame: array<byte>, ghost bare: seq<byte>)
    requires 20 <= frame.Length && |bare| == 20 && frame[..20] == bare
    modifies frame
    ensures frame[..20] == WithCheck(bare, 10, Rfc1071(bare))
  {
    assert frame[0..0 + 20] == bare;
    var sum := Accumulate(e, frame, 0, 20, 0);
    TwoSums(e, [], bare, 0, sum);
    assert [] + bare == bare;
    var c := Fold(sum);
    ByteOrderIndependence(e, bare);
    StoreNative(e, frame, 10, c);
    assert frame[..20] == bare[10 := Rfc1071(bare) / 256][11 := Rfc1071(bare) % 256];
  }

  method WriteIp6(frame: array<byte>, l4len: nat, ttl: nat, proto: byte, src: Address, dst: Address)
    requires 40 <= frame.Length
    modifies frame
    ensures frame[..40] == Ip6Header(l4len, ttl, proto, src, dst)
  {
    frame[0], frame[1], frame[2], frame[3] := 6 * 16, 0, 0, 0;
    frame[4], frame[5] := Octet(l4len, 1), Octet(l4len, 0);
    frame[6], frame[7] := proto, Octet(ttl, 0);
    assert frame[..8] == Ip6Header(l4len, ttl, proto, src, dst)[..8];
    Copy(frame, 8, src);
    Copy(frame, 24, dst);
  }

  /** Computes the segment's checksum where it lies and stores it; a zero UDP checksum becomes 0xffff. */
  method Seal(e: Endian, f: Family, src: Address, dst: Address, proto: byte, frame: array<byte>, off: nat, l4len: nat)
    requires off + l4len <= frame.Length <= MAX_FRAME
    requires Unsealed(proto, frame[off..off + l4len])
    modifies frame
    ensures frame[..off] == old(frame[..off])
    ensures frame[off..off + l4len] == Sealed(f, src, dst, proto, old(frame[off..off + l4len]))
  {
    ghost var l4 := frame[off..off + l4len];
    ghost var summed := Pseudo(f, src, dst, proto, l4len) + l4;
    var c := L4Checksum(e, f, src, dst, proto, frame, off, l4len);
    ByteOrderIndependence(e, summed);
    if proto != PROTO_TCP && c == 0 {
      c := 0xffff;
    }
    NativeCheckOctets(e, c, L4Check(f, src, dst, proto, l4), Rfc1071(summed), proto);
    StoreNative(e, frame, off + CheckOffset(proto), c);
  }

  /** Substituting 0xffff for a zero checksum before or after the byte swap is the same. */
  lemma NativeCheckOctets(e: Endian, c: u16, check: u16, rfc: u16, proto: byte)
    requires check == if proto != PROTO_TCP && rfc == 0 then 0xffff else rfc
    requires exists v: u16 | FirstStored(e, v) == rfc / 256 && SecondStored(e, v) == rfc % 256 ::
               c == if proto != PROTO_TCP && v == 0 then 0xffff else v
    ensures FirstStored(e, c) == check / 256 && SecondStored(e, c) == check % 256
  {}

  // ---- the injector ----

  class Injector {
    var fd4: int
    var fd6: int

    constructor ()
      ensures fd4 == fd6 == -1
    {
      fd4, fd6 := -1, -1;
    }

    function Fd(f: Family): int
      reads this
    {
      if f.Inet? then fd4 else fd6
    }
  }

  /** The outcome of each call in bd_injector_open. */
  datatype OpenEnv = OpenEnv(sock4: bool, hdr4: bool, mark4: bool, sock6: bool, hdr6: bool, mark6: bool)

  /**
   * bd_injector_open: on failure no socket is left behind; on success the IPv4 socket is
   * open, the IPv6 one is if it was wanted and could be had, and each carries the mark
   * unless SO_MARK failed, which is only a warning.
   */
  method InjectorOpen(k: K.Host, inj: Injector, want6: bool, o: OpenEnv) returns (rc: int)
    requires k.Valid()
    modifies k`sockets, k`nextFd, inj
    ensures k.Valid()
    ensures rc == (if o.sock4 && o.hdr4 then 0 else -1)
    ensures rc != 0 ==> inj.fd4 == inj.fd6 == -1 && k.sockets == old(k.sockets)
    ensures rc == 0 ==>
      && Marked(k, inj, Inet, if o.mark4 then FWMARK else 0) && inj.fd4 !in old(k.sockets)
      && (if want6 && o.sock6 && o.hdr6 then
            Marked(k, inj, Inet6, if o.mark6 then FWMARK else 0)
            && inj.fd6 !in old(k.sockets) && inj.fd6 != inj.fd4
          else inj.fd6 == -1)
      && k.sockets - {inj.fd4, inj.fd6} == old(k.sockets)
  {
    inj.fd4, inj.fd6 := -1, -1;
    inj.fd4 := k.OpenSocket(Inet, o.sock4);
    if inj.fd4 < 0 {
      return -1;
    }
    if !o.hdr4 {
      k.CloseSocket(inj.fd4);
      inj.fd4 := -1;
      assert k.sockets == old(k.sockets);
      return -1;
    }
    var m4 := k.SetMark(inj.fd4, FWMARK, o.mark4);
    ghost var with4 := k.sockets;
    assert with4 - {inj.fd4} == old(k.sockets);
    if want6 {
      inj.fd6 := OpenInet6(k, o);
    }
    assert k.sockets - {inj.fd4, inj.fd6} == with4 - {inj.fd4};
    rc := 0;
  }

  /** The IPv6 half of bd_injector_open: any failure only leaves IPv6 injection off. */
  method OpenInet6(k: K.Host, o: OpenEnv) returns (fd: int)
    requires k.Valid()
    modifies k`sockets, k`nextFd
    ensures k.Valid()
    ensures if o.sock6 && o.hdr6 then
              0 <= fd && fd !in old(k.sockets)
              && k.sockets == old(k.sockets)[fd := K.Socket(Inet6, if o.mark6 then FWMARK else 0)]
            else fd == -1 && k.sockets == old(k.sockets)
  {
    fd := k.OpenSocket(Inet6, o.sock6);
    if fd < 0 {
      return;
    }
    if !o.hdr6 {
      k.CloseSocket(fd);
      assert k.sockets == old(k.sockets);
      return -1;
    }
    var m6 := k.SetMark(fd, FWMARK, o.mark6);
  }

  /** The socket for family f is open, of that family, and stamps the given mark. */
  ghost predicate Marked(k: K.Host, inj: Injector, f: Family, mark: u32)
    reads k`sockets, inj
  {
    0 <= inj.Fd(f) && inj.Fd(f) in k.sockets && k.sockets[inj.Fd(f)] == K.Socket(f, mark)
  }

  method InjectorClose(k: K.Host, inj: Injector)
    requires k.Valid()
    modifies k`sockets, inj
    ensures k.Valid() && k.sockets == old(k.sockets) - {old(inj.fd4), old(inj.fd6)}
    ensures inj.fd4 == inj.fd6 == -1
  {
    if inj.fd4 >= 0 {
      k.CloseSocket(inj.fd4);
    }
    if inj.fd6 >= 0 {
      k.CloseSocket(inj.fd6);
    }
    inj.fd4, inj.fd6 := -1, -1;
  }

  /** Whether sending an L4 segment of the given length over family f succeeds. */
  predicate Sends(k: K.Host, inj: Injector, f: Family, l4len: nat, env: SendEnv)
    reads k`sockets, inj
  {
    Fits(f, l4len) && inj.Fd(f) in k.sockets && env.ok
  }

  /** What a successful send to address dst adds to the wire. */
  function Emission(k: K.Host, inj: Injector, f: Family, dst: Address, frame: seq<byte>): K.Sent
    requires inj.Fd(f) in k.sockets
    reads k`sockets, inj
  {
    K.Sent(frame, OfFamily(f, dst), k.sockets[inj.Fd(f)].family, k.sockets[inj.Fd(f)].mark)
  }

  method WriteHeader(e: Endian, frame: array<byte>, f: Family, src: Address, dst: Address,
                     proto: byte, ttl: nat, id: u16, l4len: nat)
    requires HeaderLen(f) <= frame.Length <= MAX_FRAME
    modifies frame
    ensures frame[..HeaderLen(f)] == IpHeader(f, src, dst, proto, ttl, id, l4len)
  {
    if f.Inet? {
      WriteIp4(e, frame, 20 + l4len, id, ttl, proto, src, dst);
    } else {
      WriteIp6(frame, l4len, ttl, proto, src, dst);
    }
  }

  /** Assembles a whole frame in place: the IP header, the segment behind it, the segment's checksum. */
  method FillFrame(e: Endian, frame: array<byte>, f: Family, src: Address, dst: Address,
                   proto: byte, ttl: nat, id: u16, l4: seq<byte>)
    requires HeaderLen(f) + |l4| <= frame.Length <= MAX_FRAME && Unsealed(proto, l4)
    modifies frame
    ensures frame[..HeaderLen(f) + |l4|] == Frame(f, src, dst, proto, ttl, id, l4)
  {
    var off := HeaderLen(f);
    WriteHeader(e, frame, f, src, dst, proto, ttl, id, |l4|);
    Copy(frame, off, l4);
    Seal(e, f, src, dst, proto, frame, off, |l4|);
    assert frame[..off + |l4|] == frame[..off] + frame[off..off + |l4|];
  }

  /** inject4 and inject6: nothing leaves unless the frame fits and the socket takes it. */
  method Inject(e: Endian, k: K.Host, inj: Injector, f: Family, src: Address, dst: Address,
                proto: byte, ttl: nat, l4: array<byte>, l4len: nat, env: SendEnv) returns (rc: int)
    requires k.Valid() && l4len <= l4.Length && Unsealed(proto, l4[..l4len])
    modifies k`wire
    ensures rc == (if Sends(k, inj, f, l4len, env) then 0 else -1)
    ensures k.wire == old(k.wire) + (if rc == 0 then
              [Emission(k, inj, f, dst, Frame(f, src, dst, proto, ttl, env.id, l4[..l4len]))] else [])
  {
    var frame := new byte[MAX_FRAME];
    var total := HeaderLen(f) + l4len;
    if total > MAX_FRAME {
      return -1;
    }
    FillFrame(e, frame, f, src, dst, proto, ttl, env.id, l4[..l4len]);
    rc := SendFrame(k, inj, f, frame, total, dst, env.ok);
  }

  /** send_frame4 and send_frame6. */
  method SendFrame(k: K.Host, inj: Injector, f: Family, frame: array<byte>, total: nat, dst: Address, ok: bool)
      returns (rc: int)
    requires k.Valid() && total <= frame.Length
    modifies k`wire
    ensures rc == (if inj.Fd(f) in k.sockets && ok then 0 else -1)
    ensures k.wire == old(k.wire) + (if rc == 0 then [Emission(k, inj, f, dst, frame[..total])] else [])
  {
    if f.Inet6? && inj.fd6 < 0 {
      return -1;
    }
    var n := k.SendTo(inj.Fd(f), frame, total, OfFamily(f, dst), ok);
    rc := if n < 0 then -1 else 0;
  }

  /** Every frame is handed over for the destination its own header names. */
  lemma EmissionGoesToDestination(k: K.Host, inj: Injector, f: Family, src: Address, dst: Address,
                                  proto: byte, ttl: nat, id: u16, l4: seq<byte>)
    requires inj.Fd(f) in k.sockets && Unsealed(proto, l4)
    ensures var m := Emission(k, inj, f, dst, Frame(f, src, dst, proto, ttl, id, l4));
      m.to == if f.Inet? then m.bytes[16..20] else m.bytes[24..40]
  {
    FrameGoesToDestination(f, src, dst, proto, ttl, id, l4);
  }

  method SendTcp(e: Endian, k: K.Host, inj: Injector, src: Endpoint, dst: Endpoint, t: TcpFields,
                 ttl: nat, payload: seq<byte>, env: SendEnv) returns (rc: int)
    requires k.Valid()
    modifies k`wire
    ensures rc == (if Sends(k, inj, src.family, 20 + |payload|, env) then 0 else -1)
    ensures k.wire == old(k.wire) + (if rc == 0 then
              [Emission(k, inj, src.family, dst.addr, TcpFrame(src, dst, t, ttl, env.id, payload))] else [])
  {
    var l4 := new byte[MAX_FRAME];
    if 20 + |payload| > MAX_FRAME {
      return -1;
    }
    var l4len := BuildTcpL4(l4, t, payload);
    rc := Inject(e, k, inj, src.family, src.addr, dst.addr, PROTO_TCP, ttl, l4, l4len, env);
  }

  method SendUdp(e: Endian, k: K.Host, inj: Injector, src: Endpoint, dst: Endpoint, sport: u16, dport: u16,
                 ttl: nat, payload: seq<byte>, env: SendEnv) returns (rc: int)
    requires k.Valid()
    modifies k`wire
    ensures rc == (if Sends(k, inj, src.family, 8 + |payload|, env) then 0 else -1)
    ensures k.wire == old(k.wire) + (if rc == 0 then
              [Emission(k, inj, src.family, dst.addr, UdpFrame(src, dst, sport, dport, ttl, env.id, payload))] else [])
  {
    var l4 := new byte[MAX_FRAME];
    if 8 + |payload| > MAX_FRAME {
      return -1;
    }
    var l4len := BuildUdpL4(l4, sport, dport, payload);
    rc := Inject(e, k, inj, src.family, src.addr, dst.addr, PROTO_UDP, ttl, l4, l4len, env);
  }
}
