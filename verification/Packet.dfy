/**
 * Wire formats: the parser's view of a packet (net.c:144-223) and the frames the
 * injector lays out (net.c:266-367), as functions on octet sequences.
 */
module Packet {
  import opened Bytes
  import opened Config
  import opened Checksum

  const MAX_FRAME: nat := 2048

  type Address = a: seq<byte> | |a| == 16
    witness [0, 0, 0, 0, 0, 0, 0, 0, 0, 0, 0, 0, 0, 0, 0, 0]

  datatype Endpoint = Endpoint(family: Family, addr: Address)

  const ZEROS12: seq<byte> := [0, 0, 0, 0, 0, 0, 0, 0, 0, 0, 0, 0]
  const NO_ENDPOINT := Endpoint(Inet, [0, 0, 0, 0] + ZEROS12)

  /** struct bd_packet; the payload pointer becomes the octets it points to. */
  datatype Packet = Packet(
    family: Family, l3Len: nat, proto: byte,
    src: Endpoint, dst: Endpoint, sport: u16, dport: u16,
    sn: u32, ack: u32, flags: byte, window: u16,
    payload: seq<byte>)

  const NO_PACKET := Packet(Inet, 0, 0, NO_ENDPOINT, NO_ENDPOINT, 0, 0, 0, 0, 0, 0, [])

  // ---- parsing ----

  datatype L3 = L3(family: Family, len: nat, proto: byte, src: Endpoint, dst: Endpoint)

  function ParseL3(d: seq<byte>): (r: Option<L3>)
    ensures r.Some? ==> 20 <= r.value.len <= |d|
  {
    if |d| < 1 then None
    else if d[0] / 16 == 4 then
      var ihl := d[0] % 16 * 4;
      if |d| < 20 || ihl < 20 || |d| < ihl then None
      else Some(L3(Inet, ihl, d[9], Endpoint(Inet, d[12..16] + ZEROS12), Endpoint(Inet, d[16..20] + ZEROS12)))
    else if d[0] / 16 == 6 then
      if |d| < 40 then None
      else Some(L3(Inet6, 40, d[6], Endpoint(Inet6, d[8..24]), Endpoint(Inet6, d[24..40])))
    else None
  }

  function ParseL4(n: L3, s: seq<byte>): Option<Packet> {
    if n.proto == PROTO_TCP then
      if |s| < 20 then None
      else
        var doff := s[12] / 16 * 4;
        if doff < 20 || |s| < doff then None
        else Some(Packet(n.family, n.len, n.proto, n.src, n.dst, Rd16(s, 0), Rd16(s, 2),
                         Rd32(s, 4), Rd32(s, 8), s[13], Rd16(s, 14), s[doff..]))
    else if n.proto == PROTO_UDP then
      if |s| < 8 then None
      else Some(Packet(n.family, n.len, n.proto, n.src, n.dst, Rd16(s, 0), Rd16(s, 2), 0, 0, 0, 0, s[8..]))
    else None
  }

  function Parse(d: seq<byte>): Option<Packet> {
    var n := ParseL3(d);
    if n.None? then None else ParseL4(n.value, d[n.value.len..])
  }

  /**
   * The IP part octet by octet, for every input: any header length and type of service of IPv4,
   * any traffic class and flow label of IPv6, and nothing else.
   */
  lemma ParseL3Octets(d: seq<byte>)
    ensures ParseL3(d) ==
      if |d| >= 20 && 0x45 <= d[0] <= 0x4f && 4 * (d[0] as int - 0x40) <= |d| then
        Some(L3(Inet, 4 * (d[0] as int - 0x40), d[9],
                Endpoint(Inet, d[12..16] + ZEROS12), Endpoint(Inet, d[16..20] + ZEROS12)))
      else if |d| >= 40 && 0x60 <= d[0] <= 0x6f then
        Some(L3(Inet6, 40, d[6], Endpoint(Inet6, d[8..24]), Endpoint(Inet6, d[24..40])))
      else None
  {
    if |d| > 0 {
      var v: int := d[0];
      assert v == 16 * (v / 16) + v % 16;
    }
  }

  /** The TCP part octet by octet, for every input. */
  lemma ParseTcpOctets(n: L3, s: seq<byte>)
    requires n.proto == 6
    ensures ParseL4(n, s).Some? <==> |s| >= 20 && 0x50 <= s[12] && 4 * (s[12] as int / 16) <= |s|
    ensures ParseL4(n, s).Some? ==>
      var p := ParseL4(n, s).value;
      && p == Packet(n.family, n.len, 6, n.src, n.dst, p.sport, p.dport, p.sn, p.ack, s[13], p.window,
                     s[4 * (s[12] as int / 16)..])
      && p.sport == Word16(s[0], s[1]) && p.dport == Word16(s[2], s[3]) && p.window == Word16(s[14], s[15])
      && p.sn == Word32(s[4], s[5], s[6], s[7]) && p.ack == Word32(s[8], s[9], s[10], s[11])
  {
    if |s| >= 20 {
      NetworkOrder(s, 0);
      NetworkOrder(s, 4);
      NetworkOrder(s, 8);
      var high: int := s[12];
      assert s[12] / 16 == high / 16;
    }
  }

  /** The UDP part; its length field is not read. */
  lemma ParseUdpOctets(n: L3, s: seq<byte>)
    requires n.proto == 17
    ensures ParseL4(n, s).Some? <==> |s| >= 8
    ensures ParseL4(n, s).Some? ==>
      var p := ParseL4(n, s).value;
      && p == Packet(n.family, n.len, 17, n.src, n.dst, p.sport, p.dport, 0, 0, 0, 0, s[8..])
      && p.sport == Word16(s[0], s[1]) && p.dport == Word16(s[2], s[3])
  {
    if |s| >= 8 {
      NetworkOrder(s, 0);
    }
  }

  lemma ParseOtherProtocols(n: L3, s: seq<byte>)
    requires n.proto != 6 && n.proto != 17
    ensures ParseL4(n, s) == None
  {}

  /** bd_packet_parse: fills the packet field by field. */
  method PacketParse(data: seq<byte>) returns (rc: int, p: Packet)
    ensures rc == (if Parse(data).Some? then 0 else -1)
    ensures rc == 0 ==> p == Parse(data).value
  {
    rc, p := -1, NO_PACKET;
    var len := |data|;
    if len < 1 {
      return;
    }
    var version := data[0] / 16;
    var l4 := [];
    if version == 4 {
      if len < 20 {
        return;
      }
      var low: int := data[0];
      var ihl := low % 16 * 4;
      if ihl < 20 || len < ihl {
        return;
      }
      p := p.(family := Inet, l3Len := ihl, proto := data[9]);
      p := p.(src := Endpoint(Inet, data[12..16] + ZEROS12));
      p := p.(dst := Endpoint(Inet, data[16..20] + ZEROS12));
      l4 := data[ihl..];
    } else if version == 6 {
      if len < 40 {
        return;
      }
      p := p.(family := Inet6, l3Len := 40, proto := data[6]);
      p := p.(src := Endpoint(Inet6, data[8..24]));
      p := p.(dst := Endpoint(Inet6, data[24..40]));
      l4 := data[40..];
    } else {
      return;
    }
    if p.proto == PROTO_TCP {
      if |l4| < 20 {
        return;
      }
      var high: int := l4[12];
      var doff := high / 16 * 4;
      if doff < 20 || |l4| < doff {
        return;
      }
      p := p.(sport := Rd16(l4, 0), dport := Rd16(l4, 2), sn := Rd32(l4, 4), ack := Rd32(l4, 8));
      p := p.(window := Rd16(l4, 14), flags := l4[13], payload := l4[doff..]);
    } else if p.proto == PROTO_UDP {
      if |l4| < 8 {
        return;
      }
      p := p.(sport := Rd16(l4, 0), dport := Rd16(l4, 2), payload := l4[8..]);
    } else {
      return;
    }
    rc := 0;
  }

  // ---- layout ----

  datatype TcpFields = TcpFields(sport: u16, dport: u16, sn: u32, ack: u32, flags: byte, window: u16)

  /** A TCP header without options, its checksum and urgent pointer zero. */
  function TcpHeader(t: TcpFields): (h: seq<byte>)
    ensures |h| == 20
  {
    [Octet(t.sport, 1), Octet(t.sport, 0), Octet(t.dport, 1), Octet(t.dport, 0),
     Octet(t.sn, 3), Octet(t.sn, 2), Octet(t.sn, 1), Octet(t.sn, 0),
     Octet(t.ack, 3), Octet(t.ack, 2), Octet(t.ack, 1), Octet(t.ack, 0),
     0x50, t.flags, Octet(t.window, 1), Octet(t.window, 0), 0, 0, 0, 0]
  }

  lemma TcpHeaderParts(t: TcpFields)
    ensures TcpHeader(t) == [] + Be16(t.sport) + Be16(t.dport) + Be32(t.sn) + Be32(t.ack)
                            + [5 * 16, t.flags] + Be16(t.window) + [0, 0] + [0, 0]
  {
    var h := TcpHeader(t);
    TcpHeaderFront(t);
    TcpHeaderBack(t);
    assert h == h[..12] + h[12..];
  }

  lemma TcpHeaderBack(t: TcpFields)
    ensures TcpHeader(t)[12..] == [5 * 16, t.flags] + Be16(t.window) + [0, 0] + [0, 0]
  {}

  lemma TcpHeaderFront(t: TcpFields)
    ensures TcpHeader(t)[..12] == [] + Be16(t.sport) + Be16(t.dport) + Be32(t.sn) + Be32(t.ack)
  {
    var h := TcpHeader(t);
    assert h[..4] == [] + Be16(t.sport) + Be16(t.dport);
    assert h[4..12] == Be32(t.sn) + Be32(t.ack);
    assert h[..12] == h[..4] + h[4..12];
  }

  function UdpHeader(sport: u16, dport: u16, len: nat): (h: seq<byte>)
    ensures |h| == 8
  {
    [Octet(sport, 1), Octet(sport, 0), Octet(dport, 1), Octet(dport, 0), Octet(len, 1), Octet(len, 0), 0, 0]
  }

  function CheckOffset(proto: byte): nat {
    if proto == PROTO_TCP then 16 else 6
  }

  /** An L4 segment as the injector receives it: whole header, checksum field zero. */
  predicate Unsealed(proto: byte, l4: seq<byte>) {
    var off := CheckOffset(proto);
    off + 2 <= |l4| && l4[off] == l4[off + 1] == 0
  }

  /** The pseudo-header of RFC 9293 section 3.1 (IPv4) or RFC 8200 section 8.1 (IPv6). */
  function Pseudo(f: Family, src: Address, dst: Address, proto: byte, len: nat): (b: seq<byte>)
    ensures |b| % 2 == 0 && |b| <= 40
  {
    if f.Inet? then src[..4] + dst[..4] + [0, proto, Octet(len, 1), Octet(len, 0)]
    else src + dst + [Octet(len, 3), Octet(len, 2), Octet(len, 1), Octet(len, 0), 0, 0, 0, proto]
  }

  /** The RFC 1071 checksum of a segment; a zero UDP checksum is sent as 0xffff. */
  function L4Check(f: Family, src: Address, dst: Address, proto: byte, l4: seq<byte>): u16 {
    var c := Rfc1071(Pseudo(f, src, dst, proto, |l4|) + l4);
    if proto != PROTO_TCP && c == 0 then 0xffff else c
  }

  function Sealed(f: Family, src: Address, dst: Address, proto: byte, l4: seq<byte>): (r: seq<byte>)
    requires Unsealed(proto, l4)
    ensures |r| == |l4|
  {
    WithCheck(l4, CheckOffset(proto), L4Check(f, src, dst, proto, l4))
  }

  /** An IPv4 header of 20 octets with Don't Fragment set and the checksum field zero. */
  function Ip4Bare(total: nat, id: u16, ttl: nat, proto: byte, src: Address, dst: Address): (h: seq<byte>)
    ensures |h| == 20
  {
    [0x45, 0, Octet(total, 1), Octet(total, 0), Octet(id, 1), Octet(id, 0), 0x40, 0, Octet(ttl, 0), proto, 0, 0]
    + src[..4] + dst[..4]
  }

  function Ip4Header(total: nat, id: u16, ttl: nat, proto: byte, src: Address, dst: Address): (h: seq<byte>)
    ensures |h| == 20
  {
    var b := Ip4Bare(total, id, ttl, proto, src, dst);
    WithCheck(b, 10, Rfc1071(b))
  }

  function Ip6Header(len: nat, ttl: nat, proto: byte, src: Address, dst: Address): (h: seq<byte>)
    ensures |h| == 40
  {
    [0x60, 0, 0, 0, Octet(len, 1), Octet(len, 0), proto, Octet(ttl, 0)] + src + dst
  }

  function HeaderLen(f: Family): nat {
    if f.Inet? then 20 else 40
  }

  predicate Fits(f: Family, l4len: nat) {
    HeaderLen(f) + l4len <= MAX_FRAME
  }

  /** The IP header in front of a segment of l4len octets. */
  function IpHeader(f: Family, src: Address, dst: Address, proto: byte, ttl: nat, id: u16, l4len: nat): (h: seq<byte>)
    ensures |h| == HeaderLen(f)
  {
    if f.Inet? then Ip4Header(20 + l4len, id, ttl, proto, src, dst) else Ip6Header(l4len, ttl, proto, src, dst)
  }

  /** A whole frame of family f. */
  function Frame(f: Family, src: Address, dst: Address, proto: byte, ttl: nat, id: u16, l4: seq<byte>): (r: seq<byte>)
    requires Unsealed(proto, l4)
    ensures |r| == HeaderLen(f) + |l4|
  {
    IpHeader(f, src, dst, proto, ttl, id, |l4|) + Sealed(f, src, dst, proto, l4)
  }

  /** The part of an address that family f uses. */
  function OfFamily(f: Family, a: Address): seq<byte> {
    if f.Inet? then a[..4] else a
  }

  function TcpFrame(src: Endpoint, dst: Endpoint, t: TcpFields, ttl: nat, id: u16, payload: seq<byte>): seq<byte> {
    Frame(src.family, src.addr, dst.addr, PROTO_TCP, ttl, id, TcpHeader(t) + payload)
  }

  function UdpFrame(src: Endpoint, dst: Endpoint, sport: u16, dport: u16, ttl: nat, id: u16,
                    payload: seq<byte>): seq<byte>
  {
    Frame(src.family, src.addr, dst.addr, PROTO_UDP, ttl, id, UdpHeader(sport, dport, 8 + |payload|) + payload)
  }

  /** What a frame of family f can carry of an endpoint. */
  function Carried(f: Family, e: Endpoint): Endpoint {
    Endpoint(f, if f.Inet? then e.addr[..4] + ZEROS12 else e.addr)
  }

  // ---- build, then parse ----

  lemma ParseL3OfFrame(f: Family, src: Address, dst: Address, proto: byte, ttl: nat, id: u16, l4: seq<byte>)
    requires Unsealed(proto, l4)
    ensures ParseL3(Frame(f, src, dst, proto, ttl, id, l4))
         == Some(L3(f, HeaderLen(f), proto, Carried(f, Endpoint(f, src)), Carried(f, Endpoint(f, dst))))
    ensures Frame(f, src, dst, proto, ttl, id, l4)[HeaderLen(f)..] == Sealed(f, src, dst, proto, l4)
  {
    var h := IpHeader(f, src, dst, proto, ttl, id, |l4|);
    var s := Sealed(f, src, dst, proto, l4);
    assert (h + s)[HeaderLen(f)..] == s;
    HeaderOctets(f, src, dst, proto, ttl, id, |l4|);
    ParseL3OfHeader(f, h, s);
  }

  /** The octets of a built IP header, by position. */
  lemma HeaderOctets(f: Family, src: Address, dst: Address, proto: byte, ttl: nat, id: u16, l4len: nat)
    ensures var h := IpHeader(f, src, dst, proto, ttl, id, l4len);
      if f.Inet? then
        && h[0] == 0x45 && h[1] == 0 && h[4] == Octet(id, 1) && h[5] == Octet(id, 0) && h[6] == 0x40 && h[7] == 0
        && h[2] == Octet(20 + l4len, 1) && h[3] == Octet(20 + l4len, 0)
        && h[8] == Octet(ttl, 0) && h[9] == proto && h[12..16] == src[..4] && h[16..20] == dst[..4]
      else
        && h[0] == 0x60 && h[1] == h[2] == h[3] == 0 && h[4] == Octet(l4len, 1) && h[5] == Octet(l4len, 0)
        && h[6] == proto && h[7] == Octet(ttl, 0) && h[8..24] == src && h[24..40] == dst
  {
    if f.Inet? {
      var h := Ip4Header(20 + l4len, id, ttl, proto, src, dst);
      assert h[12..16] == src[..4] && h[16..20] == dst[..4];
    } else {
      var h := Ip6Header(l4len, ttl, proto, src, dst);
      assert h[8..24] == src && h[24..40] == dst;
    }
  }

  /** What any octets behind an option-free header parse to. */
  lemma ParseL3OfHeader(f: Family, h: seq<byte>, s: seq<byte>)
    requires |h| == HeaderLen(f) && h[0] == if f.Inet? then 0x45 else 0x60
    ensures ParseL3(h + s) == Some(
      if f.Inet? then L3(Inet, 20, h[9], Endpoint(Inet, h[12..16] + ZEROS12), Endpoint(Inet, h[16..20] + ZEROS12))
      else L3(Inet6, 40, h[6], Endpoint(Inet6, h[8..24]), Endpoint(Inet6, h[24..40])))
  {
    var d := h + s;
    assert d[0] == h[0];
    if f.Inet? {
      assert d[0] / 16 == 4 && d[0] % 16 == 5;
      assert d[9] == h[9] && d[12..16] == h[12..16] && d[16..20] == h[16..20];
    } else {
      assert d[0] / 16 == 6;
      assert d[6] == h[6] && d[8..24] == h[8..24] && d[24..40] == h[24..40];
    }
  }

  /** A segment that starts like a built TCP header parses to the header's fields. */
  lemma ParseL4OfTcp(n: L3, t: TcpFields, s: seq<byte>)
    requires n.proto == PROTO_TCP && |s| >= 20
    requires s[..16] == TcpHeader(t)[..16]
    ensures ParseL4(n, s) == Some(Packet(n.family, n.len, PROTO_TCP, n.src, n.dst, t.sport, t.dport,
                                         t.sn, t.ack, t.flags, t.window, s[20..]))
  {
    var h := s[..16];
    assert Rd16(s, 0) == Rd16(h, 0) && Rd16(s, 2) == Rd16(h, 2) && Rd16(s, 14) == Rd16(h, 14);
    assert Rd32(s, 4) == Rd32(h, 4) && Rd32(s, 8) == Rd32(h, 8);
    assert s[12] == h[12] && s[13] == h[13];
    OctetsOf16(t.sport);
    OctetsOf16(t.dport);
    OctetsOf16(t.window);
    OctetsOf32(t.sn);
    OctetsOf32(t.ack);
  }

  lemma ParseL4OfUdp(n: L3, sport: u16, dport: u16, len: nat, s: seq<byte>)
    requires n.proto == PROTO_UDP && |s| >= 8
    requires s[..4] == UdpHeader(sport, dport, len)[..4]
    ensures ParseL4(n, s) == Some(Packet(n.family, n.len, PROTO_UDP, n.src, n.dst, sport, dport, 0, 0, 0, 0, s[8..]))
  {
    var h := s[..4];
    assert Rd16(s, 0) == Rd16(h, 0) && Rd16(s, 2) == Rd16(h, 2);
    OctetsOf16(sport);
    OctetsOf16(dport);
  }

  /** What a packet built from the given fields parses to. */
  function Rebuilt(src: Endpoint, dst: Endpoint, proto: byte, t: TcpFields, payload: seq<byte>): Packet {
    var f := src.family;
    Packet(f, HeaderLen(f), proto, Carried(f, src), Carried(f, dst),
           t.sport, t.dport, t.sn, t.ack, t.flags, t.window, payload)
  }

  /** Parsing a built TCP frame recovers every field and the payload. */
  lemma {:induction false} TcpRoundTrip(src: Endpoint, dst: Endpoint, t: TcpFields, ttl: nat, id: u16, payload: seq<byte>)
    ensures Parse(TcpFrame(src, dst, t, ttl, id, payload)) == Some(Rebuilt(src, dst, PROTO_TCP, t, payload))
  {
    var l4 := TcpHeader(t) + payload;
    var s := Sealed(src.family, src.addr, dst.addr, PROTO_TCP, l4);
    ParseL3OfFrame(src.family, src.addr, dst.addr, PROTO_TCP, ttl, id, l4);
    assert s[..16] == TcpHeader(t)[..16];
    assert s[20..] == payload;
    ParseL4OfTcp(ParseL3(TcpFrame(src, dst, t, ttl, id, payload)).value, t, s);
  }

  lemma UdpRoundTrip(src: Endpoint, dst: Endpoint, sport: u16, dport: u16, ttl: nat, id: u16, payload: seq<byte>)
    ensures Parse(UdpFrame(src, dst, sport, dport, ttl, id, payload))
         == Some(Rebuilt(src, dst, PROTO_UDP, TcpFields(sport, dport, 0, 0, 0, 0), payload))
  {
    var h := UdpHeader(sport, dport, 8 + |payload|);
    var s := Sealed(src.family, src.addr, dst.addr, PROTO_UDP, h + payload);
    ParseL3OfFrame(src.family, src.addr, dst.addr, PROTO_UDP, ttl, id, h + payload);
    assert s[..4] == h[..4];
    assert s[8..] == payload;
    ParseL4OfUdp(ParseL3(UdpFrame(src, dst, sport, dport, ttl, id, payload)).value, sport, dport, 8 + |payload|, s);
  }

  /**
   * IPv4 and TCP options are skipped, whatever they are: a packet with any of them parses to
   * the fields of its two fixed headers and the octets behind the options.
   */
  lemma ParseSkipsOptions(ip: seq<byte>, ipOptions: seq<byte>, tcp: seq<byte>, tcpOptions: seq<byte>, payload: seq<byte>)
    requires |ip| == 20 && |ipOptions| % 4 == 0 && |ipOptions| <= 40
    requires ip[0] == 0x45 + |ipOptions| / 4 && ip[9] == PROTO_TCP
    requires |tcp| == 20 && |tcpOptions| % 4 == 0 && tcp[12] / 16 == 5 + |tcpOptions| / 4
    ensures Parse(ip + ipOptions + tcp + tcpOptions + payload)
         == Some(Packet(Inet, 20 + |ipOptions|, PROTO_TCP,
                        Endpoint(Inet, ip[12..16] + ZEROS12), Endpoint(Inet, ip[16..20] + ZEROS12),
                        Rd16(tcp, 0), Rd16(tcp, 2), Rd32(tcp, 4), Rd32(tcp, 8), tcp[13], Rd16(tcp, 14), payload))
  {
    var l4 := tcp + tcpOptions + payload;
    var d := ip + ipOptions + tcp + tcpOptions + payload;
    assert d == ip + ipOptions + l4;
    ParseL3SkipsOptions(ip, ipOptions, l4);
    ParseL4SkipsOptions(ParseL3(d).value, tcp, tcpOptions, payload);
  }

  lemma ParseL3SkipsOptions(ip: seq<byte>, options: seq<byte>, l4: seq<byte>)
    requires |ip| == 20 && |options| % 4 == 0 && |options| <= 40 && ip[0] == 0x45 + |options| / 4
    ensures var d := ip + options + l4;
      && ParseL3(d) == Some(L3(Inet, 20 + |options|, ip[9],
                              Endpoint(Inet, ip[12..16] + ZEROS12), Endpoint(Inet, ip[16..20] + ZEROS12)))
      && d[20 + |options|..] == l4
  {
    var d := ip + options + l4;
    assert d[0] == ip[0] && d[9] == ip[9] && d[12..16] == ip[12..16] && d[16..20] == ip[16..20];
    var quarter := |options| / 4;
    assert d[0] == 69 + quarter && quarter <= 10;
    assert d[0] / 16 == 4 && d[0] % 16 * 4 == 20 + |options|;
  }

  lemma ParseL4SkipsOptions(n: L3, tcp: seq<byte>, options: seq<byte>, payload: seq<byte>)
    requires n.proto == PROTO_TCP && |tcp| == 20 && |options| % 4 == 0 && tcp[12] / 16 == 5 + |options| / 4
    ensures ParseL4(n, tcp + options + payload)
         == Some(Packet(n.family, n.len, PROTO_TCP, n.src, n.dst, Rd16(tcp, 0), Rd16(tcp, 2),
                        Rd32(tcp, 4), Rd32(tcp, 8), tcp[13], Rd16(tcp, 14), payload))
  {
    var s := tcp + options + payload;
    assert s[12] == tcp[12] && s[13] == tcp[13];
    assert Rd16(s, 0) == Rd16(tcp, 0) && Rd16(s, 2) == Rd16(tcp, 2) && Rd16(s, 14) == Rd16(tcp, 14);
    assert Rd32(s, 4) == Rd32(tcp, 4) && Rd32(s, 8) == Rd32(tcp, 8);
    var quarter := |options| / 4;
    assert s[12] / 16 * 4 == 20 + |options|;
    assert s[20 + |options|..] == payload;
  }

  // ---- checksums at the receiver ----

  /** The segment length a receiver goes by: UDP's own length field, else what IP delivered. */
  function DeclaredLen(proto: byte, s: seq<byte>): nat {
    if proto == PROTO_UDP && |s| >= 8 then Rd16(s, 4) else |s|
  }

  /** The receiver's checks of the IPv4 header checksum and of the TCP or UDP checksum. */
  predicate Verifies(d: seq<byte>) {
    var n := ParseL3(d);
    n.Some?
    && (n.value.family.Inet? ==> OnesSum(d[..n.value.len]) == 0xffff)
    && SegmentVerifies(n.value, d[n.value.len..])
  }

  /** The words of an address, the first of its octets being the most significant. */
  function AddressTotal(f: Family, a: Address): nat {
    if f.Inet? then Rd16(a, 0) + Rd16(a, 2)
    else Rd16(a, 0) + Rd16(a, 2) + Rd16(a, 4) + Rd16(a, 6) + Rd16(a, 8) + Rd16(a, 10) + Rd16(a, 12) + Rd16(a, 14)
  }

  /**
   * What a receiver adds for the pseudo-header (RFC 9293 section 3.1; RFC 768; RFC 8200 section
   * 8.1): both addresses, the protocol number and the length, of 16 bits in IPv4, 32 in IPv6.
   */
  function PseudoTotal(f: Family, src: Address, dst: Address, proto: byte, len: nat): nat {
    AddressTotal(f, src) + AddressTotal(f, dst) + proto + len % 0x1_0000
    + if f.Inet? then 0 else len / 0x1_0000 % 0x1_0000
  }

  /** The one's complement sum of pseudo-header and segment is all ones. */
  predicate SegmentVerifies(n: L3, s: seq<byte>) {
    var len := DeclaredLen(n.proto, s);
    && len <= |s|
    && Folded(PseudoTotal(n.family, n.src.addr, n.dst.addr, n.proto, len) + WordSum(Big, s[..len])) == 0xffff
  }

  lemma FourOctets(b: seq<byte>)
    requires |b| == 4
    ensures WordSum(Big, b) == Rd16(b, 0) + Rd16(b, 2)
  {
    assert b[2..][2..] == [];
    assert WordSum(Big, b[2..]) == Word(Big, b[2], b[3]) + WordSum(Big, []);
  }

  lemma EightOctets(b: seq<byte>)
    requires |b| == 8
    ensures WordSum(Big, b) == Rd16(b, 0) + Rd16(b, 2) + Rd16(b, 4) + Rd16(b, 6)
  {
    FourOctets(b[..4]);
    FourOctets(b[4..]);
    WordSumConcat(Big, b[..4], b[4..]);
    assert b == b[..4] + b[4..];
  }

  lemma AddressWords(a: Address)
    ensures WordSum(Big, a[..4]) == AddressTotal(Inet, a)
    ensures WordSum(Big, a) == AddressTotal(Inet6, a)
  {
    FourOctets(a[..4]);
    EightOctets(a[..8]);
    EightOctets(a[8..]);
    WordSumConcat(Big, a[..8], a[8..]);
    assert a == a[..8] + a[8..];
  }

  /** The pseudo-header the injector lays out sums to what a receiver adds for it. */
  lemma {:induction false} PseudoIsRfc(f: Family, src: Address, dst: Address, proto: byte, len: nat)
    ensures WordSum(Big, Pseudo(f, src, dst, proto, len)) == PseudoTotal(f, src, dst, proto, len)
  {
    AddressWords(src);
    AddressWords(dst);
    if f.Inet? {
      var tail := [0, proto, Octet(len, 1), Octet(len, 0)];
      WordSumConcat(Big, src[..4], dst[..4]);
      WordSumConcat(Big, src[..4] + dst[..4], tail);
      FourOctets(tail);
      LowWord(len);
    } else {
      var tail := [Octet(len, 3), Octet(len, 2), Octet(len, 1), Octet(len, 0), 0, 0, 0, proto];
      WordSumConcat(Big, src, dst);
      WordSumConcat(Big, src + dst, tail);
      EightOctets(tail);
      LowWord(len);
      HighWord(len);
    }
  }

  lemma LowWord(n: nat)
    ensures Join(Octet(n, 1), Octet(n, 0)) == n % 0x1_0000
  {
    var a := n / 256;
    assert n == 256 * a + n % 256 && a == 256 * (a / 256) + a % 256;
    assert n == 0x1_0000 * (a / 256) + (256 * (a % 256) + n % 256);
  }

  lemma HighWord(n: nat)
    ensures Join(Octet(n, 3), Octet(n, 2)) == n / 0x1_0000 % 0x1_0000
  {
    var m := n / 256 / 256;
    assert m == n / 0x1_0000;
    LowWord(m);
  }

  /** Sealing leaves the declared length alone. */
  lemma SealedDeclares(f: Family, src: Address, dst: Address, proto: byte, l4: seq<byte>)
    requires Unsealed(proto, l4)
    ensures DeclaredLen(proto, Sealed(f, src, dst, proto, l4)) == DeclaredLen(proto, l4)
  {
    if proto == PROTO_UDP && |l4| >= 8 {
      var r := Sealed(f, src, dst, proto, l4);
      assert r[4] == l4[4] && r[5] == l4[5];
    }
  }

  /** A UDP segment as the injector builds it declares its own length. */
  lemma UdpDeclares(sport: u16, dport: u16, payload: seq<byte>)
    requires 8 + |payload| < 0x1_0000
    ensures DeclaredLen(PROTO_UDP, UdpHeader(sport, dport, 8 + |payload|) + payload) == 8 + |payload|
  {
    var n := 8 + |payload|;
    var s := UdpHeader(sport, dport, n) + payload;
    assert s[4] == Octet(n, 1) && s[5] == Octet(n, 0);
    OctetsOf16(n);
  }

  lemma {:induction false} SealedVerifies(f: Family, src: Address, dst: Address, proto: byte, l4: seq<byte>)
    requires Unsealed(proto, l4)
    ensures Folded(PseudoTotal(f, src, dst, proto, |l4|) + WordSum(Big, Sealed(f, src, dst, proto, l4))) == 0xffff
  {
    PseudoIsRfc(f, src, dst, proto, |l4|);
    SealedTotal(Pseudo(f, src, dst, proto, |l4|), l4, CheckOffset(proto), L4Check(f, src, dst, proto, l4));
  }

  lemma SealedTotal(ph: seq<byte>, l4: seq<byte>, off: nat, c: u16)
    requires |ph| % 2 == 0 && off % 2 == 0 && off + 2 <= |l4| && l4[off] == l4[off + 1] == 0
    requires c == Rfc1071(ph + l4) || (Rfc1071(ph + l4) == 0 && c == 0xffff)
    ensures Folded(WordSum(Big, ph) + WordSum(Big, WithCheck(l4, off, c))) == 0xffff
  {
    SealedWith(ph, l4, off, c);
    FoldedParts(ph, WithCheck(l4, off, c));
  }

  lemma {:induction false} FoldedParts(a: seq<byte>, b: seq<byte>)
    requires |a| % 2 == 0
    ensures OnesSum(a + b) == Folded(WordSum(Big, a) + WordSum(Big, b))
  {
    WordSumConcat(Big, a, b);
    OnesSumFoldsWordSum(a + b);
  }

  /** A segment sealed behind a pseudo-header of even length sums to all ones with it. */
  lemma SealedWith(ph: seq<byte>, l4: seq<byte>, off: nat, c: u16)
    requires |ph| % 2 == 0 && off % 2 == 0 && off + 2 <= |l4| && l4[off] == l4[off + 1] == 0
    requires c == Rfc1071(ph + l4) || (Rfc1071(ph + l4) == 0 && c == 0xffff)
    ensures OnesSum(ph + WithCheck(l4, off, c)) == 0xffff
  {
    StoredChecksumVerifies(ph + l4, |ph| + off, c);
    assert WithCheck(ph + l4, |ph| + off, c) == ph + WithCheck(l4, off, c);
  }

  lemma Ip4HeaderVerifies(total: nat, id: u16, ttl: nat, proto: byte, src: Address, dst: Address)
    ensures OnesSum(Ip4Header(total, id, ttl, proto, src, dst)) == 0xffff
  {
    var b := Ip4Bare(total, id, ttl, proto, src, dst);
    StoredChecksumVerifies(b, 10, Rfc1071(b));
  }

  /** Every frame the injector builds passes both checks. */
  lemma FrameVerifies(f: Family, src: Address, dst: Address, proto: byte, ttl: nat, id: u16, l4: seq<byte>)
    requires Unsealed(proto, l4) && DeclaredLen(proto, l4) == |l4|
    ensures Verifies(Frame(f, src, dst, proto, ttl, id, l4))
  {
    var d := Frame(f, src, dst, proto, ttl, id, l4);
    var n := L3(f, HeaderLen(f), proto, Carried(f, Endpoint(f, src)), Carried(f, Endpoint(f, dst)));
    ParseL3OfFrame(f, src, dst, proto, ttl, id, l4);
    SealedSegmentVerifies(n, src, dst, l4);
    if f.Inet? {
      Ip4HeaderVerifies(20 + |l4|, id, ttl, proto, src, dst);
      assert d[..20] == Ip4Header(20 + |l4|, id, ttl, proto, src, dst);
    }
    PartsVerify(d, n);
  }

  lemma PartsVerify(d: seq<byte>, n: L3)
    requires ParseL3(d) == Some(n) && SegmentVerifies(n, d[n.len..])
    requires n.family.Inet? ==> OnesSum(d[..n.len]) == 0xffff
    ensures Verifies(d)
  {}

  lemma SealedSegmentVerifies(n: L3, src: Address, dst: Address, l4: seq<byte>)
    requires Unsealed(n.proto, l4) && DeclaredLen(n.proto, l4) == |l4|
    requires n.src == Carried(n.family, Endpoint(n.family, src)) && n.dst == Carried(n.family, Endpoint(n.family, dst))
    ensures SegmentVerifies(n, Sealed(n.family, src, dst, n.proto, l4))
  {
    SealedVerifies(n.family, src, dst, n.proto, l4);
    SealedDeclares(n.family, src, dst, n.proto, l4);
    PseudoOfCarried(n.family, src, dst, n.proto, |l4|);
    WholeSegmentVerifies(n, Sealed(n.family, src, dst, n.proto, l4));
  }

  lemma WholeSegmentVerifies(n: L3, s: seq<byte>)
    requires DeclaredLen(n.proto, s) == |s|
    requires Folded(PseudoTotal(n.family, n.src.addr, n.dst.addr, n.proto, |s|) + WordSum(Big, s)) == 0xffff
    ensures SegmentVerifies(n, s)
  {
    assert s[..|s|] == s;
  }

  /** The hop limit a frame carries. */
  function Hops(d: seq<byte>): byte
    requires |d| >= 20
  {
    if d[0] / 16 == 4 then d[8] else d[7]
  }

  /** The length field of the IP header agrees with the frame. */
  predicate IpLengthAgrees(d: seq<byte>)
    requires |d| >= 20
  {
    if d[0] / 16 == 4 then Rd16(d, 2) == |d| else Rd16(d, 4) == |d| - 40
  }

  /** So does every length field of the frame, UDP's included. */
  predicate LengthAgrees(d: seq<byte>)
    requires |d| >= 20
  {
    && IpLengthAgrees(d)
    && var n := ParseL3(d);
       n.Some? && DeclaredLen(n.value.proto, d[n.value.len..]) == |d| - n.value.len
  }

  lemma FrameLengthAndHops(f: Family, src: Address, dst: Address, proto: byte, ttl: nat, id: u16, l4: seq<byte>)
    requires Unsealed(proto, l4) && Fits(f, |l4|) && DeclaredLen(proto, l4) == |l4|
    ensures LengthAgrees(Frame(f, src, dst, proto, ttl, id, l4))
    ensures Hops(Frame(f, src, dst, proto, ttl, id, l4)) == ttl % 256
  {
    ParseL3OfFrame(f, src, dst, proto, ttl, id, l4);
    SealedDeclares(f, src, dst, proto, l4);
    HeaderLengthAndHops(f, src, dst, proto, ttl, id, l4);
  }

  lemma HeaderLengthAndHops(f: Family, src: Address, dst: Address, proto: byte, ttl: nat, id: u16, l4: seq<byte>)
    requires Unsealed(proto, l4) && Fits(f, |l4|)
    ensures IpLengthAgrees(Frame(f, src, dst, proto, ttl, id, l4))
    ensures Hops(Frame(f, src, dst, proto, ttl, id, l4)) == ttl % 256
  {
    HeaderOctets(f, src, dst, proto, ttl, id, |l4|);
    OctetsOf16(20 + |l4|);
    OctetsOf16(|l4|);
    var h := IpHeader(f, src, dst, proto, ttl, id, |l4|);
    LengthInHeader(f, h, Sealed(f, src, dst, proto, l4), ttl);
  }

  lemma LengthInHeader(f: Family, h: seq<byte>, s: seq<byte>, ttl: nat)
    requires |h| == HeaderLen(f) && h[0] == if f.Inet? then 0x45 else 0x60
    requires if f.Inet? then Rd16(h, 2) == 20 + |s| && h[8] == Octet(ttl, 0)
             else Rd16(h, 4) == |s| && h[7] == Octet(ttl, 0)
    ensures IpLengthAgrees(h + s) && Hops(h + s) == ttl % 256
  {
    var d := h + s;
    assert d[0] / 16 == if f.Inet? then 4 else 6;
    assert Rd16(d, 2) == Rd16(h, 2) && Rd16(d, 4) == Rd16(h, 4);
    assert d[7] == h[7] && d[8] == h[8];
  }

  /** An option-free header; in IPv4 a packet that is no fragment and must not become one, in IPv6 no flow. */
  predicate PlainHeader(d: seq<byte>)
    requires |d| >= 20
  {
    (d[0] == 0x45 && d[1] == 0 && Rd16(d, 6) == 0x4000)
    || (d[0] == 0x60 && d[1] == d[2] == d[3] == 0)
  }

  /** An option-free TCP header without urgent data; a UDP header with a checksum, zero meaning none. */
  predicate PlainTransport(proto: byte, s: seq<byte>) {
    && (proto == 6 ==> |s| >= 20 && s[12] == 0x50 && Rd16(s, 18) == 0)
    && (proto == 17 ==> |s| >= 8 && Rd16(s, 6) != 0)
  }

  /** A frame that holds every check of a receiver and the hop limit asked for. */
  predicate Sound(d: seq<byte>, ttl: nat) {
    && |d| >= 20 && Verifies(d) && LengthAgrees(d) && Hops(d) == ttl % 256 && PlainHeader(d)
    && var n := ParseL3(d);
       n.Some? && PlainTransport(n.value.proto, d[n.value.len..])
  }

  lemma FrameIsPlain(f: Family, src: Address, dst: Address, proto: byte, ttl: nat, id: u16, l4: seq<byte>)
    requires Unsealed(proto, l4)
    ensures PlainHeader(Frame(f, src, dst, proto, ttl, id, l4))
    ensures f.Inet? ==> Rd16(Frame(f, src, dst, proto, ttl, id, l4), 4) == id
  {
    HeaderOctets(f, src, dst, proto, ttl, id, |l4|);
    OctetsOf16(id);
    HeaderIsPlain(f, IpHeader(f, src, dst, proto, ttl, id, |l4|), Sealed(f, src, dst, proto, l4));
  }

  lemma HeaderIsPlain(f: Family, h: seq<byte>, s: seq<byte>)
    requires |h| == HeaderLen(f)
    requires if f.Inet? then h[0] == 0x45 && h[1] == 0 && h[6] == 0x40 && h[7] == 0
             else h[0] == 0x60 && h[1] == h[2] == h[3] == 0
    ensures PlainHeader(h + s) && Rd16(h + s, 4) == Rd16(h, 4)
  {
    var d := h + s;
    assert d[0] == h[0] && d[1] == h[1] && d[2] == h[2] && d[3] == h[3];
    assert d[4] == h[4] && d[5] == h[5] && d[6] == h[6] && d[7] == h[7];
  }

  /** The frame is handed over for the destination in its own header. */
  lemma FrameGoesToDestination(f: Family, src: Address, dst: Address, proto: byte, ttl: nat, id: u16, l4: seq<byte>)
    requires Unsealed(proto, l4)
    ensures var d := Frame(f, src, dst, proto, ttl, id, l4);
      OfFamily(f, dst) == if f.Inet? then d[16..20] else d[24..40]
  {
    var h, s := IpHeader(f, src, dst, proto, ttl, id, |l4|), Sealed(f, src, dst, proto, l4);
    HeaderOctets(f, src, dst, proto, ttl, id, |l4|);
    if f.Inet? {
      assert (h + s)[16..20] == h[16..20];
    } else {
      assert (h + s)[24..40] == h[24..40];
    }
  }

  lemma TcpFrameIsSound(src: Endpoint, dst: Endpoint, t: TcpFields, ttl: nat, id: u16, payload: seq<byte>)
    requires Fits(src.family, 20 + |payload|)
    ensures Sound(TcpFrame(src, dst, t, ttl, id, payload), ttl)
  {
    var l4 := TcpHeader(t) + payload;
    FrameVerifies(src.family, src.addr, dst.addr, PROTO_TCP, ttl, id, l4);
    FrameLengthAndHops(src.family, src.addr, dst.addr, PROTO_TCP, ttl, id, l4);
    FrameIsPlain(src.family, src.addr, dst.addr, PROTO_TCP, ttl, id, l4);
    ParseL3OfFrame(src.family, src.addr, dst.addr, PROTO_TCP, ttl, id, l4);
    TcpIsPlain(t, payload, L4Check(src.family, src.addr, dst.addr, PROTO_TCP, l4));
  }

  lemma TcpIsPlain(t: TcpFields, payload: seq<byte>, c: u16)
    ensures PlainTransport(PROTO_TCP, WithCheck(TcpHeader(t) + payload, 16, c))
  {
    var h := TcpHeader(t);
    var s := WithCheck(h + payload, 16, c);
    assert s[12] == h[12] && s[18] == h[18] && s[19] == h[19];
  }

  /**
   * For UDP that includes the length field of its own header, where a receiver reads it, and
   * the checksum field, which is never the zero that stands for none.
   */
  lemma UdpFrameIsSound(src: Endpoint, dst: Endpoint, sport: u16, dport: u16, ttl: nat, id: u16, payload: seq<byte>)
    requires Fits(src.family, 8 + |payload|)
    ensures var d := UdpFrame(src, dst, sport, dport, ttl, id, payload);
      Sound(d, ttl) && Rd16(d, HeaderLen(src.family) + 4) == 8 + |payload| && Rd16(d, HeaderLen(src.family) + 6) != 0
  {
    var l4 := UdpHeader(sport, dport, 8 + |payload|) + payload;
    var d := UdpFrame(src, dst, sport, dport, ttl, id, payload);
    UdpDeclares(sport, dport, payload);
    FrameVerifies(src.family, src.addr, dst.addr, PROTO_UDP, ttl, id, l4);
    FrameLengthAndHops(src.family, src.addr, dst.addr, PROTO_UDP, ttl, id, l4);
    FrameIsPlain(src.family, src.addr, dst.addr, PROTO_UDP, ttl, id, l4);
    ParseL3OfFrame(src.family, src.addr, dst.addr, PROTO_UDP, ttl, id, l4);
    var s := d[HeaderLen(src.family)..];
    assert s[4] == d[HeaderLen(src.family) + 4] && s[5] == d[HeaderLen(src.family) + 5];
    assert s[6] == d[HeaderLen(src.family) + 6] && s[7] == d[HeaderLen(src.family) + 7];
    UdpIsPlain(l4, L4Check(src.family, src.addr, dst.addr, PROTO_UDP, l4));
  }

  lemma UdpIsPlain(l4: seq<byte>, c: u16)
    requires |l4| >= 8 && c != 0
    ensures PlainTransport(PROTO_UDP, WithCheck(l4, 6, c))
  {}

  lemma PseudoOfCarried(f: Family, src: Address, dst: Address, proto: byte, len: nat)
    ensures PseudoTotal(f, Carried(f, Endpoint(f, src)).addr, Carried(f, Endpoint(f, dst)).addr, proto, len)
         == PseudoTotal(f, src, dst, proto, len)
  {
    CarriedTotal(f, src);
    CarriedTotal(f, dst);
  }

  lemma CarriedTotal(f: Family, a: Address)
    ensures AddressTotal(f, Carried(f, Endpoint(f, a)).addr) == AddressTotal(f, a)
  {
    if f.Inet? {
      var c := a[..4] + ZEROS12;
      assert c[0] == a[0] && c[1] == a[1] && c[2] == a[2] && c[3] == a[3];
    }
  }
}
