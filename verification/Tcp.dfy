/** The TCP routine: a short-lived fake, then the real data in two segments (tcp.c). */
module Tcp {
  import opened Bytes
  import opened Config
  import opened Packet
  import opened Net
  import opened Engine
  import Checksum
  import K = Kernel
  import Tls
  import Http

  const REAL_TTL: nat := 64

  const TH_FIN: byte := 0x01
  const TH_SYN: byte := 0x02
  const TH_RST: byte := 0x04
  const TH_PSH: byte := 0x08

  datatype TcpEnv = TcpEnv(fake: SendEnv, first: SendEnv, second: SendEnv)

  /** A first application record the settings ask to rewrite. */
  predicate Interesting(cfg: Settings, p: Packet) {
    (p.dport == 443 && cfg.tls && Tls.IsClientHello(p.payload))
    || (p.dport == 80 && cfg.http && Http.IsRequest(p.payload))
  }

  /** The offset the protocol's locator gives. */
  function Located(p: Packet): int {
    if p.dport == 443 then Tls.Split(p.payload) else Http.Split(p.payload)
  }

  predicate CarriesData(p: Packet) {
    p.payload != [] && !HasBit(p.flags, TH_SYN) && !HasBit(p.flags, TH_RST) && !HasBit(p.flags, TH_FIN)
  }

  /** Where an intercepted segment is cut, if it is rewritten at all. */
  function Cut(cfg: Settings, p: Packet): (r: Option<nat>)
    ensures r.Some? ==> 0 < r.value < |p.payload|
  {
    if !CarriesData(p) || !Interesting(cfg, p) then None
    else
      var s := Located(p);
      var cut := if 0 < s < |p.payload| then s else if |p.payload| > 2 then 2 else 1;
      if cut >= |p.payload| then None else Some(cut)
  }

  function Fields(p: Packet, sn: u32, flags: byte): TcpFields {
    TcpFields(p.sport, p.dport, sn, p.ack, flags, p.window)
  }

  /** A TCP segment handed to bd_send_tcp, with the identification its frame got. */
  datatype Crafted = Crafted(src: Endpoint, dst: Endpoint, t: TcpFields, ttl: nat, id: u16, payload: seq<byte>) {
    function Bytes(): seq<byte> {
      TcpFrame(src, dst, t, ttl, id, payload)
    }
  }

  function Map<A, B>(f: A -> B, s: seq<A>): (r: seq<B>)
    ensures |r| == |s|
  {
    seq(|s|, i requires 0 <= i < |s| => f(s[i]))
  }

  lemma MapAppend<A, B>(f: A -> B, a: seq<A>, b: seq<A>)
    ensures Map(f, a + b) == Map(f, a) + Map(f, b)
  {}

  function Frames(cs: seq<Crafted>): (r: seq<seq<byte>>)
    ensures |r| == |cs|
  {
    Map((c: Crafted) => c.Bytes(), cs)
  }

  function Fake(cfg: Settings, p: Packet, id: u16): Crafted {
    Crafted(p.src, p.dst, Fields(p, p.sn, p.flags), cfg.ttl, id, p.payload)
  }

  function First(p: Packet, cut: nat, id: u16): Crafted
    requires cut <= |p.payload|
  {
    Crafted(p.src, p.dst, Fields(p, p.sn, ClearBit(p.flags, TH_PSH)), REAL_TTL, id, p.payload[..cut])
  }

  function Second(p: Packet, cut: nat, id: u16): Crafted
    requires cut <= |p.payload|
  {
    Crafted(p.src, p.dst, Fields(p, Add32(p.sn, cut), p.flags), REAL_TTL, id, p.payload[cut..])
  }

  /** What one interception does, given whether its family's socket is up and how the sends go. */
  datatype Result = Result(verdict: Verdict, fakes: seq<Crafted>, reals: seq<Crafted>)

  predicate Leaves(up: bool, f: Family, len: nat, env: SendEnv) {
    Fits(f, 20 + len) && up && env.ok
  }

  function OneIf(b: bool, c: Crafted): seq<Crafted> {
    if b then [c] else []
  }

  function FakeSent(cfg: Settings, p: Packet, up: bool, env: SendEnv): seq<Crafted> {
    OneIf(Leaves(up, p.src.family, |p.payload|, env), Fake(cfg, p, env.id))
  }

  function FirstSent(p: Packet, c: nat, up: bool, env: SendEnv): seq<Crafted>
    requires c <= |p.payload|
  {
    OneIf(Leaves(up, p.src.family, c, env), First(p, c, env.id))
  }

  function SecondSent(p: Packet, c: nat, up: bool, env: SendEnv): seq<Crafted>
    requires c <= |p.payload|
  {
    OneIf(Leaves(up, p.src.family, |p.payload| - c, env), Second(p, c, env.id))
  }

  /** The original is dropped when both real frames went out; the fake does not matter. */
  function Outcome(fake: seq<Crafted>, first: seq<Crafted>, second: seq<Crafted>): Result {
    Result(if first != [] && second != [] then Drop else Accept, fake, first + second)
  }

  /** The three sends of a packet that is cut at c. */
  function Emitted(cfg: Settings, p: Packet, c: nat, up: bool, env: TcpEnv): Result
    requires c <= |p.payload|
  {
    Outcome(FakeSent(cfg, p, up, env.fake), FirstSent(p, c, up, env.first), SecondSent(p, c, up, env.second))
  }

  function Handled(cfg: Settings, p: Packet, up: bool, env: TcpEnv): Result {
    var cut := Cut(cfg, p);
    if cut.None? then Result(Accept, [], []) else Emitted(cfg, p, cut.value, up, env)
  }

  /** The socket frames leave through, and the address they are handed over for. */
  datatype Route = Route(socket: K.Socket, to: seq<byte>)

  function Stamp(t: Route): Crafted -> K.Sent {
    (c: Crafted) => K.Sent(c.Bytes(), t.to, t.socket.family, t.socket.mark)
  }

  /** The wire's record of segments sent on one route. */
  function Stamped(t: Route, cs: seq<Crafted>): seq<K.Sent> {
    Map(Stamp(t), cs)
  }

  /** Whether the socket that serves p's family is open. */
  predicate Up(k: K.Host, inj: Injector, f: Family)
    reads k`sockets, inj
  {
    inj.Fd(f) in k.sockets
  }

  function SocketOf(k: K.Host, inj: Injector, f: Family): K.Socket
    reads k`sockets, inj
  {
    if Up(k, inj, f) then k.sockets[inj.Fd(f)] else K.Socket(f, 0)
  }

  /** Where the frames of p's interception go: through its family's socket, to its destination. */
  function RouteOf(k: K.Host, inj: Injector, p: Packet): Route
    reads k`sockets, inj
  {
    Route(SocketOf(k, inj, p.src.family), OfFamily(p.src.family, p.dst.addr))
  }

  /** bd_tcp_handle. */
  method TcpHandle(e: Checksum.Endian, eng: Engine, k: K.Host, inj: Injector, cfg: Settings, p: Packet, env: TcpEnv)
      returns (verdict: Verdict)
    requires k.Valid()
    modifies eng`stats, k`wire
    ensures var r := Handled(cfg, p, Up(k, inj, p.src.family), env);
      && verdict == r.verdict
      && k.wire == old(k.wire) + Stamped(RouteOf(k, inj, p), r.fakes + r.reals)
      && eng.stats == old(eng.stats).(
           fake := old(eng.stats).fake + |r.fakes|,
           split := old(eng.stats).split + (if r.verdict.Drop? then 1 else 0))
  {
    var split := ChooseCut(cfg, p);
    if split < 0 {
      return Accept;
    }
    verdict := Emit(e, eng, k, inj, cfg, p, split, env);
  }

  /** The decision part of bd_tcp_handle: where to cut, or -1 to let the packet pass. */
  method ChooseCut(cfg: Settings, p: Packet) returns (split: int)
    ensures split == if Cut(cfg, p).Some? then Cut(cfg, p).value else -1
  {
    if |p.payload| <= 0 {
      return -1;
    }
    if HasBit(p.flags, TH_SYN) || HasBit(p.flags, TH_RST) || HasBit(p.flags, TH_FIN) {
      return -1;
    }
    split := -1;
    var interesting := false;
    if p.dport == 443 {
      if cfg.tls && Tls.IsClientHello(p.payload) {
        interesting := true;
        split := Tls.SplitOffset(p.payload);
      }
    } else if p.dport == 80 {
      if cfg.http {
        var request := Http.CheckRequest(p.payload);
        if request {
          interesting := true;
          split := Http.SplitOffset(p.payload);
        }
      }
    }
    if !interesting {
      return -1;
    }
    var len := |p.payload|;
    if split <= 0 || split >= len {
      split := if len > 2 then 2 else 1;
    }
    if split >= len {
      return -1;
    }
  }

  /** The three sends and the verdict. */
  method Emit(e: Checksum.Endian, eng: Engine, k: K.Host, inj: Injector, cfg: Settings, p: Packet,
              split: nat, env: TcpEnv)
      returns (verdict: Verdict)
    requires k.Valid() && split <= |p.payload|
    modifies eng`stats, k`wire
    ensures var r := Emitted(cfg, p, split, Up(k, inj, p.src.family), env);
      && verdict == r.verdict
      && k.wire == old(k.wire) + Stamped(RouteOf(k, inj, p), r.fakes + r.reals)
      && eng.stats == old(eng.stats).(
           fake := old(eng.stats).fake + |r.fakes|,
           split := old(eng.stats).split + (if r.verdict.Drop? then 1 else 0))
  {
    ghost var t := RouteOf(k, inj, p);
    ghost var r := Emitted(cfg, p, split, Up(k, inj, p.src.family), env);
    var rc := SendFake(e, k, inj, cfg, p, env.fake);
    ghost var faked := k.wire;
    if rc == 0 {
      eng.NoteFake();
    }
    verdict := EmitReals(e, eng, k, inj, p, split, env);
    SentInTurn(t, old(k.wire), faked, k.wire, r.fakes, r.reals);
  }

  /** Both real segments, and the verdict. */
  method EmitReals(e: Checksum.Endian, eng: Engine, k: K.Host, inj: Injector, p: Packet, split: nat, env: TcpEnv)
      returns (verdict: Verdict)
    requires k.Valid() && split <= |p.payload|
    modifies eng`stats, k`wire
    ensures var up := Up(k, inj, p.src.family);
            var r := Outcome([], FirstSent(p, split, up, env.first), SecondSent(p, split, up, env.second));
      && verdict == r.verdict
      && k.wire == old(k.wire) + Stamped(RouteOf(k, inj, p), r.reals)
      && eng.stats == old(eng.stats).(split := old(eng.stats).split + (if r.verdict.Drop? then 1 else 0))
  {
    var sent := SendReals(e, k, inj, p, split, env.first, env.second);
    if !sent {
      return Accept;
    }
    eng.NoteSplit();
    return Drop;
  }

  /** Both real segments, the second tried even when the first failed. */
  method SendReals(e: Checksum.Endian, k: K.Host, inj: Injector, p: Packet, split: nat, env1: SendEnv, env2: SendEnv)
      returns (sent: bool)
    requires k.Valid() && split <= |p.payload|
    modifies k`wire
    ensures var up := Up(k, inj, p.src.family);
      && sent == (FirstSent(p, split, up, env1) != [] && SecondSent(p, split, up, env2) != [])
      && k.wire == old(k.wire)
         + Stamped(RouteOf(k, inj, p), FirstSent(p, split, up, env1) + SecondSent(p, split, up, env2))
  {
    ghost var up := Up(k, inj, p.src.family);
    var rc1 := SendFirst(e, k, inj, p, split, env1);
    ghost var halved := k.wire;
    var rc2 := SendSecond(e, k, inj, p, split, env2);
    SentInTurn(RouteOf(k, inj, p), old(k.wire), halved, k.wire,
               FirstSent(p, split, up, env1), SecondSent(p, split, up, env2));
    sent := rc1 == 0 && rc2 == 0;
  }

  method SendFake(e: Checksum.Endian, k: K.Host, inj: Injector, cfg: Settings, p: Packet, env: SendEnv) returns (rc: int)
    requires k.Valid()
    modifies k`wire
    ensures var s := FakeSent(cfg, p, Up(k, inj, p.src.family), env);
      && (rc == 0 <==> |s| == 1) && (rc != 0 <==> |s| == 0)
      && k.wire == old(k.wire) + Stamped(RouteOf(k, inj, p), s)
  {
    rc := SendTcp(e, k, inj, p.src, p.dst, Fields(p, p.sn, p.flags), cfg.ttl, p.payload, env);
  }

  method SendFirst(e: Checksum.Endian, k: K.Host, inj: Injector, p: Packet, split: nat, env: SendEnv) returns (rc: int)
    requires k.Valid() && split <= |p.payload|
    modifies k`wire
    ensures var s := FirstSent(p, split, Up(k, inj, p.src.family), env);
      && (rc == 0 <==> s != [])
      && k.wire == old(k.wire) + Stamped(RouteOf(k, inj, p), s)
  {
    rc := SendTcp(e, k, inj, p.src, p.dst, Fields(p, p.sn, ClearBit(p.flags, TH_PSH)), REAL_TTL, p.payload[..split], env);
  }

  method SendSecond(e: Checksum.Endian, k: K.Host, inj: Injector, p: Packet, split: nat, env: SendEnv) returns (rc: int)
    requires k.Valid() && split <= |p.payload|
    modifies k`wire
    ensures var s := SecondSent(p, split, Up(k, inj, p.src.family), env);
      && (rc == 0 <==> s != [])
      && k.wire == old(k.wire) + Stamped(RouteOf(k, inj, p), s)
  {
    rc := SendTcp(e, k, inj, p.src, p.dst, Fields(p, Add32(p.sn, split), p.flags), REAL_TTL, p.payload[split..], env);
  }

  lemma SentInTurn(t: Route, w0: seq<K.Sent>, w1: seq<K.Sent>, w2: seq<K.Sent>, a: seq<Crafted>, b: seq<Crafted>)
    requires w1 == w0 + Stamped(t, a) && w2 == w1 + Stamped(t, b)
    ensures w2 == w0 + Stamped(t, a + b)
  {
    MapAppend(Stamp(t), a, b);
    Regroup(w0, Stamped(t, a), Stamped(t, b));
  }

  // ---- one interception, end to end ----

  /** A packet as the parser leaves it: both endpoints of its family, nothing a frame could not carry. */
  predicate Canonical(p: Packet) {
    p.src.family == p.family && p.src == Carried(p.family, p.src) && p.dst == Carried(p.family, p.dst)
  }

  lemma ParsedIsCanonical(d: seq<byte>)
    requires Parse(d).Some?
    ensures Canonical(Parse(d).value)
  {
    var n := ParseL3(d).value;
    assert n.family.Inet? ==> n.src.addr[..4] == d[12..16] && n.dst.addr[..4] == d[16..20];
  }

  /** p with another sequence number, flags and payload, in the headers the injector writes. */
  function Segment(p: Packet, sn: u32, flags: byte, payload: seq<byte>): Packet {
    p.(l3Len := HeaderLen(p.family), proto := PROTO_TCP, sn := sn, flags := flags, payload := payload)
  }

  /** Every segment of an interception is handed over for the destination its own header names. */
  lemma StampedGoesToDestination(k: K.Host, inj: Injector, cfg: Settings, p: Packet, up: bool, env: TcpEnv, i: nat)
    requires i < |Handled(cfg, p, up, env).fakes + Handled(cfg, p, up, env).reals|
    ensures var r := Handled(cfg, p, up, env);
            var m := Stamped(RouteOf(k, inj, p), r.fakes + r.reals)[i];
      |m.bytes| >= HeaderLen(p.src.family)
      && m.to == if p.src.family.Inet? then m.bytes[16..20] else m.bytes[24..40]
  {
    var c := (Handled(cfg, p, up, env).fakes + Handled(cfg, p, up, env).reals)[i];
    SameEndpoints(cfg, p, up, env, c);
    FrameGoesToDestination(c.src.family, c.src.addr, c.dst.addr, PROTO_TCP, c.ttl, c.id, TcpHeader(c.t) + c.payload);
  }

  lemma SameEndpoints(cfg: Settings, p: Packet, up: bool, env: TcpEnv, c: Crafted)
    requires c in Handled(cfg, p, up, env).fakes + Handled(cfg, p, up, env).reals
    ensures c.src == p.src && c.dst == p.dst
  {}

  /** What a receiver gets out of each frame: the interception's endpoints, ports, ack and window. */
  lemma {:induction false} FakeParses(cfg: Settings, p: Packet, id: u16)
    requires Canonical(p)
    ensures Parse(Fake(cfg, p, id).Bytes()) == Some(Segment(p, p.sn, p.flags, p.payload))
  {
    TcpRoundTrip(p.src, p.dst, Fields(p, p.sn, p.flags), cfg.ttl, id, p.payload);
  }

  lemma {:induction false} FirstParses(p: Packet, cut: nat, id: u16)
    requires Canonical(p) && cut <= |p.payload|
    ensures Parse(First(p, cut, id).Bytes()) == Some(Segment(p, p.sn, ClearBit(p.flags, TH_PSH), p.payload[..cut]))
  {
    TcpRoundTrip(p.src, p.dst, Fields(p, p.sn, ClearBit(p.flags, TH_PSH)), REAL_TTL, id, p.payload[..cut]);
  }

  lemma {:induction false} SecondParses(p: Packet, cut: nat, id: u16)
    requires Canonical(p) && cut <= |p.payload|
    ensures Parse(Second(p, cut, id).Bytes()) == Some(Segment(p, Add32(p.sn, cut), p.flags, p.payload[cut..]))
  {
    TcpRoundTrip(p.src, p.dst, Fields(p, Add32(p.sn, cut), p.flags), REAL_TTL, id, p.payload[cut..]);
  }

  /** The two real frames of a rewritten packet, as a receiver sees them; their hop limit is 64. */
  ghost predicate Replaces(p: Packet, first: seq<byte>, second: seq<byte>) {
    && Parse(first).Some? && Parse(second).Some?
    && Adjacent(p, Parse(first).value, Parse(second).value)
    && Sound(first, 64) && Sound(second, 64)
  }

  /** A flags octet with bit 3, PSH, off. */
  function WithoutPush(f: byte): byte {
    var v: int := f;
    v - 8 * (v / 8 % 2)
  }

  /** Two non-empty adjacent segments of p's connection that together carry its payload. */
  predicate Adjacent(p: Packet, a: Packet, b: Packet) {
    && a == Segment(p, p.sn, WithoutPush(p.flags), a.payload)
    && b == Segment(p, Add32(a.sn, |a.payload|), p.flags, b.payload)
    && a.payload + b.payload == p.payload && a.payload != [] && b.payload != []
  }

  lemma ClearingPush(f: byte)
    ensures ClearBit(f, TH_PSH) == WithoutPush(f)
  {}

  lemma HalvesAreAdjacent(p: Packet, cut: nat)
    requires 0 < cut < |p.payload|
    ensures Adjacent(p, Segment(p, p.sn, ClearBit(p.flags, TH_PSH), p.payload[..cut]),
                     Segment(p, Add32(p.sn, cut), p.flags, p.payload[cut..]))
  {
    ClearingPush(p.flags);
    assert p.payload[..cut] + p.payload[cut..] == p.payload;
  }

  lemma RealFramesAdjacent(p: Packet, cut: nat, id1: u16, id2: u16)
    requires Canonical(p) && 0 < cut < |p.payload|
    ensures var a, b := Parse(First(p, cut, id1).Bytes()), Parse(Second(p, cut, id2).Bytes());
      a.Some? && b.Some? && Adjacent(p, a.value, b.value)
  {
    FirstParses(p, cut, id1);
    SecondParses(p, cut, id2);
    HalvesAreAdjacent(p, cut);
  }

  lemma RealFramesSound(p: Packet, cut: nat, id1: u16, id2: u16)
    requires Canonical(p) && 0 < cut < |p.payload|
    requires Fits(p.family, 20 + cut) && Fits(p.family, 20 + |p.payload| - cut)
    ensures Sound(First(p, cut, id1).Bytes(), 64) && Sound(Second(p, cut, id2).Bytes(), 64)
  {
    TcpFrameIsSound(p.src, p.dst, Fields(p, p.sn, ClearBit(p.flags, TH_PSH)), REAL_TTL, id1, p.payload[..cut]);
    TcpFrameIsSound(p.src, p.dst, Fields(p, Add32(p.sn, cut), p.flags), REAL_TTL, id2, p.payload[cut..]);
  }

  /** What a drop says of the sends. */
  lemma DropSendsHalves(cfg: Settings, p: Packet, up: bool, env: TcpEnv) returns (cut: nat)
    requires Handled(cfg, p, up, env).verdict.Drop?
    ensures 0 < cut < |p.payload| && Cut(cfg, p) == Some(cut)
    ensures Handled(cfg, p, up, env).reals == [First(p, cut, env.first.id), Second(p, cut, env.second.id)]
    ensures Fits(p.src.family, 20 + cut) && Fits(p.src.family, 20 + |p.payload| - cut)
  {
    cut := Cut(cfg, p).value;
  }

  /**
   * End to end: whenever the original is dropped, exactly two real frames went out; they
   * parse to adjacent segments of the same connection whose payloads concatenate to the
   * original payload, and their lengths and checksums hold.
   */
  lemma {:induction false} DropMeansReplaced(cfg: Settings, p: Packet, up: bool, env: TcpEnv)
    requires Canonical(p) && Handled(cfg, p, up, env).verdict.Drop?
    ensures var r := Handled(cfg, p, up, env).reals;
      |r| == 2 && Replaces(p, r[0].Bytes(), r[1].Bytes())
  {
    var cut := DropSendsHalves(cfg, p, up, env);
    RealFramesAdjacent(p, cut, env.first.id, env.second.id);
    RealFramesSound(p, cut, env.first.id, env.second.id);
  }

  /** The fake is as well formed as the real frames; only its hop limit is the configured one. */
  lemma {:induction false} FakeIsWellFormed(cfg: Settings, p: Packet, id: u16)
    requires Canonical(p) && Fits(p.family, 20 + |p.payload|)
    ensures Sound(Fake(cfg, p, id).Bytes(), cfg.ttl)
  {
    TcpFrameIsSound(p.src, p.dst, Fields(p, p.sn, p.flags), cfg.ttl, id, p.payload);
  }

  // ---- where the cut falls ----

  /** A first record the settings ask to rewrite always has a place to cut: the locator's, or octet 2. */
  lemma RecordsAreCut(cfg: Settings, p: Packet)
    requires CarriesData(p) && Interesting(cfg, p)
    ensures Cut(cfg, p) == Some(if Located(p) == -1 then 2 else Located(p))
  {
    if p.dport != 443 {
      Http.SplitIsFirstHost(p.payload);
    }
  }

  /** Octet by octet, the packets that are rewritten: data without SYN, FIN or RST that starts a first record. */
  predicate StartsRecord(cfg: Settings, p: Packet) {
    var d, v: int := p.payload, p.flags;
    && d != [] && v % 2 == 0 && v / 2 % 2 == 0 && v / 4 % 2 == 0
    && ((p.dport == 443 && cfg.tls && Tls.HelloOctets(d))
        || (p.dport == 80 && cfg.http && |d| >= 5 && Http.MethodOctets(d)))
  }

  /** Exactly those are cut; every other packet passes with nothing sent, whatever the socket and the sends. */
  lemma {:induction false} CutIffStartsRecord(cfg: Settings, p: Packet, up: bool, env: TcpEnv)
    ensures Cut(cfg, p).Some? <==> StartsRecord(cfg, p)
    ensures !StartsRecord(cfg, p) ==> Handled(cfg, p, up, env) == Result(Accept, [], [])
  {
    Http.RequestOctets(p.payload);
    if CarriesData(p) && Interesting(cfg, p) {
      RecordsAreCut(cfg, p);
    }
  }

  /** The first fragment of an HTTP request never holds a whole Host name, found or not. */
  lemma FirstFragmentHidesHost(cfg: Settings, p: Packet, j: nat)
    requires p.dport == 80 && Cut(cfg, p).Some?
    ensures !Http.HostLine(p.payload[..Cut(cfg, p).value], j)
  {
    RecordsAreCut(cfg, p);
    if Located(p) != -1 {
      Http.FirstFragmentHasNoHost(p.payload, j);
    }
  }

  /** The cut falls strictly inside the octets from..from + n: neither fragment holds all of them. */
  predicate CutsInside(cfg: Settings, p: Packet, from: nat, n: nat) {
    Cut(cfg, p).Some? && from < Cut(cfg, p).value < from + n <= |p.payload|
  }

  /**
   * The first host name of a ClientHello straddles the cut exactly when it has two or more
   * octets and the whole of its server_name extension is in the segment.
   */
  lemma {:induction false} SniStraddlesTheCutIff(cfg: Settings, p: Packet, h: Tls.Hello, k: nat, ns: seq<Tls.HostName>)
    requires p.dport == 443 && cfg.tls && CarriesData(p) && Tls.IsClientHello(p.payload)
    requires Tls.Encodable(h) && Tls.Comparable(p.payload, Tls.Encode(h))
    requires k < |h.extensions| && forall j :: 0 <= j < k ==> h.extensions[j].kind != 0
    requires Tls.IsSni(h.extensions[k], ns) && ns != []
    ensures CutsInside(cfg, p, Tls.NameAt(h, k), |ns[0].name|)
       <==> |ns[0].name| >= 2 && Tls.EndOf(h, k) <= |p.payload|
  {
    Tls.SplitOfHello(h, k, ns, p.payload);
    Tls.NameInsideExtension(h, k, ns);
    RecordsAreCut(cfg, p);
  }
}
