/** The queue callback: dispatch, verdict and statistics of one intercepted packet (queue.c:76-140). */
module Callback {
  import opened Bytes
  import opened Config
  import opened Packet
  import opened Tcp
  import opened Dns
  import opened Engine
  import Checksum
  import Net
  import K = Kernel

  /** quic_is_initial: long header, fixed bit, type Initial, a version other than zero. */
  predicate QuicInitial(d: seq<byte>) {
    |d| >= 5 && HasBit(d[0], 0x80) && HasBit(d[0], 0x40) && !HasBit(d[0], 0x20) && !HasBit(d[0], 0x10)
    && Rd32(d, 1) != 0
  }

  datatype CbEnv = CbEnv(tcp: TcpEnv, dns: DnsEnv)

  /** Which technique a packet is for. */
  datatype Kind = ForTcp | ForDns | ForQuic | ForNone

  function KindOf(p: Packet): Kind {
    if p.proto == PROTO_TCP && (p.dport == 80 || p.dport == 443) then ForTcp
    else if p.proto == PROTO_UDP && p.dport == 53 then ForDns
    else if p.proto == PROTO_UDP && p.dport == 443 then ForQuic
    else ForNone
  }

  /** Everything one callback does besides counting the packet. */
  datatype Effect = Effect(verdict: Verdict, fakes: seq<Crafted>, reals: seq<Crafted>, job: bool, quic: bool)

  const NOTHING := Effect(Accept, [], [], false, false)

  /** For each family, whether the engine can inject: its socket is open. */
  datatype Reach = Reach(v4: bool, v6: bool) {
    predicate Open(f: Family) {
      if f.Inet? then v4 else v6
    }
  }

  function ReachOf(k: K.Host, inj: Net.Injector): Reach
    reads k`sockets, inj
  {
    Reach(Up(k, inj, Inet), Up(k, inj, Inet6))
  }

  /** A descriptor the injector remembers is open, which is so from start to the end of stop. */
  predicate SocketsKnown(k: K.Host, inj: Net.Injector)
    reads k`sockets, inj
  {
    inj.fd6 >= 0 <==> inj.fd6 in k.sockets
  }

  function OfTcp(r: Tcp.Result): Effect {
    Effect(r.verdict, r.fakes, r.reals, false, false)
  }

  function EffectOn(cfg: Settings, up: Reach, p: Packet, env: CbEnv): Effect {
    match KindOf(p)
    case ForTcp => OfTcp(Handled(cfg, p, up.Open(p.src.family), env.tcp))
    case ForDns =>
      if cfg.dns && Forwardable(p, up.v6) && env.dns.alloc && env.dns.thread
      then Effect(Drop, [], [], true, false) else NOTHING
    case ForQuic =>
      if cfg.quic && QuicInitial(p.payload) then Effect(Drop, [], [], false, true) else NOTHING
    case ForNone => NOTHING
  }

  function EffectOfData(cfg: Settings, up: Reach, data: seq<byte>, env: CbEnv): Effect {
    if Parse(data).Some? then EffectOn(cfg, up, Parse(data).value, env) else NOTHING
  }

  function Count(b: bool): nat {
    if b then 1 else 0
  }

  /** The statistics after an effect: a drop without a job and without QUIC is a split. */
  function After(s: Stats, x: Effect): Stats {
    s.(split := s.split + Count(x.verdict.Drop? && !x.job && !x.quic), quic := s.quic + Count(x.quic),
       fake := s.fake + |x.fakes|)
  }

  /**
   * Every drop is accounted for by exactly one split, QUIC drop or DNS job, none of which
   * happens to an accepted packet, and a split is counted exactly when both real frames went out.
   */
  lemma {:induction false} DropsAreAccounted(cfg: Settings, up: Reach, data: seq<byte>, env: CbEnv, s: Stats)
    ensures AccountsFor(s, EffectOfData(cfg, up, data, env))
  {
    if Parse(data).Some? {
      var p := Parse(data).value;
      if KindOf(p).ForTcp? {
        HandledShape(cfg, p, up.Open(p.src.family), env.tcp);
        TcpAccounts(s, Handled(cfg, p, up.Open(p.src.family), env.tcp));
        TcpEffect(cfg, up, p, env, s);
      }
    }
  }

  predicate AccountsFor(s: Stats, x: Effect) {
    var t := After(s, x);
    && Count(x.verdict.Drop?) == (t.split - s.split) + (t.quic - s.quic) + Count(x.job)
    && (t.split > s.split <==> |x.reals| == 2)
    && t.fake == s.fake + |x.fakes| && |x.fakes| <= 1 && t.seen == s.seen && t.dns == s.dns
  }

  lemma HandledShape(cfg: Settings, p: Packet, up: bool, env: TcpEnv)
    ensures var r := Handled(cfg, p, up, env);
      (r.verdict.Drop? <==> |r.reals| == 2) && |r.fakes| <= 1
  {}

  lemma TcpAccounts(s: Stats, r: Tcp.Result)
    requires (r.verdict.Drop? <==> |r.reals| == 2) && |r.fakes| <= 1
    ensures AccountsFor(s, OfTcp(r))
  {}

  /** packet_cb: counts the packet, then hands it to the technique it is for. */
  method PacketCb(e: Checksum.Endian, eng: Engine, k: K.Host, data: seq<byte>, env: CbEnv)
      returns (verdict: Verdict, job: Job?)
    requires k.Valid() && SocketsKnown(k, eng.inj)
    modifies eng`stats, k`wire
    ensures verdict == EffectOfData(eng.cfg, ReachOf(k, eng.inj), data, env).verdict
    ensures job != null <==> EffectOfData(eng.cfg, ReachOf(k, eng.inj), data, env).job
    ensures job != null ==> fresh(job) && Parse(data).Some? && job.Captures(eng.cfg, Parse(data).value)
    ensures k.wire == old(k.wire) + (if Parse(data).None? then [] else
              var r := EffectOfData(eng.cfg, ReachOf(k, eng.inj), data, env);
              Stamped(RouteOf(k, eng.inj, Parse(data).value), r.fakes + r.reals))
    ensures eng.stats == After(old(eng.stats).(seen := old(eng.stats).seen + Count(data != [])),
                               EffectOfData(eng.cfg, ReachOf(k, eng.inj), data, env))
  {
    verdict, job := Accept, null;
    if |data| > 0 {
      eng.stats := eng.stats.(seen := eng.stats.seen + 1);
      var rc, p := PacketParse(data);
      if rc == 0 {
        verdict, job := Dispatch(e, eng, k, p, env);
      }
    }
  }

  lemma TcpEffect(cfg: Settings, up: Reach, p: Packet, env: CbEnv, s: Stats)
    requires KindOf(p).ForTcp?
    ensures var r := Handled(cfg, p, up.Open(p.src.family), env.tcp);
      && EffectOn(cfg, up, p, env) == OfTcp(r)
      && After(s, OfTcp(r)) == s.(fake := s.fake + |r.fakes|, split := s.split + (if r.verdict.Drop? then 1 else 0))
  {}

  method Dispatch(e: Checksum.Endian, eng: Engine, k: K.Host, p: Packet, env: CbEnv)
      returns (verdict: Verdict, job: Job?)
    requires k.Valid() && SocketsKnown(k, eng.inj)
    modifies eng`stats, k`wire
    ensures verdict == EffectOn(eng.cfg, ReachOf(k, eng.inj), p, env).verdict
    ensures job != null <==> EffectOn(eng.cfg, ReachOf(k, eng.inj), p, env).job
    ensures job != null ==> fresh(job) && job.Captures(eng.cfg, p)
    ensures k.wire == old(k.wire) + (
              var r := EffectOn(eng.cfg, ReachOf(k, eng.inj), p, env);
              Stamped(RouteOf(k, eng.inj, p), r.fakes + r.reals))
    ensures eng.stats == After(old(eng.stats), EffectOn(eng.cfg, ReachOf(k, eng.inj), p, env))
  {
    verdict, job := Accept, null;
    if p.proto == PROTO_TCP && (p.dport == 80 || p.dport == 443) {
      var v := TcpHandle(e, eng, k, eng.inj, eng.cfg, p, env.tcp);
      TcpEffect(eng.cfg, ReachOf(k, eng.inj), p, env, old(eng.stats));
      if v.Drop? {
        verdict := Drop;
      }
    } else if p.proto == PROTO_UDP && p.dport == 53 {
      if eng.cfg.dns {
        verdict, job := DnsHandle(eng.inj, eng.cfg, p, env.dns);
      }
    } else if p.proto == PROTO_UDP && p.dport == 443 {
      if eng.cfg.quic && QuicInitial(p.payload) {
        eng.NoteQuic();
        verdict := Drop;
      }
    }
  }

  // ---- what is handled, in the packet's own octets ----

  /** A QUIC Initial: 1100 in the first four bits and a version that is not zero. */
  predicate QuicOctets(d: seq<byte>) {
    |d| >= 5 && 0xC0 <= d[0] <= 0xCF && (d[1] != 0 || d[2] != 0 || d[3] != 0 || d[4] != 0)
  }

  lemma QuicIffOctets(d: seq<byte>)
    ensures QuicInitial(d) <==> QuicOctets(d)
  {
    if |d| >= 5 {
      TopBits(d[0]);
      NetworkOrder(d, 1);
    }
  }

  lemma TopBits(f: int)
    requires 0 <= f < 256
    ensures f / 128 % 2 == 1 && f / 64 % 2 == 1 && f / 32 % 2 == 0 && f / 16 % 2 == 0 <==> 0xC0 <= f <= 0xCF
  {
    var h := f / 16;
    assert f / 32 == h / 2 && f / 64 == h / 4 && f / 128 == h / 8;
  }

  /** The DNS queries a worker takes. */
  predicate TakesQuery(cfg: Settings, up: Reach, p: Packet, env: DnsEnv) {
    p.proto == 17 && p.dport == 53 && cfg.dns && 1 <= |p.payload| <= 2048 && (p.src.family.Inet6? ==> up.v6)
    && env.alloc && env.thread
  }

  predicate DropsQuic(cfg: Settings, p: Packet) {
    p.proto == 17 && p.dport == 443 && cfg.quic && QuicOctets(p.payload)
  }

  /**
   * Exactly what each technique handles.  A technique that is switched off, another port or
   * protocol, or data it does not recognise means that the packet passes and nothing is sent,
   * started or counted.
   */
  lemma {:induction false} HandledIff(cfg: Settings, up: Reach, p: Packet, env: CbEnv)
    ensures var x := EffectOn(cfg, up, p, env);
      && (x.job <==> TakesQuery(cfg, up, p, env.dns)) && (x.quic <==> DropsQuic(cfg, p))
      && (x.job || x.quic ==> x.verdict.Drop? && x.fakes == [] && x.reals == [])
      && (if p.proto == 6 && StartsRecord(cfg, p) then x == OfTcp(Handled(cfg, p, up.Open(p.src.family), env.tcp))
          else x.job || x.quic || x == Effect(Accept, [], [], false, false))
  {
    QuicIffOctets(p.payload);
    if KindOf(p).ForTcp? {
      CutIffStartsRecord(cfg, p, up.Open(p.src.family), env.tcp);
      TcpEffect(cfg, up, p, env, NO_STATS);
    }
  }

  // ---- a dropped query and its answer ----

  /**
   * The query was dropped when its worker started.  The application gets an answer exactly
   * when a resolver gave it, the socket takes it and a frame can carry it: up to 2020 octets
   * over IPv4 and 2000 over IPv6.  A longer one, which the reply buffer still takes, is lost:
   * nothing leaves and nothing is counted.  What leaves reads as the resolver's own answer.
   */
  lemma {:induction false} DroppedQueryIsAnsweredIff(cfg: Settings, up: Reach, data: seq<byte>, env: CbEnv,
                                                     w: WorkerEnv, a: Answer)
    requires EffectOfData(cfg, up, data, env).job
    ensures EffectOfData(cfg, up, data, env).verdict.Drop?
    ensures var p := Parse(data).value;
            var sent := Delivered(p.dst.family, cfg.dnsFallback, up.Open(p.dst.family), w);
      && (sent == Some(a) <==>
            AnswerIs(cfg.dnsFallback, w, a) && up.Open(p.dst.family) && w.send.ok
            && |a| <= (if p.dst.family.Inet? then 2020 else 2000))
      && (sent == Some(a) ==> Answers(p, Reply(p.src, p.dst, p.sport, p.dport, w.send.id, a), a))
  {
    var p := Parse(data).value;
    QueryIsTaken(cfg, up, p, env);
    DeliveredIff(p.dst.family, cfg.dnsFallback, up.Open(p.dst.family), w, a);
    ParsedIsCanonical(data);
    if Fits(p.dst.family, 8 + |a|) {
      assert p.family == p.dst.family;
      ReplyComesFromResolver(p, w.send.id, a);
    }
  }

  lemma QueryIsTaken(cfg: Settings, up: Reach, p: Packet, env: CbEnv)
    requires EffectOn(cfg, up, p, env).job
    ensures EffectOn(cfg, up, p, env) == Effect(Drop, [], [], true, false)
  {}

  const DNS_ONLY := Settings(false, false, true, false, true, 5, "1.1.1.1", "", 53)
  const ALL_WELL := CbEnv(TcpEnv(SENDING, SENDING, SENDING), DnsEnv(true, true))
  const SENDING := Net.SendEnv(true, 0)

  /** An answer that fills the reply buffer. */
  const FULL_ANSWER: Answer := seq(DNS_MAX, _ => 0)

  const ANSWERED := AskEnv(Some(Inet), true, true, true, Some(FULL_ANSWER))

  /** A one-octet DNS query of family f. */
  function Query(f: Family): seq<byte> {
    var e := Endpoint(f, NO_ENDPOINT.addr);
    UdpFrame(e, e, 1000, 53, 64, 0, [0])
  }

  /** The loss happens, over either family, with every call succeeding. */
  lemma FullAnswerIsLost(f: Family)
    ensures var up, w := Reach(true, true), WorkerEnv(ANSWERED, ANSWERED, SENDING);
      && EffectOfData(DNS_ONLY, up, Query(f), ALL_WELL).job
      && EffectOfData(DNS_ONLY, up, Query(f), ALL_WELL).verdict.Drop?
      && AnswerIs(DNS_ONLY.dnsFallback, w, FULL_ANSWER)
      && Delivered(f, DNS_ONLY.dnsFallback, true, w) == None
  {
    var e := Endpoint(f, NO_ENDPOINT.addr);
    UdpRoundTrip(e, e, 1000, 53, 64, 0, [0]);
    var p := Rebuilt(e, e, PROTO_UDP, TcpFields(1000, 53, 0, 0, 0, 0), [0]);
    assert EffectOn(DNS_ONLY, Reach(true, true), p, ALL_WELL) == Effect(Drop, [], [], true, false);
  }
}
