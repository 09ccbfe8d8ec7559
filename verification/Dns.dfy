/** DNS interception: job capture, the upstream query and the injected answer (dns.c). */
module Dns {
  import opened Bytes
  import opened Config
  import opened Packet
  import opened Net
  import opened Engine
  import Checksum
  import K = Kernel

  const DNS_MAX: nat := 2048
  const REPLY_TTL: nat := 64

  /** struct dns_job. */
  class Job {
    var src: Endpoint
    var dst: Endpoint
    var sport: u16
    var dport: u16
    var upstream: ServerName
    var fallback: ServerName
    var upstreamPort: int
    var query: seq<byte>

    /** calloc. */
    constructor ()
    {
      src, dst, sport, dport := NO_ENDPOINT, NO_ENDPOINT, 0, 0;
      upstream, fallback, upstreamPort, query := "", "", 0, [];
    }

    /** The job is p's query, to be asked as the settings said when it was captured. */
    ghost predicate Captures(cfg: Settings, p: Packet)
      reads this
    {
      && src == p.src && dst == p.dst && sport == p.sport && dport == p.dport
      && upstreamPort == (if cfg.upstreamPort > 0 then cfg.upstreamPort else 53)
      && upstream == cfg.dnsAddr && fallback == cfg.dnsFallback && query == p.payload
    }
  }

  datatype DnsEnv = DnsEnv(alloc: bool, thread: bool)

  /** A query the worker can carry and answer: IPv6 needs the IPv6 injection socket. */
  predicate Forwardable(p: Packet, has6: bool) {
    0 < |p.payload| <= DNS_MAX && (p.src.family.Inet6? ==> has6)
  }

  /** bd_dns_handle: the original is dropped exactly when a worker has its query. */
  method DnsHandle(inj: Injector, cfg: Settings, p: Packet, env: DnsEnv) returns (verdict: Verdict, job: Job?)
    ensures verdict.Drop? <==> Forwardable(p, inj.fd6 >= 0) && env.alloc && env.thread
    ensures verdict.Drop? <==> job != null
    ensures job != null ==> fresh(job) && job.Captures(cfg, p)
  {
    verdict, job := Accept, null;
    if |p.payload| <= 0 || |p.payload| > DNS_MAX {
      return;
    }
    if p.src.family.Inet6? && inj.fd6 < 0 {
      return;
    }
    if !env.alloc {
      return;
    }
    var j := new Job();
    j.src, j.dst := p.src, p.dst;
    j.sport, j.dport := p.sport, p.dport;
    j.upstreamPort := if cfg.upstreamPort > 0 then cfg.upstreamPort else 53;
    j.upstream, j.fallback := cfg.dnsAddr, cfg.dnsFallback;
    j.query := p.payload;
    if !env.thread {
      return;
    }
    return Drop, j;
  }

  // ---- the worker ----

  /** A server's answer fits the reply buffer and is not empty. */
  type Answer = a: seq<byte> | 0 < |a| <= DNS_MAX witness [0]

  /** One upstream query: the address's family if it parses, each call's outcome, and the answer if any. */
  datatype AskEnv = AskEnv(family: Option<Family>, sock: bool, mark: bool, sent: bool, answer: Option<Answer>)

  predicate Asks(q: AskEnv) {
    q.family.Some? && q.sock && q.mark && q.sent
  }

  /** The datagram one upstream query sends, if it gets that far. */
  function AskedBy(server: string, q: AskEnv, port: int, query: seq<byte>): seq<K.Asked> {
    if Asks(q) then [K.Asked(server, q.family.value, port, FWMARK, query)] else []
  }

  /** The query leaves with the mark or not at all; the socket is always given back. */
  method QueryUpstream(k: K.Host, server: string, port: int, query: seq<byte>, q: AskEnv)
      returns (answer: Option<Answer>)
    requires k.Valid()
    modifies k`sockets, k`nextFd, k`asked
    ensures k.Valid() && k.sockets == old(k.sockets)
    ensures k.asked == old(k.asked) + AskedBy(server, q, port, query)
    ensures answer == if Asks(q) then q.answer else None
  {
    if q.family.None? {
      return None;
    }
    var fd := k.OpenSocket(q.family.value, q.sock);
    if fd < 0 {
      return None;
    }
    var rc := k.SetMark(fd, FWMARK, q.mark);
    if rc < 0 {
      k.CloseSocket(fd);
      assert k.sockets == old(k.sockets);
      return None;
    }
    answer := None;
    var n := k.SendDatagram(fd, server, port, query, q.sent);
    if n == |query| {
      answer := q.answer;
    }
    k.CloseSocket(fd);
    assert k.sockets == old(k.sockets);
  }

  datatype WorkerEnv = WorkerEnv(primary: AskEnv, fallback: AskEnv, send: SendEnv)

  /** What the worker gets to inject: the fallback, if there is one, is asked only when the primary gave nothing. */
  function Obtained(fallback: string, w: WorkerEnv): Option<Answer> {
    if Asks(w.primary) && w.primary.answer.Some? then w.primary.answer
    else if fallback != "" && Asks(w.fallback) then w.fallback.answer
    else None
  }

  /** Everything a worker asks upstream. */
  function Queries(upstream: string, fallback: string, port: int, query: seq<byte>, w: WorkerEnv): seq<K.Asked> {
    AskedBy(upstream, w.primary, port, query)
    + if fallback != "" && !(Asks(w.primary) && w.primary.answer.Some?)
      then AskedBy(fallback, w.fallback, port, query) else []
  }

  // ---- the worker's outcome, call by call ----

  /** A resolver is reached: its address parses, the socket opens, takes the mark and the query. */
  predicate Reached(q: AskEnv) {
    q.family.Some? && q.sock && q.mark && q.sent
  }

  /** A resolver is reached and answers a. */
  predicate Gives(q: AskEnv, a: Answer) {
    Reached(q) && q.answer == Some(a)
  }

  predicate GivesNothing(q: AskEnv) {
    !Reached(q) || q.answer == None
  }

  /** The primary gives a, or gives nothing and the fallback, if there is one, gives a. */
  predicate AnswerIs(fallback: string, w: WorkerEnv, a: Answer) {
    Gives(w.primary, a) || (GivesNothing(w.primary) && fallback != "" && Gives(w.fallback, a))
  }

  predicate AsksAgain(fallback: string, w: WorkerEnv) {
    GivesNothing(w.primary) && fallback != "" && Reached(w.fallback)
  }

  /**
   * A worker asks at most twice, the primary first, always its own query under the mark, and
   * the fallback exactly when there is one and the primary gave nothing.
   */
  lemma QueriesAreMarked(upstream: string, fallback: string, port: int, query: seq<byte>, w: WorkerEnv)
    ensures var s := Queries(upstream, fallback, port, query, w);
      && |s| == (if Reached(w.primary) then 1 else 0) + (if AsksAgain(fallback, w) then 1 else 0)
      && (Reached(w.primary) ==> s[0] == K.Asked(upstream, w.primary.family.value, port, 0xDED, query))
      && (AsksAgain(fallback, w) ==> s[|s| - 1] == K.Asked(fallback, w.fallback.family.value, port, 0xDED, query))
  {}

  /** The answer as it is put on the wire, from the resolver the application addressed. */
  function Reply(src: Endpoint, dst: Endpoint, sport: u16, dport: u16, id: u16, answer: seq<byte>): seq<byte> {
    UdpFrame(dst, src, dport, sport, REPLY_TTL, id, answer)
  }

  /** The answer a worker puts on the wire over family f, if any; up says whether f's injection socket is open. */
  function Delivered(f: Family, fallback: string, up: bool, w: WorkerEnv): Option<Answer> {
    var a := Obtained(fallback, w);
    if a.Some? && Fits(f, 8 + |a.value|) && up && w.send.ok then a else None
  }

  /** dns_worker: counts an answer exactly when one is delivered. */
  method Worker(e: Checksum.Endian, k: K.Host, eng: Engine, inj: Injector, j: Job, w: WorkerEnv)
    requires k.Valid()
    modifies k`sockets, k`nextFd, k`asked, k`wire, eng`stats
    ensures k.Valid() && k.sockets == old(k.sockets)
    ensures k.asked == old(k.asked) + Queries(j.upstream, j.fallback, j.upstreamPort, j.query, w)
    ensures var f := j.dst.family;
            var a := Delivered(f, j.fallback, inj.Fd(f) in k.sockets, w);
      if a.Some? then
        && k.wire == old(k.wire)
           + [Emission(k, inj, f, j.src.addr, Reply(j.src, j.dst, j.sport, j.dport, w.send.id, a.value))]
        && eng.stats == old(eng.stats).(dns := old(eng.stats).dns + 1)
      else k.wire == old(k.wire) && eng.stats == old(eng.stats)
  {
    var answer := QueryUpstream(k, j.upstream, j.upstreamPort, j.query, w.primary);
    if answer.None? && j.fallback != "" {
      answer := QueryUpstream(k, j.fallback, j.upstreamPort, j.query, w.fallback);
    }
    if answer.Some? {
      var rc := SendUdp(e, k, inj, j.dst, j.src, j.dport, j.sport, REPLY_TTL, answer.value, w.send);
      if rc == 0 {
        eng.NoteDns();
      }
    }
  }

  // ---- the answer the application sees ----

  /** To its receiver, frame d is the given answer to p, from the resolver p was sent to, and passes every check. */
  predicate Answers(p: Packet, d: seq<byte>, answer: seq<byte>) {
    && Parse(d) == Some(Packet(p.family, HeaderLen(p.family), 17, p.dst, p.src, p.dport, p.sport, 0, 0, 0, 0, answer))
    && Sound(d, 64)
    && HeaderLen(p.family) + 8 <= |d| && Rd16(d, HeaderLen(p.family) + 4) == 8 + |answer|
  }

  /**
   * The injected answer reads as sent by the resolver the application addressed: endpoints
   * and ports swapped, payload untouched, checksums and lengths in order, the UDP length field included.
   */
  lemma {:induction false} ReplyComesFromResolver(p: Packet, id: u16, answer: seq<byte>)
    requires p.src == Carried(p.family, p.src) && p.dst == Carried(p.family, p.dst)
    requires Fits(p.family, 8 + |answer|)
    ensures Answers(p, Reply(p.src, p.dst, p.sport, p.dport, id, answer), answer)
  {
    assert p.dst.family == p.family;
    UdpRoundTrip(p.dst, p.src, p.dport, p.sport, REPLY_TTL, id, answer);
    UdpFrameIsSound(p.dst, p.src, p.dport, p.sport, REPLY_TTL, id, answer);
  }

  /**
   * An answer reaches the wire, and is counted, exactly when a resolver gave it, the socket is
   * open, the send works and it has at most 2020 octets over IPv4 or 2000 over IPv6.
   */
  lemma DeliveredIff(f: Family, fallback: string, up: bool, w: WorkerEnv, a: Answer)
    ensures Delivered(f, fallback, up, w) == Some(a)
       <==> AnswerIs(fallback, w, a) && up && w.send.ok && |a| <= (if f.Inet? then 2020 else 2000)
  {}

  /** The reply built from a job answers the very packet the job captured. */
  lemma JobAnswersItsPacket(j: Job, cfg: Settings, p: Packet, id: u16, a: Answer)
    requires j.Captures(cfg, p) && Fits(p.family, 8 + |a|)
    requires p.src == Carried(p.family, p.src) && p.dst == Carried(p.family, p.dst)
    ensures Answers(p, Reply(j.src, j.dst, j.sport, j.dport, id, a), a)
  {
    ReplyComesFromResolver(p, id, a);
  }

  /** A job's worker asks the configured resolvers for what the packet asked, at port 53 unless another is set. */
  lemma JobAsksForItsPacket(j: Job, cfg: Settings, p: Packet, w: WorkerEnv)
    requires j.Captures(cfg, p)
    ensures var port := if cfg.upstreamPort > 0 then cfg.upstreamPort else 53;
            var s := Queries(j.upstream, j.fallback, j.upstreamPort, j.query, w);
      && |s| == (if Reached(w.primary) then 1 else 0) + (if AsksAgain(cfg.dnsFallback, w) then 1 else 0)
      && (Reached(w.primary) ==> s[0] == K.Asked(cfg.dnsAddr, w.primary.family.value, port, 0xDED, p.payload))
      && (AsksAgain(cfg.dnsFallback, w) ==>
            s[|s| - 1] == K.Asked(cfg.dnsFallback, w.fallback.family.value, port, 0xDED, p.payload))
  {
    QueriesAreMarked(j.upstream, j.fallback, j.upstreamPort, j.query, w);
  }
}
