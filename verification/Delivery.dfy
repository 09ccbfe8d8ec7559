/**
 * From intercepted packets to the stream a server reads: whatever the sends did, and however
 * the network delivers, the receiver gets the application's octets.
 */
module Delivery {
  import opened Bytes
  import opened Config
  import opened Packet
  import opened Tcp
  import R = Receiver

  /** One packet handed to the TCP routine: its octets, the settings then, its family's socket, the sends. */
  datatype Interception = Interception(raw: seq<byte>, cfg: Settings, up: bool, env: TcpEnv) {
    predicate IsTcp() {
      Parse(raw).Some? && Parse(raw).value.proto == PROTO_TCP
    }

    function Seen(): Packet
      requires IsTcp()
    {
      Parse(raw).value
    }

    function Result(): Tcp.Result
      requires IsTcp()
    {
      Handled(cfg, Seen(), up, env)
    }

    predicate Emits(frame: seq<byte>)
      requires IsTcp()
    {
      frame in Frames(Result().fakes + Result().reals)
    }

    /** Everything that may reach the server: the frames sent, fakes included, and an accepted original. */
    predicate MayArrive(frame: seq<byte>)
      requires IsTcp()
    {
      Emits(frame) || (Result().verdict.Accept? && frame == raw)
    }

    /** What TCP retransmission sees through: the real frames of a dropped original, or the original. */
    predicate MustArrive(frame: seq<byte>)
      requires IsTcp()
    {
      if Result().verdict.Drop? then frame in Frames(Result().reals) else frame == raw
    }
  }

  /** The stream octets a TCP packet carries; a SYN takes the first sequence number itself. */
  function SegmentOf(p: Packet): R.Segment {
    R.Segment(Add32(p.sn, if HasBit(p.flags, TH_SYN) then 1 else 0), p.payload)
  }

  function Received(frame: seq<byte>): R.Segment
    requires Parse(frame).Some?
  {
    SegmentOf(Parse(frame).value)
  }

  /** What a server tells connections apart by. */
  datatype Connection = Connection(src: Endpoint, dst: Endpoint, sport: u16, dport: u16)

  function ConnectionOf(p: Packet): Connection {
    Connection(p.src, p.dst, p.sport, p.dport)
  }

  predicate BelongsTo(frame: seq<byte>, c: Connection) {
    Parse(frame).Some? && ConnectionOf(Parse(frame).value) == c
  }

  /** The segments of connection c among the frames that reach a server, in the order they do. */
  function Heard(trace: seq<seq<byte>>, c: Connection): seq<R.Segment> {
    if trace == [] then []
    else (if BelongsTo(trace[0], c) then [Received(trace[0])] else []) + Heard(trace[1..], c)
  }

  // ---- what an interception puts on the wire ----

  lemma PartIsGenuine(stream: seq<byte>, isn: u32, at: nat, sn: u32, payload: seq<byte>, lo: nat, hi: nat)
    requires R.On(R.Segment(sn, payload), stream, isn, at) && lo <= hi <= |payload|
    ensures R.On(R.Segment(Add32(sn, lo), payload[lo..hi]), stream, isn, at + lo)
  {
    SliceOfSlice(stream, at, at + |payload|, lo, hi);
    Add32Sum(isn, at, lo);
  }

  lemma SliceOfSlice(s: seq<byte>, a: nat, b: nat, lo: nat, hi: nat)
    requires a <= b <= |s| && lo <= hi <= b - a
    ensures s[a..b][lo..hi] == s[a + lo..a + hi]
  {
    var t, u := s[a..b][lo..hi], s[a + lo..a + hi];
    forall k | 0 <= k < hi - lo ensures t[k] == u[k] {
      assert t[k] == s[a..b][lo + k] == s[a + (lo + k)];
    }
  }

  lemma Add32Sum(a: u32, m: nat, n: nat)
    ensures Add32(Add32(a, m), n) == Add32(a, m + n)
  {
    var q, r := (a + m) / R.SPACE, (a + m) % R.SPACE;
    assert a + m + n == R.SPACE * q + (r + n);
    ModShift(q, r + n);
  }

  lemma ModShift(q: int, x: nat)
    ensures (R.SPACE * q + x) % R.SPACE == x % R.SPACE
  {}

  lemma ClearingPshKeepsSyn(f: byte)
    ensures HasBit(ClearBit(f, TH_PSH), TH_SYN) == HasBit(f, TH_SYN)
  {}

  /** q carries the octets lo..hi of p's payload at their sequence number, on the same connection. */
  predicate PartOf(p: Packet, q: Packet, lo: nat, hi: nat)
    requires lo <= hi <= |p.payload|
  {
    ConnectionOf(q) == ConnectionOf(p) && SegmentOf(q) == R.Segment(Add32(p.sn, lo), p.payload[lo..hi])
  }

  lemma SegmentIsPart(p: Packet, lo: nat, hi: nat, sn: u32, flags: byte, payload: seq<byte>)
    requires lo <= hi <= |p.payload| && !HasBit(flags, TH_SYN)
    requires sn == Add32(p.sn, lo) && payload == p.payload[lo..hi]
    ensures PartOf(p, Segment(p, sn, flags, payload), lo, hi)
  {
    assert Add32(sn, 0) == sn;
  }

  /** Every frame emitted for p is a part of p, the fake being the whole. */
  lemma EmittedIsPart(i: Interception, frame: seq<byte>) returns (lo: nat, hi: nat)
    requires i.IsTcp() && i.Emits(frame)
    ensures lo <= hi <= |i.Seen().payload| && Cut(i.cfg, i.Seen()).Some?
    ensures Parse(frame).Some? && PartOf(i.Seen(), Parse(frame).value, lo, hi)
  {
    var p := i.Seen();
    var cs := i.Result().fakes + i.Result().reals;
    var n :| 0 <= n < |cs| && Frames(cs)[n] == frame;
    ParsedIsCanonical(i.raw);
    lo, hi := CraftedIsPart(i.cfg, p, i.up, i.env, cs[n]);
  }

  lemma CraftedIsPart(cfg: Settings, p: Packet, up: bool, env: TcpEnv, c: Crafted) returns (lo: nat, hi: nat)
    requires Canonical(p) && c in Handled(cfg, p, up, env).fakes + Handled(cfg, p, up, env).reals
    ensures lo <= hi <= |p.payload| && Cut(cfg, p).Some?
    ensures Parse(c.Bytes()).Some? && PartOf(p, Parse(c.Bytes()).value, lo, hi)
  {
    var cut := Cut(cfg, p).value;
    CutHasNoSyn(cfg, p);
    if c == Fake(cfg, p, env.fake.id) {
      lo, hi := 0, |p.payload|;
      FakeIsPart(cfg, p, env.fake.id);
    } else if c == First(p, cut, env.first.id) {
      lo, hi := 0, cut;
      FirstIsPart(p, cut, env.first.id);
    } else {
      assert c == Second(p, cut, env.second.id);
      lo, hi := cut, |p.payload|;
      SecondIsPart(p, cut, env.second.id);
    }
  }

  lemma FakeIsPart(cfg: Settings, p: Packet, id: u16)
    requires Canonical(p) && !HasBit(p.flags, TH_SYN)
    ensures Parse(Fake(cfg, p, id).Bytes()).Some? && PartOf(p, Parse(Fake(cfg, p, id).Bytes()).value, 0, |p.payload|)
  {
    assert PartOf(p, Segment(p, p.sn, p.flags, p.payload), 0, |p.payload|) by {
      assert p.payload[0..|p.payload|] == p.payload && Add32(p.sn, 0) == p.sn;
      SegmentIsPart(p, 0, |p.payload|, p.sn, p.flags, p.payload);
    }
    FakeParses(cfg, p, id);
  }

  lemma FirstIsPart(p: Packet, cut: nat, id: u16)
    requires Canonical(p) && !HasBit(p.flags, TH_SYN) && cut <= |p.payload|
    ensures Parse(First(p, cut, id).Bytes()).Some? && PartOf(p, Parse(First(p, cut, id).Bytes()).value, 0, cut)
  {
    var flags := ClearBit(p.flags, TH_PSH);
    assert PartOf(p, Segment(p, p.sn, flags, p.payload[..cut]), 0, cut) by {
      ClearingPshKeepsSyn(p.flags);
      assert p.payload[0..cut] == p.payload[..cut] && Add32(p.sn, 0) == p.sn;
      SegmentIsPart(p, 0, cut, p.sn, flags, p.payload[..cut]);
    }
    FirstParses(p, cut, id);
  }

  lemma SecondIsPart(p: Packet, cut: nat, id: u16)
    requires Canonical(p) && !HasBit(p.flags, TH_SYN) && cut <= |p.payload|
    ensures Parse(Second(p, cut, id).Bytes()).Some?
         && PartOf(p, Parse(Second(p, cut, id).Bytes()).value, cut, |p.payload|)
  {
    assert PartOf(p, Segment(p, Add32(p.sn, cut), p.flags, p.payload[cut..]), cut, |p.payload|) by {
      assert p.payload[cut..|p.payload|] == p.payload[cut..];
      SegmentIsPart(p, cut, |p.payload|, Add32(p.sn, cut), p.flags, p.payload[cut..]);
    }
    SecondParses(p, cut, id);
  }

  /** A packet that is rewritten starts its payload at its own sequence number. */
  lemma RewrittenHasNoSyn(i: Interception)
    requires i.IsTcp() && Cut(i.cfg, i.Seen()).Some?
    ensures Received(i.raw) == R.Segment(i.Seen().sn, i.Seen().payload)
  {
    CutHasNoSyn(i.cfg, i.Seen());
  }

  lemma CutHasNoSyn(cfg: Settings, p: Packet)
    requires Cut(cfg, p).Some?
    ensures !HasBit(p.flags, TH_SYN) && SegmentOf(p) == R.Segment(p.sn, p.payload)
  {
    assert Add32(p.sn, 0) == p.sn;
  }

  /**
   * No emitted segment disagrees with the original, fakes included: each frame that may
   * arrive belongs to the same connection and carries exactly the octets its stream has at
   * its sequence number.
   */
  lemma {:induction false} ArrivalsAgree(i: Interception, stream: seq<byte>, isn: u32, at: nat, frame: seq<byte>)
    requires i.IsTcp() && R.On(Received(i.raw), stream, isn, at) && i.MayArrive(frame)
    ensures BelongsTo(frame, ConnectionOf(i.Seen())) && R.Genuine(Received(frame), stream, isn)
  {
    if i.Emits(frame) {
      var lo, hi := EmittedIsPart(i, frame);
      RewrittenHasNoSyn(i);
      PartIsGenuine(stream, isn, at, i.Seen().sn, i.Seen().payload, lo, hi);
    }
  }

  /** Every octet of an intercepted packet is in a frame that must arrive. */
  lemma {:induction false} ArrivalsCover(i: Interception, stream: seq<byte>, isn: u32, at: nat, x: nat)
      returns (frame: seq<byte>)
    requires i.IsTcp() && R.On(Received(i.raw), stream, isn, at)
    requires at <= x < at + |i.Seen().payload|
    ensures i.MustArrive(frame) && BelongsTo(frame, ConnectionOf(i.Seen())) && R.Brings(Received(frame), stream, isn, x)
  {
    if i.Result().verdict.Drop? {
      frame := HalfWith(i, x - at);
      var lo, hi := PartWith(i, x - at, frame);
      PartBrings(i, stream, isn, at, frame, lo, hi, x);
    } else {
      frame := i.raw;
    }
  }

  lemma PartBrings(i: Interception, stream: seq<byte>, isn: u32, at: nat, frame: seq<byte>, lo: nat, hi: nat, x: nat)
    requires i.IsTcp() && R.On(Received(i.raw), stream, isn, at) && Cut(i.cfg, i.Seen()).Some?
    requires lo <= hi <= |i.Seen().payload| && at + lo <= x < at + hi
    requires Parse(frame).Some? && PartOf(i.Seen(), Parse(frame).value, lo, hi)
    ensures R.Brings(Received(frame), stream, isn, x)
  {
    RewrittenHasNoSyn(i);
    PartIsGenuine(stream, isn, at, i.Seen().sn, i.Seen().payload, lo, hi);
    assert R.On(Received(frame), stream, isn, at + lo);
  }

  /** The real frame with octet x of the payload. */
  function HalfWith(i: Interception, x: nat): seq<byte>
    requires i.IsTcp() && i.Result().verdict.Drop?
  {
    var p := i.Seen();
    var cut := Cut(i.cfg, p).value;
    if x < cut then First(p, cut, i.env.first.id).Bytes() else Second(p, cut, i.env.second.id).Bytes()
  }

  lemma BothSent(cfg: Settings, p: Packet, up: bool, env: TcpEnv)
    requires Handled(cfg, p, up, env).verdict.Drop?
    ensures var cut := Cut(cfg, p).value;
            var fs := Frames(Handled(cfg, p, up, env).reals);
      |fs| == 2 && fs[0] == First(p, cut, env.first.id).Bytes() && fs[1] == Second(p, cut, env.second.id).Bytes()
  {}

  lemma PartWith(i: Interception, x: nat, frame: seq<byte>) returns (lo: nat, hi: nat)
    requires i.IsTcp() && i.Result().verdict.Drop? && frame == HalfWith(i, x) && x < |i.Seen().payload|
    ensures lo <= x < hi <= |i.Seen().payload| && frame in Frames(i.Result().reals)
    ensures Parse(frame).Some? && PartOf(i.Seen(), Parse(frame).value, lo, hi)
  {
    var p := i.Seen();
    var cut := Cut(i.cfg, p).value;
    ParsedIsCanonical(i.raw);
    CutHasNoSyn(i.cfg, p);
    BothSent(i.cfg, p, i.up, i.env);
    if x < cut {
      lo, hi := 0, cut;
      FirstIsPart(p, cut, i.env.first.id);
    } else {
      lo, hi := cut, |p.payload|;
      SecondIsPart(p, cut, i.env.second.id);
    }
  }

  // ---- whole runs ----

  /** What the application sends on one connection, and the sequence number of its first octet. */
  datatype Stream = Stream(octets: seq<byte>, isn: u32)

  /** Interception i carries octets of its connection's stream from position at on. */
  predicate Carries(i: Interception, at: nat, streams: map<Connection, Stream>) {
    && i.IsTcp() && ConnectionOf(i.Seen()) in streams
    && var t := streams[ConnectionOf(i.Seen())];
       R.On(Received(i.raw), t.octets, t.isn, at)
  }

  /** A run: intercepted packets of any number of connections, mixed in any way. */
  ghost predicate Run(xs: seq<Interception>, ats: seq<nat>, streams: map<Connection, Stream>) {
    |ats| == |xs| && forall j :: 0 <= j < |xs| ==> Carries(xs[j], ats[j], streams)
  }

  /** The application sent every octet of connection c in some packet. */
  ghost predicate Covers(xs: seq<Interception>, ats: seq<nat>, c: Connection, octets: seq<byte>)
    requires |ats| == |xs| && forall i | i in xs :: i.IsTcp()
  {
    forall x: nat :: x < |octets| ==> SentAt(xs, ats, c, x)
  }

  ghost predicate SentAt(xs: seq<Interception>, ats: seq<nat>, c: Connection, x: nat)
    requires |ats| == |xs| && forall i | i in xs :: i.IsTcp()
  {
    exists j :: 0 <= j < |xs| && ConnectionOf(xs[j].Seen()) == c && ats[j] <= x < ats[j] + |xs[j].Seen().payload|
  }

  /**
   * What reaches the server of connection c is, as far as it belongs to c, from the run, in
   * any order and any number of times; everything else may reach it too.
   */
  ghost predicate Delivers(xs: seq<Interception>, trace: seq<seq<byte>>, c: Connection)
    requires forall i | i in xs :: i.IsTcp()
  {
    forall f | f in trace && BelongsTo(f, c) :: exists i | i in xs :: i.MayArrive(f)
  }

  /** Every frame that must arrive does, at least once. */
  ghost predicate Complete(xs: seq<Interception>, trace: seq<seq<byte>>, c: Connection)
    requires forall i | i in xs :: i.IsTcp()
  {
    forall i, f | i in xs && i.MustArrive(f) && BelongsTo(f, c) :: f in trace
  }

  lemma {:induction false} HeardMembers(trace: seq<seq<byte>>, c: Connection)
    ensures forall f | f in trace && BelongsTo(f, c) :: Received(f) in Heard(trace, c)
    ensures forall s | s in Heard(trace, c) :: exists f | f in trace && BelongsTo(f, c) :: s == Received(f)
    decreases |trace|
  {
    if trace != [] {
      assert trace == [trace[0]] + trace[1..];
      HeardMembers(trace[1..], c);
    }
  }

  lemma {:induction false} HeardIsGenuine(xs: seq<Interception>, ats: seq<nat>, streams: map<Connection, Stream>,
                                          trace: seq<seq<byte>>, c: Connection)
    requires Run(xs, ats, streams) && c in streams && Delivers(xs, trace, c)
    ensures forall s | s in Heard(trace, c) :: R.Genuine(s, streams[c].octets, streams[c].isn)
  {
    HeardMembers(trace, c);
    forall s | s in Heard(trace, c) ensures R.Genuine(s, streams[c].octets, streams[c].isn) {
      var f :| f in trace && BelongsTo(f, c) && s == Received(f);
      FrameIsGenuine(xs, ats, streams, f, c);
    }
  }

  lemma FrameIsGenuine(xs: seq<Interception>, ats: seq<nat>, streams: map<Connection, Stream>,
                       f: seq<byte>, c: Connection)
    requires Run(xs, ats, streams) && c in streams && BelongsTo(f, c) && exists i | i in xs :: i.MayArrive(f)
    ensures R.Genuine(Received(f), streams[c].octets, streams[c].isn)
  {
    var i :| i in xs && i.MayArrive(f);
    var j :| 0 <= j < |xs| && xs[j] == i;
    var t := streams[ConnectionOf(i.Seen())];
    ArrivalsAgree(i, t.octets, t.isn, ats[j], f);
  }

  lemma {:induction false} SentArrives(xs: seq<Interception>, ats: seq<nat>, streams: map<Connection, Stream>,
                                       trace: seq<seq<byte>>, c: Connection, x: nat)
    requires Run(xs, ats, streams) && c in streams && SentAt(xs, ats, c, x) && Complete(xs, trace, c)
    ensures R.Arrived(Heard(trace, c), streams[c].octets, streams[c].isn, x)
  {
    var j :| 0 <= j < |xs| && ConnectionOf(xs[j].Seen()) == c && ats[j] <= x < ats[j] + |xs[j].Seen().payload|;
    var i := xs[j];
    assert Carries(i, ats[j], streams);
    var f := ArrivalsCover(i, streams[c].octets, streams[c].isn, ats[j], x);
    assert i in xs && i.MustArrive(f);
    HeardMembers(trace, c);
    assert Received(f) in Heard(trace, c);
  }

  lemma {:induction false} DeliveryIsComplete(xs: seq<Interception>, ats: seq<nat>, streams: map<Connection, Stream>,
                                              trace: seq<seq<byte>>, c: Connection)
    requires Run(xs, ats, streams) && c in streams && Covers(xs, ats, c, streams[c].octets)
    requires Delivers(xs, trace, c) && Complete(xs, trace, c)
    ensures R.Complete(Heard(trace, c), streams[c].octets, streams[c].isn)
  {
    var t := streams[c];
    HeardIsGenuine(xs, ats, streams, trace, c);
    forall x: nat | x < |t.octets| ensures R.Arrived(Heard(trace, c), t.octets, t.isn, x) {
      SentArrives(xs, ats, streams, trace, c, x);
    }
  }

  /**
   * Whole-run stream preservation.  Take any run of intercepted TCP packets of any mix of
   * connections, under any settings, socket states and pattern of send failures, starting at
   * any sequence numbers, that together send the stream of connection c.  Deliver its real
   * frames and accepted originals at least once each, with any duplicates and any of the
   * fakes, in any order and among any other frames, to a server that sorts frames by
   * endpoints and ports and resolves overlaps either way.  It reads exactly the stream.
   */
  lemma {:induction false} RunPreservesStream(xs: seq<Interception>, ats: seq<nat>, streams: map<Connection, Stream>,
                                              c: Connection, trace: seq<seq<byte>>, p: R.Policy)
    requires Run(xs, ats, streams) && c in streams && Covers(xs, ats, c, streams[c].octets)
    requires Delivers(xs, trace, c) && Complete(xs, trace, c)
    requires R.Distinguishable(streams[c].octets, p) && |streams[c].octets| <= p.window
    ensures R.ReceiveAll(R.Fresh(streams[c].isn), Heard(trace, c), p).out == streams[c].octets
  {
    DeliveryIsComplete(xs, ats, streams, trace, c);
    R.Reassembles(Heard(trace, c), streams[c].octets, streams[c].isn, p);
  }

  function HeardRounds(rounds: seq<seq<seq<byte>>>, c: Connection): seq<seq<R.Segment>> {
    seq(|rounds|, i requires 0 <= i < |rounds| => Heard(rounds[i], c))
  }

  /** The same for a window of any width that is open at all, when the network retransmits. */
  lemma {:induction false} RunSurvivesRetransmission(
      xs: seq<Interception>, ats: seq<nat>, streams: map<Connection, Stream>, c: Connection,
      rounds: seq<seq<seq<byte>>>, p: R.Policy)
    requires Run(xs, ats, streams) && c in streams && Covers(xs, ats, c, streams[c].octets)
    requires forall t | t in rounds :: Delivers(xs, t, c) && Complete(xs, t, c)
    requires R.Distinguishable(streams[c].octets, p) && p.window > 0 && |rounds| >= |streams[c].octets|
    ensures R.ReceiveRounds(R.Fresh(streams[c].isn), HeardRounds(rounds, c), p).out == streams[c].octets
  {
    forall t | t in rounds ensures R.Complete(Heard(t, c), streams[c].octets, streams[c].isn) {
      DeliveryIsComplete(xs, ats, streams, t, c);
    }
    R.RoundsReassemble(HeardRounds(rounds, c), streams[c].octets, streams[c].isn, p);
  }

  /** Before everything has arrived, and behind any window, only a prefix of each stream is read. */
  lemma {:induction false} RunIsNeverCorrupted(xs: seq<Interception>, ats: seq<nat>, streams: map<Connection, Stream>,
                                               c: Connection, trace: seq<seq<byte>>, p: R.Policy)
    requires Run(xs, ats, streams) && c in streams && Delivers(xs, trace, c)
    requires R.Distinguishable(streams[c].octets, p)
    ensures R.ReceiveAll(R.Fresh(streams[c].isn), Heard(trace, c), p).out <= streams[c].octets
  {
    HeardIsGenuine(xs, ats, streams, trace, c);
    R.OnlyPrefixes(Heard(trace, c), streams[c].octets, streams[c].isn, p);
  }
}
