/**
 * A TCP receiver (section 3.4 of RFC 9293): it holds octets by 32-bit sequence number inside
 * its window, hands over what is contiguous, and resolves overlaps by either policy.
 */
module Receiver {
  import opened Bytes

  const SPACE: int := 0x1_0000_0000

  datatype Segment = Segment(sn: u32, data: seq<byte>)

  datatype Overlap = KeepOld | TakeNew

  datatype Rx = Rx(next: u32, out: seq<byte>, held: map<u32, byte>)

  datatype Policy = Policy(window: nat, overlap: Overlap)

  /** How far s lies ahead of next, modulo 2^32. */
  function Ahead(next: u32, s: u32): u32 {
    if s >= next then s - next else s - next + SPACE
  }

  function Hold(held: map<u32, byte>, next: u32, sn: u32, data: seq<byte>, p: Policy): map<u32, byte>
    decreases |data|
  {
    if data == [] then held
    else
      var keep := Ahead(next, sn) < p.window && (sn !in held || p.overlap.TakeNew?);
      Hold(if keep then held[sn := data[0]] else held, next, Add32(sn, 1), data[1..], p)
  }

  /** Hands over octets as long as the next expected one is held. */
  function Drain(rx: Rx): Rx
    decreases |rx.held|
  {
    if rx.next !in rx.held then rx
    else
      var rest := rx.held - {rx.next};
      assert |rest| < |rx.held| by { Shrinks(rx.held, rx.next); }
      Drain(Rx(Add32(rx.next, 1), rx.out + [rx.held[rx.next]], rest))
  }

  lemma Shrinks(m: map<u32, byte>, s: u32)
    requires s in m
    ensures |m - {s}| < |m|
  {
    assert (m - {s}).Keys == m.Keys - {s};
    assert |(m - {s}).Keys| == |m - {s}| && |m.Keys| == |m|;
  }

  function Receive(rx: Rx, s: Segment, p: Policy): Rx {
    Drain(rx.(held := Hold(rx.held, rx.next, s.sn, s.data, p)))
  }

  function ReceiveAll(rx: Rx, ss: seq<Segment>, p: Policy): Rx
    decreases |ss|
  {
    if ss == [] then rx else ReceiveAll(Receive(rx, ss[0], p), ss[1..], p)
  }

  function Fresh(isn: u32): Rx {
    Rx(isn, [], map[])
  }

  // ---- a stream and its segments ----

  /** s carries the octets of the stream from position at on. */
  predicate On(s: Segment, stream: seq<byte>, isn: u32, at: nat) {
    at + |s.data| <= |stream| && s.sn == Add32(isn, at) && s.data == stream[at..at + |s.data|]
  }

  ghost predicate Genuine(s: Segment, stream: seq<byte>, isn: u32) {
    exists at: nat :: On(s, stream, isn, at)
  }

  /** s carries the octet at position i of the stream. */
  ghost predicate Brings(s: Segment, stream: seq<byte>, isn: u32, i: nat) {
    exists at: nat :: On(s, stream, isn, at) && at <= i < at + |s.data|
  }

  ghost predicate Arrived(ss: seq<Segment>, stream: seq<byte>, isn: u32, i: nat) {
    exists s | s in ss :: Brings(s, stream, isn, i)
  }

  /** Sequence numbers tell the stream's octets from everything a window can hold. */
  predicate Distinguishable(stream: seq<byte>, p: Policy) {
    |stream| < SPACE && |stream| + p.window <= SPACE
  }

  ghost predicate HeldIsGenuine(rx: Rx, stream: seq<byte>) {
    forall s | s in rx.held ::
      |rx.out| + Ahead(rx.next, s) < |stream| && rx.held[s] == stream[|rx.out| + Ahead(rx.next, s)]
  }

  /** What was handed over is a prefix of the stream and what is held belongs behind it. */
  ghost predicate Consistent(rx: Rx, stream: seq<byte>, isn: u32) {
    rx.out <= stream && rx.next == Add32(isn, |rx.out|) && HeldIsGenuine(rx, stream)
  }

  /** The octet at position i has been handed over or is held. */
  predicate Has(rx: Rx, isn: u32, i: nat) {
    i < |rx.out| || Add32(isn, i) in rx.held
  }

  lemma AheadOfPlace(isn: u32, n: nat, i: nat, limit: nat)
    requires n < SPACE && i < SPACE && limit <= SPACE - n
    ensures i >= n ==> Ahead(Add32(isn, n), Add32(isn, i)) == i - n
    ensures i < n ==> Ahead(Add32(isn, n), Add32(isn, i)) == i - n + SPACE >= limit
  {}

  lemma {:induction false} HoldIsGenuine(rx: Rx, s: Segment, stream: seq<byte>, isn: u32, at: nat, p: Policy)
    requires Consistent(rx, stream, isn) && On(s, stream, isn, at) && Distinguishable(stream, p)
    ensures Consistent(rx.(held := Hold(rx.held, rx.next, s.sn, s.data, p)), stream, isn)
    decreases |s.data|
  {
    if s.data != [] {
      var keep := Ahead(rx.next, s.sn) < p.window && (s.sn !in rx.held || p.overlap.TakeNew?);
      var mid := rx.(held := if keep then rx.held[s.sn := s.data[0]] else rx.held);
      HoldOne(rx, s.sn, s.data[0], stream, isn, at, p);
      NextOctet(s, stream, isn, at);
      HoldIsGenuine(mid, Segment(Add32(s.sn, 1), s.data[1..]), stream, isn, at + 1, p);
    }
  }

  lemma HoldOne(rx: Rx, sn: u32, b: byte, stream: seq<byte>, isn: u32, at: nat, p: Policy)
    requires Consistent(rx, stream, isn) && Distinguishable(stream, p)
    requires at < |stream| && sn == Add32(isn, at) && b == stream[at]
    ensures Ahead(rx.next, sn) < p.window ==> Consistent(rx.(held := rx.held[sn := b]), stream, isn)
  {
    AheadOfPlace(isn, |rx.out|, at, p.window);
  }

  lemma NextOctet(s: Segment, stream: seq<byte>, isn: u32, at: nat)
    requires On(s, stream, isn, at) && s.data != []
    ensures On(Segment(Add32(s.sn, 1), s.data[1..]), stream, isn, at + 1)
  {
    assert stream[at..at + |s.data|][1..] == stream[at + 1..at + |s.data|];
    Add32Step(isn, at);
  }

  lemma Add32Step(a: u32, n: nat)
    ensures Add32(Add32(a, n), 1) == Add32(a, n + 1)
  {
    var q, r := (a + n) / SPACE, (a + n) % SPACE;
    assert a + n + 1 == SPACE * q + (r + 1);
  }

  lemma {:induction false} DrainIsConsistent(rx: Rx, stream: seq<byte>, isn: u32)
    requires Consistent(rx, stream, isn) && |stream| < SPACE
    ensures Consistent(Drain(rx), stream, isn) && Drain(rx).next !in Drain(rx).held
    ensures |Drain(rx).out| >= |rx.out|
    ensures forall i: nat :: i < |stream| && Has(rx, isn, i) ==> Has(Drain(rx), isn, i)
    decreases |rx.held|
  {
    if rx.next in rx.held {
      Shrinks(rx.held, rx.next);
      DrainStep(rx, stream, isn);
      DrainIsConsistent(Rx(Add32(rx.next, 1), rx.out + [rx.held[rx.next]], rx.held - {rx.next}), stream, isn);
    }
  }

  lemma AheadNext(next: u32, s: u32)
    requires s != next
    ensures Ahead(Add32(next, 1), s) == Ahead(next, s) - 1
  {}

  lemma DrainStep(rx: Rx, stream: seq<byte>, isn: u32)
    requires Consistent(rx, stream, isn) && |stream| < SPACE && rx.next in rx.held
    ensures var d := Rx(Add32(rx.next, 1), rx.out + [rx.held[rx.next]], rx.held - {rx.next});
      Consistent(d, stream, isn) && forall i: nat :: i < |stream| && Has(rx, isn, i) ==> Has(d, isn, i)
  {
    var d := Rx(Add32(rx.next, 1), rx.out + [rx.held[rx.next]], rx.held - {rx.next});
    var n := |rx.out|;
    assert Ahead(rx.next, rx.next) == 0;
    assert d.out == stream[..n + 1];
    Add32Step(isn, n);
    forall s | s in d.held
      ensures |d.out| + Ahead(d.next, s) == n + Ahead(rx.next, s)
    {
      AheadNext(rx.next, s);
    }
    forall i: nat | i < |stream| && Has(rx, isn, i) ensures Has(d, isn, i) {
      if i > n {
        AheadOfPlace(isn, n, i, 0);
        assert Add32(isn, i) != rx.next;
      }
    }
  }

  lemma {:induction false} HoldHas(rx: Rx, s: Segment, stream: seq<byte>, isn: u32, at: nat, p: Policy, i: nat)
    requires Consistent(rx, stream, isn) && On(s, stream, isn, at)
    requires |stream| < SPACE && i < |stream| && i < |rx.out| + p.window
    ensures var h := rx.(held := Hold(rx.held, rx.next, s.sn, s.data, p));
      Has(rx, isn, i) || at <= i < at + |s.data| ==> Has(h, isn, i)
    decreases |s.data|
  {
    if s.data != [] {
      var keep := Ahead(rx.next, s.sn) < p.window && (s.sn !in rx.held || p.overlap.TakeNew?);
      var mid := rx.(held := if keep then rx.held[s.sn := s.data[0]] else rx.held);
      AheadOfPlace(isn, |rx.out|, at, 0);
      NextOctet(s, stream, isn, at);
      HoldGrows(mid.held, rx.next, Add32(s.sn, 1), s.data[1..], p);
      if i == at {
        assert Has(mid, isn, i);
      } else if at < i < at + |s.data| {
        HoldReaches(mid.held, rx.next, isn, at + 1, s.data[1..], p, i, |rx.out|);
      }
    }
  }

  lemma {:induction false} HoldGrows(held: map<u32, byte>, next: u32, sn: u32, data: seq<byte>, p: Policy)
    ensures held.Keys <= Hold(held, next, sn, data, p).Keys
    decreases |data|
  {
    if data != [] {
      var keep := Ahead(next, sn) < p.window && (sn !in held || p.overlap.TakeNew?);
      HoldGrows(if keep then held[sn := data[0]] else held, next, Add32(sn, 1), data[1..], p);
    }
  }

  /** Every octet inside the window that is still missing is taken. */
  lemma {:induction false} HoldReaches(held: map<u32, byte>, next: u32, isn: u32, at: nat, data: seq<byte>,
                                       p: Policy, i: nat, n: nat)
    requires next == Add32(isn, n) && n < SPACE && at <= i < at + |data| < SPACE
    requires i - n < p.window
    ensures i < n || Add32(isn, i) in Hold(held, next, Add32(isn, at), data, p)
    decreases |data|
  {
    var sn := Add32(isn, at);
    var keep := Ahead(next, sn) < p.window && (sn !in held || p.overlap.TakeNew?);
    var mid := if keep then held[sn := data[0]] else held;
    Add32Step(isn, at);
    AheadOfPlace(isn, n, at, 0);
    if i == at {
      HoldGrows(mid, next, Add32(sn, 1), data[1..], p);
    } else {
      HoldReaches(mid, next, isn, at + 1, data[1..], p, i, n);
    }
  }

  // ---- whole traces ----

  lemma ReceiveKeeps(rx: Rx, s: Segment, stream: seq<byte>, isn: u32, p: Policy)
    requires Consistent(rx, stream, isn) && Genuine(s, stream, isn) && Distinguishable(stream, p)
    ensures Consistent(Receive(rx, s, p), stream, isn) && Receive(rx, s, p).next !in Receive(rx, s, p).held
    ensures |Receive(rx, s, p).out| >= |rx.out|
    ensures forall i: nat ::
      i < |stream| && i < |rx.out| + p.window && (Has(rx, isn, i) || Brings(s, stream, isn, i))
      ==> Has(Receive(rx, s, p), isn, i)
  {
    var h := rx.(held := Hold(rx.held, rx.next, s.sn, s.data, p));
    var at: nat :| On(s, stream, isn, at);
    HoldIsGenuine(rx, s, stream, isn, at, p);
    DrainIsConsistent(h, stream, isn);
    forall i: nat | i < |stream| && i < |rx.out| + p.window && (Has(rx, isn, i) || Brings(s, stream, isn, i))
      ensures Has(h, isn, i)
    {
      if Has(rx, isn, i) {
        HoldHas(rx, s, stream, isn, at, p, i);
      } else {
        var q: nat :| On(s, stream, isn, q) && q <= i < q + |s.data|;
        HoldHas(rx, s, stream, isn, q, p, i);
      }
    }
  }

  /** What is handed over only grows, and every octet inside the window that arrives is kept. */
  lemma {:induction false} TraceKeeps(rx: Rx, ss: seq<Segment>, stream: seq<byte>, isn: u32, p: Policy, i: nat)
    requires Consistent(rx, stream, isn) && Distinguishable(stream, p)
    requires forall s | s in ss :: Genuine(s, stream, isn)
    ensures Consistent(ReceiveAll(rx, ss, p), stream, isn)
    ensures |ReceiveAll(rx, ss, p).out| >= |rx.out|
    ensures rx.next !in rx.held || ss != [] ==> ReceiveAll(rx, ss, p).next !in ReceiveAll(rx, ss, p).held
    ensures i < |stream| && i < |rx.out| + p.window && (Has(rx, isn, i) || Arrived(ss, stream, isn, i))
      ==> Has(ReceiveAll(rx, ss, p), isn, i)
    decreases |ss|
  {
    if ss != [] {
      assert ss == [ss[0]] + ss[1..];
      ReceiveKeeps(rx, ss[0], stream, isn, p);
      TraceKeeps(Receive(rx, ss[0], p), ss[1..], stream, isn, p, i);
    }
  }

  /** Whatever arrives of a stream, in any order and number, only a prefix of it is handed over. */
  lemma OnlyPrefixes(ss: seq<Segment>, stream: seq<byte>, isn: u32, p: Policy)
    requires Distinguishable(stream, p)
    requires forall s | s in ss :: Genuine(s, stream, isn)
    ensures ReceiveAll(Fresh(isn), ss, p).out <= stream
  {
    TraceKeeps(Fresh(isn), ss, stream, isn, p, 0);
  }

  lemma NothingMissing(rx: Rx, stream: seq<byte>, isn: u32)
    requires Consistent(rx, stream, isn) && rx.next !in rx.held
    requires forall i: nat :: i < |stream| ==> Has(rx, isn, i)
    ensures rx.out == stream
  {
    var n: nat := |rx.out|;
    assert n < |stream| ==> Has(rx, isn, n);
  }

  /** Every octet of the stream is in ss somewhere, and nothing else is. */
  ghost predicate Complete(ss: seq<Segment>, stream: seq<byte>, isn: u32) {
    && (forall s | s in ss :: Genuine(s, stream, isn))
    && (forall i: nat :: i < |stream| ==> Arrived(ss, stream, isn, i))
  }

  /** Once every octet has arrived at least once, a window as wide as the stream hands all of it over. */
  lemma Reassembles(ss: seq<Segment>, stream: seq<byte>, isn: u32, p: Policy)
    requires Distinguishable(stream, p) && |stream| <= p.window && Complete(ss, stream, isn)
    ensures ReceiveAll(Fresh(isn), ss, p).out == stream
  {
    var r := ReceiveAll(Fresh(isn), ss, p);
    forall i: nat | i < |stream| ensures Has(r, isn, i) {
      TraceKeeps(Fresh(isn), ss, stream, isn, p, i);
    }
    TraceKeeps(Fresh(isn), ss, stream, isn, p, 0);
    NothingMissing(r, stream, isn);
  }

  // ---- retransmission into a window of any width ----

  function ReceiveRounds(rx: Rx, rounds: seq<seq<Segment>>, p: Policy): Rx
    decreases |rounds|
  {
    if rounds == [] then rx
    else ReceiveAll(ReceiveRounds(rx, rounds[..|rounds| - 1], p), rounds[|rounds| - 1], p)
  }

  /** A round that brings everything again hands over at least one more octet. */
  lemma RoundAdvances(rx: Rx, ss: seq<Segment>, stream: seq<byte>, isn: u32, p: Policy)
    requires Consistent(rx, stream, isn) && rx.next !in rx.held && Distinguishable(stream, p) && p.window > 0
    requires Complete(ss, stream, isn)
    ensures var r := ReceiveAll(rx, ss, p);
      Consistent(r, stream, isn) && r.next !in r.held && (rx.out == stream == r.out || |r.out| > |rx.out|)
  {
    var n := |rx.out|;
    TraceKeeps(rx, ss, stream, isn, p, n);
    if n < |stream| {
      assert Has(ReceiveAll(rx, ss, p), isn, n);
    }
  }

  /**
   * However narrow the window, as long as it is open: retransmitting until every octet has
   * arrived |stream| times over, in any order each time, hands over the whole stream.
   */
  lemma {:induction false} RoundsReassemble(rounds: seq<seq<Segment>>, stream: seq<byte>, isn: u32, p: Policy)
    requires Distinguishable(stream, p) && p.window > 0
    requires forall ss | ss in rounds :: Complete(ss, stream, isn)
    ensures var r := ReceiveRounds(Fresh(isn), rounds, p);
      Consistent(r, stream, isn) && r.next !in r.held && (|r.out| >= |rounds| || r.out == stream)
    ensures |rounds| >= |stream| ==> ReceiveRounds(Fresh(isn), rounds, p).out == stream
    decreases |rounds|
  {
    if rounds != [] {
      var k := |rounds| - 1;
      RoundsReassemble(rounds[..k], stream, isn, p);
      assert rounds[k] in rounds;
      RoundAdvances(ReceiveRounds(Fresh(isn), rounds[..k], p), rounds[k], stream, isn, p);
    }
  }
}
