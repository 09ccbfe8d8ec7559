/**
 * The closed loop: a packet leaves through the OUTPUT chain, may be queued to the callback,
 * and what the callback and its workers inject leaves through the same chains again.
 */
module Loop {
  import opened Bytes
  import opened Config
  import opened Packet
  import opened Tcp
  import opened Callback
  import Firewall
  import Http
  import Net
  import E = Engine
  import K = Kernel

  datatype Outgoing = Outgoing(bytes: seq<byte>, mark: u32)

  /** The rules installed on any chains, the host's other rules, and the sockets that inject. */
  datatype World = World(
    admin4: Firewall.Admin, admin6: Firewall.Admin, base: Firewall.Chains, ipv6: bool,
    up: Reach, mark4: u32, mark6: u32) {

    function Chain(f: Family): seq<Firewall.Rule> {
      Firewall.Apply(ipv6, base).Get(f)
    }

    function AdminOf(f: Family): Firewall.Admin {
      if f.Inet? then admin4 else admin6
    }

    function Mark(f: Family): u32 {
      if f.Inet? then mark4 else mark6
    }
  }

  /** What a successful start guarantees: IPv6 is injected only if its rules are installed. */
  predicate Equipped(w: World) {
    w.up.v6 ==> w.ipv6
  }

  /** SO_MARK went through on every injection socket. */
  predicate AllMarked(w: World) {
    (w.up.v4 ==> w.mark4 == FWMARK) && (w.up.v6 ==> w.mark6 == FWMARK)
  }

  /** The free choices of one round: which packet, settings, outcomes, the worker's upstream datagrams, its answer. */
  datatype Round = Round(pick: nat, cfg: Settings, env: CbEnv, asks: seq<seq<byte>>, reply: Option<seq<byte>>)

  type Oracle = nat -> Round

  function FamilyOf(b: seq<byte>): Family {
    if |b| > 0 && b[0] / 16 == 6 then Inet6 else Inet
  }

  function FlowOf(o: Outgoing): Firewall.Flow {
    var p := Parse(o.bytes);
    if p.Some? then Firewall.Flow(p.value.proto, p.value.dport, o.mark) else Firewall.Flow(0, 0, o.mark)
  }

  predicate Queued(w: World, o: Outgoing) {
    var f := FamilyOf(o.bytes);
    Firewall.Evaluate(w.AdminOf(f), w.Chain(f), FlowOf(o)) == Firewall.Queue(QUEUE_NUM)
  }

  function WithMark(frames: seq<seq<byte>>, mark: u32): seq<Outgoing> {
    if frames == [] then [] else [Outgoing(frames[0], mark)] + WithMark(frames[1..], mark)
  }

  /** A worker's packets: at most two upstream queries, always marked, and one answer. */
  function Worked(w: World, f: Family, r: Round): seq<Outgoing> {
    WithMark(r.asks[..if |r.asks| > 2 then 2 else |r.asks|], FWMARK)
    + (if w.up.Open(f) && r.reply.Some? then [Outgoing(r.reply.value, w.Mark(f))] else [])
  }

  /** Everything the handling of a queued packet sends. */
  function Injected(w: World, o: Outgoing, r: Round): seq<Outgoing> {
    var f := FamilyOf(o.bytes);
    var x := EffectOfData(r.cfg, w.up, o.bytes, r.env);
    WithMark(Frames(x.fakes + x.reals), w.Mark(f)) + (if x.job then Worked(w, f, r) else [])
  }

  /** The packet a round takes; any pending one may be next. */
  function Chosen(pending: seq<Outgoing>, r: Round): (k: nat)
    ensures pending != [] ==> k < |pending|
  {
    if r.pick < |pending| then r.pick else 0
  }

  function Rest(pending: seq<Outgoing>, k: nat): seq<Outgoing>
    requires k < |pending|
  {
    pending[..k] + pending[k + 1..]
  }

  function TakeOne(w: World, pending: seq<Outgoing>, r: Round): seq<Outgoing> {
    if pending == [] then []
    else
      var k := Chosen(pending, r);
      Rest(pending, k) + if Queued(w, pending[k]) then Injected(w, pending[k], r) else []
  }

  /** A rule for one round after another. */
  type Rounds = (seq<Outgoing>, nat) -> seq<Outgoing>

  function Iterate(step: Rounds, pending: seq<Outgoing>, n: nat): seq<Outgoing> {
    if n == 0 then pending else step(Iterate(step, pending, n - 1), n - 1)
  }

  function Rule(w: World, o: Oracle): Rounds {
    (q, i: nat) => TakeOne(w, q, o(i))
  }

  /** What is pending after n rounds. */
  function Run(w: World, pending: seq<Outgoing>, o: Oracle, n: nat): seq<Outgoing> {
    Iterate(Rule(w, o), pending, n)
  }

  // ---- with the mark ----

  function Unmarked(pending: seq<Outgoing>): nat {
    if pending == [] then 0 else Count(pending[0].mark != FWMARK) + Unmarked(pending[1..])
  }

  lemma {:induction false} UnmarkedConcat(a: seq<Outgoing>, b: seq<Outgoing>)
    ensures Unmarked(a + b) == Unmarked(a) + Unmarked(b)
  {
    if a == [] {
      assert a + b == b;
    } else {
      assert (a + b)[1..] == a[1..] + b;
      UnmarkedConcat(a[1..], b);
    }
  }

  lemma {:induction false} MarkedCounts(frames: seq<seq<byte>>, mark: u32)
    ensures |WithMark(frames, mark)| == |frames|
    ensures Unmarked(WithMark(frames, mark)) == if mark == FWMARK then 0 else |frames|
    ensures forall i :: 0 <= i < |frames| ==> WithMark(frames, mark)[i] == Outgoing(frames[i], mark)
  {
    if frames != [] {
      MarkedCounts(frames[1..], mark);
    }
  }

  lemma FamilyOfParsed(b: seq<byte>)
    requires Parse(b).Some?
    ensures Parse(b).value.src.family == Parse(b).value.family == FamilyOf(b)
  {}

  lemma EffectOnNeedsSocket(cfg: Settings, up: Reach, p: Packet, env: CbEnv)
    ensures var x := EffectOn(cfg, up, p, env);
      && |x.fakes + x.reals| <= 3
      && (x.job ==> x.fakes + x.reals == [])
      && (x.fakes + x.reals != [] ==> up.Open(p.src.family))
      && (x.job && p.src.family.Inet6? ==> up.v6)
  {}

  /** An effect that sends anything needs the open socket of its family; it sends three packets at most. */
  lemma EffectNeedsSocket(w: World, b: seq<byte>, r: Round)
    ensures var x := EffectOfData(r.cfg, w.up, b, r.env);
      && |x.fakes + x.reals| <= 3
      && (x.job ==> x.fakes + x.reals == [])
      && (x.fakes + x.reals != [] ==> w.up.Open(FamilyOf(b)))
      && (x.job && FamilyOf(b).Inet6? ==> w.up.v6)
  {
    if Parse(b).Some? {
      FamilyOfParsed(b);
      EffectOnNeedsSocket(r.cfg, w.up, Parse(b).value, r.env);
    }
  }

  lemma InjectedIsMarked(w: World, o: Outgoing, r: Round)
    requires AllMarked(w)
    ensures |Injected(w, o, r)| <= 3 && Unmarked(Injected(w, o, r)) == 0
  {
    var f := FamilyOf(o.bytes);
    var x := EffectOfData(r.cfg, w.up, o.bytes, r.env);
    var asks := r.asks[..if |r.asks| > 2 then 2 else |r.asks|];
    EffectNeedsSocket(w, o.bytes, r);
    MarkedCounts(Frames(x.fakes + x.reals), w.Mark(f));
    MarkedCounts(asks, FWMARK);
    if x.job {
      var reply := if w.up.Open(f) && r.reply.Some? then [Outgoing(r.reply.value, w.Mark(f))] else [];
      UnmarkedConcat(WithMark(asks, FWMARK), reply);
      UnmarkedConcat(WithMark(Frames(x.fakes + x.reals), w.Mark(f)), Worked(w, f, r));
    } else {
      UnmarkedConcat(WithMark(Frames(x.fakes + x.reals), w.Mark(f)), []);
    }
  }

  /** A marked packet injects nothing: its family's rules let it pass, or its family cannot inject. */
  lemma {:induction false} MarkedIsNotHandledAgain(w: World, o: Outgoing, r: Round)
    requires Equipped(w) && o.mark == FWMARK
    ensures w.up.Open(FamilyOf(o.bytes)) || FamilyOf(o.bytes).Inet? ==> !Queued(w, o)
    ensures Queued(w, o) ==> Injected(w, o, r) == []
  {
    var f := FamilyOf(o.bytes);
    if f.Inet? || w.ipv6 {
      Firewall.InstalledSemantics(w.AdminOf(f), w.base.Get(f), FlowOf(o));
    } else {
      EffectNeedsSocket(w, o.bytes, r);
    }
  }

  /** Pending packets, with four for each one that may still be handled. */
  function Measure(pending: seq<Outgoing>): nat {
    |pending| + 3 * Unmarked(pending)
  }

  /** A round takes one packet; handling an application packet costs one unmarked packet, for good. */
  lemma TakeOneDecreases(w: World, pending: seq<Outgoing>, r: Round)
    requires Equipped(w) && AllMarked(w)
    ensures var next := TakeOne(w, pending, r);
      && (next == [] || Measure(next) < Measure(pending))
      && Unmarked(next) + Count(Handles(w, pending, r)) <= Unmarked(pending)
  {
    if pending != [] {
      var k := Chosen(pending, r);
      var o := pending[k];
      InjectedIsMarked(w, o, r);
      UnmarkedWithout(pending, k);
      UnmarkedConcat(Rest(pending, k), Injected(w, o, r));
      UnmarkedConcat(Rest(pending, k), []);
      if o.mark == FWMARK {
        MarkedIsNotHandledAgain(w, o, r);
      }
    }
  }

  lemma UnmarkedWithout(pending: seq<Outgoing>, k: nat)
    requires k < |pending|
    ensures Unmarked(pending) == Unmarked(Rest(pending, k)) + Count(pending[k].mark != FWMARK)
  {
    UnmarkedAround(pending[..k], pending[k], pending[k + 1..]);
    SplitAt(pending, k);
  }

  lemma SplitAt<T>(s: seq<T>, k: nat)
    requires k < |s|
    ensures s == s[..k] + ([s[k]] + s[k + 1..])
  {}

  lemma UnmarkedAround(a: seq<Outgoing>, o: Outgoing, b: seq<Outgoing>)
    ensures Unmarked(a + ([o] + b)) == Unmarked(a + b) + Count(o.mark != FWMARK)
  {
    UnmarkedConcat(a, [o] + b);
    UnmarkedConcat([o], b);
    UnmarkedConcat(a, b);
  }

  /** The round hands an application packet to the callback. */
  predicate Handles(w: World, pending: seq<Outgoing>, r: Round) {
    pending != [] && pending[Chosen(pending, r)].mark != FWMARK && Queued(w, pending[Chosen(pending, r)])
  }

  /** How many of the first n rounds do. */
  function Handlings(w: World, pending: seq<Outgoing>, o: Oracle, n: nat): nat {
    Tally(Rule(w, o), Counted(w, o), pending, n)
  }

  type Counting = (seq<Outgoing>, nat) -> bool

  function Counted(w: World, o: Oracle): Counting {
    (q, i: nat) => Handles(w, q, o(i))
  }

  function Tally(step: Rounds, counted: Counting, pending: seq<Outgoing>, n: nat): nat {
    if n == 0 then 0
    else Tally(step, counted, pending, n - 1) + Count(counted(Iterate(step, pending, n - 1), n - 1))
  }

  lemma {:induction false} IterateDecreases(step: Rounds, counted: Counting, pending: seq<Outgoing>, n: nat)
    requires forall q, i {:trigger step(q, i)} ::
      && (step(q, i) == [] || Measure(step(q, i)) < Measure(q))
      && Unmarked(step(q, i)) + Count(counted(q, i)) <= Unmarked(q)
    ensures Iterate(step, pending, n) == [] || Measure(Iterate(step, pending, n)) + n <= Measure(pending)
    ensures Tally(step, counted, pending, n) + Unmarked(Iterate(step, pending, n)) <= Unmarked(pending)
  {
    if n > 0 {
      IterateDecreases(step, counted, pending, n - 1);
      var q := Iterate(step, pending, n - 1);
      if q == [] {
        assert Measure(q) == 0;
      }
    }
  }

  /**
   * With the mark on every injecting socket the loop is over after at most Measure(pending)
   * rounds, in whatever order packets are taken, whatever the chains hold besides and whatever
   * sends and workers do, and each application packet is handled at most once.
   */
  lemma RunDecreases(w: World, pending: seq<Outgoing>, o: Oracle, n: nat)
    requires Equipped(w) && AllMarked(w)
    ensures Run(w, pending, o, n) == [] || Measure(Run(w, pending, o, n)) + n <= Measure(pending)
    ensures Handlings(w, pending, o, n) <= Unmarked(pending)
  {
    var step, counted := Rule(w, o), Counted(w, o);
    forall q, i {:trigger step(q, i)}
      ensures step(q, i) == [] || Measure(step(q, i)) < Measure(q)
      ensures Unmarked(step(q, i)) + Count(counted(q, i)) <= Unmarked(q)
    {
      TakeOneDecreases(w, q, o(i));
    }
    IterateDecreases(step, counted, pending, n);
  }

  ghost predicate Drains(w: World, pending: seq<Outgoing>, o: Oracle) {
    exists n: nat :: Run(w, pending, o, n) == []
  }

  // ---- without it ----

  /** A first record that the settings ask to rewrite and a single frame can carry. */
  predicate Rewritable(cfg: Settings, f: Family, p: Packet) {
    && p.family == f && p.proto == PROTO_TCP && (p.dport == 80 || p.dport == 443)
    && CarriesData(p) && Interesting(cfg, p) && Fits(f, 20 + |p.payload|)
  }

  predicate Live(cfg: Settings, f: Family, mark: u32, o: Outgoing) {
    o.mark == mark && Parse(o.bytes).Some? && Rewritable(cfg, f, Parse(o.bytes).value)
  }

  /** The fake of a live packet is live again. */
  lemma {:induction false} FakeIsLive(w: World, f: Family, r: Round, o: Outgoing)
    requires Live(r.cfg, f, w.Mark(f), o) && w.up.Open(f) && r.env.tcp.fake.ok
    ensures var x := EffectOfData(r.cfg, w.up, o.bytes, r.env);
      x.fakes != [] && Live(r.cfg, f, w.Mark(f), Outgoing(x.fakes[0].Bytes(), w.Mark(f)))
  {
    var p := Parse(o.bytes).value;
    FamilyOfParsed(o.bytes);
    ParsedIsCanonical(o.bytes);
    RecordsAreCut(r.cfg, p);
    FakeParses(r.cfg, p, r.env.tcp.fake.id);
    var x := EffectOfData(r.cfg, w.up, o.bytes, r.env);
    assert x.fakes == [Fake(r.cfg, p, r.env.tcp.fake.id)];
  }

  lemma LiveIsQueued(w: World, cfg: Settings, f: Family, o: Outgoing)
    requires Live(cfg, f, w.Mark(f), o) && w.Mark(f) != FWMARK && (f.Inet? || w.ipv6)
    ensures Queued(w, o)
  {
    FamilyOfParsed(o.bytes);
    Firewall.InstalledSemantics(w.AdminOf(f), w.base.Get(f), FlowOf(o));
  }

  ghost predicate HasLive(cfg: Settings, f: Family, mark: u32, pending: seq<Outgoing>) {
    exists o | o in pending :: Live(cfg, f, mark, o)
  }

  lemma HandlingKeepsLive(w: World, f: Family, r: Round, o: Outgoing)
    requires Live(r.cfg, f, w.Mark(f), o) && w.up.Open(f) && r.env.tcp.fake.ok
    ensures HasLive(r.cfg, f, w.Mark(f), Injected(w, o, r))
  {
    FakeIsLive(w, f, r, o);
    FamilyOfParsed(o.bytes);
    var x := EffectOfData(r.cfg, w.up, o.bytes, r.env);
    MarkedCounts(Frames(x.fakes + x.reals), w.Mark(f));
    assert WithMark(Frames(x.fakes + x.reals), w.Mark(f))[0] == Outgoing(x.fakes[0].Bytes(), w.Mark(f));
    assert Injected(w, o, r)[0] == Outgoing(x.fakes[0].Bytes(), w.Mark(f));
  }

  lemma HasLiveSuffix(cfg: Settings, f: Family, mark: u32, a: seq<Outgoing>, b: seq<Outgoing>)
    requires HasLive(cfg, f, mark, a) || HasLive(cfg, f, mark, b)
    ensures HasLive(cfg, f, mark, a + b)
  {
    if HasLive(cfg, f, mark, a) {
      var o :| o in a && Live(cfg, f, mark, o);
      assert o in a + b;
    } else {
      var o :| o in b && Live(cfg, f, mark, o);
      assert o in a + b;
    }
  }

  lemma TakeOneKeepsLive(w: World, f: Family, r: Round, pending: seq<Outgoing>)
    requires HasLive(r.cfg, f, w.Mark(f), pending)
    requires w.up.Open(f) && w.Mark(f) != FWMARK && (f.Inet? || w.ipv6) && r.env.tcp.fake.ok
    ensures HasLive(r.cfg, f, w.Mark(f), TakeOne(w, pending, r))
  {
    var o :| o in pending && Live(r.cfg, f, w.Mark(f), o);
    var k := Chosen(pending, r);
    var sent := if Queued(w, pending[k]) then Injected(w, pending[k], r) else [];
    assert HasLive(r.cfg, f, w.Mark(f), Rest(pending, k)) || HasLive(r.cfg, f, w.Mark(f), sent) by {
      if o == pending[k] {
        LiveIsQueued(w, r.cfg, f, o);
        HandlingKeepsLive(w, f, r, o);
      } else {
        InRest(pending, k, o);
      }
    }
    HasLiveSuffix(r.cfg, f, w.Mark(f), Rest(pending, k), sent);
  }

  lemma InRest(pending: seq<Outgoing>, k: nat, o: Outgoing)
    requires k < |pending| && o in pending && o != pending[k]
    ensures o in Rest(pending, k)
  {
    assert pending == pending[..k] + [pending[k]] + pending[k + 1..];
  }

  lemma {:induction false} IterateKeeps(step: Rounds, kept: seq<Outgoing> -> bool, pending: seq<Outgoing>, n: nat)
    requires kept(pending)
    requires forall q, i {:trigger step(q, i)} :: kept(q) ==> kept(step(q, i))
    ensures kept(Iterate(step, pending, n))
  {
    if n > 0 {
      IterateKeeps(step, kept, pending, n - 1);
    }
  }

  lemma LiveRunsForever(w: World, f: Family, pending: seq<Outgoing>, r: Round, o: Oracle, n: nat)
    requires HasLive(r.cfg, f, w.Mark(f), pending) && forall i :: o(i) == r
    requires w.up.Open(f) && w.Mark(f) != FWMARK && (f.Inet? || w.ipv6) && r.env.tcp.fake.ok
    ensures HasLive(r.cfg, f, w.Mark(f), Run(w, pending, o, n))
  {
    var step, kept := Rule(w, o), (q: seq<Outgoing>) => HasLive(r.cfg, f, w.Mark(f), q);
    forall q, i {:trigger step(q, i)} | kept(q) ensures kept(step(q, i)) {
      TakeOneKeepsLive(w, f, r, q);
    }
    IterateKeeps(step, kept, pending, n);
  }

  // ---- exactly when the loop ends ----

  const GET: seq<byte> := ['G' as int, 'E' as int, 'T' as int, ' ' as int, '/' as int]

  const HTTP_ONLY := Settings(true, false, false, false, true, 5, "1.1.1.1", "", 53)
  const EAGER := Round(0, HTTP_ONLY, ALL_WELL, [], None)

  /** An HTTP request of family f. */
  function Request(f: Family): seq<byte> {
    var e := Endpoint(f, NO_ENDPOINT.addr);
    TcpFrame(e, e, TcpFields(1000, 80, 0, 0, 0x10, 0), 64, 0, GET)
  }

  lemma GetIsRequest()
    ensures Http.IsRequest(GET)
  {
    assert Http.StartsWith(GET, Http.METHODS[0]);
  }

  lemma RequestIsLive(f: Family, mark: u32)
    ensures Live(HTTP_ONLY, f, mark, Outgoing(Request(f), mark))
  {
    var e := Endpoint(f, NO_ENDPOINT.addr);
    var t := TcpFields(1000, 80, 0, 0, 0x10, 0);
    TcpRoundTrip(e, e, t, 64, 0, GET);
    RequestIsRewritable(e, t);
  }

  lemma RequestIsRewritable(e: Endpoint, t: TcpFields)
    requires t == TcpFields(1000, 80, 0, 0, 0x10, 0)
    ensures Rewritable(HTTP_ONLY, e.family, Rebuilt(e, e, PROTO_TCP, t, GET))
  {
    GetIsRequest();
  }

  /**
   * The loop ends for every batch of packets and every course of events exactly when SO_MARK
   * went through on each injection socket.  Without it one HTTP request is enough: its fake
   * is intercepted again, for ever.
   */
  lemma DrainsIffMarked(w: World)
    requires Equipped(w)
    ensures (forall pending, o :: Drains(w, pending, o)) <==> AllMarked(w)
  {
    if AllMarked(w) {
      forall pending, o ensures Drains(w, pending, o) {
        RunDecreases(w, pending, o, Measure(pending) + 1);
        assert Run(w, pending, o, Measure(pending) + 1) == [];
      }
    } else {
      var f := if w.up.v4 && w.mark4 != FWMARK then Inet else Inet6;
      var pending := [Outgoing(Request(f), w.Mark(f))];
      var o: Oracle := _ => EAGER;
      UnmarkedNeverDrains(w, f, pending, o);
    }
  }

  lemma UnmarkedNeverDrains(w: World, f: Family, pending: seq<Outgoing>, o: Oracle)
    requires w.up.Open(f) && w.Mark(f) != FWMARK && (f.Inet? || w.ipv6)
    requires pending == [Outgoing(Request(f), w.Mark(f))] && forall i :: o(i) == EAGER
    ensures !Drains(w, pending, o)
  {
    RequestIsLive(f, w.Mark(f));
    assert HasLive(HTTP_ONLY, f, w.Mark(f), pending);
    forall n: nat ensures Run(w, pending, o, n) != [] {
      LiveRunsForever(w, f, pending, EAGER, o, n);
    }
  }

  // ---- the loop around a started engine ----

  /** The world around engine eng, which installed its rules on chains base under the given setting. */
  ghost function WorldOf(eng: E.Engine, k: K.Host, startedIpv6: bool, base: Firewall.Chains,
                         admin4: Firewall.Admin, admin6: Firewall.Admin): World
    reads eng, eng.inj, k
  {
    World(admin4, admin6, base, startedIpv6, ReachOf(k, eng.inj),
          SocketOf(k, eng.inj, Inet).mark, SocketOf(k, eng.inj, Inet6).mark)
  }

  /**
   * From what bd_engine_start guarantees: the loop around a started engine ends for every
   * batch exactly when neither SO_MARK of that start failed on a socket it kept, whatever
   * the settings are by now.
   */
  lemma StartedLoopDrainsIff(eng: E.Engine, k: K.Host, o: E.StartEnv, startedIpv6: bool, base: Firewall.Chains,
                             admin4: Firewall.Admin, admin6: Firewall.Admin)
    requires eng.Valid(k) && eng.Active(k) && k.chains == Firewall.Apply(startedIpv6, base)
    requires Net.Marked(k, eng.inj, Inet, if o.sockets.mark4 then FWMARK else 0)
    requires eng.inj.fd6 == -1
          || (startedIpv6 && Net.Marked(k, eng.inj, Inet6, if o.sockets.mark6 then FWMARK else 0))
    ensures var w := WorldOf(eng, k, startedIpv6, base, admin4, admin6);
      && (forall f :: w.Chain(f) == k.chains.Get(f))
      && ((forall pending, course :: Drains(w, pending, course))
          <==> o.sockets.mark4 && (eng.inj.fd6 != -1 ==> o.sockets.mark6))
  {
    DrainsIffMarked(WorldOf(eng, k, startedIpv6, base, admin4, admin6));
  }
}
