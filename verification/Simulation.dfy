/**
 * The interleaving model follows the verified methods: what a callback, a worker, a start and
 * a stop do as calls is what they do as sequences of steps.
 */
module Simulation {
  import opened Bytes
  import opened Config
  import opened Packet
  import opened Callback
  import Tcp
  import D = Dns
  import E = Engine
  import I = Iptables
  import opened Firewall
  import opened S = System

  /** Which families a state can inject for. */
  function ReachIn(s: State): Reach {
    Reach(s.open4, s.open6)
  }

  function Repeat(b: bool, n: nat): seq<bool> {
    seq(n, _ => b)
  }

  lemma RepeatAppend(b: bool, m: nat, n: nat)
    ensures Repeat(b, m + n) == Repeat(b, m) + Repeat(b, n)
  {}

  /** s after n injections over family f. */
  function AfterSends(s: State, f: Family, n: nat): State {
    s.(injections := s.injections + Repeat(Protected(s, f), n))
  }

  lemma InjectIsSend(s: State, f: Family, ok: bool)
    ensures Inject(s, f, ok) == AfterSends(s, f, Count(ok && SocketOpen(s, f)))
  {
    assert s.injections + Repeat(Protected(s, f), 0) == s.injections;
    assert Repeat(Protected(s, f), 1) == [Protected(s, f)];
  }

  /** Sends add up, whatever the receive thread noted between them. */
  lemma SendsAddUp(s: State, f: Family, m: nat, n: nat, r: Reception, st: Stats)
    ensures AfterSends(AfterSends(s, f, m).(receiver := r, stats := st), f, n)
         == AfterSends(s, f, m + n).(receiver := r, stats := st)
  {
    RepeatAppend(Protected(s, f), m, n);
    Regroup(s.injections, Repeat(Protected(s, f), m), Repeat(Protected(s, f), n));
  }

  // ---- the callback ----

  /** s after a callback on a packet of family f that had effect x. */
  function AfterCallback(s: State, f: Family, x: Effect): State {
    AfterSends(s, f, |x.fakes| + |x.reals|).(
      stats := After(s.stats.(seen := s.stats.seen + 1), x),
      drops := s.drops + Count(x.verdict.Drop?),
      jobs := s.jobs + Count(x.job),
      workers := s.workers + if x.job then [Asking(f)] else [])
  }

  /** A step of the receive thread. */
  predicate Receives(a: Action) {
    a.Choosing? || a.Sending? || a.Noting?
  }

  predicate ReceiverOnly(acts: seq<Action>) {
    forall i :: 0 <= i < |acts| ==> Receives(acts[i])
  }

  predicate StepAt(path: seq<State>, acts: seq<Action>, i: nat)
    requires i < |acts| < |path|
  {
    Next(path[i], acts[i]) == path[i + 1]
  }

  /** The receive thread's steps acts lead from s to t along path. */
  ghost predicate Along(path: seq<State>, acts: seq<Action>, s: State, t: State) {
    && |path| == |acts| + 1 && path[0] == s && path[|acts|] == t && ReceiverOnly(acts)
    && forall i :: 0 <= i < |acts| ==> StepAt(path, acts, i)
  }

  /** Steps of the receive thread alone lead from s to t. */
  ghost predicate Leads(s: State, t: State) {
    exists path, acts :: Along(path, acts, s, t)
  }

  lemma OneStep(s: State, a: Action)
    requires Receives(a)
    ensures Leads(s, Next(s, a))
  {
    var path := [s, Next(s, a)];
    assert StepAt(path, [a], 0);
    assert Along(path, [a], s, Next(s, a));
  }

  lemma Compose(s: State, m: State, t: State)
    requires Leads(s, m) && Leads(m, t)
    ensures Leads(s, t)
  {
    var p, a :| Along(p, a, s, m);
    var q, b :| Along(q, b, m, t);
    PathsCompose(p, a, q, b, s, m, t);
  }

  lemma PathsCompose(p: seq<State>, a: seq<Action>, q: seq<State>, b: seq<Action>, s: State, m: State, t: State)
    requires Along(p, a, s, m) && Along(q, b, m, t)
    ensures Along(p[..|a|] + q, a + b, s, t)
  {
    var path, acts := p[..|a|] + q, a + b;
    forall i | 0 <= i < |acts| ensures StepAt(path, acts, i) {
      if i < |a| {
        assert StepAt(p, a, i);
      } else {
        assert StepAt(q, b, i - |a|);
      }
    }
  }

  /** What Leads means: the receive thread can run from s to t, none of the other threads moving. */
  lemma LeadsIsRun(s: State, t: State) returns (sts: seq<Action>)
    requires Leads(s, t)
    ensures ReceiverOnly(sts) && Exec(s, sts) == t
  {
    var path, acts :| Along(path, acts, s, t);
    PathIsRun(path, acts, s, t, |acts|);
    assert acts[..|acts|] == acts;
    sts := acts;
  }

  lemma {:induction false} PathIsRun(path: seq<State>, acts: seq<Action>, s: State, t: State, n: nat)
    requires Along(path, acts, s, t) && n <= |acts|
    ensures Exec(s, acts[..n]) == path[n]
  {
    if n == 0 {
      assert acts[..0] == [];
    } else {
      PathIsRun(path, acts, s, t, n - 1);
      assert StepAt(path, acts, n - 1);
      ExecPrefix(s, acts, n - 1);
    }
  }

  lemma TakeLeads(s: State)
    requires s.receiver.Polling?
    ensures Leads(s, s.(receiver := Counted, stats := s.stats.(seen := s.stats.seen + 1)))
  {
    OneStep(s, Choosing(Take));
  }

  /** The receive thread has taken a packet and chosen receiver state r for it. */
  function Chosen(s: State, r: Reception): State {
    s.(receiver := r, stats := s.stats.(seen := s.stats.seen + 1))
  }

  lemma ChoiceLeads(s: State, c: Choice, r: Reception)
    requires s.receiver.Polling?
    requires (c.LetPass? && r == Decided(Accept)) || (c.DropQuic? && r == QuicSeen) || (c.HandOver? && r == Faking(c.f))
    ensures Leads(s, Chosen(s, r))
  {
    var m := Chosen(s, Counted);
    TakeLeads(s);
    OneStep(m, Choosing(c));
    Compose(s, m, Chosen(s, r));
  }

  lemma JobLeads(s: State, f: Family)
    requires s.receiver.Polling? && (f.Inet6? ==> s.open6)
    ensures Leads(s, Chosen(s, Decided(Drop)).(workers := s.workers + [Asking(f)], jobs := s.jobs + 1))
  {
    var m := Chosen(s, Counted);
    TakeLeads(s);
    OneStep(m, Choosing(StartWorker(f, true)));
    Compose(s, m, Chosen(s, Decided(Drop)).(workers := s.workers + [Asking(f)], jobs := s.jobs + 1));
  }

  lemma VerdictLeads(s: State, v: Verdict)
    requires s.receiver == Decided(v)
    ensures Leads(s, s.(receiver := Polling, drops := s.drops + Count(v.Drop?)))
  {
    OneStep(s, Noting(SetVerdict));
  }

  lemma PassIsNothing(s: State, f: Family)
    requires s.receiver.Polling?
    ensures Leads(s, AfterCallback(s, f, NOTHING))
  {
    var m := Chosen(s, Decided(Accept));
    ChoiceLeads(s, LetPass, Decided(Accept));
    VerdictLeads(m, Accept);
    Compose(s, m, m.(receiver := Polling));
    AfterWithoutSends(s, f, NOTHING);
  }

  lemma JobIsWorker(s: State, f: Family)
    requires s.receiver.Polling? && (f.Inet6? ==> s.open6)
    ensures Leads(s, AfterCallback(s, f, Effect(Drop, [], [], true, false)))
  {
    var m := Chosen(s, Decided(Drop)).(workers := s.workers + [Asking(f)], jobs := s.jobs + 1);
    JobLeads(s, f);
    VerdictLeads(m, Drop);
    Compose(s, m, m.(receiver := Polling, drops := m.drops + 1));
    AfterWithoutSends(s, f, Effect(Drop, [], [], true, false));
  }

  lemma QuicLeads(s: State)
    requires s.receiver.Polling?
    ensures var m := Chosen(s, Decided(Drop));
      Leads(s, m.(stats := m.stats.(quic := m.stats.quic + 1)))
  {
    var m := Chosen(s, QuicSeen);
    ChoiceLeads(s, DropQuic, QuicSeen);
    OneStep(m, Noting(NoteQuic));
    Compose(s, m, m.(receiver := Decided(Drop), stats := m.stats.(quic := m.stats.quic + 1)));
  }

  lemma QuicIsDropped(s: State, f: Family)
    requires s.receiver.Polling?
    ensures Leads(s, AfterCallback(s, f, Effect(Drop, [], [], false, true)))
  {
    var m := Chosen(s, Decided(Drop));
    var n := m.(stats := m.stats.(quic := m.stats.quic + 1));
    QuicLeads(s);
    VerdictLeads(n, Drop);
    Compose(s, n, n.(receiver := Polling, drops := n.drops + 1));
    AfterWithoutSends(s, f, Effect(Drop, [], [], false, true));
  }

  /** The state after an effect that sends nothing. */
  lemma AfterWithoutSends(s: State, f: Family, x: Effect)
    requires x.fakes == [] && x.reals == []
    ensures AfterCallback(s, f, x) == s.(
      stats := After(s.stats.(seen := s.stats.seen + 1), x), drops := s.drops + Count(x.verdict.Drop?),
      jobs := s.jobs + Count(x.job), workers := if x.job then s.workers + [Asking(f)] else s.workers)
  {
    assert s.injections + Repeat(Protected(s, f), 0) == s.injections;
    assert s.workers + [] == s.workers;
  }

  // ---- a rewritten packet ----

  function AfterFake(s: State, f: Family, sent: bool): State {
    AfterSends(s, f, Count(sent)).(receiver := Cutting(f), stats := s.stats.(fake := s.stats.fake + Count(sent)))
  }

  /** A fake that leaves is counted before the halves are sent. */
  lemma FakeLeads(s: State, f: Family, ok: bool)
    requires s.receiver == Faking(f)
    ensures Leads(s, AfterFake(s, f, ok && SocketOpen(s, f)))
  {
    var sent := ok && SocketOpen(s, f);
    InjectIsSend(s, f, ok);
    OneStep(s, Sending(SendFake(ok)));
    if sent {
      var m := AfterSends(s, f, 1).(receiver := FakeSent(f));
      OneStep(m, Noting(NoteFake));
      Compose(s, m, AfterFake(s, f, true));
    }
  }

  lemma FirstLeads(s: State, f: Family, ok: bool)
    requires s.receiver == Cutting(f)
    ensures var sent := ok && SocketOpen(s, f);
      Leads(s, AfterSends(s, f, Count(sent)).(receiver := Halved(f, sent)))
  {
    InjectIsSend(s, f, ok);
    OneStep(s, Sending(SendFirst(ok)));
  }

  lemma SecondLeads(s: State, f: Family, first: bool, ok: bool)
    requires s.receiver == Halved(f, first)
    ensures var sent := ok && SocketOpen(s, f);
      Leads(s, AfterSends(s, f, Count(sent)).(receiver := if first && sent then BothSent else Decided(Accept)))
  {
    InjectIsSend(s, f, ok);
    OneStep(s, Sending(SendSecond(ok)));
  }

  /** Which of the two halves left, and what is to be done about it. */
  function AfterHalves(s: State, f: Family, first: bool, second: bool): State {
    AfterSends(s, f, Count(first) + Count(second)).(
      receiver := if first && second then BothSent else Decided(Accept))
  }

  lemma HalvesAddUp(s: State, f: Family, a: bool, b: bool)
    ensures AfterSends(AfterSends(s, f, Count(a)).(receiver := Halved(f, a)), f, Count(b)).(
              receiver := if a && b then BothSent else Decided(Accept))
         == AfterHalves(s, f, a, b)
  {
    SendsAddUp(s, f, Count(a), Count(b), Halved(f, a), s.stats);
  }

  lemma HalvesLead(s: State, f: Family, first: bool, second: bool)
    requires s.receiver == Cutting(f)
    ensures Leads(s, AfterHalves(s, f, first && SocketOpen(s, f), second && SocketOpen(s, f)))
  {
    var a, b := first && SocketOpen(s, f), second && SocketOpen(s, f);
    var m := AfterSends(s, f, Count(a)).(receiver := Halved(f, a));
    FirstLeads(s, f, first);
    SecondLeads(m, f, a, second);
    HalvesAddUp(s, f, a, b);
    Compose(s, m, AfterSends(m, f, Count(b)).(receiver := if a && b then BothSent else Decided(Accept)));
  }

  lemma SplitLeads(s: State, both: bool)
    requires s.receiver == if both then BothSent else Decided(Accept)
    ensures Leads(s, AfterSplit(s, both))
  {
    if both {
      var m := s.(receiver := Decided(Drop), stats := s.stats.(split := s.stats.split + 1));
      OneStep(s, Noting(NoteSplit));
      VerdictLeads(m, Drop);
      Compose(s, m, AfterSplit(s, both));
    } else {
      VerdictLeads(s, Accept);
    }
  }

  function AfterSplit(s: State, both: bool): State {
    s.(receiver := Polling, stats := s.stats.(split := s.stats.split + Count(both)), drops := s.drops + Count(both))
  }

  lemma HalvedLeads(s: State, f: Family, first: bool, second: bool)
    requires s.receiver == Cutting(f)
    ensures var a, b := first && SocketOpen(s, f), second && SocketOpen(s, f);
      Leads(s, AfterSplit(AfterHalves(s, f, a, b), a && b))
  {
    var a, b := first && SocketOpen(s, f), second && SocketOpen(s, f);
    var m := AfterHalves(s, f, a, b);
    HalvesLead(s, f, first, second);
    SplitLeads(m, a && b);
    Compose(s, m, AfterSplit(m, a && b));
  }

  /** A packet taken for a rewrite, its fake sent or not. */
  function Faked(s: State, f: Family, fake: bool): State {
    AfterSends(s, f, Count(fake)).(receiver := Cutting(f), stats := FakedStats(s.stats, fake))
  }

  function FakedStats(s: Stats, fake: bool): Stats {
    s.(seen := s.seen + 1, fake := s.fake + Count(fake))
  }

  lemma FakedIsChosen(s: State, f: Family, sent: bool)
    ensures AfterFake(Chosen(s, Faking(f)), f, sent) == Faked(s, f, sent)
  {}

  lemma FakedLeads(s: State, f: Family, fake: bool)
    requires s.receiver.Polling?
    ensures Leads(s, Faked(s, f, fake && SocketOpen(s, f)))
  {
    var a := Chosen(s, Faking(f));
    ChoiceLeads(s, HandOver(f), Faking(f));
    FakeLeads(a, f, fake);
    FakedIsChosen(s, f, fake && SocketOpen(s, f));
    Compose(s, a, AfterFake(a, f, fake && SocketOpen(s, f)));
  }

  /** s after a rewrite of which the given sends left. */
  function AfterRewrite(s: State, f: Family, fake: bool, first: bool, second: bool): State {
    AfterSends(s, f, Count(fake) + (Count(first) + Count(second))).(
      stats := FakedStats(s.stats, fake).(split := s.stats.split + Count(first && second)),
      drops := s.drops + Count(first && second))
  }

  lemma RewriteAddsUp(s: State, f: Family, fake: bool, first: bool, second: bool)
    requires s.receiver.Polling?
    ensures AfterSplit(AfterHalves(Faked(s, f, fake), f, first, second), first && second)
         == AfterRewrite(s, f, fake, first, second)
  {
    SendsAddUp(s, f, Count(fake), Count(first) + Count(second), Cutting(f), FakedStats(s.stats, fake));
  }

  lemma RewriteLeads(s: State, f: Family, fake: bool, first: bool, second: bool)
    requires s.receiver.Polling?
    ensures var up := SocketOpen(s, f);
      Leads(s, AfterRewrite(s, f, fake && up, first && up, second && up))
  {
    var up := SocketOpen(s, f);
    var m := Faked(s, f, fake && up);
    FakedLeads(s, f, fake);
    HalvedLeads(m, f, first, second);
    RewriteAddsUp(s, f, fake && up, first && up, second && up);
    Compose(s, m, AfterSplit(AfterHalves(m, f, first && up, second && up), first && second && up));
  }

  /** Which sends leave decides the whole effect of a rewrite. */
  lemma RewriteIsEffect(s: State, f: Family, r: Tcp.Result, fake: bool, first: bool, second: bool)
    requires |r.fakes| == Count(fake) && |r.reals| == Count(first) + Count(second)
    requires r.verdict.Drop? <==> first && second
    ensures AfterRewrite(s, f, fake, first, second) == AfterCallback(s, f, Callback.OfTcp(r))
  {
    assert s.workers + [] == s.workers;
  }

  lemma SendCounts(cfg: Settings, p: Packet, up: bool, env: Tcp.TcpEnv)
    requires Tcp.Cut(cfg, p).Some?
    ensures var r, c, f := Tcp.Handled(cfg, p, up, env), Tcp.Cut(cfg, p).value, p.src.family;
            var fake := Tcp.Leaves(up, f, |p.payload|, env.fake);
            var first := Tcp.Leaves(up, f, c, env.first);
            var second := Tcp.Leaves(up, f, |p.payload| - c, env.second);
      && |r.fakes| == Count(fake) && |r.reals| == Count(first) + Count(second)
      && (r.verdict.Drop? <==> first && second)
  {}

  lemma TcpIsSteps(s: State, cfg: Settings, p: Packet, env: CbEnv)
    requires s.receiver.Polling? && KindOf(p).ForTcp?
    ensures Leads(s, AfterCallback(s, p.src.family, EffectOn(cfg, ReachIn(s), p, env)))
  {
    var f, up := p.src.family, SocketOpen(s, p.src.family);
    var r := Tcp.Handled(cfg, p, up, env.tcp);
    TcpEffect(cfg, ReachIn(s), p, env, s.stats);
    if Tcp.Cut(cfg, p).None? {
      PassIsNothing(s, f);
    } else {
      var c := Tcp.Cut(cfg, p).value;
      var fake := Tcp.Leaves(true, f, |p.payload|, env.tcp.fake);
      var first := Tcp.Leaves(true, f, c, env.tcp.first);
      var second := Tcp.Leaves(true, f, |p.payload| - c, env.tcp.second);
      SendCounts(cfg, p, up, env.tcp);
      RewriteIsEffect(s, f, r, fake && up, first && up, second && up);
      RewriteLeads(s, f, fake, first, second);
    }
  }

  lemma DispatchIsSteps(s: State, cfg: Settings, p: Packet, env: CbEnv)
    requires s.receiver.Polling?
    ensures Leads(s, AfterCallback(s, p.src.family, EffectOn(cfg, ReachIn(s), p, env)))
  {
    var x := EffectOn(cfg, ReachIn(s), p, env);
    if KindOf(p).ForTcp? {
      TcpIsSteps(s, cfg, p, env);
    } else {
      OtherEffects(cfg, ReachIn(s), p, env);
      if x.job {
        JobIsWorker(s, p.src.family);
      } else if x.quic {
        QuicIsDropped(s, p.src.family);
      } else {
        PassIsNothing(s, p.src.family);
      }
    }
  }

  lemma OtherEffects(cfg: Settings, up: Reach, p: Packet, env: CbEnv)
    requires !KindOf(p).ForTcp?
    ensures var x := EffectOn(cfg, up, p, env);
      x == if x.job then Effect(Drop, [], [], true, false)
           else if x.quic then Effect(Drop, [], [], false, true)
           else NOTHING
    ensures EffectOn(cfg, up, p, env).job && p.src.family.Inet6? ==> up.v6
  {}

  /** The family a packet counts for; one that does not parse sends nothing. */
  function FamilyIn(data: seq<byte>): Family {
    if Parse(data).Some? then Parse(data).value.src.family else Inet
  }

  /** s after a callback on the given octets; without any the kernel's packet just passes. */
  function AfterData(s: State, cfg: Settings, data: seq<byte>, env: CbEnv): State {
    if data == [] then s else AfterCallback(s, FamilyIn(data), EffectOfData(cfg, ReachIn(s), data, env))
  }

  /**
   * Every callback is a run of the receive thread's steps, from polling to polling, with the
   * same verdict, injections, job and statistics, whatever the packet, settings and outcomes.
   */
  lemma CallbackIsSteps(s: State, cfg: Settings, data: seq<byte>, env: CbEnv) returns (sts: seq<Action>)
    requires s.receiver.Polling?
    ensures ReceiverOnly(sts) && Exec(s, sts) == AfterData(s, cfg, data, env)
  {
    if data == [] {
      sts := [];
    } else {
      DataLeads(s, cfg, data, env);
      sts := LeadsIsRun(s, AfterData(s, cfg, data, env));
    }
  }

  lemma DataLeads(s: State, cfg: Settings, data: seq<byte>, env: CbEnv)
    requires s.receiver.Polling? && data != []
    ensures Leads(s, AfterData(s, cfg, data, env))
  {
    if Parse(data).Some? {
      DispatchIsSteps(s, cfg, Parse(data).value, env);
    } else {
      PassIsNothing(s, Inet);
    }
  }

  // ---- the worker ----

  /** What worker i's steps leave when it delivered an answer, or gave up. */
  function AfterWorker(s: State, i: nat, delivered: bool): State
    requires i < |s.workers| && s.workers[i].Asking?
  {
    if delivered then
      AfterSends(s, s.workers[i].f, 1).(workers := Without(s.workers, i), stats := s.stats.(dns := s.stats.dns + 1))
    else s.(workers := Without(s.workers, i), failed := s.failed + 1)
  }

  /** Worker i has injected its answer and not yet counted it. */
  function Answered(s: State, i: nat): State
    requires i < |s.workers| && s.workers[i].Asking?
  {
    AfterSends(s, s.workers[i].f, 1).(workers := s.workers[i := Injected])
  }

  lemma AnswerStep(s: State, i: nat)
    requires i < |s.workers| && s.workers[i].Asking? && SocketOpen(s, s.workers[i].f)
    ensures Next(s, Working(Answer(i, true))) == Answered(s, i)
  {
    InjectIsSend(s, s.workers[i].f, true);
  }

  lemma CountStep(s: State, i: nat)
    requires i < |s.workers| && s.workers[i].Asking?
    ensures Next(Answered(s, i), Working(NoteDns(i))) == AfterWorker(s, i, true)
  {
    assert Without(s.workers[i := Injected], i) == Without(s.workers, i);
  }

  lemma DeliverySteps(s: State, i: nat)
    requires i < |s.workers| && s.workers[i].Asking? && SocketOpen(s, s.workers[i].f)
    ensures Exec(s, [Working(Answer(i, true)), Working(NoteDns(i))]) == AfterWorker(s, i, true)
  {
    AnswerStep(s, i);
    CountStep(s, i);
    ExecTwo(s, Working(Answer(i, true)), Working(NoteDns(i)));
  }

  lemma GivingUpSteps(s: State, i: nat)
    requires i < |s.workers| && s.workers[i].Asking?
    ensures Exec(s, [Working(GiveUp(i))]) == AfterWorker(s, i, false)
  {
    ExecStep(s, [], Working(GiveUp(i)));
    assert [] + [Working(GiveUp(i))] == [Working(GiveUp(i))];
  }

  function WorkerSteps(i: nat, delivered: bool): seq<Action> {
    if delivered then [Working(Answer(i, true)), Working(NoteDns(i))] else [Working(GiveUp(i))]
  }

  /** A worker on a query of its family, likewise, counting exactly when an answer is delivered. */
  lemma WorkerIsSteps(s: State, i: nat, fallback: string, w: D.WorkerEnv)
    requires i < |s.workers| && s.workers[i].Asking?
    ensures var f := s.workers[i].f;
            var delivered := D.Delivered(f, fallback, SocketOpen(s, f), w).Some?;
      Exec(s, WorkerSteps(i, delivered)) == AfterWorker(s, i, delivered)
  {
    if D.Delivered(s.workers[i].f, fallback, SocketOpen(s, s.workers[i].f), w).Some? {
      DeliverySteps(s, i);
    } else {
      GivingUpSteps(s, i);
    }
  }

  // ---- start and stop ----

  /** The outcomes of a start as the interleaving model sees them. */
  function OutcomesOf(ipv6: bool, o: E.StartEnv): StartOutcomes {
    StartOutcomes(o.sockets.sock4 && o.sockets.hdr4, o.sockets.sock6 && o.sockets.hdr6,
             I.Applies(ipv6, o.rules), o.open, o.queue, o.mode, o.thread)
  }

  /** A state and an engine between calls agree on the chains, the setting, whether it is started and its sockets. */
  ghost predicate Matches(s: State, v: E.View) {
    && s.chains == v.held.chains && s.ipv6 == v.ipv6
    && (s.control.Idle? <==> v.life.Stopped?) && (s.control.Active? <==> v.life.Started?)
    && (match v.life
        case Stopped => !s.open4 && !s.open6
        case Started(own) => s.open4 == E.Provides(own, Inet) && s.open6 == E.Provides(own, Inet6))
  }

  /** A start of the engine object, from any state of any run that matches it. */
  lemma StartIsSteps(chains: Chains, ipv6: bool, sts: seq<Action>, v: E.View, o: E.StartEnv, w: E.View)
    requires Exec(Initial(chains, ipv6), sts).control.Idle? && Matches(Exec(Initial(chains, ipv6), sts), v)
    requires E.Transition(v, E.StartCall(o), w)
    ensures Matches(Exec(Exec(Initial(chains, ipv6), sts), StartCalls(OutcomesOf(v.ipv6, o))), w)
  {
    StartEndsActiveOrIdle(chains, ipv6, sts, OutcomesOf(v.ipv6, o));
    assert E.Starts(v.ipv6, o) <==> FailsAt(OutcomesOf(v.ipv6, o)) == 8;
  }

  /** Every call of a stop, once the receive thread is between packets and no worker is left. */
  const STOP_CALLS: seq<Action> := [Stopping(ClearRunning), Choosing(Exit)] + [Stopping(Join)] + UNWIND

  lemma StopIsSteps(s: State, v: E.View, w: E.View)
    requires s.control.Active? && (s.receiver.Polling? || s.receiver.Exited?) && s.workers == []
    requires Matches(s, v) && E.Transition(v, E.StopCall, w)
    ensures Matches(Exec(s, STOP_CALLS), w)
    ensures var t := Exec(s, STOP_CALLS); !t.open4 && !t.open6 && !t.running && t.receiver.Absent?
  {
    var a := [Stopping(ClearRunning), Choosing(Exit)];
    ExecConcat(s, a + [Stopping(Join)], UNWIND);
    ExecStep(s, a, Stopping(Join));
    JoinEnds(s);
    UnwindEnds(Exec(s, a + [Stopping(Join)]));
  }

  lemma JoinEnds(s: State)
    requires s.control.Active? && (s.receiver.Polling? || s.receiver.Exited?) && s.workers == []
    ensures Next(Exec(s, [Stopping(ClearRunning), Choosing(Exit)]), Stopping(Join))
         == s.(control := Unwinding, receiver := Absent, running := false)
  {
    ExecTwo(s, Stopping(ClearRunning), Choosing(Exit));
  }
}
