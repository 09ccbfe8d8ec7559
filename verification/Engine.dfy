/** The engine object and its lifecycle (queue.c:25-74, queue.c:188-309). */
module Engine {
  import opened Config
  import K = Kernel
  import opened Firewall
  import Iptables
  import opened Net

  /** The outcome of every acquisition bd_engine_start makes. */
  datatype StartEnv = StartEnv(
    sockets: OpenEnv, rules: Iptables.Outcomes,
    open: bool, queue: bool, mode: bool, thread: bool)

  predicate Starts(ipv6: bool, o: StartEnv) {
    o.sockets.sock4 && o.sockets.hdr4 && Iptables.Applies(ipv6, o.rules)
    && o.open && o.queue && o.mode && o.thread
  }

  type Sockets = map<int, K.Socket>

  /** What a start adds to the kernel's state: its sockets, the rules, a handle, a queue, a thread. */
  function Acquired(fp: K.Footprint, own: Sockets, ipv6: bool): K.Footprint {
    K.Footprint(fp.sockets + own, Apply(ipv6, fp.chains), fp.handles + 1, fp.queues + 1, fp.threads + 1)
  }

  /** What a stop takes from it; the rules go by the setting at that time. */
  function Released(fp: K.Footprint, own: Sockets, ipv6: bool): K.Footprint
    requires fp.handles > 0 && fp.queues > 0 && fp.threads > 0
  {
    K.Footprint(fp.sockets - own.Keys, Revert(ipv6, fp.chains), fp.handles - 1, fp.queues - 1, fp.threads - 1)
  }

  // ---- the lifecycle as steps between calls ----

  datatype Life = Stopped | Started(own: Sockets)

  /** What a caller can observe between calls. */
  datatype View = View(held: K.Footprint, ipv6: bool, life: Life)

  datatype Command = StartCall(o: StartEnv) | StopCall | SetIpv6(on: bool)

  /** Some socket of own can inject for family f. */
  ghost predicate Provides(own: Sockets, f: Family) {
    exists fd | fd in own :: own[fd].family == f
  }

  /** A start that wants IPv6 gets its socket exactly when both calls for it go through. */
  predicate Gets6(ipv6: bool, o: StartEnv) {
    ipv6 && o.sockets.sock6 && o.sockets.hdr6
  }

  ghost predicate Transition(v: View, c: Command, w: View) {
    match c
    case SetIpv6(on) => w == v.(ipv6 := on)
    case StartCall(o) =>
      if v.life.Stopped? && Starts(v.ipv6, o) then
        && w.life.Started? && w.life.own.Keys !! v.held.sockets.Keys
        && w.held == Acquired(v.held, w.life.own, v.ipv6) && w.ipv6 == v.ipv6
        && Provides(w.life.own, Inet) && (Provides(w.life.own, Inet6) <==> Gets6(v.ipv6, o))
      else w == v
    case StopCall =>
      if v.life.Started? then
        && v.held.handles > 0 && v.held.queues > 0 && v.held.threads > 0
        && w == View(Released(v.held, v.life.own, v.ipv6), v.ipv6, Stopped)
      else w == v
  }

  /** IPv6 is not switched while the engine runs. */
  predicate Steady(v: View, c: Command) {
    c.SetIpv6? && v.life.Started? ==> c.on == v.ipv6
  }

  ghost predicate IsRun(vs: seq<View>, cs: seq<Command>) {
    |vs| == |cs| + 1 && forall i :: 0 <= i < |cs| ==> Transition(vs[i], cs[i], vs[i + 1])
  }

  /** The engine holds exactly what a start added to base. */
  ghost predicate Agrees(base: K.Footprint, v: View) {
    match v.life
    case Stopped => v.held == base
    case Started(own) => own.Keys !! base.sockets.Keys && v.held == Acquired(base, own, v.ipv6)
  }

  lemma TransitionAgrees(base: K.Footprint, v: View, c: Command, w: View)
    requires Agrees(base, v) && Steady(v, c) && Transition(v, c, w)
    ensures Agrees(base, w)
  {
    UninstallUndoesInstall(base.chains.v4);
    UninstallUndoesInstall(base.chains.v6);
    if v.life.Started? {
      assert (base.sockets + v.life.own) - v.life.own.Keys == base.sockets;
    }
  }

  /**
   * Over every run of starts, stops and setting changes, with any acquisition failing in
   * any start, a stopped engine has left the kernel exactly as it was, firewall included.
   */
  lemma {:induction false} RunAgrees(base: K.Footprint, vs: seq<View>, cs: seq<Command>)
    requires IsRun(vs, cs) && Agrees(base, vs[0])
    requires forall i :: 0 <= i < |cs| ==> Steady(vs[i], cs[i])
    ensures Agrees(base, vs[|cs|])
    decreases |cs|
  {
    if cs != [] {
      var n := |cs| - 1;
      RunAgrees(base, vs[..n + 1], cs[..n]);
      TransitionAgrees(base, vs[n], cs[n], vs[n + 1]);
    }
  }

  /** A start, a switch of IPv6 and a stop restore the kernel exactly under StopRestoresIff's condition. */
  lemma SwitchedRunRestoresIff(vs: seq<View>, o: StartEnv, on: bool)
    requires IsRun(vs, [StartCall(o), SetIpv6(on), StopCall])
    requires vs[0].life.Stopped? && Starts(vs[0].ipv6, o)
    ensures vs[3].life.Stopped?
    ensures vs[3].held == vs[0].held
       <==> vs[0].ipv6 == on || (on && forall r | r in vs[0].held.chains.v6 :: !Ours(r))
  {
    var cs := [StartCall(o), SetIpv6(on), StopCall];
    var base := vs[0].held;
    assert Transition(vs[0], cs[0], vs[1]) && Transition(vs[1], cs[1], vs[2]) && Transition(vs[2], cs[2], vs[3]);
    var own := vs[1].life.own;
    assert (base.sockets + own) - own.Keys == base.sockets;
    StopRestoresIff(vs[0].ipv6, on, base.chains);
  }

  // ---- the object ----

  ghost function Pick(s: Sockets, a: int, b: int): Sockets {
    map f | f in s && (f == a || f == b) :: s[f]
  }

  lemma PickedSockets(s: Sockets, a: int, b: int, base: Sockets)
    requires s - {a, b} == base
    ensures s == base + Pick(s, a, b) && Pick(s, a, b).Keys !! base.Keys
    ensures s - Pick(s, a, b).Keys == base
  {}

  /** A kernel that gained two sockets, the rules, a handle, a queue and a thread has gone through a start. */
  lemma StartIsTransition(v: View, o: StartEnv, now: K.Footprint, fd4: int, fd6: int)
    requires v.life.Stopped? && Starts(v.ipv6, o) && now.sockets - {fd4, fd6} == v.held.sockets
    requires now.chains == Apply(v.ipv6, v.held.chains) && now.handles == v.held.handles + 1
    requires now.queues == v.held.queues + 1 && now.threads == v.held.threads + 1
    requires fd4 in now.sockets && now.sockets[fd4].family.Inet?
    requires if Gets6(v.ipv6, o) then fd6 in now.sockets && now.sockets[fd6].family.Inet6? else fd6 !in now.sockets
    ensures Transition(v, StartCall(o), View(now, v.ipv6, Started(Pick(now.sockets, fd4, fd6))))
  {
    PickedSockets(now.sockets, fd4, fd6, v.held.sockets);
    var own := Pick(now.sockets, fd4, fd6);
    assert fd4 in own && (Gets6(v.ipv6, o) ==> fd6 in own);
  }

  class Engine {
    var cfg: Settings
    var handle: bool
    var queue: bool
    var fd: int
    const inj: Injector
    var threadStarted: bool
    var running: bool
    var rulesApplied: bool
    var stats: Stats

    /** bd_engine_new. */
    constructor (cfg: Settings)
      ensures this.cfg == cfg && Idle() && fresh(inj)
    {
      this.cfg := cfg;
      handle, queue, fd := false, false, -1;
      threadStarted, running, rulesApplied := false, false, false;
      stats := NO_STATS;
      inj := new Injector();
    }

    /** Nothing is held. */
    ghost predicate Idle()
      reads this, inj
    {
      && !running && !threadStarted && !rulesApplied
      && !handle && !queue && fd == -1 && inj.fd4 == inj.fd6 == -1
    }

    /** Everything is held. */
    ghost predicate Active(k: K.Host)
      reads this, inj, k
    {
      && running && threadStarted && rulesApplied
      && handle && queue && fd != -1
      && inj.fd4 >= 0 && inj.fd4 in k.sockets
      && (inj.fd6 == -1 || (inj.fd6 >= 0 && inj.fd6 in k.sockets))
      && k.handles > 0 && k.queues > 0 && k.threads > 0
    }

    ghost predicate Valid(k: K.Host)
      reads this, inj, k
    {
      k.Valid() && (Idle() || Active(k))
    }

    /** The sockets the engine opened. */
    ghost function Own(k: K.Host): Sockets
      reads this, inj, k
    {
      Pick(k.sockets, inj.fd4, inj.fd6)
    }

    ghost function Seen(k: K.Host): View
      reads this, inj, k
    {
      View(k.Held(), cfg.ipv6, if running then Started(Own(k)) else Stopped)
    }

    method NoteSplit()
      modifies this`stats
      ensures stats == old(stats).(split := old(stats).split + 1)
    {
      stats := stats.(split := stats.split + 1);
    }

    method NoteFake()
      modifies this`stats
      ensures stats == old(stats).(fake := old(stats).fake + 1)
    {
      stats := stats.(fake := stats.fake + 1);
    }

    method NoteDns()
      modifies this`stats
      ensures stats == old(stats).(dns := old(stats).dns + 1)
    {
      stats := stats.(dns := stats.dns + 1);
    }

    method NoteQuic()
      modifies this`stats
      ensures stats == old(stats).(quic := old(stats).quic + 1)
    {
      stats := stats.(quic := stats.quic + 1);
    }

    /**
     * bd_engine_start.  It succeeds exactly when every acquisition does; a failure at any
     * of them gives back everything acquired before it, the firewall included.  On a
     * running engine it does nothing.
     */
    method Start(k: K.Host, o: StartEnv) returns (rc: int)
      requires Valid(k)
      modifies this, inj, k
      ensures Valid(k) && cfg == old(cfg) && k.wire == old(k.wire)
      ensures Transition(old(Seen(k)), StartCall(o), Seen(k))
      ensures rc == (if old(running) || Starts(cfg.ipv6, o) then 0 else -1)
      ensures running <==> rc == 0
      ensures stats == if old(running) then old(stats) else NO_STATS
      ensures !old(running) && rc == 0 ==>
        && stats == Stats(0, 0, 0, 0, 0) && (inj.fd6 != -1 <==> cfg.ipv6 && o.sockets.sock6 && o.sockets.hdr6)
        && Marked(k, inj, Inet, if o.sockets.mark4 then FWMARK else 0)
        && (inj.fd6 == -1 || (cfg.ipv6 && Marked(k, inj, Inet6, if o.sockets.mark6 then FWMARK else 0)))
    {
      if running {
        return 0;
      }
      rc := StartStopped(k, o);
      if rc == 0 {
        StartIsTransition(old(Seen(k)), o, k.Held(), inj.fd4, inj.fd6);
      }
    }

    /** bd_engine_start on an engine that is not running. */
    method StartStopped(k: K.Host, o: StartEnv) returns (rc: int)
      requires k.Valid() && Idle()
      modifies this, inj, k
      ensures k.Valid() && cfg == old(cfg) && k.wire == old(k.wire) && stats == NO_STATS
      ensures rc == (if Starts(cfg.ipv6, o) then 0 else -1)
      ensures rc != 0 ==> Idle() && k.Held() == old(k.Held())
      ensures rc == 0 ==>
        && Active(k) && k.sockets - {inj.fd4, inj.fd6} == old(k.sockets)
        && (inj.fd6 != -1 <==> cfg.ipv6 && o.sockets.sock6 && o.sockets.hdr6)
        && k.Held() == K.Footprint(k.sockets, Apply(cfg.ipv6, old(k.chains)),
                                   old(k.handles) + 1, old(k.queues) + 1, old(k.threads) + 1)
        && Marked(k, inj, Inet, if o.sockets.mark4 then FWMARK else 0)
        && (inj.fd6 == -1 || (cfg.ipv6 && Marked(k, inj, Inet6, if o.sockets.mark6 then FWMARK else 0)))
    {
      stats := NO_STATS;
      rc := Equip(k, o);
      if rc != 0 {
        return -1;
      }
      rc := AcquireOrRelease(k, o);
      if rc != 0 {
        RevertUndoesApply(cfg.ipv6, old(k.chains));
      }
    }

    /** The part of bd_engine_start behind the firewall rules, with its failure path. */
    method AcquireOrRelease(k: K.Host, o: StartEnv) returns (rc: int)
      requires k.Valid() && rulesApplied
      requires !handle && !queue && !running && !threadStarted && fd == -1
      modifies this`handle, this`queue, this`fd, this`running, this`threadStarted, this`rulesApplied, inj
      modifies k`sockets, k`chains, k`handles, k`queues, k`threads
      ensures k.Valid() && rc == (if o.open && o.queue && o.mode && o.thread then 0 else -1)
      ensures rc != 0 ==> Idle() && k.Held() == old(k.Held()).(
        sockets := old(k.sockets) - {old(inj.fd4), old(inj.fd6)}, chains := Revert(cfg.ipv6, old(k.chains)))
      ensures rc == 0 ==>
        && running && threadStarted && rulesApplied && handle && queue && fd != -1
        && inj.fd4 == old(inj.fd4) && inj.fd6 == old(inj.fd6)
        && k.Held() == old(k.Held()).(
             handles := old(k.handles) + 1, queues := old(k.queues) + 1, threads := old(k.threads) + 1)
    {
      rc := Acquire(k, o);
      if rc != 0 {
        ReleaseAll(k);
      }
    }

    /** The injection sockets, then the firewall rules. */
    method Equip(k: K.Host, o: StartEnv) returns (rc: int)
      requires k.Valid() && Idle()
      modifies this`rulesApplied, inj, k`sockets, k`nextFd, k`chains
      ensures k.Valid()
      ensures rc == (if o.sockets.sock4 && o.sockets.hdr4 && Iptables.Applies(cfg.ipv6, o.rules) then 0 else -1)
      ensures rc != 0 ==> Idle() && k.sockets == old(k.sockets) && k.chains == old(k.chains)
      ensures rc == 0 ==>
        && rulesApplied && k.chains == Apply(cfg.ipv6, old(k.chains))
        && k.sockets - {inj.fd4, inj.fd6} == old(k.sockets)
        && (inj.fd6 != -1 <==> cfg.ipv6 && o.sockets.sock6 && o.sockets.hdr6)
        && Marked(k, inj, Inet, if o.sockets.mark4 then FWMARK else 0)
        && (inj.fd6 == -1 || (cfg.ipv6 && Marked(k, inj, Inet6, if o.sockets.mark6 then FWMARK else 0)))
    {
      rc := InjectorOpen(k, inj, cfg.ipv6, o.sockets);
      if rc != 0 {
        return -1;
      }
      rc := Iptables.IptablesApply(k, cfg.ipv6, o.rules);
      if rc != 0 {
        InjectorClose(k, inj);
        return -1;
      }
      rulesApplied := true;
    }

    /** What the failure path of bd_engine_start and bd_engine_stop give back, in their order. */
    method ReleaseAll(k: K.Host)
      requires k.Valid() && !running && !threadStarted && rulesApplied
      requires (queue ==> k.queues > 0) && (handle ==> k.handles > 0)
      modifies this`handle, this`queue, this`fd, this`rulesApplied, inj
      modifies k`sockets, k`chains, k`handles, k`queues
      ensures k.Valid() && Idle()
      ensures k.Held() == K.Footprint(
        old(k.sockets) - {old(inj.fd4), old(inj.fd6)}, Revert(cfg.ipv6, old(k.chains)),
        old(k.handles) - (if old(handle) then 1 else 0), old(k.queues) - (if old(queue) then 1 else 0), old(k.threads))
    {
      ReleaseQueue(k);
      if rulesApplied {
        Iptables.IptablesRevert(k, cfg.ipv6);
        rulesApplied := false;
      }
      InjectorClose(k, inj);
      fd := -1;
    }

    /** The queue handle, the queue, its mode and the receive thread, up to the first failure. */
    method Acquire(k: K.Host, o: StartEnv) returns (rc: int)
      requires !handle && !queue && !running && !threadStarted && fd == -1
      modifies this`handle, this`queue, this`fd, this`running, this`threadStarted
      modifies k`handles, k`queues, k`threads
      ensures rc == (if o.open && o.queue && o.mode && o.thread then 0 else -1)
      ensures handle == o.open && queue == (o.open && o.queue)
      ensures k.handles == old(k.handles) + (if handle then 1 else 0)
      ensures k.queues == old(k.queues) + (if queue then 1 else 0)
      ensures k.threads == old(k.threads) + (if rc == 0 then 1 else 0)
      ensures rc == 0 ==> fd != -1
      ensures running == threadStarted == (rc == 0)
    {
      if !o.open {
        return -1;
      }
      k.handles := k.handles + 1;
      handle := true;
      if !o.queue {
        return -1;
      }
      k.queues := k.queues + 1;
      queue := true;
      if !o.mode {
        return -1;
      }
      fd := 0;
      running := true;
      if !o.thread {
        running := false;
        return -1;
      }
      k.threads := k.threads + 1;
      threadStarted := true;
      rc := 0;
    }

    /** nfq_destroy_queue and nfq_close, for whichever is held. */
    method ReleaseQueue(k: K.Host)
      requires (queue ==> k.queues > 0) && (handle ==> k.handles > 0)
      modifies this`handle, this`queue, k`handles, k`queues
      ensures !handle && !queue
      ensures k.queues == old(k.queues) - (if old(queue) then 1 else 0)
      ensures k.handles == old(k.handles) - (if old(handle) then 1 else 0)
    {
      if queue {
        k.queues := k.queues - 1;
        queue := false;
      }
      if handle {
        k.handles := k.handles - 1;
        handle := false;
      }
    }

    /** bd_engine_stop: gives everything back; the rules go by the setting it reads now. */
    method Stop(k: K.Host)
      requires Valid(k)
      modifies this, inj, k
      ensures Valid(k) && Idle() && cfg == old(cfg) && stats == old(stats) && k.wire == old(k.wire)
      ensures Transition(old(Seen(k)), StopCall, Seen(k))
    {
      if !running && !threadStarted {
        return;
      }
      ghost var own := Own(k);
      PickedSockets(k.sockets, inj.fd4, inj.fd6, k.sockets - {inj.fd4, inj.fd6});
      running := false;
      if threadStarted {
        k.threads := k.threads - 1;
        threadStarted := false;
      }
      ReleaseAll(k);
    }

    /** bd_engine_free: a stop, after which the object holds nothing. */
    method Free(k: K.Host)
      requires Valid(k)
      modifies this, inj, k
      ensures Idle() && k.wire == old(k.wire)
      ensures Transition(old(Seen(k)), StopCall, Seen(k))
    {
      Stop(k);
    }
  }
}
