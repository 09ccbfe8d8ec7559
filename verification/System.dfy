/**
 * The running program as interleaved steps of three kinds of threads: the one that calls
 * start and stop, the receive thread, and the DNS workers.  Each step is one call of the
 * source; a step that is not enabled changes nothing, so every sequence of steps is a run.
 *
 * Installing and removing the rules are single steps: no other engine thread exists then.
 */
module System {
  import opened Config
  import opened Firewall

  /** Where the controlling thread is inside bd_engine_start and bd_engine_stop. */
  datatype Control =
    | Idle | Opened | Ruled | HasHandle | HasQueue | Configured | Armed | Launched
    | Active
    | Halting | Unwinding | Released | Unruled

  /** Where the receive thread is inside recv_loop and packet_cb. */
  datatype Reception =
    | Absent | Polling
    | Counted
    | Faking(f: Family) | FakeSent(f: Family) | Cutting(f: Family) | Halved(f: Family, first: bool)
    | BothSent | QuicSeen
    | Decided(v: Verdict)
    | Exited

  /** Where a DNS worker is: still asking, or with its answer injected but not yet counted. */
  datatype Task = Asking(f: Family) | Injected

  /** Drops, jobs started and jobs failed are history; the rest is the program's state. */
  datatype State = State(
    control: Control, receiver: Reception, workers: seq<Task>,
    ipv6: bool, running: bool, open4: bool, open6: bool,
    chains: Chains, base: Chains, started6: bool,
    stats: Stats, drops: nat, jobs: nat, failed: nat,
    injections: seq<bool>)

  // the calls of bd_engine_start and bd_engine_stop, in their order
  datatype StartCall =
    | OpenInjector(ok4: bool, ok6: bool) | ApplyRules(ok: bool)
    | OpenHandle(ok: bool) | CreateQueue(ok: bool) | SetMode(ok: bool)
    | SetRunning | CreateThread(ok: bool) | NoteStarted

  datatype StopCall = ClearRunning | Join | ReleaseQueue | RevertRules | CloseInjector

  // the receive thread: taking a packet and choosing its technique, sending, counting
  datatype Choice = Take | HandOver(f: Family) | LetPass | DropQuic | StartWorker(f: Family, ok: bool) | Exit

  datatype Send = SendFake(ok: bool) | SendFirst(ok: bool) | SendSecond(ok: bool)

  datatype Note = NoteFake | NoteSplit | NoteQuic | SetVerdict

  // worker i
  datatype Work = Answer(i: nat, ok: bool) | NoteDns(i: nat) | GiveUp(i: nat)

  datatype Action =
    | SetIpv6(on: bool)
    | Starting(start: StartCall) | Stopping(stop: StopCall)
    | Choosing(choice: Choice) | Sending(send: Send) | Noting(note: Note)
    | Working(work: Work)

  /** The mark-skip rule is the first rule of family f's chain. */
  predicate Protected(s: State, f: Family) {
    s.chains.Get(f) != [] && s.chains.Get(f)[0] == MARK_RULE
  }

  predicate SocketOpen(s: State, f: Family) {
    if f.Inet? then s.open4 else s.open6
  }

  /** A raw send over family f: it can only succeed on an open socket, and is then recorded. */
  function Inject(s: State, f: Family, ok: bool): State {
    if ok && SocketOpen(s, f) then s.(injections := s.injections + [Protected(s, f)]) else s
  }

  // ---- the controlling thread ----

  function StartStep(s: State, c: StartCall): State {
    match c
    case OpenInjector(ok4, ok6) =>
      if !s.control.Idle? || s.running then s
      else
        var t := s.(stats := NO_STATS, drops := 0, jobs := 0, failed := 0);
        if ok4 then t.(control := Opened, open4 := true, open6 := s.ipv6 && ok6) else t
    case ApplyRules(ok) =>
      if !s.control.Opened? then s
      else if ok then s.(control := Ruled, base := s.chains, chains := Apply(s.ipv6, s.chains), started6 := s.ipv6)
      else s.(control := Idle, open4 := false, open6 := false)
    case OpenHandle(ok) =>
      if s.control.Ruled? then s.(control := if ok then HasHandle else Unwinding) else s
    case CreateQueue(ok) =>
      if s.control.HasHandle? then s.(control := if ok then HasQueue else Unwinding) else s
    case SetMode(ok) =>
      if s.control.HasQueue? then s.(control := if ok then Configured else Unwinding) else s
    case SetRunning =>
      if s.control.Configured? then s.(control := Armed, running := true) else s
    case CreateThread(ok) =>
      if !s.control.Armed? then s
      else if ok then s.(control := Launched, receiver := Polling)
      else s.(control := Unwinding, running := false)
    case NoteStarted =>
      if s.control.Launched? then s.(control := Active) else s
  }

  function StopStep(s: State, c: StopCall): State {
    match c
    case ClearRunning =>
      if s.control.Active? then s.(control := Halting, running := false) else s
    case Join =>
      // pthread_join waits for the receive thread; workers are taken to have finished
      if s.control.Halting? && s.receiver.Exited? && s.workers == []
      then s.(control := Unwinding, receiver := Absent) else s
    case ReleaseQueue =>
      if s.control.Unwinding? then s.(control := Released) else s
    case RevertRules =>
      if s.control.Released? then s.(control := Unruled, chains := Revert(s.ipv6, s.chains)) else s
    case CloseInjector =>
      if s.control.Unruled? then s.(control := Idle, open4 := false, open6 := false) else s
  }

  // ---- the receive thread ----

  function ChoiceStep(s: State, c: Choice): State {
    match c
    case Take =>
      if s.receiver.Polling? then s.(receiver := Counted, stats := s.stats.(seen := s.stats.seen + 1)) else s
    case HandOver(f) =>
      if s.receiver.Counted? then s.(receiver := Faking(f)) else s
    case LetPass =>
      if s.receiver.Counted? then s.(receiver := Decided(Accept)) else s
    case DropQuic =>
      if s.receiver.Counted? then s.(receiver := QuicSeen) else s
    case StartWorker(f, ok) =>
      if !s.receiver.Counted? then s
      else if ok && (f.Inet6? ==> s.open6)
      then s.(receiver := Decided(Drop), workers := s.workers + [Asking(f)], jobs := s.jobs + 1)
      else s.(receiver := Decided(Accept))
    case Exit =>
      // the flag was seen cleared, or poll or recv failed
      if s.receiver.Polling? then s.(receiver := Exited) else s
  }

  function SendStep(s: State, c: Send): State {
    match c
    case SendFake(ok) =>
      if !s.receiver.Faking? then s
      else
        var f := s.receiver.f;
        Inject(s, f, ok).(receiver := if ok && SocketOpen(s, f) then FakeSent(f) else Cutting(f))
    case SendFirst(ok) =>
      if !s.receiver.Cutting? then s
      else
        var f := s.receiver.f;
        Inject(s, f, ok).(receiver := Halved(f, ok && SocketOpen(s, f)))
    case SendSecond(ok) =>
      if !s.receiver.Halved? then s
      else
        var f := s.receiver.f;
        Inject(s, f, ok).(receiver := if s.receiver.first && ok && SocketOpen(s, f) then BothSent else Decided(Accept))
  }

  function NoteStep(s: State, c: Note): State {
    match c
    case NoteFake =>
      if s.receiver.FakeSent?
      then s.(receiver := Cutting(s.receiver.f), stats := s.stats.(fake := s.stats.fake + 1)) else s
    case NoteSplit =>
      if s.receiver.BothSent?
      then s.(receiver := Decided(Drop), stats := s.stats.(split := s.stats.split + 1)) else s
    case NoteQuic =>
      if s.receiver.QuicSeen?
      then s.(receiver := Decided(Drop), stats := s.stats.(quic := s.stats.quic + 1)) else s
    case SetVerdict =>
      if s.receiver.Decided?
      then s.(receiver := Polling, drops := s.drops + (if s.receiver.v.Drop? then 1 else 0)) else s
  }

  // ---- the workers ----

  function Without(ws: seq<Task>, i: nat): seq<Task>
    requires i < |ws|
  {
    ws[..i] + ws[i + 1..]
  }

  function WorkStep(s: State, c: Work): State {
    match c
    case Answer(i, ok) =>
      if i < |s.workers| && s.workers[i].Asking? && ok && SocketOpen(s, s.workers[i].f)
      then Inject(s, s.workers[i].f, ok).(workers := s.workers[i := Injected]) else s
    case NoteDns(i) =>
      if i < |s.workers| && s.workers[i].Injected?
      then s.(workers := Without(s.workers, i), stats := s.stats.(dns := s.stats.dns + 1)) else s
    case GiveUp(i) =>
      if i < |s.workers| && s.workers[i].Asking?
      then s.(workers := Without(s.workers, i), failed := s.failed + 1) else s
  }

  function Next(s: State, st: Action): State {
    match st
    case SetIpv6(on) =>
      // the user interface calls start and stop itself, so never inside them
      if s.control.Idle? || s.control.Active? then s.(ipv6 := on) else s
    case Starting(c) => StartStep(s, c)
    case Stopping(c) => StopStep(s, c)
    case Choosing(c) => ChoiceStep(s, c)
    case Sending(c) => SendStep(s, c)
    case Noting(c) => NoteStep(s, c)
    case Working(c) => WorkStep(s, c)
  }

  function Exec(s: State, sts: seq<Action>): State {
    if sts == [] then s else Next(Exec(s, sts[..|sts| - 1]), sts[|sts| - 1])
  }

  function Initial(chains: Chains, ipv6: bool): State {
    State(Idle, Absent, [], ipv6, false, false, false, chains, chains, false, NO_STATS, 0, 0, 0, [])
  }

  lemma {:induction false} ExecConcat(s: State, a: seq<Action>, b: seq<Action>)
    ensures Exec(s, a + b) == Exec(Exec(s, a), b)
    decreases |b|
  {
    if b == [] {
      assert a + b == a;
    } else {
      var n := |b| - 1;
      assert (a + b)[..|a + b| - 1] == a + b[..n];
      ExecConcat(s, a, b[..n]);
    }
  }

  lemma ExecPrefix(s: State, sts: seq<Action>, n: nat)
    requires n < |sts|
    ensures Exec(s, sts[..n + 1]) == Next(Exec(s, sts[..n]), sts[n])
  {
    assert sts[..n + 1][..n] == sts[..n];
  }

  lemma ExecStep(s: State, sts: seq<Action>, a: Action)
    ensures Exec(s, sts + [a]) == Next(Exec(s, sts), a)
  {
    assert (sts + [a])[..|sts|] == sts;
  }

  lemma ExecTwo(s: State, a: Action, b: Action)
    ensures Exec(s, [a, b]) == Next(Next(s, a), b)
  {
    var sts := [a, b];
    ExecPrefix(s, sts, 0);
    ExecPrefix(s, sts, 1);
    assert sts[..2] == sts && sts[..0] == [];
  }

  // ---- invariants ----

  /** The engine's other threads may exist. */
  predicate MayRun(c: Control) {
    c.Launched? || c.Active? || c.Halting?
  }

  predicate RulesIn(c: Control) {
    !c.Idle? && !c.Opened? && !c.Unruled?
  }

  predicate Structure(s: State) {
    && (!MayRun(s.control) ==> s.receiver.Absent? && s.workers == [])
    && (s.running <==> s.control.Armed? || s.control.Launched? || s.control.Active?)
    && (s.control.Idle? ==> !s.open4 && !s.open6)
    && (RulesIn(s.control) ==> s.chains == Apply(s.started6, s.base) && s.open4 && (s.open6 ==> s.started6))
    && (s.control.Opened? ==> s.open4 && (s.open6 ==> s.ipv6))
  }

  predicate AllProtected(s: State) {
    forall i :: 0 <= i < |s.injections| ==> s.injections[i]
  }

  function Dropping(r: Reception): nat {
    if r == Decided(Drop) then 1 else 0
  }

  /** The packet in hand has been counted and not yet decided. */
  function Undecided(r: Reception): nat {
    if r.Absent? || r.Polling? || r.Exited? || r.Decided? then 0 else 1
  }

  /** No fake has been counted for the packet in hand, and one still may be. */
  function Unfaked(r: Reception): nat {
    if r.Counted? || r.Faking? || r.FakeSent? then 1 else 0
  }

  predicate Conserved(s: State) {
    && s.drops + Dropping(s.receiver) == s.stats.split + s.stats.quic + s.jobs
    && s.jobs == s.stats.dns + s.failed + |s.workers|
    && s.stats.split + s.stats.quic + s.jobs + Undecided(s.receiver) <= s.stats.seen
    && s.stats.fake + Unfaked(s.receiver) <= s.stats.seen
  }

  predicate Inv(s: State) {
    Structure(s) && AllProtected(s) && Conserved(s)
  }

  /** While engine threads exist, an open socket's family has the mark-skip rule on top. */
  lemma OpenIsProtected(s: State, f: Family)
    requires Structure(s) && MayRun(s.control) && SocketOpen(s, f)
    ensures Protected(s, f)
  {}

  /** A send that leaves the packet undecided, or decided to pass, keeps every invariant. */
  lemma SendKeeps(s: State, f: Family, ok: bool, r: Reception)
    requires Inv(s) && MayRun(s.control)
    requires Dropping(r) == Dropping(s.receiver)
    requires Undecided(r) <= Undecided(s.receiver) && Unfaked(r) <= Unfaked(s.receiver)
    ensures Inv(Inject(s, f, ok).(receiver := r))
  {
    if ok && SocketOpen(s, f) {
      OpenIsProtected(s, f);
    }
  }

  lemma StartKeeps(s: State, c: StartCall)
    requires Inv(s)
    ensures Inv(StartStep(s, c))
  {
    match c
    case OpenInjector(ok4, ok6) => EquippingKeeps(s, c);
    case ApplyRules(ok) => EquippingKeeps(s, c);
    case CreateThread(ok) => LaunchKeeps(s, ok);
    case _ => AcquiringKeeps(s, c);
  }

  lemma LaunchKeeps(s: State, ok: bool)
    requires Inv(s)
    ensures Inv(StartStep(s, CreateThread(ok)))
  {}

  lemma EquippingKeeps(s: State, c: StartCall)
    requires Inv(s) && (c.OpenInjector? || c.ApplyRules?)
    ensures Inv(StartStep(s, c))
  {}

  lemma AcquiringKeeps(s: State, c: StartCall)
    requires Inv(s) && !c.OpenInjector? && !c.ApplyRules? && !c.CreateThread?
    ensures Inv(StartStep(s, c))
  {}

  lemma StopKeeps(s: State, c: StopCall)
    requires Inv(s)
    ensures Inv(StopStep(s, c))
  {}

  lemma ChoiceKeeps(s: State, c: Choice)
    requires Inv(s)
    ensures Inv(ChoiceStep(s, c))
  {
    if c.StartWorker? {
      WorkerKeeps(s, c);
    }
  }

  lemma WorkerKeeps(s: State, c: Choice)
    requires Inv(s) && c.StartWorker?
    ensures Inv(ChoiceStep(s, c))
  {
    if s.receiver.Counted? {
      StartedWorkerKeeps(s, c.f);
      AcceptingKeeps(s);
    }
  }

  lemma StartedWorkerKeeps(s: State, f: Family)
    requires Inv(s) && s.receiver.Counted?
    ensures Inv(s.(receiver := Decided(Drop), workers := s.workers + [Asking(f)], jobs := s.jobs + 1))
  {}

  lemma AcceptingKeeps(s: State)
    requires Inv(s) && s.receiver.Counted?
    ensures Inv(s.(receiver := Decided(Accept)))
  {}

  lemma SendStepKeeps(s: State, c: Send)
    requires Inv(s)
    ensures Inv(SendStep(s, c))
  {
    match c
    case SendFake(ok) =>
      if s.receiver.Faking? {
        var f := s.receiver.f;
        SendKeeps(s, f, ok, if ok && SocketOpen(s, f) then FakeSent(f) else Cutting(f));
      }
    case SendFirst(ok) =>
      if s.receiver.Cutting? {
        var f := s.receiver.f;
        SendKeeps(s, f, ok, Halved(f, ok && SocketOpen(s, f)));
      }
    case SendSecond(ok) =>
      if s.receiver.Halved? {
        var f := s.receiver.f;
        SendKeeps(s, f, ok, if s.receiver.first && ok && SocketOpen(s, f) then BothSent else Decided(Accept));
      }
  }

  lemma NoteKeeps(s: State, c: Note)
    requires Inv(s)
    ensures Inv(NoteStep(s, c))
  {}

  lemma WorkKeeps(s: State, c: Work)
    requires Inv(s)
    ensures Inv(WorkStep(s, c))
  {
    match c
    case Answer(i, ok) =>
      if i < |s.workers| && s.workers[i].Asking? && SocketOpen(s, s.workers[i].f) {
        OpenIsProtected(s, s.workers[i].f);
      }
    case _ =>
  }

  lemma {:induction false} NextKeeps(s: State, st: Action)
    requires Inv(s)
    ensures Inv(Next(s, st))
  {
    match st
    case SetIpv6(on) =>
    case Starting(c) => StartKeeps(s, c);
    case Stopping(c) => StopKeeps(s, c);
    case Choosing(c) => ChoiceKeeps(s, c);
    case Sending(c) => SendStepKeeps(s, c);
    case Noting(c) => NoteKeeps(s, c);
    case Working(c) => WorkKeeps(s, c);
  }

  lemma {:induction false} ExecKeeps(s: State, sts: seq<Action>)
    requires Inv(s)
    ensures Inv(Exec(s, sts))
    decreases |sts|
  {
    if sts != [] {
      ExecKeeps(s, sts[..|sts| - 1]);
      NextKeeps(Exec(s, sts[..|sts| - 1]), sts[|sts| - 1]);
    }
  }

  // ---- what holds of every run ----

  /** In every interleaving, every injection happened under its family's mark-skip rule. */
  lemma {:induction false} InjectionOnlyUnderProtection(chains: Chains, ipv6: bool, sts: seq<Action>)
    ensures AllProtected(Exec(Initial(chains, ipv6), sts))
  {
    ExecKeeps(Initial(chains, ipv6), sts);
  }

  /**
   * Statistics of the current or last run, in every interleaving: outside a callback the
   * drops are the splits, QUIC drops and DNS jobs; jobs are forwarded, failed or pending;
   * and no more packets were handled, or faked, than seen.
   */
  lemma {:induction false} StatisticsConserved(chains: Chains, ipv6: bool, sts: seq<Action>)
    ensures var s := Exec(Initial(chains, ipv6), sts);
      && (s.receiver.Polling? || s.receiver.Exited? || s.receiver.Absent? ==>
            s.drops == s.stats.split + s.stats.quic + s.jobs)
      && s.jobs == s.stats.dns + s.failed + |s.workers|
      && s.stats.split + s.stats.quic + s.stats.dns <= s.stats.seen
      && s.stats.fake <= s.stats.seen
  {
    ExecKeeps(Initial(chains, ipv6), sts);
  }

  /**
   * Whatever the threads did, the step that removes the rules puts both chains back as they
   * were before they were installed exactly under the condition of StopRestoresIff.
   */
  lemma {:induction false} RevertRestoresIff(chains: Chains, ipv6: bool, sts: seq<Action>)
    ensures var s := Exec(Initial(chains, ipv6), sts);
      s.control.Released? ==>
        (Next(s, Stopping(RevertRules)).chains == s.base
         <==> s.started6 == s.ipv6 || (s.ipv6 && forall r | r in s.base.v6 :: !Ours(r)))
  {
    var s := Exec(Initial(chains, ipv6), sts);
    ExecKeeps(Initial(chains, ipv6), sts);
    StopRestoresIff(s.started6, s.ipv6, s.base);
  }

  // ---- start and stop as sequences of steps ----

  const UNWIND: seq<Action> := [Stopping(ReleaseQueue), Stopping(RevertRules), Stopping(CloseInjector)]

  /**
   * Wherever any run is being unwound, after a failed start or a stop, the three remaining
   * calls leave the engine idle, with no socket, receive thread or worker, and the chains as
   * they were before the start exactly under the condition of StopRestoresIff.
   */
  lemma {:induction false} UnwindingRestoresIff(chains: Chains, ipv6: bool, sts: seq<Action>)
    requires Exec(Initial(chains, ipv6), sts).control.Unwinding?
    ensures var s := Exec(Initial(chains, ipv6), sts);
            var t := Exec(s, UNWIND);
      && t.control.Idle? && !t.open4 && !t.open6 && !t.running && t.receiver.Absent? && t.workers == []
      && t.stats == s.stats && t.injections == s.injections
      && (t.chains == s.base <==> s.started6 == s.ipv6 || (s.ipv6 && forall r | r in s.base.v6 :: !Ours(r)))
  {
    var s := Exec(Initial(chains, ipv6), sts);
    ExecKeeps(Initial(chains, ipv6), sts);
    StopRestoresIff(s.started6, s.ipv6, s.base);
    UnwindEnds(s);
  }

  lemma UnwindEnds(s: State)
    requires s.control.Unwinding?
    ensures Exec(s, UNWIND) == s.(control := Idle, chains := Revert(s.ipv6, s.chains), open4 := false, open6 := false)
  {
    ExecPrefix(s, UNWIND, 0);
    ExecPrefix(s, UNWIND, 1);
    ExecPrefix(s, UNWIND, 2);
    assert UNWIND[..3] == UNWIND && UNWIND[..0] == [];
  }

  /** The outcomes of a start: the injection sockets, the rules, the handle, the queue, its mode, the thread. */
  datatype StartOutcomes = StartOutcomes(
    inj4: bool, inj6: bool, rules: bool, handle: bool, queue: bool, mode: bool, thread: bool)

  /** Every call a start may make, the failure path last; those that are skipped are not enabled. */
  function StartCalls(o: StartOutcomes): seq<Action> {
    [Starting(OpenInjector(o.inj4, o.inj6)), Starting(ApplyRules(o.rules)), Starting(OpenHandle(o.handle)),
     Starting(CreateQueue(o.queue)), Starting(SetMode(o.mode)), Starting(SetRunning),
     Starting(CreateThread(o.thread)), Starting(NoteStarted),
     Stopping(ReleaseQueue), Stopping(RevertRules), Stopping(CloseInjector)]
  }

  /** Which of the calls fails first; 8 if none does. */
  function FailsAt(o: StartOutcomes): nat {
    if !o.inj4 then 0 else if !o.rules then 1 else if !o.handle then 2 else if !o.queue then 3
    else if !o.mode then 4 else if !o.thread then 6 else 8
  }

  const STANDS: seq<Control> := [Idle, Opened, Ruled, HasHandle, HasQueue, Configured, Armed, Launched, Active]

  /** n successful calls into a start from s. */
  predicate StartedUpTo(t: State, s: State, o: StartOutcomes, n: nat)
    requires n <= 8
  {
    && t.control == STANDS[n] && t.ipv6 == s.ipv6 && t.workers == []
    && t.chains == (if n >= 2 then Apply(s.ipv6, s.chains) else s.chains)
    && t.open4 == (n >= 1) && t.open6 == (n >= 1 && s.ipv6 && o.inj6)
    && t.running == (n >= 6) && t.receiver == (if n >= 7 then Polling else Absent)
    && (n >= 1 ==> t.stats == NO_STATS)
  }

  /** k calls into the failure path of a start from s. */
  predicate Unwound(t: State, s: State, k: nat) {
    && t.ipv6 == s.ipv6 && t.receiver.Absent? && t.workers == [] && !t.running && t.stats == NO_STATS
    && (match t.control
        case Idle => t.chains == s.chains && !t.open4 && !t.open6
        case Unwinding => k == 0 && t.chains == Apply(s.ipv6, s.chains)
        case Released => k == 1 && t.chains == Apply(s.ipv6, s.chains)
        case Unruled => k == 2 && t.chains == s.chains
        case _ => false)
  }

  /** n calls into a start from s. */
  predicate Stage(t: State, s: State, o: StartOutcomes, n: nat) {
    if FailsAt(o) == 8 || n <= FailsAt(o) then StartedUpTo(t, s, o, if n < 8 then n else 8)
    else Unwound(t, s, if n < 8 then 0 else n - 8)
  }

  lemma EquippingCall(t: State, s: State, o: StartOutcomes)
    ensures StartedUpTo(t, s, o, 0) && o.inj4 ==> StartedUpTo(StartStep(t, OpenInjector(o.inj4, o.inj6)), s, o, 1)
    ensures StartedUpTo(t, s, o, 1) ==> StartedUpTo(StartStep(t, ApplyRules(true)), s, o, 2)
  {}

  lemma AcquiringCall(t: State, s: State, o: StartOutcomes)
    ensures StartedUpTo(t, s, o, 2) ==> StartedUpTo(StartStep(t, OpenHandle(true)), s, o, 3)
    ensures StartedUpTo(t, s, o, 3) ==> StartedUpTo(StartStep(t, CreateQueue(true)), s, o, 4)
    ensures StartedUpTo(t, s, o, 4) ==> StartedUpTo(StartStep(t, SetMode(true)), s, o, 5)
  {}

  lemma LaunchingCall(t: State, s: State, o: StartOutcomes)
    ensures StartedUpTo(t, s, o, 5) ==> StartedUpTo(StartStep(t, SetRunning), s, o, 6)
    ensures StartedUpTo(t, s, o, 6) ==> StartedUpTo(StartStep(t, CreateThread(true)), s, o, 7)
    ensures StartedUpTo(t, s, o, 7) ==> StartedUpTo(StartStep(t, NoteStarted), s, o, 8)
  {}

  lemma SucceedingCall(t: State, s: State, o: StartOutcomes, n: nat)
    requires n < 8 && StartedUpTo(t, s, o, n) && (FailsAt(o) == 8 || n < FailsAt(o))
    ensures StartedUpTo(StartStep(t, StartCalls(o)[n].start), s, o, n + 1)
  {
    if n < 2 {
      EquippingCall(t, s, o);
    } else if n < 5 {
      AcquiringCall(t, s, o);
    } else {
      LaunchingCall(t, s, o);
    }
  }

  lemma FailingCall(t: State, s: State, o: StartOutcomes, n: nat)
    requires n == FailsAt(o) < 8 && StartedUpTo(t, s, o, n)
    ensures Unwound(StartStep(t, StartCalls(o)[n].start), s, 0)
  {}

  /** The starting calls behind a failure are skipped. */
  lemma SkippedCall(t: State, s: State, c: StartCall)
    requires Unwound(t, s, 0) && !c.OpenInjector?
    ensures Unwound(StartStep(t, c), s, 0)
  {}

  lemma UnwindingCall(t: State, s: State, k: nat)
    requires k < 3 && Unwound(t, s, k)
    ensures Unwound(Next(t, UNWIND[k]), s, k + 1)
  {
    RevertUndoesApply(s.ipv6, s.chains);
  }

  lemma {:induction false} StageHolds(s: State, o: StartOutcomes, n: nat)
    requires StartedUpTo(s, s, o, 0) && n <= 11
    ensures Stage(Exec(s, StartCalls(o)[..n]), s, o, n)
  {
    if n == 0 {
      assert StartCalls(o)[..0] == [];
    } else {
      var t := Exec(s, StartCalls(o)[..n - 1]);
      StageHolds(s, o, n - 1);
      NextStage(t, s, o, n - 1);
      ExecPrefix(s, StartCalls(o), n - 1);
    }
  }

  lemma NextStage(t: State, s: State, o: StartOutcomes, n: nat)
    requires n < 11 && Stage(t, s, o, n)
    ensures Stage(Next(t, StartCalls(o)[n]), s, o, n + 1)
  {
    if n < 8 {
      StartingStage(t, s, o, n);
    } else {
      assert StartCalls(o)[n] == UNWIND[n - 8];
      if FailsAt(o) != 8 {
        UnwindingCall(t, s, n - 8);
      }
    }
  }

  lemma StartingStage(t: State, s: State, o: StartOutcomes, n: nat)
    requires n < 8 && Stage(t, s, o, n)
    ensures Stage(StartStep(t, StartCalls(o)[n].start), s, o, n + 1)
  {
    if FailsAt(o) == 8 || n < FailsAt(o) {
      SucceedingCall(t, s, o, n);
    } else if n == FailsAt(o) {
      FailingCall(t, s, o, n);
    } else {
      SkippedCall(t, s, StartCalls(o)[n].start);
    }
  }

  /**
   * A start from any idle state any run leads to, with every outcome: it ends active, the
   * rules on top of the chains it found, if nothing fails; and if anything does, the IPv4
   * injector included, idle, with no socket, thread or worker and both chains as it found them.
   */
  lemma StartEndsActiveOrIdle(chains: Chains, ipv6: bool, sts: seq<Action>, o: StartOutcomes)
    requires Exec(Initial(chains, ipv6), sts).control.Idle?
    ensures var s := Exec(Initial(chains, ipv6), sts);
            var t := Exec(s, StartCalls(o));
      && t.ipv6 == s.ipv6 && t.stats == NO_STATS && t.workers == []
      && if FailsAt(o) == 8 then
           && t.control.Active? && t.chains == Apply(s.ipv6, s.chains)
           && t.open4 && t.open6 == (s.ipv6 && o.inj6) && t.running && t.receiver.Polling?
         else
           && t.control.Idle? && t.chains == s.chains
           && !t.open4 && !t.open6 && !t.running && t.receiver.Absent?
  {
    var s := Exec(Initial(chains, ipv6), sts);
    ExecKeeps(Initial(chains, ipv6), sts);
    StageHolds(s, o, 11);
    assert StartCalls(o)[..11] == StartCalls(o);
  }
}
