/** OUTPUT chains: insertion at the head, deletion of the first match, first-match evaluation. */
module Firewall {
  import opened Bytes
  import opened Config

  /** A rule's text. Foreign stands for any rule the engine did not write. */
  datatype Rule =
    | MarkAccept(mark: u32)
    | NfQueue(proto: byte, dport: u16, num: u16)
    | Foreign(id: nat)

  datatype Chains = Chains(v4: seq<Rule>, v6: seq<Rule>) {
    function Get(f: Family): seq<Rule> {
      if f.Inet? then v4 else v6
    }

    function Set(f: Family, c: seq<Rule>): Chains {
      if f.Inet? then this.(v4 := c) else this.(v6 := c)
    }
  }

  /** The rule table kRules in insertion order. */
  const K_RULES: seq<Rule> := [
    NfQueue(PROTO_TCP, 80, QUEUE_NUM),
    NfQueue(PROTO_TCP, 443, QUEUE_NUM),
    NfQueue(PROTO_UDP, 53, QUEUE_NUM),
    NfQueue(PROTO_UDP, 443, QUEUE_NUM)
  ]

  const MARK_RULE: Rule := MarkAccept(FWMARK)

  /** Every rule the engine writes. */
  predicate Ours(r: Rule) {
    r == MARK_RULE || r in K_RULES
  }

  function DeleteFirst(c: seq<Rule>, r: Rule): seq<Rule> {
    if c == [] then []
    else if c[0] == r then c[1..]
    else [c[0]] + DeleteFirst(c[1..], r)
  }

  /** Rules inserted one by one at the head of a chain: the last inserted comes first. */
  function Stack(rs: seq<Rule>): seq<Rule> {
    if rs == [] then [] else Stack(rs[1..]) + [rs[0]]
  }

  /** A chain after one deletion of each of rs, in order. */
  function DeleteAll(c: seq<Rule>, rs: seq<Rule>): seq<Rule>
    decreases rs
  {
    if rs == [] then c else DeleteAll(DeleteFirst(c, rs[0]), rs[1..])
  }

  /** A chain after a successful installation. */
  function Install(c: seq<Rule>): seq<Rule> {
    [MARK_RULE] + (Stack(K_RULES) + c)
  }

  function Uninstall(c: seq<Rule>): seq<Rule> {
    DeleteAll(DeleteFirst(c, MARK_RULE), K_RULES)
  }

  function Apply(ipv6: bool, ch: Chains): Chains {
    Chains(Install(ch.v4), if ipv6 then Install(ch.v6) else ch.v6)
  }

  function Revert(ipv6: bool, ch: Chains): Chains {
    Chains(Uninstall(ch.v4), if ipv6 then Uninstall(ch.v6) else ch.v6)
  }

  // ---- deletion ----

  /** Deleting r skips every rule in front of r's first copy and leaves it in place. */
  lemma {:induction false} DeleteFirstSkips(front: seq<Rule>, r: Rule, back: seq<Rule>)
    requires r !in front
    ensures DeleteFirst(front + [r] + back, r) == front + back
  {
    var c := front + [r] + back;
    if front == [] {
      assert c[1..] == back;
    } else {
      assert c[0] == front[0] && c[1..] == front[1..] + [r] + back;
      DeleteFirstSkips(front[1..], r, back);
      assert [c[0]] + (front[1..] + back) == front + back;
    }
  }

  lemma {:induction false} DeleteAbsent(c: seq<Rule>, r: Rule)
    ensures |DeleteFirst(c, r)| == if r in c then |c| - 1 else |c|
    ensures r !in c ==> DeleteFirst(c, r) == c
  {
    if c != [] {
      assert c == [c[0]] + c[1..];
      if c[0] != r {
        DeleteAbsent(c[1..], r);
        assert r in c <==> r in c[1..];
        assert r !in c ==> [c[0]] + DeleteFirst(c[1..], r) == c;
      }
    }
  }

  lemma {:induction false} DeleteFirstMultiset(c: seq<Rule>, r: Rule)
    ensures multiset(DeleteFirst(c, r)) == multiset(c) - multiset{r}
  {
    if c != [] {
      assert c == [c[0]] + c[1..];
      if c[0] != r {
        DeleteFirstMultiset(c[1..], r);
      } else {
        assert multiset(c) == multiset{r} + multiset(c[1..]);
      }
    }
  }

  lemma {:induction false} StackMembers(rs: seq<Rule>)
    ensures |Stack(rs)| == |rs|
    ensures forall r :: r in Stack(rs) <==> r in rs
  {
    if rs != [] {
      StackMembers(rs[1..]);
      assert rs == [rs[0]] + rs[1..];
    }
  }

  lemma {:induction false} StackSnoc(rs: seq<Rule>, r: Rule)
    ensures Stack(rs + [r]) == [r] + Stack(rs)
  {
    if rs != [] {
      assert (rs + [r])[1..] == rs[1..] + [r];
      StackSnoc(rs[1..], r);
    } else {
      assert rs + [r] == [r];
    }
  }

  /** Deleting the rule inserted last uncovers the stack below it. */
  lemma PopStack(rs: seq<Rule>, r: Rule, c: seq<Rule>)
    ensures DeleteFirst(Stack(rs + [r]) + c, r) == Stack(rs) + c
  {
    StackSnoc(rs, r);
    var below := Stack(rs) + c;
    assert Stack(rs + [r]) + c == [r] + below;
    assert ([r] + below)[1..] == below;
  }

  ghost predicate Distinct(rs: seq<Rule>) {
    forall i, j :: 0 <= i < j < |rs| ==> rs[i] != rs[j]
  }

  /** Deleting oldest first, against the order of insertion, still empties the stack. */
  lemma {:induction false} DeleteAllUndoesStack(rs: seq<Rule>, c: seq<Rule>)
    requires Distinct(rs)
    ensures DeleteAll(Stack(rs) + c, rs) == c
  {
    if rs == [] {
      assert Stack(rs) + c == c;
    } else {
      StackMembers(rs[1..]);
      DeleteFirstSkips(Stack(rs[1..]), rs[0], c);
      DeleteAllUndoesStack(rs[1..], c);
    }
  }

  lemma {:induction false} DeleteAllMultiset(c: seq<Rule>, rs: seq<Rule>)
    ensures multiset(DeleteAll(c, rs)) == multiset(c) - multiset(rs)
    decreases rs
  {
    if rs != [] {
      DeleteFirstMultiset(c, rs[0]);
      DeleteAllMultiset(DeleteFirst(c, rs[0]), rs[1..]);
      assert rs == [rs[0]] + rs[1..];
      RemoveTwice(multiset(c), multiset{rs[0]}, multiset(rs[1..]));
    }
  }

  lemma RemoveTwice(c: multiset<Rule>, a: multiset<Rule>, b: multiset<Rule>)
    ensures c - a - b == c - (a + b)
  {}

  lemma {:induction false} DeleteAllLength(c: seq<Rule>, rs: seq<Rule>)
    ensures |DeleteAll(c, rs)| <= |c|
    ensures |DeleteAll(c, rs)| == |c| <==> forall r | r in rs :: r !in c
    ensures |DeleteAll(c, rs)| == |c| ==> DeleteAll(c, rs) == c
    decreases rs
  {
    if rs != [] {
      DeleteAbsent(c, rs[0]);
      DeleteAllLength(DeleteFirst(c, rs[0]), rs[1..]);
      assert rs == [rs[0]] + rs[1..];
    }
  }

  // ---- installation and removal ----

  /** Removal undoes installation on every chain, one already holding copies of the rules included. */
  lemma UninstallUndoesInstall(c: seq<Rule>)
    ensures Uninstall(Install(c)) == c
  {
    DeleteFirstSkips([], MARK_RULE, Stack(K_RULES) + c);
    assert Install(c) == [] + [MARK_RULE] + (Stack(K_RULES) + c);
    assert [] + (Stack(K_RULES) + c) == Stack(K_RULES) + c;
    DeleteAllUndoesStack(K_RULES, c);
  }

  lemma RevertUndoesApply(ipv6: bool, ch: Chains)
    ensures Revert(ipv6, Apply(ipv6, ch)) == ch
  {
    UninstallUndoesInstall(ch.v4);
    UninstallUndoesInstall(ch.v6);
  }

  /** Removal takes one copy of each of the engine's rules, and nothing else, from any chain. */
  lemma UninstallTakesOneOfEach(c: seq<Rule>)
    ensures multiset(Uninstall(c)) == multiset(c) - multiset{MARK_RULE} - multiset(K_RULES)
  {
    DeleteFirstMultiset(c, MARK_RULE);
    DeleteAllMultiset(DeleteFirst(c, MARK_RULE), K_RULES);
  }

  /**
   * Removal leaves a chain alone exactly when none of the engine's rules is in it, whoever
   * wrote them: it is not "safe" on a chain that holds copies and was never installed to.
   */
  lemma UninstallIsNoOpIff(c: seq<Rule>)
    ensures Uninstall(c) == c <==> forall r | r in c :: !Ours(r)
  {
    DeleteAbsent(c, MARK_RULE);
    DeleteAllLength(DeleteFirst(c, MARK_RULE), K_RULES);
  }

  /**
   * A stop restores both chains exactly when it reads the `ipv6` setting the start read, or
   * when it turned on meanwhile and the IPv6 chain holds none of the engine's rules.
   */
  lemma StopRestoresIff(atStart: bool, atStop: bool, ch: Chains)
    ensures Revert(atStop, Apply(atStart, ch)) == ch
       <==> atStart == atStop || (atStop && forall r | r in ch.v6 :: !Ours(r))
  {
    UninstallUndoesInstall(ch.v4);
    UninstallUndoesInstall(ch.v6);
    UninstallIsNoOpIff(ch.v6);
    if atStart && !atStop {
      assert |Install(ch.v6)| > |ch.v6|;
    }
  }

  /** A concrete run: turning IPv6 off mid-run strands all five IPv6 rules. */
  lemma TurningIpv6OffStrandsRules()
    ensures Revert(false, Apply(true, Chains([], []))) == Chains([], [MARK_RULE] + Stack(K_RULES))
  {
    UninstallUndoesInstall([]);
    assert Stack(K_RULES) + [] == Stack(K_RULES);
  }

  // ---- evaluation ----

  /** What a chain sees of an outgoing packet. */
  datatype Flow = Flow(proto: byte, dport: u16, mark: u32)

  datatype Fate = Pass | Discard | Queue(num: u16)

  /** Foreign rules and the policy may match and decide in any way. */
  datatype Admin = Admin(foreign: (nat, Flow) -> Option<Fate>, policy: Fate)

  function Match(h: Admin, r: Rule, p: Flow): Option<Fate> {
    match r
    case MarkAccept(m) => if p.mark == m then Some(Pass) else None
    case NfQueue(pr, dp, n) => if p.proto == pr && p.dport == dp then Some(Queue(n)) else None
    case Foreign(id) => h.foreign(id, p)
  }

  function Evaluate(h: Admin, c: seq<Rule>, p: Flow): Fate {
    if c == [] then h.policy
    else
      var m := Match(h, c[0], p);
      if m.Some? then m.value else Evaluate(h, c[1..], p)
  }

  predicate Intercepted(p: Flow) {
    (p.proto == 6 && (p.dport == 80 || p.dport == 443)) || (p.proto == 17 && (p.dport == 53 || p.dport == 443))
  }

  lemma {:induction false} StackEvaluates(h: Admin, rs: seq<Rule>, c: seq<Rule>, p: Flow)
    requires forall r | r in rs :: r.NfQueue? && r.num == QUEUE_NUM
    ensures Evaluate(h, Stack(rs) + c, p)
         == if NfQueue(p.proto, p.dport, QUEUE_NUM) in rs
            then Queue(QUEUE_NUM) else Evaluate(h, c, p)
    decreases |rs|
  {
    if rs == [] {
      assert Stack(rs) + c == c;
    } else {
      var n := |rs| - 1;
      assert rs == rs[..n] + [rs[n]];
      StackSnoc(rs[..n], rs[n]);
      assert Stack(rs) + c == [rs[n]] + (Stack(rs[..n]) + c);
      assert (Stack(rs) + c)[1..] == Stack(rs[..n]) + c;
      StackEvaluates(h, rs[..n], c, p);
      var q := NfQueue(p.proto, p.dport, QUEUE_NUM);
      assert q in rs <==> q in rs[..n] || q == rs[n];
      assert rs[n] in rs;
      assert Match(h, rs[n], p) == if q == rs[n] then Some(Queue(QUEUE_NUM)) else None;
    }
  }

  /** With the rules installed: marked packets pass, the four flows are queued, the rest is untouched. */
  lemma InstalledSemantics(h: Admin, c: seq<Rule>, p: Flow)
    ensures Evaluate(h, Install(c), p)
         == if p.mark == 0xDED then Pass
            else if Intercepted(p) then Queue(100)
            else Evaluate(h, c, p)
  {
    assert Install(c)[1..] == Stack(K_RULES) + c;
    StackEvaluates(h, K_RULES, c, p);
    assert Intercepted(p) <==> NfQueue(p.proto, p.dport, QUEUE_NUM) in K_RULES;
  }
}
