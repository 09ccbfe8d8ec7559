/** Installing and removing the engine's rules (iptables.c). */
module Iptables {
  import opened Config
  import opened Firewall
  import K = Kernel

  /** Whether the i-th insertion command of one family succeeds. */
  type Inserts = s: seq<bool> | |s| == 5 witness [true, true, true, true, true]

  predicate AllInserted(s: Inserts) {
    s[0] && s[1] && s[2] && s[3] && s[4]
  }

  /** The outcomes of one call of bd_iptables_apply. */
  datatype Outcomes = Outcomes(v4: Inserts, v6: Inserts)

  predicate Applies(ipv6: bool, o: Outcomes) {
    AllInserted(o.v4) && (ipv6 ==> AllInserted(o.v6))
  }

  /** One family's rules go in completely or not at all, and the other family is untouched. */
  method ApplyFor(k: K.Host, f: Family, ins: Inserts) returns (rc: int)
    modifies k`chains
    ensures rc == 0 <==> AllInserted(ins)
    ensures k.chains == if rc == 0 then old(k.chains).Set(f, Install(old(k.chains).Get(f))) else old(k.chains)
  {
    rc := InsertTable(k, f, K_RULES, ins);
    if rc != 0 {
      return -1;
    }
    var mc := k.InsertRule(f, MARK_RULE, ins[4]);
    if mc != 0 {
      DeleteTable(k, f, K_RULES);
      DeleteAllUndoesStack(K_RULES, old(k.chains).Get(f));
      return -1;
    }
  }

  /** The insertion loop of apply_for with its roll back. */
  method InsertTable(k: K.Host, f: Family, table: seq<Rule>, ins: seq<bool>) returns (rc: int)
    requires |table| <= |ins|
    modifies k`chains
    ensures rc == 0 <==> forall j :: 0 <= j < |table| ==> ins[j]
    ensures k.chains == if rc == 0 then old(k.chains).Set(f, Stack(table) + old(k.chains).Get(f)) else old(k.chains)
  {
    ghost var c := k.chains.Get(f);
    assert table[..0] == [] && Stack([]) + c == c;
    var i := 0;
    while i < |table|
      invariant 0 <= i <= |table|
      invariant k.chains == old(k.chains).Set(f, Stack(table[..i]) + c)
      invariant forall j :: 0 <= j < i ==> ins[j]
    {
      var ic := k.InsertRule(f, table[i], ins[i]);
      if ic != 0 {
        RollBack(k, f, table, i, c);
        return -1;
      }
      StackSnoc(table[..i], table[i]);
      assert table[..i + 1] == table[..i] + [table[i]];
      assert [table[i]] + (Stack(table[..i]) + c) == Stack(table[..i + 1]) + c;
      i := i + 1;
    }
    assert table[..i] == table;
    rc := 0;
  }

  /** Takes the first i table entries, newest first, back off a chain that was c. */
  method RollBack(k: K.Host, f: Family, table: seq<Rule>, i: nat, ghost c: seq<Rule>)
    requires i <= |table| && k.chains.Get(f) == Stack(table[..i]) + c
    modifies k`chains
    ensures k.chains == old(k.chains).Set(f, c)
  {
    var n := i;
    while n > 0
      invariant 0 <= n <= i
      invariant k.chains == old(k.chains).Set(f, Stack(table[..n]) + c)
    {
      n := n - 1;
      assert table[..n + 1] == table[..n] + [table[n]];
      PopStack(table[..n], table[n], c);
      var rc := k.DeleteRule(f, table[n]);
    }
    assert Stack(table[..0]) + c == c;
  }

  /** Deletes each table entry once, oldest first. */
  method DeleteTable(k: K.Host, f: Family, table: seq<Rule>)
    modifies k`chains
    ensures k.chains == old(k.chains).Set(f, DeleteAll(old(k.chains).Get(f), table))
  {
    ghost var c := k.chains.Get(f);
    for i := 0 to |table|
      invariant k.chains == old(k.chains).Set(f, k.chains.Get(f))
      invariant DeleteAll(k.chains.Get(f), table[i..]) == DeleteAll(c, table)
    {
      assert table[i..][1..] == table[i + 1..];
      var rc := k.DeleteRule(f, table[i]);
    }
  }

  method RevertFor(k: K.Host, f: Family)
    modifies k`chains
    ensures k.chains == old(k.chains).Set(f, Uninstall(old(k.chains).Get(f)))
  {
    var rc := k.DeleteRule(f, MARK_RULE);
    DeleteTable(k, f, K_RULES);
  }

  /**
   * Atomicity: both chains end with the rules installed, or, wherever an insertion failed,
   * exactly as they were.
   */
  method IptablesApply(k: K.Host, ipv6: bool, o: Outcomes) returns (rc: int)
    modifies k`chains
    ensures rc == 0 <==> Applies(ipv6, o)
    ensures k.chains == if rc == 0 then Apply(ipv6, old(k.chains)) else old(k.chains)
  {
    rc := ApplyFor(k, Inet, o.v4);
    if rc != 0 {
      return -1;
    }
    if ipv6 {
      rc := ApplyFor(k, Inet6, o.v6);
      if rc != 0 {
        UninstallUndoesInstall(old(k.chains).v4);
        RevertFor(k, Inet);
        return -1;
      }
    }
    rc := 0;
  }

  method IptablesRevert(k: K.Host, ipv6: bool)
    modifies k`chains
    ensures k.chains == Revert(ipv6, old(k.chains))
  {
    RevertFor(k, Inet);
    if ipv6 {
      RevertFor(k, Inet6);
    }
  }
}
