/**
 * The part of the kernel the engine acts on.  Every call that can fail takes the outcome
 * as a parameter; a failed call changes nothing.
 */
module Kernel {
  import opened Bytes
  import opened Config
  import opened Firewall

  datatype Socket = Socket(family: Family, mark: u32)

  /** A packet handed to the network by a raw socket, and the address it was handed over for. */
  datatype Sent = Sent(bytes: seq<byte>, to: seq<byte>, family: Family, mark: u32)

  /** A datagram sent through an ordinary socket. */
  datatype Asked = Asked(server: string, family: Family, port: int, mark: u32, payload: seq<byte>)

  /** Everything a stopped engine must leave as it found it. */
  datatype Footprint = Footprint(
    sockets: map<int, Socket>, chains: Chains,
    handles: nat, queues: nat, threads: nat)

  class Host {
    var sockets: map<int, Socket>
    var nextFd: nat
    var wire: seq<Sent>
    var asked: seq<Asked>
    var chains: Chains
    var handles: nat
    var queues: nat
    var threads: nat

    ghost predicate Valid()
      reads `sockets, `nextFd
    {
      forall fd | fd in sockets :: 0 <= fd < nextFd
    }

    ghost function Held(): Footprint
      reads this
    {
      Footprint(sockets, chains, handles, queues, threads)
    }

    method OpenSocket(family: Family, ok: bool) returns (fd: int)
      requires Valid()
      modifies this`sockets, this`nextFd
      ensures Valid()
      ensures if ok then 0 <= fd && fd !in old(sockets) && sockets == old(sockets)[fd := Socket(family, 0)]
              else fd == -1 && sockets == old(sockets)
    {
      if !ok { return -1; }
      fd := nextFd;
      sockets := sockets[fd := Socket(family, 0)];
      nextFd := nextFd + 1;
    }

    /** setsockopt(SO_MARK). */
    method SetMark(fd: int, mark: u32, ok: bool) returns (rc: int)
      requires Valid() && fd in sockets
      modifies this`sockets
      ensures Valid()
      ensures rc == (if ok then 0 else -1)
      ensures sockets == if ok then old(sockets)[fd := old(sockets)[fd].(mark := mark)] else old(sockets)
    {
      if !ok { return -1; }
      sockets := sockets[fd := sockets[fd].(mark := mark)];
      rc := 0;
    }

    method CloseSocket(fd: int)
      requires Valid()
      modifies this`sockets
      ensures Valid() && sockets == old(sockets) - {fd}
    {
      sockets := sockets - {fd};
    }

    /** sendto on a raw socket: the packet leaves with the socket's mark, or nothing does. */
    method SendTo(fd: int, frame: array<byte>, total: nat, to: seq<byte>, ok: bool) returns (n: int)
      requires Valid() && total <= frame.Length
      modifies this`wire
      ensures n >= 0 <==> fd in sockets && ok
      ensures wire == if n >= 0 then old(wire) + [Sent(frame[..total], to, sockets[fd].family, sockets[fd].mark)]
                      else old(wire)
    {
      if fd !in sockets || !ok { return -1; }
      wire := wire + [Sent(frame[..total], to, sockets[fd].family, sockets[fd].mark)];
      n := total;
    }

    /** sendto on a datagram socket. */
    method SendDatagram(fd: int, server: string, port: int, payload: seq<byte>, ok: bool) returns (n: int)
      requires fd in sockets
      modifies this`asked
      ensures n == |payload| <==> ok
      ensures asked == if ok then old(asked) + [Asked(server, sockets[fd].family, port, sockets[fd].mark, payload)]
                       else old(asked)
    {
      if !ok { return -1; }
      asked := asked + [Asked(server, sockets[fd].family, port, sockets[fd].mark, payload)];
      n := |payload|;
    }

    /** `iptables -I OUTPUT`: the new rule goes to the head of the chain. */
    method InsertRule(f: Family, r: Rule, ok: bool) returns (rc: int)
      modifies this`chains
      ensures rc == 0 <==> ok
      ensures chains == if ok then old(chains).Set(f, [r] + old(chains).Get(f)) else old(chains)
    {
      if !ok { return 1; }
      chains := chains.Set(f, [r] + chains.Get(f));
      rc := 0;
    }

    /** `iptables -D OUTPUT`: the first rule with that text goes; without one nothing happens. */
    method DeleteRule(f: Family, r: Rule) returns (rc: int)
      modifies this`chains
      ensures rc == 0 <==> r in old(chains).Get(f)
      ensures chains == old(chains).Set(f, DeleteFirst(old(chains).Get(f), r))
    {
      DeleteAbsent(chains.Get(f), r);
      if r !in chains.Get(f) { return 1; }
      chains := chains.Set(f, DeleteFirst(chains.Get(f), r));
      rc := 0;
    }
  }
}
