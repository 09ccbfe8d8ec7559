/** Constants and plain records shared by the engine's components (byedpi.h, dpi.h). */
module Config {
  import opened Bytes

  datatype Family = Inet | Inet6

  const QUEUE_NUM: u16 := 100
  const FWMARK: u32 := 0xDED

  const PROTO_TCP: byte := 6
  const PROTO_UDP: byte := 17

  /** What the queue callback tells the kernel to do with the original packet. */
  datatype Verdict = Accept | Drop

  /** The text of a resolver's address, as a char[64] holds it. */
  type ServerName = s: string | |s| <= 63

  /** The configuration fields the engine reads; the GUI may change them between calls. */
  datatype Settings = Settings(
    http: bool, tls: bool, dns: bool, quic: bool,
    ipv6: bool, ttl: nat,
    dnsAddr: ServerName, dnsFallback: ServerName, upstreamPort: int)

  datatype Stats = Stats(seen: nat, split: nat, fake: nat, dns: nat, quic: nat)

  const NO_STATS := Stats(0, 0, 0, 0, 0)
}
