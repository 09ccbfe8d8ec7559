# Passewall: a verified model

Passewall queues an application's outgoing packets to user space, rewrites a few of them and
sends the result through raw sockets. Its README promises that the server "still receives a
completely valid request", that it never processes its own traffic again, and that a stop removes
exactly the firewall rules it added. This project models the code behind those promises and
proves what holds of it, for all inputs and all runs.

`dafny verify dfyconfig.toml` checks everything. One module per file:

| module | source | what it holds |
|---|---|---|
| `Bytes`, `Config` | `dpi.h`, `byedpi.h` | octets, words, network order; settings, constants, statistics |
| `Checksum` | `net.c` | the native accumulate and fold loops against the big-endian sum of RFC 1071 |
| `Packet` | `net.c` | the parser and the frames as functions on octets; round trips; checksums at the receiver |
| `Net` | `net.c` | the same frames built in place in byte arrays; the injector and its sockets |
| `Tls`, `Http` | `tls.c`, `http.c` | the two locators as loops, a ClientHello encoder, what the locators find |
| `Tcp` | `tcp.c` | the cut, the three sends, the verdict; one interception end to end |
| `Receiver`, `Delivery` | `tcp.c` | a TCP receiver (section 3.4 of RFC 9293); whole runs of interceptions reassembled by it |
| `Firewall`, `Iptables` | `iptables.c` | chains as sequences; installation, roll back and removal as commands on them |
| `Kernel` | | the sockets, chains, queue handles and wire the program acts on |
| `Engine` | `queue.c` | the engine object; runs of starts, stops and setting changes |
| `Dns`, `Callback` | `dns.c`, `queue.c` | job capture and worker; dispatch, verdict and statistics of one packet |
| `Loop` | `queue.c`, `iptables.c` | chains, callback and injection closed into a loop, and when it ends |
| `System` | `queue.c`, `dns.c` | every interleaving of the controlling thread, the receive thread and the workers |
| `Simulation` | `queue.c`, `tcp.c`, `dns.c` | callback, worker, start and stop of the other modules as sequences of `System`'s steps |

Code that works in place is a method on arrays or on a class, proved against a function; the
lemmas are about those functions. What the operating system decides (whether a call succeeds, the
value of `rand()`, what an upstream resolver answers, what other firewall rules do, how the network
delivers) is a parameter and universally quantified.

The chain from bytes to bytes is: `Net.SendTcp` puts `Packet.TcpFrame` on the wire
(`Net.Seal` through `Checksum.ByteOrderIndependence`), `Packet.TcpRoundTrip` and
`Packet.FrameVerifies` say what a receiver reads, `Tcp.TcpHandle` refines `Tcp.Handled`, and
`Delivery.RunPreservesStream` feeds the frames of a run of many connections to `Receiver`, sorted by
endpoints and ports, and gets every stream back.

## Where the code and its documentation differ

The model follows the code.

- `src/iptables.h:16-18` calls the removal safe even if nothing was installed. It removes one copy
  of each rule, whoever wrote it: `Firewall.UninstallIsNoOpIff` has the exact condition.
- The same comment (`src/iptables.h:16`) says it removes exactly the rules installed. The stop reads
  the `ipv6` setting again (`src/iptables.c:175`), which the window may have changed meanwhile
  (`src/gui/window.c:352`): `Firewall.StopRestoresIff` has the exact condition and
  `Firewall.TurningIpv6OffStrandsRules` a run that leaves all five IPv6 rules behind. The headless
  program, of which `README.md:196-197` promises the same, never changes the setting after reading
  its options, so for it `Engine.RunAgrees` gives the promise in full.
- `README.md:55-56` says the program never processes its own traffic again. A failed `SO_MARK` is
  only a warning (`src/net.c:109-111`): `Loop.DrainsIffMarked` shows that then one HTTP request is
  enough to keep the loop going for ever, and that with the mark it always ends.
- The comment at `src/tls.c:34-37` speaks of the offset of the host name; the function returns the
  octet behind its first one, and a one-octet name is not straddled (`Tls.SplitOfHello`).
- `src/dns.c:109` takes answers of up to 2048 octets, more than a frame holds with its headers. The
  query has been dropped by then: `Callback.DroppedQueryIsAnsweredIff` has the exact condition for
  the application to get the answer, and `Callback.FullAnswerIsLost` a loss with every call succeeding.

## Model

| member | source | states |
|---|---|---|
| `Checksum.Accumulate` | src/net.c:28-41 | The loop's 32-bit result is the true sum of the native words, an odd last octet padded, modulo 2^32. |
| `Checksum.Fold` | src/net.c:43-48 | The fold loop ends and returns the complement of the sum's folded residue, whatever the sum. |
| `Checksum.FoldedIsTheResidue` | src/net.c:43-48 | A 16-bit value is the folded sum if and only if it has the sum's residue mod 65535 and is zero exactly when the sum is. |
| `Checksum.WordSumBound` | src/net.c:28-41 | The sum of the words of n octets is at most 65535 (n + 1) / 2, in either byte order. |
| `Checksum.OnesSumFoldsWordSum` | src/net.c:28-48 | Adding first and folding at the end is the same as the end-around-carry addition of RFC 1071, for every length. |
| `Checksum.LittleIsShiftedBig` | src/net.c:28-41 | The little-endian sum is 256 times the big-endian one mod 65535, and zero exactly when it is. |
| `Checksum.ByteOrderIndependence` | src/net.c:28-48 | On either byte order, accumulating, folding and storing natively leaves exactly the octets of the big-endian RFC 1071 checksum. |
| `Checksum.StoredChecksumVerifies` | src/net.c:320-332 | Data with a 16-bit field filled in sums to all ones if and only if the field is the RFC 1071 checksum, or 0xffff in place of a zero one. |
| `Net.TwoSums` | src/net.c:64-65 | Accumulating pseudo-header and segment one after the other gives their exact joint sum: a segment that fits a frame cannot wrap the accumulator. |
| `Net.PseudoSum` | src/net.c:53-64 | The pseudo-header's native word sum, laid out in a buffer of its own, for either family. |
| `Net.L4Checksum` | src/net.c:53-86 | For both families, the result is the complement of the folded exact sum of the RFC pseudo-header and the segment where it lies in the buffer. |
| `Net.BuildTcpL4` | src/net.c:266-284 | The buffer starts with the TCP header in network order, data offset 5, checksum and urgent pointer zero, and the payload behind it. |
| `Net.BuildUdpL4` | src/net.c:286-297 | The buffer starts with the UDP header, its length field covering header and payload, and the payload. |
| `Net.WriteIp4` | src/net.c:308-321 | The first 20 octets become the IPv4 header with Don't Fragment and the header checksum of RFC 1071, on either byte order. |
| `Net.SealIp4` | src/net.c:320-321 | A natively computed and stored IPv4 header checksum is the RFC 1071 one. |
| `Net.WriteIp6` | src/net.c:346-353 | The first 40 octets become the IPv6 header. |
| `Net.Seal` | src/net.c:325-332 | The segment in the frame carries its RFC 1071 checksum (0xffff for a zero UDP one) and the header in front of it is untouched. |
| `Net.FillFrame` | src/net.c:308-332 | The buffer starts with the whole frame the parsing and checksum lemmas are about: header, segment, segment checksum. |
| `Net.SendFrame` | src/net.c:229-263 | A frame leaves for the destination's address with the socket's mark, or nothing does; IPv6 needs its socket. |
| `Net.Inject` | src/net.c:299-367 | Exactly one frame leaves, for the destination's address and with the socket's mark, if it fits, the socket is open and the send works; otherwise nothing leaves and the result is -1. |
| `Net.EmissionGoesToDestination` | src/net.c:229-263 | The address a frame is handed over for is the destination inside the frame's own header. |
| `Net.SendTcp` | src/net.c:369-386 | The frame that leaves is the one the round-trip lemmas are about; longer payloads than a frame holds are refused. |
| `Net.SendUdp` | src/net.c:388-403 | The same for UDP. |
| `Net.InjectorOpen` | src/net.c:90-133 | Failure leaves no socket behind; success opens IPv4, IPv6 only if wanted and available, each marked unless SO_MARK failed; no other socket changes. |
| `Net.OpenInet6` | src/net.c:113-131 | Any failure in the IPv6 half leaves the sockets as they were. |
| `Net.InjectorClose` | src/net.c:135-140 | Exactly the injector's sockets are closed and forgotten. |
| `Packet.PacketParse` | src/net.c:144-223 | The field-by-field parser computes the parse function, including every rejection. |
| `Packet.ParseL3Octets` | src/net.c:152-191 | Octet by octet, for every input: exactly which IP headers are accepted, any type of service, header length, traffic class and flow label, and what is read from them. |
| `Packet.ParseTcpOctets` | src/net.c:193-208 | Octet by octet, for every input: exactly which TCP segments are accepted and where each field and the payload are. |
| `Packet.ParseUdpOctets` | src/net.c:209-218 | The same for UDP, whose length field is not read. |
| `Packet.ParseOtherProtocols` | src/net.c:219-221 | No other protocol is accepted. |
| `Packet.ParseSkipsOptions` | src/net.c:159-208 | Whatever IPv4 and TCP options a packet carries, it parses to its fixed headers' fields and the octets behind the options. |
| `Packet.TcpRoundTrip` | src/net.c:193-335 | Parsing a built TCP frame, IPv4 or IPv6, recovers endpoints, ports, seq, ack, flags, window and payload. |
| `Packet.UdpRoundTrip` | src/net.c:209-332 | Parsing a built UDP frame recovers endpoints, ports and payload. |
| `Packet.PseudoIsRfc` | src/net.c:53-83 | The pseudo-header laid out for either family sums to both addresses' words, the protocol number and the length: what a receiver adds. |
| `Packet.FrameVerifies` | src/net.c:320-362 | Every built frame passes the receiver's IPv4 header check and its TCP or UDP check, in which addresses, protocol and length (UDP's from its own field) are added on their own. |
| `Packet.FrameLengthAndHops` | src/net.c:308-351 | The IP length field, and UDP's, agree with the frame and the hop limit is the one asked for, for every frame that fits. |
| `Packet.FrameIsPlain` | src/net.c:308-351 | An IPv4 frame has no options, type of service 0, Don't Fragment set, no fragment offset and the given identification; an IPv6 frame no traffic class or flow. |
| `Packet.FrameGoesToDestination` | src/net.c:325-366 | The destination address lies in the header where the sender takes it from. |
| `Packet.TcpFrameIsSound` | src/net.c:266-367 | Every TCP frame that fits holds all of a receiver's checks: checksums, lengths, hop limit, no fragment, no options, no urgent data. |
| `Packet.UdpFrameIsSound` | src/net.c:286-367 | So does every UDP frame; its UDP length field is 8 and the payload's length, and its checksum is never the zero that means none. |
| `Tls.SplitOffset` | src/tls.c:38-107 | The cursor walk computes the split function on every input. |
| `Tls.SkipToExtensions` | src/tls.c:43-69 | The fixed part finds the extensions' length field or reports that a field in front of it is cut off. |
| `Tls.WalkExtensions` | src/tls.c:76-106 | The loop over the extensions computes the recursive walk from any position. |
| `Tls.NameInsideExtension` | src/tls.c:85-94 | The first host name of an encoded server_name extension lies inside that extension. |
| `Tls.SplitOfHello` | src/tls.c:38-107 | On every prefix or extension of an encoded ClientHello with a server_name at any position, the result is the first name's start plus one once that extension is complete, and -1 before; the one-octet and the empty name are told apart. |
| `Tls.SplitOfHelloWithoutSni` | src/tls.c:76-106 | An encoded ClientHello without server_name, cut or continued anywhere, gives -1. |
| `Tls.SplitGrows` | src/tls.c:69-106 | On arbitrary octets, an offset found on a prefix stays the same on every longer version, except exactly when a one-octet name ends the prefix. |
| `Tls.SplitOfAnything` | src/tls.c:38-107 | On arbitrary octets: -1 without a ClientHello that reaches its extensions, and otherwise exactly what the first place shows where the walk stops, overrunning extensions and names past their extension included. |
| `Tls.WalkComesTo` | src/tls.c:76-106 | There always is such a place. |
| `Http.CheckRequest` | src/http.c:16-26 | True exactly for five or more octets that start with one of the nine methods. |
| `Http.RequestOctets` | src/http.c:11-26 | The nine methods octet by octet, upper case and a space. |
| `Http.HostIsHostLine` | src/http.c:39-42 | A match is h, o, s, t, each in either case, and a colon, at the start of the data or behind a line feed. |
| `Http.SplitOffset` | src/http.c:29-52 | The scan computes the split function; its range check never fails. |
| `Http.SplitIsFirstHost` | src/http.c:29-52 | The result is two octets into the first line-start Host name, each letter in either case, octet by octet, and -1 if and only if there is none or the text is no request. |
| `Http.FirstFragmentHasNoHost` | src/http.c:43-49 | Cut there, the first part holds no whole line-start Host name. |
| `Tcp.TcpHandle` | src/tcp.c:21-105 | Verdict, frames in order and statistics are those of the interception function, for every pattern of send failures. |
| `Tcp.ChooseCut` | src/tcp.c:24-60 | Where to cut, or that the packet passes. |
| `Tcp.Emit` | src/tcp.c:70-104 | All three sends are tried; the verdict is drop exactly when both real frames left; a fake is counted when it left, a split with a drop. |
| `Tcp.EmitReals` | src/tcp.c:87-104 | The verdict and the split counter follow the two real sends, whatever became of the fake. |
| `Tcp.SendReals` | src/tcp.c:87-94 | Both real segments are tried, in order, and the result says whether both left. |
| `Tcp.SendFake` | src/tcp.c:78-82 | The fake is the whole payload at the original sequence number with the configured hop limit. |
| `Tcp.SendFirst` | src/tcp.c:87-89 | The first real segment: the part in front of the cut, PSH cleared. |
| `Tcp.SendSecond` | src/tcp.c:91-94 | The second real segment: the rest, at the sequence number moved by the cut modulo 2^32. |
| `Tcp.RecordsAreCut` | src/tcp.c:55-60 | Every first record the settings ask to rewrite is cut, at the locator's offset or after octet 2; the later fallbacks never apply. |
| `Tcp.CutIffStartsRecord` | src/tcp.c:24-60 | Exactly data without FIN, SYN or RST that starts, octet by octet, with a ClientHello on port 443 or a method on port 80, each switched on, is cut; every other packet is accepted with nothing sent. |
| `Tcp.StampedGoesToDestination` | src/tcp.c:78-94 | Every segment of an interception is handed over for the destination inside its own header. |
| `Tcp.ParsedIsCanonical` | src/net.c:164-185 | A parsed packet's endpoints are of its own family and survive being rebuilt into a frame. |
| `Tcp.FakeParses` | src/tcp.c:78-82 | The fake parses to the interception's endpoints, ports, seq, ack, window, flags and whole payload. |
| `Tcp.FirstParses` | src/tcp.c:87-89 | The first real frame parses to the same connection with PSH cleared and the front of the payload. |
| `Tcp.SecondParses` | src/tcp.c:91-94 | The second parses to the adjacent sequence number, the original flags and the rest. |
| `Tcp.DropMeansReplaced` | src/tcp.c:87-104 | Whenever the original is dropped, exactly two real frames left: they parse to adjacent non-empty segments of the same connection whose payloads concatenate to the original, all flags but the first's PSH kept, no fragments, with valid lengths, checksums and hop limit 64. |
| `Tcp.FakeIsWellFormed` | src/tcp.c:73-82 | The fake's lengths and checksums hold and only its hop limit is the configured one. |
| `Tcp.FirstFragmentHidesHost` | src/tcp.c:45-58 | The first fragment of a rewritten HTTP request never holds a whole line-start Host name, the fallback cut included. |
| `Tcp.SniStraddlesTheCutIff` | src/tls.c:95-101 | The cut falls strictly inside the first host name if and only if the name has two or more octets and its whole extension is in the segment. |
| `Receiver.OnlyPrefixes` | src/tcp.c:84-94 | Genuine segments in any order and number, any window and overlap policy: only a prefix of the stream is handed over. |
| `Receiver.Reassembles` | src/tcp.c:84-94 | Once every octet has arrived, a window as wide as the stream hands all of it over, across sequence number wrap. |
| `Receiver.RoundsReassemble` | src/tcp.c:84-94 | With any open window, enough retransmission rounds, each in any order, hand over the whole stream. |
| `Delivery.ArrivalsAgree` | src/tcp.c:70-94 | Every emitted segment of an interception, fakes included, belongs to its connection and disagrees with its stream at no sequence number. |
| `Delivery.ArrivalsCover` | src/tcp.c:84-104 | Every payload octet is in a real frame of a dropped original or in the original that passed. |
| `Delivery.RunPreservesStream` | src/tcp.c:26-104 | For every run of any mix of connections, all settings, socket states and send failures, and every delivery order, duplication, choice of fakes and other traffic, a server that sorts frames by endpoints and ports obtains exactly each connection's stream. |
| `Delivery.RunSurvivesRetransmission` | src/tcp.c:26-104 | The same with a window of any positive width, when lost octets are sent again. |
| `Delivery.RunIsNeverCorrupted` | src/tcp.c:26-104 | At every moment of such a run what a server has read of a connection is a prefix of its stream. |
| `Kernel.Host.InsertRule` | src/iptables.c:104-116 | An insertion puts the rule at the head of that family's chain or changes nothing. |
| `Kernel.Host.DeleteRule` | src/iptables.c:104-116 | A deletion takes the first copy, fails exactly when there is none, and then changes nothing. |
| `Kernel.Host.SendTo` | src/net.c:229-263 | A raw send leaves for the given address with the socket's own mark, or not at all. |
| `Iptables.ApplyFor` | src/iptables.c:120-143 | One family's five rules go in completely or its chain is as before; the other chain is untouched. |
| `Iptables.InsertTable` | src/iptables.c:122-131 | The table ends stacked on the chain, or the chain is as before, wherever an insertion failed. |
| `Iptables.RollBack` | src/iptables.c:126-128 | Deleting newest first uncovers the chain below, even one holding copies of the rules. |
| `Iptables.DeleteTable` | src/iptables.c:136-150 | Each table entry is deleted once, oldest first. |
| `Iptables.RevertFor` | src/iptables.c:145-152 | One family's chain loses its first copy of each rule; the other is untouched. |
| `Iptables.IptablesApply` | src/iptables.c:154-169 | Atomicity: both chains get the rules, or both are exactly as they were, for every pattern of failing insertions. |
| `Iptables.IptablesRevert` | src/iptables.c:171-177 | The chains are those of the removal function at the setting read now. |
| `Firewall.UninstallUndoesInstall` | src/iptables.c:120-152 | On every chain, one holding copies of the rules included, removal after installation gives the chain back exactly, although deletion is first-match and in another order. |
| `Firewall.RevertUndoesApply` | src/iptables.c:154-177 | The same for both chains at once, under either setting. |
| `Firewall.UninstallTakesOneOfEach` | src/iptables.c:145-152 | From any chain removal takes one copy of each of the five rules and nothing else. |
| `Firewall.UninstallIsNoOpIff` | src/iptables.c:145-152 | Removal leaves a chain alone if and only if it holds none of the rules. |
| `Firewall.StopRestoresIff` | src/iptables.c:154-177 | Removal restores both chains if and only if it reads the setting installation read, or IPv6 was turned on and its chain holds none of the rules. |
| `Firewall.TurningIpv6OffStrandsRules` | src/iptables.c:171-177 | Turning IPv6 off in between leaves the five IPv6 rules behind. |
| `Firewall.InstalledSemantics` | src/iptables.c:25-30 | Under first-match evaluation on any chain: marked packets pass, the four flows are queued, every other packet gets the original chain's fate. |
| `Engine.Engine.constructor` | src/queue.c:188-198 | A new engine holds nothing. |
| `Engine.Engine.Start` | src/queue.c:200-271 | It succeeds exactly when every acquisition does and is the lifecycle's start step; IPv6 injection is up exactly when wanted and available; any failure gives everything back, the firewall included; a running engine is left alone. |
| `Engine.Engine.Equip` | src/queue.c:207-214 | Sockets and rules are both acquired, the IPv6 socket exactly when wanted and available, or neither is. |
| `Engine.Engine.StartStopped` | src/queue.c:205-271 | On a stopped engine: everything is held, the IPv6 socket exactly when wanted and available, or nothing is and the kernel is as it was. |
| `Engine.Engine.AcquireOrRelease` | src/queue.c:216-270 | Handle, queue and thread are all acquired, or everything the start got, rules and sockets included, is given back. |
| `Engine.Engine.Acquire` | src/queue.c:216-255 | Handle and queue are held exactly as far as the calls succeeded, in their order, and the thread if all did. |
| `Engine.Engine.ReleaseAll` | src/queue.c:261-270 | Everything held goes, nothing else, and the engine is idle. |
| `Engine.Engine.ReleaseQueue` | src/queue.c:262-263 | Queue and handle are given back if held. |
| `Engine.Engine.Stop` | src/queue.c:273-295 | The lifecycle's stop step: thread, queue, handle, rules and sockets are given back, by the setting read now. |
| `Engine.Engine.Free` | src/queue.c:302-309 | A stop after which nothing is held. |
| `Engine.Engine.NoteSplit` | src/queue.c:44-49 | One more split, every other counter unchanged. |
| `Engine.Engine.NoteFake` | src/queue.c:50-55 | One more fake, every other counter unchanged. |
| `Engine.Engine.NoteDns` | src/queue.c:56-61 | One more forwarded answer, every other counter unchanged. |
| `Engine.Engine.NoteQuic` | src/queue.c:62-67 | One more QUIC drop, every other counter unchanged. |
| `Engine.TransitionAgrees` | src/queue.c:200-295 | Each start, stop or setting change keeps: the engine holds exactly what one start added to the kernel. |
| `Engine.RunAgrees` | src/queue.c:200-295 | Over every run, any acquisition failing in any start, a stopped engine has left sockets, chains, handles, queues and threads exactly as they were. |
| `Engine.SwitchedRunRestoresIff` | src/queue.c:288-291 | A start, a switch of IPv6 and a stop restore the kernel exactly under the condition of `Firewall.StopRestoresIff`. |
| `Dns.DnsHandle` | src/dns.c:135-170 | The original is dropped if and only if a worker was started on a job that captures it, resolver names included; every other case passes it. |
| `Dns.QueryUpstream` | src/dns.c:43-104 | The query leaves for the given server with the mark or not at all, and the socket is always closed. |
| `Dns.QueriesAreMarked` | src/dns.c:77-116 | Exactly the primary, if it can be reached, and then, if there is a fallback and the primary gave nothing, the fallback is asked, the worker's own query under the mark. |
| `Dns.Worker` | src/dns.c:106-133 | The fallback is asked exactly when there is one and the first resolver gave nothing; an answer is counted exactly when it was obtained, fits and left. |
| `Dns.DeliveredIff` | src/dns.c:111-123 | An answer reaches the wire if and only if the primary gave it, or gave nothing and the fallback did, the socket is open, the send works and a frame carries it, each call of the two queries named. |
| `Dns.JobAnswersItsPacket` | src/dns.c:118-159 | What is injected for a job answers the very packet the job captured. |
| `Dns.JobAsksForItsPacket` | src/dns.c:111-160 | What is asked for a job is the captured packet's payload, at the configured resolvers and port, 53 if none is set. |
| `Dns.ReplyComesFromResolver` | src/dns.c:118-123 | The injected answer parses as sent by the resolver the application addressed, payload untouched, checksums and every length field valid. |
| `Callback.PacketCb` | src/queue.c:96-140 | Verdict, frames, job and every counter are those of the packet's technique; a packet that does not parse is counted and passes. |
| `Callback.Dispatch` | src/queue.c:118-135 | The same for a parsed packet. |
| `Callback.HandledIff` | src/queue.c:118-135 | Exactly which packets each technique handles, by protocol, port, switch and octets; a technique switched off, another port or unknown data means the packet passes and nothing is sent, started or counted. |
| `Callback.QuicIffOctets` | src/queue.c:79-92 | A QUIC Initial is five or more octets, the first 0xC0 to 0xCF, with a version other than zero. |
| `Callback.DropsAreAccounted` | src/queue.c:111-136 | For every packet and course of events a drop is exactly one split, QUIC drop or DNS job, and a split is counted exactly when both real frames left. |
| `Callback.DroppedQueryIsAnsweredIff` | src/dns.c:106-170 | For every dropped DNS query: an answer reaches the wire and is counted if and only if a resolver gave it, in order, the socket is open, the send works and it has at most 2020 octets over IPv4 or 2000 over IPv6; what leaves parses as the resolver's answer and passes every check. |
| `Callback.FullAnswerIsLost` | src/dns.c:109-123 | A query is dropped, its 2048-octet answer obtained and, over either family, lost, with every call succeeding. |
| `Loop.InjectedIsMarked` | src/net.c:107-129 | With the mark on every injecting socket, whatever a handled packet causes is at most three packets, all marked. |
| `Loop.MarkedIsNotHandledAgain` | src/iptables.c:132-139 | A marked packet injects nothing again: the skip rule is first wherever injection is possible. |
| `Loop.RunDecreases` | src/queue.c:111-139 | With the mark the loop ends within an explicit number of rounds, in any order of packets, and each application packet is handled at most once. |
| `Loop.FakeIsLive` | src/tcp.c:78-82 | Without the mark, the fake of a packet that is rewritten is again a packet that is rewritten. |
| `Loop.DrainsIffMarked` | src/net.c:107-131 | The loop ends for every batch and course of events if and only if every injecting socket is marked. |
| `Loop.StartedLoopDrainsIff` | src/queue.c:207-214 | Around a started engine, whatever the settings are by now: if and only if no SO_MARK of that start failed on a socket it kept. |
| `System.NextKeeps` | src/queue.c:200-295 | Every call of every thread keeps the invariant that ties state, sockets, rules, counters and injections together. |
| `System.ExecKeeps` | src/queue.c:200-295 | So does every interleaving. |
| `System.InjectionOnlyUnderProtection` | src/queue.c:210-292 | In every interleaving, nothing is injected for a family unless its mark-skip rule is at the top of its chain. |
| `System.StatisticsConserved` | src/queue.c:44-136 | In every interleaving, drops are splits, QUIC drops and jobs; jobs are forwarded, failed or pending; no more was handled, or faked, than seen. |
| `System.RevertRestoresIff` | src/queue.c:288-291 | Whatever the threads did, the removal step restores both chains exactly under the condition of `Firewall.StopRestoresIff`. |
| `System.UnwindingRestoresIff` | src/queue.c:261-270 | In every run, wherever a failed start or a stop is unwound, the remaining calls end idle, without socket, thread or worker, and restore both chains exactly under the condition of `Firewall.StopRestoresIff`. |
| `System.StartEndsActiveOrIdle` | src/queue.c:200-271 | A start after any run and with any outcomes ends active, the rules on the chains it found, or, if anything at all failed, idle with everything as it found it. |
| `Simulation.CallbackIsSteps` | src/queue.c:96-140 | For every packet, settings and outcomes the callback is a run of the receive thread's steps with the same verdict, injections, job and statistics. |
| `Simulation.WorkerIsSteps` | src/dns.c:106-133 | A worker's outcome is a run of its steps with the same injection and counter. |
| `Simulation.StartIsSteps` | src/queue.c:200-271 | After any run, the engine object's start and the steps of a start agree on chains, setting, whether it is started and which families it can inject for. |
| `Simulation.StopIsSteps` | src/queue.c:273-295 | So do its stop and the steps of a stop. |
| `Simulation.LeadsIsRun` | src/queue.c:144-183 | What the simulation composes are runs of the receive thread alone. |

## Left out

- The window, tray, autostart, log and command line: only that they may change settings between calls is kept.
- The service probes at the end of `src/iptables.c` (`systemctl`, the stub resolver file): they change no state.
- Sockets, `sendto`, `recv`, `select`, fork and exec, libnetfilter_queue and pthread calls are outcomes with a stated effect; the bind warnings, buffer sizes and queue length have none.
- `Kernel.Host.DeleteRule`: deleting a rule that is present is taken to succeed, and nothing outside the program changes the chains meanwhile.
- `Packet.PacketParse`: the raw pointer, its alignment and aliasing are not modelled, the payload is a value; a negative payload length cannot occur.
- `Packet.TcpRoundTrip`: TCP options, the urgent pointer and the type of service are not preserved by the code and nothing is claimed of them; the IPv4 identification is arbitrary.
- IPv6 extension headers and IP fragments: the parser does not handle them.
- Long functions of the source are several members here, called in its order: the walk in `Tls`, the choice and the sends in `Tcp`, the insertion loop in `Iptables`, the IPv6 half of the injector in `Net`, the acquisitions and the release in `Engine`.
- `Delivery.RunPreservesStream`: stream length and window together do not exceed 2^32, the range in which sequence numbers can tell octets apart; closing the connection is not modelled.
- Whether a fake expires before the server: time to live distances and timing are not modelled, so fakes may arrive.
- `Dns.QueryUpstream`: whether a resolver's address parses, and as which family, is an outcome of the query.
- `Dns.Worker`: the 900 ms timeout and the source of the answer are outcomes; the job is freed by the source and garbage here.
- Statistics are unbounded; the 64-bit counters of the source would wrap.
- `Engine.Engine.constructor`: failing allocation is not modelled.
- `Engine.Engine.Stop`: waiting for the receive thread is one step; `recv_loop` may have ended before on its own, and the lifecycle says nothing about it being alive.
- `System.NextKeeps`: workers are detached by the source (`src/dns.c:167`) and a stop does not wait for them; runs in which a worker outlives the stop are excluded by the `Join` step. Installing and removing the rules are single steps, as no other engine thread exists then, and IPv6 is not switched inside start and stop, which run on the thread of the window (`src/gui/window.c:145`).
- `Loop.RunDecreases`: a worker's packets join the pending ones in the round that starts it, and may then be taken in any order.
