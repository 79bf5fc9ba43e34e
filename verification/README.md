# Verified model of the tc8-harness device under test and its audits

The harness drives a device under test (the *DUT service*) that contains complete protocol machines of its own, and
guards its test cases with static audits. This project models the parts of both whose correctness is an argument about
whole runs, and proves it in Dafny 4.11. `dafny verify dfyconfig.toml` checks everything.

Sockets, clocks, random draws, threads' schedules and the peer are the environment. They appear as parameters (a clock
reading, a drawn octet, a script of replies) or as the free choice of the next step of a state machine; nothing is
assumed about them beyond what a lemma's `requires` says. Checksums are arbitrary functions.

| files | what they model |
|---|---|
| `Arp`, `LinkLocalNetwork`, `LinkLocalTiming` | the IPv4 link-local claim protocol of RFC 3927 as a network of hosts, and what its timing assumptions are needed for |
| `LinkLocalHost`, `LinkLocalDefence`, `LinkLocalSchedule`, `LinkLocalProgress`, `LinkLocalClaim` | one host as four interleaved threads, what becomes of every frame it reads, what it sends, that it comes to an end, and one claim attempt |
| `LinkLocalSystem`, `LinkLocalRefinement`, `LinkLocalWitness` | any number of such hosts on one link, the proof that this system refines the network, and a run in which it commits |
| `DhcpOptions`, `DhcpMessage`, `DhcpFrame`, `DhcpFlavors`, `DhcpReply` | the DHCPv4 client's option walker, message builder, fault flavors and reply parser (RFC 2131, RFC 2132) |
| `DhcpLease`, `DhcpLifecycle`, `DhcpWire`, `DhcpBackoff` | the lease phase machine, the client's whole life with its lease, route and socket, the frames of that life, and the retransmission waits |
| `PendingRequests`, `EtsClientControl`, `EtsAvailability` | the availability-gated request buffer, the client control under concurrent calls, callbacks and destruction, and its gate against the service's own availability |
| `LifecycleSignal`, `Emission`, `StringField` | the lifecycle event channel, the emission scheduler, the dynamic string field |
| `QuiescenceAudit`, `QuiescenceRuns`, `QuiescenceReturns` | the quiescence audit of SCXML machines, its soundness over timed runs, and exactly when it is sound |
| `CapabilityGate`, `WorkflowEvents` | the two audits that search a cyclic graph |
| `Wrappers`, `FiniteSets` | shared helpers |

How the models are shaped. Code that updates fields or fills buffers is a class or a method with loops, proved against a
specification. Threads are state machines whose steps are the source's atomic actions, and theorems quantify over every
interleaving. The two long-running DHCP loops log what they do; a *watcher* says which logs are admissible, the loops are
proved to produce only such logs, and the laws are proved of every admissible log. A watcher is
written from the history of what was sent (times, addresses, counts); the lease watcher shares one variable with its
loop, the instant of the next retransmission (`Watch.due`).

The link-local theorems come in layers. `LinkLocalNetwork` proves uniqueness and stability of claims for hosts with one
phase each. `LinkLocalHost` has the threads, the flags and the joins of the source. `LinkLocalSystem` puts any number of
such hosts on one link, where a step of one thread of one host is one event. `LinkLocalRefinement` matches every event
of that system with steps of the network, and so carries both theorems down to the addresses that interleaved threads
commit. The assumptions are about time only: a window outlasts its round trip, no holder of an address is without a
responder for all three probes of a window on it (while taking the address up or giving it back), and a window's
listener is bound before its first probe. None can be dropped (`LinkLocalTiming`).

## Where the code and its documentation differ

The model follows the code. Each point is a lemma below where it affects a theorem.

- The lease phase machine multiplies the lease by seven in 32 bits before dividing by eight. T1 <= T2 holds exactly for
  leases up to 613566756 s; for longer ones, the infinite lease 0xFFFFFFFF included, T2 falls before T1
  (`DhcpLease.ScheduleOrdered`, `DhcpLease.InfiniteLeaseIsDisordered`).
- When the first renewal of an epoch goes out with exactly one nanosecond left before T2, half of it is zero, and a
  retransmission follows in the same turn of the loop. This is the only case (`DhcpLease.TwoRenewalsInOneTurn`), and the
  count of `DhcpLease.RenewalCount` allows for it.
- The DISCOVER back-off shifts by the attempt number and multiplies in signed 64-bit arithmetic; from a certain retry
  count on, within the type of the counter, this overflows (`DhcpBackoff.AllWaitsDefined`, `DhcpBackoff.LongRunsOverflow`).
- The client's documentation (dhcpv4_client.h, lines 92-93) has the ACK confirm the requested address. The code commits
  whatever address the ACK carries: a committed address is the requested one exactly when the ACK's is
  (`DhcpLifecycle.CommitTakesTheAck`), and there is a life in which it is not (`DhcpLifecycle.CommitsAnotherAddress`). The
  renewal laws are therefore about the ACK's address (`DhcpLifecycle.RequestsNameTheLease`).
- Section 9.6 of RFC 2132 gives the message-type option length one. The walker truncates a longer value, so such a
  message is accepted by its first byte (`DhcpReply.LongMessageTypeIsAccepted`).
- The string encoder takes any string. One with a NUL, or one whose payload length does not fit 32 bits, encodes to a
  payload that the field's own decoder refuses (`StringField.RoundTrip`).
- The quiescence audit presumes that a deciding state is entered once. A machine that leaves and re-enters it passes the
  audit and can be decided early by the first stay's timer (`QuiescenceReturns.ReenteredIsClean`,
  `QuiescenceReturns.ReentryShortensTheWindow`). For machines in which only deciding transitions wait for
  timers, the audit is right about every run if and only if no deciding state leads back to itself
  (`QuiescenceReturns.SoundIffNoReturn`).
- A conflict listener is spawned and not waited for, unlike the responder, so nothing in the code orders its bind before
  the first probe. The uniqueness theorems name this as an assumption.
- A comment at the link-local destructor calls the worker the only thread that drives the raw transmit socket; the
  responder sends on it too. The host model lets both send.

## Model

| member | source | states |
|---|---|---|
| `LinkLocalNetwork.UniqueClaims` | dut/dut_service/linklocal_autoconf.cpp:467-621 | in every run of any number of hosts on a broadcast link with arbitrary delays, provided a window outlasts its round trip, its listener is bound before its first probe, and no holder was without a responder for all its probes, no two hosts hold the same address: not while it is announced or defended, and not between closing the window and binding the responder or between stopping the responder and clearing the address |
| `LinkLocalNetwork.RunInv` | dut/dut_service/linklocal_autoconf.cpp:467-621 | every state of such a run keeps the inductive invariant: overlapping windows have not told each other anything yet, and a window on a held address has its probes or the defending Reply still on the way, or met the holder without a responder |
| `LinkLocalNetwork.CloseWindowInv` | dut/dut_service/linklocal_autoconf.cpp:498-518 | closing a timely window keeps uniqueness and the invariant |
| `LinkLocalNetwork.DeliverInv` | dut/dut_service/linklocal_autoconf.cpp:661-705 | delivering any copy to a prober with or without a listener, to a holder taking up or giving back its address, or to a claimant keeps the invariant |
| `LinkLocalNetwork.NoHolderAtClose` | dut/dut_service/linklocal_autoconf.cpp:813-831 | a window that closes in time closes on an address nobody holds |
| `LinkLocalNetwork.ClaimsAreStable` | dut/dut_service/linklocal_autoconf.cpp:798-831 | when a host's frames are delivered before it lets go, no run ever raises a cease flag: a probe draws a Reply, never a teardown |
| `LinkLocalTiming.LateProbesBreakUniqueness` | dut/dut_service/linklocal_autoconf.cpp:474-518 | the round-trip assumption is needed: without it a reachable state has two holders of one address |
| `LinkLocalTiming.DeafHandOverBreaksUniqueness` | dut/dut_service/linklocal_autoconf.cpp:515-531 | the assumption on holders without a responder is needed: without it a whole probe sequence falls between the first host's listener and its responder, and a reachable state has two holders of one address |
| `LinkLocalTiming.DeafReleaseBreaksUniqueness` | dut/dut_service/linklocal_autoconf.cpp:617-621 | it is needed for the release too: without it a reachable state has a second holder while the first has stopped its responder and not cleared its address |
| `LinkLocalTiming.UnboundListenerBreaksUniqueness` | dut/dut_service/linklocal_autoconf.cpp:626-632 | the listener assumption is needed: a window whose listener is not bound leads to two holders of one address |
| `LinkLocalRefinement.Refines` | dut/dut_service/linklocal_autoconf.cpp:411-621 | every state of every timely run of any number of hosts, each with its four threads interleaving freely, is matched at the end of a timely run of the network, and of a draining one if the run drains |
| `LinkLocalRefinement.NextSim` | dut/dut_service/linklocal_autoconf.cpp:411-857 | every event (a step of one thread, or the loss of a copy that finds no socket) is matched by steps of the network, which are timely because the event is |
| `LinkLocalRefinement.CommittedAddressesAreUnique` | dut/dut_service/linklocal_autoconf.cpp:515-621 | in every such run no two hosts ever have the same address in `committed_address_be_` |
| `LinkLocalRefinement.NoConflictInHand` | dut/dut_service/linklocal_autoconf.cpp:790-812 | when a host's frames are delivered before it lets go of the address, no responder is ever about to raise the cease flag |
| `LinkLocalRefinement.ClaimsAreKept` | dut/dut_service/linklocal_autoconf.cpp:515-621 | on such a link a committed address changes only when `abort` clears it: no claim is ever given up |
| `LinkLocalSystem.NextInv` | dut/dut_service/linklocal_autoconf.cpp:411-857 | every event keeps the invariant of every host, and a frame a responder works on is a copy that is still undelivered |
| `LinkLocalSystem.LinkNeverBlocks` | dut/dut_service/linklocal_autoconf.cpp:411-857 | a thread step that reads no frame is possible on the link whenever it is for the host alone, with the same outcome |
| `LinkLocalSystem.EveryFrameIsLawful` | dut/dut_service/linklocal_autoconf.cpp:105-285 | whatever any host sends is a Request without a sender address for the one it probes for, an announcement of the address it has committed at that moment, or a Reply under it |
| `LinkLocalWitness.SomebodyCommits` | dut/dut_service/linklocal_autoconf.cpp:411-531 | the assumptions can be met: from every initial host some timely and draining run starts the machine, sends three probes, closes the window and commits the address |
| `LinkLocalHost.RunInv` | dut/dut_service/linklocal_autoconf.cpp:411-621 | every interleaving of worker, listener, responder and controller keeps the host invariant |
| `LinkLocalHost.AddressConstantWhileDefended` | dut/dut_service/linklocal_autoconf.cpp:515-531 | while a responder runs, the committed address is a link-local address and never changes |
| `LinkLocalHost.RepliesDefendTheClaim` | dut/dut_service/linklocal_autoconf.cpp:790-831 | every Reply answers a Request of another host for the committed address that does not itself use it, and carries that address |
| `LinkLocalHost.CeaseFlag` | dut/dut_service/linklocal_autoconf.cpp:798-812 | the cease flag is lowered only when no responder runs, and raised only by a responder that has in hand another host's frame that uses the committed address; that every such frame raises it is `LinkLocalDefence.EveryFrameIsHandled` |
| `LinkLocalHost.ConflictNeverForgotten` | dut/dut_service/linklocal_autoconf.cpp:600-621 | a conflict seen in a claim keeps the cease flag up for as long as that claim stands |
| `LinkLocalDefence.EveryFrameIsHandled` | dut/dut_service/linklocal_autoconf.cpp:750-857 | in every interleaving every frame a responder reads is taken to its end: its own frames are dropped; a frame of another host that uses the committed address raises the cease flag and marks the claim with the third step of the responder after reading it; another host's Request for the address is answered under that address with the fourth; nothing else leaves a trace |
| `LinkLocalDefence.RivalForfeits` | dut/dut_service/linklocal_autoconf.cpp:661-705 | a frame read in a window forfeits it exactly if another host uses the tentative address or probes for it; any other changes nothing |
| `LinkLocalDefence.ForfeitedIsNotClaimed` | dut/dut_service/linklocal_autoconf.cpp:474-513 | in every interleaving a forfeited window never becomes a claim: nothing is committed until the worker has ended or picks again |
| `LinkLocalDefence.DeliveryToDefender` | dut/dut_service/linklocal_autoconf.cpp:798-831 | in the network a frame delivered to a defender of an address raises its cease flag exactly if another host uses that address, and draws exactly one Reply exactly if another host asks for it without using it |
| `LinkLocalDefence.DeliveryToWindow` | dut/dut_service/linklocal_autoconf.cpp:688-702 | in the network a frame delivered to a window raises its conflict flag exactly if the listener is bound and another host uses the address or probes for it |
| `LinkLocalSchedule.ThreeProbesBeforeAClaim` | dut/dut_service/linklocal_autoconf.cpp:474-518 | in every interleaving a window that ends in a claim has sent exactly three probes, for the address then claimed |
| `LinkLocalSchedule.TwoAnnouncements` | dut/dut_service/linklocal_autoconf.cpp:532-577 | in every interleaving a claim sends at most two announcements, and has sent exactly two once it is steady and uncontested |
| `LinkLocalSchedule.RateIsLimited` | dut/dut_service/linklocal_autoconf.cpp:428-513 | in every interleaving, once ten windows of a search have been given up for a conflict, the worker comes to another pick only out of the long wait |
| `LinkLocalProgress.CeaseEndsTheClaim` | dut/dut_service/linklocal_autoconf.cpp:600-621 | with the cease flag up every worker step brings the claim strictly closer to its end, no other step moves the worker, no step lowers the flag before, and a responder that is waited for comes closer to its end with each of its steps |
| `LinkLocalProgress.CeasedClaimEnds` | dut/dut_service/linklocal_autoconf.cpp:600-621 | in every run the steps of the worker in a claim that has seen a conflict, and of the responder while the worker joins it, are together bounded by a number known when the flag went up |
| `LinkLocalProgress.CeasedClaimNeverStalls` | dut/dut_service/linklocal_autoconf.cpp:600-621 | and in each of its states one of those steps can be taken, so a conflict ends its claim unless the machine is stopped first |
| `LinkLocalHost.NoClaimIsGivenUpWithoutCause` | dut/dut_service/linklocal_autoconf.cpp:515-621 | in every run the worker gives an address up only when the responder of that very claim has seen a conflict |
| `LinkLocalProgress.AbortReturns` | dut/dut_service/linklocal_autoconf.cpp:64-82 | however the threads interleave, the steps taken while an abort is under way are bounded by a number known when the stop flag was set |
| `LinkLocalProgress.AbortNeverStalls` | dut/dut_service/linklocal_autoconf.cpp:64-82 | while an abort is under way some thread can move: the controller, the thread it joins, or the thread that one joins |
| `LinkLocalProgress.AbortLeavesNothing` | dut/dut_service/linklocal_autoconf.cpp:64-82 | after an abort no thread runs and no address is committed |
| `LinkLocalClaim.PickAddress` | dut/dut_service/linklocal_autoconf.cpp:89-99 | a picked address lies in 169.254.1.0 to 169.254.254.255 |
| `LinkLocalClaim.PickCoversTheRange` | dut/dut_service/linklocal_autoconf.cpp:89-99 | every claimable address comes from exactly one pair of draws |
| `LinkLocalClaim.ProbeWindow` | dut/dut_service/linklocal_autoconf.cpp:474-496 | one to three probes, the number fixed by when the conflict is first read |
| `LinkLocalClaim.ClaimAddress` | dut/dut_service/linklocal_autoconf.cpp:428-513 | every pick comes exactly when the windows before it are through and, from the eleventh on, a silence has been kept before each; so by the n-th pick at least (n - 10) rate-limit intervals have passed; the attempt ends with the first window that stays clean to its end, and claims exactly that window's address |
| `LinkLocalClaim.FirstTenWithoutSilence` | dut/dut_service/linklocal_autoconf.cpp:428-460 | the first ten picks follow one another without any silence |
| `DhcpOptions.FindDhcpOption` | dut/dut_service/dhcpv4_client.cpp:154-174 | on arbitrary bytes the walker stays inside the region and returns the first matching field, truncated to the caller's buffer, or nothing |
| `DhcpOptions.FieldsOfEncoding` | dut/dut_service/dhcpv4_client.cpp:154-174 | reading an encoded option list back, with pads and anything after the end mark, gives that list |
| `DhcpOptions.EncodingOfFields` | dut/dut_service/dhcpv4_client.cpp:154-174 | arbitrary bytes are the encoding of the fields the walker sees, followed by a point where it stops |
| `DhcpOptions.FramingCodesAreNeverFound` | dut/dut_service/dhcpv4_client.cpp:154-174 | the pad and end codes are never found |
| `DhcpOptions.LookupIsMember` | dut/dut_service/dhcpv4_client.cpp:154-174 | a lookup yields a field of the list, and nothing only when no field has the code |
| `DhcpReply.LongMessageTypeIsAccepted` | dut/dut_service/dhcpv4_client.cpp:995-1003 | every reply for this transaction whose message-type option is longer than one byte is accepted by the first byte of that option |
| `DhcpOptions.MessageType` | dut/dut_service/dhcpv4_client.cpp:995-1003 | the message type is the first byte of option 53, absent when the option is absent or empty |
| `DhcpOptions.ExtractRouterFrom` | dut/dut_service/dhcpv4_client.cpp:1045-1052 | a region with a router replaces the current one, any other leaves it |
| `DhcpOptions.ExtractRouter` | dut/dut_service/dhcpv4_client.cpp:1044-1068 | under option overload the router is the one of the last region (options, file, sname) that names one |
| `DhcpOptions.RouterIsTheLast` | dut/dut_service/dhcpv4_client.cpp:1044-1068 | the router taken is that of the last area that has one, read from its option 3 (`RouterIsOption3`) |
| `DhcpOptions.NoRouter` | dut/dut_service/dhcpv4_client.cpp:1044-1068 | and none is taken exactly if no area has one |
| `DhcpMessage.EmitDhcpMessage` | dut/dut_service/dhcpv4_client.cpp:308-625 | the in-place builder stays inside its buffer and produces exactly the specified frame, lengths and checksums included |
| `DhcpMessage.WriteBootp` | dut/dut_service/dhcpv4_client.cpp:512-559 | the BOOTP body is written behind the headers and touches nothing else |
| `DhcpMessage.WriteOptions` | dut/dut_service/dhcpv4_client.cpp:561-621 | the option area is written behind the body and touches nothing else |
| `DhcpMessage.ConformantOptions` | dut/dut_service/dhcpv4_client.cpp:561-621 | on a conformant message the walker finds options 53 and 55, 50 and 54 exactly when their fields are non-zero, and no other code |
| `DhcpMessage.FieldsOfArea` | dut/dut_service/dhcpv4_client.cpp:561-621 | the option area of every message, corrupted ones included, parses back into the fields it was built from |
| `DhcpFlavors.UntargetedPhaseIsConformant` | dut/dut_service/dhcpv4_client.cpp:321-459 | the table of targeted phases is right about the 23 separate phase tests: outside its targeted phase a flavor's frame equals the conformant one byte for byte |
| `DhcpFlavors.FlavorShowsExactlyOnTarget` | dut/dut_service/dhcpv4_client.cpp:321-459 | on each of the five messages a flavor changes the frame if and only if it targets that phase and the field does not hold its value already |
| `DhcpFrame.FrameFields` | dut/dut_service/dhcpv4_client.cpp:460-625 | the addresses, transaction id, hardware address, cookie and options of every message stand at their offsets in its frame |
| `DhcpFrame.FrameDetermines` | dut/dut_service/dhcpv4_client.cpp:460-625 | a complete message is determined by its frame: no other message, complete or not, has the same one |
| `DhcpFrame.FrameLengths` | dut/dut_service/dhcpv4_client.cpp:460-511 | the two length fields, high byte first, count the datagram from the IP and from the UDP header on |
| `DhcpFrame.FrameChecksums` | dut/dut_service/dhcpv4_client.cpp:460-625 | the two checksum fields, high byte first, hold the checksums of what they cover in the frame itself with the field at zero |
| `DhcpFlavors.FlavorPutsItsBytes` | dut/dut_service/dhcpv4_client.cpp:321-459 | on a message of its phase every flavor leaves its own bytes at its own place in the frame |
| `DhcpFlavors.HeadersDifferOnlyInSlot` | dut/dut_service/dhcpv4_client.cpp:321-459 | up to the options a flavor changes no byte outside its own field and the length and checksum fields |
| `DhcpFlavors.OptionsDifferOnlyInSlot` | dut/dut_service/dhcpv4_client.cpp:321-459 | a flavor changes no option but its own |
| `DhcpReply.ParseReply` | dut/dut_service/dhcpv4_client.cpp:975-1075 | a datagram is accepted exactly when it passes every gate, and what is returned is what its fields and options say |
| `DhcpReply.ServerReplyIsRead` | dut/dut_service/dhcpv4_client.cpp:975-1075 | of the replies a server builds for this transaction and hardware address exactly those whose message-type option begins with the awaited type are accepted, and from all of them address and options are read back exactly, overload included |
| `DhcpReply.GateIsExact` | dut/dut_service/dhcpv4_client.cpp:975-1007 | of all datagrams of the layout exactly those are taken that are replies, under the transaction id waited for, to the client's hardware address, with the magic cookie and of the awaited type |
| `DhcpReply.ShortIsRefused` | dut/dut_service/dhcpv4_client.cpp:975-980 | nothing shorter than 244 bytes is taken |
| `DhcpReply.LeaseIsRead` | dut/dut_service/dhcpv4_client.cpp:1008-1043 | the lease read from a server's reply is the number in option 51, high byte first, and the server that of option 54 |
| `DhcpReply.OwnMessagesAreNotReplies` | dut/dut_service/dhcpv4_client.cpp:975-1007 | no frame the client sends, under any flavor, is ever taken for a reply |
| `DhcpLease.ScheduleOrdered` | dut/dut_service/dhcpv4_client.cpp:1403-1413 | T1 <= T2 exactly for leases up to 613566756 s, where T2 is seven eighths of the lease; T2 never exceeds the expiry |
| `DhcpLease.InfiniteLeaseIsDisordered` | dut/dut_service/dhcpv4_client.cpp:1403-1413 | the infinite lease puts T2 at about a quarter of T1 |
| `DhcpLease.RunBoundPhaseMachine` | dut/dut_service/dhcpv4_client.cpp:1357-1533 | for every script of ticks and replies the machine's trace is the one the watcher prescribes, and it returns to INIT exactly if some turn finds the lease then in force run out or is answered with a NAK, said on the ticks alone |
| `DhcpLease.TakeTurn` | dut/dut_service/dhcpv4_client.cpp:1445-1530 | a turn is the last exactly on expiry or a message of type 6; after a message of type 5 with a lease time the next runs on that lease, from the instant it was read, with its server if it names one; otherwise nothing changes |
| `DhcpLease.OneTrace` | dut/dut_service/dhcpv4_client.cpp:1445-1530 | a call has one trace only: of any two the watcher accepts, the shorter begins the longer |
| `DhcpLease.Transmit` | dut/dut_service/dhcpv4_client.cpp:1447-1475 | one turn sends exactly what is owed at that instant and leaves nothing owed |
| `DhcpLease.TraceLaw` | dut/dut_service/dhcpv4_client.cpp:1445-1530 | in every epoch of every trace renewals lie in [T1, T2) and rebinds in [T2, expiry) after the first, each no sooner than half the time then left, a rebind only after a renewal, on the lease in force at that turn |
| `DhcpLease.RequestsFitTheLease` | dut/dut_service/dhcpv4_client.cpp:1447-1475 | every renewal goes to the server whose lease is in force in its turn, no sooner than half of it; every rebind no sooner than seven eighths, as 32 bits have them |
| `DhcpLease.NothingIsLate` | dut/dut_service/dhcpv4_client.cpp:1447-1475 | when a turn ends a renewal has gone out if T1 has come and a rebind if T2 has come, and no retransmission is due: each goes out in the first turn at or after its instant |
| `DhcpLease.RenewalCount` | dut/dut_service/dhcpv4_client.cpp:1427-1475 | under a strictly increasing clock an epoch sends n >= 2 renewals only if T2 - T1 > 2^(n-2), that is at most 1 + ceil(log2(T2 - T1)) |
| `DhcpLease.TwoRenewalsInOneTurn` | dut/dut_service/dhcpv4_client.cpp:1447-1475 | a renewal is followed by a second one with nothing in between if and only if it is the first of its epoch and goes out one nanosecond before T2 |
| `DhcpLease.TurnPastExpiryIsLast` | dut/dut_service/dhcpv4_client.cpp:1476-1490 | the first turn at or past the expiry never listens again and can only return to INIT |
| `DhcpLease.RequestsCarry` | dut/dut_service/dhcpv4_client.cpp:658-691 | every renewing and rebinding REQUEST carries the cycle's id and the committed address |
| `DhcpLifecycle.Dhcpv4Client.RunLoop` | dut/dut_service/dhcpv4_client.cpp:1081-1355 | for every script the worker's log is admissible, its fields are what the log says, it ends with no socket open and no route owed, stopped or without a socket, and the cycles begun are exactly those that open and whose predecessors all bound and were then declined or lost their lease |
| `DhcpLifecycle.Dhcpv4Client.RunCycle` | dut/dut_service/dhcpv4_client.cpp:1104-1336 | one turn of the outer loop goes round again exactly if it binds and then finds its address taken or loses its lease, and then with lease, router and socket given up; otherwise it ends stopped |
| `DhcpLifecycle.Dhcpv4Client.UseLease` | dut/dut_service/dhcpv4_client.cpp:1257-1336 | a bound cycle starts over exactly on a conflict seen by an armed probe or on a lost lease; if it is not declined it holds the lease on the ACK's terms from the cycle's own clock |
| `DhcpLifecycle.Dhcpv4Client.Select` | dut/dut_service/dhcpv4_client.cpp:1118-1226 | the retry loop binds to the first attempt that succeeds before any stop, after exactly that many DISCOVERs, and to none if there is none |
| `DhcpLifecycle.Dhcpv4Client.TryOnce` | dut/dut_service/dhcpv4_client.cpp:1128-1226 | one attempt sends a DISCOVER and ends bound to its ACK exactly when OFFER and ACK arrive and no stop is seen after either; then it has logged DISCOVER, OFFER, REQUEST, ACK, commit and route in this order |
| `DhcpLifecycle.Dhcpv4Client.Bind` | dut/dut_service/dhcpv4_client.cpp:1206-1224 | binding commits the ACK's address and records its router exactly when the host takes the route |
| `DhcpLifecycle.Dhcpv4Client.ProbeAddress` | dut/dut_service/dhcpv4_client.cpp:1257-1293 | the address is declined exactly on a conflict seen after an armed probe, and announced otherwise |
| `DhcpLifecycle.Dhcpv4Client.HoldLease` | dut/dut_service/dhcpv4_client.cpp:1315-1319 | the lease is held with the committed address, the ACK's server and lease, and the cycle's clock and replies; the socket is closed after it; and the client restarts exactly if it is not being stopped and the lease is lost |
| `DhcpLifecycle.Dhcpv4Client.Release` | dut/dut_service/dhcpv4_client.cpp:1321-1336 | lease and recorded router are cleared and a recorded router is handed back once |
| `DhcpLifecycle.Dhcpv4Client.Abort` | dut/dut_service/dhcpv4_client.cpp:199-218 | afterwards lease and recorded router are zero, over the whole log the removed routers are the recorded ones in order, and as many sockets were closed as opened |
| `DhcpLifecycle.Dhcpv4Client.StartClient` | dut/dut_service/dhcpv4_client.cpp:192-197 | starting again after any earlier life keeps the log admissible and begins exactly the cycles `RunLoop` says |
| `DhcpLifecycle.Balanced` | dut/dut_service/dhcpv4_client.cpp:1103-1355 | in every admissible log a socket is open exactly while a cycle runs and closed once, and the recorded routers are the removed ones followed by the one on record or owed |
| `DhcpLifecycle.OneTransactionPerCycle` | dut/dut_service/dhcpv4_client.cpp:1103-1116 | every message of a cycle carries the id drawn when its socket was opened |
| `DhcpLifecycle.DiscoversAreBounded` | dut/dut_service/dhcpv4_client.cpp:1118-1181 | a cycle sends at most `retry_count` DISCOVERs |
| `DhcpLifecycle.DeclineAnswersConflict` | dut/dut_service/dhcpv4_client.cpp:1257-1265 | a DECLINE directly follows a conflict that directly follows a probe of the declined address |
| `DhcpLifecycle.UsedOnlyAfterProbing` | dut/dut_service/dhcpv4_client.cpp:1257-1319 | a probing client that is not being stopped holds a lease only directly after announcing its address, and announces it only directly after probing for it or finding no socket to probe with |
| `DhcpLifecycle.RequestsNameTheLease` | dut/dut_service/dhcpv4_client.cpp:1315-1317 | every renewing or rebinding REQUEST follows an ACK of its own cycle, names the address that ACK granted and carries that cycle's id |
| `DhcpLifecycle.CommitTakesTheAck` | dut/dut_service/dhcpv4_client.cpp:1184-1210 | in every admissible log a commit directly follows an ACK that directly follows a REQUEST; it commits the ACK's address, which is the requested one if and only if the ACK says so |
| `DhcpLifecycle.CommitsAnotherAddress` | dut/dut_service/dhcpv4_client.cpp:1184-1210 | a life of the client that asks for one address and commits another, as its ACK has it |
| `DhcpWire.FrameSays` | dut/dut_service/dhcpv4_client.cpp:627-710 | the frame of every conformant message carries its addresses, id and hardware address, its message type, and options 50 and 54 exactly when it has them |
| `DhcpWire.ReacquiringFrames` | dut/dut_service/dhcpv4_client.cpp:658-691 | in every life of the client a renewing or rebinding REQUEST carries on the wire, as source and as ciaddr, the address an ACK of its own cycle granted, that cycle's id, and neither option 50 nor option 54 |
| `DhcpWire.SelectingFrames` | dut/dut_service/dhcpv4_client.cpp:627-656 | in every life DISCOVER, SELECTING REQUEST and DECLINE are broadcast without source or ciaddr under the id of their cycle, the latter two with options 50 and 54 |
| `DhcpBackoff.BaseDoubles` | dut/dut_service/dhcpv4_client.cpp:1137-1142 | each wait is twice the previous one up to the cap, where it stays |
| `DhcpBackoff.WaitStaysNearBase` | dut/dut_service/dhcpv4_client.cpp:1143-1151 | the jittered wait is never negative and stays within the spread of its base |
| `DhcpBackoff.AllWaitsDefined` | dut/dut_service/dhcpv4_client.cpp:1137-1152 | all waits of a cycle are free of overflow exactly when first * 2^(retry_count - 1) and the two extreme sums fit 64 bits |
| `DhcpBackoff.LongRunsOverflow` | dut/dut_service/dhcpv4_client.cpp:1137-1142 | the 64th attempt overflows whatever the parameters |
| `PendingRequests.RequestBuffer.Submit` | dut/dut_service/pending_requests.h:37-43 | a Request for an available pair is sent, any other joins the end of its pair's queue |
| `PendingRequests.RequestBuffer.OnAvailable` | dut/dut_service/pending_requests.h:47-56 | a pair's whole queue goes to the sender in order and the queue is dropped |
| `PendingRequests.ExactlyOnceInOrder` | dut/dut_service/pending_requests.h:37-56 | over every history of calls and for every pair, what was submitted while unavailable is what was sent late followed by what is parked, and what was submitted while available is what was sent at once, both in order |
| `PendingRequests.FateOfRequest` | dut/dut_service/pending_requests.h:37-56 | a Request goes out at once exactly if it was submitted as available, and is parked or goes out late exactly if it was submitted as unavailable |
| `PendingRequests.LateIsAfterFlush` | dut/dut_service/pending_requests.h:47-56 | a parked Request has seen no flush of its pair since its submission, and one that went out late has |
| `EtsAvailability.GateIsAvailability` | dut/dut_service/ets_client_control.cpp:256-292 | in every run the Request of a call went out at once if and only if the service had its pair available at the moment the call asked; otherwise it is parked, or went out after a later flush of that pair; and it never goes to another pair |
| `EtsAvailability.NothingBeforeSubmitting` | dut/dut_service/ets_client_control.cpp:256-292 | before a call has submitted nothing of it is parked or sent |
| `EtsClientControl.TeardownIsSafe` | dut/dut_service/ets_client_control.cpp:54-72 | in every interleaving, once the destructor is past its barrier no callback touches the control's members and no call is under way |
| `EtsClientControl.NoDeadlock` | dut/dut_service/ets_client_control.cpp:304-337 | in every run, while any thread has begun and not ended, one of those threads can move |
| `EtsClientControl.ThreadsComeToAnEnd` | dut/dut_service/ets_client_control.cpp:54-72 | the threads of any run take at most six steps per call, per dispatched callback and for the destructor |
| `EtsClientControl.NothingIsStranded` | dut/dut_service/ets_client_control.cpp:256-292 | in every run, while the control lives, an available pair with something parked has a flush queued or running, even if the service appears between a call's availability query and its parking |
| `EtsClientControl.EveryRequestOnce` | dut/dut_service/ets_client_control.cpp:256-292 | in every run each call submits exactly once, and for every pair what was submitted as available is what was sent at once and what was submitted as unavailable is what was sent late followed by what is parked; that a call submits as the service stood when it asked is `EtsAvailability.GateIsAvailability` |
| `EtsClientControl.RunSound` | dut/dut_service/ets_client_control.cpp:310-337 | every state of every run keeps the lock, flag, debt and submission invariants |
| `LifecycleSignal.Channel.Post` | dut/dut_service/lifecycle_signal.h:43-49 | an event joins the end of the queue and the waker is raised |
| `LifecycleSignal.Channel.Drain` | dut/dut_service/lifecycle_signal.h:57-61 | the whole queue is taken and the waker lowered |
| `LifecycleSignal.Dispatcher.OnReadable` | dut/dut_service/lifecycle_dispatcher.h:39-46 | the hooks of everything queued run in posting order |
| `LifecycleSignal.NoLostWakeup` | dut/dut_service/lifecycle_signal.h:43-61 | for any number of producers in every interleaving, hooks run, batch and queue together are the posts in lock order, and a non-empty queue with nobody about to raise the waker or take the queue means the waker is raised |
| `LifecycleSignal.EverythingIsDispatched` | dut/dut_service/lifecycle_dispatcher.h:39-46 | once the producers are done signalling, the consumer alone runs the hook of every event posted, in order, and comes to rest |
| `Emission.DefaultTriggerPolicy.OnTrigger` | dut/dut_service/ets_emission.cpp:8-20 | a trigger replaces its source's arm and no other |
| `Emission.DefaultTriggerPolicy.Due` | dut/dut_service/ets_emission.cpp:22-47 | exactly the due sources are returned, each once, their arms move on or end, and all others stay |
| `Emission.NeverTriggeredNeverFires` | dut/dut_service/ets_emission.cpp:22-47 | a source that was never triggered never fires, whatever the history |
| `Emission.FiresAreBounded` | dut/dut_service/ets_emission.cpp:8-47 | per trigger and for every polling schedule: at most one beat for a period or window that is not positive, otherwise at most ceil(duration / period) + 1 |
| `Emission.FiresWhenPolled` | dut/dut_service/ets_emission.cpp:8-47 | a triggered source fires at the first poll at or after the start of its window; after a beat it is silent for good if it does not repeat or that beat came at the end of the window or later, and otherwise fires again at the latest at the first poll a period after it |
| `Emission.BeatsKeepTime` | dut/dut_service/ets_emission.cpp:82-97 | after n beats a free-running source's payload is n modulo 256 and its next beat is scheduled at prime + (n + 1) periods or later, exactly then if no poll was ever a full period late |
| `Emission.BeatIsOnTime` | dut/dut_service/ets_emission.cpp:88-96 | without such lateness the n-th beat is sent at the first poll at or after prime + n periods and less than a period after it |
| `Emission.EmissionController.Step` | dut/dut_service/ets_emission.cpp:82-104 | one pass moves every free-running source on and fires every due known source exactly once with its own counter |
| `StringField.EncodeUtf8Dynamic` | dut/dut_service/ets_string_field.h:42-56 | the payload is length, byte-order mark, characters and NUL, the length reduced to 32 bits |
| `StringField.DecodeUtf8Dynamic` | dut/dut_service/ets_string_field.h:59-74 | decoding returns the one encodable string whose encoding the payload is, and refuses every payload that is none |
| `StringField.RoundTrip` | dut/dut_service/ets_string_field.h:42-74 | encode-then-decode is the identity exactly on NUL-free strings whose payload length fits 32 bits; every other string's encoding is refused |
| `StringField.PayloadLayout` | dut/dut_service/ets_string_field.h:42-56 | byte by byte: the count of what follows, high byte first, the byte-order mark, the characters, a NUL |
| `StringField.EncodeIsInjective` | dut/dut_service/ets_string_field.h:42-56 | distinct strings, encodable or not, have distinct payloads |
| `StringField.Utf8DynamicField.Get` | dut/dut_service/ets_string_field.h:92-95 | the reply carries the stored value |
| `StringField.Utf8DynamicField.Set` | dut/dut_service/ets_string_field.h:97-109 | a well-formed request is stored, echoed and notified exactly if it changes the value; a malformed one is answered with an error and changes and notifies nothing |
| `StringField.Utf8DynamicField.Reset` | dut/dut_service/ets_string_field.h:113-116 | a reset stores and notifies nothing |
| `StringField.NotificationsAreTheChanges` | dut/dut_service/ets_string_field.h:97-109 | over every sequence of sets the notified payloads are those of the initial value and the accepted strings without immediate repetitions, minus the initial one |
| `QuiescenceAudit.SentEvents` | tools/verdict_drift_audit.py:166-176 | exactly the events sent with a window, and exactly those sent with zero delay |
| `QuiescenceAudit.ReachKinds` | tools/verdict_drift_audit.py:161-186 | every target has exactly the kinds of the transitions that reach it |
| `QuiescenceAudit.WindowDelays` | tools/verdict_drift_audit.py:242-264 | every target has exactly the lengths, readable or not, of the windows behind the transitions that reach it |
| `QuiescenceAudit.ForeignWindowTimers` | tools/verdict_drift_audit.py:267-302 | every target has exactly the deciding transitions whose timer another state arms too, each with whether its own state arms it |
| `QuiescenceAudit.QuiescenceFindings` | tools/verdict_drift_audit.py:311-368 | a finding is reported exactly when its condition on verdicts, bounds and the three maps holds |
| `QuiescenceAudit.Audit` | tools/verdict_drift_audit.py:311-368 | exactly the findings due are reported, said on the document, the roles and the declared bounds themselves: a window is reported exactly if it is unreadable or shorter than the listen time, or than the literal, that the final declares; and nothing is reported exactly when every bound belongs and parses, every `observed_quiescence` final is reached, only by windows that are readable, at least as long as its bound and its own state's, and no other absence verdict has a doubly armed timer |
| `QuiescenceAudit.LengthsAreOfWindows` | tools/verdict_drift_audit.py:242-264 | the lengths judged for a final are those of the windows whose event takes some transition into it |
| `QuiescenceRuns.CleanAuditIsSound` | tools/verdict_drift_audit.py:311-368 | after a clean audit, in every timed run of a disciplined machine, an `observed_quiescence` final reached from a state on its first visit declares a readable bound and is reached only after that state was active for the listen time, or for the literal, that it declares |
| `QuiescenceRuns.DecidingTimerIsOwn` | tools/verdict_drift_audit.py:267-302 | a timer that takes the machine into a secured final was armed by the active state at its entry and ran at least the bound |
| `QuiescenceReturns.WithoutReturnSound` | tools/verdict_drift_audit.py:267-302 | a condition on the document: if no chain of transitions leads from a deciding state back to itself, the final is reached only after the bound in every run |
| `QuiescenceReturns.ReturnIsUnsound` | tools/verdict_drift_audit.py:267-302 | if events of the runner can lead a deciding state back to itself, some run reaches the final with no stay at all |
| `QuiescenceReturns.SoundIffNoReturn` | tools/verdict_drift_audit.py:267-302 | for machines in which only deciding transitions wait for timers and the final is final, the audit is right about every run if and only if no deciding state leads back to itself |
| `QuiescenceReturns.ReenteredIsClean` | tools/verdict_drift_audit.py:311-368 | a machine that re-enters its deciding state passes the audit |
| `QuiescenceReturns.ReentryShortensTheWindow` | tools/verdict_drift_audit.py:267-302 | that machine has a run that reaches the final short of its bound |
| `CapabilityGate.DemandsOf` | tools/capability_gate_audit.py:272-294 | with any visited set shared on entry, the search adds only reachable helpers, collects exactly their bits and the text's, and leaves out nothing that an added helper mentions |
| `CapabilityGate.Demands` | tools/capability_gate_audit.py:272-294 | from an empty visited set the bits are exactly those of the text and of every helper reachable by name, on cyclic graphs too |
| `CapabilityGate.ResolveDeclared` | tools/capability_gate_audit.py:339-347 | the same for bases, starting from a name that may be visited or unknown |
| `CapabilityGate.Declared` | tools/capability_gate_audit.py:339-347 | from an empty visited set a base declares exactly the bits of every base reachable from it, itself included |
| `WorkflowEvents.MakeCallers` | tools/workflow_runner_audit.py:237-240 | a workflow's callers are exactly the workflows that call it |
| `WorkflowEvents.EffectiveEvents` | tools/workflow_runner_audit.py:212-232 | from an empty `seen` the computation, cut at repeated names, yields exactly the events that reach the workflow by some call chain |
| `WorkflowEvents.EffectiveIsRaised` | tools/workflow_runner_audit.py:212-232 | the effective events of a workflow are exactly those that reach it by some call chain of any length, so the cut loses nothing |
| `WorkflowEvents.RaisesThrough` | tools/workflow_runner_audit.py:221-224 | closure: an event that reaches a caller reaches its callee |
| `WorkflowEvents.RaisedIsLeast` | tools/workflow_runner_audit.py:221-232 | every family of event sets closed in this way contains the effective events |
| `WorkflowEvents.Analyze` | tools/workflow_runner_audit.py:235-258 | exactly the violating workflows are reported, and none just when every event that reaches an unproven job is reserved to maintainers |

## Left out

- Socket, ioctl, netlink and poll calls: environment; only whether they succeed and what they deliver is modelled.
- Checksum arithmetic: the message builder is proved for arbitrary checksum functions of the bytes they cover.
- Fault flavors in the link-local and timing proofs: fixed to none; the message flavors are covered by `DhcpFlavors`.
- The link-local fallback that starts after a failed DHCP exchange, and its DISCOVER: one call before the claim loop.
- `releaseService`, subscriptions and response correlation of the client control: the no-strand theorem is about pairs that stay requested.
- vsomeip itself: availability changes, dispatches and withdrawals are free environment steps.
- The installed route as part of the host's table: recorded installs and removals balance, an existing route counts as recorded.
- Sleeps between attempts and before restarts: they change no field and send nothing; their lengths are `DhcpBackoff`.
- XML, YAML, JSON and regular expressions of the audits: the models start from parsed documents, call graphs and name sets.
- `resolve_base_bodies`, the ratchet file and the report texts of the audits: concatenation and output.
- The order and multiplicity of entries in the audit's lists: only membership decides a finding, and membership is what is stated.
- Nested and parallel SCXML states, guards and data: runs are those of a flat machine in which any event may be ignored.
- Server role, echo methods, extensions, generators and continuous-integration scripts: plumbing with only easy claims.
- LinkLocalNetwork.UniqueClaims: needs its three timing assumptions; `LinkLocalTiming` shows that none can be dropped.
- LinkLocalRefinement.CommittedAddressesAreUnique: under the same three assumptions, stated on the system.
- QuiescenceRuns.CleanAuditIsSound: needs a deciding state on its first visit; `QuiescenceReturns.SoundIffNoReturn` shows why.
