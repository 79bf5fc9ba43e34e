/**
 The link-local claim protocol as a distributed system: any number of conformant hosts on a
 broadcast link. A frame is copied to every host when it is sent; each copy is delivered on its
 own, in any order and with any delay. The timing assumptions of the protocol are named
 predicates on the steps that send a probe and close a probing window, so a theorem says which of
 them it uses.
 */
module LinkLocalNetwork {
  import opened Arp

  /** What one host's threads are doing, as the rest of the link can tell. A window hears from the moment its
      listener is bound; `probes` holds the log positions of the probes sent in it. A holder answers only while
      `Claimed`: it holds before its responder is bound and after its responder has stopped. */
  datatype Phase =
    | Deaf
    | Probing(addr: Ipv4, bound: bool, probes: seq<nat>, conflict: bool)
    | HandOver(addr: Ipv4)
    | Claimed(addr: Ipv4, cease: bool)
    | Releasing(addr: Ipv4)

  /** One undelivered copy of the frame at position `id` of the log. */
  datatype Copy = Copy(id: nat, dest: Mac)

  /** `hidden` records the copies that arrived while their receiver held an address and ran no responder, and so
      were seen by nobody. */
  datatype Net = Net(hosts: map<Mac, Phase>, log: seq<ArpFrame>, flight: set<Copy>, hidden: set<Copy>)

  datatype Step =
    | Pick(h: Mac, addr: Ipv4)
    | BindListener(h: Mac)
    | SendProbe(h: Mac)
    | Abandon(h: Mac)
    | CloseWindow(h: Mac)
    | BindResponder(h: Mac)
    | Announce(h: Mac)
    | Receive(copy: Copy)
    | Teardown(h: Mac)
    | Stop(h: Mac)
    | Clear(h: Mac)
    | Stray(h: Mac, addr: Ipv4)

  const PROBE_NUM: nat := 3

  ghost predicate Init(s: Net) {
    && (forall h | h in s.hosts :: s.hosts[h] == Deaf)
    && s.log == [] && s.flight == {} && s.hidden == {}
  }

  predicate Holding(p: Phase) {
    p.HandOver? || p.Claimed? || p.Releasing?
  }

  /** The address a host has committed to: from the end of its probing window until it is cleared. */
  predicate Holds(s: Net, h: Mac, a: Ipv4) {
    h in s.hosts && Holding(s.hosts[h]) && s.hosts[h].addr == a
  }

  predicate Seeks(s: Net, h: Mac, a: Ipv4) {
    h in s.hosts && s.hosts[h].Probing? && s.hosts[h].addr == a && !s.hosts[h].conflict
  }

  predicate Enabled(s: Net, step: Step) {
    match step
    case Pick(h, addr) => h in s.hosts && s.hosts[h].Deaf? && IsLinkLocal(addr)
    case BindListener(h) => h in s.hosts && s.hosts[h].Probing?
    case SendProbe(h) => h in s.hosts && s.hosts[h].Probing? && |s.hosts[h].probes| < PROBE_NUM
    case Abandon(h) => h in s.hosts && s.hosts[h].Probing? && s.hosts[h].conflict
    case CloseWindow(h) =>
      h in s.hosts && s.hosts[h].Probing? && |s.hosts[h].probes| == PROBE_NUM && !s.hosts[h].conflict
    case BindResponder(h) => h in s.hosts && s.hosts[h].HandOver?
    case Announce(h) => h in s.hosts && Holding(s.hosts[h])
    case Receive(copy) => copy in s.flight && copy.dest in s.hosts && copy.id < |s.log|
    case Teardown(h) => h in s.hosts && s.hosts[h].Claimed? && s.hosts[h].cease
    case Stop(h) => h in s.hosts
    case Clear(h) => h in s.hosts && s.hosts[h].Releasing?
    case Stray(h, addr) => h in s.hosts && s.hosts[h].Deaf?
  }

  function Broadcast(s: Net, f: ArpFrame): Net {
    s.(log := s.log + [f],
       flight := s.flight + set h | h in s.hosts :: Copy(|s.log|, h))
  }

  function SetPhase(s: Net, h: Mac, p: Phase): Net {
    s.(hosts := s.hosts[h := p])
  }

  function Deliver(s: Net, copy: Copy): Net
    requires copy.dest in s.hosts && copy.id < |s.log|
  {
    var h, f, s1 := copy.dest, s.log[copy.id], s.(flight := s.flight - {copy});
    match s.hosts[h]
    case Deaf => s1
    case Probing(a, bound, probes, conflict) =>
      SetPhase(s1, h, Probing(a, bound, probes, conflict || (bound && IsConflict(f, h, a))))
    case HandOver(_) => s1.(hidden := s.hidden + {copy})
    case Releasing(_) => s1.(hidden := s.hidden + {copy})
    case Claimed(a, cease) =>
      match Respond(f, h, a)
      case Ignore => s1
      case Cease => SetPhase(s1, h, Claimed(a, true))
      case Defend(reply) => Broadcast(s1, reply)
  }

  /** The phase a host enters when its threads are asked to end: a holder stops answering before it lets go. */
  function Stopped(p: Phase): Phase {
    if Holding(p) then Releasing(p.addr) else Deaf
  }

  function Apply(s: Net, step: Step): Net
    requires Enabled(s, step)
  {
    match step
    case Pick(h, addr) => SetPhase(s, h, Probing(addr, false, [], false))
    case BindListener(h) => SetPhase(s, h, s.hosts[h].(bound := true))
    case SendProbe(h) =>
      var p := s.hosts[h];
      Broadcast(SetPhase(s, h, p.(probes := p.probes + [|s.log|])), ArpProbe(h, p.addr))
    case Abandon(h) => SetPhase(s, h, Deaf)
    case CloseWindow(h) => SetPhase(s, h, HandOver(s.hosts[h].addr))
    case BindResponder(h) => SetPhase(s, h, Claimed(s.hosts[h].addr, false))
    case Announce(h) => Broadcast(s, ArpAnnounce(h, s.hosts[h].addr))
    case Receive(copy) => Deliver(s, copy)
    case Teardown(h) => SetPhase(s, h, Stopped(s.hosts[h]))
    case Stop(h) => SetPhase(s, h, Stopped(s.hosts[h]))
    case Clear(h) => SetPhase(s, h, Deaf)
    case Stray(h, addr) => Broadcast(s, ArpProbe(h, addr))
  }

  /** A defending Reply for `a`, sent by another host, that `h` has not seen yet. */
  ghost predicate ReplyInFlight(s: Net, h: Mac, a: Ipv4) {
    exists c | c in s.flight ::
      c.dest == h && c.id < |s.log| && s.log[c.id].opcode == REPLY && s.log[c.id].senderIp == a && s.log[c.id].senderHw != h
  }

  /** Timing assumption 1: the window outlasts the round trip. It does not close while a copy of
      one of its own probes, or a Reply defending the address, is undelivered. */
  ghost predicate RoundTripCovered(s: Net, h: Mac)
    requires h in s.hosts && s.hosts[h].Probing?
  {
    && (forall c | c in s.flight && c.dest != h :: !Sent(s, h, c.id))
    && !ReplyInFlight(s, h, s.hosts[h].addr)
  }

  /** Timing assumption 2: no holder of the address was without a responder for all of this window's probes, be it
      before its responder was bound or between stopping it and clearing the address. */
  ghost predicate NoSequenceHidden(s: Net, h: Mac)
    requires h in s.hosts && s.hosts[h].Probing?
  {
    forall g | g != h && Holds(s, g, s.hosts[h].addr) :: exists id: nat | Sent(s, h, id) :: Copy(id, g) !in s.hidden
  }

  /** Timing assumption 3: a window's listener is bound before its first probe goes out. */
  predicate ListenerBound(s: Net, h: Mac)
    requires h in s.hosts && s.hosts[h].Probing?
  {
    s.hosts[h].bound
  }

  ghost predicate TimelyStep(s: Net, step: Step) {
    && (step.CloseWindow? && Enabled(s, step) ==> RoundTripCovered(s, step.h) && NoSequenceHidden(s, step.h))
    && (step.SendProbe? && Enabled(s, step) ==> ListenerBound(s, step.h))
  }

  ghost predicate IsRun(states: seq<Net>, steps: seq<Step>) {
    && |states| == |steps| + 1
    && Init(states[0])
    && forall i {:trigger steps[i]} | 0 <= i < |steps| :: Enabled(states[i], steps[i]) && states[i + 1] == Apply(states[i], steps[i])
  }

  ghost predicate TimelyRun(states: seq<Net>, steps: seq<Step>) {
    && IsRun(states, steps)
    && forall i {:trigger steps[i]} | 0 <= i < |steps| :: TimelyStep(states[i], steps[i])
  }

  // ---------- The inductive invariant ----------

  /** Position `id` of the log is a probe of `h`'s current window. */
  predicate Sent(s: Net, h: Mac, id: nat) {
    h in s.hosts && s.hosts[h].Probing? && id in s.hosts[h].probes
  }

  /** Every probe `g` sent in its current window is still on its way to `h`. */
  ghost predicate AllUndelivered(s: Net, g: Mac, h: Mac) {
    forall id: nat | Sent(s, g, id) :: Copy(id, h) in s.flight
  }

  ghost predicate WellFormed(s: Net) {
    && (forall c | c in s.flight :: c.id < |s.log| && c.dest in s.hosts)
    && (forall h, id: nat | Sent(s, h, id) :: id < |s.log| && s.log[id] == ArpProbe(h, s.hosts[h].addr))
    && (forall h | h in s.hosts && !s.hosts[h].Deaf? :: IsLinkLocal(s.hosts[h].addr))
    && (forall h, id: nat | Sent(s, h, id) :: s.hosts[h].bound)
  }

  /** Two conflict-free windows on one address: the later one has told the earlier one nothing yet. */
  ghost predicate WindowsOverlap(s: Net) {
    forall g, h, a | g != h && Seeks(s, g, a) && Seeks(s, h, a) :: AllUndelivered(s, g, h) || AllUndelivered(s, h, g)
  }

  /** A conflict-free window on a held address: each probe is on its way to the holder, was missed by it,
      or has drawn a Reply that is on its way back. */
  ghost predicate WindowMeetsHolder(s: Net) {
    forall g, h, a | g != h && Holds(s, g, a) && Seeks(s, h, a) ::
      || ReplyInFlight(s, h, a)
      || forall id: nat | Sent(s, h, id) :: Copy(id, g) in s.flight || Copy(id, g) in s.hidden
  }

  ghost predicate UniqueHolders(s: Net) {
    forall g, h, a | g != h && Holds(s, g, a) :: !Holds(s, h, a)
  }

  ghost predicate Inv(s: Net) {
    WellFormed(s) && WindowsOverlap(s) && WindowMeetsHolder(s) && UniqueHolders(s)
  }

  lemma InitInv(s: Net)
    requires Init(s)
    ensures Inv(s)
  {}

  /** A window that closes in time closes on an address nobody holds. */
  lemma NoHolderAtClose(s: Net, h: Mac, g: Mac)
    requires Inv(s) && Enabled(s, CloseWindow(h)) && TimelyStep(s, CloseWindow(h)) && g != h
    ensures !Holds(s, g, s.hosts[h].addr)
  {
    assert Seeks(s, h, s.hosts[h].addr);
  }

  /** What closing a window leaves alone. */
  lemma CloseFrame(s: Net, h: Mac)
    requires WellFormed(s) && Enabled(s, CloseWindow(h))
    ensures var s', a := Apply(s, CloseWindow(h)), s.hosts[h].addr;
            && WellFormed(s') && s'.flight == s.flight && s'.hidden == s.hidden && s'.log == s.log
            && (forall k, b :: Holds(s', k, b) <==> Holds(s, k, b) || (k == h && b == a))
            && (forall k, b :: Seeks(s', k, b) <==> Seeks(s, k, b) && k != h)
            && (forall k, id: nat :: Sent(s', k, id) <==> Sent(s, k, id) && k != h)
  {
    var s', a := Apply(s, CloseWindow(h)), s.hosts[h].addr;
    SetPhaseFrame(s, h, HandOver(a));
    forall k, b ensures Holds(s', k, b) <==> Holds(s, k, b) || (k == h && b == a) {
      if k == h { assert s'.hosts[k] == HandOver(a); }
    }
    forall k, id: nat | Sent(s', k, id) ensures id < |s'.log| && s'.log[id] == ArpProbe(k, s'.hosts[k].addr) && s'.hosts[k].bound {
      assert Sent(s, k, id) && s'.hosts[k] == s.hosts[k];
    }
  }

  /** Changing one host's phase leaves every other host, the log and the copies alone. */
  lemma SetPhaseFrame(s: Net, h: Mac, p: Phase)
    requires h in s.hosts
    ensures var s' := SetPhase(s, h, p);
            && s'.hosts.Keys == s.hosts.Keys && s'.hosts[h] == p
            && s'.flight == s.flight && s'.hidden == s.hidden && s'.log == s.log
            && (forall k | k in s.hosts && k != h :: s'.hosts[k] == s.hosts[k])
            && (forall k, b | k != h :: Holds(s', k, b) == Holds(s, k, b) && Seeks(s', k, b) == Seeks(s, k, b))
            && (forall k, id: nat | k != h :: Sent(s', k, id) == Sent(s, k, id))
  {
    var s' := SetPhase(s, h, p);
    forall k | k in s.hosts && k != h ensures s'.hosts[k] == s.hosts[k] {}
    forall k, b | k != h ensures Holds(s', k, b) == Holds(s, k, b) && Seeks(s', k, b) == Seeks(s, k, b) {
      assert k in s'.hosts <==> k in s.hosts;
    }
    forall k, id: nat | k != h ensures Sent(s', k, id) == Sent(s, k, id) {
      assert k in s'.hosts <==> k in s.hosts;
    }
  }

  /** When `h` closes, every rival window on its address has told it nothing. */
  lemma CloseMeetsRivals(s: Net, h: Mac, g: Mac)
    requires Inv(s) && Enabled(s, CloseWindow(h)) && TimelyStep(s, CloseWindow(h))
    requires g != h && Seeks(s, g, s.hosts[h].addr)
    ensures AllUndelivered(s, g, h)
  {
    assert Seeks(s, h, s.hosts[h].addr) && Sent(s, h, s.hosts[h].probes[0]);
    assert Copy(s.hosts[h].probes[0], g) !in s.flight;
  }

  /** The one step that can create a second holder does not. */
  lemma CloseWindowInv(s: Net, h: Mac)
    requires Inv(s) && Enabled(s, CloseWindow(h)) && TimelyStep(s, CloseWindow(h))
    ensures Inv(Apply(s, CloseWindow(h)))
  {
    var a, s' := s.hosts[h].addr, Apply(s, CloseWindow(h));
    CloseFrame(s, h);
    forall g | g != h
      ensures !Holds(s, g, a)
      ensures Seeks(s, g, a) ==> AllUndelivered(s, g, h)
    {
      NoHolderAtClose(s, h, g);
      if Seeks(s, g, a) {
        CloseMeetsRivals(s, h, g);
      }
    }
    CloseInvFromFrame(s, s', h, a);
  }

  lemma CloseInvFromFrame(s: Net, s': Net, h: Mac, a: Ipv4)
    requires Inv(s) && WellFormed(s') && s'.flight == s.flight && s'.hidden == s.hidden && s'.log == s.log
    requires forall k, b :: Holds(s', k, b) <==> Holds(s, k, b) || (k == h && b == a)
    requires forall k, b :: Seeks(s', k, b) <==> Seeks(s, k, b) && k != h
    requires forall k, id: nat :: Sent(s', k, id) <==> Sent(s, k, id) && k != h
    requires !Holds(s, h, a) && forall g | g != h :: !Holds(s, g, a) && (Seeks(s, g, a) ==> AllUndelivered(s, g, h))
    requires forall b :: !Holds(s, h, b)
    ensures Inv(s')
  {
    assert forall g, k | Seeks(s', g, a) || AllUndelivered(s, g, k) :: g != h ==> (AllUndelivered(s, g, k) ==> AllUndelivered(s', g, k));
    assert forall k, b :: ReplyInFlight(s', k, b) <==> ReplyInFlight(s, k, b);
  }

  /** A step that only moves one host to a phase that neither seeks nor newly holds. */
  lemma LeaveInv(s: Net, h: Mac, p: Phase)
    requires Inv(s) && h in s.hosts
    requires p.Deaf? || ((p.Claimed? || p.Releasing?) && Holds(s, h, p.addr)) || (p.Probing? && p.probes == [] && IsLinkLocal(p.addr))
    ensures Inv(SetPhase(s, h, p))
  {
    var s' := SetPhase(s, h, p);
    forall k, b | ReplyInFlight(s, k, b)
      ensures ReplyInFlight(s', k, b)
    {}
    assert forall k, b | k != h :: Holds(s', k, b) == Holds(s, k, b) && Seeks(s', k, b) == Seeks(s, k, b);
    assert forall b | Holds(s', h, b) :: Holds(s, h, b);
    assert forall k, id: nat | Sent(s', k, id) :: k != h && Sent(s, k, id);
  }

  /** Binding the listener changes nothing that the other hosts could tell. */
  lemma BindListenerInv(s: Net, h: Mac)
    requires Inv(s) && Enabled(s, BindListener(h))
    ensures Inv(Apply(s, BindListener(h)))
  {
    var s' := Apply(s, BindListener(h));
    SetPhaseFrame(s, h, s.hosts[h].(bound := true));
    assert forall k, b :: Holds(s', k, b) == Holds(s, k, b) && Seeks(s', k, b) == Seeks(s, k, b);
    assert forall k, id: nat :: Sent(s', k, id) == Sent(s, k, id);
    assert forall k, b :: ReplyInFlight(s', k, b) == ReplyInFlight(s, k, b);
    assert forall g, k :: AllUndelivered(s', g, k) == AllUndelivered(s, g, k);
  }

  /** Sending a frame adds copies and removes none. */
  lemma BroadcastInv(s: Net, f: ArpFrame)
    requires Inv(s)
    ensures Inv(Broadcast(s, f))
  {
    var s' := Broadcast(s, f);
    forall k, b | ReplyInFlight(s, k, b)
      ensures ReplyInFlight(s', k, b)
    {
      var c :| c in s.flight && c.dest == k && c.id < |s.log| && s.log[c.id].opcode == REPLY && s.log[c.id].senderIp == b && s.log[c.id].senderHw != k;
      assert c in s'.flight && s'.log[c.id] == s.log[c.id];
    }
    assert forall k, b :: Holds(s', k, b) == Holds(s, k, b) && Seeks(s', k, b) == Seeks(s, k, b);
    assert forall k, id: nat :: Sent(s', k, id) == Sent(s, k, id);
  }

  /** Recording the next log position in a window, and sending the probe there, loses nothing. */
  lemma SendProbeFrame(s: Net, h: Mac)
    requires WellFormed(s) && Enabled(s, SendProbe(h)) && ListenerBound(s, h)
    ensures var s', n := Apply(s, SendProbe(h)), |s.log|;
            && WellFormed(s') && s.log <= s'.log && s.flight <= s'.flight && s'.hidden == s.hidden
            && (forall k | k in s.hosts :: Copy(n, k) in s'.flight)
            && (forall k, b :: Holds(s', k, b) == Holds(s, k, b) && Seeks(s', k, b) == Seeks(s, k, b))
            && (forall k, id: nat :: Sent(s', k, id) <==> Sent(s, k, id) || (k == h && id == n))
  {
    var s', p, n := Apply(s, SendProbe(h)), s.hosts[h], |s.log|;
    assert s'.hosts[h] == p.(probes := p.probes + [n]);
    assert forall k | k in s.hosts && k != h :: s'.hosts[k] == s.hosts[k];
    forall k, id: nat
      ensures Sent(s', k, id) <==> Sent(s, k, id) || (k == h && id == n)
    {
      assert id in p.probes + [n] <==> id in p.probes || id == n;
    }
    assert forall id: nat | id < n :: s'.log[id] == s.log[id];
  }

  lemma SendProbeInv(s: Net, h: Mac)
    requires Inv(s) && Enabled(s, SendProbe(h)) && ListenerBound(s, h)
    ensures Inv(Apply(s, SendProbe(h)))
  {
    SendProbeFrame(s, h);
    SendInvFromFrame(s, Apply(s, SendProbe(h)), h);
  }

  lemma SendInvFromFrame(s: Net, s': Net, h: Mac)
    requires Inv(s) && WellFormed(s') && s.log <= s'.log && s.flight <= s'.flight && s'.hidden == s.hidden
    requires forall k | k in s.hosts :: Copy(|s.log|, k) in s'.flight
    requires forall k, b :: Holds(s', k, b) == Holds(s, k, b) && Seeks(s', k, b) == Seeks(s, k, b)
    requires forall k, id: nat :: Sent(s', k, id) <==> Sent(s, k, id) || (k == h && id == |s.log|)
    ensures Inv(s')
  {
    forall k, b | ReplyInFlight(s, k, b)
      ensures ReplyInFlight(s', k, b)
    {
      var c :| c in s.flight && c.dest == k && c.id < |s.log| && s.log[c.id].opcode == REPLY && s.log[c.id].senderIp == b && s.log[c.id].senderHw != k;
      assert c in s'.flight && s'.log[c.id] == s.log[c.id];
    }
    forall g, k, b | g != k && Seeks(s', g, b) && Seeks(s', k, b)
      ensures AllUndelivered(s', g, k) || AllUndelivered(s', k, g)
    {
      assert AllUndelivered(s, g, k) || AllUndelivered(s, k, g);
    }
  }

  /** A probe that reaches a holder past its hand-over draws a Reply. */
  lemma ProbeDrawsReply(s: Net, copy: Copy, h: Mac, a: Ipv4)
    requires Inv(s) && Enabled(s, Receive(copy)) && s.hosts[copy.dest].Claimed?
    requires Seeks(s, h, a) && Holds(s, copy.dest, a) && Sent(s, h, copy.id) && h != copy.dest
    ensures ReplyInFlight(Deliver(s, copy), h, a)
  {
    var s' := Deliver(s, copy);
    var c := Copy(|s.log|, h);
    assert c in s'.flight && s'.log[c.id] == ArpReply(copy.dest, a, 0);
  }

  /** What a delivery leaves alone: holders, windows, the log so far and every other copy. */
  lemma DeliverFrame(s: Net, copy: Copy)
    requires Inv(s) && Enabled(s, Receive(copy))
    ensures var s' := Deliver(s, copy);
            && s.log <= s'.log && s.flight - {copy} <= s'.flight && s.hidden <= s'.hidden
            && (forall k, b :: Holds(s', k, b) == Holds(s, k, b))
            && (forall k, b | Seeks(s', k, b) :: Seeks(s, k, b) && (k == copy.dest && s.hosts[k].bound ==> !IsConflict(s.log[copy.id], k, b)))
            && (forall k, id: nat :: Sent(s', k, id) == Sent(s, k, id))
            && (forall k | k in s.hosts && s.hosts[k].Probing? :: k in s'.hosts && s'.hosts[k].Probing? && s'.hosts[k].bound == s.hosts[k].bound)
  {
    var s' := Deliver(s, copy);
    assert forall k | k in s.hosts && k != copy.dest :: s'.hosts[k] == s.hosts[k];
    assert s'.hosts.Keys == s.hosts.Keys;
  }

  /** A window whose listener is not bound has sent nothing yet. */
  lemma UnboundIsSilent(s: Net, g: Mac, h: Mac)
    requires Inv(s) && g in s.hosts && s.hosts[g].Probing? && !s.hosts[g].bound
    ensures AllUndelivered(s, g, h) && forall id: nat :: !Sent(s, g, id)
  {}

  lemma DeliverKeepsReply(s: Net, copy: Copy, k: Mac, b: Ipv4)
    requires Inv(s) && Enabled(s, Receive(copy)) && Seeks(Deliver(s, copy), k, b) && ReplyInFlight(s, k, b) && s.hosts[k].bound
    ensures ReplyInFlight(Deliver(s, copy), k, b)
  {
    var s' := Deliver(s, copy);
    DeliverFrame(s, copy);
    var c :| c in s.flight && c.dest == k && c.id < |s.log| && s.log[c.id].opcode == REPLY && s.log[c.id].senderIp == b && s.log[c.id].senderHw != k;
    assert c != copy;
    assert c in s'.flight && s'.log[c.id] == s.log[c.id];
  }

  lemma DeliverOverlap(s: Net, copy: Copy, g: Mac, h: Mac, a: Ipv4)
    requires Inv(s) && Enabled(s, Receive(copy))
    requires g != h && Seeks(Deliver(s, copy), g, a) && Seeks(Deliver(s, copy), h, a)
    ensures AllUndelivered(Deliver(s, copy), g, h) || AllUndelivered(Deliver(s, copy), h, g)
  {
    DeliverFrame(s, copy);
    if !s.hosts[g].bound {
      UnboundIsSilent(s, g, h);
    } else if !s.hosts[h].bound {
      UnboundIsSilent(s, h, g);
    } else {
      assert AllUndelivered(s, g, h) || AllUndelivered(s, h, g);
    }
  }

  lemma DeliverMeetsHolder(s: Net, copy: Copy, g: Mac, h: Mac, a: Ipv4)
    requires Inv(s) && Enabled(s, Receive(copy))
    requires g != h && Holds(Deliver(s, copy), g, a) && Seeks(Deliver(s, copy), h, a)
    ensures var s' := Deliver(s, copy);
            ReplyInFlight(s', h, a) || forall id: nat | Sent(s', h, id) :: Copy(id, g) in s'.flight || Copy(id, g) in s'.hidden
  {
    DeliverFrame(s, copy);
    assert Holds(s, g, a) && Seeks(s, h, a);
    if !s.hosts[h].bound {
      UnboundIsSilent(s, h, g);
    } else if ReplyInFlight(s, h, a) {
      DeliverKeepsReply(s, copy, h, a);
    } else if copy.dest == g && s.hosts[g].Claimed? && Sent(s, h, copy.id) {
      ProbeDrawsReply(s, copy, h, a);
    }
  }

  lemma DeliverInv(s: Net, copy: Copy)
    requires Inv(s) && Enabled(s, Receive(copy))
    ensures Inv(Deliver(s, copy))
  {
    var s' := Deliver(s, copy);
    DeliverFrame(s, copy);
    assert WellFormed(s');
    forall g, h, a | g != h && Seeks(s', g, a) && Seeks(s', h, a)
      ensures AllUndelivered(s', g, h) || AllUndelivered(s', h, g)
    {
      DeliverOverlap(s, copy, g, h, a);
    }
    forall g, h, a | g != h && Holds(s', g, a) && Seeks(s', h, a)
      ensures ReplyInFlight(s', h, a) || forall id: nat | Sent(s', h, id) :: Copy(id, g) in s'.flight || Copy(id, g) in s'.hidden
    {
      DeliverMeetsHolder(s, copy, g, h, a);
    }
  }

  lemma StepInv(s: Net, step: Step)
    requires Inv(s) && Enabled(s, step) && TimelyStep(s, step)
    ensures Inv(Apply(s, step))
  {
    match step
    case Pick(h, addr) => LeaveInv(s, h, Probing(addr, false, [], false));
    case BindListener(h) => BindListenerInv(s, h);
    case SendProbe(h) => SendProbeInv(s, h);
    case Abandon(h) => LeaveInv(s, h, Deaf);
    case CloseWindow(h) => CloseWindowInv(s, h);
    case BindResponder(h) => LeaveInv(s, h, Claimed(s.hosts[h].addr, false));
    case Announce(h) => BroadcastInv(s, ArpAnnounce(h, s.hosts[h].addr));
    case Receive(copy) => DeliverInv(s, copy);
    case Teardown(h) => LeaveInv(s, h, Stopped(s.hosts[h]));
    case Stop(h) => LeaveInv(s, h, Stopped(s.hosts[h]));
    case Clear(h) => LeaveInv(s, h, Deaf);
    case Stray(h, addr) => BroadcastInv(s, ArpProbe(h, addr));
  }

  lemma {:induction false} RunInv(states: seq<Net>, steps: seq<Step>, i: nat)
    requires TimelyRun(states, steps) && i < |states|
    ensures Inv(states[i])
  {
    if i == 0 {
      InitInv(states[0]);
    } else {
      RunInv(states, steps, i - 1);
      StepInv(states[i - 1], steps[i - 1]);
    }
  }

  /** In every timely run of any number of hosts, no two hosts ever hold the same address: not while it is announced or
      defended, and not while one of them is taking it up or giving it back. */
  lemma UniqueClaims(states: seq<Net>, steps: seq<Step>, i: nat, g: Mac, h: Mac, a: Ipv4)
    requires TimelyRun(states, steps) && i < |states|
    requires g != h && Holds(states[i], g, a)
    ensures !Holds(states[i], h, a)
  {
    RunInv(states, steps, i);
  }

  // ---------- Claim stability ----------

  /** Timing assumption 4: a host clears its address only after the link has delivered what it
      sent under it. A link with atomic delivery always satisfies this. */
  ghost predicate DrainedRelease(s: Net, step: Step) {
    step.Clear? ==>
      forall c | c in s.flight && c.id < |s.log| && s.log[c.id].senderHw == step.h :: !Holds(s, step.h, s.log[c.id].senderIp)
  }

  ghost predicate DrainedRun(states: seq<Net>, steps: seq<Step>) {
    && TimelyRun(states, steps)
    && forall i {:trigger steps[i]} | 0 <= i < |steps| :: DrainedRelease(states[i], steps[i])
  }

  /** Nobody has asked for a teardown, and every undelivered frame that uses an address comes from its holder. */
  ghost predicate Stable(s: Net) {
    && (forall h | h in s.hosts && s.hosts[h].Claimed? :: !s.hosts[h].cease)
    && (forall c | c in s.flight && c.id < |s.log| && s.log[c.id].senderIp != 0 ::
          Holds(s, s.log[c.id].senderHw, s.log[c.id].senderIp))
  }

  lemma DeliverStable(s: Net, copy: Copy)
    requires Inv(s) && Stable(s) && Enabled(s, Receive(copy))
    ensures Stable(Deliver(s, copy))
  {
    var d, f := copy.dest, s.log[copy.id];
    DeliverFrame(s, copy);
    if s.hosts[d].Claimed? {
      assert Holds(s, d, s.hosts[d].addr);
      assert f.senderIp == s.hosts[d].addr ==> f.senderHw == d;
    }
  }

  /** A frame that uses no address, or the sender's own, leaves the link stable. */
  lemma BroadcastStable(s: Net, f: ArpFrame)
    requires Stable(s) && (f.senderIp == 0 || Holds(s, f.senderHw, f.senderIp))
    ensures Stable(Broadcast(s, f))
  {
    assert forall k, b :: Holds(Broadcast(s, f), k, b) == Holds(s, k, b);
  }

  /** So does a phase change that raises no flag and keeps the address its undelivered frames use. */
  lemma SetPhaseStable(s: Net, h: Mac, p: Phase)
    requires Stable(s) && h in s.hosts && (p.Claimed? ==> !p.cease)
    requires forall c | c in s.flight && c.id < |s.log| && s.log[c.id].senderHw == h && Holds(s, h, s.log[c.id].senderIp) ::
               Holding(p) && p.addr == s.log[c.id].senderIp
    ensures Stable(SetPhase(s, h, p))
  {
    assert forall k, b | k != h :: Holds(SetPhase(s, h, p), k, b) == Holds(s, k, b);
  }

  lemma StepStable(s: Net, step: Step)
    requires Inv(s) && Stable(s) && Enabled(s, step) && DrainedRelease(s, step)
    ensures Stable(Apply(s, step))
  {
    match step
    case Pick(h, addr) => SetPhaseStable(s, h, Probing(addr, false, [], false));
    case BindListener(h) => SetPhaseStable(s, h, s.hosts[h].(bound := true));
    case SendProbe(h) =>
      var p := s.hosts[h];
      SetPhaseStable(s, h, p.(probes := p.probes + [|s.log|]));
      BroadcastStable(SetPhase(s, h, p.(probes := p.probes + [|s.log|])), ArpProbe(h, p.addr));
    case Abandon(h) => SetPhaseStable(s, h, Deaf);
    case CloseWindow(h) => SetPhaseStable(s, h, HandOver(s.hosts[h].addr));
    case BindResponder(h) => SetPhaseStable(s, h, Claimed(s.hosts[h].addr, false));
    case Announce(h) => BroadcastStable(s, ArpAnnounce(h, s.hosts[h].addr));
    case Receive(copy) => DeliverStable(s, copy);
    case Teardown(h) =>
    case Stop(h) => SetPhaseStable(s, h, Stopped(s.hosts[h]));
    case Clear(h) => SetPhaseStable(s, h, Deaf);
    case Stray(h, addr) => BroadcastStable(s, ArpProbe(h, addr));
  }

  /** On a link that drains a host's frames before it lets go, no run of conformant hosts ever raises
      the cease flag: a peer's probe draws a Reply, never a teardown. */
  lemma {:induction false} ClaimsAreStable(states: seq<Net>, steps: seq<Step>, i: nat)
    requires DrainedRun(states, steps) && i < |states|
    ensures Stable(states[i])
  {
    if i > 0 {
      ClaimsAreStable(states, steps, i - 1);
      RunInv(states, steps, i - 1);
      StepStable(states[i - 1], steps[i - 1]);
    }
  }
}
