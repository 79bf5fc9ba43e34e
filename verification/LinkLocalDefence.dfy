/**
 What becomes of every frame a host reads, said over the fields of the frame: which frames raise the cease flag, which
 draw a Reply, which forfeit a probing window, and that none is lost on the way, however the threads interleave. The
 same is said of a delivery in the network model.
 */
module LinkLocalDefence {
  import opened FiniteSets
  import opened Wrappers
  import opened Arp
  import opened LinkLocalHost
  import N = LinkLocalNetwork

  // ---------- The responder ----------

  /** Another host uses the address. */
  predicate Contests(f: ArpFrame, mac: Mac, a: Ipv4) {
    f.senderHw != mac && f.senderIp == a
  }

  /** Another host asks for the address without using it. */
  predicate Asks(f: ArpFrame, mac: Mac, a: Ipv4) {
    f.senderHw != mac && f.opcode == 1 && f.targetIp == a && f.senderIp != a
  }

  /** The steps a responder needs for a frame it has read. */
  function Needed(f: ArpFrame, mac: Mac, a: Ipv4): nat {
    if f.senderHw == mac then 0 else if Contests(f, mac, a) then 3 else if Asks(f, mac, a) then 4 else 2
  }

  predicate SameRecord(s0: Host, s: Host) {
    s.cease == s0.cease && s.conflictIn == s0.conflictIn && s.answers == s0.answers
  }

  /** Where the responder that read `f` in `s0` stands after `m` more of its steps, and what it has done by then. */
  predicate Handled(s0: Host, s: Host, f: ArpFrame, m: nat) {
    var a := s0.committed;
    && s.mac == s0.mac && s.committed == a && s.claims == s0.claims && s.responder.Responding?
    && (m < Needed(f, s.mac, a) ==> SameRecord(s0, s))
    && (m == 0 ==> s.responder.at == if f.senderHw == s.mac then RTopOwn else RSnap(f))
    && (m == 1 ==> s.responder.at == RDecide(f, a))
    && (m == 2 ==> s.responder.at == if Contests(f, s.mac, a) then RCease(f) else if Asks(f, s.mac, a) then RReply(f) else RTopOwn)
    && (m == 3 ==> s.responder.at == if Contests(f, s.mac, a) then RTopOwn else RSend(f, a))
    && (m == 4 ==> s.responder.at == RTopOwn)
    && (m == Needed(f, s.mac, a) ==>
          if Contests(f, s.mac, a) then s.cease && s.conflictIn == s.claims && s.answers == s0.answers
          else s.cease == s0.cease && s.conflictIn == s0.conflictIn
               && s.answers == s0.answers + if Asks(f, s.mac, a) then [Answer(f, a)] else [])
  }

  /** Nobody else touches a running responder or what it keeps. */
  predicate ResponderAlone(s: Host, s': Host) {
    && s'.responder == s.responder && s'.committed == s.committed && s'.claims == s.claims && s'.mac == s.mac
    && SameRecord(s, s')
  }

  lemma CtlLeavesResponder(s: Host, s': Host)
    requires Inv(s) && CtlStep(s, s') && s.responder.Responding?
    ensures ResponderAlone(s, s')
  {}

  lemma ClaimLeavesResponder(s: Host, s': Host)
    requires Inv(s) && s.worker.Claiming? && ClaimStep(s, s') && s.responder.Responding?
    ensures ResponderAlone(s, s')
  {}

  lemma OthersLeaveResponder(s: Host, s': Host, step: Step)
    requires Inv(s) && Next(s, s', step) && !step.ResponderNext? && s.responder.Responding?
    ensures ResponderAlone(s, s')
  {
    match step
    case Start =>
    case Abort =>
    case CtlNext => CtlLeavesResponder(s, s');
    case WorkerNext(_) =>
      if s.worker.Claiming? {
        ClaimLeavesResponder(s, s');
      }
    case ListenerNext(_, _) =>
  }

  lemma ReadIsHandled(s: Host, s': Host, ok: bool, f: ArpFrame)
    requires Inv(s) && s.responder == Responding(RRecv) && ResponderStep(s, s', ok, Some(f))
    ensures Handled(s, s', f, 0)
  {}

  lemma HandledFurther(s0: Host, s: Host, s': Host, ok: bool, heard: Option<ArpFrame>, f: ArpFrame, m: nat)
    requires Inv(s) && Handled(s0, s, f, m) && ResponderStep(s, s', ok, heard) && m < Needed(f, s0.mac, s0.committed)
    requires s0.committed != 0
    ensures Handled(s0, s', f, m + 1)
  {}

  /** The responder's steps among those from `i` to `j`. */
  function Responses(steps: seq<Step>, i: nat, j: nat): nat
    requires i <= j <= |steps|
  {
    if i == j then 0 else Responses(steps, i, j - 1) + if steps[j - 1].ResponderNext? then 1 else 0
  }

  lemma NextHandled(s0: Host, s: Host, s': Host, step: Step, f: ArpFrame, m: nat)
    requires Inv(s) && Handled(s0, s, f, m) && Next(s, s', step) && s0.committed != 0
    requires step.ResponderNext? ==> m < Needed(f, s0.mac, s0.committed)
    ensures Handled(s0, s', f, if step.ResponderNext? then m + 1 else m)
  {
    if step.ResponderNext? {
      HandledFurther(s0, s, s', step.ok, step.heard, f, m);
    } else {
      OthersLeaveResponder(s, s', step);
    }
  }

  /** The frame read in step `i` has been handled as far as the responder's steps by `k` go. */
  ghost predicate HandledBy(states: seq<Host>, steps: seq<Step>, i: nat, f: ArpFrame, k: nat)
    requires |states| == |steps| + 1 && i < k < |states|
  {
    var m := Responses(steps, i + 1, k);
    m <= Needed(f, states[i].mac, states[i].committed) ==> Handled(states[i], states[k], f, m)
  }

  ghost predicate Reads(states: seq<Host>, steps: seq<Step>, i: nat, f: ArpFrame) {
    && IsRun(states, steps) && i < |steps|
    && states[i].responder == Responding(RRecv) && steps[i].ResponderNext? && steps[i].heard == Some(f)
  }

  lemma HandledFirst(states: seq<Host>, steps: seq<Step>, i: nat, f: ArpFrame)
    requires Reads(states, steps, i, f)
    ensures states[i].committed != 0 && HandledBy(states, steps, i, f, i + 1)
  {
    RunInv(states, steps, i);
    RunStep(states, steps, i);
    ReadIsHandled(states[i], states[i + 1], steps[i].ok, f);
  }

  lemma HandledThen(states: seq<Host>, steps: seq<Step>, i: nat, f: ArpFrame, k: nat)
    requires IsRun(states, steps) && i < k < |steps| && states[i].committed != 0 && HandledBy(states, steps, i, f, k)
    ensures HandledBy(states, steps, i, f, k + 1)
  {
    var m := Responses(steps, i + 1, k);
    if Responses(steps, i + 1, k + 1) <= Needed(f, states[i].mac, states[i].committed) {
      RunInv(states, steps, k);
      RunStep(states, steps, k);
      NextHandled(states[i], states[k], states[k + 1], steps[k], f, m);
    }
  }

  /** What becomes of every frame the responder reads, in every interleaving: its own frames are dropped; after two of its
      own steps it has decided; a frame of another host that uses the committed address raises the cease flag and marks
      the claim with the third; another host's Request for the address is answered with the fourth, under that address;
      nothing else leaves a trace. */
  lemma EveryFrameIsHandled(states: seq<Host>, steps: seq<Step>, i: nat, f: ArpFrame, j: nat)
    requires Reads(states, steps, i, f) && i < j < |states|
    ensures HandledBy(states, steps, i, f, j)
  {
    var good := iset k: nat | i < k < |states| && HandledBy(states, steps, i, f, k);
    HandledFirst(states, steps, i, f);
    forall k: nat | i < k < j && k in good ensures k + 1 in good {
      HandledThen(states, steps, i, f, k);
    }
    UpTo(good, i + 1, j);
  }

  // ---------- The listener ----------

  /** Another host uses the address, or probes for it. */
  predicate Rivals(f: ArpFrame, mac: Mac, a: Ipv4) {
    f.senderHw != mac && (f.senderIp == a || (f.opcode == 1 && f.senderIp == 0 && f.targetIp == a))
  }

  /** The window has been heard to be contested, and the flag is up or about to be. */
  predicate Forfeited(s: Host) {
    && s.worker.Seeking? && s.committed == 0 && (s.conflict || s.listener == Listening(LRaise))
    && (SeekZone(s.worker.seek).Window? || s.worker.seek.WindowStop? || s.worker.seek.WindowConflict?)
  }

  /** Exactly the frames of rivals forfeit a window: any other leaves the listener listening. */
  lemma RivalForfeits(states: seq<Host>, steps: seq<Step>, i: nat, f: ArpFrame)
    requires IsRun(states, steps) && i < |steps|
    requires states[i].listener == Listening(LRecv) && steps[i].ListenerNext? && steps[i].heard == Some(f)
    ensures Rivals(f, states[i].mac, states[i].tentative) ==> Forfeited(states[i + 1])
    ensures !Rivals(f, states[i].mac, states[i].tentative) ==> states[i + 1] == states[i].(listener := Listening(LTopOwn))
  {
    RunInv(states, steps, i);
    RunStep(states, steps, i);
  }

  lemma SeekForfeited(s: Host, s': Host, pick: Ipv4)
    requires Inv(s) && Forfeited(s) && IsLinkLocal(pick) && SeekStep(s, s', pick)
    ensures Forfeited(s') || (s'.committed == 0 && (s'.worker == WorkerDone || s'.worker == Seeking(RateWait) || s'.worker == Seeking(PickAddr)))
  {}

  lemma CtlForfeited(s: Host, s': Host)
    requires Inv(s) && Forfeited(s) && CtlStep(s, s')
    ensures Forfeited(s')
  {}

  lemma NextForfeited(s: Host, s': Host, step: Step)
    requires Inv(s) && Forfeited(s) && Next(s, s', step)
    ensures Forfeited(s') || (s'.committed == 0 && (s'.worker == WorkerDone || s'.worker == Seeking(RateWait) || s'.worker == Seeking(PickAddr)))
  {
    match step
    case Start =>
    case Abort =>
    case CtlNext => CtlForfeited(s, s');
    case WorkerNext(pick) => SeekForfeited(s, s', pick);
    case ListenerNext(_, _) =>
    case ResponderNext(_, _) =>
  }

  /** A forfeited window never becomes a claim: in every interleaving nothing is committed until the worker has ended or
      goes for another pick. */
  lemma {:induction false} ForfeitedIsNotClaimed(states: seq<Host>, steps: seq<Step>, i: nat, j: nat)
    requires IsRun(states, steps) && i <= j < |states| && Forfeited(states[i])
    requires forall k | i <= k < j :: states[k].worker.Seeking? && !states[k].worker.seek.RateWait? && !states[k].worker.seek.PickAddr?
    ensures states[j].committed == 0 && !states[j].worker.Claiming?
    ensures Forfeited(states[j]) || states[j].worker == WorkerDone || states[j].worker == Seeking(RateWait) || states[j].worker == Seeking(PickAddr)
    decreases j
  {
    if i < j {
      ForfeitedIsNotClaimed(states, steps, i, j - 1);
      RunInv(states, steps, j - 1);
      RunStep(states, steps, j - 1);
      NextForfeited(states[j - 1], states[j], steps[j - 1]);
    }
  }

  // ---------- The network ----------

  /** A frame delivered to a host that defends `a` raises its flag exactly if another host uses `a`, and draws exactly one
      Reply, under `a` and to the asker, exactly if another host asks for `a` without using it. */
  lemma DeliveryToDefender(s: N.Net, copy: N.Copy)
    requires N.Inv(s) && N.Enabled(s, N.Receive(copy)) && s.hosts[copy.dest].Claimed?
    ensures var h, p, f, s' := copy.dest, s.hosts[copy.dest], s.log[copy.id], N.Deliver(s, copy);
      && s'.hosts.Keys == s.hosts.Keys && (forall k | k in s.hosts && k != h :: s'.hosts[k] == s.hosts[k])
      && s'.hosts[h] == N.Claimed(p.addr, p.cease || (f.senderHw != h && f.senderIp == p.addr))
      && s'.log == s.log + (if f.senderHw != h && f.opcode == 1 && f.targetIp == p.addr && f.senderIp != p.addr
                            then [ArpFrame(2, h, p.addr, f.senderIp)] else [])
      && (forall c | c in s'.flight :: c in s.flight - {copy} || c.id == |s.log|)
  {}

  /** A frame delivered to a window with a listener raises its flag exactly if another host uses or probes for `a`; without
      a listener it does nothing. */
  lemma DeliveryToWindow(s: N.Net, copy: N.Copy)
    requires N.Enabled(s, N.Receive(copy)) && s.hosts[copy.dest].Probing?
    ensures var h, p, f, s' := copy.dest, s.hosts[copy.dest], s.log[copy.id], N.Deliver(s, copy);
      && s'.log == s.log && s'.flight == s.flight - {copy}
      && s'.hosts.Keys == s.hosts.Keys && (forall k | k in s.hosts && k != h :: s'.hosts[k] == s.hosts[k])
      && s'.hosts[h] == p.(conflict := p.conflict || (p.bound && f.senderHw != h
                             && (f.senderIp == p.addr || (f.opcode == 1 && f.senderIp == 0 && f.targetIp == p.addr))))
  {}
}
