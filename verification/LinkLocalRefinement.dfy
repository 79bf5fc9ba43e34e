/**
 The network model is an abstraction of the system of threads: every timely run of `LinkLocalSystem` is matched, event
 by event, by a timely run of `LinkLocalNetwork`. What the network model proves of claims thus holds of the addresses
 that freely interleaved threads commit.
 */
module LinkLocalRefinement {
  import opened FiniteSets
  import opened Wrappers
  import opened Arp
  import opened LinkLocalSystem
  import H = LinkLocalHost
  import N = LinkLocalNetwork

  // ---------- A host and its phase ----------

  /** The probes sent when the worker stands here, in a window. */
  predicate Sent(at: H.SeekAt, n: nat) {
    match at
    case ProbeWait => n == 0
    case EmitProbe(i) => n == i
    case CheckProbe(i) => n == i + 1
    case ProbeGap(i) => n == i + 1
    case CheckGap(i) => n == i + 1
    case StopL(c) => c.WindowL? ==> n == N.PROBE_NUM
    case JoinL(c) => c.WindowL? ==> n == N.PROBE_NUM
    case _ => true
  }

  /** Nothing is claimed and nothing can be without a new window: a worker still in one is being stopped. */
  predicate IsDeaf(s: H.Host) {
    && s.committed == 0 && !s.listener.Listening? && !s.responder.Responding? && !s.worker.Claiming?
    && (s.worker.Seeking? ==>
          && (H.SeekZone(s.worker.seek).Window? || s.worker.seek.WindowStop? ==> s.stop)
          && !s.worker.seek.WindowConflict?
          && (s.worker.seek.ArmListener? || s.worker.seek.SpawnListener? ==> !s.conflict)
          && (s.worker.seek.SpawnListener? ==> !s.stopListener))
  }

  /** A window is open, or has seen a conflict and is about to be abandoned. */
  predicate IsProbing(s: H.Host, p: N.Phase, window: seq<nat>)
    requires p.Probing?
  {
    && p.addr == s.tentative && s.committed == 0 && !s.responder.Responding? && s.worker.Seeking?
    && p.probes == window && Sent(s.worker.seek, |window|)
    && p.conflict == (s.conflict || s.listener == H.Listening(H.LRaise)) && (p.conflict ==> p.bound)
    && (if s.listener.Listening? then !s.conflict && p.bound == !s.listener.at.LOpen? else p.conflict || !p.bound)
    && ProbingAt(s, s.worker.seek, p.bound, p.conflict)
  }

  predicate ProbingAt(s: H.Host, at: H.SeekAt, bound: bool, conflict: bool) {
    match at
    case StopL(c) => !c.StartL? && (c.ExitL? ==> s.stop) && (c.ConflictL? ==> s.conflict) && (bound || c.ExitL?)
                     && (s.listener.Listening? ==> !s.stopListener)
    case JoinL(c) => !c.StartL? && (c.ExitL? ==> s.stop) && (c.ConflictL? ==> s.conflict) && (bound || c.ExitL?)
    case ProbeWait => s.listener.Listening? ==> !s.stopListener
    case EmitProbe(i) => (bound || i == 0) && (s.listener.Listening? ==> !s.stopListener)
    case CheckProbe(_) | ProbeGap(_) | CheckGap(_) => bound && (s.listener.Listening? ==> !s.stopListener)
    case WindowStop | WindowConflict => conflict && !s.listener.Listening?
    case _ => false
  }

  predicate Agrees(s: H.Host, p: N.Phase, window: seq<nat>) {
    match p
    case Deaf => IsDeaf(s)
    case Probing(_, _, _, _) => IsProbing(s, p, window)
    case HandOver(a) => Has(s, a) && (s.responder.Responding? ==> s.responder.at.ROpen?)
    case Claimed(a, _) => s.committed == a && s.responder.Responding? && !s.responder.at.ROpen?
    case Releasing(a) => s.committed == a && a != 0 && !s.responder.Responding? && !H.ZoneOf(s).Bare?
  }

  /** What a step of one thread does to the phase of its host, when it touches no frame. */
  datatype Move = Stay | Begin(addr: Ipv4) | Listen | Close | Guard | Halt | Free

  predicate May(p: N.Phase, m: Move) {
    match m
    case Begin(a) => p.Deaf? && IsLinkLocal(a)
    case Listen => p.Probing?
    case Close => p.Probing? && |p.probes| == N.PROBE_NUM && !p.conflict
    case Guard => p.HandOver?
    case Free => N.Holding(p)
    case _ => true
  }

  function Moved(p: N.Phase, m: Move): N.Phase
    requires May(p, m)
  {
    match m
    case Stay => p
    case Begin(a) => N.Probing(a, false, [], false)
    case Listen => p.(bound := true)
    case Close => N.HandOver(p.addr)
    case Guard => N.Claimed(p.addr, false)
    case Halt => N.Stopped(p)
    case Free => N.Deaf
  }

  /** The move matches the step: it leads to a phase that agrees with the host, closing and letting go where it does. */
  predicate Matched(s: H.Host, s': H.Host, step: H.Step, p: N.Phase, w: seq<nat>, n: nat, m: Move) {
    && May(p, m) && Agrees(s', Moved(p, m), WindowAfter(s, step, w, n))
    && (m.Close? ==> Closes(s, step)) && (m.Free? ==> Releases(s, step))
  }

  lemma CtlMoves(s: H.Host, s': H.Host, p: N.Phase, w: seq<nat>, n: nat) returns (m: Move)
    requires H.Inv(s) && H.CtlStep(s, s') && Agrees(s, p, w)
    ensures Matched(s, s', H.CtlNext, p, w, n, m)
  {
    m := if s.ctl.Aborting? && s.ctl.at.ClearAddress? && N.Holding(p) then Free else Stay;
  }

  function SeekMove(s: H.Host, p: N.Phase): Move
    requires s.worker.Seeking?
  {
    match s.worker.seek
    case SpawnListener => Begin(s.tentative)
    case JoinL(c) => if c.ExitL? || c.ConflictL? then Halt else Stay
    case WindowStop => if !s.stop then Stay else if p.HandOver? then Free else Halt
    case WindowConflict => if s.conflict then Halt else Stay
    case _ => Stay
  }

  lemma SeekDeaf(s: H.Host, s': H.Host, pick: Ipv4, p: N.Phase, w: seq<nat>, n: nat)
    requires H.Inv(s) && s.worker.Seeking? && IsLinkLocal(pick) && H.SeekStep(s, s', pick) && Agrees(s, p, w)
    requires !s.worker.seek.EmitProbe? && p.Deaf?
    ensures Matched(s, s', H.WorkerNext(pick), p, w, n, SeekMove(s, p))
  {}

  lemma SeekProbing(s: H.Host, s': H.Host, pick: Ipv4, p: N.Phase, w: seq<nat>, n: nat)
    requires H.Inv(s) && s.worker.Seeking? && IsLinkLocal(pick) && H.SeekStep(s, s', pick) && Agrees(s, p, w)
    requires !s.worker.seek.EmitProbe? && p.Probing?
    ensures Matched(s, s', H.WorkerNext(pick), p, w, n, SeekMove(s, p))
  {}

  lemma SeekHolding(s: H.Host, s': H.Host, pick: Ipv4, p: N.Phase, w: seq<nat>, n: nat)
    requires H.Inv(s) && s.worker.Seeking? && IsLinkLocal(pick) && H.SeekStep(s, s', pick) && Agrees(s, p, w)
    requires !s.worker.seek.EmitProbe? && N.Holding(p)
    ensures Matched(s, s', H.WorkerNext(pick), p, w, n, SeekMove(s, p))
  {}

  lemma ClaimMoves(s: H.Host, s': H.Host, pick: Ipv4, p: N.Phase, w: seq<nat>, n: nat) returns (m: Move)
    requires H.Inv(s) && s.worker.Claiming? && H.ClaimStep(s, s') && Agrees(s, p, w)
    ensures Matched(s, s', H.WorkerNext(pick), p, w, n, m)
    ensures s.worker.claim.EmitAnnounce? ==> m.Stay? && N.Holding(p) && p.addr == s.committed
  {
    m := if s.worker.claim.ClearAddr? then Free else Stay;
  }

  lemma WorkerMoves(s: H.Host, s': H.Host, pick: Ipv4, p: N.Phase, w: seq<nat>, n: nat) returns (m: Move)
    requires H.Inv(s) && H.Next(s, s', H.WorkerNext(pick)) && Agrees(s, p, w) && !AtProbe(s, H.WorkerNext(pick))
    ensures Matched(s, s', H.WorkerNext(pick), p, w, n, m)
  {
    if s.worker.Claiming? {
      m := ClaimMoves(s, s', pick, p, w, n);
    } else {
      m := SeekMove(s, p);
      if p.Deaf? {
        SeekDeaf(s, s', pick, p, w, n);
      } else if p.Probing? {
        SeekProbing(s, s', pick, p, w, n);
      } else {
        SeekHolding(s, s', pick, p, w, n);
      }
    }
  }

  lemma ListenerMoves(s: H.Host, s': H.Host, ok: bool, heard: Option<ArpFrame>, p: N.Phase, w: seq<nat>, n: nat) returns (m: Move)
    requires H.Inv(s) && H.ListenerStep(s, s', ok, heard) && Agrees(s, p, w)
    requires EffectOf(s, H.ListenerNext(ok, heard)).Silent?
    ensures Matched(s, s', H.ListenerNext(ok, heard), p, w, n, m)
  {
    match s.listener.at
    case LOpen => m := if ok then Listen else Stay;
    case LTopOwn => m := if !s.stopListener then Stay else if s.worker.seek.lcall.WindowL? then Close else Halt;
    case LTopAll => m := if s.stop then Halt else Stay;
    case _ => m := Stay;
  }

  lemma ListenerHears(s: H.Host, s': H.Host, ok: bool, f: ArpFrame, p: N.Phase, w: seq<nat>)
    requires H.Inv(s) && s.listener == H.Listening(H.LRecv) && H.ListenerStep(s, s', ok, Some(f)) && Agrees(s, p, w)
    ensures p.Probing? && p.bound && Agrees(s', p.(conflict := p.conflict || IsConflict(f, s.mac, p.addr)), w)
  {}

  lemma ResponderMoves(s: H.Host, s': H.Host, ok: bool, heard: Option<ArpFrame>, p: N.Phase, w: seq<nat>, n: nat) returns (m: Move)
    requires H.Inv(s) && H.ResponderStep(s, s', ok, heard) && Agrees(s, p, w)
    ensures Matched(s, s', H.ResponderNext(ok, heard), p, w, n, m)
    ensures !EffectOf(s, H.ResponderNext(ok, heard)).Silent? ==> m.Stay? && p.Claimed? && p.addr == s.committed
  {
    match s.responder.at
    case ROpen => m := if ok then Guard else Stay;
    case RTopOwn => m := if s.stopResponder then Halt else Stay;
    case RTopAll => m := if s.stop then Halt else Stay;
    case _ => m := Stay;
  }

  /** What a responder that is done with a frame has done is what the network model says of that frame. */
  lemma ResponderReacts(s: H.Host, ok: bool, heard: Option<ArpFrame>, f: ArpFrame)
    requires H.Inv(s) && Hand(s) == Some(f)
    ensures var e, reaction := EffectOf(s, H.ResponderNext(ok, heard)), Respond(f, s.mac, s.committed);
      && (e.Finish? ==> reaction.Ignore? || reaction.Cease?)
      && (e.Answer? ==> reaction == Defend(e.frame))
      && !e.Hear? && !e.Hold? && !e.Send?
  {}

  // ---------- The system and the network ----------

  ghost predicate Sim(s: System, net: N.Net) {
    && net.hosts.Keys == s.hosts.Keys && net.log == s.log && net.flight == s.flight && net.hidden <= s.missed
    && s.windows.Keys == s.hosts.Keys
    && forall h | h in s.hosts :: Agrees(s.hosts[h], net.hosts[h], s.windows[h])
  }

  /** Steps of the network, timely and, if so claimed, draining. */
  ghost predicate Path(nets: seq<N.Net>, acts: seq<N.Step>, drained: bool) {
    && |nets| == |acts| + 1
    && (forall i {:trigger acts[i]} | 0 <= i < |acts| :: N.Enabled(nets[i], acts[i]) && N.TimelyStep(nets[i], acts[i]) && nets[i + 1] == N.Apply(nets[i], acts[i]))
    && (drained ==> forall i {:trigger acts[i]} | 0 <= i < |acts| :: N.DrainedRelease(nets[i], acts[i]))
  }

  /** Nothing sent under the address that `h` holds is undelivered. */
  ghost predicate Quiet(net: N.Net, h: Mac) {
    forall c | c in net.flight && c.id < |net.log| && net.log[c.id].senderHw == h :: !N.Holds(net, h, net.log[c.id].senderIp)
  }

  lemma MovePath(net: N.Net, h: Mac, m: Move, drained: bool) returns (nets: seq<N.Net>, acts: seq<N.Step>)
    requires h in net.hosts && May(net.hosts[h], m)
    requires m.Close? ==> N.RoundTripCovered(net, h) && N.NoSequenceHidden(net, h)
    requires m.Free? && drained ==> Quiet(net, h)
    ensures Path(nets, acts, drained) && nets[0] == net && nets[|acts|] == N.SetPhase(net, h, Moved(net.hosts[h], m))
  {
    var net' := N.SetPhase(net, h, Moved(net.hosts[h], m));
    match m
    case Stay =>
      nets, acts := [net], [];
      assert net'.hosts == net.hosts;
    case Begin(a) => nets, acts := [net, net'], [N.Pick(h, a)];
    case Listen => nets, acts := [net, net'], [N.BindListener(h)];
    case Close => nets, acts := [net, net'], [N.CloseWindow(h)];
    case Guard => nets, acts := [net, net'], [N.BindResponder(h)];
    case Halt => nets, acts := [net, net'], [N.Stop(h)];
    case Free => nets, acts := FreePath(net, h, drained);
  }

  lemma FreePath(net: N.Net, h: Mac, drained: bool) returns (nets: seq<N.Net>, acts: seq<N.Step>)
    requires h in net.hosts && N.Holding(net.hosts[h]) && (drained ==> Quiet(net, h))
    ensures Path(nets, acts, drained) && nets[0] == net && nets[|acts|] == N.SetPhase(net, h, N.Deaf)
  {
    var mid := N.SetPhase(net, h, N.Stopped(net.hosts[h]));
    nets, acts := [net, mid, N.SetPhase(net, h, N.Deaf)], [N.Stop(h), N.Clear(h)];
    assert mid.hosts[h := N.Deaf] == net.hosts[h := N.Deaf];
    assert forall a :: N.Holds(mid, h, a) == N.Holds(net, h, a);
  }

  lemma HolderHas(s: H.Host, p: N.Phase, w: seq<nat>)
    requires H.Inv(s) && Agrees(s, p, w)
    ensures N.Holding(p) ==> Has(s, p.addr)
    ensures s.committed != 0 ==> N.Holding(p) && p.addr == s.committed
  {}

  /** The network's timing assumptions follow from the system's. */
  lemma ClosesInTime(s: System, net: N.Net, h: Mac)
    requires Inv(s) && N.Inv(net) && Sim(s, net) && h in s.hosts && net.hosts[h].Probing?
    requires RoundTripOver(s, h) && SomeProbeMet(s, h)
    ensures N.RoundTripCovered(net, h) && N.NoSequenceHidden(net, h)
  {
    assert Agrees(s.hosts[h], net.hosts[h], s.windows[h]);
    forall g | g != h && N.Holds(net, g, net.hosts[h].addr)
      ensures exists id: nat | N.Sent(net, h, id) :: N.Copy(id, g) !in net.hidden
    {
      HolderHas(s.hosts[g], net.hosts[g], s.windows[g]);
      var id: nat :| id in s.windows[h] && N.Copy(id, g) !in s.missed;
      assert N.Sent(net, h, id);
    }
  }

  lemma ReleasesQuietly(s: System, net: N.Net, h: Mac, step: H.Step, c: N.Copy)
    requires Inv(s) && Sim(s, net) && h in s.hosts && Releases(s.hosts[h], step) && Drained(s, Act(h, step, c))
    ensures Quiet(net, h)
  {
    HolderHas(s.hosts[h], net.hosts[h], s.windows[h]);
  }

  /** Only the acting host changes, on both sides. */
  lemma SimAt(s: System, s': System, net: N.Net, net': N.Net, h: Mac)
    requires Sim(s, net) && h in s.hosts && h in s'.hosts && h in s'.windows && h in net'.hosts
    requires s'.hosts == s.hosts[h := s'.hosts[h]] && s'.windows == s.windows[h := s'.windows[h]]
    requires net'.hosts == net.hosts[h := net'.hosts[h]]
    requires net'.log == s'.log && net'.flight == s'.flight && net'.hidden <= s'.missed
    requires Agrees(s'.hosts[h], net'.hosts[h], s'.windows[h])
    ensures Sim(s', net')
  {}

  // ---------- Every event is matched ----------

  /** Some steps of the network lead from `net` to a state that matches `s'`. */
  ghost predicate Leads(net: N.Net, s': System, nets: seq<N.Net>, acts: seq<N.Step>, drained: bool) {
    Path(nets, acts, drained) && nets[0] == net && Sim(s', nets[|acts|])
  }

  lemma QuietMove(s: H.Host, s': H.Host, step: H.Step, p: N.Phase, w: seq<nat>, n: nat) returns (m: Move)
    requires H.Inv(s) && H.Next(s, s', step) && Agrees(s, p, w) && (EffectOf(s, step).Silent? || EffectOf(s, step).Hold?)
    ensures Matched(s, s', step, p, w, n, m)
  {
    match step
    case Start => m := Stay;
    case Abort => m := Stay;
    case CtlNext => m := CtlMoves(s, s', p, w, n);
    case WorkerNext(pick) => m := WorkerMoves(s, s', pick, p, w, n);
    case ListenerNext(ok, heard) => m := ListenerMoves(s, s', ok, heard, p, w, n);
    case ResponderNext(ok, heard) => m := ResponderMoves(s, s', ok, heard, p, w, n);
  }

  lemma QuietSim(s: System, s': System, h: Mac, e: Effect, c: N.Copy, net: N.Net, m: Move, drained: bool) returns (nets: seq<N.Net>, acts: seq<N.Step>)
    requires Sim(s, net) && OnlyAt(s, s', h, e, c) && (e.Silent? || e.Hold?)
    requires May(net.hosts[h], m) && Agrees(s'.hosts[h], Moved(net.hosts[h], m), s'.windows[h])
    requires m.Close? ==> N.RoundTripCovered(net, h) && N.NoSequenceHidden(net, h)
    requires m.Free? && drained ==> Quiet(net, h)
    ensures Leads(net, s', nets, acts, drained)
  {
    nets, acts := MovePath(net, h, m, drained);
    SimAt(s, s', net, nets[|acts|], h);
  }

  /** A window that is open sends its probe; one that is being stopped may still send one that nobody waits for. */
  lemma ProbeMoves(s: H.Host, s': H.Host, pick: Ipv4, p: N.Phase, w: seq<nat>, n: nat)
    requires H.Inv(s) && AtProbe(s, H.WorkerNext(pick)) && H.Next(s, s', H.WorkerNext(pick)) && Agrees(s, p, w) && ListenerUp(s)
    ensures p.Deaf? || (p.Probing? && p.addr == s.tentative && |p.probes| < N.PROBE_NUM)
    ensures Agrees(s', Probed(p, n), w + [n])
  {}

  /** A frame sent on both sides, with a new phase for its sender. */
  lemma SendSim(s: System, s': System, h: Mac, f: ArpFrame, c: N.Copy, net: N.Net, p: N.Phase)
    requires Sim(s, net) && OnlyAt(s, s', h, Send(f), c) && Agrees(s'.hosts[h], p, s'.windows[h])
    ensures Sim(s', N.Broadcast(N.SetPhase(net, h, p), f))
  {
    var net' := N.Broadcast(N.SetPhase(net, h, p), f);
    assert net'.hosts.Keys == s.hosts.Keys;
    assert (set g | g in net'.hosts :: N.Copy(|s.log|, g)) == set g | g in s.hosts :: N.Copy(|s.log|, g);
    SimAt(s, s', net, net', h);
  }

  /** The phase a probe leaves its sender in. */
  function Probed(p: N.Phase, n: nat): N.Phase {
    if p.Probing? && p.bound then p.(probes := p.probes + [n]) else N.Deaf
  }

  lemma ProbePath(net: N.Net, h: Mac, a: Ipv4) returns (nets: seq<N.Net>, acts: seq<N.Step>)
    requires h in net.hosts
    requires net.hosts[h].Deaf? || (net.hosts[h].Probing? && net.hosts[h].addr == a && |net.hosts[h].probes| < N.PROBE_NUM)
    ensures Path(nets, acts, true) && nets[0] == net
    ensures nets[|acts|] == N.Broadcast(N.SetPhase(net, h, Probed(net.hosts[h], |net.log|)), ArpProbe(h, a))
  {
    var p, f := net.hosts[h], ArpProbe(h, a);
    if p.Deaf? {
      acts := [N.Stray(h, a)];
      assert N.SetPhase(net, h, p) == net by { assert net.hosts[h := p] == net.hosts; }
      nets := [net, N.Broadcast(net, f)];
    } else if p.bound {
      acts := [N.SendProbe(h)];
      nets := [net, N.Apply(net, acts[0])];
    } else {
      acts := [N.Stop(h), N.Stray(h, a)];
      var mid := N.SetPhase(net, h, N.Deaf);
      nets := [net, mid, N.Broadcast(mid, f)];
    }
  }

  lemma ProbeSim(s: System, s': System, h: Mac, c: N.Copy, net: N.Net, a: Ipv4, drained: bool) returns (nets: seq<N.Net>, acts: seq<N.Step>)
    requires Sim(s, net) && OnlyAt(s, s', h, Send(ArpProbe(h, a)), c)
    requires net.hosts[h].Deaf? || (net.hosts[h].Probing? && net.hosts[h].addr == a && |net.hosts[h].probes| < N.PROBE_NUM)
    requires Agrees(s'.hosts[h], Probed(net.hosts[h], |s.log|), s'.windows[h])
    ensures Leads(net, s', nets, acts, drained)
  {
    nets, acts := ProbePath(net, h, a);
    SendSim(s, s', h, ArpProbe(h, a), c, net, Probed(net.hosts[h], |s.log|));
  }

  lemma AnnounceSim(s: System, s': System, h: Mac, c: N.Copy, net: N.Net, a: Ipv4, drained: bool) returns (nets: seq<N.Net>, acts: seq<N.Step>)
    requires Sim(s, net) && OnlyAt(s, s', h, Send(ArpAnnounce(h, a)), c)
    requires N.Holding(net.hosts[h]) && net.hosts[h].addr == a && Agrees(s'.hosts[h], net.hosts[h], s'.windows[h])
    ensures Leads(net, s', nets, acts, drained)
  {
    var p := net.hosts[h];
    acts := [N.Announce(h)];
    assert N.SetPhase(net, h, p) == net by { assert net.hosts[h := p] == net.hosts; }
    SendSim(s, s', h, ArpAnnounce(h, a), c, net, p);
    nets := [net, N.Apply(net, acts[0])];
  }

  /** The copy a thread is done with has been received: by a listener, or by a responder. */
  lemma HeardSim(s: System, s': System, h: Mac, e: Effect, c: N.Copy, net: N.Net, drained: bool) returns (nets: seq<N.Net>, acts: seq<N.Step>)
    requires Sim(s, net) && OnlyAt(s, s', h, e, c) && e.Hear? && net.hosts[h].Probing? && net.hosts[h].bound
    requires var p := net.hosts[h]; Agrees(s'.hosts[h], p.(conflict := p.conflict || IsConflict(e.frame, h, p.addr)), s'.windows[h])
    ensures Leads(net, s', nets, acts, drained)
  {
    nets, acts := ReceivePath(net, c, drained);
    SimAt(s, s', net, N.Deliver(net, c), h);
  }

  lemma TakenSim(s: System, s': System, h: Mac, e: Effect, c: N.Copy, d: N.Copy, net: N.Net, drained: bool)
    returns (nets: seq<N.Net>, acts: seq<N.Step>)
    requires Sim(s, net) && OnlyAt(s, s', h, e, c) && d in s.flight && d.dest == h && d.id < |s.log| && net.hosts[h].Claimed?
    requires (e.Hear? && d == c) || (e.Finish? && d == s.hand[h])
    requires !Respond(s.log[d.id], h, net.hosts[h].addr).Defend?
    requires forall cease :: Agrees(s'.hosts[h], N.Claimed(net.hosts[h].addr, cease), s'.windows[h])
    ensures Leads(net, s', nets, acts, drained)
  {
    nets, acts := ReceivePath(net, d, drained);
    var net' := N.Deliver(net, d);
    assert net'.hosts == net.hosts[h := net'.hosts[h]];
    SimAt(s, s', net, net', h);
  }

  lemma ReceivePath(net: N.Net, d: N.Copy, drained: bool) returns (nets: seq<N.Net>, acts: seq<N.Step>)
    requires N.Enabled(net, N.Receive(d))
    ensures Path(nets, acts, drained) && |acts| == 1 && nets[0] == net && nets[1] == N.Deliver(net, d)
  {
    nets, acts := [net, N.Deliver(net, d)], [N.Receive(d)];
  }

  lemma AnsweredSim(s: System, s': System, h: Mac, e: Effect, c: N.Copy, net: N.Net, drained: bool)
    returns (nets: seq<N.Net>, acts: seq<N.Step>)
    requires Sim(s, net) && OnlyAt(s, s', h, e, c) && e.Answer? && net.hosts[h].Claimed?
    requires var d := s.hand[h]; d in s.flight && d.dest == h && d.id < |s.log| && Respond(s.log[d.id], h, net.hosts[h].addr) == Defend(e.frame)
    requires Agrees(s'.hosts[h], net.hosts[h], s'.windows[h])
    ensures Leads(net, s', nets, acts, drained)
  {
    nets, acts := ReceivePath(net, s.hand[h], drained);
    var net' := N.Deliver(net, s.hand[h]);
    assert (set g | g in net.hosts :: N.Copy(|s.log|, g)) == set g | g in s.hosts :: N.Copy(|s.log|, g);
    assert net'.hosts == net.hosts[h := net.hosts[h]];
    SimAt(s, s', net, net', h);
  }

  lemma DropAgrees(s: H.Host, p: N.Phase, w: seq<nat>)
    requires H.Inv(s) && Agrees(s, p, w) && !HasSocket(s)
    ensures !p.Claimed? && (p.Probing? && p.bound ==> p.conflict) && (N.Holding(p) ==> IsHolder(s))
  {}

  lemma DropSim(s: System, s': System, c: N.Copy, net: N.Net, drained: bool) returns (nets: seq<N.Net>, acts: seq<N.Step>)
    requires Sim(s, net) && Next(s, s', Drop(c)) && c.id < |s.log| && H.Inv(s.hosts[c.dest])
    ensures Leads(net, s', nets, acts, drained)
  {
    var h := c.dest;
    nets, acts := ReceivePath(net, c, drained);
    var p := net.hosts[h];
    DropAgrees(s.hosts[h], p, s.windows[h]);
    assert N.Deliver(net, c).hosts == net.hosts by { assert net.hosts[h := p] == net.hosts; }
    SimAlike(s, s', net, N.Deliver(net, c));
  }

  /** No host changes. */
  lemma SimAlike(s: System, s': System, net: N.Net, net': N.Net)
    requires Sim(s, net) && s'.hosts == s.hosts && s'.windows == s.windows && net'.hosts == net.hosts
    requires net'.log == s'.log && net'.flight == s'.flight && net'.hidden <= s'.missed
    ensures Sim(s', net')
  {}

  /** What an event of host `h` is for the host and for its window. */
  ghost predicate ActsAt(s: System, s': System, h: Mac, step: H.Step) {
    && h in s.hosts && h in s.windows && h in s'.hosts && h in s'.windows && H.Inv(s.hosts[h]) && s.hosts[h].mac == h
    && H.Next(s.hosts[h], s'.hosts[h], step)
    && s'.windows[h] == WindowAfter(s.hosts[h], step, s.windows[h], |s.log|)
  }

  lemma SilentSim(s: System, s': System, h: Mac, step: H.Step, c: N.Copy, net: N.Net, drained: bool) returns (nets: seq<N.Net>, acts: seq<N.Step>)
    requires Inv(s) && N.Inv(net) && Sim(s, net) && ActsAt(s, s', h, step) && OnlyAt(s, s', h, EffectOf(s.hosts[h], step), c)
    requires EffectOf(s.hosts[h], step).Silent? || EffectOf(s.hosts[h], step).Hold?
    requires Closes(s.hosts[h], step) ==> RoundTripOver(s, h) && SomeProbeMet(s, h)
    requires drained ==> Drained(s, Act(h, step, c))
    ensures Leads(net, s', nets, acts, drained)
  {
    var m := QuietMove(s.hosts[h], s'.hosts[h], step, net.hosts[h], s.windows[h], |s.log|);
    if m.Close? {
      ClosesInTime(s, net, h);
    }
    if m.Free? && drained {
      ReleasesQuietly(s, net, h, step, c);
    }
    nets, acts := QuietSim(s, s', h, EffectOf(s.hosts[h], step), c, net, m, drained);
  }

  lemma SendsSim(s: System, s': System, h: Mac, step: H.Step, c: N.Copy, net: N.Net, drained: bool) returns (nets: seq<N.Net>, acts: seq<N.Step>)
    requires Sim(s, net) && ActsAt(s, s', h, step) && OnlyAt(s, s', h, EffectOf(s.hosts[h], step), c)
    requires EffectOf(s.hosts[h], step).Send?
    requires AtProbe(s.hosts[h], step) ==> ListenerUp(s.hosts[h])
    ensures Leads(net, s', nets, acts, drained)
  {
    if AtProbe(s.hosts[h], step) {
      ProbeMoves(s.hosts[h], s'.hosts[h], step.pick, net.hosts[h], s.windows[h], |s.log|);
      nets, acts := ProbeSim(s, s', h, c, net, s.hosts[h].tentative, drained);
    } else {
      var m := ClaimMoves(s.hosts[h], s'.hosts[h], step.pick, net.hosts[h], s.windows[h], |s.log|);
      nets, acts := AnnounceSim(s, s', h, c, net, s.hosts[h].committed, drained);
    }
  }

  lemma HearsSim(s: System, s': System, h: Mac, step: H.Step, c: N.Copy, net: N.Net, drained: bool) returns (nets: seq<N.Net>, acts: seq<N.Step>)
    requires Sim(s, net) && ActsAt(s, s', h, step) && OnlyAt(s, s', h, EffectOf(s.hosts[h], step), c)
    requires EffectOf(s.hosts[h], step).Hear?
    ensures Leads(net, s', nets, acts, drained)
  {
    if step.ListenerNext? {
      ListenerHears(s.hosts[h], s'.hosts[h], step.ok, step.heard.value, net.hosts[h], s.windows[h]);
      nets, acts := HeardSim(s, s', h, EffectOf(s.hosts[h], step), c, net, drained);
    } else {
      var m := ResponderMoves(s.hosts[h], s'.hosts[h], step.ok, step.heard, net.hosts[h], s.windows[h], |s.log|);
      nets, acts := TakenSim(s, s', h, EffectOf(s.hosts[h], step), c, c, net, drained);
    }
  }

  lemma FinishSim(s: System, s': System, h: Mac, step: H.Step, c: N.Copy, net: N.Net, drained: bool) returns (nets: seq<N.Net>, acts: seq<N.Step>)
    requires Sim(s, net) && ActsAt(s, s', h, step) && OnlyAt(s, s', h, EffectOf(s.hosts[h], step), c) && HandInv(s, h)
    requires EffectOf(s.hosts[h], step).Finish? || EffectOf(s.hosts[h], step).Answer?
    ensures Leads(net, s', nets, acts, drained)
  {
    var f := Hand(s.hosts[h]).value;
    var m := ResponderMoves(s.hosts[h], s'.hosts[h], step.ok, step.heard, net.hosts[h], s.windows[h], |s.log|);
    ResponderReacts(s.hosts[h], step.ok, step.heard, f);
    if EffectOf(s.hosts[h], step).Answer? {
      nets, acts := AnsweredSim(s, s', h, EffectOf(s.hosts[h], step), c, net, drained);
    } else {
      nets, acts := TakenSim(s, s', h, EffectOf(s.hosts[h], step), c, s.hand[h], net, drained);
    }
  }

  /** Every timely event of the system is matched by timely steps of the network. */
  lemma NextSim(s: System, s': System, e: Event, net: N.Net, drained: bool) returns (nets: seq<N.Net>, acts: seq<N.Step>)
    requires Inv(s) && N.Inv(net) && Sim(s, net) && Next(s, s', e) && Timely(s, e)
    requires drained ==> Drained(s, e)
    ensures Leads(net, s', nets, acts, drained)
  {
    match e
    case Drop(c) => nets, acts := DropSim(s, s', c, net, drained);
    case Act(h, step, c) =>
      ActOnlyAt(s, s', h, step, c);
      var effect := EffectOf(s.hosts[h], step);
      assert ActsAt(s, s', h, step);
      if effect.Send? {
        nets, acts := SendsSim(s, s', h, step, c, net, drained);
      } else if effect.Hear? {
        nets, acts := HearsSim(s, s', h, step, c, net, drained);
      } else if effect.Finish? || effect.Answer? {
        nets, acts := FinishSim(s, s', h, step, c, net, drained);
      } else {
        nets, acts := SilentSim(s, s', h, step, c, net, drained);
      }
  }

  // ---------- Whole runs ----------

  lemma InitSim(s: System) returns (net: N.Net)
    requires Init(s)
    ensures N.Init(net) && Sim(s, net)
  {
    net := N.Net(map h | h in s.hosts :: N.Deaf, [], {}, {});
  }

  /** A timely run of the network, and a draining one if so claimed. */
  ghost predicate NetRun(nets: seq<N.Net>, acts: seq<N.Step>, drained: bool) {
    N.TimelyRun(nets, acts) && (drained ==> N.DrainedRun(nets, acts))
  }

  lemma Extended(nets: seq<N.Net>, acts: seq<N.Step>, nets': seq<N.Net>, acts': seq<N.Step>, drained: bool)
    requires NetRun(nets, acts, drained) && Path(nets', acts', drained) && nets'[0] == nets[|acts|]
    ensures NetRun(nets + nets'[1..], acts + acts', drained)
  {
    var all, steps := nets + nets'[1..], acts + acts';
    forall i | 0 <= i < |steps|
      ensures N.Enabled(all[i], steps[i]) && N.TimelyStep(all[i], steps[i]) && all[i + 1] == N.Apply(all[i], steps[i])
      ensures drained ==> N.DrainedRelease(all[i], steps[i])
    {
      if i >= |acts| {
        var k := i - |acts|;
        assert steps[i] == acts'[k] && all[i] == nets'[k] && all[i + 1] == nets'[k + 1];
      }
    }
  }

  /** Refinement: every state of every timely run of the system is matched at the end of a timely run of the network,
      and of one that drains the link if the system's run does. */
  lemma {:induction false} Refines(run: seq<System>, events: seq<Event>, n: nat, drained: bool) returns (nets: seq<N.Net>, acts: seq<N.Step>)
    requires DrainedRun(run, events, drained) && n < |run|
    ensures NetRun(nets, acts, drained) && Sim(run[n], nets[|acts|]) && Inv(run[n])
  {
    if n == 0 {
      InitInv(run[0]);
      var net := InitSim(run[0]);
      nets, acts := [net], [];
    } else {
      nets, acts := Refines(run, events, n - 1, drained);
      N.RunInv(nets, acts, |acts|);
      NextInv(run[n - 1], run[n], events[n - 1]);
      var nets', acts' := NextSim(run[n - 1], run[n], events[n - 1], nets[|acts|], drained);
      Extended(nets, acts, nets', acts', drained);
      nets, acts := nets + nets'[1..], acts + acts';
    }
  }

  /** In every timely run of hosts whose threads interleave freely, no two hosts ever have the same address committed. */
  lemma CommittedAddressesAreUnique(run: seq<System>, events: seq<Event>, n: nat, g: Mac, h: Mac)
    requires TimelyRun(run, events) && n < |run| && g in run[n].hosts && h in run[n].hosts && g != h
    requires run[n].hosts[g].committed != 0
    ensures run[n].hosts[h].committed != run[n].hosts[g].committed
  {
    var s := run[n];
    var nets, acts := Refines(run, events, n, false);
    var net := nets[|acts|];
    HolderHas(s.hosts[g], net.hosts[g], s.windows[g]);
    HolderHas(s.hosts[h], net.hosts[h], s.windows[h]);
    N.UniqueClaims(nets, acts, |acts|, g, h, s.hosts[g].committed);
  }

  // ---------- Claims are kept ----------

  /** On a link that is drained, no responder ever has a conflicting frame in hand. */
  lemma NoConflictInHand(run: seq<System>, events: seq<Event>, n: nat, h: Mac)
    requires DrainedRun(run, events, true) && n < |run| && h in run[n].hosts
    ensures Inv(run[n]) && !(run[n].hosts[h].responder.Responding? && run[n].hosts[h].responder.at.RCease?)
  {
    var s := run[n];
    var nets, acts := Refines(run, events, n, true);
    var net := nets[|acts|];
    if s.hosts[h].responder.Responding? && s.hosts[h].responder.at.RCease? {
      var f := s.hosts[h].responder.at.f;
      HolderHas(s.hosts[h], net.hosts[h], s.windows[h]);
      assert HandInv(s, h) && Hand(s.hosts[h]) == Some(f);
      N.ClaimsAreStable(nets, acts, |acts|);
      assert N.Holds(net, f.senderHw, f.senderIp);
      N.UniqueClaims(nets, acts, |acts|, h, f.senderHw, f.senderIp);
    }
  }

  /** No conflict has been seen under the address the host has. */
  ghost predicate Untroubled(s: H.Host) {
    H.CeaseInv(s) && (s.committed != 0 ==> s.conflictIn < s.claims)
  }

  lemma CtlCounts(s: H.Host, s': H.Host)
    requires H.Inv(s) && H.CtlStep(s, s')
    ensures s'.conflictIn == s.conflictIn && s'.claims == s.claims && (s'.committed == s.committed || s'.committed == 0)
  {}

  lemma ClaimCounts(s: H.Host, s': H.Host)
    requires H.Inv(s) && s.worker.Claiming? && H.ClaimStep(s, s') && Untroubled(s)
    ensures s'.conflictIn == s.conflictIn
    ensures (s'.committed == s.committed && s'.claims == s.claims) || (s.committed == 0 && s'.claims == s.claims + 1)
  {}

  /** A thread moves the count of claims only by committing one, and clears an address only in `abort`. */
  lemma Counts(s: H.Host, s': H.Host, step: H.Step)
    requires H.Inv(s) && H.Next(s, s', step) && Untroubled(s) && !(s.responder.Responding? && s.responder.at.RCease?)
    ensures s'.conflictIn == s.conflictIn
    ensures || (s'.claims == s.claims && (s'.committed == s.committed || (s'.committed == 0 && step.CtlNext?)))
            || (s.committed == 0 && s'.claims == s.claims + 1)
  {
    match step
    case Start =>
    case Abort =>
    case CtlNext => CtlCounts(s, s');
    case WorkerNext(_) =>
      if s.worker.Claiming? {
        ClaimCounts(s, s');
      }
    case ListenerNext(_, _) =>
    case ResponderNext(_, _) =>
  }

  lemma StaysUntroubled(s: H.Host, s': H.Host, step: H.Step)
    requires H.Inv(s) && H.Next(s, s', step) && Untroubled(s) && !(s.responder.Responding? && s.responder.at.RCease?)
    ensures Untroubled(s')
  {
    H.NextCease(s, s', step);
    Counts(s, s', step);
  }

  /** A host changes only in its own steps. */
  lemma HostStep(s: System, s': System, e: Event, h: Mac)
    requires Next(s, s', e) && h in s'.hosts
    ensures h in s.hosts && (e.Act? && e.h == h ==> H.Next(s.hosts[h], s'.hosts[h], e.step))
    ensures !(e.Act? && e.h == h) ==> s'.hosts[h] == s.hosts[h]
  {}

  lemma NextUntroubled(s: System, s': System, e: Event, h: Mac)
    requires Inv(s) && Next(s, s', e) && h in s.hosts && h in s'.hosts
    requires Untroubled(s.hosts[h]) && !(s.hosts[h].responder.Responding? && s.hosts[h].responder.at.RCease?)
    ensures Untroubled(s'.hosts[h])
  {
    HostStep(s, s', e, h);
    if e.Act? && e.h == h {
      StaysUntroubled(s.hosts[h], s'.hosts[h], e.step);
    }
  }

  lemma InitUntroubled(s: H.Host)
    requires H.Init(s)
    ensures Untroubled(s)
  {}

  lemma UntroubledAt(run: seq<System>, events: seq<Event>, n: nat, h: Mac)
    requires DrainedRun(run, events, true) && n < |events| && h in run[n + 1].hosts && h in run[n].hosts && Untroubled(run[n].hosts[h])
    ensures Untroubled(run[n + 1].hosts[h])
  {
    NoConflictInHand(run, events, n, h);
    NextUntroubled(run[n], run[n + 1], events[n], h);
  }

  lemma {:induction false} SameHosts(run: seq<System>, events: seq<Event>, n: nat)
    requires TimelyRun(run, events) && n < |run|
    ensures run[n].hosts.Keys == run[0].hosts.Keys
  {
    if n > 0 {
      SameHosts(run, events, n - 1);
      NextHosts(run[n - 1], run[n], events[n - 1]);
    }
  }

  lemma NextHosts(s: System, s': System, e: Event)
    requires Next(s, s', e)
    ensures s'.hosts.Keys == s.hosts.Keys
  {}

  lemma RunUntroubled(run: seq<System>, events: seq<Event>, n: nat, h: Mac)
    requires DrainedRun(run, events, true) && n < |run| && h in run[n].hosts
    ensures Untroubled(run[n].hosts[h])
  {
    forall i: nat | i < |run| ensures h in run[i].hosts {
      SameHosts(run, events, n);
      SameHosts(run, events, i);
    }
    var good := iset i: nat | i < |run| && Untroubled(run[i].hosts[h]);
    InitUntroubled(run[0].hosts[h]);
    forall i: nat | i < n && i in good ensures i + 1 in good {
      UntroubledAt(run, events, i, h);
    }
    UpTo(good, 0, n);
  }

  /** On a link that is drained, an address once committed is kept until `abort` clears it. */
  lemma ClaimsAreKept(run: seq<System>, events: seq<Event>, n: nat, h: Mac)
    requires DrainedRun(run, events, true) && n < |events| && h in run[n + 1].hosts
    ensures h in run[n].hosts
    ensures run[n].hosts[h].committed != 0 && run[n + 1].hosts[h].committed != run[n].hosts[h].committed ==>
              events[n].Act? && events[n].h == h && events[n].step.CtlNext? && run[n + 1].hosts[h].committed == 0
  {
    HostStep(run[n], run[n + 1], events[n], h);
    RunUntroubled(run, events, n, h);
    NoConflictInHand(run, events, n, h);
    if events[n].Act? && events[n].h == h {
      Counts(run[n].hosts[h], run[n + 1].hosts[h], events[n].step);
    }
  }
}
