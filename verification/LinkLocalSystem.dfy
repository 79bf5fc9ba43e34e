/**
 Hosts with all their threads on one link: the claim machine of `LinkLocalHost`, once per hardware address, and a
 broadcast link between them. An event is one step of one thread of one host, or the loss of a copy of a frame.
 */
module LinkLocalSystem {
  import opened Wrappers
  import opened Arp
  import H = LinkLocalHost
  import N = LinkLocalNetwork

  /** A copy stays in flight until the thread that reads it is done with it: `hand` is the copy a responder works on.
      `windows` holds the log positions of the probes of each host's last window, and `missed` the copies that came for
      a host with an address and no socket. */
  datatype System = System(
    hosts: map<Mac, H.Host>, log: seq<ArpFrame>, flight: set<N.Copy>,
    hand: map<Mac, N.Copy>, windows: map<Mac, seq<nat>>, missed: set<N.Copy>)

  /** A step of one of a host's threads, with the copy it reads if it reads one, or the loss of a copy that finds no
      open socket. */
  datatype Event = Act(h: Mac, step: H.Step, copy: N.Copy) | Drop(copy: N.Copy)

  /** What a thread's step does to the link. */
  datatype Effect = Silent | Send(frame: ArpFrame) | Hear(frame: ArpFrame) | Hold(frame: ArpFrame) | Finish | Answer(frame: ArpFrame)

  ghost predicate Init(s: System) {
    && (forall h | h in s.hosts :: H.Init(s.hosts[h]) && s.hosts[h].mac == h)
    && s.windows.Keys == s.hosts.Keys
    && s.log == [] && s.flight == {} && s.missed == {}
  }

  predicate AtProbe(s: H.Host, step: H.Step) {
    step.WorkerNext? && s.worker.Seeking? && s.worker.seek.EmitProbe?
  }

  predicate AtAnnounce(s: H.Host, step: H.Step) {
    step.WorkerNext? && s.worker.Claiming? && s.worker.claim.EmitAnnounce?
  }

  function EffectOf(s: H.Host, step: H.Step): Effect {
    match step
    case ListenerNext(_, heard) => if s.listener == H.Listening(H.LRecv) && heard.Some? then Hear(heard.value) else Silent
    case ResponderNext(_, heard) => if s.responder.Responding? then ResponderEffect(s, s.responder.at, heard) else Silent
    case _ =>
      if AtProbe(s, step) then Send(ArpProbe(s.mac, s.tentative))
      else if AtAnnounce(s, step) then Send(ArpAnnounce(s.mac, s.committed))
      else Silent
  }

  function ResponderEffect(s: H.Host, at: H.ResponderAt, heard: Option<ArpFrame>): Effect {
    match at
    case RRecv => if heard.None? then Silent else if heard.value.senderHw == s.mac then Hear(heard.value) else Hold(heard.value)
    case RDecide(f, snap) => if Respond(f, s.mac, snap).Ignore? then Finish else Silent
    case RCease(_) => Finish
    case RReply(_) => if s.committed == 0 then Finish else Silent
    case RSend(f, addr) => Answer(ArpReply(s.mac, addr, f.senderIp))
    case _ => Silent
  }

  predicate Offered(s: System, h: Mac, c: N.Copy, f: ArpFrame) {
    c in s.flight && c.dest == h && c.id < |s.log| && s.log[c.id] == f
  }

  predicate LinkAllows(s: System, h: Mac, e: Effect, c: N.Copy) {
    match e
    case Hear(f) => Offered(s, h, c, f)
    case Hold(f) => Offered(s, h, c, f)
    case Finish => h in s.hand
    case Answer(_) => h in s.hand
    case _ => true
  }

  function Broadcast(s: System, f: ArpFrame): System {
    s.(log := s.log + [f], flight := s.flight + set h | h in s.hosts :: N.Copy(|s.log|, h))
  }

  function LinkAfter(s: System, h: Mac, e: Effect, c: N.Copy): System
    requires LinkAllows(s, h, e, c)
  {
    match e
    case Silent => s
    case Send(f) => Broadcast(s, f)
    case Hear(_) => s.(flight := s.flight - {c})
    case Hold(_) => s.(hand := s.hand[h := c])
    case Finish => s.(flight := s.flight - {s.hand[h]})
    case Answer(f) => Broadcast(s.(flight := s.flight - {s.hand[h]}), f)
  }

  function WindowAfter(s: H.Host, step: H.Step, window: seq<nat>, at: nat): seq<nat> {
    if AtProbe(s, step) then window + [at]
    else if step.WorkerNext? && s.worker == H.Seeking(H.SpawnListener) then []
    else window
  }

  /** One of the host's two sockets is open. */
  predicate HasSocket(s: H.Host) {
    (s.listener.Listening? && !s.listener.at.LOpen?) || (s.responder.Responding? && !s.responder.at.ROpen?)
  }

  /** The window has closed without a conflict and the address is about to be committed. */
  predicate Committing(s: H.Host) {
    || s.worker == H.Claiming(H.Commit)
    || (s.worker.Seeking? && !s.conflict && !s.listener.Listening?
        && (s.worker.seek.WindowStop? || s.worker.seek.WindowConflict? || s.worker.seek == H.JoinL(H.WindowL)))
  }

  /** The host has committed an address, or is about to. */
  predicate IsHolder(s: H.Host) {
    s.committed != 0 || Committing(s)
  }

  predicate Has(s: H.Host, a: Ipv4) {
    IsHolder(s) && a == if s.committed != 0 then s.committed else s.tentative
  }

  predicate Next(s: System, s': System, e: Event) {
    match e
    case Act(h, step, c) =>
      && h in s.hosts && h in s'.hosts && h in s.windows && H.Next(s.hosts[h], s'.hosts[h], step)
      && var effect := EffectOf(s.hosts[h], step);
      && LinkAllows(s, h, effect, c)
      && s' == LinkAfter(s, h, effect, c).(hosts := s.hosts[h := s'.hosts[h]],
                                           windows := s.windows[h := WindowAfter(s.hosts[h], step, s.windows[h], |s.log|)])
    case Drop(c) =>
      && c in s.flight && c.dest in s.hosts && !HasSocket(s.hosts[c.dest])
      && s' == s.(flight := s.flight - {c}, missed := if IsHolder(s.hosts[c.dest]) then s.missed + {c} else s.missed)
  }

  // ---------- Timing ----------

  /** The listener ends the window without a conflict. */
  predicate Closes(s: H.Host, step: H.Step) {
    step.ListenerNext? && s.listener == H.Listening(H.LTopOwn) && s.stopListener && s.worker == H.Seeking(H.JoinL(H.WindowL))
  }

  /** No copy of the window's probes, and no Reply that defends the address, is undelivered. */
  ghost predicate RoundTripOver(s: System, h: Mac)
    requires h in s.hosts
  {
    var a := s.hosts[h].tentative;
    && (forall c | c in s.flight && c.dest != h && c.id < |s.log| :: s.log[c.id] != ArpProbe(h, a))
    && (forall c | c in s.flight && c.dest == h && c.id < |s.log| ::
          !(s.log[c.id].opcode == REPLY && s.log[c.id].senderIp == a && s.log[c.id].senderHw != h))
  }

  /** No other host that has the address missed every probe of the window. */
  ghost predicate SomeProbeMet(s: System, h: Mac)
    requires h in s.hosts && h in s.windows
  {
    forall g | g in s.hosts && g != h && Has(s.hosts[g], s.hosts[h].tentative) ::
      exists id: nat | id in s.windows[h] :: N.Copy(id, g) !in s.missed
  }

  /** The listener has its socket, or has had one and finished. */
  predicate ListenerUp(s: H.Host) {
    if s.listener.Listening? then !s.listener.at.LOpen? else s.conflict || s.stop
  }

  ghost predicate Timely(s: System, e: Event) {
    e.Act? && e.h in s.hosts && e.h in s.windows ==>
      && (Closes(s.hosts[e.h], e.step) ==> RoundTripOver(s, e.h) && SomeProbeMet(s, e.h))
      && (AtProbe(s.hosts[e.h], e.step) ==> ListenerUp(s.hosts[e.h]))
  }

  /** The host lets go of an address, or of one it was about to commit. */
  predicate Releases(s: H.Host, step: H.Step) {
    || (step.CtlNext? && s.ctl.Aborting? && s.ctl.at.ClearAddress?)
    || (step.WorkerNext? && (s.worker == H.Claiming(H.ClearAddr) || (s.worker == H.Seeking(H.WindowStop) && s.stop)))
  }

  /** An address is let go of only after the link has delivered what was sent under it. */
  ghost predicate Drained(s: System, e: Event) {
    e.Act? && e.h in s.hosts && Releases(s.hosts[e.h], e.step) ==>
      forall c | c in s.flight && c.id < |s.log| && s.log[c.id].senderHw == e.h :: !Has(s.hosts[e.h], s.log[c.id].senderIp)
  }

  ghost predicate TimelyRun(run: seq<System>, events: seq<Event>) {
    && |run| == |events| + 1 && Init(run[0])
    && forall i {:trigger events[i]} | 0 <= i < |events| :: Next(run[i], run[i + 1], events[i]) && Timely(run[i], events[i])
  }

  /** The run drains the link, if it is claimed to. */
  ghost predicate DrainedRun(run: seq<System>, events: seq<Event>, drained: bool) {
    TimelyRun(run, events) && (drained ==> forall i {:trigger events[i]} | 0 <= i < |events| :: Drained(run[i], events[i]))
  }

  // ---------- What every run keeps ----------

  function Hand(s: H.Host): Option<ArpFrame> {
    if s.responder.Responding? then InHand(s.responder.at) else None
  }

  /** The frame a responder works on. */
  function InHand(at: H.ResponderAt): Option<ArpFrame> {
    match at
    case RSnap(f) => Some(f)
    case RDecide(f, _) => Some(f)
    case RCease(f) => Some(f)
    case RReply(f) => Some(f)
    case RSend(f, _) => Some(f)
    case _ => None
  }

  predicate HandInv(s: System, h: Mac)
    requires h in s.hosts
  {
    var f := Hand(s.hosts[h]);
    f.Some? ==> h in s.hand && Offered(s, h, s.hand[h], f.value)
  }

  ghost predicate Inv(s: System) {
    s.windows.Keys == s.hosts.Keys && forall h | h in s.hosts :: H.Inv(s.hosts[h]) && s.hosts[h].mac == h && HandInv(s, h)
  }

  lemma InitInv(s: System)
    requires Init(s)
    ensures Inv(s)
  {
    forall h | h in s.hosts ensures H.Inv(s.hosts[h]) && HandInv(s, h) {
      H.InitInv(s.hosts[h]);
    }
  }

  /** What a step with this effect does to the frame in its host's hand. */
  predicate HandNext(was: Option<ArpFrame>, now: Option<ArpFrame>, e: Effect) {
    match e
    case Silent => now == was || now == None
    case Send(_) => now == was
    case Hear(_) => now == None
    case Hold(f) => now == Some(f)
    case Finish => was.Some? && now == None
    case Answer(_) => was.Some? && now == None
  }

  predicate HandStep(s: H.Host, s': H.Host, step: H.Step) {
    s'.mac == s.mac && HandNext(Hand(s), Hand(s'), EffectOf(s, step))
  }

  lemma CtlHand(s: H.Host, s': H.Host)
    requires H.Inv(s) && H.Next(s, s', H.CtlNext)
    ensures HandStep(s, s', H.CtlNext)
  {}

  lemma SeekHand(s: H.Host, s': H.Host, pick: Ipv4)
    requires s.worker.Seeking? && IsLinkLocal(pick) && H.SeekStep(s, s', pick)
    ensures HandStep(s, s', H.WorkerNext(pick))
  {}

  lemma ClaimHand(s: H.Host, s': H.Host, pick: Ipv4)
    requires H.Inv(s) && s.worker.Claiming? && H.ClaimStep(s, s')
    ensures HandStep(s, s', H.WorkerNext(pick))
  {}

  lemma ListenerHand(s: H.Host, s': H.Host, ok: bool, heard: Option<ArpFrame>)
    requires H.Inv(s) && H.ListenerStep(s, s', ok, heard)
    ensures HandStep(s, s', H.ListenerNext(ok, heard))
  {}

  lemma ResponderHand(s: H.Host, s': H.Host, ok: bool, heard: Option<ArpFrame>)
    requires H.ResponderStep(s, s', ok, heard)
    ensures HandStep(s, s', H.ResponderNext(ok, heard))
  {}

  lemma WorkerHand(s: H.Host, s': H.Host, pick: Ipv4)
    requires H.Inv(s) && H.Next(s, s', H.WorkerNext(pick))
    ensures HandStep(s, s', H.WorkerNext(pick))
  {
    if s.worker.Claiming? {
      ClaimHand(s, s', pick);
    } else {
      SeekHand(s, s', pick);
    }
  }

  lemma HandMoves(s: H.Host, s': H.Host, step: H.Step)
    requires H.Inv(s) && H.Next(s, s', step)
    ensures HandStep(s, s', step)
  {
    match step
    case Start =>
    case Abort =>
    case CtlNext => CtlHand(s, s');
    case WorkerNext(pick) => WorkerHand(s, s', pick);
    case ListenerNext(ok, heard) => ListenerHand(s, s', ok, heard);
    case ResponderNext(ok, heard) => ResponderHand(s, s', ok, heard);
  }

  /** What an event of host `h` leaves alone. */
  predicate OnlyAt(s: System, s': System, h: Mac, e: Effect, c: N.Copy) {
    && LinkAllows(s, h, e, c) && h in s.hosts && h in s'.hosts && h in s'.windows
    && s'.hosts == s.hosts[h := s'.hosts[h]] && s'.windows == s.windows[h := s'.windows[h]] && s'.missed == s.missed
    && var after := LinkAfter(s, h, e, c);
    && s'.log == after.log && s'.flight == after.flight && s'.hand == after.hand
  }

  lemma ActOnlyAt(s: System, s': System, h: Mac, step: H.Step, c: N.Copy)
    requires Next(s, s', Act(h, step, c))
    ensures OnlyAt(s, s', h, EffectOf(s.hosts[h], step), c)
  {}

  /** A step removes no copy but one of its own host's, and not the one in hand unless it is done with it. */
  lemma HandKept(s: System, s': System, h: Mac, e: Effect, c: N.Copy, g: Mac)
    requires OnlyAt(s, s', h, e, c) && g in s.hosts && HandInv(s, g) && HandInv(s, h)
    requires HandNext(Hand(s.hosts[h]), Hand(s'.hosts[h]), e)
    ensures HandInv(s', g)
  {
    var f := Hand(s'.hosts[g]);
    assert s.log <= s'.log;
    if f.Some? && (g != h || !e.Hold?) {
      assert Hand(s.hosts[g]) == f;
      assert s.hand[g] in s'.flight;
    }
  }

  lemma ActInv(s: System, s': System, h: Mac, e: Effect, c: N.Copy)
    requires Inv(s) && OnlyAt(s, s', h, e, c) && HandNext(Hand(s.hosts[h]), Hand(s'.hosts[h]), e)
    requires H.Inv(s'.hosts[h]) && s'.hosts[h].mac == h
    ensures Inv(s')
  {
    forall g | g in s'.hosts ensures H.Inv(s'.hosts[g]) && s'.hosts[g].mac == g && HandInv(s', g) {
      HandKept(s, s', h, e, c, g);
    }
  }

  lemma DropInv(s: System, s': System, c: N.Copy)
    requires Inv(s) && Next(s, s', Drop(c))
    ensures Inv(s')
  {
    forall g | g in s'.hosts ensures HandInv(s', g) {
      assert HandInv(s, g);
    }
  }

  lemma NextInv(s: System, s': System, e: Event)
    requires Inv(s) && Next(s, s', e)
    ensures Inv(s')
  {
    match e
    case Act(h, step, c) =>
      H.NextInv(s.hosts[h], s'.hosts[h], step);
      HandMoves(s.hosts[h], s'.hosts[h], step);
      ActOnlyAt(s, s', h, step, c);
      ActInv(s, s', h, EffectOf(s.hosts[h], step), c);
    case Drop(c) => DropInv(s, s', c);
  }

  /** The link holds no thread up: a step that reads no frame is always possible, and ends as the host alone would. */
  lemma LinkNeverBlocks(s: System, h: Mac, after: H.Host, step: H.Step, c: N.Copy) returns (s': System)
    requires Inv(s) && h in s.hosts && H.Next(s.hosts[h], after, step)
    requires !EffectOf(s.hosts[h], step).Hear? && !EffectOf(s.hosts[h], step).Hold?
    ensures Next(s, s', Act(h, step, c)) && s'.hosts == s.hosts[h := after]
  {
    var e := EffectOf(s.hosts[h], step);
    HandMoves(s.hosts[h], after, step);
    assert HandInv(s, h);
    s' := LinkAfter(s, h, e, c).(hosts := s.hosts[h := after],
                                 windows := s.windows[h := WindowAfter(s.hosts[h], step, s.windows[h], |s.log|)]);
  }

  // ---------- What goes out ----------

  /** What a host may send: a Request without an address of its own for the one it probes for, an announcement of the
      one it has committed, or a Reply under the one it has committed. */
  predicate MaySend(s: H.Host, f: ArpFrame) {
    && f.senderHw == s.mac
    && (f.senderIp == 0 ==> f.opcode == 1 && f.targetIp == s.tentative && IsLinkLocal(f.targetIp) && s.committed == 0)
    && (f.senderIp != 0 ==> f.senderIp == s.committed && IsLinkLocal(f.senderIp)
                            && (f.opcode == 2 || (f.opcode == 1 && f.targetIp == f.senderIp)))
  }

  lemma EffectIsLawful(s: H.Host, s': H.Host, step: H.Step)
    requires H.Inv(s) && H.Next(s, s', step)
    ensures var e := EffectOf(s, step); e.Send? || e.Answer? ==> MaySend(s, e.frame)
  {}

  /** No host ever puts an address into a frame that it has not committed at that moment. */
  lemma EveryFrameIsLawful(s: System, s': System, e: Event)
    requires Inv(s) && Next(s, s', e)
    ensures s'.log == s.log || (e.Act? && |s'.log| == |s.log| + 1 && s.log < s'.log && MaySend(s.hosts[e.h], s'.log[|s.log|]))
  {
    if e.Act? {
      ActOnlyAt(s, s', e.h, e.step, e.copy);
      EffectIsLawful(s.hosts[e.h], s'.hosts[e.h], e.step);
    }
  }
}
