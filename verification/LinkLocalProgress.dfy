/**
 Progress of the link-local host: an abort always returns, and a claim that has seen a conflict always ends. Each has two
 halves. Some thread can always move, and the moves are bounded in number.
 */
module LinkLocalProgress {
  import opened Wrappers
  import opened Arp
  import opened LinkLocalHost

  ghost predicate CanMove(s: Host, step: Step) {
    exists s' :: Next(s, s', step)
  }

  // ---------- Who can move ----------

  const ANY: Ipv4 := 0xA9FE_0100

  /** The worker waits for a thread that has not finished. */
  predicate Waits(s: Host) {
    || (s.worker.Seeking? && s.worker.seek.JoinL? && s.listener.Listening?)
    || (s.worker.Claiming? && s.worker.claim.JoinR? && s.responder.Responding?)
  }

  lemma Seeks(s: Host, s': Host)
    requires s.worker.Seeking? && SeekStep(s, s', ANY)
    ensures CanMove(s, WorkerNext(ANY))
  {
    assert Next(s, s', WorkerNext(ANY));
  }

  lemma SeekCanMove(s: Host)
    requires s.worker.Seeking? && !Waits(s)
    ensures CanMove(s, WorkerNext(ANY))
  {
    match s.worker.seek
    case DhcpWait => Seeks(s, s.(worker := if s.stop then WorkerDone else Seeking(OuterTop)));
    case OuterTop => Seeks(s, s.(worker := if s.stop then WorkerDone else Seeking(PickAddr), conflicts := 0));
    case RateWait => Seeks(s, s.(worker := if s.stop then WorkerDone else Seeking(PickAddr)));
    case PickAddr => Seeks(s, s.(worker := Seeking(StopL(StartL)), tentative := ANY));
    case StopL(c) => Seeks(s, s.(worker := Seeking(JoinL(c)), stopListener := true));
    case JoinL(c) => JoinLCanMove(s);
    case ClearConflict => Seeks(s, s.(worker := Seeking(ArmListener), conflict := false));
    case ArmListener => Seeks(s, s.(worker := Seeking(SpawnListener), stopListener := false));
    case SpawnListener => Seeks(s, s.(worker := Seeking(ProbeWait), listener := Listening(LOpen)));
    case _ => WindowCanMove(s);
  }

  lemma JoinLCanMove(s: Host)
    requires s.worker.Seeking? && s.worker.seek.JoinL? && !Waits(s)
    ensures CanMove(s, WorkerNext(ANY))
  {
    match s.worker.seek.lcall
    case StartL => Seeks(s, s.(listener := NoListener, worker := Seeking(ClearConflict)));
    case ExitL => Seeks(s, s.(listener := NoListener, worker := WorkerDone));
    case ConflictL => Seeks(s, s.(listener := NoListener, worker := NextPick(s.conflicts + 1), conflicts := s.conflicts + 1));
    case WindowL => Seeks(s, s.(listener := NoListener, worker := Seeking(WindowStop)));
  }

  predicate InWindow(at: SeekAt) {
    at.ProbeWait? || at.EmitProbe? || at.CheckProbe? || at.ProbeGap? || at.CheckGap? || at.WindowStop? || at.WindowConflict?
  }

  lemma WindowCanMove(s: Host)
    requires s.worker.Seeking? && InWindow(s.worker.seek)
    ensures CanMove(s, WorkerNext(ANY))
  {
    match s.worker.seek
    case ProbeWait => Seeks(s, s.(worker := Seeking(if s.stop then StopL(ExitL) else EmitProbe(0))));
    case EmitProbe(i) => Seeks(s, s.(worker := Seeking(CheckProbe(i))));
    case CheckProbe(i) =>
      Seeks(s, s.(worker := Seeking(if s.conflict then StopL(ConflictL) else if i < 2 then ProbeGap(i) else StopL(WindowL))));
    case ProbeGap(i) => Seeks(s, s.(worker := Seeking(if s.stop then StopL(ExitL) else CheckGap(i))));
    case CheckGap(i) => Seeks(s, s.(worker := Seeking(if s.conflict then StopL(ConflictL) else EmitProbe(i + 1))));
    case WindowStop => Seeks(s, s.(worker := if s.stop then WorkerDone else Seeking(WindowConflict)));
    case WindowConflict =>
      if s.conflict {
        Seeks(s, s.(worker := NextPick(s.conflicts + 1), conflicts := s.conflicts + 1));
      } else {
        Seeks(s, s.(worker := Claiming(Commit)));
      }
  }

  lemma Claims(s: Host, s': Host)
    requires s.worker.Claiming? && ClaimStep(s, s')
    ensures CanMove(s, WorkerNext(ANY))
  {
    assert Next(s, s', WorkerNext(ANY));
  }

  lemma ClaimCanMove(s: Host)
    requires s.worker.Claiming? && !Waits(s)
    ensures CanMove(s, WorkerNext(ANY))
  {
    match s.worker.claim
    case Commit => Claims(s, s.(worker := Claiming(ClearCease), committed := s.tentative, claims := s.claims + 1));
    case ClearCease => Claims(s, s.(worker := Claiming(StopR(StartR)), cease := false));
    case StopR(c) => Claims(s, s.(worker := Claiming(JoinR(c)), stopResponder := true));
    case JoinR(c) => JoinRCanMove(s);
    case ArmResponder => Claims(s, s.(worker := Claiming(ClearReady), stopResponder := false));
    case ClearReady => Claims(s, s.(worker := Claiming(SpawnResponder), ready := false));
    case SpawnResponder => Claims(s, s.(worker := Claiming(AwaitReady), responder := Responding(ROpen)));
    case ClearAddr => Claims(s, s.(worker := Seeking(OuterTop), committed := 0));
    case _ => SteadyCanMove(s);
  }

  lemma JoinRCanMove(s: Host)
    requires s.worker.Claiming? && s.worker.claim.JoinR? && !Waits(s)
    ensures CanMove(s, WorkerNext(ANY))
  {
    match s.worker.claim.rcall
    case StartR => Claims(s, s.(responder := NoResponder, worker := Claiming(ArmResponder)));
    case ExitR => Claims(s, s.(responder := NoResponder, worker := WorkerDone));
    case CeaseR => Claims(s, s.(responder := NoResponder, worker := Claiming(ClearAddr)));
  }

  predicate InSteady(at: ClaimAt) {
    at.AwaitReady? || at.AnnounceTop? || at.EmitAnnounce? || at.AnnounceGap? || at.SteadyStop? || at.SteadyCease? || at.SteadyExit?
  }

  lemma SteadyCanMove(s: Host)
    requires s.worker.Claiming? && InSteady(s.worker.claim)
    ensures CanMove(s, WorkerNext(ANY))
  {
    match s.worker.claim
    case AwaitReady => Claims(s, s.(worker := Claiming(AnnounceTop(0))));
    case AnnounceTop(i) => Claims(s, s.(worker := Claiming(if i < 2 && !s.cease then EmitAnnounce(i) else SteadyStop)));
    case EmitAnnounce(i) => Claims(s, s.(worker := Claiming(if i < 1 then AnnounceGap else AnnounceTop(i + 1))));
    case AnnounceGap => Claims(s, s.(worker := Claiming(if s.stop then StopR(ExitR) else AnnounceTop(1))));
    case SteadyStop => Claims(s, s.(worker := Claiming(if s.stop then SteadyExit else SteadyCease)));
    case SteadyCease => Claims(s, s.(worker := Claiming(if s.cease then SteadyExit else SteadyStop)));
    case SteadyExit => Claims(s, s.(worker := if s.stop then WorkerDone else Claiming(StopR(CeaseR))));
  }

  /** A worker that is alive can move unless it waits for its listener or its responder. */
  lemma WorkerCanMove(s: Host)
    requires Alive(s.worker) && !Waits(s)
    ensures CanMove(s, WorkerNext(ANY))
  {
    if s.worker.Seeking? {
      SeekCanMove(s);
    } else {
      ClaimCanMove(s);
    }
  }

  lemma Listens(s: Host, s': Host)
    requires ListenerStep(s, s', true, None)
    ensures CanMove(s, ListenerNext(true, None))
  {
    assert Next(s, s', ListenerNext(true, None));
  }

  /** A listener never waits for another thread. */
  lemma ListenerCanMove(s: Host)
    requires s.listener.Listening?
    ensures CanMove(s, ListenerNext(true, None))
  {
    match s.listener.at
    case LOpen => Listens(s, s.(listener := Listening(LTopOwn)));
    case LTopOwn => Listens(s, s.(listener := if s.stopListener then ListenerDone else Listening(LTopAll)));
    case LTopAll => Listens(s, s.(listener := if s.stop then ListenerDone else Listening(LRecv)));
    case LRecv => Listens(s, s.(listener := Listening(LTopOwn)));
    case LRaise => Listens(s, s.(listener := ListenerDone, conflict := true));
  }

  lemma Responds(s: Host, s': Host)
    requires ResponderStep(s, s', true, None)
    ensures CanMove(s, ResponderNext(true, None))
  {
    assert Next(s, s', ResponderNext(true, None));
  }

  /** Nor does a responder. */
  lemma ResponderCanMove(s: Host)
    requires s.responder.Responding?
    ensures CanMove(s, ResponderNext(true, None))
  {
    match s.responder.at
    case ROpen => Responds(s, s.(responder := Responding(RReady)));
    case RReady => Responds(s, s.(responder := Responding(RTopOwn), ready := true));
    case RTopOwn => Responds(s, s.(responder := if s.stopResponder then ResponderDone else Responding(RTopAll)));
    case RTopAll => Responds(s, s.(responder := if s.stop then ResponderDone else Responding(RRecv)));
    case RRecv => Responds(s, s.(responder := Responding(RTopOwn)));
    case RSnap(f) => Responds(s, s.(responder := Responding(RDecide(f, s.committed))));
    case _ => ReactionCanMove(s);
  }

  predicate Reacting(at: ResponderAt) {
    at.RDecide? || at.RCease? || at.RReply? || at.RSend?
  }

  lemma ReactionCanMove(s: Host)
    requires s.responder.Responding? && Reacting(s.responder.at)
    ensures CanMove(s, ResponderNext(true, None))
  {
    match s.responder.at
    case RDecide(f, snap) =>
      var next := match Respond(f, s.mac, snap) case Ignore => RTopOwn case Cease => RCease(f) case Defend(_) => RReply(f);
      Responds(s, s.(responder := Responding(next)));
    case RCease(f) => Responds(s, s.(responder := Responding(RTopOwn), cease := true, conflictIn := s.claims));
    case RReply(f) => Responds(s, s.(responder := Responding(if s.committed == 0 then RTopOwn else RSend(f, s.committed))));
    case RSend(f, addr) => Responds(s, s.(responder := Responding(RTopOwn), answers := s.answers + [Answer(f, addr)]));
  }

  /** The control thread waits for a thread that has not finished. */
  predicate CtlWaits(s: Host) {
    s.ctl.Aborting? &&
      match s.ctl.at
      case JoinWorker => Alive(s.worker)
      case JoinListener => s.listener.Listening?
      case JoinResponder => s.responder.Responding?
      case _ => false
  }

  lemma Controls(s: Host, s': Host)
    requires CtlStep(s, s')
    ensures CanMove(s, CtlNext)
  {
    assert Next(s, s', CtlNext);
  }

  lemma CtlCanMove(s: Host)
    requires s.ctl.Aborting? && !CtlWaits(s)
    ensures CanMove(s, CtlNext)
  {
    var restart := s.ctl.restart;
    match s.ctl.at
    case SetStop => Controls(s, s.(ctl := Aborting(JoinWorker, restart), stop := true));
    case JoinWorker => Controls(s, s.(ctl := Aborting(SetStopListener, restart), worker := NoWorker));
    case SetStopListener => Controls(s, s.(ctl := Aborting(JoinListener, restart), stopListener := true));
    case JoinListener => Controls(s, s.(ctl := Aborting(SetStopResponder, restart), listener := NoListener));
    case SetStopResponder => Controls(s, s.(ctl := Aborting(JoinResponder, restart), stopResponder := true));
    case JoinResponder => Controls(s, s.(ctl := Aborting(ClearAddress, restart), responder := NoResponder));
    case ClearAddress => Controls(s, s.(ctl := if restart then ArmWorker else Idle, committed := 0));
  }

  /** No abort ever stalls: some thread can move, be it the control thread, whoever it waits for, or whoever that one
      waits for. */
  lemma AbortNeverStalls(s: Host) returns (step: Step)
    requires s.ctl.Aborting?
    ensures CanMove(s, step) && !step.Start? && !step.Abort?
  {
    if !CtlWaits(s) {
      step := CtlNext;
      CtlCanMove(s);
    } else if Alive(s.worker) && !Waits(s) {
      step := WorkerNext(ANY);
      WorkerCanMove(s);
    } else if s.listener.Listening? {
      step := ListenerNext(true, None);
      ListenerCanMove(s);
    } else {
      step := ResponderNext(true, None);
      ResponderCanMove(s);
    }
  }

  // ---------- How far there is to go ----------

  /** Steps the worker still has to take, at most, once a stop has been requested. */
  function SeekRank(at: SeekAt): nat {
    match at
    case DhcpWait => 1
    case OuterTop => 1
    case ProbeWait => 3
    case SpawnListener => 4
    case ArmListener => 5
    case ClearConflict => 6
    case PickAddr => 9
    case RateWait => 10
    case StopL(c) => (match c case ExitL => 2 case StartL => 8 case ConflictL => 12 case WindowL => 26)
    case JoinL(c) => (match c case ExitL => 1 case StartL => 7 case ConflictL => 11 case WindowL => 25)
    case WindowStop => 24
    case WindowConflict => 23
    case CheckProbe(i) => if i == 0 then 35 else if i == 1 then 31 else 27
    case EmitProbe(i) => if i == 0 then 36 else if i == 1 then 32 else 28
    case CheckGap(i) => if i == 0 then 33 else 29
    case ProbeGap(i) => if i == 0 then 34 else 30
  }

  function ClaimRank(at: ClaimAt): nat {
    match at
    case Commit => 22
    case ClearCease => 21
    case StopR(c) => (match c case ExitR => 2 case CeaseR => 4 case StartR => 20)
    case JoinR(c) => (match c case ExitR => 1 case CeaseR => 3 case StartR => 19)
    case ClearAddr => 2
    case ArmResponder => 18
    case ClearReady => 17
    case SpawnResponder => 16
    case AwaitReady => 15
    case AnnounceTop(i) => if i == 0 then 14 else if i == 1 then 11 else 8
    case EmitAnnounce(i) => if i == 0 then 13 else 9
    case AnnounceGap => 12
    case SteadyCease => 7
    case SteadyStop => 6
    case SteadyExit => 5
  }

  function WorkerRank(w: Worker): nat {
    match w
    case Seeking(at) => SeekRank(at)
    case Claiming(at) => ClaimRank(at)
    case _ => 0
  }

  function ListenerRank(at: ListenerAt): nat {
    match at
    case LOpen => 3
    case LRecv => 3
    case LTopOwn => 2
    case LTopAll => 1
    case LRaise => 1
  }

  function ResponderRank(at: ResponderAt): nat {
    match at
    case RRecv => 7
    case RSnap(_) => 6
    case RDecide(_, _) => 5
    case RReply(_) => 4
    case ROpen => 4
    case RCease(_) => 3
    case RSend(_, _) => 3
    case RReady => 3
    case RTopOwn => 2
    case RTopAll => 1
  }

  function AbortRank(c: Ctl): nat {
    match c
    case Aborting(at, _) =>
      (match at
       case SetStop => 7
       case JoinWorker => 6
       case SetStopListener => 5
       case JoinListener => 4
       case SetStopResponder => 3
       case JoinResponder => 2
       case ClearAddress => 1)
    case _ => 0
  }

  /** Bounds the steps of all threads together until a running abort returns. */
  function AbortMeasure(s: Host): nat {
    AbortRank(s.ctl)
    + 10 * WorkerRank(s.worker)
    + (if s.listener.Listening? then ListenerRank(s.listener.at) else 0)
    + (if s.responder.Responding? then ResponderRank(s.responder.at) else 0)
  }

  // ---------- An abort returns ----------

  lemma CtlProgress(s: Host, s': Host)
    requires Inv(s) && CtlStep(s, s') && s.ctl.Aborting?
    ensures AbortMeasure(s') < AbortMeasure(s)
  {}

  lemma SeekProgress(s: Host, s': Host, pick: Ipv4)
    requires Inv(s) && s.worker.Seeking? && IsLinkLocal(pick) && SeekStep(s, s', pick) && s.stop
    ensures AbortMeasure(s') < AbortMeasure(s)
  {}

  lemma ClaimProgress(s: Host, s': Host)
    requires Inv(s) && s.worker.Claiming? && ClaimStep(s, s') && s.stop
    ensures AbortMeasure(s') < AbortMeasure(s)
  {}

  lemma AbortProgress(s: Host, s': Host, step: Step)
    requires Inv(s) && Next(s, s', step) && s.ctl.Aborting? && !s.ctl.at.SetStop?
    ensures AbortMeasure(s') < AbortMeasure(s)
  {
    assert s.stop;
    match step
    case Start =>
    case Abort =>
    case CtlNext => CtlProgress(s, s');
    case WorkerNext(pick) =>
      if s.worker.Seeking? {
        SeekProgress(s, s', pick);
      } else {
        ClaimProgress(s, s');
      }
    case ListenerNext(ok, heard) =>
    case ResponderNext(ok, heard) =>
  }

  /** However the threads interleave, the steps taken while an abort is under way are bounded by a number known when the
      stop flag was set. With `AbortNeverStalls` this says that the abort returns. */
  lemma {:induction false} AbortReturns(states: seq<Host>, steps: seq<Step>, i: nat, j: nat)
    requires IsRun(states, steps) && i <= j < |states|
    requires forall k | i <= k < j :: UnderWay(states[k])
    ensures j - i + AbortMeasure(states[j]) <= AbortMeasure(states[i])
    decreases j
  {
    if i < j {
      AbortReturns(states, steps, i, j - 1);
      RunProgress(states, steps, j - 1);
    }
  }

  /** An abort that has set the stop flag and not returned. */
  predicate UnderWay(s: Host) {
    s.ctl.Aborting? && !s.ctl.at.SetStop?
  }

  lemma RunProgress(states: seq<Host>, steps: seq<Step>, i: nat)
    requires IsRun(states, steps) && i < |steps| && UnderWay(states[i])
    ensures AbortMeasure(states[i + 1]) < AbortMeasure(states[i])
  {
    RunInv(states, steps, i);
    RunStep(states, steps, i);
    AbortProgress(states[i], states[i + 1], steps[i]);
  }

  lemma LastAbortStep(s: Host, s': Host)
    requires Inv(s) && s.ctl.Aborting? && s.ctl.at.ClearAddress? && CtlStep(s, s')
    ensures s'.worker.NoWorker? && s'.listener.NoListener? && s'.responder.NoResponder? && s'.committed == 0
  {}

  /** And its last step leaves nothing of the machine: no thread runs and no address is committed. */
  lemma AbortLeavesNothing(states: seq<Host>, steps: seq<Step>, i: nat)
    requires IsRun(states, steps) && i < |steps|
    requires states[i].ctl.Aborting? && states[i].ctl.at.ClearAddress? && steps[i] == CtlNext
    ensures var s := states[i + 1];
            !s.ctl.Aborting? && s.worker.NoWorker? && s.listener.NoListener? && s.responder.NoResponder? && s.committed == 0
  {
    RunInv(states, steps, i);
    RunStep(states, steps, i);
    LastAbortStep(states[i], states[i + 1]);
  }

  /** The same ranks with the two checks of the parked worker exchanged: there the cease flag, not the
      stop flag, leads out. */
  function TeardownRank(at: ClaimAt): nat {
    if at.SteadyStop? then 7 else if at.SteadyCease? then 6 else ClaimRank(at)
  }

  // ---------- A conflict ends its claim ----------

  /** A claim in which a conflict was seen, in a machine that nobody stops. */
  predicate CeasedClaim(s: Host) {
    s.cease && !s.stop && s.worker.Claiming? && ZoneOf(s).Guarded?
  }

  /** The claim is being dismantled and the worker waits for the responder. */
  predicate AwaitsResponder(s: Host) {
    s.worker.Claiming? && s.worker.claim.JoinR? && s.responder.Responding?
  }

  /** A step that the end of the claim depends on: the worker's, or the responder's while the worker waits for it. */
  predicate Counts(s: Host, step: Step) {
    step.WorkerNext? || (step.ResponderNext? && AwaitsResponder(s))
  }

  function TeardownResponderRank(at: ResponderAt): nat {
    if at.RTopAll? then 8 else ResponderRank(at)
  }

  /** How many such steps there are left, at most. */
  function TeardownMeasure(s: Host): nat
    requires s.worker.Claiming?
  {
    10 * TeardownRank(s.worker.claim) + if AwaitsResponder(s) then TeardownResponderRank(s.responder.at) else 0
  }

  /** One step in a ceased claim: the flag stays up, and the worker gets closer to clearing the address or stays put. */
  lemma CeaseEndsTheClaim(s: Host, s': Host, step: Step)
    requires Inv(s) && Next(s, s', step) && CeasedClaim(s)
    ensures s'.cease && s'.worker.Claiming? && (ZoneOf(s').Guarded? || ZoneOf(s').Clearing?)
    ensures if step.WorkerNext? then TeardownRank(s'.worker.claim) < TeardownRank(s.worker.claim) else s'.worker == s.worker
    ensures step.ResponderNext? && AwaitsResponder(s) && s'.responder.Responding? ==>
              TeardownResponderRank(s'.responder.at) < TeardownResponderRank(s.responder.at)
    ensures !step.ResponderNext? && !step.WorkerNext? && AwaitsResponder(s) ==> s'.responder == s.responder
  {
    if step.WorkerNext? {
      ClaimZones(s, s');
    }
  }

  /** One step in a ceased claim, as far as its length goes. */
  predicate Nearer(s: Host, s': Host, step: Step) {
    && s.worker.Claiming? && s'.worker.Claiming?
    && TeardownMeasure(s') + (if Counts(s, step) then 1 else 0) <= TeardownMeasure(s)
  }

  lemma CeasedStep(s: Host, s': Host, step: Step)
    requires Inv(s) && Next(s, s', step) && CeasedClaim(s)
    ensures Nearer(s, s', step)
  {
    CeaseEndsTheClaim(s, s', step);
  }

  lemma RunCeased(states: seq<Host>, steps: seq<Step>, i: nat)
    requires IsRun(states, steps) && i < |steps| && CeasedClaim(states[i])
    ensures Nearer(states[i], states[i + 1], steps[i])
  {
    RunInv(states, steps, i);
    RunStep(states, steps, i);
    CeasedStep(states[i], states[i + 1], steps[i]);
  }

  /** The counting steps of a run between two points. */
  function Counted(states: seq<Host>, steps: seq<Step>, i: nat, j: nat): nat
    requires i <= j < |states| == |steps| + 1
    decreases j
  {
    if i == j then 0 else Counted(states, steps, i, j - 1) + if Counts(states[j - 1], steps[j - 1]) then 1 else 0
  }

  lemma {:induction false} NearerAdds(states: seq<Host>, steps: seq<Step>, i: nat, j: nat)
    requires i <= j < |states| == |steps| + 1 && states[i].worker.Claiming?
    requires forall k | i <= k < j :: Nearer(states[k], states[k + 1], steps[k])
    ensures states[j].worker.Claiming?
    ensures Counted(states, steps, i, j) + TeardownMeasure(states[j]) <= TeardownMeasure(states[i])
    decreases j
  {
    if i < j {
      NearerAdds(states, steps, i, j - 1);
      assert Nearer(states[j - 1], states[j], steps[j - 1]);
    }
  }

  /** The steps of the worker in a ceased claim, and of the responder while the worker waits for it, are bounded by a
      number known when the flag went up. With `CeasedClaimNeverStalls` this says that an observed conflict ends its claim
      unless the machine is stopped first. */
  lemma CeasedClaimEnds(states: seq<Host>, steps: seq<Step>, i: nat, j: nat)
    requires IsRun(states, steps) && i <= j < |states| && states[i].worker.Claiming?
    requires forall k | i <= k < j :: CeasedClaim(states[k])
    ensures states[j].worker.Claiming?
    ensures Counted(states, steps, i, j) + TeardownMeasure(states[j]) <= TeardownMeasure(states[i])
  {
    forall k | i <= k < j ensures Nearer(states[k], states[k + 1], steps[k]) {
      RunCeased(states, steps, k);
    }
    NearerAdds(states, steps, i, j);
  }

  /** In every state of a ceased claim one of the counted steps can be taken. */
  lemma CeasedClaimNeverStalls(s: Host) returns (step: Step)
    requires CeasedClaim(s)
    ensures CanMove(s, step) && Counts(s, step)
  {
    if AwaitsResponder(s) {
      step := ResponderNext(true, None);
      ResponderCanMove(s);
    } else {
      step := WorkerNext(ANY);
      WorkerCanMove(s);
    }
  }
}
