/**
 One link-local host as its four threads see it: the control thread that starts and aborts the
 machine, the worker that claims an address, the conflict listener of a probing window and the
 ARP responder of a claim. A step is one access to shared state; steps interleave freely and the
 frames that arrive are arbitrary.
 */
module LinkLocalHost {
  import opened Wrappers
  import opened Arp

  /** Where `abort` stands; `start` runs an abort first and then arms and spawns the worker. */
  datatype AbortAt = SetStop | JoinWorker | SetStopListener | JoinListener | SetStopResponder | JoinResponder | ClearAddress
  datatype Ctl = Idle | Aborting(at: AbortAt, restart: bool) | ArmWorker | SpawnWorker

  /** Who asked for the listener, or the responder, to be stopped. */
  datatype ListenerCall = StartL | ExitL | ConflictL | WindowL
  datatype ResponderCall = StartR | ExitR | CeaseR

  /** Where the worker stands: looking for an address, or holding one. */
  datatype SeekAt =
    | DhcpWait | OuterTop | RateWait | PickAddr
    | StopL(lcall: ListenerCall) | JoinL(lcall: ListenerCall) | ClearConflict | ArmListener | SpawnListener
    | ProbeWait | EmitProbe(i: nat) | CheckProbe(i: nat) | ProbeGap(i: nat) | CheckGap(i: nat)
    | WindowStop | WindowConflict
  datatype ClaimAt =
    | Commit | ClearCease
    | StopR(rcall: ResponderCall) | JoinR(rcall: ResponderCall) | ArmResponder | ClearReady | SpawnResponder | AwaitReady
    | AnnounceTop(i: nat) | EmitAnnounce(i: nat) | AnnounceGap
    | SteadyStop | SteadyCease | SteadyExit | ClearAddr

  datatype ListenerAt = LOpen | LTopOwn | LTopAll | LRecv | LRaise
  datatype ResponderAt =
    | ROpen | RReady | RTopOwn | RTopAll | RRecv
    | RSnap(f: ArpFrame) | RDecide(f: ArpFrame, snap: Ipv4) | RCease(f: ArpFrame) | RReply(f: ArpFrame) | RSend(f: ArpFrame, addr: Ipv4)

  /** Thread handles: never spawned or already joined, running, or finished and joinable. */
  datatype Worker = NoWorker | Seeking(seek: SeekAt) | Claiming(claim: ClaimAt) | WorkerDone
  datatype Listener = NoListener | Listening(at: ListenerAt) | ListenerDone
  datatype Responder = NoResponder | Responding(at: ResponderAt) | ResponderDone

  /** One frame answered, and the sender address the answer carried. */
  datatype Answer = Answer(frame: ArpFrame, addr: Ipv4)

  /** `claims` counts commits; `conflictIn` is the last claim in which the responder saw a conflict. */
  datatype Host = Host(
    mac: Mac,
    ctl: Ctl, worker: Worker, listener: Listener, responder: Responder,
    stop: bool, stopListener: bool, stopResponder: bool, ready: bool, conflict: bool, cease: bool,
    committed: Ipv4, tentative: Ipv4, conflicts: nat,
    claims: nat, conflictIn: nat, answers: seq<Answer>)

  datatype Step =
    | Start | Abort | CtlNext
    | WorkerNext(pick: Ipv4)
    | ListenerNext(ok: bool, heard: Option<ArpFrame>)
    | ResponderNext(ok: bool, heard: Option<ArpFrame>)

  ghost predicate Init(s: Host) {
    && s.ctl == Idle && s.worker == NoWorker && s.listener == NoListener && s.responder == NoResponder
    && s.committed == 0 && s.tentative == 0 && s.claims == 0 && s.conflictIn == 0 && s.answers == []
  }

  // ---------- Steps ----------

  predicate Alive(w: Worker) {
    w.Seeking? || w.Claiming?
  }

  /** The control thread. A join returns once its thread has finished, and at once when there is none. */
  predicate CtlStep(s: Host, s': Host) {
    && s' == s.(ctl := s'.ctl, worker := s'.worker, listener := s'.listener, responder := s'.responder,
                stop := s'.stop, stopListener := s'.stopListener, stopResponder := s'.stopResponder,
                committed := s'.committed, tentative := s'.tentative)
    && match s.ctl
       case Idle => false
       case ArmWorker => s'.ctl == SpawnWorker && !s'.stop && s' == s.(ctl := s'.ctl, stop := s'.stop)
       case SpawnWorker =>
         && s'.ctl == Idle && s'.worker == Seeking(DhcpWait) && s'.tentative == 0
         && s' == s.(ctl := s'.ctl, worker := s'.worker, tentative := s'.tentative)
       case Aborting(at, restart) => AbortStep(s, s', at, restart)
  }

  predicate AbortStep(s: Host, s': Host, at: AbortAt, restart: bool) {
    && s'.tentative == s.tentative
    && (at.SetStop? || s'.stop == s.stop)
    && (at.JoinWorker? || s'.worker == s.worker)
    && (at.SetStopListener? || s'.stopListener == s.stopListener)
    && (at.JoinListener? || s'.listener == s.listener)
    && (at.SetStopResponder? || s'.stopResponder == s.stopResponder)
    && (at.JoinResponder? || s'.responder == s.responder)
    && (at.ClearAddress? || s'.committed == s.committed)
    && match at
       case SetStop => s'.stop && s'.ctl == Aborting(JoinWorker, restart)
       case JoinWorker => !Alive(s.worker) && s'.worker == NoWorker && s'.ctl == Aborting(SetStopListener, restart)
       case SetStopListener => s'.stopListener && s'.ctl == Aborting(JoinListener, restart)
       case JoinListener => !s.listener.Listening? && s'.listener == NoListener && s'.ctl == Aborting(SetStopResponder, restart)
       case SetStopResponder => s'.stopResponder && s'.ctl == Aborting(JoinResponder, restart)
       case JoinResponder => !s.responder.Responding? && s'.responder == NoResponder && s'.ctl == Aborting(ClearAddress, restart)
       case ClearAddress => s'.committed == 0 && s'.ctl == if restart then ArmWorker else Idle
  }

  /** The next pick follows a silence once enough windows have met a conflict. */
  function NextPick(conflicts: nat): Worker {
    Seeking(if conflicts >= MAX_CONFLICTS then RateWait else PickAddr)
  }

  /** The worker outside a claim: it touches the tentative address, the listener and its flags. */
  predicate SeekStep(s: Host, s': Host, pick: Ipv4)
    requires s.worker.Seeking? && IsLinkLocal(pick)
  {
    && s' == s.(worker := s'.worker, listener := s'.listener, stopListener := s'.stopListener, conflict := s'.conflict,
                tentative := s'.tentative, conflicts := s'.conflicts)
    && (s.worker.seek.PickAddr? || s'.tentative == s.tentative)
    && (s.worker.seek.StopL? || s.worker.seek.ArmListener? || s'.stopListener == s.stopListener)
    && (s.worker.seek.JoinL? || s.worker.seek.SpawnListener? || s'.listener == s.listener)
    && (s.worker.seek.ClearConflict? || s'.conflict == s.conflict)
    && (s.worker.seek.OuterTop? || s.worker.seek.JoinL? || s.worker.seek.WindowConflict? || s'.conflicts == s.conflicts)
    && match s.worker.seek
       case DhcpWait => s'.worker == if s.stop then WorkerDone else Seeking(OuterTop)
       case OuterTop => s'.worker == (if s.stop then WorkerDone else Seeking(PickAddr)) && s'.conflicts == 0
       case RateWait => s'.worker == if s.stop then WorkerDone else Seeking(PickAddr)
       case PickAddr => s'.worker == Seeking(StopL(StartL)) && s'.tentative == pick
       case StopL(c) => s'.worker == Seeking(JoinL(c)) && s'.stopListener
       case JoinL(c) =>
         && !s.listener.Listening? && s'.listener == NoListener
         && s'.conflicts == (if c.ConflictL? then s.conflicts + 1 else s.conflicts)
         && s'.worker == (match c
                          case StartL => Seeking(ClearConflict)
                          case ExitL => WorkerDone
                          case ConflictL => NextPick(s.conflicts + 1)
                          case WindowL => Seeking(WindowStop))
       case ClearConflict => s'.worker == Seeking(ArmListener) && !s'.conflict
       case ArmListener => s'.worker == Seeking(SpawnListener) && !s'.stopListener
       case SpawnListener => s'.worker == Seeking(ProbeWait) && s'.listener == Listening(LOpen)
       case ProbeWait => s'.worker == Seeking(if s.stop then StopL(ExitL) else EmitProbe(0))
       case EmitProbe(i) => s'.worker == Seeking(CheckProbe(i))
       case CheckProbe(i) => s'.worker == Seeking(if s.conflict then StopL(ConflictL) else if i < 2 then ProbeGap(i) else StopL(WindowL))
       case ProbeGap(i) => s'.worker == Seeking(if s.stop then StopL(ExitL) else CheckGap(i))
       case CheckGap(i) => s'.worker == Seeking(if s.conflict then StopL(ConflictL) else EmitProbe(i + 1))
       case WindowStop => s'.worker == if s.stop then WorkerDone else Seeking(WindowConflict)
       case WindowConflict =>
         && s'.worker == (if s.conflict then NextPick(s.conflicts + 1) else Claiming(Commit))
         && s'.conflicts == (if s.conflict then s.conflicts + 1 else s.conflicts)
  }

  /** The worker inside a claim: it touches the committed address, the responder and its flags. */
  predicate ClaimStep(s: Host, s': Host)
    requires s.worker.Claiming?
  {
    && s' == s.(worker := s'.worker, responder := s'.responder, stopResponder := s'.stopResponder, ready := s'.ready,
                cease := s'.cease, committed := s'.committed, claims := s'.claims)
    && (s.worker.claim.Commit? || s'.claims == s.claims)
    && (s.worker.claim.ClearCease? || s'.cease == s.cease)
    && (s.worker.claim.Commit? || s.worker.claim.ClearAddr? || s'.committed == s.committed)
    && (s.worker.claim.JoinR? || s.worker.claim.SpawnResponder? || s'.responder == s.responder)
    && (s.worker.claim.StopR? || s.worker.claim.ArmResponder? || s'.stopResponder == s.stopResponder)
    && (s.worker.claim.ClearReady? || s'.ready == s.ready)
    && match s.worker.claim
       case Commit => s'.worker == Claiming(ClearCease) && s'.committed == s.tentative && s'.claims == s.claims + 1
       case ClearCease => s'.worker == Claiming(StopR(StartR)) && !s'.cease
       case StopR(c) => s'.worker == Claiming(JoinR(c)) && s'.stopResponder
       case JoinR(c) =>
         && !s.responder.Responding? && s'.responder == NoResponder
         && s'.worker == (match c
                          case StartR => Claiming(ArmResponder)
                          case ExitR => WorkerDone
                          case CeaseR => Claiming(ClearAddr))
       case ArmResponder => s'.worker == Claiming(ClearReady) && !s'.stopResponder
       case ClearReady => s'.worker == Claiming(SpawnResponder) && !s'.ready
       case SpawnResponder => s'.worker == Claiming(AwaitReady) && s'.responder == Responding(ROpen)
       case AwaitReady => s'.worker == Claiming(AnnounceTop(0))
       case AnnounceTop(i) => s'.worker == Claiming(if i < 2 && !s.cease then EmitAnnounce(i) else SteadyStop)
       case EmitAnnounce(i) => s'.worker == Claiming(if i < 1 then AnnounceGap else AnnounceTop(i + 1))
       case AnnounceGap => s'.worker == Claiming(if s.stop then StopR(ExitR) else AnnounceTop(1))
       case SteadyStop => s'.worker == Claiming(if s.stop then SteadyExit else SteadyCease)
       case SteadyCease => s'.worker == Claiming(if s.cease then SteadyExit else SteadyStop)
       case SteadyExit => s'.worker == (if s.stop then WorkerDone else Claiming(StopR(CeaseR)))
       case ClearAddr => s'.worker == Seeking(OuterTop) && s'.committed == 0
  }

  predicate ListenerStep(s: Host, s': Host, ok: bool, heard: Option<ArpFrame>) {
    && s.listener.Listening?
    && s' == s.(listener := s'.listener, conflict := s'.conflict)
    && (s.listener.at.LRaise? || s'.conflict == s.conflict)
    && match s.listener.at
       case LOpen => s'.listener == if ok then Listening(LTopOwn) else ListenerDone
       case LTopOwn => s'.listener == if s.stopListener then ListenerDone else Listening(LTopAll)
       case LTopAll => s'.listener == if s.stop then ListenerDone else Listening(LRecv)
       case LRecv => s'.listener == Listening(if heard.Some? && IsConflict(heard.value, s.mac, s.tentative) then LRaise else LTopOwn)
       case LRaise => s'.conflict && s'.listener == ListenerDone
  }

  /** The responder reads the committed address once to decide and once more to answer. */
  predicate ResponderStep(s: Host, s': Host, ok: bool, heard: Option<ArpFrame>) {
    && s.responder.Responding?
    && s' == s.(responder := s'.responder, ready := s'.ready, cease := s'.cease, conflictIn := s'.conflictIn, answers := s'.answers)
    && (s.responder.at.RCease? || (s'.cease == s.cease && s'.conflictIn == s.conflictIn))
    && (s.responder.at.RSend? || s'.answers == s.answers)
    && (s.responder.at.RReady? || s'.ready == s.ready)
    && match s.responder.at
       case ROpen => s'.responder == if ok then Responding(RReady) else ResponderDone
       case RReady => s'.ready && s'.responder == Responding(RTopOwn)
       case RTopOwn => s'.responder == if s.stopResponder then ResponderDone else Responding(RTopAll)
       case RTopAll => s'.responder == if s.stop then ResponderDone else Responding(RRecv)
       case RRecv => s'.responder == Responding(if heard.Some? && heard.value.senderHw != s.mac then RSnap(heard.value) else RTopOwn)
       case RSnap(f) => s'.responder == Responding(RDecide(f, s.committed))
       case RDecide(f, snap) =>
         s'.responder == Responding(match Respond(f, s.mac, snap)
                                    case Ignore => RTopOwn
                                    case Cease => RCease(f)
                                    case Defend(_) => RReply(f))
       case RCease(f) => s'.cease && s'.conflictIn == s.claims && s'.responder == Responding(RTopOwn)
       case RReply(f) => s'.responder == Responding(if s.committed == 0 then RTopOwn else RSend(f, s.committed))
       case RSend(f, addr) => s'.answers == s.answers + [Answer(f, addr)] && s'.responder == Responding(RTopOwn)
  }

  predicate Next(s: Host, s': Host, step: Step) {
    match step
    case Start => s.ctl.Idle? && s' == s.(ctl := Aborting(SetStop, true))
    case Abort => s.ctl.Idle? && s' == s.(ctl := Aborting(SetStop, false))
    case CtlNext => CtlStep(s, s')
    case WorkerNext(pick) =>
      && IsLinkLocal(pick)
      && ((s.worker.Seeking? && SeekStep(s, s', pick)) || (s.worker.Claiming? && ClaimStep(s, s')))
    case ListenerNext(ok, heard) => ListenerStep(s, s', ok, heard)
    case ResponderNext(ok, heard) => ResponderStep(s, s', ok, heard)
  }

  ghost predicate IsRun(states: seq<Host>, steps: seq<Step>) {
    && |states| == |steps| + 1
    && Init(states[0])
    && forall i | 0 <= i < |steps| :: Moves(states, steps, i)
  }

  predicate Moves(states: seq<Host>, steps: seq<Step>, i: nat)
    requires i < |steps| < |states|
  {
    Next(states[i], states[i + 1], steps[i])
  }

  lemma RunStep(states: seq<Host>, steps: seq<Step>, i: nat)
    requires IsRun(states, steps) && i < |steps|
    ensures Next(states[i], states[i + 1], steps[i])
  {
    assert Moves(states, steps, i);
  }

  // ---------- The inductive invariant ----------

  /** What a worker location means for the other threads:
      no claim and no listener, a probing window, a claim without or with a responder, a claim being cleared. */
  datatype Zone = Gone | Done | Outside | Window | Bare | Guarded | Clearing

  function SeekZone(at: SeekAt): Zone {
    match at
    case StopL(c) => if c.StartL? then Outside else Window
    case JoinL(c) => if c.StartL? then Outside else Window
    case ProbeWait | EmitProbe(_) | CheckProbe(_) | ProbeGap(_) | CheckGap(_) => Window
    case _ => Outside
  }

  function ClaimZone(at: ClaimAt): Zone {
    match at
    case Commit => Outside
    case ClearCease | ArmResponder | ClearReady | SpawnResponder => Bare
    case StopR(c) => if c.StartR? then Bare else Guarded
    case JoinR(c) => if c.StartR? then Bare else Guarded
    case ClearAddr => Clearing
    case _ => Guarded
  }

  function ZoneOf(s: Host): Zone {
    match s.worker
    case NoWorker => Gone
    case Seeking(at) => SeekZone(at)
    case Claiming(at) => ClaimZone(at)
    case WorkerDone => Done
  }

  /** `abort` between joining the worker and joining the responder. */
  predicate Dismantling(c: Ctl) {
    c.Aborting? && !c.at.SetStop? && !c.at.JoinWorker? && !c.at.ClearAddress?
  }

  /** The committed address is the tentative one exactly while a claim lasts. */
  ghost predicate AddressInv(s: Host) {
    && (s.tentative == 0 || IsLinkLocal(s.tentative))
    && (s.committed == 0 || IsLinkLocal(s.committed))
    && (Alive(s.worker) && s.tentative == 0 ==> s.worker.Seeking? && (s.worker.seek.DhcpWait? || s.worker.seek.OuterTop? || s.worker.seek.PickAddr?))
    && (ZoneOf(s).Outside? || ZoneOf(s).Window? ==> s.committed == 0)
    && (ZoneOf(s).Bare? || ZoneOf(s).Guarded? || ZoneOf(s).Clearing? ==> s.committed == s.tentative && s.tentative != 0)
  }

  /** What the worker relies on where it stands; its counted loops stay within three probes and two
      announcements. */
  ghost predicate LocationInv(s: Host) {
    && (s.worker.Seeking? ==>
          && (s.worker.seek.JoinL? ==> s.stopListener)
          && (s.worker.seek.EmitProbe? || s.worker.seek.CheckProbe? ==> s.worker.seek.i < 3)
          && (s.worker.seek.ProbeGap? || s.worker.seek.CheckGap? ==> s.worker.seek.i < 2))
    && (s.worker.Claiming? ==>
          && (s.worker.claim.JoinR? ==> s.stopResponder)
          && ((s.worker.claim.StopR? || s.worker.claim.JoinR?) && s.worker.claim.rcall.ExitR? ==> s.stop)
          && (s.worker.claim.AnnounceTop? ==> s.worker.claim.i <= 2)
          && (s.worker.claim.EmitAnnounce? ==> s.worker.claim.i < 2))
  }

  ghost predicate ControlInv(s: Host) {
    && (s.ctl.Aborting? && !s.ctl.at.SetStop? ==> s.stop)
    && (s.worker.NoWorker? && !Dismantling(s.ctl) ==>
          && s.responder.NoResponder? && s.listener.NoListener?
          && (s.committed == 0 || (s.ctl.Aborting? && s.ctl.at.ClearAddress?)))
    && (s.ctl.ArmWorker? || s.ctl.SpawnWorker? ==> s.worker.NoWorker?)
    && (s.ctl.Aborting? && !s.ctl.at.SetStop? && !s.ctl.at.JoinWorker? ==> s.worker.NoWorker?)
    && (s.ctl.Aborting? && (s.ctl.at.SetStopResponder? || s.ctl.at.JoinResponder?) ==> s.listener.NoListener?)
  }

  ghost predicate ListenerInv(s: Host) {
    s.listener.Listening? ==> ZoneOf(s).Window?
  }

  /** What the responder has in hand agrees with the address it defends. */
  ghost predicate ResponderInv(s: Host) {
    s.responder.Responding? ==>
      && s.committed != 0 && IsLinkLocal(s.committed)
      && (Alive(s.worker) ==> ZoneOf(s).Guarded?)
      && (s.responder.at.RSnap? ==> s.responder.at.f.senderHw != s.mac)
      && (s.responder.at.RDecide? ==> s.responder.at.f.senderHw != s.mac && s.responder.at.snap == s.committed)
      && (s.responder.at.RCease? ==> s.responder.at.f.senderHw != s.mac && s.responder.at.f.senderIp == s.committed)
      && (s.responder.at.RReply? ==> Answerable(s.responder.at.f, s.mac, s.committed))
      && (s.responder.at.RSend? ==> s.responder.at.addr == s.committed && Answerable(s.responder.at.f, s.mac, s.committed))
  }

  /** A Request of another host for `a` that does not itself use `a`. */
  predicate Answerable(f: ArpFrame, mac: Mac, a: Ipv4) {
    f.senderHw != mac && f.opcode == REQUEST && f.targetIp == a && f.senderIp != a
  }

  ghost predicate AnswersSound(answers: seq<Answer>, mac: Mac) {
    forall a | a in answers :: IsLinkLocal(a.addr) && Answerable(a.frame, mac, a.addr)
  }

  lemma AnswersSoundAppend(answers: seq<Answer>, mac: Mac, a: Answer)
    requires AnswersSound(answers, mac) && IsLinkLocal(a.addr) && Answerable(a.frame, mac, a.addr)
    ensures AnswersSound(answers + [a], mac)
  {}

  ghost predicate HistoryInv(s: Host) {
    && s.conflictIn <= s.claims
    && AnswersSound(s.answers, s.mac)
    && (ZoneOf(s).Bare? ==> s.conflictIn < s.claims)
    && (s.committed != 0 && s.conflictIn == s.claims ==> s.cease)
    && (s.committed != 0 ==> s.claims > 0)
  }

  ghost predicate Inv(s: Host) {
    AddressInv(s) && LocationInv(s) && ControlInv(s) && ListenerInv(s) && ResponderInv(s) && HistoryInv(s)
  }

  lemma InitInv(s: Host)
    requires Init(s)
    ensures Inv(s)
  {}

  lemma CtlKeepsAddress(s: Host, s': Host)
    requires Inv(s) && CtlStep(s, s')
    ensures AddressInv(s') && LocationInv(s') && ControlInv(s')
  {}

  lemma CtlKeepsThreads(s: Host, s': Host)
    requires Inv(s) && CtlStep(s, s')
    ensures ListenerInv(s') && ResponderInv(s') && HistoryInv(s')
  {}

  lemma CtlInv(s: Host, s': Host)
    requires Inv(s) && CtlStep(s, s')
    ensures Inv(s')
  {
    CtlKeepsAddress(s, s');
    CtlKeepsThreads(s, s');
  }

  lemma SeekKeepsAddress(s: Host, s': Host, pick: Ipv4)
    requires Inv(s) && s.worker.Seeking? && IsLinkLocal(pick) && SeekStep(s, s', pick)
    ensures AddressInv(s') && LocationInv(s')
  {}

  lemma SeekInv(s: Host, s': Host, pick: Ipv4)
    requires Inv(s) && s.worker.Seeking? && IsLinkLocal(pick) && SeekStep(s, s', pick)
    ensures Inv(s')
  {
    SeekKeepsAddress(s, s', pick);
  }

  /** How a claim step moves between zones, and where it writes the address. */
  lemma ClaimZones(s: Host, s': Host)
    requires s.worker.Claiming? && ClaimStep(s, s')
    ensures s.worker.claim.Commit? ==> ZoneOf(s').Bare? && s'.committed == s.tentative
    ensures s.worker.claim.ClearAddr? ==> s'.worker == Seeking(OuterTop) && s'.committed == 0
    ensures !s.worker.claim.Commit? && !s.worker.claim.ClearAddr? ==>
              && (ZoneOf(s).Bare? || ZoneOf(s).Guarded?)
              && (ZoneOf(s').Bare? || ZoneOf(s').Guarded? || ZoneOf(s').Clearing? || ZoneOf(s').Done?)
              && s'.committed == s.committed
    ensures s'.tentative == s.tentative
  {}

  lemma ClaimKeepsAddress(s: Host, s': Host)
    requires AddressInv(s) && s.worker.Claiming? && ClaimStep(s, s')
    ensures AddressInv(s')
  {
    ClaimZones(s, s');
  }

  lemma ClaimKeepsControl(s: Host, s': Host)
    requires Inv(s) && s.worker.Claiming? && ClaimStep(s, s')
    ensures LocationInv(s') && ControlInv(s') && ListenerInv(s')
  {}

  lemma ClaimKeepsHistory(s: Host, s': Host)
    requires Inv(s) && s.worker.Claiming? && ClaimStep(s, s')
    ensures ResponderInv(s') && HistoryInv(s')
  {}

  lemma ClaimInv(s: Host, s': Host)
    requires Inv(s) && s.worker.Claiming? && ClaimStep(s, s')
    ensures Inv(s')
  {
    ClaimKeepsAddress(s, s');
    ClaimKeepsControl(s, s');
    ClaimKeepsHistory(s, s');
  }

  lemma ListenerStepInv(s: Host, s': Host, ok: bool, heard: Option<ArpFrame>)
    requires Inv(s) && ListenerStep(s, s', ok, heard)
    ensures Inv(s')
  {}

  lemma ResponderStepInv(s: Host, s': Host, ok: bool, heard: Option<ArpFrame>)
    requires Inv(s) && ResponderStep(s, s', ok, heard)
    ensures Inv(s')
  {
    if s.responder.at.RSend? {
      AnswersSoundAppend(s.answers, s.mac, Answer(s.responder.at.f, s.responder.at.addr));
    }
  }

  lemma RequestInv(s: Host, restart: bool)
    requires Inv(s) && s.ctl.Idle?
    ensures Inv(s.(ctl := Aborting(SetStop, restart)))
  {}

  lemma WorkerInv(s: Host, s': Host, pick: Ipv4)
    requires Inv(s) && Next(s, s', WorkerNext(pick))
    ensures Inv(s')
  {
    if s.worker.Seeking? {
      SeekInv(s, s', pick);
    } else {
      ClaimInv(s, s');
    }
  }

  lemma NextInv(s: Host, s': Host, step: Step)
    requires Inv(s) && Next(s, s', step)
    ensures Inv(s')
  {
    match step
    case Start => RequestInv(s, true);
    case Abort => RequestInv(s, false);
    case CtlNext => CtlInv(s, s');
    case WorkerNext(pick) => WorkerInv(s, s', pick);
    case ListenerNext(ok, heard) => ListenerStepInv(s, s', ok, heard);
    case ResponderNext(ok, heard) => ResponderStepInv(s, s', ok, heard);
  }

  lemma {:induction false} RunInv(states: seq<Host>, steps: seq<Step>, i: nat)
    requires IsRun(states, steps) && i < |states|
    ensures Inv(states[i])
  {
    if i == 0 {
      InitInv(states[0]);
    } else {
      RunInv(states, steps, i - 1);
      RunStep(states, steps, i - 1);
      NextInv(states[i - 1], states[i], steps[i - 1]);
    }
  }

  // ---------- What holds in every interleaving ----------

  /** What one step of any thread may do to the address, the cease flag and the histories. */
  ghost predicate Bounded(s: Host, s': Host) {
    && s.claims <= s'.claims
    && (s'.conflictIn == s.conflictIn || s'.conflictIn == s.claims)
    && (s.responder.Responding? && s'.responder.Responding? ==> s'.committed == s.committed)
    && (s.cease && !s'.cease ==> !s.responder.Responding?)
    && (!s.cease && s'.cease ==> s.responder.Responding? && s.responder.at.RCease?)
    && (s'.answers != s.answers ==>
          s.responder.Responding? && s.responder.at.RSend? && s'.answers == s.answers + [Answer(s.responder.at.f, s.responder.at.addr)])
  }

  lemma CtlBounded(s: Host, s': Host)
    requires Inv(s) && CtlStep(s, s')
    ensures Bounded(s, s')
  {}

  lemma ClaimBounded(s: Host, s': Host)
    requires Inv(s) && s.worker.Claiming? && ClaimStep(s, s')
    ensures Bounded(s, s')
  {}

  lemma ResponderBounded(s: Host, s': Host, ok: bool, heard: Option<ArpFrame>)
    requires Inv(s) && ResponderStep(s, s', ok, heard)
    ensures Bounded(s, s')
  {}

  lemma NextBounded(s: Host, s': Host, step: Step)
    requires Inv(s) && Next(s, s', step)
    ensures Bounded(s, s')
  {
    match step
    case Start =>
    case Abort =>
    case CtlNext => CtlBounded(s, s');
    case WorkerNext(pick) =>
      if s.worker.Claiming? {
        ClaimBounded(s, s');
      }
    case ListenerNext(ok, heard) =>
    case ResponderNext(ok, heard) => ResponderBounded(s, s', ok, heard);
  }

  /** What every state of a run shows to the outside. */
  ghost predicate Sound(s: Host) {
    && (s.responder.Responding? ==> s.committed != 0 && IsLinkLocal(s.committed))
    && (s.responder.Responding? && s.responder.at.RCease? ==> s.responder.at.f.senderHw != s.mac && s.responder.at.f.senderIp == s.committed)
    && (s.responder.Responding? && s.responder.at.RSend? ==> s.responder.at.addr == s.committed && Answerable(s.responder.at.f, s.mac, s.committed))
    && (s.committed != 0 && s.conflictIn == s.claims ==> s.cease)
  }

  lemma InvSound(s: Host)
    requires Inv(s)
    ensures Sound(s)
  {}

  lemma StepSound(states: seq<Host>, steps: seq<Step>, i: nat)
    requires IsRun(states, steps) && i < |states|
    ensures Sound(states[i]) && (i < |steps| ==> Bounded(states[i], states[i + 1]))
  {
    RunInv(states, steps, i);
    InvSound(states[i]);
    if i < |steps| {
      RunStep(states, steps, i);
      NextBounded(states[i], states[i + 1], steps[i]);
    }
  }

  ghost predicate Traced(states: seq<Host>) {
    && (forall k | 0 <= k < |states| :: Sound(states[k]))
    && (forall k | 0 <= k < |states| - 1 :: Bounded(states[k], states[k + 1]))
  }

  lemma RunTraced(states: seq<Host>, steps: seq<Step>)
    requires IsRun(states, steps)
    ensures Traced(states)
  {
    forall k | 0 <= k < |states|
      ensures Sound(states[k]) && (k < |steps| ==> Bounded(states[k], states[k + 1]))
    {
      StepSound(states, steps, k);
    }
  }

  lemma {:induction false} TracedAddress(states: seq<Host>, i: nat, j: nat)
    requires Traced(states) && i <= j < |states|
    requires forall k | i <= k <= j :: states[k].responder.Responding?
    ensures states[j].committed == states[i].committed && IsLinkLocal(states[i].committed)
    decreases j
  {
    if i < j {
      TracedAddress(states, i, j - 1);
      assert Bounded(states[j - 1], states[j - 1 + 1]);
    }
  }

  /** While a responder runs, the committed address is a link-local address and does not change. */
  lemma AddressConstantWhileDefended(states: seq<Host>, steps: seq<Step>, i: nat, j: nat)
    requires IsRun(states, steps) && i <= j < |states|
    requires forall k | i <= k <= j :: states[k].responder.Responding?
    ensures states[j].committed == states[i].committed && IsLinkLocal(states[i].committed)
  {
    RunTraced(states, steps);
    TracedAddress(states, i, j);
  }

  /** A Reply is sent only to a Request of another host for the committed address, carries that address,
      and never answers a frame that conflicts with it. */
  lemma RepliesDefendTheClaim(states: seq<Host>, steps: seq<Step>, i: nat)
    requires IsRun(states, steps) && i < |steps| && states[i + 1].answers != states[i].answers
    ensures exists f ::
              && states[i + 1].answers == states[i].answers + [Answer(f, states[i].committed)]
              && states[i].committed != 0 && IsLinkLocal(states[i].committed) && f.senderIp != states[i].committed
              && Respond(f, states[i].mac, states[i].committed) == Defend(ArpReply(states[i].mac, states[i].committed, f.senderIp))
  {
    StepSound(states, steps, i);
  }

  /** The cease flag is lowered only when no responder runs, and raised only for a frame of another
      host that uses the committed address. */
  lemma CeaseFlag(states: seq<Host>, steps: seq<Step>, i: nat)
    requires IsRun(states, steps) && i < |steps|
    ensures states[i].cease && !states[i + 1].cease ==> !states[i].responder.Responding?
    ensures !states[i].cease && states[i + 1].cease ==>
              && states[i].responder.Responding? && states[i].responder.at.RCease?
              && states[i].responder.at.f.senderHw != states[i].mac
              && states[i].responder.at.f.senderIp == states[i].committed != 0
  {
    StepSound(states, steps, i);
  }

  lemma {:induction false} TracedClaims(states: seq<Host>, i: nat, j: nat)
    requires Traced(states) && i <= j < |states|
    ensures states[i].claims <= states[j].claims
    decreases j
  {
    if i < j {
      TracedClaims(states, i, j - 1);
      assert Bounded(states[j - 1], states[j - 1 + 1]);
    }
  }

  lemma {:induction false} TracedConflict(states: seq<Host>, i: nat, j: nat)
    requires Traced(states) && i <= j < |states|
    requires states[i].conflictIn == states[i].claims == states[j].claims
    ensures states[j].conflictIn == states[j].claims
    decreases j
  {
    if i < j {
      TracedClaims(states, i, j - 1);
      assert Bounded(states[j - 1], states[j - 1 + 1]);
      TracedConflict(states, i, j - 1);
    }
  }

  /** A conflict seen in a claim is never forgotten: whenever that claim still stands, the flag that
      ends it is up. */
  lemma ConflictNeverForgotten(states: seq<Host>, steps: seq<Step>, i: nat, j: nat)
    requires IsRun(states, steps) && i <= j < |states|
    requires states[i].conflictIn == states[i].claims == states[j].claims && states[j].committed != 0
    ensures states[j].cease
  {
    RunTraced(states, steps);
    TracedConflict(states, i, j);
  }

  // ---------- No claim is given up without cause ----------

  /** The flag is down when a responder is started, so while one runs it is up only for a conflict seen in this claim; and
      the worker is on its way to giving up the address only with the flag up. */
  predicate CeaseInv(s: Host) {
    s.worker.Claiming? ==>
      && (ZoneOf(s).Bare? && !s.worker.claim.ClearCease? ==> !s.cease)
      && ((ZoneOf(s).Guarded? || ZoneOf(s).Clearing?) && s.cease ==> s.conflictIn == s.claims)
      && (s.worker.claim.SteadyExit? ==> s.stop || s.cease)
      && ((s.worker.claim.StopR? || s.worker.claim.JoinR?) && s.worker.claim.rcall.CeaseR? ==> s.cease)
      && (s.worker.claim.ClearAddr? ==> s.cease)
  }

  lemma CtlCease(s: Host, s': Host)
    requires Inv(s) && CeaseInv(s) && CtlStep(s, s')
    ensures CeaseInv(s')
  {}

  lemma WorkerCease(s: Host, s': Host, pick: Ipv4)
    requires Inv(s) && CeaseInv(s) && Next(s, s', WorkerNext(pick))
    ensures CeaseInv(s')
  {}

  lemma ResponderCease(s: Host, s': Host, ok: bool, heard: Option<ArpFrame>)
    requires Inv(s) && CeaseInv(s) && ResponderStep(s, s', ok, heard)
    ensures CeaseInv(s')
  {}

  lemma NextCease(s: Host, s': Host, step: Step)
    requires Inv(s) && CeaseInv(s) && Next(s, s', step)
    ensures CeaseInv(s')
  {
    match step
    case CtlNext => CtlCease(s, s');
    case WorkerNext(pick) => WorkerCease(s, s', pick);
    case ResponderNext(ok, heard) => ResponderCease(s, s', ok, heard);
    case _ =>
  }

  lemma {:induction false} RunCease(states: seq<Host>, steps: seq<Step>, i: nat)
    requires IsRun(states, steps) && i < |states|
    ensures CeaseInv(states[i])
  {
    if i > 0 {
      RunCease(states, steps, i - 1);
      RunInv(states, steps, i - 1);
      RunStep(states, steps, i - 1);
      NextCease(states[i - 1], states[i], steps[i - 1]);
    }
  }

  /** An address is given up only for a conflict observed under it: when the worker is about to clear it, the responder of
      this very claim has seen one. */
  lemma NoClaimIsGivenUpWithoutCause(states: seq<Host>, steps: seq<Step>, i: nat)
    requires IsRun(states, steps) && i < |states| && states[i].worker == Claiming(ClearAddr)
    ensures states[i].conflictIn == states[i].claims && states[i].committed != 0
  {
    RunInv(states, steps, i);
    RunCease(states, steps, i);
  }
}
