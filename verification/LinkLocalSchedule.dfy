/**
 What a host sends on its way to a claim and into it: three probes in every window that ends in a claim, two
 announcements in every claim that is not contested before, in every interleaving of its threads.
 */
module LinkLocalSchedule {
  import opened Wrappers
  import opened Arp
  import opened LinkLocalHost

  predicate SendsProbe(s: Host, step: Step) {
    step.WorkerNext? && s.worker.Seeking? && s.worker.seek.EmitProbe?
  }

  predicate SendsAnnouncement(s: Host, step: Step) {
    step.WorkerNext? && s.worker.Claiming? && s.worker.claim.EmitAnnounce?
  }

  // ---------- Probes ----------

  /** The probes sent by the steps from `i` to `j`. */
  function Probes(states: seq<Host>, steps: seq<Step>, i: nat, j: nat): nat
    requires i <= j <= |steps| < |states|
  {
    if i == j then 0 else Probes(states, steps, i, j - 1) + if SendsProbe(states[j - 1], steps[j - 1]) then 1 else 0
  }

  /** The worker is in a window, or judges one that has ended. */
  predicate InWindow(w: Worker) {
    w.Seeking? && (SeekZone(w.seek).Window? || w.seek.WindowStop? || w.seek.WindowConflict?)
  }

  /** How many probes a worker that stands here in a window has sent, if it is not leaving the window early. */
  function ProbesAt(at: SeekAt): Option<nat> {
    match at
    case ProbeWait => Some(0)
    case EmitProbe(i) => Some(i)
    case CheckProbe(i) => Some(i + 1)
    case ProbeGap(i) => Some(i + 1)
    case CheckGap(i) => Some(i + 1)
    case StopL(c) => if c.WindowL? then Some(3) else None
    case JoinL(c) => if c.WindowL? then Some(3) else None
    case _ => Some(3)
  }

  predicate HasProbed(w: Worker, n: nat) {
    InWindow(w) && (ProbesAt(w.seek) == None || ProbesAt(w.seek) == Some(n))
  }

  lemma SeekProbed(s: Host, s': Host, pick: Ipv4, n: nat)
    requires Inv(s) && s.worker.Seeking? && IsLinkLocal(pick) && SeekStep(s, s', pick) && HasProbed(s.worker, n)
    ensures s'.tentative == s.tentative
    ensures InWindow(s'.worker) ==> HasProbed(s'.worker, n + if SendsProbe(s, WorkerNext(pick)) then 1 else 0)
    ensures s'.worker == Claiming(Commit) ==> n == 3 && !SendsProbe(s, WorkerNext(pick))
  {}

  lemma CtlKeepsWindow(s: Host, s': Host)
    requires Inv(s) && CtlStep(s, s') && InWindow(s.worker)
    ensures s'.worker == s.worker && s'.tentative == s.tentative
  {}

  lemma NextProbed(s: Host, s': Host, step: Step, n: nat)
    requires Inv(s) && Next(s, s', step) && HasProbed(s.worker, n)
    ensures s'.tentative == s.tentative
    ensures InWindow(s'.worker) ==> HasProbed(s'.worker, n + if SendsProbe(s, step) then 1 else 0)
    ensures s'.worker == Claiming(Commit) ==> n == 3 && !SendsProbe(s, step)
  {
    match step
    case Start =>
    case Abort =>
    case CtlNext => CtlKeepsWindow(s, s');
    case WorkerNext(pick) => SeekProbed(s, s', pick, n);
    case ListenerNext(_, _) =>
    case ResponderNext(_, _) =>
  }

  /** A window from its first wait on, through step `k`. */
  predicate OneWindow(states: seq<Host>, i: nat, k: nat) {
    && i <= k < |states| && states[i].worker == Seeking(ProbeWait)
    && forall m | i <= m <= k :: InWindow(states[m].worker)
  }

  ghost predicate ProbedBy(states: seq<Host>, steps: seq<Step>, i: nat, k: nat)
    requires i <= k <= |steps| < |states|
  {
    HasProbed(states[k].worker, Probes(states, steps, i, k)) && states[k].tentative == states[i].tentative
  }

  lemma ProbedNext(states: seq<Host>, steps: seq<Step>, i: nat, k: nat)
    requires IsRun(states, steps) && i <= k < |steps| && ProbedBy(states, steps, i, k) && InWindow(states[k + 1].worker)
    ensures ProbedBy(states, steps, i, k + 1)
  {
    RunInv(states, steps, k);
    RunStep(states, steps, k);
    NextProbed(states[k], states[k + 1], steps[k], Probes(states, steps, i, k));
  }

  lemma {:induction false} WindowProbes(states: seq<Host>, steps: seq<Step>, i: nat, k: nat)
    requires IsRun(states, steps) && OneWindow(states, i, k)
    ensures ProbedBy(states, steps, i, k)
    decreases k
  {
    if i < k {
      WindowProbes(states, steps, i, k - 1);
      ProbedNext(states, steps, i, k - 1);
    }
  }

  /** Every window that ends in a claim has sent exactly three probes, all for the address that is then claimed. */
  lemma ThreeProbesBeforeAClaim(states: seq<Host>, steps: seq<Step>, i: nat, k: nat)
    requires IsRun(states, steps) && OneWindow(states, i, k) && k < |steps| && states[k + 1].worker == Claiming(Commit)
    ensures Probes(states, steps, i, k + 1) == 3 && states[k + 1].tentative == states[i].tentative
  {
    WindowProbes(states, steps, i, k);
    RunInv(states, steps, k);
    RunStep(states, steps, k);
    NextProbed(states[k], states[k + 1], steps[k], Probes(states, steps, i, k));
  }

  // ---------- Announcements ----------

  /** The announcements sent by the steps from `i` to `j`. */
  function Announcements(states: seq<Host>, steps: seq<Step>, i: nat, j: nat): nat
    requires i <= j <= |steps| < |states|
  {
    if i == j then 0 else Announcements(states, steps, i, j - 1) + if SendsAnnouncement(states[j - 1], steps[j - 1]) then 1 else 0
  }

  /** The worker has its responder and announces, or has done so and looks after the claim. */
  predicate InClaim(w: Worker) {
    w.Claiming? && (w.claim.AwaitReady? || w.claim.AnnounceTop? || w.claim.EmitAnnounce? || w.claim.AnnounceGap?
                    || w.claim.SteadyStop? || w.claim.SteadyCease? || w.claim.SteadyExit?)
  }

  /** How many announcements a worker in a claim has sent. A claim contested early sends fewer. */
  predicate HasAnnounced(s: Host, n: nat) {
    InClaim(s.worker) && n <= 2 && (AnnouncementsAt(s.worker.claim) == Some(n) || (AnnouncementsAt(s.worker.claim) == None && (n == 2 || s.cease)))
  }

  /** How many announcements a worker that stands here has sent, if it has not sent them all. */
  function AnnouncementsAt(at: ClaimAt): Option<nat> {
    match at
    case AwaitReady => Some(0)
    case AnnounceTop(i) => Some(i)
    case EmitAnnounce(i) => Some(i)
    case AnnounceGap => Some(1)
    case _ => None
  }

  lemma ClaimAnnounced(s: Host, s': Host, n: nat)
    requires Inv(s) && s.worker.Claiming? && ClaimStep(s, s') && HasAnnounced(s, n)
    ensures s'.committed == s.committed
    ensures InClaim(s'.worker) ==> HasAnnounced(s', n + if s.worker.claim.EmitAnnounce? then 1 else 0)
  {}

  lemma CtlKeepsClaim(s: Host, s': Host)
    requires Inv(s) && CtlStep(s, s') && InClaim(s.worker)
    ensures s'.worker == s.worker && s'.committed == s.committed && s'.cease == s.cease
  {}

  lemma ResponderKeepsClaim(s: Host, s': Host, ok: bool, heard: Option<ArpFrame>)
    requires ResponderStep(s, s', ok, heard)
    ensures s'.worker == s.worker && s'.committed == s.committed && (s.cease ==> s'.cease)
  {}

  lemma NextAnnounced(s: Host, s': Host, step: Step, n: nat)
    requires Inv(s) && Next(s, s', step) && HasAnnounced(s, n)
    ensures s'.committed == s.committed
    ensures InClaim(s'.worker) ==> HasAnnounced(s', n + if SendsAnnouncement(s, step) then 1 else 0)
  {
    match step
    case Start =>
    case Abort =>
    case CtlNext => CtlKeepsClaim(s, s');
    case WorkerNext(_) => ClaimAnnounced(s, s', n);
    case ListenerNext(_, _) =>
    case ResponderNext(ok, heard) => ResponderKeepsClaim(s, s', ok, heard);
  }

  /** A claim from the start of its responder on, through step `k`. */
  predicate OneClaim(states: seq<Host>, i: nat, k: nat) {
    && i <= k < |states| && states[i].worker == Claiming(AwaitReady)
    && forall m | i <= m <= k :: InClaim(states[m].worker)
  }

  ghost predicate AnnouncedBy(states: seq<Host>, steps: seq<Step>, i: nat, k: nat)
    requires i <= k <= |steps| < |states|
  {
    HasAnnounced(states[k], Announcements(states, steps, i, k)) && states[k].committed == states[i].committed
  }

  lemma AnnouncedNext(states: seq<Host>, steps: seq<Step>, i: nat, k: nat)
    requires IsRun(states, steps) && i <= k < |steps| && AnnouncedBy(states, steps, i, k) && InClaim(states[k + 1].worker)
    ensures AnnouncedBy(states, steps, i, k + 1)
  {
    RunInv(states, steps, k);
    RunStep(states, steps, k);
    NextAnnounced(states[k], states[k + 1], steps[k], Announcements(states, steps, i, k));
  }

  lemma {:induction false} ClaimAnnouncements(states: seq<Host>, steps: seq<Step>, i: nat, k: nat)
    requires IsRun(states, steps) && OneClaim(states, i, k)
    ensures AnnouncedBy(states, steps, i, k)
    decreases k
  {
    if i < k {
      ClaimAnnouncements(states, steps, i, k - 1);
      AnnouncedNext(states, steps, i, k - 1);
    }
  }

  lemma SteadyHasAnnounced(s: Host, n: nat)
    requires HasAnnounced(s, n)
    ensures n <= 2 && (s.worker == Claiming(SteadyStop) && !s.cease ==> n == 2)
  {}

  /** Every claim sends at most two announcements, all under the committed address, and once it is steady it has sent
      exactly two unless it had been contested before. */
  lemma TwoAnnouncements(states: seq<Host>, steps: seq<Step>, i: nat, k: nat)
    requires IsRun(states, steps) && OneClaim(states, i, k)
    ensures Announcements(states, steps, i, k) <= 2 && states[k].committed == states[i].committed
    ensures states[k].worker == Claiming(SteadyStop) && !states[k].cease ==> Announcements(states, steps, i, k) == 2
  {
    ClaimAnnouncements(states, steps, i, k);
    SteadyHasAnnounced(states[k], Announcements(states, steps, i, k));
  }

  // ---------- The rate limit ----------

  /** The step gives a window up for a conflict. */
  predicate LosesWindow(s: Host, step: Step) {
    step.WorkerNext? && s.worker.Seeking? && (s.worker.seek == JoinL(ConflictL) || (s.worker.seek.WindowConflict? && s.conflict))
  }

  /** The windows given up by the steps from `i` to `j`. */
  function LostWindows(states: seq<Host>, steps: seq<Step>, i: nat, j: nat): nat
    requires i <= j <= |steps| < |states|
  {
    if i == j then 0 else LostWindows(states, steps, i, j - 1) + if LosesWindow(states[j - 1], steps[j - 1]) then 1 else 0
  }

  /** The worker looks for an address and has not gone back to the top of its loop. */
  predicate Looking(w: Worker) {
    w.Seeking? && !w.seek.OuterTop? && !w.seek.DhcpWait?
  }

  lemma SeekCounts(s: Host, s': Host, pick: Ipv4)
    requires s.worker.Seeking? && IsLinkLocal(pick) && SeekStep(s, s', pick) && Looking(s.worker)
    ensures s'.conflicts == s.conflicts + if LosesWindow(s, WorkerNext(pick)) then 1 else 0
    ensures s'.worker == Seeking(PickAddr) ==> s.worker == Seeking(RateWait) || s'.conflicts < 10
  {}

  lemma NextCounts(s: Host, s': Host, step: Step)
    requires Inv(s) && Next(s, s', step) && Looking(s.worker)
    ensures s'.conflicts == s.conflicts + if LosesWindow(s, step) then 1 else 0
    ensures s'.worker == Seeking(PickAddr) && s.worker != s'.worker ==> s.worker == Seeking(RateWait) || s'.conflicts < 10
  {
    match step
    case WorkerNext(pick) => SeekCounts(s, s', pick);
    case _ =>
  }

  /** A search from its first pick on, through step `k`. */
  predicate OneSearch(states: seq<Host>, i: nat, k: nat) {
    && i <= k < |states| && states[i].worker == Seeking(PickAddr) && states[i].conflicts == 0
    && forall m | i <= m <= k :: Looking(states[m].worker)
  }

  lemma {:induction false} SearchCounts(states: seq<Host>, steps: seq<Step>, i: nat, k: nat)
    requires IsRun(states, steps) && OneSearch(states, i, k)
    ensures states[k].conflicts == LostWindows(states, steps, i, k)
    decreases k
  {
    if i < k {
      SearchCounts(states, steps, i, k - 1);
      RunInv(states, steps, k - 1);
      RunStep(states, steps, k - 1);
      NextCounts(states[k - 1], states[k], steps[k - 1]);
    }
  }

  /** In every interleaving, once ten windows of a search have been given up, the worker comes to another pick only out of
      the long wait. */
  lemma RateIsLimited(states: seq<Host>, steps: seq<Step>, i: nat, k: nat)
    requires IsRun(states, steps) && OneSearch(states, i, k) && k < |steps|
    requires states[k + 1].worker == Seeking(PickAddr) && states[k].worker != Seeking(PickAddr)
    requires LostWindows(states, steps, i, k + 1) >= 10
    ensures states[k].worker == Seeking(RateWait)
  {
    SearchCounts(states, steps, i, k);
    RunInv(states, steps, k);
    RunStep(states, steps, k);
    NextCounts(states[k], states[k + 1], steps[k]);
  }
}
