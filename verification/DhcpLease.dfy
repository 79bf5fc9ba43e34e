/**
 The BOUND / RENEWING / REBINDING phase machine (section 4.4.5 of RFC 2131) against a watcher that
 states what a lease epoch may send and when. Times are nanoseconds of a clock that never runs
 backwards; the environment supplies one `Tick` per turn of the loop, and a machine that is stopped
 is one whose ticks end.
 */
module DhcpLease {
  import opened Wrappers

  type uint32 = x: int | 0 <= x < 0x1_0000_0000

  const SECOND: int := 1_000_000_000
  const DHCP_ACK: nat := 5
  const DHCP_NAK: nat := 6

  // ---------- The schedule of one epoch ----------

  /** T1 is half the lease; T2 is seven eighths of it, multiplied out in 32 bits first. */
  function T1(base: int, lease: uint32): int {
    base + (lease / 2) * SECOND
  }

  function T2(base: int, lease: uint32): int {
    base + ((lease * 7) % 0x1_0000_0000 / 8) * SECOND
  }

  function Expiry(base: int, lease: uint32): int {
    base + lease * SECOND
  }

  const LONGEST_ORDERED_LEASE: uint32 := 613566756

  /** The schedule is T1 <= T2 <= expiry, with T2 at seven eighths, exactly for leases whose seven-fold
      fits 32 bits; every longer lease puts T2 before T1. T2 never exceeds the expiry. */
  lemma ScheduleOrdered(base: int, lease: uint32)
    ensures T1(base, lease) <= T2(base, lease) <==> lease <= LONGEST_ORDERED_LEASE
    ensures lease <= LONGEST_ORDERED_LEASE ==> T2(base, lease) == base + (7 * lease / 8) * SECOND
    ensures T2(base, lease) <= Expiry(base, lease)
  {
    var q := (lease * 7) / 0x1_0000_0000;
    assert lease * 7 == q * 0x1_0000_0000 + (lease * 7) % 0x1_0000_0000 && 0 <= q <= 6;
  }

  /** For the infinite lease 0xFFFFFFFF (section 9.2 of RFC 2132) the machine would rebind long before it renews. */
  lemma InfiniteLeaseIsDisordered(base: int)
    ensures T1(base, 0xFFFF_FFFF) == base + 2147483647 * SECOND
    ensures T2(base, 0xFFFF_FFFF) == base + 536870911 * SECOND
  {}

  /** Half of a duration, truncated toward zero. */
  function Half(d: int): int {
    if d >= 0 then d / 2 else -((-d) / 2)
  }

  // ---------- What the machine does, seen from outside ----------

  datatype Reply = Reply(msgType: nat, lease: uint32, server: uint32)

  /** One turn of the loop: the clock at its top, the reply polled, and the clock when a reply re-arms. */
  datatype Tick = Tick(now: int, reply: Option<Reply>, later: int)

  /** The call: the cycle's transaction id, the committed address, the granting server, the lease, the clock, the world. */
  datatype Job = Job(xid: uint32, client: uint32, server: uint32, lease: uint32, start: int, ticks: seq<Tick>)

  // ---------- What the replies make of a lease ----------

  /** A lease: when it began, for how many seconds, and which server granted it. */
  datatype Terms = Terms(base: int, lease: uint32, server: uint32)

  /** The lease in force at turn k, as long as none before was the end of it: the latest one granted. An ACK (type 5) with
      a lease time grants a new lease from the instant it is read; it keeps the server if it names none. */
  function InForce(j: Job, k: nat): Terms
    requires k <= |j.ticks|
  {
    if k == 0 then Terms(j.start, j.lease, j.server)
    else
      var t, was := j.ticks[k - 1], InForce(j, k - 1);
      if t.reply.Some? && t.reply.value.msgType == 5 && t.reply.value.lease != 0
      then Terms(t.later, t.reply.value.lease, if t.reply.value.server == 0 then was.server else t.reply.value.server)
      else was
  }

  /** Turn k finds the lease in force run out, or is answered with a NAK (type 6). */
  predicate Loses(j: Job, k: nat)
    requires k < |j.ticks|
  {
    || j.ticks[k].now >= InForce(j, k).base + InForce(j, k).lease * 1_000_000_000
    || (j.ticks[k].reply.Some? && j.ticks[k].reply.value.msgType == 6)
  }

  /** The lease is lost in some turn. */
  predicate IsLost(j: Job) {
    j.lease != 0 && exists k | 0 <= k < |j.ticks| :: Loses(j, k)
  }

  // ---------- What the machine does, turn by turn ----------

  datatype Event =
    | Look
    | Renew(xid: uint32, ciaddr: uint32, dst: uint32)
    | Rebind(xid: uint32, ciaddr: uint32)
    | Heard
    | Expired

  /** An epoch's three instants. */
  datatype Plan = Plan(t1: int, t2: int, end: int)

  function PlanOf(base: int, lease: uint32): Plan {
    Plan(T1(base, lease), T2(base, lease), Expiry(base, lease))
  }

  /** The watcher's record of the current epoch: its instants, which server granted it, and when
      each request went out. `looked` marks a turn under way, `resent` one that has already retransmitted. */
  datatype Watch =
    | Live(turn: nat, plan: Plan, server: uint32, now: int, looked: bool, resent: bool, due: int, renews: seq<int>, rebinds: seq<int>)
    | Over

  function Epoch(turn: nat, base: int, lease: uint32, server: uint32): Watch {
    Live(turn, PlanOf(base, lease), server, base, false, false, base, [], [])
  }

  /** When the next transmission falls due: half the time left after this one, at whole nanoseconds. */
  function NextDue(now: int, hi: int): int {
    now + Half(hi - now)
  }

  /** A further transmission is owed: it fell due inside the window, once a turn. */
  predicate ResendOwed(w: Watch, hi: int)
    requires w.Live?
  {
    !w.resent && w.due <= w.now < hi
  }

  predicate MayRenew(w: Watch) {
    && w.Live? && w.looked && w.rebinds == []
    && w.now >= w.plan.t1
    && (w.renews != [] ==> ResendOwed(w, w.plan.t2))
  }

  predicate MayRebind(w: Watch) {
    && w.Live? && w.looked && w.renews != []
    && w.now >= w.plan.t2
    && (w.rebinds != [] ==> ResendOwed(w, w.plan.end))
  }

  /** A turn is complete when no transmission is owed any more. */
  predicate TurnDone(w: Watch) {
    w.Live? && w.looked && !MayRenew(w) && !MayRebind(w)
  }

  /** What one event may do; `None` is a violation. */
  function Follow(w: Watch, e: Event, j: Job): Option<Watch> {
    if w.Over? then None else
    match e
    case Look =>
      if !w.looked && w.turn < |j.ticks|
      then Some(w.(turn := w.turn + 1, now := j.ticks[w.turn].now, looked := true, resent := false))
      else None
    case Renew(xid, ciaddr, dst) =>
      if MayRenew(w) && xid == j.xid && ciaddr == j.client && dst == w.server
      then Some(w.(renews := w.renews + [w.now], resent := w.renews != [], due := NextDue(w.now, w.plan.t2)))
      else None
    case Rebind(xid, ciaddr) =>
      if MayRebind(w) && xid == j.xid && ciaddr == j.client
      then Some(w.(rebinds := w.rebinds + [w.now], resent := w.rebinds != [], due := NextDue(w.now, w.plan.end)))
      else None
    case Heard =>
      if TurnDone(w) && w.now < w.plan.end && 0 < w.turn <= |j.ticks|
      then Some(AfterReply(w, j.ticks[w.turn - 1]))
      else None
    case Expired =>
      if TurnDone(w) && w.now >= w.plan.end then Some(Over) else None
  }

  /** A NAK ends the lease; an ACK with a lease time opens a new epoch; nothing else matters. */
  function AfterReply(w: Watch, t: Tick): Watch
    requires w.Live?
  {
    match t.reply
    case None => w.(looked := false)
    case Some(r) =>
      if r.msgType == DHCP_NAK then Over
      else if r.msgType == DHCP_ACK && r.lease != 0 then
        Epoch(w.turn, t.later, r.lease, if r.server != 0 then r.server else w.server)
      else w.(looked := false)
  }

  function Watched(trace: seq<Event>, j: Job): Option<Watch> {
    if trace == [] then Some(Epoch(0, j.start, j.lease, j.server))
    else
      match Watched(trace[..|trace| - 1], j)
      case None => None
      case Some(w) => Follow(w, trace[|trace| - 1], j)
  }

  lemma WatchedSnoc(trace: seq<Event>, e: Event, w: Watch, j: Job)
    requires Watched(trace, j) == Some(w)
    ensures Watched(trace + [e], j) == Follow(w, e, j)
  {
    assert (trace + [e])[..|trace|] == trace;
  }

  /** The watch leaves no choice: at most one event may follow. */
  lemma OnlyOneEvent(w: Watch, e: Event, e': Event, j: Job)
    requires Follow(w, e, j).Some? && Follow(w, e', j).Some?
    ensures e == e'
  {}

  lemma {:induction false} WatchedPrefix(trace: seq<Event>, n: nat, j: Job)
    requires Watched(trace, j).Some? && n <= |trace|
    ensures Watched(trace[..n], j).Some?
  {
    if n == |trace| {
      assert trace[..n] == trace;
    } else {
      WatchedPrefix(trace[..|trace| - 1], n, j);
      assert trace[..|trace| - 1][..n] == trace[..n];
    }
  }

  /** So one call has one trace: of any two that the watcher accepts, the shorter begins the longer. */
  lemma {:induction false} OneTrace(a: seq<Event>, b: seq<Event>, j: Job)
    requires Watched(a, j).Some? && Watched(b, j).Some? && |a| <= |b|
    ensures a <= b
  {
    if a != [] {
      var n := |a| - 1;
      OneTrace(a[..n], b, j);
      WatchedPrefix(b, n + 1, j);
      assert b[..n + 1][..n] == b[..n] == a[..n];
      OnlyOneEvent(Watched(a[..n], j).value, a[n], b[n], j);
    }
  }

  // What each admissible event does to the watch.

  lemma Looked(trace: seq<Event>, w: Watch, j: Job) returns (w': Watch)
    requires Watched(trace, j) == Some(w) && w.Live? && !w.looked && w.turn < |j.ticks|
    ensures Watched(trace + [Look], j) == Some(w')
    ensures w' == w.(turn := w.turn + 1, now := j.ticks[w.turn].now, looked := true, resent := false)
  {
    WatchedSnoc(trace, Look, w, j);
    w' := Follow(w, Look, j).value;
  }

  lemma Renewed(trace: seq<Event>, w: Watch, j: Job) returns (w': Watch)
    requires Watched(trace, j) == Some(w) && MayRenew(w)
    ensures Watched(trace + [Renew(j.xid, j.client, w.server)], j) == Some(w')
    ensures w' == w.(renews := w.renews + [w.now], resent := w.renews != [], due := NextDue(w.now, w.plan.t2))
  {
    WatchedSnoc(trace, Renew(j.xid, j.client, w.server), w, j);
    w' := Follow(w, Renew(j.xid, j.client, w.server), j).value;
  }

  lemma Rebound(trace: seq<Event>, w: Watch, j: Job) returns (w': Watch)
    requires Watched(trace, j) == Some(w) && MayRebind(w)
    ensures Watched(trace + [Rebind(j.xid, j.client)], j) == Some(w')
    ensures w' == w.(rebinds := w.rebinds + [w.now], resent := w.rebinds != [], due := NextDue(w.now, w.plan.end))
  {
    WatchedSnoc(trace, Rebind(j.xid, j.client), w, j);
    w' := Follow(w, Rebind(j.xid, j.client), j).value;
  }

  lemma Settled(trace: seq<Event>, w: Watch, j: Job) returns (w': Watch)
    requires Watched(trace, j) == Some(w) && TurnDone(w) && 0 < w.turn <= |j.ticks|
    ensures w.now >= w.plan.end ==> Watched(trace + [Expired], j) == Some(w') && w' == Over
    ensures w.now < w.plan.end ==> Watched(trace + [Heard], j) == Some(w') && w' == AfterReply(w, j.ticks[w.turn - 1])
  {
    WatchedSnoc(trace, Expired, w, j);
    WatchedSnoc(trace, Heard, w, j);
    w' := if w.now >= w.plan.end then Over else AfterReply(w, j.ticks[w.turn - 1]);
  }

  // ---------- The machine ----------

  datatype Phase = Bound | Renewing | Rebinding

  /** The clock never runs backwards. */
  predicate Monotone(j: Job) {
    && (j.ticks != [] ==> j.start <= j.ticks[0].now)
    && (forall i | 0 <= i < |j.ticks| :: j.ticks[i].now <= j.ticks[i].later)
    && (forall i, k | 0 <= i < k < |j.ticks| :: j.ticks[i].later <= j.ticks[k].now)
  }

  /** How the machine's own variables reflect the requests sent so far. */
  predicate Reflects(phase: Phase, nextRetx: Option<int>, w: Watch)
    requires w.Live?
  {
    match phase
    case Bound => w.renews == [] && w.rebinds == [] && nextRetx == None
    case Renewing => w.renews != [] && w.rebinds == [] && w.now >= w.plan.t1 && nextRetx == Some(w.due)
    case Rebinding =>
      w.renews != [] && w.rebinds != [] && w.now >= w.plan.t1 && w.now >= w.plan.t2 && nextRetx == Some(w.due)
  }

  /** Due once the scheduled instant has come; nothing is due before one is scheduled. */
  predicate Due(nextRetx: Option<int>, now: int) {
    nextRetx.Some? && now >= nextRetx.value
  }

  /** A turn has begun, and the machine's variables say what the watch says. */
  predicate Starting(v: Watch, phase: Phase, nextRetx: Option<int>, plan: Plan, server: uint32, now: int) {
    && v.Live? && v.looked && !v.resent && v.plan == plan && v.server == server && v.now == now
    && Reflects(phase, nextRetx, v)
  }

  /** Nothing is owed any more in that turn. */
  predicate Ended(v: Watch, w: Watch, phase: Phase, nextRetx: Option<int>) {
    && v.Live? && w.Live? && w == v.(resent := w.resent, due := w.due, renews := w.renews, rebinds := w.rebinds)
    && TurnDone(w) && Reflects(phase, nextRetx, w)
  }

  /** The part of a turn that sends. It brings the watch to the end of the turn and changes nothing else of it. */
  method Transmit(j: Job, before: seq<Event>, phase0: Phase, nextRetx0: Option<int>, plan: Plan, server: uint32, now: int)
    returns (trace: seq<Event>, phase: Phase, nextRetx: Option<int>)
    requires Watched(before, j).Some? && Starting(Watched(before, j).value, phase0, nextRetx0, plan, server, now)
    ensures Watched(trace, j).Some? && Ended(Watched(before, j).value, Watched(trace, j).value, phase, nextRetx)
  {
    ghost var w := Watched(before, j).value;
    trace, phase, nextRetx := before, phase0, nextRetx0;
    if phase == Bound && now >= plan.t1 {
      phase := Renewing;
      w := Renewed(trace, w, j);
      trace := trace + [Renew(j.xid, j.client, server)];
      nextRetx := Some(NextDue(now, plan.t2));
    }
    if phase == Renewing && now >= plan.t2 {
      phase := Rebinding;
      w := Rebound(trace, w, j);
      trace := trace + [Rebind(j.xid, j.client)];
      nextRetx := Some(NextDue(now, plan.end));
    }
    if phase == Renewing && Due(nextRetx, now) && now < plan.t2 {
      w := Renewed(trace, w, j);
      trace := trace + [Renew(j.xid, j.client, server)];
      nextRetx := Some(NextDue(now, plan.t2));
    }
    if phase == Rebinding && Due(nextRetx, now) && now < plan.end {
      w := Rebound(trace, w, j);
      trace := trace + [Rebind(j.xid, j.client)];
      nextRetx := Some(NextDue(now, plan.end));
    }
  }

  /** Between turns: the machine's variables say what the watch says. */
  predicate Between(trace: seq<Event>, j: Job, i: nat, phase: Phase, nextRetx: Option<int>, plan: Plan, server: uint32) {
    && Watched(trace, j).Some? && Watched(trace, j).value.Live? && i <= |j.ticks|
    && var w := Watched(trace, j).value;
    && !w.looked && w.turn == i && w.plan == plan && w.server == server && Reflects(phase, nextRetx, w)
    && (i < |j.ticks| ==> w.now <= j.ticks[i].now)
  }

  /** One turn. It is the last if the lease has run out or a NAK has come; an ACK with a lease time starts over on it. */
  method TakeTurn(j: Job, before: seq<Event>, i: nat, phase0: Phase, nextRetx0: Option<int>, plan0: Plan, server0: uint32)
    returns (trace: seq<Event>, phase: Phase, nextRetx: Option<int>, plan: Plan, server: uint32, over: bool)
    requires Monotone(j) && i < |j.ticks| && Between(before, j, i, phase0, nextRetx0, plan0, server0)
    ensures over <==> j.ticks[i].now >= plan0.end || (j.ticks[i].reply.Some? && j.ticks[i].reply.value.msgType == 6)
    ensures over ==> Watched(trace, j) == Some(Over)
    ensures !over ==> Between(trace, j, i + 1, phase, nextRetx, plan, server)
    ensures !over ==>
      var r := j.ticks[i].reply;
      if r.Some? && r.value.msgType == 5 && r.value.lease != 0
      then plan == PlanOf(j.ticks[i].later, r.value.lease) && server == (if r.value.server == 0 then server0 else r.value.server)
      else plan == plan0 && server == server0
  {
    plan, server, over := plan0, server0, false;
    var now := j.ticks[i].now;
    ghost var w := Looked(before, Watched(before, j).value, j);
    trace, phase, nextRetx := Transmit(j, before + [Look], phase0, nextRetx0, plan, server, now);
    w := Settled(trace, Watched(trace, j).value, j);
    if now >= plan.end {
      trace := trace + [Expired];
      over := true;
      return;
    }
    trace := trace + [Heard];
    match j.ticks[i].reply {
      case None =>
      case Some(r) =>
        if r.msgType == DHCP_NAK {
          over := true;
          return;
        }
        if r.msgType == DHCP_ACK && r.lease != 0 {
          if r.server != 0 { server := r.server; }
          plan := PlanOf(j.ticks[i].later, r.lease);
          phase, nextRetx := Bound, None;
        }
    }
  }

  /** The machine returns to INIT exactly if the lease is lost in some turn: found run out, or taken back by a NAK. */
  method RunBoundPhaseMachine(j: Job) returns (trace: seq<Event>, restart: bool)
    requires Monotone(j)
    ensures j.lease == 0 ==> trace == [] && !restart
    ensures Watched(trace, j).Some?
    ensures restart <==> Watched(trace, j).value == Over
    ensures restart <==> IsLost(j)
    ensures j.lease != 0 && !restart ==> Watched(trace, j).value.turn == |j.ticks| && !Watched(trace, j).value.looked
  {
    trace, restart := [], false;
    if j.lease == 0 { return; }
    var server, plan := j.server, PlanOf(j.start, j.lease);
    var phase, nextRetx: Option<int> := Bound, None;
    var i := 0;
    while i < |j.ticks|
      invariant 0 <= i <= |j.ticks| && Between(trace, j, i, phase, nextRetx, plan, server)
      invariant var t := InForce(j, i); server == t.server && plan == PlanOf(t.base, t.lease)
      invariant forall k | 0 <= k < i :: !Loses(j, k)
    {
      trace, phase, nextRetx, plan, server, restart := TakeTurn(j, trace, i, phase, nextRetx, plan, server);
      assert restart <==> Loses(j, i);
      if restart { return; }
      i := i + 1;
    }
  }

  // ---------- What every watched trace obeys ----------

  /** Instants that start no sooner than `lo`, stay below `hi` from the second on, and leave each time at least half
      of what was left. */
  predicate Paced(xs: seq<int>, lo: int, hi: int) {
    && (xs != [] ==> xs[0] >= lo)
    && (forall k | 0 < k < |xs| :: lo <= xs[k] < hi && xs[k] - xs[k - 1] >= Half(hi - xs[k - 1]))
  }

  /** The turns a watch has been through. */
  function TurnsDone(w: Watch): int
    requires w.Live?
  {
    if w.looked then w.turn - 1 else w.turn
  }

  /** The watch runs on the lease in force at its turn, and no turn so far has lost it. */
  predicate OnTerms(w: Watch, j: Job)
    requires w.Live?
  {
    && 0 <= TurnsDone(w) <= w.turn <= |j.ticks| && (w.looked ==> w.now == j.ticks[w.turn - 1].now)
    && w.plan == PlanOf(InForce(j, TurnsDone(w)).base, InForce(j, TurnsDone(w)).lease)
    && w.server == InForce(j, TurnsDone(w)).server
    && forall k | 0 <= k < TurnsDone(w) :: !Loses(j, k)
  }

  /** The law of one lease epoch: renewals paced through [T1, T2), rebinds only after a renewal and paced through
      [T2, expiry). */
  predicate EpochLaw(w: Watch)
    requires w.Live?
  {
    && Paced(w.renews, w.plan.t1, w.plan.t2)
    && Paced(w.rebinds, w.plan.t2, w.plan.end)
    && (w.rebinds != [] ==> w.renews != [])
    && (w.rebinds != [] ==> w.due == NextDue(w.rebinds[|w.rebinds| - 1], w.plan.end))
    && (w.rebinds == [] && w.renews != [] ==> w.due == NextDue(w.renews[|w.renews| - 1], w.plan.t2))
  }

  lemma PacedSnoc(xs: seq<int>, x: int, lo: int, hi: int)
    requires Paced(xs, lo, hi) && x >= lo
    requires xs != [] ==> NextDue(xs[|xs| - 1], hi) <= x < hi
    ensures Paced(xs + [x], lo, hi)
  {}

  /** One event keeps the epoch on the lease in force. */
  lemma FollowTerms(w: Watch, e: Event, j: Job)
    requires w.Live? && OnTerms(w, j)
    requires Follow(w, e, j).Some? && Follow(w, e, j).value.Live?
    ensures OnTerms(Follow(w, e, j).value, j)
  {
    if e.Heard? {
      var t := j.ticks[w.turn - 1];
      assert InForce(j, w.turn) == if t.reply.Some? && t.reply.value.msgType == 5 && t.reply.value.lease != 0
        then Terms(t.later, t.reply.value.lease, if t.reply.value.server == 0 then w.server else t.reply.value.server)
        else InForce(j, w.turn - 1);
      assert !Loses(j, w.turn - 1);
    }
  }

  lemma RenewLaw(w: Watch)
    requires MayRenew(w) && EpochLaw(w)
    ensures EpochLaw(w.(renews := w.renews + [w.now], resent := w.renews != [], due := NextDue(w.now, w.plan.t2)))
  {
    PacedSnoc(w.renews, w.now, w.plan.t1, w.plan.t2);
  }

  lemma RebindLaw(w: Watch)
    requires MayRebind(w) && EpochLaw(w)
    ensures EpochLaw(w.(rebinds := w.rebinds + [w.now], resent := w.rebinds != [], due := NextDue(w.now, w.plan.end)))
  {
    PacedSnoc(w.rebinds, w.now, w.plan.t2, w.plan.end);
  }

  lemma FollowLaw(w: Watch, e: Event, j: Job)
    requires w.Live? && EpochLaw(w)
    requires Follow(w, e, j).Some? && Follow(w, e, j).value.Live?
    ensures EpochLaw(Follow(w, e, j).value)
  {
    match e
    case Renew(_, _, _) => RenewLaw(w);
    case Rebind(_, _) => RebindLaw(w);
    case Heard => ReplyLaw(w, j.ticks[w.turn - 1]);
    case Look =>
    case Expired =>
  }

  lemma ReplyLaw(w: Watch, t: Tick)
    requires w.Live? && EpochLaw(w) && AfterReply(w, t).Live?
    ensures EpochLaw(AfterReply(w, t))
  {}

  /** After every watched trace the epoch runs on the lease in force and obeys the law. */
  lemma {:induction false} TraceLaw(trace: seq<Event>, j: Job)
    requires Watched(trace, j).Some? && Watched(trace, j).value.Live?
    ensures EpochLaw(Watched(trace, j).value)
    ensures OnTerms(Watched(trace, j).value, j)
  {
    if trace != [] {
      var n := |trace| - 1;
      TraceLaw(trace[..n], j);
      FollowLaw(Watched(trace[..n], j).value, trace[n], j);
      FollowTerms(Watched(trace[..n], j).value, trace[n], j);
    }
  }

  /** Every request carries the cycle's transaction id and the committed address. */
  lemma {:induction false} RequestsCarry(trace: seq<Event>, j: Job, k: nat)
    requires Watched(trace, j).Some? && k < |trace|
    ensures trace[k].Renew? ==> trace[k].xid == j.xid && trace[k].ciaddr == j.client
    ensures trace[k].Rebind? ==> trace[k].xid == j.xid && trace[k].ciaddr == j.client
  {
    if k < |trace| - 1 {
      RequestsCarry(trace[..|trace| - 1], j, k);
    }
  }

  // ---------- Two renewals in one turn ----------

  /** After the renewal that enters RENEWING, another one is owed in the same turn exactly when T2 is one nanosecond away:
      half of that is nothing. */
  lemma EntryOwesAnother(w: Watch)
    requires MayRenew(w) && w.renews == []
    ensures MayRenew(w.(renews := w.renews + [w.now], resent := w.renews != [], due := NextDue(w.now, w.plan.t2))) <==> w.plan.t2 - w.now == 1
  {}

  /** The watch before an event of a trace, which admits the event. */
  lemma WatchedAt(trace: seq<Event>, i: nat, j: Job) returns (w: Watch)
    requires Watched(trace, j).Some? && i < |trace|
    ensures Watched(trace[..i], j) == Some(w) && Follow(w, trace[i], j).Some? && Watched(trace[..i + 1], j) == Follow(w, trace[i], j)
  {
    WatchedPrefix(trace, i, j);
    WatchedPrefix(trace, i + 1, j);
    w := Watched(trace[..i], j).value;
    assert trace[..i + 1] == trace[..i] + [trace[i]];
    WatchedSnoc(trace[..i], trace[i], w, j);
  }

  /** What follows a renewal in the trace: a second one exactly after the first of an epoch that goes out one nanosecond
      before T2. */
  lemma TwoRenewalsInOneTurn(trace: seq<Event>, i: nat, j: Job)
    requires Watched(trace, j).Some? && i + 1 < |trace| && trace[i].Renew?
    ensures Watched(trace[..i], j).Some? && Watched(trace[..i], j).value.Live?
    ensures var w := Watched(trace[..i], j).value; trace[i + 1].Renew? <==> w.renews == [] && w.plan.t2 - w.now == 1
  {
    var w := WatchedAt(trace, i, j);
    var w' := WatchedAt(trace, i + 1, j);
    if w.renews == [] {
      EntryOwesAnother(w);
      if MayRenew(w') {
        OnlyOneEvent(w', trace[i + 1], Renew(j.xid, j.client, w'.server), j);
      }
    }
  }

  // ---------- How many renewals one epoch can send ----------

  function Pow2(n: nat): nat {
    if n == 0 then 1 else 2 * Pow2(n - 1)
  }

  /** Each instant leaves at most half (rounded up) of what its predecessor left, so n of them need 2^(n-2) to start from. */
  lemma {:induction false} HalvingBound(xs: seq<int>, lo: int, hi: int, k: nat)
    requires Paced(xs, lo, hi) && k + 2 <= |xs|
    requires xs[|xs| - 2] < xs[|xs| - 1]
    ensures hi - xs[k] > Pow2(|xs| - 2 - k)
    decreases |xs| - k
  {
    if k + 2 < |xs| {
      HalvingBound(xs, lo, hi, k + 1);
      assert xs[k + 1] - xs[k] >= Half(hi - xs[k]);
    } else {
      assert xs[k + 1] < hi;
    }
  }

  predicate StrictClock(j: Job) {
    forall i, k | 0 <= i < k < |j.ticks| :: j.ticks[i].now < j.ticks[k].now
  }

  /** Under a strictly increasing clock only the entry and the first retransmission can fall into one turn. */
  predicate Spread(w: Watch, j: Job)
    requires w.Live?
  {
    && (w.renews != [] ==> 0 < w.turn <= |j.ticks| && w.now == j.ticks[w.turn - 1].now && w.renews[|w.renews| - 1] <= w.now)
    && (w.looked ==> 0 < w.turn <= |j.ticks| && w.now == j.ticks[w.turn - 1].now)
    && (w.looked && |w.renews| >= 2 && !w.resent && w.rebinds == [] ==> w.renews[|w.renews| - 1] < w.now)
    && (|w.renews| >= 3 ==> w.renews[|w.renews| - 2] < w.renews[|w.renews| - 1])
  }

  lemma FollowSpread(w: Watch, e: Event, j: Job)
    requires StrictClock(j) && w.Live? && Spread(w, j)
    requires Follow(w, e, j).Some? && Follow(w, e, j).value.Live?
    ensures Spread(Follow(w, e, j).value, j)
  {}

  lemma {:induction false} TraceSpread(trace: seq<Event>, j: Job)
    requires StrictClock(j) && Watched(trace, j).Some? && Watched(trace, j).value.Live?
    ensures Spread(Watched(trace, j).value, j)
  {
    if trace != [] {
      var n := |trace| - 1;
      TraceSpread(trace[..n], j);
      FollowSpread(Watched(trace[..n], j).value, trace[n], j);
    }
  }

  /** T1 and T2 are whole seconds apart. */
  lemma PlanInSeconds(base: int, lease: uint32)
    ensures PlanOf(base, lease).t2 > PlanOf(base, lease).t1 ==> PlanOf(base, lease).t2 - PlanOf(base, lease).t1 >= SECOND
  {}

  /** One epoch sends n >= 2 renewals only when T2 - T1 exceeds 2^(n-2): at most 1 + ceil(log2(T2 - T1)) of them,
      and a single one when T2 does not lie after T1. */
  lemma RenewalCount(trace: seq<Event>, j: Job)
    requires StrictClock(j) && Watched(trace, j).Some? && Watched(trace, j).value.Live?
    ensures var w := Watched(trace, j).value;
            |w.renews| >= 2 ==> w.plan.t2 - w.plan.t1 > Pow2(|w.renews| - 2)
  {
    var w := Watched(trace, j).value;
    TraceLaw(trace, j);
    TraceSpread(trace, j);
    if |w.renews| == 2 {
      PlanInSeconds(InForce(j, TurnsDone(w)).base, InForce(j, TurnsDone(w)).lease);
    } else if |w.renews| > 2 {
      HalvingBound(w.renews, w.plan.t1, w.plan.t2, 0);
    }
  }

  /** The watch during a turn at or past the expiry, or after it. */
  predicate LastTurn(w: Watch) {
    w.Over? || (w.looked && w.now >= w.plan.end)
  }

  lemma FollowLastTurn(w: Watch, e: Event, j: Job)
    requires LastTurn(w) && Follow(w, e, j).Some?
    ensures e != Look && e != Heard && LastTurn(Follow(w, e, j).value)
  {}

  /** The watches before and after every event of a trace. */
  predicate Steps(trace: seq<Event>, ws: seq<Watch>, j: Job) {
    |ws| == |trace| + 1 && forall k | 0 <= k < |trace| :: Follow(ws[k], trace[k], j) == Some(ws[k + 1])
  }

  lemma WatchesOf(trace: seq<Event>, j: Job) returns (ws: seq<Watch>)
    requires Watched(trace, j).Some?
    ensures Steps(trace, ws, j) && forall k | 0 <= k <= |trace| :: Watched(trace[..k], j) == Some(ws[k])
  {
    forall k | 0 <= k <= |trace| ensures Watched(trace[..k], j).Some? {
      WatchedPrefix(trace, k, j);
    }
    ws := seq(|trace| + 1, k requires 0 <= k <= |trace| => Watched(trace[..k], j).value);
    forall k | 0 <= k < |trace| ensures Follow(ws[k], trace[k], j) == Some(ws[k + 1]) {
      var w := WatchedAt(trace, k, j);
    }
  }

  lemma {:induction false} LastTurnLasts(trace: seq<Event>, ws: seq<Watch>, i: nat, n: nat, j: Job)
    requires Steps(trace, ws, j) && i < n <= |trace| && LastTurn(ws[i + 1])
    ensures LastTurn(ws[n])
    ensures i < n - 1 ==> trace[n - 1] != Look && trace[n - 1] != Heard
  {
    if i < n - 1 {
      LastTurnLasts(trace, ws, i, n - 1, j);
      var k := n - 1;
      assert Follow(ws[k], trace[k], j) == Some(ws[k + 1]);
      FollowLastTurn(ws[k], trace[k], j);
    }
  }

  /** The first turn at or past the expiry is the last: it never listens again, and all it can still do is send and
      return to INIT. */
  lemma TurnPastExpiryIsLast(trace: seq<Event>, i: nat, j: Job)
    requires Watched(trace, j).Some? && i < |trace| && trace[i] == Look
    requires Watched(trace[..i + 1], j).Some?
    requires var w := Watched(trace[..i + 1], j).value; w.Live? && w.now >= w.plan.end
    ensures forall k | i < k < |trace| :: trace[k] != Look && trace[k] != Heard
    ensures var w := Watched(trace, j).value; w.Over? || (w.looked && w.now >= w.plan.end)
  {
    var ws := WatchesOf(trace, j);
    assert trace[..|trace|] == trace;
    assert LastTurn(ws[i + 1]) by {
      var w := WatchedAt(trace, i, j);
    }
    forall k | i < k < |trace| ensures trace[k] != Look && trace[k] != Heard {
      LastTurnLasts(trace, ws, i, k + 1, j);
    }
    LastTurnLasts(trace, ws, i, |trace|, j);
  }

  // ---------- Requests and the lease they are for ----------

  /** The turns begun in a trace. */
  function Looks(trace: seq<Event>): nat {
    if trace == [] then 0 else Looks(trace[..|trace| - 1]) + if trace[|trace| - 1].Look? then 1 else 0
  }

  lemma FollowTurn(w: Watch, e: Event, j: Job)
    requires w.Live? && Follow(w, e, j).Some? && Follow(w, e, j).value.Live?
    ensures Follow(w, e, j).value.turn == w.turn + if e.Look? then 1 else 0
  {}

  lemma {:induction false} TurnsAreLooks(trace: seq<Event>, j: Job)
    requires Watched(trace, j).Some? && Watched(trace, j).value.Live?
    ensures Watched(trace, j).value.turn == Looks(trace)
  {
    if trace != [] {
      var n := |trace| - 1;
      TurnsAreLooks(trace[..n], j);
      FollowTurn(Watched(trace[..n], j).value, trace[n], j);
    }
  }

  /** What the watch before an event of a turn knows: the turn, its instant and the lease in force. */
  lemma AtTurn(trace: seq<Event>, i: nat, j: Job) returns (w: Watch)
    requires Watched(trace, j).Some? && i < |trace| && !trace[i].Look?
    ensures Watched(trace[..i], j) == Some(w) && w.Live? && w.looked && Follow(w, trace[i], j).Some?
    ensures OnTerms(w, j) && EpochLaw(w) && w.turn == Looks(trace[..i]) > 0
  {
    w := WatchedAt(trace, i, j);
    TraceLaw(trace[..i], j);
    TurnsAreLooks(trace[..i], j);
  }

  /** A renewal goes to the server that granted the lease, no sooner than half of it; a rebind no sooner than seven eighths
      of it, as 32 bits have them. */
  predicate FitsLease(e: Event, t: Terms, now: int) {
    && (e.Renew? ==> e.dst == t.server && now - t.base >= t.lease / 2 * 1_000_000_000)
    && (e.Rebind? ==> now - t.base >= t.lease * 7 % 0x1_0000_0000 / 8 * 1_000_000_000)
  }

  lemma FollowFits(w: Watch, e: Event, j: Job, t: Terms)
    requires w.Live? && Follow(w, e, j).Some? && w.plan == PlanOf(t.base, t.lease) && w.server == t.server
    ensures FitsLease(e, t, w.now)
  {}

  /** Every request fits the lease in force in its turn. */
  lemma RequestsFitTheLease(trace: seq<Event>, i: nat, j: Job)
    requires Watched(trace, j).Some? && i < |trace| && !trace[i].Look?
    ensures 0 < Looks(trace[..i]) <= |j.ticks|
    ensures var n := Looks(trace[..i]); FitsLease(trace[i], InForce(j, n - 1), j.ticks[n - 1].now)
  {
    var w := AtTurn(trace, i, j);
    FollowFits(w, trace[i], j, InForce(j, w.turn - 1));
  }

  /** A watch of a clock that does not run backwards: what was sent was sent by now, and a retransmission of this turn now. */
  predicate Punctual(w: Watch, j: Job)
    requires w.Live?
  {
    && (w.turn < |j.ticks| ==> w.now <= j.ticks[w.turn].now)
    && (0 < w.turn <= |j.ticks| ==> w.now <= j.ticks[w.turn - 1].later)
    && (w.renews != [] ==> w.renews[|w.renews| - 1] <= w.now)
    && (w.rebinds != [] ==> w.rebinds[|w.rebinds| - 1] <= w.now)
    && (w.looked && w.resent ==> if w.rebinds != [] then w.rebinds[|w.rebinds| - 1] == w.now
                                 else w.renews != [] && w.renews[|w.renews| - 1] == w.now)
  }

  lemma FollowPunctual(w: Watch, e: Event, j: Job)
    requires Monotone(j) && w.Live? && Punctual(w, j) && Follow(w, e, j).Some? && Follow(w, e, j).value.Live?
    ensures Punctual(Follow(w, e, j).value, j)
  {}

  lemma {:induction false} TracePunctual(trace: seq<Event>, j: Job)
    requires Monotone(j) && Watched(trace, j).Some? && Watched(trace, j).value.Live?
    ensures Punctual(Watched(trace, j).value, j)
  {
    if trace != [] {
      var n := |trace| - 1;
      TracePunctual(trace[..n], j);
      FollowPunctual(Watched(trace[..n], j).value, trace[n], j);
    }
  }

  /** The last of these was sent now, or less than half of what was left to `hi` then has gone by since. */
  predicate NoneDue(xs: seq<int>, now: int, hi: int)
    requires xs != []
  {
    var last := xs[|xs| - 1];
    last == now || 2 * (now - last + 1) <= hi - last
  }

  /** At the end of a turn at `now` under a lease: a renewal has gone out if T1 has come and a rebind if T2 has come, and in
      either phase the next retransmission is not due yet. */
  predicate OnTime(w: Watch, t: Terms, now: int)
    requires w.Live?
  {
    var t1, t2 := t.base + t.lease / 2 * 1_000_000_000, t.base + t.lease * 7 % 0x1_0000_0000 / 8 * 1_000_000_000;
    var end := t.base + t.lease * 1_000_000_000;
    && (now >= t1 ==> w.renews != [])
    && (now >= t1 && now >= t2 ==> w.rebinds != [])
    && (w.rebinds == [] && w.renews != [] && now < t2 ==> NoneDue(w.renews, now, t2))
    && (w.rebinds != [] && now < end ==> NoneDue(w.rebinds, now, end))
  }

  lemma TurnEnds(w: Watch, t: Terms, j: Job)
    requires TurnDone(w) && EpochLaw(w) && Punctual(w, j) && w.plan == PlanOf(t.base, t.lease)
    ensures OnTime(w, t, w.now)
  {}

  /** No request is late: each goes out in the first turn at or after its instant. */
  lemma NothingIsLate(trace: seq<Event>, i: nat, j: Job)
    requires Monotone(j) && Watched(trace, j).Some? && i < |trace| && (trace[i] == Heard || trace[i] == Expired)
    ensures Watched(trace[..i], j).Some? && Watched(trace[..i], j).value.Live? && 0 < Looks(trace[..i]) <= |j.ticks|
    ensures var n := Looks(trace[..i]); OnTime(Watched(trace[..i], j).value, InForce(j, n - 1), j.ticks[n - 1].now)
  {
    var w := AtTurn(trace, i, j);
    TracePunctual(trace[..i], j);
    TurnEnds(w, InForce(j, w.turn - 1), j);
  }
}
