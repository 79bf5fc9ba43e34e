/**
 The life of the DHCP client: the outer restart loop, the retry loop, the conflict probe, the phase machine and
 `Abort`, as a class over its lease and its recorded router. What it does is logged, and a watcher says which logs
 are admissible; the laws of whole runs are proved of every admissible log.

 The world is a script: one `Cycle` per turn of the outer loop. A script that ends is a stop request seen there, and
 a cycle whose attempts end early is one seen at the top of the retry loop.
 */
module DhcpLifecycle {
  import opened Wrappers
  import Lease = DhcpLease

  type uint32 = Lease.uint32
  type uint8 = x: int | 0 <= x < 256

  /** How often to send DISCOVER, and whether to probe the granted address before using it. */
  datatype Params = Params(retryCount: uint8, probes: bool)

  datatype Ack = Ack(yiaddr: uint32, server: uint32, lease: uint32, router: uint32)

  // ---------- What is logged ----------

  datatype Event =
    | Start(params: Params)
    | Open(xid: uint32)
    | Discover(xid: uint32)
    | Offer(addr: uint32, server: uint32)
    | Request(xid: uint32, addr: uint32, server: uint32)
    | Granted(ack: Ack)
    | Commit(addr: uint32)
    | Route(router: uint32, installed: bool)
    | Probe(addr: uint32)
    | Deaf
    | Conflict
    | Decline(xid: uint32, addr: uint32, server: uint32)
    | Announce(addr: uint32)
    | Hold(job: Lease.Job, sent: seq<Lease.Event>)
    | Stop
    | Close
    | Clear
    | Remove(router: uint32)

  // ---------- What may follow what ----------

  datatype Step =
    | Selecting
    | Offered(addr: uint32, server: uint32)
    | Requested
    | Acked(ack: Ack)
    | Bound(ack: Ack, routed: bool)
    | Probing(ack: Ack, armed: bool)
    | Conflicted(ack: Ack)
    | Ready(ack: Ack)
    | Done

  /** A cycle under way holds the socket, its transaction id and the number of DISCOVERs it has sent. */
  datatype Stage = Idle | Live(xid: uint32, sent: nat, at: Step)

  /** `owed` is a router taken out of the record and not yet removed from the host; `cycles` counts the cycles begun since
      the client was started. */
  datatype View = View(params: Params, stopped: bool, stage: Stage, lease: uint32, router: uint32, owed: uint32, cycles: nat)

  const FRESH := View(Params(0, false), true, Idle, 0, 0, 0, 0)

  function Follow(v: View, e: Event): Option<View> {
    match v.stage
    case Idle => FollowIdle(v, e)
    case Live(xid, sent, at) => FollowLive(v, xid, sent, at, e)
  }

  /** Between cycles nothing is sent; a new cycle needs a running client that holds no lease and owes no route. */
  function FollowIdle(v: View, e: Event): Option<View> {
    match e
    case Start(params) =>
      if v.stopped && v.lease == 0 && v.router == 0 && v.owed == 0 then Some(v.(params := params, stopped := false, cycles := 0)) else None
    case Open(xid) =>
      if !v.stopped && v.lease == 0 && v.router == 0 && v.owed == 0 then Some(v.(stage := Live(xid, 0, Selecting), cycles := v.cycles + 1)) else None
    case Stop => Some(v.(stopped := true))
    case Clear => if v.owed == 0 then Some(v.(lease := 0, router := 0, owed := v.router)) else None
    case Remove(r) => if r != 0 && r == v.owed then Some(v.(owed := 0)) else None
    case _ => None
  }

  function FollowLive(v: View, xid: uint32, sent: nat, at: Step, e: Event): Option<View> {
    match e
    case Discover(x) =>
      if x == xid && (at.Selecting? || at.Requested?) && !v.stopped && sent < v.params.retryCount
      then Some(v.(stage := Live(xid, sent + 1, Selecting))) else None
    case Offer(addr, server) =>
      if at.Selecting? && sent > 0 then Some(v.(stage := Live(xid, sent, Offered(addr, server)))) else None
    case Request(x, addr, server) =>
      if x == xid && !v.stopped && at == Offered(addr, server) then Some(v.(stage := Live(xid, sent, Requested))) else None
    case Granted(ack) =>
      if at.Requested? then Some(v.(stage := Live(xid, sent, Acked(ack)))) else None
    case Commit(addr) =>
      if at.Acked? && !v.stopped && addr == at.ack.yiaddr
      then Some(v.(stage := Live(xid, sent, Bound(at.ack, false)), lease := addr)) else None
    case Route(r, installed) =>
      if at.Bound? && !at.routed && r == at.ack.router && r != 0
      then Some(v.(stage := Live(xid, sent, Bound(at.ack, true)), router := if installed then r else v.router)) else None
    case Probe(addr) =>
      if Settled(at) && at.Bound? && v.params.probes && !v.stopped && addr == at.ack.yiaddr
      then Some(v.(stage := Live(xid, sent, Probing(at.ack, true)))) else None
    case Deaf =>
      if Settled(at) && at.Bound? && v.params.probes && !v.stopped
      then Some(v.(stage := Live(xid, sent, Probing(at.ack, false)))) else None
    case Conflict =>
      if at.Probing? && at.armed then Some(v.(stage := Live(xid, sent, Conflicted(at.ack)))) else None
    case Decline(x, addr, server) =>
      if x == xid && at.Conflicted? && addr == at.ack.yiaddr && server == at.ack.server
      then Some(v.(stage := Live(xid, sent, Done))) else None
    case Announce(addr) =>
      if at.Probing? && addr == at.ack.yiaddr then Some(v.(stage := Live(xid, sent, Ready(at.ack)))) else None
    case Hold(job, tr) =>
      if MayHold(v, at) && job.xid == xid && job.client == v.lease && job.server == at.ack.server && job.lease == at.ack.lease
         && Lease.Watched(tr, job).Some?
      then Some(v.(stage := Live(xid, sent, Done))) else None
    case Stop => if at.Probing? || at.Conflicted? then None else Some(v.(stopped := true))
    case Close => if MayClose(v, sent, at) then Some(v.(stage := Idle)) else None
    case _ => None
  }

  /** A granted router has been offered to the host. */
  predicate Settled(at: Step) {
    at.Bound? ==> at.routed || at.ack.router == 0
  }

  /** The lease is held once announced, or at once when probing is off or the client is being stopped. */
  predicate MayHold(v: View, at: Step) {
    at.Ready? || (at.Bound? && Settled(at) && (v.params.probes ==> v.stopped))
  }

  /** A socket is closed when the cycle is over: declined or held to the end, out of attempts, or stopped. */
  predicate MayClose(v: View, sent: nat, at: Step) {
    match at
    case Done => true
    case Selecting => v.stopped || sent == v.params.retryCount
    case Requested => v.stopped || sent == v.params.retryCount
    case Offered(_, _) => v.stopped
    case Acked(_) => v.stopped
    case _ => false
  }

  function Seen(log: seq<Event>): Option<View> {
    if log == [] then Some(FRESH)
    else
      match Seen(log[..|log| - 1])
      case None => None
      case Some(v) => Follow(v, log[|log| - 1])
  }

  lemma SeenSnoc(log: seq<Event>, v: View, e: Event)
    requires Seen(log) == Some(v)
    ensures Seen(log + [e]) == Follow(v, e)
  {
    assert (log + [e])[..|log|] == log;
  }

  // ---------- The world ----------

  /** One turn of the retry loop: the OFFER or none, a stop seen after it, the ACK or none, a stop seen after it, and
      whether the host takes the route. */
  datatype Attempt = Attempt(offer: Option<(uint32, uint32)>, stopAfterOffer: bool, ack: Option<Ack>, stopAfterAck: bool, installs: bool)

  /** The turn ends bound. */
  predicate Succeeds(a: Attempt) {
    a.offer.Some? && !a.stopAfterOffer && a.ack.Some? && !a.stopAfterAck
  }

  /** The turn ends with nothing, and the loop goes on. */
  predicate GoesOn(a: Attempt) {
    a.offer.None? || (!a.stopAfterOffer && a.ack.None?)
  }

  function RouteLog(ack: Ack, installs: bool): seq<Event> {
    if ack.router != 0 then [Route(ack.router, installs)] else []
  }

  /** What a successful turn does, from its OFFER to the route. */
  function SuccessLog(xid: uint32, a: Attempt): seq<Event>
    requires Succeeds(a)
  {
    [Offer(a.offer.value.0, a.offer.value.1), Request(xid, a.offer.value.0, a.offer.value.1), Granted(a.ack.value), Commit(a.ack.value.yiaddr)]
    + RouteLog(a.ack.value, a.installs)
  }

  /** The first of the attempts allowed that succeeds, none before it having been stopped. */
  predicate FirstSuccess(params: Params, attempts: seq<Attempt>, k: nat) {
    k < params.retryCount && k < |attempts| && Succeeds(attempts[k]) && forall m | 0 <= m < k :: GoesOn(attempts[m])
  }

  lemma OnlyFirst(params: Params, attempts: seq<Attempt>, k: nat)
    requires FirstSuccess(params, attempts, k)
    ensures forall j: nat | FirstSuccess(params, attempts, j) :: j == k
  {}

  lemma NoneIsFirst(params: Params, attempts: seq<Attempt>, n: nat)
    requires n <= |attempts| && forall m | 0 <= m < n :: GoesOn(attempts[m])
    requires n == params.retryCount || n == |attempts| || (!Succeeds(attempts[n]) && !GoesOn(attempts[n]))
    ensures forall k: nat :: !FirstSuccess(params, attempts, k)
  {}

  /** One turn of the outer loop. `stopBeforeProbe` is a stop seen just before probing, `armed` that
      the probe's own socket could be opened. */
  datatype Cycle = Cycle(xid: uint32, opens: bool, attempts: seq<Attempt>, stopBeforeProbe: bool, armed: bool, conflict: bool, start: int, ticks: seq<Lease.Tick>)

  /** Some attempt of the cycle ends bound. */
  ghost predicate Binds(params: Params, c: Cycle) {
    c.opens && exists k: nat :: FirstSuccess(params, c.attempts, k)
  }

  /** The cycle binds an address and finds it taken. */
  ghost predicate Declines(params: Params, c: Cycle) {
    Binds(params, c) && params.probes && !c.stopBeforeProbe && c.armed && c.conflict
  }

  /** The lease as it is held: on the ACK's terms from the cycle's own clock, with no turn at all when stopping. */
  function JobOf(c: Cycle, ack: Ack, stopping: bool): Lease.Job {
    Lease.Job(c.xid, ack.yiaddr, ack.server, ack.lease, c.start, if stopping then [] else c.ticks)
  }

  /** A cycle bound to `ack` starts over: the address is found taken, or the lease is lost. */
  predicate Restarts(params: Params, c: Cycle, ack: Ack) {
    if params.probes && !c.stopBeforeProbe && c.armed && c.conflict then true
    else !(params.probes && c.stopBeforeProbe) && Lease.IsLost(JobOf(c, ack, false))
  }

  /** The cycle is followed by another: it binds, and then starts over. */
  ghost predicate GoesRound(params: Params, c: Cycle) {
    c.opens && exists k: nat :: FirstSuccess(params, c.attempts, k) && Restarts(params, c, c.attempts[k].ack.value)
  }

  lemma BoundGoesRound(params: Params, c: Cycle, ack: Ack)
    requires c.opens && exists k: nat :: FirstSuccess(params, c.attempts, k)
    requires forall k: nat | FirstSuccess(params, c.attempts, k) :: c.attempts[k].ack == Some(ack)
    ensures GoesRound(params, c) <==> Restarts(params, c, ack)
  {}

  predicate ClockRuns(c: Cycle) {
    Lease.Monotone(Lease.Job(0, 0, 0, 0, c.start, c.ticks))
  }

  /** Only a cycle that binds is followed by another, and one that declines always is. */
  lemma GoesRoundWhenBound(params: Params, c: Cycle)
    ensures GoesRound(params, c) ==> Binds(params, c)
    ensures Declines(params, c) ==> GoesRound(params, c)
  {
    if Declines(params, c) {
      var k: nat :| FirstSuccess(params, c.attempts, k);
      assert Restarts(params, c, c.attempts[k].ack.value);
    }
  }

  /** The cycle at `k` is reached and opens: every one before it goes round. */
  ghost predicate Begun(params: Params, script: seq<Cycle>, k: nat)
    requires k < |script|
  {
    script[k].opens && forall m | 0 <= m < k :: GoesRound(params, script[m])
  }

  // ---------- The client ----------

  class Dhcpv4Client {
    var committedLease: uint32
    var installedRouter: uint32
    ghost var log: seq<Event>
    ghost var view: View

    /** The log is admissible and the fields are what it says they are. */
    ghost predicate Tracked()
      reads this
    {
      Seen(log) == Some(view) && view.lease == committedLease && view.router == installedRouter
    }

    ghost method Log(e: Event)
      requires Seen(log) == Some(view) && Follow(view, e).Some?
      modifies `log, `view
      ensures Seen(log) == Some(view) && log == old(log) + [e] && Some(view) == Follow(old(view), e)
    {
      SeenSnoc(log, view, e);
      log, view := log + [e], Follow(view, e).value;
    }

    constructor ()
      ensures Tracked() && view == FRESH && log == []
    {
      committedLease, installedRouter := 0, 0;
      log, view := [], FRESH;
    }

    /** Forget the lease and hand a recorded router back to the host. */
    method Release()
      requires Tracked() && view.stage == Idle && view.owed == 0
      modifies this
      ensures Tracked() && view == old(view).(lease := 0, router := 0) && old(log) <= log
    {
      var toRemove := installedRouter;
      committedLease, installedRouter := 0, 0;
      Log(Clear);
      if toRemove != 0 {
        Log(Remove(toRemove));
      }
    }

    /** Commit the granted lease and offer its router to the host; the router is recorded only if the host takes it. */
    method Bind(ack: Ack, installs: bool)
      requires Tracked() && view.stage.Live? && view.stage.at == Acked(ack) && !view.stopped
      modifies this
      ensures Tracked() && view.stage.Live? && view.stage.at.Bound? && view.stage.at.ack == ack && Settled(view.stage.at)
      ensures view == old(view).(stage := old(view).stage.(at := view.stage.at), lease := ack.yiaddr, router := view.router)
      ensures view.router == if ack.router != 0 && installs then ack.router else old(view).router
      ensures log == old(log) + [Commit(ack.yiaddr)] + RouteLog(ack, installs)
    {
      committedLease := ack.yiaddr;
      Log(Commit(ack.yiaddr));
      if ack.router != 0 {
        if installs {
          installedRouter := ack.router;
        }
        Log(Route(ack.router, installs));
      }
    }

    /** What one turn of the retry loop may leave behind, seen from before it. */
    ghost predicate Tried(v: View, ack: Option<Ack>, stop: bool)
      requires v.stage.Live?
      reads this
    {
      && Tracked() && view.stage.Live?
      && view == v.(stopped := view.stopped, stage := v.stage.(at := view.stage.at), lease := view.lease, router := view.router)
      && (ack.Some? ==> !stop && !view.stopped && view.stage.at.Bound? && view.stage.at.ack == ack.value
                        && Settled(view.stage.at) && view.lease == ack.value.yiaddr)
      && (ack.None? ==> view.lease == v.lease && view.router == v.router && view.stopped == stop)
      && (ack.None? && !stop ==> view.stage.at.Selecting? || view.stage.at.Requested?)
      && (ack.None? && stop ==> view.stage.at.Selecting? || view.stage.at.Requested? || view.stage.at.Offered? || view.stage.at.Acked?)
    }

    /** The second half of a turn, after its REQUEST. */
    method AwaitAck(a: Attempt) returns (ack: Option<Ack>, stop: bool)
      requires Tracked() && !view.stopped && view.stage.Live? && view.stage.at == Requested
      modifies this
      ensures Tried(old(view), ack, stop)
      ensures if a.ack.Some? && !a.stopAfterAck then ack == a.ack else ack == None && (stop <==> a.ack.Some?)
      ensures ack.Some? ==> log == old(log) + [Granted(ack.value), Commit(ack.value.yiaddr)] + RouteLog(ack.value, a.installs)
    {
      if a.ack.None? { return None, false; }
      Log(Granted(a.ack.value));
      if a.stopAfterAck {
        Log(Stop);
        return None, true;
      }
      Bind(a.ack.value, a.installs);
      return a.ack, false;
    }

    /** The turn from its REQUEST on. */
    method RequestLease(xid: uint32, addr: uint32, server: uint32, a: Attempt) returns (ack: Option<Ack>, stop: bool)
      requires Tracked() && !view.stopped
      requires view.stage.Live? && view.stage.xid == xid && view.stage.at == Offered(addr, server)
      modifies this
      ensures Tried(old(view), ack, stop)
      ensures if a.ack.Some? && !a.stopAfterAck then ack == a.ack else ack == None && (stop <==> a.ack.Some?)
      ensures ack.Some? ==> log == old(log) + [Request(xid, addr, server)] + [Granted(ack.value), Commit(ack.value.yiaddr)] + RouteLog(ack.value, a.installs)
    {
      Log(Request(xid, addr, server));
      assert view == old(view).(stage := old(view).stage.(at := Requested));
      ack, stop := AwaitAck(a);
    }

    /** A turn after its DISCOVER. */
    method AwaitOffer(xid: uint32, a: Attempt) returns (ack: Option<Ack>, stop: bool)
      requires Tracked() && !view.stopped
      requires view.stage.Live? && view.stage.xid == xid && view.stage.at == Selecting && view.stage.sent > 0
      modifies this
      ensures Tried(old(view), ack, stop)
      ensures if Succeeds(a) then ack == a.ack else ack == None && (stop <==> !GoesOn(a))
      ensures Succeeds(a) ==> log == old(log) + SuccessLog(xid, a)
    {
      if a.offer.None? { return None, false; }
      var (addr, server) := a.offer.value;
      Log(Offer(addr, server));
      if a.stopAfterOffer {
        Log(Stop);
        return None, true;
      }
      ack, stop := RequestLease(xid, addr, server, a);
    }

    /** One turn of the retry loop: the ACK it ends bound to, or a stop seen on the way. */
    method TryOnce(xid: uint32, a: Attempt) returns (ack: Option<Ack>, stop: bool)
      requires Tracked() && !view.stopped && view.stage.Live? && view.stage.xid == xid
      requires (view.stage.at.Selecting? || view.stage.at.Requested?) && view.stage.sent < view.params.retryCount
      modifies this
      ensures Tried(old(view).(stage := Live(xid, old(view).stage.sent + 1, Selecting)), ack, stop)
      ensures if Succeeds(a) then ack == a.ack else ack == None && (stop <==> !GoesOn(a))
      ensures Succeeds(a) ==> log == old(log) + [Discover(xid)] + SuccessLog(xid, a)
    {
      Log(Discover(xid));
      ack, stop := AwaitOffer(xid, a);
    }

    /** What the retry loop leaves behind, seen from before it: bound to an ACK, or with nothing and a socket to close. */
    ghost predicate Selected(v: View, xid: uint32, ack: Option<Ack>)
      reads this
    {
      && Tracked() && view.stage.Live? && view.stage.xid == xid
      && view == v.(stopped := view.stopped, stage := view.stage, lease := view.lease, router := view.router)
      && (ack.Some? ==> !view.stopped && view.stage.at.Bound? && view.stage.at.ack == ack.value && Settled(view.stage.at)
                        && view.lease == ack.value.yiaddr)
      && (ack.None? ==> view.lease == v.lease && view.router == v.router && MayClose(view, view.stage.sent, view.stage.at))
    }

    /** The retry loop: DISCOVER until an ACK, a stop, or the last attempt. */
    method Select(params: Params, xid: uint32, attempts: seq<Attempt>) returns (ack: Option<Ack>)
      requires Tracked() && !view.stopped && view.stage == Live(xid, 0, Selecting) && view.params == params
      modifies this
      ensures Selected(old(view), xid, ack)
      ensures ack.Some? <==> exists k: nat :: FirstSuccess(params, attempts, k)
      ensures forall k: nat | FirstSuccess(params, attempts, k) :: ack == attempts[k].ack && view.stage.sent == k + 1
    {
      ghost var v := view;
      var attempt: uint8 := 0;
      ack := None;
      while attempt < params.retryCount
        invariant attempt <= params.retryCount
        invariant Tracked() && view == v.(stage := view.stage)
        invariant view.stage.Live? && view.stage.xid == xid && view.stage.sent == attempt
        invariant view.stage.at.Selecting? || view.stage.at.Requested?
        invariant attempt <= |attempts| && forall m | 0 <= m < attempt :: GoesOn(attempts[m])
      {
        if attempt >= |attempts| {
          NoneIsFirst(params, attempts, attempt);
          Log(Stop);
          return None;
        }
        var stop;
        ack, stop := TryOnce(xid, attempts[attempt]);
        if ack.Some? {
          assert FirstSuccess(params, attempts, attempt);
          OnlyFirst(params, attempts, attempt);
          return;
        }
        if stop {
          NoneIsFirst(params, attempts, attempt);
          return;
        }
        attempt := attempt + 1;
      }
      NoneIsFirst(params, attempts, attempt);
      return None;
    }

    /** Refuse the address: somebody answered the probe for it. */
    method DeclineAddress(xid: uint32, ack: Ack)
      requires Tracked() && view.stage.Live? && view.stage.xid == xid && view.stage.at == Probing(ack, true)
      modifies this
      ensures Tracked() && view == old(view).(stage := old(view).stage.(at := Done))
      ensures log == old(log) + [Conflict, Decline(xid, ack.yiaddr, ack.server)]
    {
      Log(Conflict);
      Log(Decline(xid, ack.yiaddr, ack.server));
    }

    /** Probe the granted address. On a conflict it is declined; otherwise it is announced. */
    method ProbeAddress(xid: uint32, ack: Ack, armed: bool, conflict: bool) returns (declined: bool)
      requires Tracked() && !view.stopped && view.params.probes
      requires view.stage.Live? && view.stage.xid == xid && view.stage.at.Bound? && view.stage.at.ack == ack && Settled(view.stage.at)
      modifies this
      ensures declined <==> armed && conflict
      ensures old(log) <= log
      ensures Tracked() && view == old(view).(stage := old(view).stage.(at := if declined then Done else Ready(ack)))
    {
      if armed {
        Log(Probe(ack.yiaddr));
        if conflict {
          DeclineAddress(xid, ack);
          return true;
        }
      } else {
        Log(Deaf);
      }
      Log(Announce(ack.yiaddr));
      return false;
    }

    /** Log a spell of holding the lease on the bound socket, ended and closed. */
    ghost method LogHold(job: Lease.Job, sent: seq<Lease.Event>)
      requires Tracked() && view.stage.Live? && MayHold(view, view.stage.at)
      requires job.xid == view.stage.xid && job.client == view.lease
      requires job.server == view.stage.at.ack.server && job.lease == view.stage.at.ack.lease
      requires Lease.Watched(sent, job).Some?
      modifies `log, `view
      ensures Tracked() && view == old(view).(stage := Idle) && log == old(log) + [Hold(job, sent), Close]
    {
      Log(Hold(job, sent));
      Log(Close);
    }

    /** Hold the lease until it is lost or the client stopped, and close the socket. The client restarts exactly if the
        lease is lost. */
    method HoldLease(ack: Ack, c: Cycle, stopping: bool) returns (restart: bool)
      requires Tracked() && view.stage.Live? && view.stage.xid == c.xid && view.lease == ack.yiaddr
      requires MayHold(view, view.stage.at) && view.stage.at.ack == ack
      requires ClockRuns(c)
      modifies this
      ensures Tracked() && view == old(view).(stage := Idle, stopped := old(view).stopped || !restart)
      ensures restart <==> !stopping && Lease.IsLost(JobOf(c, ack, false))
      ensures |old(log)| < |log| && log[..|old(log)|] == old(log)
      ensures log[|old(log)|].Hold? && log[|old(log)|].job == JobOf(c, ack, stopping)
    {
      var job := Lease.Job(c.xid, committedLease, ack.server, ack.lease, c.start, if stopping then [] else c.ticks);
      var sent;
      sent, restart := Lease.RunBoundPhaseMachine(job);
      LogHold(job, sent);
      if !restart {
        Log(Stop);
      }
    }

    /** What a bound cycle comes to: probe the address, hold the lease, and give everything up before starting over. */
    method UseLease(params: Params, c: Cycle, ack: Ack) returns (again: bool)
      requires Tracked() && !view.stopped && view.params == params && view.owed == 0 && ClockRuns(c)
      requires view.stage.Live? && view.stage.xid == c.xid && view.lease == ack.yiaddr
      requires view.stage.at.Bound? && view.stage.at.ack == ack && Settled(view.stage.at)
      modifies this
      ensures Tracked() && again == Restarts(params, c, ack)
      ensures again ==> view == old(view).(stage := Idle, lease := 0, router := 0)
      ensures !again ==> view == old(view).(stage := Idle, stopped := true)
      ensures || (again && params.probes && c.armed && c.conflict)
              || exists i | |old(log)| <= i < |log| :: log[i].Hold? && log[i].job == JobOf(c, ack, params.probes && c.stopBeforeProbe)
    {
      if params.probes && !c.stopBeforeProbe {
        var declined := ProbeAddress(c.xid, ack, c.armed, c.conflict);
        if declined {
          Log(Close);
          Release();
          return true;
        }
      } else if params.probes {
        Log(Stop);
      }
      ghost var at := |log|;
      again := HoldLease(ack, c, params.probes && c.stopBeforeProbe);
      ghost var held := log[at];
      if again {
        Release();
      }
      assert log[at] == held;
    }

    /** One turn of the outer loop on an open socket. It goes round again exactly if the cycle binds and its address is
        then declined or its lease lost, and does so with nothing held and nothing owed. */
    method RunCycle(params: Params, c: Cycle) returns (again: bool)
      requires Tracked() && view == FRESH.(params := params, stopped := false, cycles := view.cycles)
      requires c.opens && ClockRuns(c)
      modifies this
      ensures Tracked() && view.cycles == old(view.cycles) + 1
      ensures again <==> GoesRound(params, c)
      ensures again ==> view == FRESH.(params := params, stopped := false, cycles := view.cycles)
      ensures !again ==> view.stage == Idle && view.owed == 0 && view.stopped
    {
      Log(Open(c.xid));
      var ack := Select(params, c.xid, c.attempts);
      if ack.None? {
        Log(Close);
        Log(Stop);
        return false;
      }
      BoundGoesRound(params, c, ack.value);
      again := UseLease(params, c, ack.value);
    }

    /** The worker: restart after every lost or declined lease until stopped, out of attempts, or without a socket. */
    method RunLoop(params: Params, script: seq<Cycle>)
      requires Tracked() && view == FRESH.(params := params, stopped := false)
      requires forall c <- script :: ClockRuns(c)
      modifies this
      ensures Tracked() && view.stage == Idle && view.owed == 0
      ensures view.cycles <= |script| && (view.stopped || (view.cycles < |script| && !script[view.cycles].opens))
      ensures forall k | 0 <= k < |script| :: k < view.cycles <==> Begun(params, script, k)
    {
      var i := 0;
      while i < |script|
        invariant 0 <= i <= |script|
        invariant Tracked() && view == FRESH.(params := params, stopped := false, cycles := i)
        invariant forall k | 0 <= k < i :: GoesRound(params, script[k])
      {
        if !script[i].opens { return; }
        var again := RunCycle(params, script[i]);
        if !again { return; }
        i := i + 1;
      }
      Log(Stop);
    }

    /** Stop the worker and leave nothing behind: no lease, no recorded router, every recorded router handed back, every
        socket closed. */
    method Abort()
      requires Tracked() && view.stage == Idle && view.owed == 0
      modifies this
      ensures Tracked() && view == FRESH.(params := old(view.params), cycles := old(view.cycles))
      ensures committedLease == 0 && installedRouter == 0
      ensures Recorded(log) == Removed(log) && Opens(log) == Closes(log)
    {
      Log(Stop);
      Release();
      Balanced(log);
    }

    method StartClient(params: Params, script: seq<Cycle>)
      requires Tracked() && view.stage == Idle && view.owed == 0
      requires forall c <- script :: ClockRuns(c)
      modifies this
      ensures Tracked() && view.stage == Idle && view.owed == 0
      ensures forall k | 0 <= k < |script| :: k < view.cycles <==> Begun(params, script, k)
    {
      Abort();
      Log(Start(params));
      RunLoop(params, script);
    }
  }

  // ---------- What every admissible log obeys ----------

  function Opens(log: seq<Event>): nat {
    if log == [] then 0 else Opens(log[..|log| - 1]) + if log[|log| - 1].Open? then 1 else 0
  }

  function Closes(log: seq<Event>): nat {
    if log == [] then 0 else Closes(log[..|log| - 1]) + if log[|log| - 1].Close? then 1 else 0
  }

  /** The routers recorded as installed, in order. */
  function Recorded(log: seq<Event>): seq<uint32> {
    if log == [] then []
    else
      var e := log[|log| - 1];
      Recorded(log[..|log| - 1]) + if e.Route? && e.installed then [e.router] else []
  }

  /** The routers handed to removal, in order. */
  function Removed(log: seq<Event>): seq<uint32> {
    if log == [] then []
    else
      var e := log[|log| - 1];
      Removed(log[..|log| - 1]) + if e.Remove? then [e.router] else []
  }

  function Held(r: uint32): seq<uint32> {
    if r == 0 then [] else [r]
  }

  /** A router is on record only in a cycle that is bound, or after it. */
  predicate RouterSound(v: View) {
    && (v.router == 0 || v.owed == 0)
    && (v.stage.Live? ==> v.owed == 0)
    && (v.stage.Live? && (v.stage.at.Selecting? || v.stage.at.Offered? || v.stage.at.Requested? || v.stage.at.Acked?) ==> v.router == 0 && v.lease == 0)
    && (v.stage.Live? && v.stage.at.Bound? && !v.stage.at.routed ==> v.router == 0)
    && (v.stage.Live? && (v.stage.at.Bound? || v.stage.at.Probing? || v.stage.at.Conflicted? || v.stage.at.Ready?) ==> v.lease == v.stage.at.ack.yiaddr)
  }

  lemma FollowSound(v: View, e: Event)
    requires RouterSound(v) && Follow(v, e).Some?
    ensures RouterSound(Follow(v, e).value)
  {}

  /** One event moves a router from the host's record to the owed one, or from there to the removed ones. */
  lemma FollowRoutes(v: View, e: Event, recorded: seq<uint32>, removed: seq<uint32>)
    requires RouterSound(v) && Follow(v, e).Some?
    requires recorded == removed + Held(v.router) + Held(v.owed)
    ensures var v' := Follow(v, e).value;
      recorded + (if e.Route? && e.installed then [e.router] else [])
      == removed + (if e.Remove? then [e.router] else []) + Held(v'.router) + Held(v'.owed)
  {}

  lemma FollowSockets(v: View, e: Event)
    requires Follow(v, e).Some?
    ensures e.Open? <==> v.stage.Idle? && Follow(v, e).value.stage.Live?
    ensures e.Close? <==> v.stage.Live? && Follow(v, e).value.stage.Idle?
  {}

  /** Sockets: one is open exactly while a cycle runs, and each is closed once. Routers: what was recorded is what was
      removed, plus the one still on record or owed. */
  lemma {:induction false} Balanced(log: seq<Event>)
    requires Seen(log).Some?
    ensures var v := Seen(log).value;
      && RouterSound(v)
      && Opens(log) == Closes(log) + (if v.stage.Live? then 1 else 0)
      && Recorded(log) == Removed(log) + Held(v.router) + Held(v.owed)
  {
    if log != [] {
      var was, e := log[..|log| - 1], log[|log| - 1];
      Balanced(was);
      var v := Seen(was).value;
      FollowSound(v, e);
      FollowRoutes(v, e, Recorded(was), Removed(was));
      FollowSockets(v, e);
    }
  }

  // ---------- One cycle ----------

  lemma {:induction false} SeenPrefix(log: seq<Event>, k: nat)
    requires Seen(log).Some? && k <= |log|
    ensures Seen(log[..k]).Some?
  {
    if k == |log| {
      assert log[..k] == log;
    } else {
      SeenPrefix(log[..|log| - 1], k);
      assert log[..|log| - 1][..k] == log[..k];
    }
  }

  /** The view before an event of the log, which admits the event. */
  lemma SeenAt(log: seq<Event>, j: nat) returns (v: View)
    requires Seen(log).Some? && j < |log|
    ensures Seen(log[..j]) == Some(v) && Follow(v, log[j]).Some? && Seen(log[..j + 1]) == Follow(v, log[j])
  {
    SeenPrefix(log, j);
    SeenPrefix(log, j + 1);
    v := Seen(log[..j]).value;
    assert log[..j + 1] == log[..j] + [log[j]];
    SeenSnoc(log[..j], v, log[j]);
  }

  /** The cycle opened at `i` is the latest one of the log. */
  predicate Latest(log: seq<Event>, i: nat) {
    i < |log| && log[i].Open? && forall k | i < k < |log| :: !log[k].Open?
  }

  function Discovers(log: seq<Event>): nat {
    if log == [] then 0 else Discovers(log[..|log| - 1]) + if log[|log| - 1].Discover? then 1 else 0
  }

  predicate HasAck(at: Step) {
    at.Acked? || at.Bound? || at.Probing? || at.Conflicted? || at.Ready?
  }

  /** What the view remembers of the cycle opened at `i` under parameters `p`. */
  ghost predicate Remembers(v: View, log: seq<Event>, i: nat, p: Params)
    requires i < |log| && log[i].Open?
  {
    && Discovers(log[i..]) <= p.retryCount
    && (v.stage.Live? ==> v.params == p && v.stage.xid == log[i].xid && v.stage.sent == Discovers(log[i..]))
    && (v.stage.Live? && HasAck(v.stage.at) ==> exists g | i < g < |log| :: log[g] == Granted(v.stage.at.ack))
  }

  lemma DiscoversSnoc(was: seq<Event>, e: Event, i: nat)
    requires i <= |was|
    ensures Discovers((was + [e])[i..]) == Discovers(was[i..]) + if e.Discover? then 1 else 0
  {
    var tail := (was + [e])[i..];
    assert tail[..|tail| - 1] == was[i..];
  }

  lemma {:induction false} CycleView(log: seq<Event>, i: nat)
    requires Seen(log).Some? && Latest(log, i)
    ensures Seen(log[..i]).Some? && Remembers(Seen(log).value, log, i, Seen(log[..i]).value.params)
  {
    var n := |log| - 1;
    var was, e := log[..n], log[n];
    var v := SeenAt(log, n);
    assert log == was + [e] == log[..n + 1];
    if i == n {
      OpenRemembers(v, was, e);
    } else {
      assert was[..i] == log[..i];
      CycleView(was, i);
      DiscoversSnoc(was, e, i);
      RemembersSnoc(v, was, e, i, Seen(log[..i]).value.params);
    }
  }

  lemma OpenRemembers(v: View, was: seq<Event>, e: Event)
    requires e.Open? && Follow(v, e).Some?
    ensures Remembers(Follow(v, e).value, was + [e], |was|, v.params)
  {
    var tail := (was + [e])[|was|..];
    assert tail == [e] && tail[..0] == [];
    assert Discovers(tail) == 0;
  }

  lemma RemembersSnoc(v: View, was: seq<Event>, e: Event, i: nat, p: Params)
    requires i < |was| && was[i].Open? && Remembers(v, was, i, p)
    requires Follow(v, e).Some? && !e.Open?
    requires Discovers((was + [e])[i..]) == Discovers(was[i..]) + if e.Discover? then 1 else 0
    ensures Remembers(Follow(v, e).value, was + [e], i, p)
  {
    var v' := Follow(v, e).value;
    if v'.stage.Live? && HasAck(v'.stage.at) {
      if e.Granted? {
        assert (was + [e])[|was|] == Granted(v'.stage.at.ack);
      } else {
        var g :| i < g < |was| && was[g] == Granted(v.stage.at.ack);
        assert (was + [e])[g] == Granted(v'.stage.at.ack);
      }
    }
  }

  lemma {:induction false} LatestExists(log: seq<Event>) returns (i: nat)
    requires Seen(log).Some? && Seen(log).value.stage.Live?
    ensures Latest(log, i)
  {
    var n := |log| - 1;
    if log[n].Open? {
      i := n;
    } else {
      i := LatestExists(log[..n]);
    }
  }

  /** The transaction id a logged event puts on the wire. */
  function XidOf(e: Event): Option<uint32> {
    match e
    case Discover(x) => Some(x)
    case Request(x, _, _) => Some(x)
    case Decline(x, _, _) => Some(x)
    case Hold(job, _) => Some(job.xid)
    case _ => None
  }

  lemma SendsOwnXid(v: View, e: Event)
    requires Follow(v, e).Some? && XidOf(e).Some?
    ensures v.stage.Live? && XidOf(e) == Some(v.stage.xid)
  {}

  lemma HoldsAnnounced(v: View, e: Event)
    requires Follow(v, e).Some? && e.Hold? && v.params.probes && !v.stopped
    ensures v.stage.Live? && v.stage.at.Ready? && (RouterSound(v) ==> e.job.client == v.stage.at.ack.yiaddr)
  {}

  lemma ReadyBy(v: View, e: Event)
    requires Follow(v, e).Some? && Follow(v, e).value.stage.Live? && Follow(v, e).value.stage.at.Ready?
    ensures e == Announce(Follow(v, e).value.stage.at.ack.yiaddr) || (e == Stop && v.stage.Live? && v.stage.at == Follow(v, e).value.stage.at)
    ensures e.Announce? ==> v.stage.Live? && v.stage.at.Probing? && v.stage.at.ack == Follow(v, e).value.stage.at.ack
  {}

  lemma ProbingBy(v: View, e: Event)
    requires Follow(v, e).Some? && Follow(v, e).value.stage.Live? && Follow(v, e).value.stage.at.Probing?
    ensures e == Deaf || e == Probe(Follow(v, e).value.stage.at.ack.yiaddr)
  {}

  lemma StopStops(v: View, e: Event)
    requires Follow(v, e).Some? && e == Stop
    ensures Follow(v, e).value.stopped
  {}

  lemma ProbingIsProbed(log: seq<Event>, ack: Ack)
    requires Seen(log).Some? && Seen(log).value.stage.Live?
    requires Seen(log).value.stage.at.Probing? && Seen(log).value.stage.at.ack == ack
    ensures log != [] && (log[|log| - 1] == Probe(ack.yiaddr) || log[|log| - 1] == Deaf)
  {
    assert log[..|log|] == log;
    var t := SeenAt(log, |log| - 1);
    ProbingBy(t, log[|log| - 1]);
  }

  lemma ReadyIsAnnounced(log: seq<Event>, ack: Ack)
    requires Seen(log).Some? && Seen(log).value.stage.Live? && Seen(log).value.stage.at == Ready(ack) && !Seen(log).value.stopped
    ensures |log| >= 2 && log[|log| - 1] == Announce(ack.yiaddr)
    ensures log[|log| - 2] == Probe(ack.yiaddr) || log[|log| - 2] == Deaf
  {
    assert log[..|log|] == log;
    var u := SeenAt(log, |log| - 1);
    ReadyBy(u, log[|log| - 1]);
    if log[|log| - 1] == Stop {
      StopStops(u, log[|log| - 1]);
    }
    ProbingIsProbed(log[..|log| - 1], ack);
  }

  /** A probing client that is not being stopped uses no address before it has announced it, and announces none before it
      has probed for it, or could not open a socket for the probe. */
  lemma UsedOnlyAfterProbing(log: seq<Event>, j: nat)
    requires Seen(log).Some? && j < |log| && log[j].Hold?
    requires Seen(log[..j]).Some? ==> Seen(log[..j]).value.params.probes && !Seen(log[..j]).value.stopped
    ensures j >= 2 && log[j - 1] == Announce(log[j].job.client) && (log[j - 2] == Probe(log[j].job.client) || log[j - 2] == Deaf)
  {
    var v := SeenAt(log, j);
    Balanced(log[..j]);
    HoldsAnnounced(v, log[j]);
    ReadyIsAnnounced(log[..j], v.stage.at.ack);
  }

  /** Everything a cycle sends carries the id drawn when its socket was opened. */
  lemma OneTransactionPerCycle(log: seq<Event>, i: nat, j: nat)
    requires Seen(log).Some? && i < j < |log| && Latest(log[..j], i)
    ensures XidOf(log[j]).Some? ==> XidOf(log[j]) == Some(log[i].xid)
  {
    if XidOf(log[j]).Some? {
      var v := SeenAt(log, j);
      SendsOwnXid(v, log[j]);
      CycleView(log[..j], i);
    }
  }

  /** A cycle sends at most `retryCount` DISCOVERs. */
  lemma DiscoversAreBounded(log: seq<Event>, i: nat)
    requires Seen(log).Some? && Latest(log, i)
    ensures Seen(log[..i]).Some? && Discovers(log[i..]) <= Seen(log[..i]).value.params.retryCount
  {
    CycleView(log, i);
  }

  // What the view says about the event before it.

  lemma ConflictedBy(v: View, e: Event)
    requires Follow(v, e).Some? && Follow(v, e).value.stage.Live? && Follow(v, e).value.stage.at.Conflicted?
    ensures e == Conflict && v.stage.Live? && v.stage.at == Probing(Follow(v, e).value.stage.at.ack, true)
  {}

  lemma ProbedBy(v: View, e: Event)
    requires Follow(v, e).Some? && Follow(v, e).value.stage.Live?
    requires Follow(v, e).value.stage.at.Probing? && Follow(v, e).value.stage.at.armed
    ensures e == Probe(Follow(v, e).value.stage.at.ack.yiaddr)
  {}

  lemma DeclinedBy(v: View, e: Event)
    requires Follow(v, e).Some? && e.Decline?
    ensures v.stage.Live? && v.stage.at.Conflicted? && v.stage.at.ack.yiaddr == e.addr
  {}

  lemma CommittedBy(v: View, e: Event)
    requires Follow(v, e).Some? && e.Commit?
    ensures v.stage.Live? && v.stage.at.Acked? && !v.stopped && v.stage.at.ack.yiaddr == e.addr
  {}

  lemma AckedBy(v: View, e: Event)
    requires Follow(v, e).Some? && !Follow(v, e).value.stopped && Follow(v, e).value.stage.Live? && Follow(v, e).value.stage.at.Acked?
    ensures e == Granted(Follow(v, e).value.stage.at.ack) && !v.stopped && v.stage.Live? && v.stage.at.Requested?
  {}

  lemma RequestedBy(v: View, e: Event)
    requires Follow(v, e).Some? && !Follow(v, e).value.stopped && Follow(v, e).value.stage.Live? && Follow(v, e).value.stage.at.Requested?
    ensures e.Request?
  {}

  lemma HeldBy(v: View, e: Event)
    requires Follow(v, e).Some? && e.Hold? && RouterSound(v)
    ensures v.stage.Live? && HasAck(v.stage.at) && e.job.xid == v.stage.xid && e.job.client == v.stage.at.ack.yiaddr
    ensures Lease.Watched(e.sent, e.job).Some?
  {}

  /** A DECLINE answers a conflict seen right after probing the very address it declines. */
  lemma DeclineAnswersConflict(log: seq<Event>, j: nat)
    requires Seen(log).Some? && j < |log| && log[j].Decline?
    ensures j >= 2 && log[j - 1] == Conflict && log[j - 2] == Probe(log[j].addr)
  {
    var v := SeenAt(log, j);
    DeclinedBy(v, log[j]);
    var u := SeenAt(log, j - 1);
    ConflictedBy(u, log[j - 1]);
    var t := SeenAt(log, j - 2);
    ProbedBy(t, log[j - 2]);
  }

  /** A commit directly follows an ACK that directly follows a REQUEST of the same cycle. It commits the ACK's address,
      whatever that is: the one the REQUEST asked for if and only if the ACK carries that one. */
  lemma CommitTakesTheAck(log: seq<Event>, j: nat)
    requires Seen(log).Some? && j < |log| && log[j].Commit?
    ensures j >= 2 && log[j - 1].Granted? && log[j - 2].Request?
    ensures log[j].addr == log[j - 1].ack.yiaddr
    ensures log[j].addr == log[j - 2].addr <==> log[j - 1].ack.yiaddr == log[j - 2].addr
  {
    var v := SeenAt(log, j);
    CommittedBy(v, log[j]);
    var u := SeenAt(log, j - 1);
    AckedBy(u, log[j - 1]);
    var t := SeenAt(log, j - 2);
    RequestedBy(t, log[j - 2]);
  }

  /** A life in which the client asks for one address and commits another, because the ACK says so. */
  method CommitsAnotherAddress() returns (c: Dhcpv4Client)
    ensures c.Tracked() && c.committedLease == 8
    ensures c.log == [Start(Params(1, false)), Open(1), Discover(1), Offer(7, 9), Request(1, 7, 9), Granted(Ack(8, 9, 0, 0)), Commit(8)]
  {
    c := new Dhcpv4Client();
    c.Log(Start(Params(1, false)));
    c.Log(Open(1));
    var a := Attempt(Some((7, 9)), false, Some(Ack(8, 9, 0, 0)), false, false);
    var ack, stop := c.TryOnce(1, a);
    assert SuccessLog(1, a) == [Offer(7, 9), Request(1, 7, 9), Granted(Ack(8, 9, 0, 0)), Commit(8)];
  }

  /** A renewing or rebinding REQUEST follows an ACK of its own cycle, carries that cycle's id, and names the address
      that ACK granted: the opening of the cycle is event `i` and the ACK event `g`. */
  lemma RequestsNameTheLease(log: seq<Event>, j: nat, k: nat) returns (i: nat, g: nat)
    requires Seen(log).Some? && j < |log| && log[j].Hold? && k < |log[j].sent|
    requires log[j].sent[k].Renew? || log[j].sent[k].Rebind?
    ensures i < g < j && Latest(log[..j], i) && log[i].Open? && log[g].Granted?
    ensures log[j].sent[k].ciaddr == log[g].ack.yiaddr && log[j].sent[k].xid == log[i].xid
  {
    var was := log[..j];
    var v := SeenAt(log, j);
    Balanced(was);
    HeldBy(v, log[j]);
    i := LatestExists(was);
    CycleView(was, i);
    Lease.RequestsCarry(log[j].sent, log[j].job, k);
    g :| i < g < |was| && was[g] == Granted(v.stage.at.ack);
  }
}
