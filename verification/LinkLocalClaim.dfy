/**
 One claim attempt of a link-local host: the loop that picks addresses and probes for them until a
 window passes without a conflict. The environment supplies one `Window` per pick; an attempt that
 is stopped early is one whose supply of windows ends.
 */
module LinkLocalClaim {
  import opened Wrappers
  import opened Arp

  type ThirdOctet = x: int | 1 <= x <= 254 witness 1
  type FourthOctet = y: int | 0 <= y <= 255

  /** What the environment decides about one window: the two random draws, by how much the silence
      overshoots, how long the window takes, and from which of its six reads on the conflict flag is up. */
  datatype Window = Window(x: ThirdOctet, y: FourthOctet, slack: nat, spent: nat, conflictFrom: nat)

  /** An address that was probed: when it was picked and how many probes it got. */
  datatype Pick = Pick(addr: Ipv4, at: nat, probes: nat)

  /** The read at position `k`: after each probe (0, 2, 4), after each gap (1, 3) and after the window (5). */
  predicate Raised(w: Window, k: nat) {
    k >= w.conflictFrom
  }

  predicate Clean(w: Window) {
    !Raised(w, 5)
  }

  function PickAddress(x: ThirdOctet, y: FourthOctet): (a: Ipv4)
    ensures IsLinkLocal(a)
  {
    0xA9FE_0000 + 0x100 * x + y
  }

  /** Every claimable address can be drawn, by exactly one pair of draws. */
  lemma PickCoversTheRange(a: Ipv4)
    requires IsLinkLocal(a)
    ensures exists x: ThirdOctet, y: FourthOctet :: PickAddress(x, y) == a
    ensures forall x: ThirdOctet, y: FourthOctet, x': ThirdOctet, y': FourthOctet ::
              PickAddress(x, y) == a && PickAddress(x', y') == a ==> x == x' && y == y'
  {
    var d := a - 0xA9FE_0000;
    var x: ThirdOctet, y: FourthOctet := d / 0x100, d % 0x100;
    assert PickAddress(x, y) == a;
  }

  /** The silence owed by the time `n` addresses have been picked. */
  function SilenceOwed(n: nat, interval: nat): nat {
    if n <= MAX_CONFLICTS then 0 else (n - MAX_CONFLICTS) * interval
  }

  /** The time from the start of an attempt to its n-th pick (from 0): the windows before it, and from the eleventh pick on
      one silence before each. */
  function TimeTo(windows: seq<Window>, n: nat, interval: nat): nat
    requires n < |windows|
  {
    (if n == 0 then 0 else TimeTo(windows, n - 1, interval) + windows[n - 1].spent) + if n < 10 then 0 else interval + windows[n].slack
  }

  /** The time the first n windows take. */
  function Spent(windows: seq<Window>, n: nat): nat
    requires n <= |windows|
  {
    if n == 0 then 0 else Spent(windows, n - 1) + windows[n - 1].spent
  }

  /** The first ten picks follow one another without any silence. */
  lemma {:induction false} FirstTenWithoutSilence(windows: seq<Window>, n: nat, interval: nat)
    requires n < |windows| && n < 10
    ensures TimeTo(windows, n, interval) == Spent(windows, n)
  {
    if n > 0 {
      FirstTenWithoutSilence(windows, n - 1, interval);
    }
  }

  /** The three probes of a window, cut short by the first read that finds the conflict flag up. */
  method ProbeWindow(w: Window) returns (probes: nat, early: bool)
    ensures 1 <= probes <= 3
    ensures early <==> w.conflictFrom <= 4
    ensures probes == if w.conflictFrom <= 1 then 1 else if w.conflictFrom <= 3 then 2 else 3
  {
    probes, early := 0, false;
    for i := 0 to 3
      invariant probes == i && !early
      invariant w.conflictFrom > if i == 3 then 4 else 2 * i - 1
    {
      probes := probes + 1;
      if Raised(w, 2 * i) {
        early := true;
        break;
      }
      if i < 2 && Raised(w, 2 * i + 1) {
        early := true;
        break;
      }
    }
  }

  /** The n-th pick (from 0) is the one drawn for its window, at its time. */
  predicate Lawful(p: Pick, windows: seq<Window>, n: nat, interval: nat, start: nat)
    requires n < |windows|
  {
    && p.addr == PickAddress(windows[n].x, windows[n].y)
    && 1 <= p.probes <= 3 && (p.probes < 3 ==> !Clean(windows[n]))
    && p.at == start + TimeTo(windows, n, interval)
  }

  /** The claim attempt. It ends with the first window that stays clean to its very end. Every pick comes exactly when the
      windows before it are through and the silences owed are kept: by the n-th one the host has been silent for
      (n - MAX_CONFLICTS) intervals. */
  method ClaimAddress(windows: seq<Window>, interval: nat, start: nat)
    returns (picks: seq<Pick>, address: Option<Ipv4>, now: nat)
    ensures |picks| <= |windows|
    ensures forall n | 0 <= n < |picks| :: Lawful(picks[n], windows, n, interval, start)
    ensures forall n | 0 <= n < |picks| :: IsLinkLocal(picks[n].addr) && picks[n].at >= start + SilenceOwed(n + 1, interval) && picks[n].at <= now
    ensures forall n | 0 <= n < |picks| - 1 :: !Clean(windows[n])
    ensures match address
            case None => |picks| == |windows| && forall n | 0 <= n < |windows| :: !Clean(windows[n])
            case Some(a) => picks != [] && a == picks[|picks| - 1].addr && Clean(windows[|picks| - 1])
  {
    var conflictCount, rateLimitActive := 0, false;
    picks, address, now := [], None, start;
    while |picks| < |windows|
      invariant |picks| <= |windows| && conflictCount == |picks|
      invariant rateLimitActive <==> conflictCount >= MAX_CONFLICTS
      invariant now == start + if picks == [] then 0 else TimeTo(windows, |picks| - 1, interval) + windows[|picks| - 1].spent
      invariant forall n | 0 <= n < |picks| :: Lawful(picks[n], windows, n, interval, start) && picks[n].at <= now
      invariant forall n | 0 <= n < |picks| :: !Clean(windows[n])
    {
      var w := windows[|picks|];
      if rateLimitActive {
        now := now + interval + w.slack;
      }
      var at := now;
      var probes, early := ProbeWindow(w);
      var pick := Pick(PickAddress(w.x, w.y), at, probes);
      assert Lawful(pick, windows, |picks|, interval, start);
      picks, now := picks + [pick], now + w.spent;
      if early || Raised(w, 5) {
        conflictCount := conflictCount + 1;
        if conflictCount >= MAX_CONFLICTS {
          rateLimitActive := true;
        }
      } else {
        SilencesKept(picks, windows, interval, start);
        return picks, Some(pick.addr), now;
      }
    }
    SilencesKept(picks, windows, interval, start);
  }

  lemma SilencesKept(picks: seq<Pick>, windows: seq<Window>, interval: nat, start: nat)
    requires |picks| <= |windows| && forall n | 0 <= n < |picks| :: Lawful(picks[n], windows, n, interval, start)
    ensures forall n | 0 <= n < |picks| :: IsLinkLocal(picks[n].addr) && picks[n].at >= start + SilenceOwed(n + 1, interval)
  {
    forall n | 0 <= n < |picks| ensures IsLinkLocal(picks[n].addr) && picks[n].at >= start + SilenceOwed(n + 1, interval) {
      assert Lawful(picks[n], windows, n, interval, start);
      TimeCoversSilence(windows, n, interval);
    }
  }

  lemma {:induction false} TimeCoversSilence(windows: seq<Window>, n: nat, interval: nat)
    requires n < |windows|
    ensures TimeTo(windows, n, interval) >= SilenceOwed(n + 1, interval)
  {
    SilenceStep(n, interval);
    if n > 0 {
      TimeCoversSilence(windows, n - 1, interval);
    }
  }

  lemma SilenceStep(n: nat, interval: nat)
    ensures SilenceOwed(n + 1, interval) == SilenceOwed(n, interval) + if n >= MAX_CONFLICTS then interval else 0
  {}
}
