/**
 The theorems about timely and draining runs are not about nothing: one host alone on its link, its threads running as
 they should, picks an address, probes three times, closes its window and commits.
 */
module LinkLocalWitness {
  import opened Wrappers
  import opened Arp
  import opened LinkLocalSystem
  import H = LinkLocalHost
  import N = LinkLocalNetwork

  const A: Ipv4 := 0xA9FE_0101
  const ME: Mac := 1

  ghost predicate Reachable(s: System) {
    exists run, events :: DrainedRun(run, events, true) && run[|events|] == s
  }

  ghost predicate Closed(r: iset<System>) {
    forall s, s', e | s in r && Next(s, s', e) && Timely(s, e) && Drained(s, e) :: s' in r
  }

  lemma ReachableMore(run: seq<System>, events: seq<Event>, s': System, e: Event)
    requires DrainedRun(run, events, true)
    requires var s := run[|events|]; Next(s, s', e) && Timely(s, e) && Drained(s, e)
    ensures DrainedRun(run + [s'], events + [e], true)
  {
    var run', events' := run + [s'], events + [e];
    forall i | 0 <= i < |events'|
      ensures Next(run'[i], run'[i + 1], events'[i]) && Timely(run'[i], events'[i]) && Drained(run'[i], events'[i])
    {
      if i < |events| {
        assert run'[i] == run[i] && run'[i + 1] == run[i + 1] && events'[i] == events[i];
      }
    }
  }

  lemma ReachableIsClosed() returns (r: iset<System>)
    ensures Closed(r) && forall s :: s in r <==> Reachable(s)
  {
    r := iset s | Reachable(s);
    forall s, s', e | s in r && Next(s, s', e) && Timely(s, e) && Drained(s, e) ensures s' in r {
      var run, events :| DrainedRun(run, events, true) && run[|events|] == s;
      ReachableMore(run, events, s', e);
      assert (run + [s'])[|events + [e]|] == s';
    }
  }

  /** The host is alone and has sent nothing but probes. */
  ghost predicate Lone(s: System, host: H.Host) {
    && s.hosts == map[ME := host] && Inv(s) && H.Inv(host)
    && (forall f | f in s.log :: f.opcode == REQUEST) && (forall c | c in s.flight :: c.dest == ME)
  }

  lemma AloneInTime(s: System, host: H.Host, step: H.Step, c: N.Copy)
    requires Lone(s, host) && (AtProbe(host, step) ==> ListenerUp(host)) && (Releases(host, step) ==> !IsHolder(host))
    ensures Timely(s, Act(ME, step, c)) && Drained(s, Act(ME, step, c))
  {
    assert s.hosts[ME] == host;
    assert forall g | g in s.hosts :: g == ME;
  }

  lemma StaysLone(s: System, s': System, host: H.Host, after: H.Host, e: Effect, c: N.Copy)
    requires Lone(s, host) && OnlyAt(s, s', ME, e, c) && Inv(s') && s'.hosts == s.hosts[ME := after]
    requires e.Silent? || (e.Send? && e.frame.opcode == REQUEST)
    ensures Lone(s', after)
  {
    assert s'.hosts[ME] == after;
  }

  lemma Step(r: iset<System>, s: System, host: H.Host, after: H.Host, step: H.Step) returns (s': System)
    requires Closed(r) && s in r && Lone(s, host) && H.Next(host, after, step)
    requires EffectOf(host, step).Silent? || AtProbe(host, step)
    requires AtProbe(host, step) ==> ListenerUp(host)
    requires Releases(host, step) ==> !IsHolder(host)
    ensures s' in r && Lone(s', after)
  {
    var c := N.Copy(0, ME);
    assert s.hosts[ME] == host;
    s' := LinkNeverBlocks(s, ME, after, step, c);
    NextInv(s, s', Act(ME, step, c));
    AloneInTime(s, host, step, c);
    ActOnlyAt(s, s', ME, step, c);
    StaysLone(s, s', host, after, EffectOf(host, step), c);
  }

  /** The control thread's steps up to spawning the worker: an abort of nothing first. */
  lemma Started(r: iset<System>, s0: System, h0: H.Host) returns (s: System, h: H.Host)
    requires Closed(r) && s0 in r && Lone(s0, h0) && H.Init(h0)
    ensures s in r && Lone(s, h) && h.ctl == H.SpawnWorker && h.worker == H.NoWorker && !h.stop
  {
    h := h0.(ctl := H.Aborting(H.SetStop, true));
    s := Step(r, s0, h0, h, H.Start);
    s, h := Controlled(r, s, h, h.(ctl := H.Aborting(H.JoinWorker, true), stop := true));
    s, h := Controlled(r, s, h, h.(ctl := H.Aborting(H.SetStopListener, true)));
    s, h := Controlled(r, s, h, h.(ctl := H.Aborting(H.JoinListener, true), stopListener := true));
    s, h := Controlled(r, s, h, h.(ctl := H.Aborting(H.SetStopResponder, true)));
    s, h := Controlled(r, s, h, h.(ctl := H.Aborting(H.JoinResponder, true), stopResponder := true));
    s, h := Controlled(r, s, h, h.(ctl := H.Aborting(H.ClearAddress, true)));
    s, h := Controlled(r, s, h, h.(ctl := H.ArmWorker));
    s, h := Controlled(r, s, h, h.(ctl := H.SpawnWorker, stop := false));
  }

  lemma Controlled(r: iset<System>, s: System, host: H.Host, after: H.Host) returns (s': System, h: H.Host)
    requires Closed(r) && s in r && Lone(s, host) && H.Next(host, after, H.CtlNext) && !IsHolder(host)
    ensures h == after && s' in r && Lone(s', h)
  {
    h := after;
    s' := Step(r, s, host, after, H.CtlNext);
  }

  /** A worker in its window with nothing against it. */
  predicate Clear(h: H.Host, at: H.SeekAt) {
    && h.worker == H.Seeking(at) && h.listener == H.Listening(H.LTopOwn) && h.ctl == H.Idle
    && !h.stop && !h.stopListener && !h.conflict && h.tentative == A && h.committed == 0
  }

  lemma Picked(r: iset<System>, s0: System, h0: H.Host) returns (s: System, h: H.Host)
    requires Closed(r) && s0 in r && Lone(s0, h0) && h0.ctl == H.SpawnWorker && !h0.stop
    ensures s in r && Lone(s, h) && h.ctl == H.Idle && !h.stop && h.worker == H.Seeking(H.ClearConflict) && h.tentative == A
  {
    s, h := Controlled(r, s0, h0, h0.(ctl := H.Idle, worker := H.Seeking(H.DhcpWait), tentative := 0));
    s, h := Seeked(r, s, h, h.(worker := H.Seeking(H.OuterTop)));
    s, h := Seeked(r, s, h, h.(worker := H.Seeking(H.PickAddr), conflicts := 0));
    s, h := Seeked(r, s, h, h.(worker := H.Seeking(H.StopL(H.StartL)), tentative := A));
    s, h := Seeked(r, s, h, h.(worker := H.Seeking(H.JoinL(H.StartL)), stopListener := true));
    s, h := Seeked(r, s, h, h.(worker := H.Seeking(H.ClearConflict), listener := H.NoListener));
  }

  lemma Listened(r: iset<System>, s0: System, h0: H.Host) returns (s: System, h: H.Host)
    requires Closed(r) && s0 in r && Lone(s0, h0) && h0.ctl == H.Idle && !h0.stop && h0.worker == H.Seeking(H.ClearConflict) && h0.tentative == A
    ensures s in r && Lone(s, h) && Clear(h, H.EmitProbe(0))
  {
    s, h := Seeked(r, s0, h0, h0.(worker := H.Seeking(H.ArmListener), conflict := false));
    s, h := Seeked(r, s, h, h.(worker := H.Seeking(H.SpawnListener), stopListener := false));
    s, h := Seeked(r, s, h, h.(worker := H.Seeking(H.ProbeWait), listener := H.Listening(H.LOpen)));
    var open := h.(listener := H.Listening(H.LTopOwn));
    s := Step(r, s, h, open, H.ListenerNext(true, None));
    s, h := Seeked(r, s, open, open.(worker := H.Seeking(H.EmitProbe(0))));
  }

  lemma Seeked(r: iset<System>, s: System, host: H.Host, after: H.Host) returns (s': System, h: H.Host)
    requires Closed(r) && s in r && Lone(s, host) && host.worker.Seeking? && H.SeekStep(host, after, A)
    requires AtProbe(host, H.WorkerNext(A)) ==> ListenerUp(host)
    requires !host.worker.seek.WindowStop? || !host.stop
    ensures h == after && s' in r && Lone(s', h)
  {
    h := after;
    s' := Step(r, s, host, after, H.WorkerNext(A));
  }

  lemma Probed(r: iset<System>, s0: System, h0: H.Host, i: nat) returns (s: System, h: H.Host)
    requires Closed(r) && s0 in r && Lone(s0, h0) && Clear(h0, H.EmitProbe(i)) && i < 2
    ensures s in r && Lone(s, h) && Clear(h, H.EmitProbe(i + 1))
  {
    s, h := Seeked(r, s0, h0, h0.(worker := H.Seeking(H.CheckProbe(i))));
    s, h := Seeked(r, s, h, h.(worker := H.Seeking(H.ProbeGap(i))));
    s, h := Seeked(r, s, h, h.(worker := H.Seeking(H.CheckGap(i))));
    s, h := Seeked(r, s, h, h.(worker := H.Seeking(H.EmitProbe(i + 1))));
  }

  lemma WindowClosed(r: iset<System>, s0: System, h0: H.Host) returns (s: System, h: H.Host)
    requires Closed(r) && s0 in r && Lone(s0, h0) && Clear(h0, H.EmitProbe(2))
    ensures s in r && Lone(s, h) && h == h0.(worker := H.Seeking(H.JoinL(H.WindowL)), stopListener := true, listener := H.ListenerDone)
  {
    s, h := Seeked(r, s0, h0, h0.(worker := H.Seeking(H.CheckProbe(2))));
    s, h := Seeked(r, s, h, h.(worker := H.Seeking(H.StopL(H.WindowL))));
    s, h := Seeked(r, s, h, h.(worker := H.Seeking(H.JoinL(H.WindowL)), stopListener := true));
    var closed := h.(listener := H.ListenerDone);
    s := Step(r, s, h, closed, H.ListenerNext(true, None));
    h := closed;
  }

  lemma Won(r: iset<System>, s0: System, h0: H.Host) returns (s: System, h: H.Host)
    requires Closed(r) && s0 in r && Lone(s0, h0) && h0.worker == H.Seeking(H.JoinL(H.WindowL)) && h0.listener == H.ListenerDone
    requires !h0.stop && !h0.conflict && h0.tentative == A
    ensures s in r && Lone(s, h) && h.committed == A
  {
    s, h := Seeked(r, s0, h0, h0.(worker := H.Seeking(H.WindowStop), listener := H.NoListener));
    s, h := Seeked(r, s, h, h.(worker := H.Seeking(H.WindowConflict)));
    s, h := Seeked(r, s, h, h.(worker := H.Claiming(H.Commit)));
    var committed := h.(worker := H.Claiming(H.ClearCease), committed := A, claims := h.claims + 1);
    s := Step(r, s, h, committed, H.WorkerNext(A));
    h := committed;
  }

  lemma Commits(r: iset<System>, s0: System, h0: H.Host) returns (s: System, h: H.Host)
    requires Closed(r) && s0 in r && Lone(s0, h0) && H.Init(h0)
    ensures s in r && Lone(s, h) && h.committed == A
  {
    s, h := Started(r, s0, h0);
    s, h := Picked(r, s, h);
    s, h := Listened(r, s, h);
    s, h := Probed(r, s, h, 0);
    s, h := Probed(r, s, h, 1);
    s, h := WindowClosed(r, s, h);
    s, h := Won(r, s, h);
  }

  lemma Alone(h0: H.Host) returns (s: System)
    requires H.Init(h0) && h0.mac == ME
    ensures Reachable(s) && Lone(s, h0)
  {
    s := System(map[ME := h0], [], {}, map[], map[ME := []], {});
    assert DrainedRun([s], [], true) && [s][0] == s;
    InitInv(s);
    assert s.hosts[ME] == h0;
  }

  /** Some timely and draining run commits an address. */
  lemma SomebodyCommits(h0: H.Host) returns (s: System)
    requires H.Init(h0) && h0.mac == ME
    ensures Reachable(s) && ME in s.hosts && s.hosts[ME].committed == A
  {
    var r := ReachableIsClosed();
    s := Alone(h0);
    var h;
    s, h := Commits(r, s, h0);
  }
}
