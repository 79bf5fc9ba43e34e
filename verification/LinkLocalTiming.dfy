/**
 No timing assumption behind the uniqueness of claims can be dropped: for each one there is a run of
 two conformant hosts that respects the others and ends with both hosts on one address.
 */
module LinkLocalTiming {
  import opened Arp
  import opened LinkLocalNetwork

  const A: Ipv4 := 0xA9FE_0100

  /** The assumption a run is free of. */
  datatype Assumption = RoundTrip | Answering | Listening

  /** The step respects every assumption but `m`. */
  ghost predicate Respects(m: Assumption, s: Net, step: Step) {
    && (step.CloseWindow? && Enabled(s, step) ==>
          (m.RoundTrip? || RoundTripCovered(s, step.h)) && (m.Answering? || NoSequenceHidden(s, step.h)))
    && (step.SendProbe? && Enabled(s, step) ==> m.Listening? || ListenerBound(s, step.h))
  }

  ghost predicate RunUnder(m: Assumption, states: seq<Net>, steps: seq<Step>) {
    && IsRun(states, steps)
    && forall i {:trigger steps[i]} | 0 <= i < |steps| :: Respects(m, states[i], steps[i])
  }

  ghost predicate EndsIn(m: Assumption, states: seq<Net>, steps: seq<Step>, s: Net) {
    RunUnder(m, states, steps) && states[|steps|] == s
  }

  ghost predicate Reachable(m: Assumption, s: Net) {
    exists states, steps :: EndsIn(m, states, steps, s)
  }

  /** A set of states that no step under the assumptions leads out of. */
  ghost predicate Closed(m: Assumption, r: iset<Net>) {
    && (forall s | Init(s) :: s in r)
    && (forall s, step | s in r && Enabled(s, step) && Respects(m, s, step) :: Apply(s, step) in r)
  }

  lemma ReachInit(m: Assumption, s: Net)
    requires Init(s)
    ensures Reachable(m, s)
  {
    assert EndsIn(m, [s], [], s);
  }

  lemma ReachStep(m: Assumption, s: Net, step: Step)
    requires Reachable(m, s) && Enabled(s, step) && Respects(m, s, step)
    ensures Reachable(m, Apply(s, step))
  {
    var states, steps :| EndsIn(m, states, steps, s);
    assert EndsIn(m, states + [Apply(s, step)], steps + [step], Apply(s, step));
  }

  /** What is reachable is such a set. */
  lemma ReachableIsClosed(m: Assumption) returns (r: iset<Net>)
    ensures Closed(m, r) && forall s | s in r :: Reachable(m, s)
  {
    r := iset s | Reachable(m, s);
    forall s | Init(s) ensures s in r { ReachInit(m, s); }
    forall s, step | s in r && Enabled(s, step) && Respects(m, s, step) ensures Apply(s, step) in r { ReachStep(m, s, step); }
  }

  /** A link of the two hosts 1 and 2, in these phases. */
  predicate Pair(s: Net, one: Phase, two: Phase) {
    s.hosts.Keys == {1, 2} && s.hosts[1] == one && s.hosts[2] == two
  }

  /** The same with the phase of host `h` first. */
  predicate Seen(s: Net, h: Mac, mine: Phase, other: Phase) {
    if h == 1 then Pair(s, mine, other) else h == 2 && Pair(s, other, mine)
  }

  /** The two copies of a frame. */
  function ToBoth(id: nat): set<Copy> {
    {Copy(id, 1), Copy(id, 2)}
  }

  /** The copies of three frames for one host. */
  function ToOne(n: nat, d: Mac): set<Copy> {
    {Copy(n, d), Copy(n + 1, d), Copy(n + 2, d)}
  }

  /** A phase that hears nothing. */
  predicate Unhearing(p: Phase) {
    p.Deaf? || p.HandOver? || p.Releasing? || (p.Probing? && !p.bound)
  }

  /** The window after its three probes. */
  function Probed(bound: bool, n: nat): Phase {
    Probing(A, bound, [n, n + 1, n + 2], false)
  }

  lemma OneProbe(m: Assumption, r: iset<Net>, s: Net, h: Mac, bound: bool, probes: seq<nat>, other: Phase) returns (t: Net)
    requires Closed(m, r) && s in r && Seen(s, h, Probing(A, bound, probes, false), other) && |probes| < 3 && (bound || m.Listening?)
    ensures t in r && Seen(t, h, Probing(A, bound, probes + [|s.log|], false), other)
    ensures t.log == s.log + [ArpProbe(h, A)] && t.hidden == s.hidden && t.flight == s.flight + ToBoth(|s.log|)
  {
    t := Apply(s, SendProbe(h));
    assert (set k | k in {1, 2} :: Copy(|s.log|, k)) == ToBoth(|s.log|);
  }

  /** Host `h` sends the three probes of its window. */
  lemma ThreeProbes(m: Assumption, r: iset<Net>, s: Net, h: Mac, bound: bool, other: Phase) returns (t: Net)
    requires Closed(m, r) && s in r && Seen(s, h, Probing(A, bound, [], false), other) && (bound || m.Listening?)
    ensures t in r && Seen(t, h, Probed(bound, |s.log|), other)
    ensures t.log == s.log + [ArpProbe(h, A), ArpProbe(h, A), ArpProbe(h, A)] && t.hidden == s.hidden
    ensures t.flight == s.flight + ToOne(|s.log|, 1) + ToOne(|s.log|, 2)
  {
    var n := |s.log|;
    var s1 := OneProbe(m, r, s, h, bound, [], other);
    var s2 := OneProbe(m, r, s1, h, bound, [n], other);
    t := OneProbe(m, r, s2, h, bound, [n, n + 1], other);
    assert [n, n + 1] + [n + 2] == [n, n + 1, n + 2];
  }

  /** A silent host picks the address and binds its listener, or not. */
  lemma PickOne(m: Assumption, r: iset<Net>, s: Net, h: Mac, bound: bool, other: Phase) returns (t: Net)
    requires Closed(m, r) && s in r && Seen(s, h, Deaf, other)
    ensures t in r && Seen(t, h, Probing(A, bound, [], false), other)
    ensures t.log == s.log && t.hidden == s.hidden && t.flight == s.flight
  {
    t := Apply(s, Pick(h, A));
    if bound {
      t := Apply(t, BindListener(h));
    }
  }

  /** A silent host opens a window and sends its three probes. */
  lemma OpenWindow(m: Assumption, r: iset<Net>, s: Net, h: Mac, bound: bool, other: Phase) returns (t: Net)
    requires Closed(m, r) && s in r && Seen(s, h, Deaf, other) && (bound || m.Listening?)
    ensures t in r && Seen(t, h, Probed(bound, |s.log|), other)
    ensures t.log == s.log + [ArpProbe(h, A), ArpProbe(h, A), ArpProbe(h, A)] && t.hidden == s.hidden
    ensures t.flight == s.flight + ToOne(|s.log|, 1) + ToOne(|s.log|, 2)
  {
    t := PickOne(m, r, s, h, bound, other);
    t := ThreeProbes(m, r, t, h, bound, other);
  }

  lemma OneMiss(m: Assumption, r: iset<Net>, s: Net, g: Mac, id: nat, mine: Phase, other: Phase) returns (t: Net)
    requires Closed(m, r) && s in r && Seen(s, g, mine, other) && Unhearing(mine) && id < |s.log| && Copy(id, g) in s.flight
    ensures t in r && Seen(t, g, mine, other) && t.log == s.log && t.flight == s.flight - {Copy(id, g)}
    ensures !Holding(mine) ==> t.hidden == s.hidden
  {
    t := Apply(s, Receive(Copy(id, g)));
  }

  /** The three copies from position `n` on reach `g`, which does not hear them. */
  lemma ThreeMisses(m: Assumption, r: iset<Net>, s: Net, g: Mac, n: nat, mine: Phase, other: Phase) returns (t: Net)
    requires Closed(m, r) && s in r && Seen(s, g, mine, other) && Unhearing(mine) && n + 3 == |s.log| && ToOne(n, g) <= s.flight
    ensures t in r && Seen(t, g, mine, other) && t.log == s.log && t.flight == s.flight - ToOne(n, g)
    ensures !Holding(mine) ==> t.hidden == s.hidden
  {
    var s1 := OneMiss(m, r, s, g, n, mine, other);
    var s2 := OneMiss(m, r, s1, g, n + 1, mine, other);
    t := OneMiss(m, r, s2, g, n + 2, mine, other);
  }

  /** The window closes although nothing says that its probes have been delivered. */
  lemma CloseUncovered(r: iset<Net>, s: Net, h: Mac, n: nat, other: Phase) returns (t: Net)
    requires Closed(RoundTrip, r) && s in r && Seen(s, h, Probed(true, n), other) && s.hidden == {}
    ensures t in r && Seen(t, h, HandOver(A), other)
    ensures t.log == s.log && t.hidden == s.hidden && t.flight == s.flight
  {
    assert Sent(s, h, n);
    t := Apply(s, CloseWindow(h));
  }

  /** The window closes: nothing it sent is on its way to another host, and no Reply is on its way to it. */
  lemma CloseCovered(m: Assumption, r: iset<Net>, s: Net, h: Mac, bound: bool, n: nat, other: Phase) returns (t: Net)
    requires Closed(m, r) && s in r && Seen(s, h, Probed(bound, n), other) && (m.Answering? || s.hidden == {})
    requires forall c | c in s.flight && c.dest != h :: !(n <= c.id < n + 3)
    requires forall id: nat | id < |s.log| :: s.log[id].opcode == REQUEST
    ensures t in r && Seen(t, h, HandOver(A), other)
    ensures t.log == s.log && t.hidden == s.hidden && t.flight == s.flight
  {
    assert Sent(s, h, n);
    t := Apply(s, CloseWindow(h));
  }

  lemma TwoSilentHosts(m: Assumption, r: iset<Net>) returns (s: Net)
    requires Closed(m, r)
    ensures s in r && Pair(s, Deaf, Deaf) && s.log == [] && s.flight == {} && s.hidden == {}
  {
    s := Net(map[1 := Deaf, 2 := Deaf], [], {}, {});
  }

  /** The first host's probes go out, listener or not, and reach a second one that is silent. */
  lemma FirstWindow(m: Assumption, r: iset<Net>, bound: bool) returns (s: Net)
    requires Closed(m, r) && (bound || m.Listening?)
    ensures s in r && Pair(s, Probed(bound, 0), Deaf) && s.hidden == {} && s.flight == ToOne(0, 1)
    ensures s.log == [ArpProbe(1, A), ArpProbe(1, A), ArpProbe(1, A)]
  {
    s := TwoSilentHosts(m, r);
    s := OpenWindow(m, r, s, 1, bound, Deaf);
    s := ThreeMisses(m, r, s, 2, 0, Deaf, Probed(bound, 0));
  }

  /** The second host's window on the same address finds the first one unhearing, whatever the reason. */
  lemma SecondWindow(m: Assumption, r: iset<Net>, s: Net, one: Phase) returns (t: Net)
    requires Closed(m, r) && s in r && Pair(s, one, Deaf) && Unhearing(one) && s.flight == ToOne(0, 1) && (m.Answering? || (!Holding(one) && s.hidden == {}))
    requires s.log == [ArpProbe(1, A), ArpProbe(1, A), ArpProbe(1, A)]
    ensures t in r && Pair(t, one, HandOver(A)) && (!Holding(one) ==> t.hidden == s.hidden)
    ensures |t.log| == 6 && forall id: nat | id < 6 :: t.log[id].opcode == REQUEST
    ensures t.flight == ToOne(0, 1) + ToOne(3, 2)
  {
    t := OpenWindow(m, r, s, 2, true, one);
    t := ThreeMisses(m, r, t, 1, 3, one, Probed(true, 3));
    t := CloseCovered(m, r, t, 2, true, 3, one);
  }

  lemma StopAnswering(r: iset<Net>, s: Net) returns (t: Net)
    requires Closed(Answering, r) && s in r && Pair(s, HandOver(A), Deaf)
    ensures t in r && Pair(t, Releasing(A), Deaf)
    ensures t.log == s.log && t.hidden == s.hidden && t.flight == s.flight
  {
    t := Apply(s, BindResponder(1));
    t := Apply(t, Stop(1));
  }

  lemma LateProbes(r: iset<Net>) returns (s: Net)
    requires Closed(RoundTrip, r)
    ensures s in r && Pair(s, HandOver(A), HandOver(A))
  {
    s := TwoSilentHosts(RoundTrip, r);
    s := OpenWindow(RoundTrip, r, s, 1, true, Deaf);
    s := CloseUncovered(r, s, 1, 0, Deaf);
    s := OpenWindow(RoundTrip, r, s, 2, true, HandOver(A));
    s := CloseUncovered(r, s, 2, 3, HandOver(A));
  }

  /** The second window falls between the first host's listener and its responder, or between the end of its responder
      and the clearing of its address. */
  lemma DeafHolder(r: iset<Net>, releasing: bool) returns (s: Net)
    requires Closed(Answering, r)
    ensures s in r && Pair(s, if releasing then Releasing(A) else HandOver(A), HandOver(A))
  {
    s := FirstWindow(Answering, r, true);
    s := CloseCovered(Answering, r, s, 1, true, 0, Deaf);
    if releasing {
      s := StopAnswering(r, s);
    }
    s := SecondWindow(Answering, r, s, if releasing then Releasing(A) else HandOver(A));
  }

  lemma UnboundListener(r: iset<Net>) returns (s: Net)
    requires Closed(Listening, r)
    ensures s in r && Pair(s, HandOver(A), HandOver(A))
  {
    s := FirstWindow(Listening, r, false);
    s := SecondWindow(Listening, r, s, Probed(false, 0));
    s := CloseCovered(Listening, r, s, 1, false, 0, HandOver(A));
  }

  /** Without assumption 1: both windows close before any probe is delivered. */
  lemma LateProbesBreakUniqueness() returns (s: Net)
    ensures Reachable(RoundTrip, s) && Holds(s, 1, A) && Holds(s, 2, A)
  {
    var r := ReachableIsClosed(RoundTrip);
    s := LateProbes(r);
  }

  /** Without assumption 2: the whole second probe sequence falls between the first host's listener
      and its responder. */
  lemma DeafHandOverBreaksUniqueness() returns (s: Net)
    ensures Reachable(Answering, s) && Holds(s, 1, A) && Holds(s, 2, A)
  {
    var r := ReachableIsClosed(Answering);
    s := DeafHolder(r, false);
  }

  /** Or it falls between the end of the first host's responder and the clearing of its address. */
  lemma DeafReleaseBreaksUniqueness() returns (s: Net)
    ensures Reachable(Answering, s) && Holds(s, 1, A) && s.hosts[1].Releasing? && Holds(s, 2, A)
  {
    var r := ReachableIsClosed(Answering);
    s := DeafHolder(r, true);
  }

  /** Without assumption 3: a window without a listener hears neither probes nor answers. */
  lemma UnboundListenerBreaksUniqueness() returns (s: Net)
    ensures Reachable(Listening, s) && Holds(s, 1, A) && Holds(s, 2, A)
  {
    var r := ReachableIsClosed(Listening);
    s := UnboundListener(r);
  }
}
