/**
 When a clean quiescence audit is right about every run. It is, if no deciding state leads back to itself; and where the
 runner's events alone take the machine from state to state, only then.
 */
module QuiescenceReturns {
  import opened Wrappers
  import opened QuiescenceAudit
  import opened QuiescenceRuns

  // ---------- A condition on the document ----------

  /** Some transition leads from one state to the other. */
  predicate Hop(doc: Document, a: Id, b: Id) {
    exists e <- doc :: Reaches(e, b) && e.state == a
  }

  predicate HopChain(doc: Document, p: seq<Id>) {
    forall k | 0 < k < |p| :: Hop(doc, p[k - 1], p[k])
  }

  predicate Returns(doc: Document, q: Id, p: seq<Id>) {
    |p| >= 2 && HopChain(doc, p) && p[0] == q && p[|p| - 1] == q
  }

  /** No chain of transitions leads from the state back to itself. */
  ghost predicate NoReturn(doc: Document, q: Id) {
    forall p :: !Returns(doc, q, p)
  }

  function States(visits: seq<Visit>): seq<Id> {
    seq(|visits|, i requires 0 <= i < |visits| => visits[i].state)
  }

  lemma StepLinked(doc: Document, c: Config, c': Config, step: Happening)
    requires HopChain(doc, States(c.visits)) && Next(doc, c, c', step)
    ensures HopChain(doc, States(c'.visits))
  {
    if step.taken.Some? {
      var (i, target) := step.taken.value;
      var p, p' := States(c.visits), States(c'.visits);
      assert p' == p + [target];
      assert doc[i] in doc && Hop(doc, p[|p| - 1], target);
    }
  }

  /** The states a run visits are linked by transitions. */
  lemma {:induction false} RunLinked(doc: Document, run: seq<Config>, steps: seq<Happening>, n: nat)
    requires IsRun(doc, run, steps) && n < |run|
    ensures HopChain(doc, States(run[n].visits))
  {
    if n > 0 {
      RunLinked(doc, run, steps, n - 1);
      RunStep(doc, run, steps, n - 1);
      StepLinked(doc, run[n - 1], run[n], steps[n - 1]);
    }
  }

  /** A state without return is visited once. */
  lemma VisitedOnce(doc: Document, visits: seq<Visit>, k: nat)
    requires HopChain(doc, States(visits)) && k < |visits| && NoReturn(doc, visits[k].state)
    ensures FirstVisit(visits, k)
  {
    forall i | 0 <= i < k ensures visits[i].state != visits[k].state {
      var p := States(visits)[i..k + 1];
      assert HopChain(doc, p) by {
        forall m | 0 < m < |p| ensures Hop(doc, p[m - 1], p[m]) {
          assert p[m - 1] == States(visits)[i + m - 1] && p[m] == States(visits)[i + m];
        }
      }
      assert !Returns(doc, visits[k].state, p);
    }
  }

  /** The run has entered the final at visit k. */
  ghost predicate Enters(doc: Document, run: seq<Config>, steps: seq<Happening>, k: nat, final: Id) {
    && IsRun(doc, run, steps) && KeepsOff(doc, steps)
    && 0 < k < |LastOf(run).visits| && LastOf(run).visits[k].state == final
  }

  /** How long the state before visit k had been active. */
  function Stay(run: seq<Config>, k: nat): int
    requires run != [] && 0 < k < |LastOf(run).visits|
  {
    LastOf(run).visits[k].at - LastOf(run).visits[k - 1].at
  }

  function LastOf(run: seq<Config>): Config
    requires run != []
  {
    run[|run| - 1]
  }

  /** In every run the final is entered only from states active for the bound. */
  ghost predicate SoundFor(doc: Document, final: Id, bound: nat) {
    forall run, steps, k: nat :: Enters(doc, run, steps, k, final) ==> Stay(run, k) >= bound
  }

  /** No state that decides the final can be entered again. */
  ghost predicate DecidersDoNotReturn(doc: Document, final: Id) {
    forall e <- doc :: Reaches(e, final) ==> NoReturn(doc, e.state)
  }

  lemma DeciderOf(doc: Document, visits: seq<Visit>, k: nat, final: Id) returns (e: Element)
    requires HopChain(doc, States(visits)) && 0 < k < |visits| && visits[k].state == final
    ensures e in doc && Reaches(e, final) && e.state == visits[k - 1].state
  {
    var p := States(visits);
    assert Hop(doc, p[k - 1], p[k]);
    e :| e in doc && Reaches(e, final) && e.state == p[k - 1];
  }

  /** What an author can check on the document: if no state that decides a secured final leads back to itself, the audit is
      right about every run. */
  lemma WithoutReturnSound(doc: Document, final: Id, bound: nat)
    requires Fit(doc, final, bound) && DecidersDoNotReturn(doc, final)
    ensures SoundFor(doc, final, bound)
  {
    forall run, steps, k: nat | Enters(doc, run, steps, k, final) ensures Stay(run, k) >= bound {
      RunGood(doc, run, steps, |steps|, final, bound);
      RunLinked(doc, run, steps, |steps|);
      var e := DeciderOf(doc, LastOf(run).visits, k, final);
      VisitedOnce(doc, LastOf(run).visits, k - 1);
    }
  }

  // ---------- A return breaks it ----------

  /** The timer a send arms; a delay that cannot be read counts as none. */
  function TimerOf(e: Element, at: int): Timer
    requires e.Send?
  {
    Timer(e.event, e.state, at, at + if WindowLength(e).Some? then WindowLength(e).value else 0)
  }

  lemma {:induction false} ArmAll(doc: Document, state: Id, at: int) returns (timers: seq<Timer>)
    ensures Armed(doc, state, at, timers)
    ensures forall k | 0 <= k < |timers| :: SendsOf(doc, state)[k].Send? && timers[k] == TimerOf(SendsOf(doc, state)[k], at)
  {
    var sends := SendsOf(doc, state);
    forall k | 0 <= k < |sends| ensures sends[k].Send? && sends[k].state == state {
      SendsOfAreSends(doc, state, k);
    }
    timers := seq(|sends|, k requires 0 <= k < |sends| && sends[k].Send? => TimerOf(sends[k], at));
  }

  lemma {:induction false} SendIsArmed(doc: Document, i: nat) returns (k: nat)
    requires i < |doc| && doc[i].Send?
    ensures k < |SendsOf(doc, doc[i].state)| && SendsOf(doc, doc[i].state)[k] == doc[i]
  {
    var here: seq<Element> := if doc[0].Send? && doc[0].state == doc[i].state then [doc[0]] else [];
    if i == 0 {
      k := 0;
    } else {
      k := SendIsArmed(doc[1..], i - 1);
      k := k + |here|;
    }
  }

  /** A chain of transitions that the runner's events can take: each is given by its position and target. */
  predicate RunnerChain(doc: Document, from: Id, hops: seq<(nat, Id)>)
    decreases |hops|
  {
    hops != [] ==>
      && hops[0].0 < |doc| && Reaches(doc[hops[0].0], hops[0].1) && doc[hops[0].0].state == from
      && doc[hops[0].0].event !in WindowEvents(doc)
      && RunnerChain(doc, hops[0].1, hops[1..])
  }

  function EndOf(from: Id, hops: seq<(nat, Id)>): Id {
    if hops == [] then from else hops[|hops| - 1].1
  }

  /** A run so far, ready to go on. */
  ghost predicate Going(doc: Document, run: seq<Config>, steps: seq<Happening>) {
    IsRun(doc, run, steps) && KeepsOff(doc, steps)
  }

  lemma GoOn(doc: Document, run: seq<Config>, steps: seq<Happening>, c: Config, step: Happening)
    requires Going(doc, run, steps) && Next(doc, LastOf(run), c, step) && StepKeepsOff(doc, step)
    ensures Going(doc, run + [c], steps + [step])
  {
    var run', steps' := run + [c], steps + [step];
    forall i | 0 <= i < |steps'| ensures Next(doc, run'[i], run'[i + 1], steps'[i]) {
      if i < |steps| { RunStep(doc, run, steps, i); }
    }
  }

  /** The runner takes one transition. */
  lemma OneHop(doc: Document, run: seq<Config>, steps: seq<Happening>, at: int, i: nat, target: Id) returns (run': seq<Config>, steps': seq<Happening>)
    requires Going(doc, run, steps) && LastOf(run).visits != [] && LastOf(run).now <= at
    requires i < |doc| && Reaches(doc[i], target) && doc[i].event !in WindowEvents(doc)
    requires doc[i].state == LastOf(run).visits[|LastOf(run).visits| - 1].state
    ensures Going(doc, run', steps') && LastOf(run').now == at
    ensures LastOf(run').visits == LastOf(run).visits + [Visit(target, at)] && LastOf(run).timers <= LastOf(run').timers
  {
    var c := LastOf(run);
    var armed := ArmAll(doc, target, at);
    var step := Happening(at, Runner(doc[i].event), Some((i, target)));
    var c' := Config(at, c.visits + [Visit(target, at)], c.timers + armed);
    assert c'.timers[|c.timers|..] == armed;
    assert Next(doc, c, c', step);
    GoOn(doc, run, steps, c', step);
    run', steps' := run + [c'], steps + [step];
  }

  /** The runner takes a chain of them, all at one instant. */
  lemma {:induction false} FollowChain(doc: Document, run: seq<Config>, steps: seq<Happening>, at: int, from: Id, hops: seq<(nat, Id)>)
    returns (run': seq<Config>, steps': seq<Happening>)
    requires Going(doc, run, steps) && LastOf(run).visits != [] && LastOf(run).now <= at
    requires LastOf(run).visits[|LastOf(run).visits| - 1].state == from && RunnerChain(doc, from, hops)
    ensures Going(doc, run', steps') && LastOf(run').now <= at && LastOf(run).timers <= LastOf(run').timers && LastOf(run').visits != []
    ensures hops != [] ==> LastOf(run').now == at && LastOf(run').visits[|LastOf(run').visits| - 1] == Visit(EndOf(from, hops), at)
    ensures hops == [] ==> run' == run && steps' == steps
    decreases |hops|
  {
    run', steps' := run, steps;
    if hops != [] {
      run', steps' := OneHop(doc, run, steps, at, hops[0].0, hops[0].1);
      var timers := LastOf(run').timers;
      run', steps' := FollowChain(doc, run', steps', at, hops[0].1, hops[1..]);
      assert LastOf(run).timers <= timers <= LastOf(run').timers;
    }
  }

  /** The window timer behind a deciding transition is one of the deciding state's own sends. */
  lemma DecidingSend(doc: Document, i: nat, final: Id, bound: nat) returns (k: nat)
    requires Fit(doc, final, bound) && i < |doc| && Reaches(doc[i], final)
    ensures k < |doc| && IsWindow(doc[k]) && doc[k].event == doc[i].event && doc[k].state == doc[i].state
    ensures WindowLength(doc[k]).Some? && WindowLength(doc[k]).value >= bound
  {
    assert SecuredBy(doc, doc[i], bound);
    k :| 0 <= k < |doc| && IsWindow(doc[k]) && doc[k].event == doc[i].event;
    assert LongEnough(WindowLength(doc[k]), bound);
    assert IsTimer(doc[k]);
  }

  /** The run starts in the deciding state, with its window timer armed. */
  lemma StartAt(doc: Document, q: Id) returns (run: seq<Config>, steps: seq<Happening>)
    ensures Going(doc, run, steps) && LastOf(run).now == 0 && LastOf(run).visits == [Visit(q, 0)]
    ensures |LastOf(run).timers| == |SendsOf(doc, q)|
    ensures forall k | 0 <= k < |SendsOf(doc, q)| :: SendsOf(doc, q)[k].Send? && LastOf(run).timers[k] == TimerOf(SendsOf(doc, q)[k], 0)
  {
    var timers := ArmAll(doc, q, 0);
    run, steps := [Config(0, [Visit(q, 0)], timers)], [];
  }

  /** The timer that is running goes off and takes the deciding transition. */
  lemma Decide(doc: Document, run: seq<Config>, steps: seq<Happening>, i: nat, final: Id, m: nat)
    returns (run': seq<Config>, steps': seq<Happening>)
    requires Going(doc, run, steps) && LastOf(run).visits != [] && i < |doc| && Reaches(doc[i], final)
    requires doc[i].state == LastOf(run).visits[|LastOf(run).visits| - 1].state
    requires m < |LastOf(run).timers| && LastOf(run).timers[m].event == doc[i].event && LastOf(run).timers[m].due <= LastOf(run).now
    ensures Going(doc, run', steps')
    ensures LastOf(run').visits == LastOf(run).visits + [Visit(final, LastOf(run).now)]
  {
    var c := LastOf(run);
    var armed := ArmAll(doc, final, c.now);
    var step := Happening(c.now, Expiry(m), Some((i, final)));
    var left := Left(c, step);
    var c' := Config(c.now, c.visits + [Visit(final, c.now)], left + armed);
    assert c'.timers[|left|..] == armed;
    assert Next(doc, c, c', step);
    GoOn(doc, run, steps, c', step);
    run', steps' := run + [c'], steps + [step];
  }

  /** The run that leaves the deciding state when its timer is due and comes back at the same instant. */
  lemma BackAgain(doc: Document, k: nat, hops: seq<(nat, Id)>) returns (run: seq<Config>, steps: seq<Happening>, m: nat)
    requires k < |doc| && doc[k].Send? && hops != []
    requires RunnerChain(doc, doc[k].state, hops) && EndOf(doc[k].state, hops) == doc[k].state
    ensures Going(doc, run, steps) && LastOf(run).visits != []
    ensures LastOf(run).visits[|LastOf(run).visits| - 1] == Visit(doc[k].state, LastOf(run).now)
    ensures m < |LastOf(run).timers| && LastOf(run).timers[m].event == doc[k].event && LastOf(run).timers[m].due == LastOf(run).now
  {
    m := SendIsArmed(doc, k);
    run, steps := StartAt(doc, doc[k].state);
    var stale := LastOf(run).timers[m];
    run, steps := FollowChain(doc, run, steps, stale.due, doc[k].state, hops);
    assert LastOf(run).timers[m] == stale;
  }

  /** If the runner can lead a deciding state back to itself, the audit is wrong about some run: the timer of the first stay
      decides the second one the moment it begins. */
  lemma ReturnIsUnsound(doc: Document, final: Id, bound: nat, i: nat, hops: seq<(nat, Id)>)
    requires Fit(doc, final, bound) && bound > 0 && i < |doc| && Reaches(doc[i], final)
    requires hops != [] && RunnerChain(doc, doc[i].state, hops) && EndOf(doc[i].state, hops) == doc[i].state
    ensures !SoundFor(doc, final, bound)
  {
    var k := DecidingSend(doc, i, final, bound);
    var run, steps, m := BackAgain(doc, k, hops);
    var n := |LastOf(run).visits|;
    var run', steps' := Decide(doc, run, steps, i, final, m);
    assert Enters(doc, run', steps', n, final) && Stay(run', n) == 0;
  }

  // ---------- Exactly when ----------

  /** Only deciding transitions wait for timers, and the final is final: every other transition is the runner's. */
  predicate RunnerDriven(doc: Document, final: Id) {
    forall e <- doc :: e.Transition? ==> e.state != final && forall t <- e.targets :: t != final ==> e.event !in WindowEvents(doc)
  }

  /** A chain of transitions that does not end in the final is the runner's. */
  lemma {:induction false} ChainIsRunners(doc: Document, p: seq<Id>, final: Id) returns (hops: seq<(nat, Id)>)
    requires RunnerDriven(doc, final) && p != [] && HopChain(doc, p) && p[|p| - 1] != final
    ensures RunnerChain(doc, p[0], hops) && |hops| == |p| - 1 && EndOf(p[0], hops) == p[|p| - 1]
    decreases |p|
  {
    if |p| == 1 {
      hops := [];
    } else {
      assert Hop(doc, p[0], p[1]);
      var e :| e in doc && Reaches(e, p[1]) && e.state == p[0];
      var i :| 0 <= i < |doc| && doc[i] == e;
      var q := p[1..];
      assert HopChain(doc, q) by {
        forall k | 0 < k < |q| ensures Hop(doc, q[k - 1], q[k]) {
          assert Hop(doc, p[k], p[k + 1]);
        }
      }
      assert p[1] != final by {
        if |p| > 2 {
          assert Hop(doc, p[1], p[2]);
        }
      }
      var rest := ChainIsRunners(doc, q, final);
      hops := [(i, p[1])] + rest;
      assert hops[1..] == rest;
    }
  }

  /** For such machines the condition is exact: the audit is right about every run of a secured final with a positive bound
      if and only if none of its deciding states leads back to itself. */
  lemma SoundIffNoReturn(doc: Document, final: Id, bound: nat)
    requires Fit(doc, final, bound) && bound > 0 && RunnerDriven(doc, final)
    ensures SoundFor(doc, final, bound) <==> DecidersDoNotReturn(doc, final)
  {
    if DecidersDoNotReturn(doc, final) {
      WithoutReturnSound(doc, final, bound);
    } else {
      var e :| e in doc && Reaches(e, final) && !NoReturn(doc, e.state);
      var i :| 0 <= i < |doc| && doc[i] == e;
      var p :| Returns(doc, e.state, p);
      var hops := ChainIsRunners(doc, p, final);
      ReturnIsUnsound(doc, final, bound, i, hops);
    }
  }

  // ---------- A machine that passes the audit and returns ----------

  const REENTERED: Document :=
    [Send("q", "quiet", NoExpr, Some(Duration(5))),
     Transition("q", "quiet", ["f"]),
     Transition("q", "leave", ["r"]),
     Transition("r", "back", ["q"])]

  lemma ReenteredEvents()
    ensures WindowEvents(REENTERED) == {"quiet"} && Disciplined(REENTERED)
  {
    assert IsWindow(REENTERED[0]);
  }

  lemma ReenteredSecured()
    ensures Secured(REENTERED, "f", 5)
  {
    ReenteredEvents();
    assert Reaches(REENTERED[1], "f");
    assert SecuredBy(REENTERED, REENTERED[1], 5);
  }

  /** The machine passes the audit. */
  lemma ReenteredIsClean()
    ensures Clean(REENTERED, map["f" := Verdict(Fail, ObservedQuiescence)], map["f" := Literal(5)], 0)
  {
    ReenteredSecured();
    SecuredInParts(REENTERED, "f", 5);
    ForeignsAreNone(REENTERED, "f");
  }

  /** And yet some run of it, with a runner that keeps off its timer, decides before the bound has passed. */
  lemma ReentryShortensTheWindow()
    ensures Disciplined(REENTERED) && !SoundFor(REENTERED, "f", 5)
  {
    ReenteredEvents();
    ReenteredSecured();
    var hops: seq<(nat, Id)> := [(2, "r"), (3, "q")];
    var rest: seq<(nat, Id)> := [(3, "q")];
    assert hops[1..] == rest && |rest[1..]| == 0;
    assert RunnerChain(REENTERED, "r", rest);
    assert RunnerChain(REENTERED, "q", hops);
    ReturnIsUnsound(REENTERED, "f", 5, 1, hops);
  }
}
