/**
 Timed runs of a flat machine, and what a clean quiescence audit says about them. Entering a state arms its sends; a
 timer goes off some time after it is due, whatever state is then active, because leaving a state cancels nothing; the
 runner may raise events of its own at any time, and the empty event stands for a transition that needs none. Guards are
 not modelled: an event may or may not be acted upon.
 */
module QuiescenceRuns {
  import opened Wrappers
  import opened QuiescenceAudit

  // ---------- Runs ----------

  datatype Visit = Visit(state: Id, at: int)

  datatype Timer = Timer(event: string, origin: Id, armed: int, due: int)

  /** The states entered so far, the last of them active, and the timers still running. */
  datatype Config = Config(now: int, visits: seq<Visit>, timers: seq<Timer>)

  /** The timer that a send in the state arms on entry at `at`. A delay that cannot be read may be anything. */
  predicate Arms(e: Element, t: Timer, at: int) {
    && e.Send? && t.event == e.event && t.origin == e.state && t.armed == at && t.due >= at
    && (WindowLength(e).Some? ==> t.due == at + WindowLength(e).value)
    && (!IsWindow(e) ==> t.due == at)
  }

  function SendsOf(doc: Document, state: Id): seq<Element> {
    if doc == [] then []
    else (if doc[0].Send? && doc[0].state == state then [doc[0]] else []) + SendsOf(doc[1..], state)
  }

  predicate Armed(doc: Document, state: Id, at: int, timers: seq<Timer>) {
    var sends := SendsOf(doc, state);
    |timers| == |sends| && forall k | 0 <= k < |sends| :: Arms(sends[k], timers[k], at)
  }

  ghost predicate Init(doc: Document, c: Config) {
    |c.visits| == 1 && c.visits[0].at == c.now && Armed(doc, c.visits[0].state, c.now, c.timers)
  }

  datatype Cause = Expiry(k: nat) | Runner(event: string)

  /** What happens at an instant: an event, and the transition it takes, if any. */
  datatype Happening = Happening(at: int, cause: Cause, taken: Option<(nat, Id)>)

  predicate Possible(c: Config, step: Happening) {
    && c.now <= step.at && c.visits != []
    && (step.cause.Expiry? ==> step.cause.k < |c.timers| && c.timers[step.cause.k].due <= step.at)
  }

  function EventOf(c: Config, step: Happening): string
    requires Possible(c, step)
  {
    match step.cause
    case Expiry(k) => c.timers[k].event
    case Runner(event) => event
  }

  /** The timers left over by the event. */
  function Left(c: Config, step: Happening): seq<Timer>
    requires Possible(c, step)
  {
    match step.cause
    case Expiry(k) => c.timers[..k] + c.timers[k + 1..]
    case Runner(_) => c.timers
  }

  predicate Next(doc: Document, c: Config, c': Config, step: Happening) {
    && Possible(c, step) && c'.now == step.at
    && match step.taken
       case None => c'.visits == c.visits && c'.timers == Left(c, step)
       case Some((i, target)) =>
         && i < |doc| && Reaches(doc[i], target)
         && doc[i].state == c.visits[|c.visits| - 1].state
         && doc[i].event == EventOf(c, step)
         && c'.visits == c.visits + [Visit(target, step.at)]
         && Left(c, step) <= c'.timers
         && Armed(doc, target, step.at, c'.timers[|Left(c, step)|..])
  }

  ghost predicate IsRun(doc: Document, run: seq<Config>, steps: seq<Happening>) {
    && |run| == |steps| + 1 && Init(doc, run[0])
    && forall i {:trigger steps[i]} | 0 <= i < |steps| :: Next(doc, run[i], run[i + 1], steps[i])
  }

  // ---------- The discipline the audit presupposes ----------

  /** A delayed send names its event, and an event that some send delays is delayed by every send of it. */
  predicate Disciplined(doc: Document) {
    && "" !in WindowEvents(doc)
    && forall i | 0 <= i < |doc| :: doc[i].Send? && doc[i].event in WindowEvents(doc) ==> IsWindow(doc[i])
  }

  /** The runner never raises an event the machine uses as a window timer. */
  predicate KeepsOff(doc: Document, steps: seq<Happening>) {
    forall i {:trigger steps[i]} | 0 <= i < |steps| :: StepKeepsOff(doc, steps[i])
  }

  predicate StepKeepsOff(doc: Document, step: Happening) {
    step.cause.Runner? ==> step.cause.event !in WindowEvents(doc)
  }

  /** The state of visit k had not been visited before. */
  predicate FirstVisit(visits: seq<Visit>, k: nat)
    requires k < |visits|
  {
    forall i | 0 <= i < k :: visits[i].state != visits[k].state
  }

  // ---------- Soundness ----------

  /** Every running timer was armed by a send of a state that was entered at that very time. */
  predicate TimersSound(doc: Document, c: Config) {
    forall t <- c.timers :: Visit(t.origin, t.armed) in c.visits && exists e <- doc :: Arms(e, t, t.armed)
  }

  /** Whenever the final was entered from a state on its first visit, that state had been active for the bound. */
  predicate Observed(visits: seq<Visit>, final: Id, bound: nat) {
    forall k | 0 < k < |visits| :: visits[k].state == final && FirstVisit(visits, k - 1) ==> visits[k].at - visits[k - 1].at >= bound
  }

  lemma {:induction false} SendsOfAreSends(doc: Document, state: Id, k: nat)
    requires k < |SendsOf(doc, state)|
    ensures SendsOf(doc, state)[k] in doc && SendsOf(doc, state)[k].Send? && SendsOf(doc, state)[k].state == state
  {
    var here: seq<Element> := if doc[0].Send? && doc[0].state == state then [doc[0]] else [];
    if k >= |here| {
      SendsOfAreSends(doc[1..], state, k - |here|);
    }
  }

  lemma ArmedAreSound(doc: Document, state: Id, at: int, timers: seq<Timer>, t: Timer)
    requires Armed(doc, state, at, timers) && t in timers
    ensures t.origin == state && t.armed == at && exists e <- doc :: Arms(e, t, t.armed)
  {
    var k :| 0 <= k < |timers| && timers[k] == t;
    SendsOfAreSends(doc, state, k);
    assert Arms(SendsOf(doc, state)[k], t, at);
  }

  lemma StepTimersSound(doc: Document, c: Config, c': Config, step: Happening)
    requires TimersSound(doc, c) && Next(doc, c, c', step)
    ensures TimersSound(doc, c')
  {
    forall t | t in c'.timers ensures Visit(t.origin, t.armed) in c'.visits && exists e <- doc :: Arms(e, t, t.armed) {
      if t !in Left(c, step) {
        var n := |Left(c, step)|;
        assert c'.timers == Left(c, step) + c'.timers[n..];
        ArmedAreSound(doc, step.taken.value.1, step.at, c'.timers[n..], t);
        assert c'.visits[|c.visits|] == Visit(t.origin, t.armed);
      } else {
        assert t in c.timers;
      }
    }
  }

  /** The heart of the matter: a timer that takes the machine into a secured final was armed by the active state when it
      was entered, and ran for at least the bound. */
  lemma DecidingTimerIsOwn(doc: Document, c: Config, t: Timer, i: nat, final: Id, bound: nat)
    requires TimersSound(doc, c) && Disciplined(doc) && Secured(doc, final, bound)
    requires t in c.timers && c.visits != [] && FirstVisit(c.visits, |c.visits| - 1)
    requires i < |doc| && Reaches(doc[i], final) && doc[i].event == t.event
    requires doc[i].state == c.visits[|c.visits| - 1].state
    ensures t.due >= c.visits[|c.visits| - 1].at + bound
  {
    assert SecuredBy(doc, doc[i], bound);
    var e :| e in doc && Arms(e, t, t.armed);
    var k :| 0 <= k < |doc| && doc[k] == e;
    assert IsWindow(doc[k]);
    assert LongEnough(WindowLength(doc[k]), bound);
    assert IsTimer(doc[k]);
    assert t.origin == doc[i].state;
    assert Visit(t.origin, t.armed) in c.visits;
  }

  /** Adding a visit to the final is all that can break `Observed`. */
  lemma ObservedSnoc(visits: seq<Visit>, v: Visit, final: Id, bound: nat)
    requires Observed(visits, final, bound) && visits != []
    requires v.state == final && FirstVisit(visits, |visits| - 1) ==> v.at - visits[|visits| - 1].at >= bound
    ensures Observed(visits + [v], final, bound)
  {
    var more := visits + [v];
    forall k | 0 < k < |more| && more[k].state == final && FirstVisit(more, k - 1) ensures more[k].at - more[k - 1].at >= bound {
      assert FirstVisit(visits, k - 1) by {
        forall i | 0 <= i < k - 1 ensures visits[i].state != visits[k - 1].state {
          assert more[i].state != more[k - 1].state;
        }
      }
    }
  }

  lemma StepObserved(doc: Document, c: Config, c': Config, step: Happening, final: Id, bound: nat)
    requires TimersSound(doc, c) && Observed(c.visits, final, bound) && Next(doc, c, c', step)
    requires Disciplined(doc) && StepKeepsOff(doc, step) && Secured(doc, final, bound)
    ensures Observed(c'.visits, final, bound)
  {
    if step.taken.Some? {
      var (i, target) := step.taken.value;
      if target == final && FirstVisit(c.visits, |c.visits| - 1) {
        assert SecuredBy(doc, doc[i], bound);
        DecidingTimerIsOwn(doc, c, c.timers[step.cause.k], i, final, bound);
      }
      ObservedSnoc(c.visits, Visit(target, step.at), final, bound);
    }
  }

  lemma InitSound(doc: Document, c: Config)
    requires Init(doc, c)
    ensures TimersSound(doc, c)
  {
    forall t | t in c.timers ensures Visit(t.origin, t.armed) in c.visits && exists e <- doc :: Arms(e, t, t.armed) {
      ArmedAreSound(doc, c.visits[0].state, c.now, c.timers, t);
      assert c.visits[0] == Visit(t.origin, t.armed);
    }
  }

  predicate Good(doc: Document, c: Config, final: Id, bound: nat) {
    TimersSound(doc, c) && Observed(c.visits, final, bound)
  }

  /** What is presupposed of the machine. */
  predicate Fit(doc: Document, final: Id, bound: nat) {
    Disciplined(doc) && Secured(doc, final, bound)
  }

  lemma StepGood(doc: Document, c: Config, c': Config, step: Happening, final: Id, bound: nat)
    requires Good(doc, c, final, bound) && Next(doc, c, c', step)
    requires Fit(doc, final, bound) && StepKeepsOff(doc, step)
    ensures Good(doc, c', final, bound)
  {
    StepTimersSound(doc, c, c', step);
    StepObserved(doc, c, c', step, final, bound);
  }

  lemma InitGood(doc: Document, c: Config, final: Id, bound: nat)
    requires Init(doc, c)
    ensures Good(doc, c, final, bound)
  {
    InitSound(doc, c);
  }

  lemma RunStep(doc: Document, run: seq<Config>, steps: seq<Happening>, n: nat)
    requires IsRun(doc, run, steps) && n < |steps|
    ensures Next(doc, run[n], run[n + 1], steps[n])
  {}

  lemma GoodStep(doc: Document, run: seq<Config>, steps: seq<Happening>, n: nat, final: Id, bound: nat)
    requires IsRun(doc, run, steps) && n < |steps| && Fit(doc, final, bound) && KeepsOff(doc, steps) && Good(doc, run[n], final, bound)
    ensures Good(doc, run[n + 1], final, bound)
  {
    RunStep(doc, run, steps, n);
    StepGood(doc, run[n], run[n + 1], steps[n], final, bound);
  }

  lemma {:induction false} Throughout(run: seq<Config>, good: iset<Config>, n: nat)
    requires n < |run| && run[0] in good
    requires forall i | 0 < i < |run| && run[i - 1] in good :: run[i] in good
    ensures run[n] in good
  {
    if n > 0 {
      Throughout(run, good, n - 1);
    }
  }

  lemma RunGood(doc: Document, run: seq<Config>, steps: seq<Happening>, n: nat, final: Id, bound: nat)
    requires IsRun(doc, run, steps) && n < |run| && Fit(doc, final, bound) && KeepsOff(doc, steps)
    ensures Good(doc, run[n], final, bound)
  {
    var good := iset c: Config | Good(doc, c, final, bound);
    InitGood(doc, run[0], final, bound);
    forall i | 0 < i < |run| && run[i - 1] in good ensures run[i] in good {
      GoodStep(doc, run, steps, i - 1, final, bound);
    }
    Throughout(run, good, n);
  }

  /** Soundness of the audit: if it finds nothing, then in every run of a disciplined machine an `observed_quiescence`
      final that is reached from a state on its first visit is reached only after that state had been active for the
      declared bound. */
  lemma CleanAuditIsSound(doc: Document, done: map<Id, Verdict>, bounds: map<Id, Bound>, listen: nat,
                          run: seq<Config>, steps: seq<Happening>, n: nat, k: nat)
    requires Clean(doc, done, bounds, listen) && Disciplined(doc)
    requires IsRun(doc, run, steps) && KeepsOff(doc, steps) && n < |run|
    requires 0 < k < |run[n].visits| && FirstVisit(run[n].visits, k - 1)
    requires run[n].visits[k].state in done && done[run[n].visits[k].state].role == ObservedQuiescence
    ensures var final, stay := run[n].visits[k].state, run[n].visits[k].at - run[n].visits[k - 1].at;
      && final in bounds && bounds[final] != Unparseable
      && (bounds[final] == ListenTime ==> stay >= listen)
      && (bounds[final].Literal? ==> stay >= bounds[final].us)
  {
    var final := run[n].visits[k].state;
    RunGood(doc, run, steps, n, final, Resolve(bounds[final], listen).value);
  }
}
