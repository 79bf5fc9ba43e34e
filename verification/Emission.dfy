/**
 When event sources fire: trigger-gated sources by the default policy, free-running ones by the controller. A source is
 looked at only when it is polled, at times the environment chooses, so every bound holds for any polling schedule.
 Times and durations are nanoseconds.
 */
module Emission {
  import opened Wrappers

  type uint8 = x: int | 0 <= x < 256

  // ---------- The default trigger policy ----------

  datatype Arm = Arm(next: int, end: int, period: int)

  function NewArm(now: int, start: int, duration: int, period: int): Arm {
    Arm(now + start, now + start + duration, period)
  }

  /** The arm after a beat at `now`: gone after a single shot or at the end of its window; otherwise one period on, or one
      period from now after a stall. */
  function Advance(arm: Arm, now: int): Option<Arm> {
    if arm.period <= 0 || now >= arm.end then None
    else if arm.next + arm.period <= now then Some(arm.(next := now + arm.period))
    else Some(arm.(next := arm.next + arm.period))
  }

  predicate IsDue(arms: map<string, Arm>, source: string, now: int) {
    source in arms && arms[source].next <= now
  }

  /** Every due arm advanced or dropped, every other untouched. */
  function AfterDue(arms: map<string, Arm>, now: int): map<string, Arm> {
    map k | k in arms && (IsDue(arms, k, now) ==> Advance(arms[k], now).Some?)
      :: if IsDue(arms, k, now) then Advance(arms[k], now).value else arms[k]
  }

  predicate Distinct(names: seq<string>) {
    forall i, j | 0 <= i < j < |names| :: names[i] != names[j]
  }

  class DefaultTriggerPolicy {
    var arms: map<string, Arm>

    constructor ()
      ensures arms == map[]
    {
      arms := map[];
    }

    method OnTrigger(source: string, now: int, start: int, duration: int, period: int)
      modifies this
      ensures arms == old(arms)[source := NewArm(now, start, duration, period)]
    {
      var fireStart := now + start;
      arms := arms[source := Arm(fireStart, fireStart + duration, period)];
    }

    /** The sources due, each once and in no particular order; their arms move on. */
    method Due(now: int) returns (ready: seq<string>)
      modifies this
      ensures IsDueList(ready, old(arms), now)
      ensures arms == AfterDue(old(arms), now)
    {
      ready := [];
      var todo := arms.Keys;
      while todo != {}
        invariant todo <= old(arms).Keys
        invariant Distinct(ready)
        invariant forall k :: k in ready <==> k !in todo && IsDue(old(arms), k, now)
        invariant forall k :: k in arms <==> k in old(arms) && (k in todo || k in AfterDue(old(arms), now))
        invariant forall k | k in arms :: arms[k] == if k in todo then old(arms)[k] else AfterDue(old(arms), now)[k]
        decreases |todo|
      {
        var k :| k in todo;
        todo := todo - {k};
        var arm := arms[k];
        if now >= arm.next {
          ready := ready + [k];
          if arm.period <= 0 || now >= arm.end {
            arms := arms - {k};
          } else {
            var next := arm.next + arm.period;
            if next <= now {
              next := now + arm.period;
            }
            arms := arms[k := arm.(next := next)];
          }
        }
      }
    }
  }

  // ---------- Any history of triggers and polls ----------

  datatype Op = Trigger(source: string, now: int, start: int, duration: int, period: int) | Poll(at: int)

  function Arms(ops: seq<Op>): map<string, Arm> {
    if ops == [] then map[]
    else
      match ops[|ops| - 1]
      case Trigger(source, now, start, duration, period) => Arms(ops[..|ops| - 1])[source := NewArm(now, start, duration, period)]
      case Poll(at) => AfterDue(Arms(ops[..|ops| - 1]), at)
  }

  /** The latest trigger of a source. */
  function LastTrigger(ops: seq<Op>, source: string): Option<Op> {
    if ops == [] then None
    else if ops[|ops| - 1].Trigger? && ops[|ops| - 1].source == source then Some(ops[|ops| - 1])
    else LastTrigger(ops[..|ops| - 1], source)
  }

  /** How often a source has fired since it was last triggered; since the beginning if it never was. */
  function Fires(ops: seq<Op>, source: string): nat {
    if ops == [] then 0
    else
      match ops[|ops| - 1]
      case Trigger(k, _, _, _, _) => if k == source then 0 else Fires(ops[..|ops| - 1], source)
      case Poll(at) => Fires(ops[..|ops| - 1], source) + if IsDue(Arms(ops[..|ops| - 1]), source, at) then 1 else 0
  }

  /** What an arm remembers of its trigger: beat n is scheduled no sooner than n periods in, and every beat but the last
      was scheduled inside the window. */
  predicate Remembers(arms: map<string, Arm>, source: string, t: Op, fires: nat)
    requires t.Trigger?
  {
    var first := t.now + t.start;
    if source in arms then
      && arms[source].period == t.period && arms[source].end == first + t.duration
      && arms[source].next >= first + fires * t.period
      && (fires > 0 ==> t.period > 0 && (fires - 1) * t.period < t.duration)
    else
      fires > 0 && (fires > 1 ==> t.period > 0 && (fires - 2) * t.period < t.duration)
  }

  lemma PollRemembers(arms: map<string, Arm>, source: string, t: Op, fires: nat, at: int)
    requires t.Trigger? && Remembers(arms, source, t, fires)
    ensures Remembers(AfterDue(arms, at), source, t, fires + if IsDue(arms, source, at) then 1 else 0)
  {
    assert (fires + 1) * t.period == fires * t.period + t.period;
  }

  lemma {:induction false} HistoryRemembers(ops: seq<Op>, source: string)
    ensures match LastTrigger(ops, source)
      case None => source !in Arms(ops) && Fires(ops, source) == 0
      case Some(t) => t.Trigger? && Remembers(Arms(ops), source, t, Fires(ops, source))
  {
    if ops != [] {
      var was, op := ops[..|ops| - 1], ops[|ops| - 1];
      HistoryRemembers(was, source);
      if op.Poll? && LastTrigger(was, source).Some? {
        PollRemembers(Arms(was), source, LastTrigger(was, source).value, Fires(was, source), op.at);
      }
    }
  }

  /** A source that was never triggered never fires. */
  lemma NeverTriggeredNeverFires(ops: seq<Op>, source: string)
    requires LastTrigger(ops, source) == None
    ensures Fires(ops, source) == 0
  {
    HistoryRemembers(ops, source);
  }

  // ---------- When a source does fire ----------

  /** The poll that last made a source fire since it was last triggered. */
  function LastFire(ops: seq<Op>, source: string): Option<int> {
    if ops == [] then None
    else
      match ops[|ops| - 1]
      case Trigger(k, _, _, _, _) => if k == source then None else LastFire(ops[..|ops| - 1], source)
      case Poll(at) => if IsDue(Arms(ops[..|ops| - 1]), source, at) then Some(at) else LastFire(ops[..|ops| - 1], source)
  }

  /** An arm waits for the start of its window until it first fires. Afterwards there is one exactly while the source
      repeats and its last beat fell inside the window, and it is due after that beat but at most a period after it. */
  predicate Waits(arms: map<string, Arm>, source: string, t: Op, last: Option<int>)
    requires t.Trigger?
  {
    var end := t.now + t.start + t.duration;
    match last
    case None => source in arms && arms[source] == Arm(t.now + t.start, end, t.period)
    case Some(beat) =>
      && (source in arms <==> t.period > 0 && beat < end)
      && (source in arms ==> arms[source].end == end && arms[source].period == t.period && beat < arms[source].next <= beat + t.period)
  }

  lemma {:induction false} HistoryWaits(ops: seq<Op>, source: string)
    requires LastTrigger(ops, source).Some?
    ensures LastTrigger(ops, source).value.Trigger?
    ensures Waits(Arms(ops), source, LastTrigger(ops, source).value, LastFire(ops, source))
  {
    var was, op := ops[..|ops| - 1], ops[|ops| - 1];
    if !(op.Trigger? && op.source == source) {
      HistoryWaits(was, source);
    }
  }

  /** A triggered source fires at the first poll at or after the start of its window. After a beat it is silent for good if
      it does not repeat or that beat came at the end of the window or later; otherwise it fires again at the first poll a
      period or more after that beat at the latest, and not before another instant has come. */
  lemma FiresWhenPolled(ops: seq<Op>, source: string, at: int)
    requires LastTrigger(ops, source).Some?
    ensures LastTrigger(ops, source).value.Trigger?
    ensures var t, end := LastTrigger(ops, source).value, LastTrigger(ops, source).value.now + LastTrigger(ops, source).value.start + LastTrigger(ops, source).value.duration;
      match LastFire(ops, source)
      case None => IsDue(Arms(ops), source, at) <==> at >= t.now + t.start
      case Some(beat) =>
        && (t.period <= 0 || beat >= end ==> !IsDue(Arms(ops), source, at))
        && (t.period > 0 && beat < end && at >= beat + t.period ==> IsDue(Arms(ops), source, at))
        && (IsDue(Arms(ops), source, at) ==> at > beat)
  {
    HistoryWaits(ops, source);
  }

  function CeilDiv(a: int, b: int): int
    requires b > 0
  {
    (a + b - 1) / b
  }

  /** Per trigger, whatever the polling: at most one beat for a period that is not positive or a window that is not open,
      and otherwise at most one more than the number of periods begun in the window. */
  lemma FiresAreBounded(ops: seq<Op>, source: string)
    requires LastTrigger(ops, source).Some?
    ensures var t := LastTrigger(ops, source).value;
      && t.Trigger?
      && (t.period <= 0 || t.duration <= 0 ==> Fires(ops, source) <= 1)
      && (t.period > 0 && t.duration > 0 ==> Fires(ops, source) <= CeilDiv(t.duration, t.period) + 1)
  {
    HistoryRemembers(ops, source);
    var t, n := LastTrigger(ops, source).value, Fires(ops, source);
    if t.period > 0 && t.duration > 0 && n >= 2 {
      assert (n - 1) * t.period == (n - 2) * t.period + t.period;
      BelowCeil(n - 2, t.duration, t.period);
    }
  }

  lemma BelowCeil(n: nat, a: int, b: int)
    requires b > 0 && n * b < a
    ensures n + 1 <= CeilDiv(a, b)
  {
    var q := CeilDiv(a, b);
    assert a <= q * b;
    if q <= n {
      ProductMonotone(q, n, b);
    }
  }

  lemma ProductMonotone(x: int, y: int, b: int)
    requires x <= y && b > 0
    ensures x * b <= y * b
  {}

  // ---------- Free-running sources and the controller ----------

  datatype Cyclic = Cyclic(name: string, period: int, next: int, primed: bool, counter: uint8)

  /** One pass over a free-running source: the first schedules its first beat a period out, a later one fires if the beat
      has come. */
  function Pass(c: Cyclic, now: int): Cyclic {
    if !c.primed then c.(next := now + c.period, primed := true)
    else if now < c.next then c
    else c.(counter := Bump(c.counter), next := if c.next + c.period <= now then now + c.period else c.next + c.period)
  }

  function Bump(counter: uint8): uint8 {
    (counter + 1) % 256
  }

  predicate Beats(c: Cyclic, now: int) {
    c.primed && c.next <= now
  }

  /** The source after polls at these times. */
  function PassAll(c: Cyclic, polls: seq<int>): Cyclic {
    if polls == [] then c else Pass(PassAll(c, polls[..|polls| - 1]), polls[|polls| - 1])
  }

  function BeatCount(c: Cyclic, polls: seq<int>): nat {
    if polls == [] then 0
    else BeatCount(c, polls[..|polls| - 1]) + if Beats(PassAll(c, polls[..|polls| - 1]), polls[|polls| - 1]) then 1 else 0
  }

  /** No poll finds the source a full period late. */
  predicate NeverAPeriodLate(c: Cyclic, polls: seq<int>) {
    polls != [] ==>
      var before := PassAll(c, polls[..|polls| - 1]);
      NeverAPeriodLate(c, polls[..|polls| - 1]) && (before.primed ==> polls[|polls| - 1] < before.next + c.period)
  }

  /** After n beats the payload byte is n modulo 256, and beat n + 1 is scheduled n + 1 periods after the priming poll or
      later, exactly then if no poll ever came a full period late. */
  lemma {:induction false} BeatsKeepTime(c: Cyclic, polls: seq<int>)
    requires !c.primed && c.counter == 0 && c.period > 0 && polls != []
    ensures var s, n := PassAll(c, polls), BeatCount(c, polls);
      && s.primed && s.period == c.period && s.counter == n % 256
      && s.next >= polls[0] + (n + 1) * c.period
      && (NeverAPeriodLate(c, polls) ==> s.next == polls[0] + (n + 1) * c.period)
  {
    var was, at := polls[..|polls| - 1], polls[|polls| - 1];
    if was == [] {
      assert PassAll(c, was) == c;
    } else {
      BeatsKeepTime(c, was);
      var s, n := PassAll(c, was), BeatCount(c, was);
      PassKeepsTime(s, at, n, polls[0] + (n + 1) * c.period);
      assert (n + 2) * c.period == (n + 1) * c.period + c.period;
    }
  }

  lemma PassKeepsTime(s: Cyclic, at: int, n: nat, due: int)
    requires s.primed && s.counter == n % 256 && s.next >= due
    ensures var r := Pass(s, at);
      && r.primed && r.period == s.period
      && (!Beats(s, at) ==> r == s)
      && (Beats(s, at) ==> r.counter == (n + 1) % 256 && r.next >= due + s.period)
      && (Beats(s, at) && s.next == due && at < s.next + s.period ==> r.next == due + s.period)
  {}

  /** Without lateness the n-th beat (counted from one) is sent at the first poll at or after prime + n periods, and less
      than a period after it. */
  lemma BeatIsOnTime(c: Cyclic, polls: seq<int>, at: int)
    requires !c.primed && c.counter == 0 && c.period > 0 && polls != []
    requires NeverAPeriodLate(c, polls + [at])
    ensures var n := BeatCount(c, polls) + 1;
      && (Beats(PassAll(c, polls), at) <==> at >= polls[0] + n * c.period)
      && at < polls[0] + n * c.period + c.period
  {
    assert (polls + [at])[..|polls|] == polls;
    BeatsKeepTime(c, polls);
  }

  datatype Emitted = Emitted(name: string, payload: uint8)

  function CyclicEmissions(cyclic: seq<Cyclic>, now: int): seq<Emitted> {
    if cyclic == [] then []
    else
      var c := cyclic[|cyclic| - 1];
      CyclicEmissions(cyclic[..|cyclic| - 1], now) + if Beats(c, now) then [Emitted(c.name, c.counter)] else []
  }

  /** The payloads of the due sources the controller knows; a name without a source is skipped. */
  function TriggeredEmissions(triggered: map<string, uint8>, ready: seq<string>): seq<Emitted> {
    if ready == [] then []
    else
      var k := ready[|ready| - 1];
      TriggeredEmissions(triggered, ready[..|ready| - 1]) + if k in triggered then [Emitted(k, triggered[k])] else []
  }

  ghost predicate IsDueList(ready: seq<string>, arms: map<string, Arm>, now: int) {
    Distinct(ready) && forall k :: k in ready <==> IsDue(arms, k, now)
  }

  /** Each counter moves by one exactly when its source was due. */
  predicate Counted(before: map<string, uint8>, after: map<string, uint8>, ready: seq<string>) {
    && after.Keys == before.Keys
    && forall k | k in before :: after[k] == if k in ready then Bump(before[k]) else before[k]
  }

  class EmissionController {
    var cyclic: seq<Cyclic>
    var triggered: map<string, uint8>
    var emitted: seq<Emitted>
    const policy: DefaultTriggerPolicy

    constructor (cyclic: seq<Cyclic>, triggered: map<string, uint8>)
      ensures this.cyclic == cyclic && this.triggered == triggered && emitted == [] && policy.arms == map[]
      ensures fresh(policy)
    {
      this.cyclic, this.triggered, emitted := cyclic, triggered, [];
      policy := new DefaultTriggerPolicy();
    }

    /** The free-running half of a scheduling pass. */
    method StepCyclic(now: int)
      modifies this
      ensures |cyclic| == |old(cyclic)| && forall i | 0 <= i < |cyclic| :: cyclic[i] == Pass(old(cyclic)[i], now)
      ensures emitted == old(emitted) + CyclicEmissions(old(cyclic), now)
      ensures triggered == old(triggered)
    {
      var i := 0;
      while i < |cyclic|
        invariant 0 <= i <= |cyclic| == |old(cyclic)|
        invariant forall j | 0 <= j < |cyclic| :: cyclic[j] == if j < i then Pass(old(cyclic)[j], now) else old(cyclic)[j]
        invariant emitted == old(emitted) + CyclicEmissions(old(cyclic)[..i], now)
        invariant triggered == old(triggered)
      {
        var c := cyclic[i];
        assert old(cyclic)[..i + 1][..i] == old(cyclic)[..i];
        if !c.primed {
          cyclic := cyclic[i := c.(next := now + c.period, primed := true)];
        } else if now >= c.next {
          emitted := emitted + [Emitted(c.name, c.counter)];
          var next := c.next + c.period;
          if next <= now {
            next := now + c.period;
          }
          cyclic := cyclic[i := c.(counter := Bump(c.counter), next := next)];
        }
        i := i + 1;
      }
      assert old(cyclic)[..i] == old(cyclic);
    }

    /** The trigger-gated half: every due source the controller knows fires once with its own counter. */
    method StepTriggered(ready: seq<string>)
      requires Distinct(ready)
      modifies this
      ensures Counted(old(triggered), triggered, ready) && cyclic == old(cyclic)
      ensures emitted == old(emitted) + TriggeredEmissions(old(triggered), ready)
    {
      var i := 0;
      while i < |ready|
        invariant 0 <= i <= |ready|
        invariant Counted(old(triggered), triggered, ready[..i]) && cyclic == old(cyclic)
        invariant emitted == old(emitted) + TriggeredEmissions(old(triggered), ready[..i])
      {
        var k := ready[i];
        assert ready[..i + 1][..i] == ready[..i];
        assert k !in ready[..i];
        if k in triggered {
          emitted := emitted + [Emitted(k, triggered[k])];
          triggered := triggered[k := Bump(triggered[k])];
        }
        i := i + 1;
      }
      assert ready[..i] == ready;
    }

    method Step(now: int)
      modifies this, policy
      ensures |cyclic| == |old(cyclic)| && forall i | 0 <= i < |cyclic| :: cyclic[i] == Pass(old(cyclic)[i], now)
      ensures policy.arms == AfterDue(old(policy.arms), now)
      ensures exists ready: seq<string> ::
        && IsDueList(ready, old(policy.arms), now)
        && Counted(old(triggered), triggered, ready)
        && emitted == old(emitted) + CyclicEmissions(old(cyclic), now) + TriggeredEmissions(old(triggered), ready)
    {
      StepCyclic(now);
      var ready := policy.Due(now);
      StepTriggered(ready);
      assert IsDueList(ready, old(policy.arms), now);
    }
  }
}
