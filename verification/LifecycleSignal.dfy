/**
 The cross-thread lifecycle channel: `Post` queues an event and then raises the waker, `Drain` lowers the waker and then
 takes the queue, and the dispatcher turns a drained batch into extension hooks.
 */
module LifecycleSignal {

  datatype Event = Suspend | Reactivate
  datatype Hook = OnSuspend | OnReactivate

  function HookOf(e: Event): Hook {
    match e
    case Suspend => OnSuspend
    case Reactivate => OnReactivate
  }

  function HooksOf(events: seq<Event>): seq<Hook> {
    seq(|events|, i requires 0 <= i < |events| => HookOf(events[i]))
  }

  class Channel {
    var pending: seq<Event>
    var raised: bool

    constructor ()
      ensures pending == [] && !raised
    {
      pending, raised := [], false;
    }

    method Post(e: Event)
      modifies this
      ensures pending == old(pending) + [e] && raised
    {
      pending := pending + [e];
      raised := true;
    }

    method Drain() returns (batch: seq<Event>)
      modifies this
      ensures batch == old(pending) && pending == [] && !raised
    {
      raised := false;
      batch, pending := pending, [];
    }
  }

  class Dispatcher {
    const channel: Channel
    var hooks: seq<Hook>

    constructor (channel: Channel)
      ensures this.channel == channel && hooks == []
    {
      this.channel, hooks := channel, [];
    }

    /** Run the hooks of everything posted since the last call, in posting order. */
    method OnReadable()
      modifies this, channel
      ensures hooks == old(hooks) + HooksOf(old(channel.pending))
      ensures channel.pending == [] && !channel.raised
    {
      var batch := channel.Drain();
      var i := 0;
      while i < |batch|
        invariant 0 <= i <= |batch|
        invariant hooks == old(hooks) + HooksOf(batch[..i])
        invariant channel.pending == [] && !channel.raised
      {
        assert HooksOf(batch[..i + 1]) == HooksOf(batch[..i]) + [HookOf(batch[i])];
        match batch[i] {
          case Suspend => hooks := hooks + [OnSuspend];
          case Reactivate => hooks := hooks + [OnReactivate];
        }
        i := i + 1;
      }
      assert batch[..i] == batch;
    }
  }

  // ---------- Any number of producers against one consumer ----------

  /** A producer has events left to post, and may stand between queueing one and raising the waker. */
  datatype Producer = Producer(todo: seq<Event>, between: bool)

  /** The consumer polls, has lowered the waker and not yet taken the queue, or is working through a batch. */
  datatype Consumer = Polling | Lowered | Dispatching(batch: seq<Event>)

  /** `posted` is every event queued so far, in the order in which the lock was taken. */
  datatype State = State(producers: seq<Producer>, pending: seq<Event>, raised: bool, consumer: Consumer, posted: seq<Event>, hooks: seq<Hook>)

  predicate Init(s: State) {
    && (forall i | 0 <= i < |s.producers| :: !s.producers[i].between)
    && s.pending == [] && !s.raised && s.consumer == Polling && s.posted == [] && s.hooks == []
  }

  datatype Step = Enqueue(i: nat) | Raise(i: nat) | Wake | Take | Dispatch

  predicate Enabled(s: State, step: Step) {
    match step
    case Enqueue(i) => i < |s.producers| && s.producers[i].todo != [] && !s.producers[i].between
    case Raise(i) => i < |s.producers| && s.producers[i].between
    case Wake => s.consumer == Polling && s.raised
    case Take => s.consumer == Lowered
    case Dispatch => s.consumer.Dispatching?
  }

  function Apply(s: State, step: Step): State
    requires Enabled(s, step)
  {
    match step
    case Enqueue(i) =>
      var e := s.producers[i].todo[0];
      s.(producers := s.producers[i := Producer(s.producers[i].todo[1..], true)], pending := s.pending + [e], posted := s.posted + [e])
    case Raise(i) => s.(producers := s.producers[i := s.producers[i].(between := false)], raised := true)
    case Wake => s.(raised := false, consumer := Lowered)
    case Take => s.(pending := [], consumer := Dispatching(s.pending))
    case Dispatch =>
      if s.consumer.batch == [] then s.(consumer := Polling)
      else s.(consumer := Dispatching(s.consumer.batch[1..]), hooks := s.hooks + [HookOf(s.consumer.batch[0])])
  }

  function BatchOf(c: Consumer): seq<Event> {
    if c.Dispatching? then c.batch else []
  }

  predicate SomeoneBetween(s: State) {
    exists i | 0 <= i < |s.producers| :: s.producers[i].between
  }

  /** Lossless and in order: the hooks run are those of the first events posted; the rest are in the batch, then the queue. */
  predicate InOrder(s: State) {
    && |s.hooks| <= |s.posted|
    && s.hooks == HooksOf(s.posted[..|s.hooks|])
    && s.posted[|s.hooks|..] == BatchOf(s.consumer) + s.pending
  }

  /** A queue with something in it is on its way out: the waker is raised, about to be, or the consumer about to take it. */
  predicate WakeupKept(s: State) {
    s.pending != [] ==> s.raised || SomeoneBetween(s) || s.consumer == Lowered
  }

  lemma DispatchInOrder(s: State)
    requires InOrder(s) && s.consumer.Dispatching? && s.consumer.batch != []
    ensures InOrder(Apply(s, Dispatch))
  {
    var n, rest := |s.hooks|, s.posted[|s.hooks|..];
    assert rest[0] == s.posted[n];
    assert rest[1..] == s.posted[n + 1..];
    assert (s.consumer.batch + s.pending)[1..] == s.consumer.batch[1..] + s.pending;
    assert HooksOf(s.posted[..n + 1]) == HooksOf(s.posted[..n]) + [HookOf(s.posted[n])];
  }

  lemma StepInOrder(s: State, step: Step)
    requires InOrder(s) && Enabled(s, step)
    ensures InOrder(Apply(s, step))
  {
    match step
    case Enqueue(i) =>
      var s' := Apply(s, step);
      assert s'.posted[..|s.hooks|] == s.posted[..|s.hooks|];
      assert s'.posted[|s.hooks|..] == s.posted[|s.hooks|..] + [s.producers[i].todo[0]];
    case Dispatch => if s.consumer.batch != [] { DispatchInOrder(s); }
    case _ =>
  }

  lemma StepKeepsWakeup(s: State, step: Step)
    requires WakeupKept(s) && Enabled(s, step)
    ensures WakeupKept(Apply(s, step))
  {
    var s' := Apply(s, step);
    match step
    case Enqueue(i) => assert s'.producers[i].between;
    case Raise(i) =>
    case _ => assert s'.producers == s.producers;
  }

  ghost predicate IsRun(run: seq<State>, steps: seq<Step>) {
    && |run| == |steps| + 1 && Init(run[0])
    && forall i | 0 <= i < |steps| :: Enabled(run[i], steps[i]) && run[i + 1] == Apply(run[i], steps[i])
  }

  /** In every run nothing posted is lost, doubled or reordered, and no wakeup is lost: a queue with something in it, no
      producer about to raise the waker and no consumer about to take it means the waker is raised. */
  lemma {:induction false} NoLostWakeup(run: seq<State>, steps: seq<Step>, n: nat)
    requires IsRun(run, steps) && n < |run|
    ensures InOrder(run[n])
    ensures run[n].pending != [] && !SomeoneBetween(run[n]) && run[n].consumer != Lowered ==> run[n].raised
  {
    RunKeeps(run, steps, n);
  }

  lemma {:induction false} RunKeeps(run: seq<State>, steps: seq<Step>, n: nat)
    requires IsRun(run, steps) && n < |run|
    ensures InOrder(run[n]) && WakeupKept(run[n])
  {
    if n > 0 {
      RunKeeps(run, steps, n - 1);
      assert run[n] == Apply(run[n - 1], steps[n - 1]);
      StepInOrder(run[n - 1], steps[n - 1]);
      StepKeepsWakeup(run[n - 1], steps[n - 1]);
    }
  }

  // ---------- What is posted is dispatched ----------

  /** What the consumer does when left alone. */
  function Alone(s: State): State {
    if Enabled(s, Wake) then Apply(s, Wake)
    else if Enabled(s, Take) then Apply(s, Take)
    else if Enabled(s, Dispatch) then Apply(s, Dispatch)
    else s
  }

  function AloneFor(s: State, n: nat): State
    decreases n
  {
    if n == 0 then s else AloneFor(Alone(s), n - 1)
  }

  /** How long it takes. */
  function Work(s: State): nat {
    (if s.raised then 3 else 0) + |s.pending| + (match s.consumer case Polling => 0 case Lowered => 2 case Dispatching(batch) => |batch| + 1)
  }

  /** Once the producers have raised the waker for all they queued, the consumer alone runs the hook of every event
      posted, in posting order, and then rests. */
  lemma {:induction false} EverythingIsDispatched(s: State)
    requires InOrder(s) && WakeupKept(s) && !SomeoneBetween(s)
    ensures var s' := AloneFor(s, Work(s)); s'.hooks == HooksOf(s.posted) && s'.posted == s.posted && s'.pending == [] && s'.consumer == Polling
    decreases Work(s)
  {
    if Work(s) == 0 {
      assert s.posted[..|s.hooks|] == s.posted;
    } else {
      var s' := Alone(s);
      if Enabled(s, Wake) { Continue(s, Wake); } else if Enabled(s, Take) { Continue(s, Take); } else { Continue(s, Dispatch); }
      EverythingIsDispatched(s');
    }
  }

  lemma Continue(s: State, step: Step)
    requires InOrder(s) && WakeupKept(s) && !SomeoneBetween(s)
    requires Enabled(s, step) && (step.Wake? || step.Take? || step.Dispatch?)
    ensures var s' := Apply(s, step);
      InOrder(s') && WakeupKept(s') && !SomeoneBetween(s') && Work(s') == Work(s) - 1 && s'.posted == s.posted
  {
    StepInOrder(s, step);
    StepKeepsWakeup(s, step);
    assert Apply(s, step).producers == s.producers;
  }
}
