/**
 The client control under concurrency: any number of `callMethod` calls, availability callbacks already on their way,
 and the destructor, over two locks. The control's mutex guards its members; the latch, which outlives the control,
 guards the flag that tells a callback whether the control still exists.

 Every thread moves by single steps and any interleaving is a run. The service side is the environment: it makes a pair
 available, dispatches the callback some time later, and may withdraw the pair at any time.
 */
module EtsClientControl {
  import opened PendingRequests

  // ---------- Threads ----------

  /** A call: waits for the mutex, requests the pair, asks whether it is available, submits, and returns. */
  datatype CallAt = Outside | Waiting | Inside | Asking | Told(available: bool) | Submitted_ | Returned

  /** A callback: takes the latch, looks at the flag, and if the control is alive takes the mutex and flushes. */
  datatype CallbackAt = Queued | Latched | Cleared | Flushing | Flushed | Drained | Finished

  /** The destructor: trips the flag under the latch, lets the latch go, and only then tears down under the mutex. */
  datatype DtorAt = NotYet | Started | Tripping | Tripped | Barred | Tearing | Gone

  datatype Caller = Caller(key: Key, at: CallAt)
  datatype Callback = Callback(key: Key, at: CallbackAt)

  datatype Holder = Free | ByCaller(id: nat) | ByCallback(id: nat) | ByDtor

  /** `ops` is the history of the request buffer; a Request is named by its call. `edges` are pairs marked available whose
      callback is not queued yet. */
  datatype Control = Control(
    callers: seq<Caller>, callbacks: seq<Callback>, dtor: DtorAt,
    alive: bool, latch: Holder, mutex: Holder,
    ops: seq<Op<nat>>,
    requested: set<Key>, available: set<Key>, edges: set<Key>)

  ghost predicate Init(s: Control) {
    && (forall i | 0 <= i < |s.callers| :: s.callers[i].at == Outside)
    && s.callbacks == [] && s.dtor == NotYet && s.alive && s.latch == Free && s.mutex == Free
    && s.ops == [] && s.requested == {} && s.edges == {}
  }

  // ---------- Steps ----------

  datatype Step =
    | Call(i: nat)
    | Callback_(i: nat)
    | Destroy
    | Offer(key: Key)
    | Dispatch(key: Key)
    | Withdraw(key: Key)

  predicate CallerMoves(s: Control, s': Control, i: nat, at: CallAt)
    requires i < |s.callers|
  {
    s' == s.(callers := s.callers[i := s.callers[i].(at := at)], mutex := s'.mutex, ops := s'.ops, requested := s'.requested)
  }

  /** A call may begin only while nobody has begun to destroy the control. */
  predicate CallNext(s: Control, s': Control, i: nat)
    requires i < |s.callers|
  {
    match s.callers[i].at
    case Outside => s.dtor == NotYet && CallerMoves(s, s', i, Waiting) && s'.mutex == s.mutex && s'.ops == s.ops && s'.requested == s.requested
    case Waiting => s.mutex == Free && CallerMoves(s, s', i, Inside) && s'.mutex == ByCaller(i) && s'.ops == s.ops && s'.requested == s.requested
    case Inside => CallerMoves(s, s', i, Asking) && s'.mutex == s.mutex && s'.ops == s.ops && s'.requested == s.requested + {s.callers[i].key}
    case Asking =>
      CallerMoves(s, s', i, Told(s.callers[i].key in s.available)) && s'.mutex == s.mutex && s'.ops == s.ops && s'.requested == s.requested
    case Told(available) =>
      && CallerMoves(s, s', i, Submitted_) && s'.mutex == s.mutex && s'.requested == s.requested
      && s'.ops == s.ops + [Submit(s.callers[i].key, i, available)]
    case Submitted_ => CallerMoves(s, s', i, Returned) && s'.mutex == Free && s'.ops == s.ops && s'.requested == s.requested
    case Returned => false
  }

  predicate CallbackMoves(s: Control, s': Control, i: nat, at: CallbackAt)
    requires i < |s.callbacks|
  {
    s' == s.(callbacks := s.callbacks[i := s.callbacks[i].(at := at)], latch := s'.latch, mutex := s'.mutex, ops := s'.ops)
  }

  predicate CallbackNext(s: Control, s': Control, i: nat)
    requires i < |s.callbacks|
  {
    match s.callbacks[i].at
    case Queued => s.latch == Free && CallbackMoves(s, s', i, Latched) && s'.latch == ByCallback(i) && s'.mutex == s.mutex && s'.ops == s.ops
    case Latched =>
      if s.alive then CallbackMoves(s, s', i, Cleared) && s'.latch == s.latch && s'.mutex == s.mutex && s'.ops == s.ops
      else CallbackMoves(s, s', i, Finished) && s'.latch == Free && s'.mutex == s.mutex && s'.ops == s.ops
    case Cleared => s.mutex == Free && CallbackMoves(s, s', i, Flushing) && s'.latch == s.latch && s'.mutex == ByCallback(i) && s'.ops == s.ops
    case Flushing =>
      CallbackMoves(s, s', i, Flushed) && s'.latch == s.latch && s'.mutex == s.mutex && s'.ops == s.ops + [OnAvailable(s.callbacks[i].key)]
    case Flushed => CallbackMoves(s, s', i, Drained) && s'.latch == s.latch && s'.mutex == Free && s'.ops == s.ops
    case Drained => CallbackMoves(s, s', i, Finished) && s'.latch == Free && s'.mutex == s.mutex && s'.ops == s.ops
    case Finished => false
  }

  /** No call is under way. The owner destroys the control only then. */
  predicate NobodyInside(s: Control) {
    forall i | 0 <= i < |s.callers| :: s.callers[i].at == Outside || s.callers[i].at == Returned
  }

  predicate DtorMoves(s: Control, s': Control, at: DtorAt) {
    s' == s.(dtor := at, alive := s'.alive, latch := s'.latch, mutex := s'.mutex)
  }

  predicate DtorNext(s: Control, s': Control) {
    match s.dtor
    case NotYet => NobodyInside(s) && DtorMoves(s, s', Started) && s'.alive == s.alive && s'.latch == s.latch && s'.mutex == s.mutex
    case Started => s.latch == Free && DtorMoves(s, s', Tripping) && s'.alive == s.alive && s'.latch == ByDtor && s'.mutex == s.mutex
    case Tripping => DtorMoves(s, s', Tripped) && !s'.alive && s'.latch == s.latch && s'.mutex == s.mutex
    case Tripped => DtorMoves(s, s', Barred) && s'.alive == s.alive && s'.latch == Free && s'.mutex == s.mutex
    case Barred => s.mutex == Free && DtorMoves(s, s', Tearing) && s'.alive == s.alive && s'.latch == s.latch && s'.mutex == ByDtor
    case Tearing => DtorMoves(s, s', Gone) && s'.alive == s.alive && s'.latch == s.latch && s'.mutex == Free
    case Gone => false
  }

  predicate Next(s: Control, s': Control, step: Step) {
    match step
    case Call(i) => i < |s.callers| && CallNext(s, s', i)
    case Callback_(i) => i < |s.callbacks| && CallbackNext(s, s', i)
    case Destroy => DtorNext(s, s')
    case Offer(key) =>
      s' == s.(available := s.available + {key}, edges := if key in s.requested then s.edges + {key} else s.edges)
    case Dispatch(key) =>
      key in s.edges && s' == s.(edges := s.edges - {key}, callbacks := s.callbacks + [Callback(key, Queued)])
    case Withdraw(key) => s' == s.(available := s.available - {key})
  }

  // ---------- Who holds what ----------

  predicate CallerHoldsMutex(at: CallAt) {
    at.Inside? || at.Asking? || at.Told? || at.Submitted_?
  }

  predicate CallbackHoldsLatch(at: CallbackAt) {
    at.Latched? || at.Cleared? || at.Flushing? || at.Flushed? || at.Drained?
  }

  predicate CallbackHoldsMutex(at: CallbackAt) {
    at.Flushing? || at.Flushed?
  }

  /** The callback is past the flag and uses the control's members: it waits for the mutex, or holds it. */
  predicate TouchesMembers(at: CallbackAt) {
    at.Cleared? || at.Flushing? || at.Flushed?
  }

  /** The destructor has let go of the latch with the flag tripped: from here on the members may go. */
  predicate PastBarrier(at: DtorAt) {
    at.Tripped? || at.Barred? || at.Tearing? || at.Gone?
  }

  predicate Locks(s: Control) {
    && (forall i | 0 <= i < |s.callers| :: s.mutex == ByCaller(i) <==> CallerHoldsMutex(s.callers[i].at))
    && (forall i | 0 <= i < |s.callbacks| :: s.mutex == ByCallback(i) <==> CallbackHoldsMutex(s.callbacks[i].at))
    && (forall i | 0 <= i < |s.callbacks| :: s.latch == ByCallback(i) <==> CallbackHoldsLatch(s.callbacks[i].at))
    && (s.mutex == ByDtor <==> s.dtor == Tearing)
    && (s.latch == ByDtor <==> s.dtor == Tripping || s.dtor == Tripped)
    && (s.mutex.ByCaller? ==> s.mutex.id < |s.callers|)
    && (s.mutex.ByCallback? ==> s.mutex.id < |s.callbacks|)
    && (s.latch.ByCallback? ==> s.latch.id < |s.callbacks|)
    && !s.latch.ByCaller?
  }

  predicate Flag(s: Control) {
    && (s.alive <==> !PastBarrier(s.dtor))
    && (forall i | 0 <= i < |s.callbacks| :: TouchesMembers(s.callbacks[i].at) ==> s.alive)
    && (s.dtor != NotYet ==> NobodyInside(s))
  }

  predicate Inv(s: Control) {
    Locks(s) && Flag(s)
  }

  lemma CallKeeps(s: Control, s': Control, i: nat)
    requires Inv(s) && i < |s.callers| && CallNext(s, s', i)
    ensures Inv(s')
  {}

  lemma CallbackKeeps(s: Control, s': Control, i: nat)
    requires Inv(s) && i < |s.callbacks| && CallbackNext(s, s', i)
    ensures Inv(s')
  {}

  lemma DtorKeeps(s: Control, s': Control)
    requires Inv(s) && DtorNext(s, s')
    ensures Inv(s')
  {}

  lemma StepKeeps(s: Control, s': Control, step: Step)
    requires Inv(s) && Next(s, s', step)
    ensures Inv(s')
  {
    match step
    case Call(i) => CallKeeps(s, s', i);
    case Callback_(i) => CallbackKeeps(s, s', i);
    case Destroy => DtorKeeps(s, s');
    case _ =>
  }

  // ---------- No strand ----------

  /** A Request is parked for the pair, or about to be: a call holding the mutex was told the pair is unavailable. */
  predicate Debt(s: Control, key: Key) {
    || Parked(Replay(s.ops), key) != []
    || (s.mutex.ByCaller? && s.mutex.id < |s.callers| && s.callers[s.mutex.id] == Caller(key, Told(false)))
  }

  /** The callback has yet to flush. */
  predicate YetToFlush(at: CallbackAt) {
    at.Queued? || at.Latched? || at.Cleared? || at.Flushing?
  }

  predicate FlushComing(s: Control, key: Key) {
    key in s.edges || exists i | 0 <= i < |s.callbacks| :: s.callbacks[i].key == key && YetToFlush(s.callbacks[i].at)
  }

  /** Only requested pairs run a debt. */
  ghost predicate DebtsRequested(s: Control) {
    && (forall key: Key :: Debt(s, key) ==> key in s.requested)
    && (forall i | 0 <= i < |s.callers| :: s.callers[i].at.Asking? ==> s.callers[i].key in s.requested)
  }

  /** While the control lives, an available pair with a debt has a flush on its way. */
  ghost predicate NoStrand(s: Control) {
    s.alive ==> forall key: Key :: Debt(s, key) && key in s.available ==> FlushComing(s, key)
  }

  lemma ParkedAfter(ops: seq<Op<nat>>, op: Op<nat>, key: Key)
    ensures Parked(Replay(ops + [op]), key) == Parked(Apply(Replay(ops), op), key)
    ensures op.Submit? ==> Parked(Replay(ops + [op]), key) ==
                           Parked(Replay(ops), key) + (if op.key == key && !op.available then [op.request] else [])
    ensures op.OnAvailable? ==> Parked(Replay(ops + [op]), key) == if op.key == key then [] else Parked(Replay(ops), key)
  {
    assert (ops + [op])[..|ops|] == ops;
    match op
    case Submit(k, request, available) => SubmitMoves(Replay(ops), k, request, available, key);
    case OnAvailable(k) => FlushMoves(Replay(ops), k, key);
  }

  /** A step of a call runs up a debt for its own pair only, and only if the pair was unavailable or had one already. */
  lemma CallDebt(s: Control, s': Control, i: nat, key: Key)
    requires Inv(s) && i < |s.callers| && CallNext(s, s', i)
    ensures Debt(s', key) ==> Debt(s, key) || (s.callers[i] == Caller(key, Asking) && key !in s.available)
  {
    if s.callers[i].at.Told? {
      ParkedAfter(s.ops, Submit(s.callers[i].key, i, s.callers[i].at.available), key);
    }
  }

  lemma CallbackDebt(s: Control, s': Control, i: nat, key: Key)
    requires Inv(s) && i < |s.callbacks| && CallbackNext(s, s', i)
    ensures Debt(s', key) ==> Debt(s, key) && !(s.callbacks[i].at.Flushing? && s.callbacks[i].key == key)
  {
    if s.callbacks[i].at.Flushing? {
      ParkedAfter(s.ops, OnAvailable(s.callbacks[i].key), key);
    }
  }

  lemma CallNoStrand(s: Control, s': Control, i: nat)
    requires Inv(s) && DebtsRequested(s) && NoStrand(s) && i < |s.callers| && CallNext(s, s', i)
    ensures DebtsRequested(s') && NoStrand(s')
  {
    forall key: Key | Debt(s', key) ensures key in s'.requested && (s'.alive && key in s'.available ==> FlushComing(s', key)) {
      CallDebt(s, s', i, key);
    }
  }

  lemma CallbackNoStrand(s: Control, s': Control, i: nat)
    requires Inv(s) && DebtsRequested(s) && NoStrand(s) && i < |s.callbacks| && CallbackNext(s, s', i)
    ensures DebtsRequested(s') && NoStrand(s')
  {
    forall key: Key | Debt(s', key) ensures key in s'.requested && (s'.alive && key in s'.available ==> FlushComing(s', key)) {
      CallbackDebt(s, s', i, key);
      if s.alive && key in s.available && key !in s.edges {
        var j :| 0 <= j < |s.callbacks| && s.callbacks[j].key == key && YetToFlush(s.callbacks[j].at);
        assert s'.callbacks[j].key == key && YetToFlush(s'.callbacks[j].at);
      }
    }
  }

  lemma ServiceNoStrand(s: Control, s': Control, step: Step)
    requires DebtsRequested(s) && NoStrand(s) && Next(s, s', step) && !step.Call? && !step.Callback_?
    ensures DebtsRequested(s') && NoStrand(s')
  {
    forall key: Key | Debt(s', key) ensures key in s'.requested && (s'.alive && key in s'.available ==> FlushComing(s', key)) {
      assert Debt(s, key);
      if s'.alive && key in s'.available {
        ServiceFlush(s, s', step, key);
      }
    }
  }

  /** A flush that is coming stays so over a step of the service discovery, and an edge that offers the pair makes it come. */
  lemma ServiceFlush(s: Control, s': Control, step: Step, key: Key)
    requires Next(s, s', step) && !step.Call? && !step.Callback_? && s'.alive && key in s'.available
    requires s.alive && key in s.available && key in s.requested ==> FlushComing(s, key)
    requires key in s.requested
    ensures FlushComing(s', key)
  {
    if key !in s'.edges {
      if step == Dispatch(key) {
        assert s'.callbacks[|s.callbacks|] == Callback(key, Queued);
      } else {
        var j :| 0 <= j < |s.callbacks| && s.callbacks[j].key == key && YetToFlush(s.callbacks[j].at);
        assert s'.callbacks[j] == s.callbacks[j];
      }
    }
  }

  // ---------- Each call submits once ----------

  function Times(ops: seq<Op<nat>>, id: nat): nat {
    if ops == [] then 0
    else Times(ops[..|ops| - 1], id) + if ops[|ops| - 1].Submit? && ops[|ops| - 1].request == id then 1 else 0
  }

  predicate HasSubmitted(at: CallAt) {
    at.Submitted_? || at.Returned?
  }

  ghost predicate SubmitsOnce(s: Control) {
    forall i | 0 <= i < |s.callers| :: Times(s.ops, i) == if HasSubmitted(s.callers[i].at) then 1 else 0
  }

  lemma TimesSnoc(ops: seq<Op<nat>>, op: Op<nat>, id: nat)
    ensures Times(ops + [op], id) == Times(ops, id) + if op.Submit? && op.request == id then 1 else 0
  {
    assert (ops + [op])[..|ops|] == ops;
  }

  lemma CallSubmitsOnce(s: Control, s': Control, i: nat)
    requires SubmitsOnce(s) && i < |s.callers| && CallNext(s, s', i)
    ensures SubmitsOnce(s')
  {
    forall j | 0 <= j < |s'.callers| ensures Times(s'.ops, j) == if HasSubmitted(s'.callers[j].at) then 1 else 0 {
      assert Times(s.ops, j) == if HasSubmitted(s.callers[j].at) then 1 else 0;
      if s.callers[i].at.Told? {
        TimesSnoc(s.ops, Submit(s.callers[i].key, i, s.callers[i].at.available), j);
      }
    }
  }

  lemma CallbackSubmitsNothing(s: Control, s': Control, i: nat)
    requires SubmitsOnce(s) && i < |s.callbacks| && CallbackNext(s, s', i)
    ensures SubmitsOnce(s')
  {
    if s.callbacks[i].at.Flushing? {
      forall j | 0 <= j < |s'.callers| ensures Times(s'.ops, j) == if HasSubmitted(s'.callers[j].at) then 1 else 0 {
        TimesSnoc(s.ops, OnAvailable(s.callbacks[i].key), j);
      }
    }
  }

  // ---------- Whole runs ----------

  ghost predicate IsRun(run: seq<Control>, steps: seq<Step>) {
    && |run| == |steps| + 1 && Init(run[0])
    && forall i {:trigger steps[i]} | 0 <= i < |steps| :: Next(run[i], run[i + 1], steps[i])
  }

  ghost predicate Sound(s: Control) {
    Inv(s) && DebtsRequested(s) && NoStrand(s) && SubmitsOnce(s)
  }

  lemma StepSound(s: Control, s': Control, step: Step)
    requires Sound(s) && Next(s, s', step)
    ensures Sound(s')
  {
    StepKeeps(s, s', step);
    match step
    case Call(i) => CallNoStrand(s, s', i); CallSubmitsOnce(s, s', i);
    case Callback_(i) => CallbackNoStrand(s, s', i); CallbackSubmitsNothing(s, s', i);
    case _ => ServiceNoStrand(s, s', step);
  }

  lemma {:induction false} RunSound(run: seq<Control>, steps: seq<Step>, n: nat)
    requires IsRun(run, steps) && n < |run|
    ensures Sound(run[n])
  {
    if n > 0 {
      RunSound(run, steps, n - 1);
      StepSound(run[n - 1], run[n], steps[n - 1]);
    }
  }

  /** In every run, once the destructor is past its barrier no callback uses the control's members, then or later, and no
      call is under way. */
  lemma TeardownIsSafe(run: seq<Control>, steps: seq<Step>, n: nat, i: nat)
    requires IsRun(run, steps) && n < |run| && PastBarrier(run[n].dtor)
    ensures i < |run[n].callbacks| ==> !TouchesMembers(run[n].callbacks[i].at)
    ensures NobodyInside(run[n])
  {
    RunSound(run, steps, n);
  }

  /** In every run, while the control lives, an available pair with something parked has a flush queued or running. */
  lemma NothingIsStranded(run: seq<Control>, steps: seq<Step>, n: nat, key: Key)
    requires IsRun(run, steps) && n < |run|
    requires run[n].alive && key in run[n].available && Parked(Replay(run[n].ops), key) != []
    ensures FlushComing(run[n], key)
  {
    RunSound(run, steps, n);
    assert Debt(run[n], key);
  }

  /** In every run, a call that has submitted has done so once, no other has, and for every pair the submitted Requests
      are the sent ones followed by the parked ones. */
  lemma EveryRequestOnce(run: seq<Control>, steps: seq<Step>, n: nat, i: nat, key: Key)
    requires IsRun(run, steps) && n < |run| && i < |run[n].callers|
    ensures Times(run[n].ops, i) == if HasSubmitted(run[n].callers[i].at) then 1 else 0
    ensures var b := Replay(run[n].ops);
      && SentFor(b.sent, key, false) == Submitted(run[n].ops, key, true)
      && SentFor(b.sent, key, true) + Parked(b, key) == Submitted(run[n].ops, key, false)
  {
    RunSound(run, steps, n);
    ExactlyOnceInOrder(run[n].ops, key);
  }

  // ---------- No deadlock ----------

  /** A thread that has begun and not ended. */
  predicate Unfinished(s: Control, step: Step) {
    match step
    case Call(i) => i < |s.callers| && s.callers[i].at != Outside && s.callers[i].at != Returned
    case Callback_(i) => i < |s.callbacks| && s.callbacks[i].at != Finished
    case Destroy => s.dtor != NotYet && s.dtor != Gone
    case _ => false
  }

  ghost predicate CanMove(s: Control, step: Step) {
    exists s' :: Next(s, s', step)
  }

  lemma CallCanMove(s: Control, i: nat)
    requires Unfinished(s, Call(i)) && (s.callers[i].at.Waiting? ==> s.mutex == Free)
    ensures CanMove(s, Call(i))
  {
    var c := s.callers[i];
    var s' := match c.at
      case Waiting => s.(callers := s.callers[i := c.(at := Inside)], mutex := ByCaller(i))
      case Inside => s.(callers := s.callers[i := c.(at := Asking)], requested := s.requested + {c.key})
      case Asking => s.(callers := s.callers[i := c.(at := Told(c.key in s.available))])
      case Told(a) => s.(callers := s.callers[i := c.(at := Submitted_)], ops := s.ops + [Submit(c.key, i, a)])
      case Submitted_ => s.(callers := s.callers[i := c.(at := Returned)], mutex := Free);
    assert Next(s, s', Call(i));
  }

  lemma CallbackCanMove(s: Control, i: nat)
    requires Unfinished(s, Callback_(i))
    requires s.callbacks[i].at.Queued? ==> s.latch == Free
    requires s.callbacks[i].at.Cleared? ==> s.mutex == Free
    ensures CanMove(s, Callback_(i))
  {
    var c := s.callbacks[i];
    var s' := match c.at
      case Queued => s.(callbacks := s.callbacks[i := c.(at := Latched)], latch := ByCallback(i))
      case Latched =>
        if s.alive then s.(callbacks := s.callbacks[i := c.(at := Cleared)])
        else s.(callbacks := s.callbacks[i := c.(at := Finished)], latch := Free)
      case Cleared => s.(callbacks := s.callbacks[i := c.(at := Flushing)], mutex := ByCallback(i))
      case Flushing => s.(callbacks := s.callbacks[i := c.(at := Flushed)], ops := s.ops + [OnAvailable(c.key)])
      case Flushed => s.(callbacks := s.callbacks[i := c.(at := Drained)], mutex := Free)
      case Drained => s.(callbacks := s.callbacks[i := c.(at := Finished)], latch := Free);
    assert Next(s, s', Callback_(i));
  }

  lemma DtorCanMove(s: Control)
    requires Unfinished(s, Destroy)
    requires s.dtor.Started? ==> s.latch == Free
    requires s.dtor.Barred? ==> s.mutex == Free
    ensures CanMove(s, Destroy)
  {
    var s' := match s.dtor
      case Started => s.(dtor := Tripping, latch := ByDtor)
      case Tripping => s.(dtor := Tripped, alive := false)
      case Tripped => s.(dtor := Barred, latch := Free)
      case Barred => s.(dtor := Tearing, mutex := ByDtor)
      case Tearing => s.(dtor := Gone, mutex := Free);
    assert Next(s, s', Destroy);
  }

  /** The mutex's holder never waits, and the latch's holder waits for nothing but the mutex. */
  lemma SomeoneCanMove(s: Control, step: Step) returns (mover: Step)
    requires Inv(s) && Unfinished(s, step)
    ensures Unfinished(s, mover) && CanMove(s, mover)
  {
    if s.mutex.ByCaller? {
      mover := Call(s.mutex.id);
      CallCanMove(s, s.mutex.id);
    } else if s.mutex.ByCallback? {
      mover := Callback_(s.mutex.id);
      CallbackCanMove(s, s.mutex.id);
    } else if s.mutex.ByDtor? {
      mover := Destroy;
      DtorCanMove(s);
    } else if s.latch.ByCallback? {
      mover := Callback_(s.latch.id);
      CallbackCanMove(s, s.latch.id);
    } else if s.latch.ByDtor? {
      mover := Destroy;
      DtorCanMove(s);
    } else {
      mover := step;
      match step
      case Call(i) => CallCanMove(s, i);
      case Callback_(i) => CallbackCanMove(s, i);
      case _ => DtorCanMove(s);
    }
  }

  /** No deadlock in any run: while any thread has begun and not ended, one of those threads can move. */
  lemma NoDeadlock(run: seq<Control>, steps: seq<Step>, n: nat, step: Step) returns (mover: Step)
    requires IsRun(run, steps) && n < |run| && Unfinished(run[n], step)
    ensures Unfinished(run[n], mover) && CanMove(run[n], mover)
  {
    RunSound(run, steps, n);
    mover := SomeoneCanMove(run[n], step);
  }

  // ---------- No endless run ----------

  function CallLeft(at: CallAt): nat {
    match at
    case Outside => 6 case Waiting => 5 case Inside => 4 case Asking => 3 case Told(_) => 2 case Submitted_ => 1 case Returned => 0
  }

  function CallbackLeft(at: CallbackAt): nat {
    match at
    case Queued => 6 case Latched => 5 case Cleared => 4 case Flushing => 3 case Flushed => 2 case Drained => 1 case Finished => 0
  }

  function DtorLeft(at: DtorAt): nat {
    match at
    case NotYet => 6 case Started => 5 case Tripping => 4 case Tripped => 3 case Barred => 2 case Tearing => 1 case Gone => 0
  }

  function CallsLeft(callers: seq<Caller>): nat {
    if callers == [] then 0 else CallsLeft(callers[..|callers| - 1]) + CallLeft(callers[|callers| - 1].at)
  }

  function CallbacksLeft(callbacks: seq<Callback>): nat {
    if callbacks == [] then 0 else CallbacksLeft(callbacks[..|callbacks| - 1]) + CallbackLeft(callbacks[|callbacks| - 1].at)
  }

  /** How many steps the threads have left, taken together. */
  function Work(s: Control): nat {
    CallsLeft(s.callers) + CallbacksLeft(s.callbacks) + DtorLeft(s.dtor)
  }

  lemma {:induction false} CallsLeftAt(callers: seq<Caller>, i: nat, c: Caller)
    requires i < |callers|
    ensures CallsLeft(callers[i := c]) + CallLeft(callers[i].at) == CallsLeft(callers) + CallLeft(c.at)
  {
    var n := |callers| - 1;
    if i < n {
      assert callers[i := c][..n] == callers[..n][i := c];
      CallsLeftAt(callers[..n], i, c);
    } else {
      assert callers[i := c][..n] == callers[..n];
    }
  }

  lemma {:induction false} CallbacksLeftAt(callbacks: seq<Callback>, i: nat, c: Callback)
    requires i < |callbacks|
    ensures CallbacksLeft(callbacks[i := c]) + CallbackLeft(callbacks[i].at) == CallbacksLeft(callbacks) + CallbackLeft(c.at)
  {
    var n := |callbacks| - 1;
    if i < n {
      assert callbacks[i := c][..n] == callbacks[..n][i := c];
      CallbacksLeftAt(callbacks[..n], i, c);
    } else {
      assert callbacks[i := c][..n] == callbacks[..n];
    }
  }

  predicate IsThreadStep(step: Step) {
    step.Call? || step.Callback_? || step.Destroy?
  }

  lemma CallWork(s: Control, s': Control, i: nat)
    requires i < |s.callers| && CallNext(s, s', i)
    ensures Work(s') < Work(s)
  {
    CallsLeftAt(s.callers, i, s'.callers[i]);
  }

  lemma CallbackWork(s: Control, s': Control, i: nat)
    requires i < |s.callbacks| && CallbackNext(s, s', i)
    ensures Work(s') < Work(s)
  {
    CallbacksLeftAt(s.callbacks, i, s'.callbacks[i]);
  }

  /** A thread's step uses up work, a dispatch brings six units, and the service's other steps none. */
  lemma StepWork(s: Control, s': Control, step: Step)
    requires Next(s, s', step)
    ensures Work(s') + (if IsThreadStep(step) then 1 else 0) <= Work(s) + if step.Dispatch? then 6 else 0
  {
    match step
    case Call(i) => CallWork(s, s', i);
    case Callback_(i) => CallbackWork(s, s', i);
    case Dispatch(key) => assert s'.callbacks[..|s.callbacks|] == s.callbacks;
    case _ =>
  }

  function ThreadSteps(steps: seq<Step>): nat {
    if steps == [] then 0 else ThreadSteps(steps[..|steps| - 1]) + if IsThreadStep(steps[|steps| - 1]) then 1 else 0
  }

  function Dispatches(steps: seq<Step>): nat {
    if steps == [] then 0 else Dispatches(steps[..|steps| - 1]) + if steps[|steps| - 1].Dispatch? then 1 else 0
  }

  /** The threads of any run take at most six steps for each call, for each dispatched callback and for the destructor. With
      `NoDeadlock`, every thread that has begun comes to its end once the service stops dispatching. */
  lemma {:induction false} ThreadsComeToAnEnd(run: seq<Control>, steps: seq<Step>, n: nat)
    requires IsRun(run, steps) && n < |run|
    ensures ThreadSteps(steps[..n]) + Work(run[n]) <= Work(run[0]) + 6 * Dispatches(steps[..n])
  {
    if n > 0 {
      ThreadsComeToAnEnd(run, steps, n - 1);
      StepWork(run[n - 1], run[n], steps[n - 1]);
      assert steps[..n][..n - 1] == steps[..n - 1];
    }
  }
}
