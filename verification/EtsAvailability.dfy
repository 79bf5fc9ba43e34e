/**
 The availability gate of the client control, over whole runs and the service's own availability: what a call is told
 when it asks decides whether its Request goes out at once or waits for its pair.
 */
module EtsAvailability {
  import opened Wrappers
  import opened PendingRequests
  import opened EtsClientControl

  /** What the service's availability was when call `i` asked, if it has by step `n`. */
  ghost function Asked(run: seq<Control>, steps: seq<Step>, i: nat, n: nat): Option<bool>
    requires n <= |steps| < |run| && forall k | 0 <= k < |run| :: i < |run[k].callers|
  {
    if n == 0 then None
    else if steps[n - 1] == Call(i) && run[n - 1].callers[i].at == Asking then Some(run[n - 1].callers[i].key in run[n - 1].available)
    else Asked(run, steps, i, n - 1)
  }

  /** Every submission of call `i` is for its own pair and says what the call was told. */
  predicate SubmitsAs(ops: seq<Op<nat>>, i: nat, key: Key, available: bool) {
    forall op | op in ops :: op.Submit? && op.request == i ==> op == Submit(key, i, available)
  }

  predicate NeverSubmits(ops: seq<Op<nat>>, i: nat) {
    forall op | op in ops :: !(op.Submit? && op.request == i)
  }

  /** Where call `i` stands, given what it found when it asked. */
  predicate Gated(s: Control, i: nat, asked: Option<bool>)
    requires i < |s.callers|
  {
    match s.callers[i].at
    case Told(b) => asked == Some(b) && NeverSubmits(s.ops, i)
    case Submitted_ => asked.Some? && Submit(s.callers[i].key, i, asked.value) in s.ops && SubmitsAs(s.ops, i, s.callers[i].key, asked.value)
    case Returned => asked.Some? && Submit(s.callers[i].key, i, asked.value) in s.ops && SubmitsAs(s.ops, i, s.callers[i].key, asked.value)
    case _ => asked == None && NeverSubmits(s.ops, i)
  }

  /** What the next step of a run adds to what call `i` was told. */
  function AskedNext(s: Control, step: Step, i: nat, asked: Option<bool>): Option<bool>
    requires i < |s.callers|
  {
    if step == Call(i) && s.callers[i].at == Asking then Some(s.callers[i].key in s.available) else asked
  }

  lemma CallGated(s: Control, s': Control, c: nat, i: nat, asked: Option<bool>)
    requires i < |s.callers| && c < |s.callers| && CallNext(s, s', c) && Gated(s, i, asked)
    ensures i < |s'.callers| && Gated(s', i, AskedNext(s, Call(c), i, asked))
  {}

  lemma CallbackGated(s: Control, s': Control, c: nat, i: nat, asked: Option<bool>)
    requires i < |s.callers| && c < |s.callbacks| && CallbackNext(s, s', c) && Gated(s, i, asked)
    ensures i < |s'.callers| && Gated(s', i, asked)
  {}

  lemma StepGated(s: Control, s': Control, step: Step, i: nat, asked: Option<bool>)
    requires i < |s.callers| && Next(s, s', step) && Gated(s, i, asked)
    ensures i < |s'.callers| && Gated(s', i, AskedNext(s, step, i, asked))
  {
    match step
    case Call(c) => CallGated(s, s', c, i, asked);
    case Callback_(c) => CallbackGated(s, s', c, i, asked);
    case _ =>
  }

  predicate SameCallers(s: Control, s': Control) {
    |s'.callers| == |s.callers| && forall i | 0 <= i < |s.callers| :: s'.callers[i].key == s.callers[i].key
  }

  lemma StepSameCallers(s: Control, s': Control, step: Step)
    requires Next(s, s', step)
    ensures SameCallers(s, s')
  {}

  lemma {:induction false} CallersStay(run: seq<Control>, steps: seq<Step>, n: nat)
    requires IsRun(run, steps) && n < |run|
    ensures SameCallers(run[0], run[n])
  {
    if n > 0 {
      CallersStay(run, steps, n - 1);
      StepSameCallers(run[n - 1], run[n], steps[n - 1]);
    }
  }

  lemma {:induction false} RunGated(run: seq<Control>, steps: seq<Step>, i: nat, n: nat)
    requires IsRun(run, steps) && n < |run| && forall k | 0 <= k < |run| :: i < |run[k].callers|
    ensures Gated(run[n], i, Asked(run, steps, i, n))
  {
    if n > 0 {
      RunGated(run, steps, i, n - 1);
      StepGated(run[n - 1], run[n], steps[n - 1], i, Asked(run, steps, i, n - 1));
    }
  }

  /** The step in which a call asked. */
  lemma {:induction false} AskedAt(run: seq<Control>, steps: seq<Step>, i: nat, n: nat) returns (k: nat)
    requires n <= |steps| < |run| && forall m | 0 <= m < |run| :: i < |run[m].callers|
    requires Asked(run, steps, i, n).Some?
    ensures k < n && steps[k] == Call(i) && run[k].callers[i].at == Asking
    ensures Asked(run, steps, i, n).value == (run[k].callers[i].key in run[k].available)
  {
    k := n - 1;
    if !(steps[k] == Call(i) && run[k].callers[i].at == Asking) {
      k := AskedAt(run, steps, i, n - 1);
    }
  }

  /** What a submission as available, or as unavailable, comes to. */
  lemma FateOfCall(ops: seq<Op<nat>>, i: nat, key: Key, available: bool, other: Key)
    requires Submit(key, i, available) in ops && SubmitsAs(ops, i, key, available)
    ensures var b := Replay(ops);
      && (Sent(key, i, false) in b.sent <==> available)
      && (i in Parked(b, key) || Sent(key, i, true) in b.sent <==> !available)
      && (other != key ==> Sent(other, i, false) !in b.sent && Sent(other, i, true) !in b.sent && i !in Parked(b, other))
  {
    FateOfRequest(ops, key, i);
    FateOfRequest(ops, other, i);
  }

  /** The gate, over every run: the Request of a call went out at once if and only if its pair was available at the moment
      the call asked. Otherwise it is parked, or went out after a later flush of that pair; and it never goes to another. */
  lemma GateIsAvailability(run: seq<Control>, steps: seq<Step>, n: nat, i: nat, other: Key) returns (k: nat)
    requires IsRun(run, steps) && n < |run| && i < |run[n].callers| && HasSubmitted(run[n].callers[i].at)
    ensures var key := run[n].callers[i].key;
      k < n && steps[k] == Call(i) && i < |run[k].callers| && run[k].callers[i] == Caller(key, Asking)
    ensures var key, b := run[n].callers[i].key, Replay(run[n].ops);
      && (Sent(key, i, false) in b.sent <==> key in run[k].available)
      && (i in Parked(b, key) || Sent(key, i, true) in b.sent <==> key !in run[k].available)
      && (Sent(key, i, true) in b.sent ==>
            exists p | 0 <= p < |run[n].ops| :: run[n].ops[p] == Submit(key, i, false) && FlushedAfter(run[n].ops, p, key))
      && (other != key ==> Sent(other, i, false) !in b.sent && Sent(other, i, true) !in b.sent && i !in Parked(b, other))
  {
    CallersStay(run, steps, n);
    forall m | 0 <= m < |run| ensures i < |run[m].callers| {
      CallersStay(run, steps, m);
    }
    RunGated(run, steps, i, n);
    k := AskedAt(run, steps, i, n);
    CallersStay(run, steps, k);
    FateOfCall(run[n].ops, i, run[n].callers[i].key, Asked(run, steps, i, n).value, other);
    LateIsAfterFlush(run[n].ops, run[n].callers[i].key, i);
  }

  /** Before it has submitted, a call has nothing parked and nothing sent. */
  lemma NothingBeforeSubmitting(run: seq<Control>, steps: seq<Step>, n: nat, i: nat, key: Key)
    requires IsRun(run, steps) && n < |run| && i < |run[n].callers| && !HasSubmitted(run[n].callers[i].at)
    ensures var b := Replay(run[n].ops); Sent(key, i, false) !in b.sent && Sent(key, i, true) !in b.sent && i !in Parked(b, key)
  {
    CallersStay(run, steps, n);
    forall m | 0 <= m < |run| ensures i < |run[m].callers| {
      CallersStay(run, steps, m);
    }
    RunGated(run, steps, i, n);
    FateOfRequest(run[n].ops, key, i);
  }
}
