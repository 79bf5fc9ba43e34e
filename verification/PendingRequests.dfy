/**
 The availability-gated request buffer: a Request for an available (service, instance) pair is sent at once, any other
 is parked under its pair and sent when the pair becomes available.
 */
module PendingRequests {

  type uint16 = x: int | 0 <= x < 0x1_0000

  type Key = (uint16, uint16)

  /** A Request handed to the sender. `late` tells one that had been parked from one sent at once. */
  datatype Sent<R> = Sent(key: Key, request: R, late: bool)

  /** The buffer's content: what is parked, and what the sender has been handed so far. */
  datatype Buffer<R> = Buffer(pending: map<Key, seq<R>>, sent: seq<Sent<R>>)

  function EmptyBuffer<R>(): Buffer<R> {
    Buffer(map[], [])
  }

  /** What is parked for a pair; a pair without a queue has nothing parked. */
  function Parked<R>(b: Buffer<R>, key: Key): seq<R> {
    if key in b.pending then b.pending[key] else []
  }

  function Late<R>(key: Key, requests: seq<R>): seq<Sent<R>> {
    seq(|requests|, i requires 0 <= i < |requests| => Sent(key, requests[i], true))
  }

  function AfterSubmit<R>(b: Buffer<R>, key: Key, request: R, available: bool): Buffer<R> {
    if available then b.(sent := b.sent + [Sent(key, request, false)])
    else b.(pending := b.pending[key := Parked(b, key) + [request]])
  }

  function AfterFlush<R>(b: Buffer<R>, key: Key): Buffer<R> {
    Buffer(b.pending - {key}, b.sent + Late(key, Parked(b, key)))
  }

  class RequestBuffer<R> {
    var pending: map<Key, seq<R>>
    var sent: seq<Sent<R>>

    function Contents(): Buffer<R>
      reads this
    {
      Buffer(pending, sent)
    }

    constructor ()
      ensures Contents() == EmptyBuffer()
    {
      pending, sent := map[], [];
    }

    method Submit(key: Key, request: R, available: bool)
      modifies this
      ensures Contents() == AfterSubmit(old(Contents()), key, request, available)
    {
      if available {
        sent := sent + [Sent(key, request, false)];
      } else {
        var queue := if key in pending then pending[key] else [];
        pending := pending[key := queue + [request]];
      }
    }

    method OnAvailable(key: Key)
      modifies this
      ensures Contents() == AfterFlush(old(Contents()), key)
    {
      if key !in pending {
        assert pending - {key} == pending;
        return;
      }
      var queue := pending[key];
      var i := 0;
      while i < |queue|
        invariant 0 <= i <= |queue|
        invariant pending == old(pending)
        invariant sent == old(sent) + Late(key, queue[..i])
      {
        assert Late(key, queue[..i + 1]) == Late(key, queue[..i]) + [Sent(key, queue[i], true)];
        sent := sent + [Sent(key, queue[i], true)];
        i := i + 1;
      }
      assert queue[..i] == queue;
      pending := pending - {key};
    }
  }

  // ---------- Every history of calls ----------

  datatype Op<R> = Submit(key: Key, request: R, available: bool) | OnAvailable(key: Key)

  function Apply<R>(b: Buffer<R>, op: Op<R>): Buffer<R> {
    match op
    case Submit(key, request, available) => AfterSubmit(b, key, request, available)
    case OnAvailable(key) => AfterFlush(b, key)
  }

  function Replay<R>(ops: seq<Op<R>>): Buffer<R> {
    if ops == [] then EmptyBuffer() else Apply(Replay(ops[..|ops| - 1]), ops[|ops| - 1])
  }

  /** The Requests a history submitted for a pair while it was available (or was not), in order. */
  function Submitted<R>(ops: seq<Op<R>>, key: Key, available: bool): seq<R> {
    if ops == [] then []
    else
      var op := ops[|ops| - 1];
      Submitted(ops[..|ops| - 1], key, available)
      + if op.Submit? && op.key == key && op.available == available then [op.request] else []
  }

  /** The Requests sent for a pair at once (or after parking), in order. */
  function SentFor<R>(sent: seq<Sent<R>>, key: Key, late: bool): seq<R> {
    if sent == [] then []
    else
      var s := sent[|sent| - 1];
      SentFor(sent[..|sent| - 1], key, late) + if s.key == key && s.late == late then [s.request] else []
  }

  lemma {:induction false} SentForConcat<R>(a: seq<Sent<R>>, b: seq<Sent<R>>, key: Key, late: bool)
    ensures SentFor(a + b, key, late) == SentFor(a, key, late) + SentFor(b, key, late)
  {
    if b == [] {
      assert a + b == a;
    } else {
      var n := |b| - 1;
      assert (a + b)[..|a + b| - 1] == a + b[..n];
      SentForConcat(a, b[..n], key, late);
    }
  }

  lemma {:induction false} SentForLate<R>(key: Key, requests: seq<R>, k: Key, late: bool)
    ensures SentFor(Late(key, requests), k, late) == if k == key && late then requests else []
  {
    if requests != [] {
      var n := |requests| - 1;
      var all := Late(key, requests);
      assert all[..|all| - 1] == Late(key, requests[..n]);
      SentForLate(key, requests[..n], k, late);
      assert requests[..n] + [requests[n]] == requests;
    }
  }

  /** A submission reaches the sender at once, or joins the end of its pair's queue. */
  lemma SubmitMoves<R>(b: Buffer<R>, k: Key, request: R, available: bool, key: Key)
    ensures var b' := AfterSubmit(b, k, request, available);
      && SentFor(b'.sent, key, false) == SentFor(b.sent, key, false) + (if k == key && available then [request] else [])
      && SentFor(b'.sent, key, true) == SentFor(b.sent, key, true)
      && Parked(b', key) == Parked(b, key) + (if k == key && !available then [request] else [])
  {
    if available {
      SentForConcat(b.sent, [Sent(k, request, false)], key, true);
      SentForConcat(b.sent, [Sent(k, request, false)], key, false);
    }
  }

  /** A flush moves a pair's whole queue, in order, to the sender. */
  lemma FlushMoves<R>(b: Buffer<R>, k: Key, key: Key)
    ensures var b' := AfterFlush(b, k);
      && SentFor(b'.sent, key, false) == SentFor(b.sent, key, false)
      && SentFor(b'.sent, key, true) == SentFor(b.sent, key, true) + (if k == key then Parked(b, key) else [])
      && Parked(b', key) == (if k == key then [] else Parked(b, key))
  {
    var late := Late(k, Parked(b, k));
    SentForConcat(b.sent, late, key, true);
    SentForConcat(b.sent, late, key, false);
    SentForLate(k, Parked(b, k), key, true);
    SentForLate(k, Parked(b, k), key, false);
  }

  /** Exactly once and in order, for every pair: what was submitted while available is what was sent at once, and what
      was submitted while unavailable is what was sent late followed by what is still parked. */
  lemma {:induction false} ExactlyOnceInOrder<R>(ops: seq<Op<R>>, key: Key)
    ensures SentFor(Replay(ops).sent, key, false) == Submitted(ops, key, true)
    ensures SentFor(Replay(ops).sent, key, true) + Parked(Replay(ops), key) == Submitted(ops, key, false)
  {
    if ops != [] {
      var was := ops[..|ops| - 1];
      ExactlyOnceInOrder(was, key);
      match ops[|ops| - 1]
      case Submit(k, request, available) => SubmitMoves(Replay(was), k, request, available, key);
      case OnAvailable(k) => FlushMoves(Replay(was), k, key);
    }
  }

  // ---------- What became of one Request ----------

  lemma {:induction false} InSubmitted<R>(ops: seq<Op<R>>, key: Key, request: R, available: bool)
    ensures request in Submitted(ops, key, available) <==> Submit(key, request, available) in ops
  {
    if ops != [] {
      var was, op := ops[..|ops| - 1], ops[|ops| - 1];
      InSubmitted(was, key, request, available);
      assert ops == was + [op];
    }
  }

  lemma {:induction false} InSentFor<R>(sent: seq<Sent<R>>, key: Key, request: R, late: bool)
    ensures request in SentFor(sent, key, late) <==> Sent(key, request, late) in sent
  {
    if sent != [] {
      var was, s := sent[..|sent| - 1], sent[|sent| - 1];
      InSentFor(was, key, request, late);
      assert sent == was + [s];
    }
  }

  /** A Request goes out at once exactly if it was submitted as available, and is parked or goes out late exactly if it was
      submitted as unavailable. */
  lemma FateOfRequest<R>(ops: seq<Op<R>>, key: Key, request: R)
    ensures var b := Replay(ops);
      && (Sent(key, request, false) in b.sent <==> Submit(key, request, true) in ops)
      && (request in Parked(b, key) || Sent(key, request, true) in b.sent <==> Submit(key, request, false) in ops)
  {
    var b := Replay(ops);
    ExactlyOnceInOrder(ops, key);
    InSubmitted(ops, key, request, true);
    InSubmitted(ops, key, request, false);
    InSentFor(b.sent, key, request, false);
    InSentFor(b.sent, key, request, true);
    assert request in SentFor(b.sent, key, true) + Parked(b, key) <==> request in SentFor(b.sent, key, true) || request in Parked(b, key);
  }

  /** The submission at `p` was followed by a flush of its pair. */
  predicate FlushedAfter<R(==)>(ops: seq<Op<R>>, p: nat, key: Key) {
    exists q | p < q < |ops| :: ops[q] == OnAvailable(key)
  }

  lemma FlushedFurther<R>(ops: seq<Op<R>>, p: nat, key: Key, op: Op<R>)
    requires p < |ops|
    ensures FlushedAfter(ops + [op], p, key) <==> FlushedAfter(ops, p, key) || op == OnAvailable(key)
  {
    var more := ops + [op];
    if q :| p < q < |ops| && ops[q] == OnAvailable(key) {
      assert more[q] == OnAvailable(key);
    }
    assert more[|ops|] == op;
  }

  /** A parked Request has waited since its submission; one that went out late had a flush of its pair after it. */
  lemma {:induction false} LateIsAfterFlush<R>(ops: seq<Op<R>>, key: Key, request: R)
    ensures request in Parked(Replay(ops), key) ==> exists p | 0 <= p < |ops| :: ops[p] == Submit(key, request, false) && !FlushedAfter(ops, p, key)
    ensures Sent(key, request, true) in Replay(ops).sent ==> exists p | 0 <= p < |ops| :: ops[p] == Submit(key, request, false) && FlushedAfter(ops, p, key)
  {
    if ops != [] {
      var n := |ops| - 1;
      var was, op := ops[..n], ops[n];
      assert ops == was + [op];
      LateIsAfterFlush(was, key, request);
      if request in Parked(Replay(ops), key) {
        if op == Submit(key, request, false) {
          assert !FlushedAfter(ops, n, key);
        } else {
          assert request in Parked(Replay(was), key) && op != OnAvailable(key);
          var p :| 0 <= p < n && was[p] == Submit(key, request, false) && !FlushedAfter(was, p, key);
          FlushedFurther(was, p, key, op);
        }
      }
      if Sent(key, request, true) in Replay(ops).sent {
        if Sent(key, request, true) in Replay(was).sent {
          var p :| 0 <= p < n && was[p] == Submit(key, request, false) && FlushedAfter(was, p, key);
          FlushedFurther(was, p, key, op);
        } else {
          assert op == OnAvailable(key) && request in Parked(Replay(was), key);
          var p :| 0 <= p < n && was[p] == Submit(key, request, false) && !FlushedAfter(was, p, key);
          FlushedFurther(was, p, key, op);
        }
      }
    }
  }
}
