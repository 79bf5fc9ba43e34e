/**
 The waits between DISCOVERs (section 4.1 of RFC 2131): the first wait doubled once per attempt, capped, jittered and
 clamped at zero, in signed 64-bit arithmetic. In C++17 the product and the sum are undefined when they overflow, and a
 one shifted into the sign bit is implementation-defined; the model asks that neither happens.
 */
module DhcpBackoff {

  const INT64_LIMIT: int := 0x8000_0000_0000_0000

  type int64 = x: int | -INT64_LIMIT <= x < INT64_LIMIT
  type uint8 = x: int | 0 <= x < 256

  /** The retransmission parameters, in milliseconds. Back-off is on when `first` is positive. */
  datatype Timing = Timing(first: int64, cap: int64, jitter: int64)

  /** x doubled k times; the source shifts 1 left by k and multiplies. */
  function Doubled(x: int, k: nat): int {
    if k == 0 then x else 2 * Doubled(x, k - 1)
  }

  function Min(a: int, b: int): int {
    if a <= b then a else b
  }

  /** The wait before jitter. */
  function Base(t: Timing, k: nat): int {
    Min(t.cap, Doubled(t.first, k))
  }

  /** The largest draw; a parameter that is not positive draws nothing. */
  function Spread(t: Timing): int {
    if t.jitter > 0 then t.jitter else 0
  }

  function Wait(t: Timing, k: nat, draw: int): int {
    if Base(t, k) + draw < 0 then 0 else Base(t, k) + draw
  }

  predicate Fits(x: int) {
    -INT64_LIMIT <= x < INT64_LIMIT
  }

  /** No step of the computation of attempt k's wait overflows: not the shift, not the product, not the sum. */
  predicate Defined(t: Timing, k: nat, draw: int) {
    Fits(Doubled(1, k)) && Fits(Doubled(t.first, k)) && Fits(Base(t, k) + draw)
  }

  lemma {:induction false} DoublingGrows(x: int, k: nat, m: nat)
    requires x > 0 && k <= m
    ensures x <= Doubled(x, k) <= Doubled(x, m)
    ensures Doubled(1, k) <= Doubled(x, k)
  {
    if k < m {
      DoublingGrows(x, k, m - 1);
    } else if k > 0 {
      DoublingGrows(x, k - 1, k - 1);
    }
  }

  /** Each wait is twice the one before, up to the cap, so waits never shrink and stay at the cap once there. */
  lemma BaseDoubles(t: Timing, k: nat)
    requires t.first > 0 && t.cap >= 0
    ensures Base(t, 0) == if t.first < t.cap then t.first else t.cap
    ensures Base(t, k + 1) == if 2 * Base(t, k) < t.cap then 2 * Base(t, k) else t.cap
    ensures Base(t, k) <= Base(t, k + 1)
    ensures Base(t, k) == t.cap ==> Base(t, k + 1) == t.cap
  {
    DoublingGrows(t.first, k, k);
  }

  /** The jittered wait stays within the spread of the base and is never negative. */
  lemma WaitStaysNearBase(t: Timing, k: nat, draw: int)
    requires t.first > 0 && t.cap >= 0 && -Spread(t) <= draw <= Spread(t)
    ensures 0 <= Wait(t, k, draw) <= t.cap + Spread(t)
    ensures Base(t, k) + draw >= 0 ==> Wait(t, k, draw) - Base(t, k) == draw
    ensures Base(t, k) - Spread(t) <= Wait(t, k, draw) <= Base(t, k) + Spread(t)
  {
    DoublingGrows(t.first, k, k);
  }

  /** Every wait of a cycle is computed without overflow exactly when that of its last attempt is, with the largest draw,
      and that of its first with the smallest: the shift and the product are safe just when first * 2^(n-1) fits. */
  lemma AllWaitsDefined(t: Timing, retryCount: uint8)
    requires t.first > 0
    ensures (forall k: nat, draw: int | k < retryCount && -Spread(t) <= draw <= Spread(t) :: Defined(t, k, draw))
      <==> (retryCount == 0 || (&& Doubled(t.first, retryCount - 1) < INT64_LIMIT
                                && Base(t, retryCount - 1) + Spread(t) < INT64_LIMIT
                                && Base(t, 0) - Spread(t) >= -INT64_LIMIT))
  {
    if retryCount > 0 {
      var last := retryCount - 1;
      var holds := Doubled(t.first, last) < INT64_LIMIT && Base(t, last) + Spread(t) < INT64_LIMIT && Base(t, 0) - Spread(t) >= -INT64_LIMIT;
      if holds {
        forall k: nat, draw: int | k < retryCount && -Spread(t) <= draw <= Spread(t) ensures Defined(t, k, draw) {
          DoublingGrows(t.first, k, last);
          DoublingGrows(t.first, 0, k);
          DoublingGrows(1, 0, k);
        }
      } else {
        assert !Defined(t, last, Spread(t)) || !Defined(t, 0, -Spread(t)) by {
          DoublingGrows(t.first, last, last);
        }
      }
    }
  }

  /** The 64th attempt, well within the retry counter, overflows the shift whatever the parameters. */
  lemma LongRunsOverflow(t: Timing)
    ensures !Defined(t, 63, 0)
  {
    Octave(1, 0);
    Octave(1, 8);
    Octave(1, 16);
    Octave(1, 24);
    Octave(1, 32);
    Octave(1, 40);
    Octave(1, 48);
    Octave(1, 56);
  }

  lemma Octave(x: int, k: nat)
    ensures Doubled(x, k + 8) == 256 * Doubled(x, k)
  {
    assert Doubled(x, k + 2) == 4 * Doubled(x, k);
    assert Doubled(x, k + 4) == 4 * Doubled(x, k + 2);
    assert Doubled(x, k + 6) == 4 * Doubled(x, k + 4);
  }
}
