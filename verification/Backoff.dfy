/** reconnectDelay: exponential backoff in int64 nanoseconds, with Go's wrap-around on overflow. */
module Backoff {
  import opened Bytes
  import opened Integers

  const SECOND := 1_000_000_000
  const MAX_DELAY := 30 * SECOND

  /** The loop of reconnectDelay with `doublings` iterations to go. */
  function DelayFrom(delay: int, doublings: nat): int
    decreases doublings
  {
    if doublings == 0 then delay else
    var d := Wrap(delay * 2);
    if d >= MAX_DELAY then MAX_DELAY else DelayFrom(d, doublings - 1)
  }

  function Delay(interval: int, attempt: int): int {
    DelayFrom(interval, if attempt < 1 then 0 else attempt - 1)
  }

  method ReconnectDelay(interval: int, attempt: int) returns (delay: int)
    ensures delay == Delay(interval, attempt)
  {
    var n := attempt;
    if n < 1 {
      n := 1;
    }
    delay := interval;
    var i := 1;
    while i < n
      invariant 1 <= i <= n
      invariant DelayFrom(delay, n - i) == DelayFrom(interval, n - 1)
    {
      delay := Wrap(delay * 2);
      if delay >= MAX_DELAY {
        return MAX_DELAY;
      }
      i := i + 1;
    }
  }

  /** What the backoff is meant to be: doubled per attempt and capped, except that the first wait is not capped. */
  function Intended(interval: int, attempt: int): int {
    if attempt <= 1 then interval else
    var d := interval * Pow2(attempt - 1);
    if d < MAX_DELAY then d else MAX_DELAY
  }

  lemma {:induction false} DelayFromClosed(delay: int, n: nat)
    requires 0 < delay < INT64_LIMIT / 2
    ensures DelayFrom(delay, n) == Intended(delay, n + 1)
    decreases n
  {
    if n == 0 {
    } else {
      assert delay * Pow2(n) == delay * 2 * Pow2(n - 1);
      var d := delay * 2;
      if d >= MAX_DELAY {
        Scaled(d, Pow2(n - 1));
      } else {
        DelayFromClosed(d, n - 1);
        assert Pow2(0) == 1;
      }
    }
  }

  lemma Scaled(d: int, k: nat)
    requires d > 0 && k > 0
    ensures d * k >= d
  {
  }

  /**
   The loop computes the intended backoff for every attempt exactly when twice the interval does not
   overflow; for longer intervals already the second attempt goes wrong.
   */
  lemma DelayAsIntended(interval: int)
    requires 0 < interval < INT64_LIMIT
    ensures (forall attempt: int {:trigger Delay(interval, attempt)} ::
               Delay(interval, attempt) == Intended(interval, attempt))
            <==> 2 * interval < INT64_LIMIT
  {
    if 2 * interval < INT64_LIMIT {
      forall attempt: int ensures Delay(interval, attempt) == Intended(interval, attempt) {
        DelayFromClosed(interval, if attempt < 1 then 0 else attempt - 1);
      }
    } else {
      assert Wrap(interval * 2) == interval * 2 - 2 * INT64_LIMIT;
      assert DelayFrom(interval, 1) == interval * 2 - 2 * INT64_LIMIT;
      assert Delay(interval, 2) < 0;
      assert Pow2(1) == 2;
      assert Intended(interval, 2) == MAX_DELAY;
    }
  }

  lemma {:induction false} Pow2Monotone(a: nat, b: nat)
    requires a <= b
    ensures Pow2(a) <= Pow2(b)
  {
    if a == b {
    } else {
      Pow2Monotone(a, b - 1);
    }
  }

  lemma MultiplyMonotone(d: int, x: int, y: int)
    requires d > 0 && x <= y
    ensures d * x <= d * y
  {
  }

  /** For intervals up to the cap the delay grows with the attempt and never exceeds the cap. */
  lemma DelayMonotone(interval: int, a: int, b: int)
    requires 0 < interval <= MAX_DELAY && a <= b
    ensures 0 < Delay(interval, a) <= Delay(interval, b) <= MAX_DELAY
  {
    var m, n := if a < 1 then 0 else a - 1, if b < 1 then 0 else b - 1;
    assert Pow2(0) == 1;
    Pow2Monotone(0, m);
    Pow2Monotone(m, n);
    DelayFromClosed(interval, m);
    DelayFromClosed(interval, n);
    hide Pow2, DelayFrom;
    MultiplyMonotone(interval, Pow2(0), Pow2(m));
    MultiplyMonotone(interval, Pow2(m), Pow2(n));
  }

  /** The cap holds for every attempt exactly when the interval itself respects it. */
  lemma DelayCapped(interval: int)
    requires 0 < interval < INT64_LIMIT
    ensures (forall attempt: int :: Delay(interval, attempt) <= 30_000_000_000) <==> interval <= 30_000_000_000
  {
    DelayAsIntended(interval);
    assert Delay(interval, 1) == interval;
  }
}
