/** `Math.round(c / n * 100)`, the rate formula every completion figure in the application uses,
    in exact integer arithmetic: half-up rounding of 100·c/n. */
module Percent {

  /** The percentage `100·c/n` rounded half up, for a non-zero denominator. */
  function RoundedPercent(c: nat, n: nat): (r: nat)
    requires n > 0
    ensures 2 * n * r <= 200 * c + n < 2 * n * (r + 1)
  {
    DivBounds(200 * c + n, 2 * n);
    (200 * c + n) / (2 * n)
  }

  /** `n > 0 ? Math.round(c / n * 100) : 0`: the guarded rate. */
  function GuardedPercent(c: nat, n: nat): nat {
    if n > 0 then RoundedPercent(c, n) else 0
  }

  lemma DivBounds(a: nat, b: nat)
    requires b > 0
    ensures b * (a / b) <= a < b * (a / b + 1)
  {
  }

  /** The rounding characterisation pins the result down: at most one integer lies in the half-open window. */
  lemma RoundedUnique(c: nat, n: nat, q: nat)
    requires n > 0
    requires 2 * n * q <= 200 * c + n < 2 * n * (q + 1)
    ensures RoundedPercent(c, n) == q
  {
    var r := RoundedPercent(c, n);
    if r < q {
      MulMono(2 * n, r + 1, q);
    } else if q < r {
      MulMono(2 * n, q + 1, r);
    }
  }

  lemma MulMono(k: nat, a: nat, b: nat)
    requires a <= b
    ensures k * a <= k * b
  {
  }

  /** A completed count no larger than the total gives a rate in 0..100. */
  lemma {:induction false} PercentAtMost100(c: nat, n: nat)
    requires n > 0 && c <= n
    ensures RoundedPercent(c, n) <= 100
  {
    var r := RoundedPercent(c, n);
    MulMono(200, c, n);
    if r > 100 {
      MulMono(2 * n, 101, r);
    }
  }

  /** Everything completed rounds to exactly 100. */
  lemma {:induction false} AllCompletedIs100(n: nat)
    requires n > 0
    ensures RoundedPercent(n, n) == 100
  {
    RoundedUnique(n, n, 100);
  }

  /** Nothing completed rounds to exactly 0. */
  lemma {:induction false} NoneCompletedIs0(n: nat)
    requires n > 0
    ensures RoundedPercent(0, n) == 0
  {
    RoundedUnique(0, n, 0);
  }

  /** For a fixed total, the rate never decreases as the completed count grows. */
  lemma {:induction false} PercentMonotone(c1: nat, c2: nat, n: nat)
    requires n > 0 && c1 <= c2
    ensures RoundedPercent(c1, n) <= RoundedPercent(c2, n)
  {
    var r1, r2 := RoundedPercent(c1, n), RoundedPercent(c2, n);
    MulMono(200, c1, c2);
    if r2 < r1 {
      MulMono(2 * n, r2 + 1, r1);
    }
  }

  /** The converse of AllCompletedIs100 fails: with more than 200 items, all but one completed still shows 100. */
  lemma {:induction false} AllButOneRoundsTo100(n: nat)
    requires n > 200
    ensures RoundedPercent(n - 1, n) == 100
  {
    RoundedUnique(n - 1, n, 100);
  }

  /** The converse of NoneCompletedIs0 fails likewise: one completed item out of more than 200 shows 0. */
  lemma {:induction false} OneCompletedRoundsTo0(n: nat)
    requires n > 200
    ensures RoundedPercent(1, n) == 0
  {
    RoundedUnique(1, n, 0);
  }
}
