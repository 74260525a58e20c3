/**
 * Python's built-in `round(x)` on a float `x` that stands for the rational
 * `n / d`: the nearest integer, a tie going to the even neighbour. The disk
 * sensor's `delta * .5` is exactly `delta / 2`; for the scheduler's delay see
 * DelayMillis.
 */
module Rounding {

  function Dist(a: int, b: int): nat {
    if a <= b then b - a else a - b
  }

  /** `round(n / d)` for `d > 0`, with ties to even. */
  function RoundHalfEven(n: int, d: int): (r: int)
    requires d > 0
    ensures 2 * Dist(r * d, n) <= d
    ensures 2 * Dist(r * d, n) == d ==> r % 2 == 0
  {
    var q, m := n / d, n % d;
    assert n == q * d + m;
    assert (q + 1) * d == q * d + d;
    if 2 * m < d then q
    else if 2 * m > d then q + 1
    else if q % 2 == 0 then q
    else q + 1
  }

  lemma ScaledDist(k: int, r: int, d: int)
    requires d > 0
    ensures Dist(k * d, r * d) == Dist(k, r) * d
  {
    if k <= r {
      assert r * d - k * d == (r - k) * d;
    } else {
      assert k * d - r * d == (k - r) * d;
    }
  }

  lemma AtLeastTwice(e: int, d: int)
    requires d > 0
    ensures e >= 2 ==> e * d >= 2 * d
  {
    if e >= 2 {
      assert e * d == 2 * d + (e - 2) * d;
    }
  }

  /**
   * The result of RoundHalfEven is the only integer that is strictly nearer than
   * half a unit to `n / d`, or exactly half a unit away and even.
   */
  lemma RoundHalfEvenUnique(n: int, d: int, k: int)
    requires d > 0
    requires 2 * Dist(k * d, n) < d || (2 * Dist(k * d, n) == d && k % 2 == 0)
    ensures k == RoundHalfEven(n, d)
  {
    var r := RoundHalfEven(n, d);
    var a, b, e := Dist(k * d, n), Dist(r * d, n), Dist(k, r);
    ScaledDist(k, r, d);
    assert e * d <= a + b <= d;
    AtLeastTwice(e, d);
    assert e <= 1;
    assert e == 1 ==> 2 * a == d && 2 * b == d;
    assert e == 0;
  }

  /**
   * The disk sensor's `round(delta * .5)`: `delta * .5` is exactly `delta / 2`,
   * so an odd delta is a tie and goes to the even neighbour.
   */
  function HalfRounded(delta: int): (r: int)
    ensures delta % 2 == 0 ==> 2 * r == delta
    ensures delta % 2 == 1 ==> r % 2 == 0 && (2 * r == delta - 1 || 2 * r == delta + 1)
  {
    RoundHalfEven(delta, 2)
  }

  lemma HalfRoundedExamples()
    ensures HalfRounded(3) == 2 && HalfRounded(5) == 2 && HalfRounded(1) == 0
    ensures HalfRounded(-3) == -2 && HalfRounded(-1) == 0 && HalfRounded(400) == 200
  {
    RoundHalfEvenUnique(3, 2, 2);
    RoundHalfEvenUnique(5, 2, 2);
    RoundHalfEvenUnique(1, 2, 0);
    RoundHalfEvenUnique(-3, 2, -2);
    RoundHalfEvenUnique(-1, 2, 0);
    RoundHalfEvenUnique(400, 2, 200);
  }

  /** The microsecond field of a wall-clock time, as `datetime.microsecond` gives it. */
  type Microsecond = m: int | 0 <= m < 1000000

  /**
   * The scheduler's `round((1000000 - microsecond) / 1000)`: the milliseconds
   * left until the next whole second, rounded half to even. The float quotient
   * is not always exactly n / 1000, but `round` of it is `RoundHalfEven(n, 1000)`
   * all the same: a tie (n ending in 500) is a multiple of one half, which the
   * division yields exactly, and any other quotient is at least 0.001 away from
   * the nearest half, far more than the division's rounding error.
   */
  function DelayMillis(microsecond: Microsecond): (delay: int)
    ensures 0 <= delay <= 1000
    ensures 2 * Dist(microsecond + delay * 1000, 1000000) <= 1000
  {
    var delay := RoundHalfEven(1000000 - microsecond, 1000);
    assert Dist(microsecond + delay * 1000, 1000000) == Dist(delay * 1000, 1000000 - microsecond);
    delay
  }
}
