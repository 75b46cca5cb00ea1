/**
 * Facts about multiplication and Euclidean division by a positive number,
 * kept apart so that each is proved in a small context.
 */
module Arith {

  /** A positive multiple of a positive number is at least that number; a non-positive one is not positive. */
  lemma MulSign(x: int, d: int)
    requires d > 0
    ensures x >= 1 ==> x * d >= d
    ensures x <= 0 ==> x * d <= 0
  {
  }

  /** Euclidean division is determined by its quotient/remainder equation. */
  lemma DivModUnique(a: int, d: int, q: int, r: int)
    requires d > 0 && a == q * d + r && 0 <= r < d
    ensures a / d == q && a % d == r
  {
    var q0, r0 := a / d, a % d;
    assert a == q0 * d + r0;
    assert (q - q0) * d == r0 - r;
    assert (q0 - q) * d == r - r0;
    MulSign(q - q0, d);
    MulSign(q0 - q, d);
  }

  lemma MultipleMod(q: int, d: int)
    requires d > 0
    ensures (q * d) % d == 0 && (q * d) / d == q
  {
    DivModUnique(q * d, d, q, 0);
  }

  /** A multiple of `d` is `d` times its quotient. */
  lemma MultipleIsQuotientTimes(x: int, d: int)
    requires d > 0 && x % d == 0
    ensures x == (x / d) * d
  {
  }

  lemma MulMonotone(p: int, q: int, d: int)
    requires d > 0 && p * d <= q * d
    ensures p <= q
  {
    assert (p - q) * d == p * d - q * d;
    MulSign(p - q, d);
  }

  /** Distinct multiples of `d` are at least `d` apart. */
  lemma MulStep(p: int, q: int, d: int)
    requires d > 0 && p * d < q * d
    ensures p * d + d <= q * d
  {
    assert q * d - p * d == (q - p) * d;
    MulSign(q - p, d);
  }

  /** The next multiple of `d` after a multiple `x` is no earlier than `x + d`. */
  lemma AlignedNext(x: int, y: int, d: int)
    requires d > 0 && x % d == 0 && y % d == 0
    ensures x < y ==> x + d <= y
  {
    MultipleIsQuotientTimes(x, d);
    MultipleIsQuotientTimes(y, d);
    if x < y {
      MulStep(x / d, y / d, d);
    }
  }

  /** Adding a multiple of `d` to a multiple of `d` gives a multiple of `d`. */
  lemma MultipleShift(t: int, k: int, d: int)
    requires d > 0 && t % d == 0
    ensures (t + k * d) % d == 0
  {
    MultipleIsQuotientTimes(t, d);
    assert t + k * d == (t / d + k) * d;
    MultipleMod(t / d + k, d);
  }

  /** The start of slot `i` of a fresh window of `n` slots whose newest starts at `t`. */
  lemma ResetStart(t: int, n: int, i: int, d: int)
    ensures d + t - n * d + i * d == t - (n - 1 - i) * d
    ensures d + t - n * d + (i + 1) * d == (d + t - n * d + i * d) + d
  {
  }

  /**
   * In a window of `n` slots whose oldest starts at `first` and newest at
   * `last`, the negative index computed from the newest slot for an aligned
   * `tp` names the slot `tp` falls into.
   */
  lemma IndexFromNewest(first: int, last: int, tp: int, n: int, d: int)
    requires d > 0 && n >= 1 && first % d == 0 && tp % d == 0
    requires last == first + (n - 1) * d && first <= tp <= last
    ensures var p := n + (if tp < last then (tp - last) / d - 1 else -1);
      0 <= p < n && tp == first + p * d
  {
    MultipleIsQuotientTimes(tp, d);
    MultipleIsQuotientTimes(first, d);
    var a, b := tp / d, first / d;
    assert last == (b + n - 1) * d;
    MulMonotone(b, a, d);
    MulMonotone(a, b + n - 1, d);
    if tp < last {
      assert tp - last == (a - b - n + 1) * d;
      MultipleMod(a - b - n + 1, d);
    }
    assert tp == first + (a - b) * d;
  }

  /** Counting back from `e` in steps of `d`: position `i + 1` is one step after position `i`. */
  lemma StepBack(e: int, n: int, i: int, d: int)
    ensures e - (n - 1 - (i + 1)) * d == e - (n - 1 - i) * d + d
  {
  }

  /** The oldest of `n` multiples of `d` counting back from a multiple `e` is a multiple of `d`. */
  lemma OldestAligned(e: int, n: int, d: int)
    requires d > 0 && e % d == 0
    ensures (e - (n - 1) * d) % d == 0
  {
    assert e - (n - 1) * d == e + (1 - n) * d;
    MultipleShift(e, 1 - n, d);
  }

  /** Counting back fewer than `n` steps from more than `n` steps past `last` stays past `last`. */
  lemma BeyondLast(t: int, last: int, n: int, i: int, d: int)
    requires d > 0 && 0 <= i < n && t - last > n * d
    ensures t - (n - 1 - i) * d > last
  {
    assert n * d - (n - 1 - i) * d == (i + 1) * d;
    MulSign(i + 1, d);
  }

  /** The oldest of `n >= 1` steps back from `e` is not after `e`. */
  lemma OldestNotAfter(e: int, n: int, d: int)
    requires d > 0 && n >= 1
    ensures e - (n - 1) * d <= e
  {
    MulSign(n - 1, d);
  }

  /** Counting back from `e`, the newest of `n` positions is `e` itself. */
  lemma NewestStep(e: int, n: int, d: int)
    ensures e - (n - 1 - (n - 1)) * d == e
  {
  }

  /** The multiple of `d` after a multiple of `d`. */
  lemma NextMultiple(x: int, d: int)
    requires d > 0 && x % d == 0
    ensures (x + d) % d == 0
  {
    MultipleShift(x, 1, d);
  }

  /** One more multiple of `d`. */
  lemma MulSucc(n: int, d: int)
    ensures (n - 1) * d + d == n * d
  {
  }

  /**
   * `n // d`, plus one when `d` does not divide `n`, is the ceiling of
   * `n / d`: the least `c` with `n <= c * d`.
   */
  lemma CeilDiv(n: int, d: int)
    requires d > 0 && n >= 0
    ensures var c := n / d + (if n % d != 0 then 1 else 0);
      c >= 0 && (c - 1) * d < n <= c * d
  {
    var q, r := n / d, n % d;
    assert n == q * d + r;
    MulSign(q, d);
    MulSucc(q + 1, d);
    MulSucc(q, d);
  }

  /** The ceiling is unique. */
  lemma CeilUnique(n: int, d: int, c: int, e: int)
    requires d > 0
    requires (c - 1) * d < n <= c * d
    requires (e - 1) * d < n <= e * d
    ensures c == e
  {
    if c < e {
      assert (e - 1) * d - c * d == (e - 1 - c) * d;
      MulSign(e - 1 - c, d);
    } else if e < c {
      assert (c - 1) * d - e * d == (c - 1 - e) * d;
      MulSign(c - 1 - e, d);
    }
  }
}
