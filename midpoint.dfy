/** Integer arithmetic behind the Bresenham error term.

    A helper walks `run` unit steps along its iteration axis while the line
    rises `rise` units on the other axis. After k steps the ideal line has
    risen k * rise / run; the pixel drawn is offset from the start row by the
    integer nearest to that value (a tie goes toward the start row), but never
    by more than k, since the helper moves at most one row per step.
 */
module Midpoint {

  function Min(a: int, b: int): int { if a <= b then a else b }

  function Max(a: int, b: int): int { if a < b then b else a }

  /** `from` moved by m toward `to`. */
  function MoveToward(from: int, to: int, m: int): int {
    if to < from then from - m else from + m
  }

  /** m is the integer nearest to n / den, a tie going to the smaller one:
      m - 1/2 < n / den <= m + 1/2, written without fractions. */
  predicate IsNearest(m: int, n: int, den: int) {
    2 * (den * m) - den < 2 * n <= 2 * (den * m) + den
  }

  /** Multiplication by a non-negative number keeps an order. */
  lemma MulMono(a: int, b: int, c: int)
    requires a <= b && 0 <= c
    ensures a * c <= b * c
  {
    assert b * c - a * c == (b - a) * c;
  }

  /** There is only one nearest integer. */
  lemma NearestUnique(m1: int, m2: int, n: int, den: int)
    requires den > 0 && IsNearest(m1, n, den) && IsNearest(m2, n, den)
    ensures m1 == m2
  {
    if m1 < m2 {
      MulMono(m1 + 1, m2, 2 * den);
      assert false;
    } else if m2 < m1 {
      MulMono(m2 + 1, m1, 2 * den);
      assert false;
    }
  }

  /** The integer nearest to n / den, ties rounded down. */
  function RoundHalfDown(n: nat, den: nat): (r: nat)
    requires den > 0
    ensures IsNearest(r, n, den)
  {
    (2 * n + den - 1) / (2 * den)
  }

  /** Row offset after k of `run` steps of a line rising `rise`. */
  function Offset(k: nat, run: nat, rise: nat): (m: nat)
    requires k <= run
    ensures m <= k && m <= rise
    ensures run <= rise ==> m == k
    ensures 0 < run && rise <= run ==> IsNearest(m, k * rise, run)
  {
    if k == 0 then
      assert k * rise == 0;
      0
    else if run < rise then
      k
    else
      var r := RoundHalfDown(k * rise, run);
      NearestAtMostSteps(r, k, run, rise);
      NearestAtMostRise(r, k, run, rise);
      if run == rise then NearestAtLeastSteps(r, k, run, rise); r else r
  }

  /** For a slope of at most one the nearest offset never exceeds the step count. */
  lemma NearestAtMostSteps(m: int, k: nat, run: nat, rise: nat)
    requires 0 < run && rise <= run && IsNearest(m, k * rise, run)
    ensures m <= k
  {
    MulMono(rise, run, k);
    if m > k {
      MulMono(k + 1, m, 2 * run);
      assert false;
    }
  }

  /** Within the run the nearest offset never exceeds the rise. */
  lemma NearestAtMostRise(m: int, k: nat, run: nat, rise: nat)
    requires 0 < run && k <= run && IsNearest(m, k * rise, run)
    ensures m <= rise
  {
    MulMono(k, run, rise);
    if m > rise {
      MulMono(rise + 1, m, 2 * run);
      assert false;
    }
  }

  /** For a slope of at least one the nearest offset is at least the step count. */
  lemma NearestAtLeastSteps(m: int, k: nat, run: nat, rise: nat)
    requires 0 < run && run <= rise && IsNearest(m, k * rise, run)
    ensures k <= m
  {
    MulMono(run, rise, k);
    if m < k {
      MulMono(m + 1, k, 2 * run);
      assert false;
    }
  }

  /** The error term kept by the helpers: twice the run times the gap between
      the ideal line at the next step's midpoint and the current row,
      2 * rise * (k + 1) - run - 2 * run * m. */
  function ErrorTerm(k: int, m: int, run: int, rise: int): int {
    2 * (rise * (k + 1)) - run - 2 * (run * m)
  }

  /** The decision the helpers take: the offset grows by one at step k exactly
      when the error term is positive, and the error term moves by
      2 * (rise - run) or 2 * rise accordingly. */
  lemma {:induction false} DecisionStep(k: nat, run: nat, rise: nat)
    requires k < run
    ensures var m, d := Offset(k, run, rise), ErrorTerm(k, Offset(k, run, rise), run, rise);
      if d > 0 then
        Offset(k + 1, run, rise) == m + 1 &&
        ErrorTerm(k + 1, m + 1, run, rise) == d + 2 * (rise - run)
      else
        Offset(k + 1, run, rise) == m &&
        ErrorTerm(k + 1, m, run, rise) == d + 2 * rise
  {
    var m, m' := Offset(k, run, rise), Offset(k + 1, run, rise);
    ErrorTermShift(k, m, run, rise);
    if rise <= run {
      NearestStep(m, m', k, run, rise);
    } else {
      SteepPositive(k, run, rise);
    }
  }

  /** Moving one step along and s rows across changes the error term by
      2 * rise - 2 * run * s. */
  lemma ErrorTermShift(k: int, m: int, run: int, rise: int)
    ensures ErrorTerm(k + 1, m + 1, run, rise) == ErrorTerm(k, m, run, rise) + 2 * (rise - run)
    ensures ErrorTerm(k + 1, m, run, rise) == ErrorTerm(k, m, run, rise) + 2 * rise
  {
    assert rise * (k + 2) == rise * (k + 1) + rise;
    assert run * (m + 1) == run * m + run;
  }

  /** The sign of the error term picks the nearest offset of the next step. */
  lemma NearestStep(m: int, m': int, k: nat, run: nat, rise: nat)
    requires 0 < run && rise <= run
    requires IsNearest(m, k * rise, run) && IsNearest(m', (k + 1) * rise, run)
    ensures ErrorTerm(k, m, run, rise) > 0 ==> m' == m + 1
    ensures ErrorTerm(k, m, run, rise) <= 0 ==> m' == m
  {
    var p, q := k * rise, run * m;
    assert (k + 1) * rise == p + rise;
    assert rise * (k + 1) == p + rise;
    assert run * (m + 1) == q + run;
    assert ErrorTerm(k, m, run, rise) == 2 * p + 2 * rise - run - 2 * q;
    if ErrorTerm(k, m, run, rise) > 0 {
      assert IsNearest(m + 1, p + rise, run);
      NearestUnique(m', m + 1, p + rise, run);
    } else {
      assert IsNearest(m, p + rise, run);
      NearestUnique(m', m, p + rise, run);
    }
  }

  /** Along a slope above one the error term stays positive while the offset
      equals the step count. */
  lemma SteepPositive(k: nat, run: nat, rise: nat)
    requires run < rise
    ensures ErrorTerm(k, k, run, rise) > 0
  {
    MulMono(run + 1, rise, k + 1);
    assert (run + 1) * (k + 1) == run * k + run + k + 1;
  }

  /** Bounds on the error term: within (2 * (rise - run), 2 * rise] for a slope
      of at most one; positive and at most its value after the last step for a
      steeper slope. */
  lemma ErrorTermRange(k: nat, run: nat, rise: nat)
    requires 0 < run && k <= run
    ensures var d := ErrorTerm(k, Offset(k, run, rise), run, rise);
      (rise <= run ==> 2 * (rise - run) < d <= 2 * rise) &&
      (run < rise ==> 0 < d <= 2 * rise + 2 * run * (rise - run) - run)
  {
    if run < rise {
      SteepRange(k, run, rise);
    } else {
      ShallowRange(Offset(k, run, rise), k, run, rise);
    }
  }

  /** For a slope of at most one the offset is the nearest integer to
      k * rise / run, ties rounded toward the start row. */
  lemma OffsetRounds(k: nat, run: nat, rise: nat)
    requires 0 < run && k <= run && rise <= run
    ensures Offset(k, run, rise) == RoundHalfDown(k * rise, run)
  {
    NearestUnique(Offset(k, run, rise), RoundHalfDown(k * rise, run), k * rise, run);
  }

  /** A shallow error term stays between 2 * (rise - run) and 2 * rise. */
  lemma ShallowRange(m: int, k: nat, run: nat, rise: nat)
    requires IsNearest(m, k * rise, run)
    ensures 2 * (rise - run) < ErrorTerm(k, m, run, rise) <= 2 * rise
  {
    assert rise * (k + 1) == k * rise + rise;
  }

  /** A steep error term is positive and at most its value after the last step. */
  lemma SteepRange(k: nat, run: nat, rise: nat)
    requires k <= run < rise
    ensures 0 < ErrorTerm(k, k, run, rise) <= 2 * rise + 2 * run * (rise - run) - run
  {
    SteepPositive(k, run, rise);
    assert ErrorTerm(k, k, run, rise) == 2 * rise + 2 * (k * (rise - run)) - run by {
      assert rise * (k + 1) == rise * k + rise;
      assert k * (rise - run) == k * rise - k * run;
    }
    MulMono(k, run, rise - run);
  }
}
