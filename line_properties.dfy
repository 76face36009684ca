/** What the Bresenham rasteriser plots: count, order, direction, rounding,
    reversal and the regression traces. */
module LineProperties {
  import opened Midpoint
  import opened Lines

  /** A walk across columns: each pixel is one column right of the previous
      one, on the same row or one row further in direction `dir`. */
  predicate ColumnWalk(t: seq<Pixel>, dir: int) {
    forall k :: 0 < k < |t| ==>
      t[k].x == t[k - 1].x + 1 && (t[k].y == t[k - 1].y || t[k].y == t[k - 1].y + dir)
  }

  /** Along a column walk the row moves monotonically in direction `dir`, by at
      most one row per column. */
  lemma {:induction false} ColumnWalkMonotone(t: seq<Pixel>, dir: int, i: nat, j: nat)
    requires ColumnWalk(t, dir) && (dir == 1 || dir == -1) && i <= j < |t|
    ensures t[j].x == t[i].x + (j - i)
    ensures dir == 1 ==> t[i].y <= t[j].y <= t[i].y + (j - i)
    ensures dir == -1 ==> t[i].y - (j - i) <= t[j].y <= t[i].y
  {
    if i < j {
      ColumnWalkMonotone(t, dir, i, j - 1);
    }
  }

  /** The shallow helper plots one pixel per column from x0 up to, but not
      including, x1; it starts at (x0, y0), each row is the previous one or one
      further toward y1, and every row lies between y0 and y1. */
  lemma ShallowShape(x0: nat, y0: nat, x1: nat, y1: nat)
    requires x0 <= x1
    ensures var t := ShallowTrace(x0, y0, x1, y1);
      && |t| == x1 - x0
      && (forall k :: 0 <= k < |t| ==> t[k].x == x0 + k)
      && (|t| > 0 ==> t[0] == Pixel(x0, y0))
      && ColumnWalk(t, StepDir(y1 - y0))
      && (forall k :: 0 <= k < |t| ==> Min(y0, y1) <= t[k].y <= Max(y0, y1))
      && Pixel(x1, y1) !in t
  {
    var t := ShallowTrace(x0, y0, x1, y1);
    forall k | 0 < k < |t|
      ensures t[k].y == t[k - 1].y || t[k].y == t[k - 1].y + StepDir(y1 - y0)
    {
      DecisionStep(k - 1, x1 - x0, Abs(y1 - y0));
    }
  }

  /** Rows never move back: along the shallow trace y is monotone in the
      direction of y1, and changes by at most one per column. */
  lemma ShallowMonotone(x0: nat, y0: nat, x1: nat, y1: nat, i: nat, j: nat)
    requires x0 <= x1 && i <= j < x1 - x0
    ensures var t := ShallowTrace(x0, y0, x1, y1);
      0 <= StepDir(y1 - y0) * (t[j].y - t[i].y) <= j - i
  {
    ShallowShape(x0, y0, x1, y1);
    ColumnWalkMonotone(ShallowTrace(x0, y0, x1, y1), StepDir(y1 - y0), i, j);
  }

  /** For a slope of at most one the row at column x0 + k is y0 moved toward y1
      by the integer nearest to k * |y1 - y0| / (x1 - x0), a tie going toward y0. */
  lemma ShallowRounds(x0: nat, y0: nat, x1: nat, y1: nat, k: nat)
    requires x0 <= x1 && Abs(y1 - y0) <= x1 - x0 && k < x1 - x0
    ensures var t := ShallowTrace(x0, y0, x1, y1);
      Abs(t[k].y - y0) == RoundHalfDown(k * Abs(y1 - y0), x1 - x0)
  {
    OffsetRounds(k, x1 - x0, Abs(y1 - y0));
  }

  /** The steep helper plots one pixel per row from y0 up to, but not
      including, y1; it starts at (x0, y0), each column is the previous one or
      one further toward x1, and every column lies between x0 and x1. */
  lemma SteepShape(x0: nat, y0: nat, x1: nat, y1: nat)
    requires y0 <= y1
    ensures var t := SteepTrace(x0, y0, x1, y1);
      && |t| == y1 - y0
      && (forall k :: 0 <= k < |t| ==> t[k].y == y0 + k)
      && (|t| > 0 ==> t[0] == Pixel(x0, y0))
      && (forall k :: 0 < k < |t| ==> t[k].x == t[k - 1].x || t[k].x == t[k - 1].x + StepDir(x1 - x0))
      && (forall k :: 0 <= k < |t| ==> Min(x0, x1) <= t[k].x <= Max(x0, x1))
      && Pixel(x1, y1) !in t
  {
    SteepTransposed(x0, y0, x1, y1);
    ShallowShape(y0, x0, y1, x1);
  }

  /** Columns never move back: along the steep trace x is monotone in the
      direction of x1, and changes by at most one per row. */
  lemma SteepMonotone(x0: nat, y0: nat, x1: nat, y1: nat, i: nat, j: nat)
    requires y0 <= y1 && i <= j < y1 - y0
    ensures var t := SteepTrace(x0, y0, x1, y1);
      0 <= StepDir(x1 - x0) * (t[j].x - t[i].x) <= j - i
  {
    SteepTransposed(x0, y0, x1, y1);
    ShallowMonotone(y0, x0, y1, x1, i, j);
  }

  /** For a slope of at least one the column at row y0 + k is x0 moved toward x1
      by the integer nearest to k * |x1 - x0| / (y1 - y0), a tie going toward x0. */
  lemma SteepRounds(x0: nat, y0: nat, x1: nat, y1: nat, k: nat)
    requires y0 <= y1 && Abs(x1 - x0) <= y1 - y0 && k < y1 - y0
    ensures var t := SteepTrace(x0, y0, x1, y1);
      Abs(t[k].x - x0) == RoundHalfDown(k * Abs(x1 - x0), y1 - y0)
  {
    SteepTransposed(x0, y0, x1, y1);
    ShallowRounds(y0, x0, y1, x1, k);
  }

  /** Exchanging the endpoints leads to the very same helper call, hence the
      same pixels in the same order. */
  lemma LineReversal(line: Line)
    ensures Dispatch(line.Reversed()) == Dispatch(line)
    ensures LineTrace(line.Reversed()) == LineTrace(line)
  {
  }

  /** The trace starts at the endpoint the loop starts from and never reaches
      the other endpoint; it is empty exactly for a zero-length line. */
  lemma LineEndpoints(line: Line)
    ensures var c, t := Dispatch(line), LineTrace(line);
      && (t == [] <==> line.x0 == line.x1 && line.y0 == line.y1)
      && (t != [] ==> t[0] == Pixel(c.x0, c.y0))
      && Pixel(c.x1, c.y1) !in t
  {
    var c := Dispatch(line);
    if c.helper == Horizontal {
      ShallowShape(c.x0, c.y0, c.x1, c.y1);
    } else {
      SteepShape(c.x0, c.y0, c.x1, c.y1);
    }
  }

  /** Two pixels are distinct eight-neighbours. */
  predicate Neighbours(p: Pixel, q: Pixel) {
    p != q && Abs(p.x - q.x) <= 1 && Abs(p.y - q.y) <= 1
  }

  lemma ShallowConnected(x0: nat, y0: nat, x1: nat, y1: nat)
    requires x0 <= x1
    ensures var t := ShallowTrace(x0, y0, x1, y1);
      forall k :: 0 < k < |t| ==> Neighbours(t[k - 1], t[k])
  {
    ShallowShape(x0, y0, x1, y1);
  }

  lemma SteepConnected(x0: nat, y0: nat, x1: nat, y1: nat)
    requires y0 <= y1
    ensures var t := SteepTrace(x0, y0, x1, y1);
      forall k :: 0 < k < |t| ==> Neighbours(t[k - 1], t[k])
  {
    SteepShape(x0, y0, x1, y1);
  }

  /** Consecutive pixels are distinct eight-neighbours. */
  lemma LineConnected(line: Line)
    ensures var t := LineTrace(line);
      forall k :: 0 < k < |t| ==> Neighbours(t[k - 1], t[k])
  {
    var c := Dispatch(line);
    if c.helper == Horizontal {
      ShallowConnected(c.x0, c.y0, c.x1, c.y1);
    } else {
      SteepConnected(c.x0, c.y0, c.x1, c.y1);
    }
  }

  /** Every pixel lies in the line's bounding box. */
  lemma LineInBox(line: Line)
    ensures var t := LineTrace(line);
      forall k :: 0 <= k < |t| ==>
        Min(line.x0, line.x1) <= t[k].x <= Max(line.x0, line.x1) &&
        Min(line.y0, line.y1) <= t[k].y <= Max(line.y0, line.y1)
  {
    var c := Dispatch(line);
    if c.helper == Horizontal {
      ShallowShape(c.x0, c.y0, c.x1, c.y1);
    } else {
      SteepShape(c.x0, c.y0, c.x1, c.y1);
    }
  }

  /** The textbook shallow trace. */
  lemma ShallowExample()
    ensures LineTrace(Line(0, 0, 5, 2)) ==
      [Pixel(0, 0), Pixel(1, 0), Pixel(2, 1), Pixel(3, 1), Pixel(4, 2)]
  {
    assert RoundHalfDown(2, 5) == 0 && RoundHalfDown(4, 5) == 1;
    assert RoundHalfDown(6, 5) == 1 && RoundHalfDown(8, 5) == 2;
  }

  /** A vertical segment goes through the steep helper and stops short of y = 4. */
  lemma VerticalExample()
    ensures Dispatch(Line(3, 0, 3, 4)).helper == Vertical
    ensures LineTrace(Line(3, 0, 3, 4)) == [Pixel(3, 0), Pixel(3, 1), Pixel(3, 2), Pixel(3, 3)]
  {
    var s := [Pixel(0, 3), Pixel(1, 3), Pixel(2, 3), Pixel(3, 3)];
    assert Dispatch(Line(3, 0, 3, 4)) == Call(Vertical, 3, 0, 3, 4);
    assert ShallowTrace(0, 3, 4, 3) == s;
    assert Transpose(s) == [Pixel(3, 0), Pixel(3, 1), Pixel(3, 2), Pixel(3, 3)];
    SteepTransposed(3, 0, 3, 4);
  }

  /** A zero-length segment goes through the steep helper and plots nothing. */
  lemma PointExample()
    ensures Dispatch(Line(2, 2, 2, 2)).helper == Vertical
    ensures LineTrace(Line(2, 2, 2, 2)) == []
  {
  }
}
