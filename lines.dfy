/** The integer Bresenham rasteriser of src/lines.rs.

    A line is four unsigned coordinates. The rasteriser picks the shallow or
    the steep helper, orders the endpoints so that the loop variable grows,
    and the helper plots one pixel per unit step on its iteration axis,
    stepping the other coordinate by one whenever the error term is positive.
    The pixel sink is a `Screen` that records every plotted pixel in order.
 */
module Lines {
  import opened Midpoint

  /** Every coordinate below 2^30 keeps each i32 intermediate in range. */
  const CoordBound: int := 0x4000_0000
  const I32Min: int := -0x8000_0000
  const I32Max: int := 0x7fff_ffff

  predicate IsI32(v: int) { I32Min <= v <= I32Max }

  function Abs(v: int): nat { if v < 0 then -v else v }

  /** The perpendicular step: -1 for a negative delta, +1 otherwise. */
  function StepDir(delta: int): int { if delta < 0 then -1 else 1 }

  /** A segment between (x0, y0) and (x1, y1) on the pixel grid. */
  datatype Line = Line(x0: nat, y0: nat, x1: nat, y1: nat) {
    predicate InRange() {
      x0 < CoordBound && y0 < CoordBound && x1 < CoordBound && y1 < CoordBound
    }

    /** The same segment with its endpoints exchanged. */
    function Reversed(): Line { Line(x1, y1, x0, y0) }

    function Dx(): int { x1 - x0 }
    function Dy(): int { y1 - y0 }
  }

  datatype Pixel = Pixel(x: nat, y: nat)

  /** The pixel sink: remembers every pixel it was asked to plot, in order. */
  class Screen {
    var plotted: seq<Pixel>

    constructor ()
      ensures plotted == []
    {
      plotted := [];
    }

    method PlotPixel(x: nat, y: nat)
      modifies this
      ensures plotted == old(plotted) + [Pixel(x, y)]
    {
      plotted := plotted + [Pixel(x, y)];
    }

    /** Rasterise `line` with the shallow helper when |dy| < |dx| and with the
        steep one otherwise, first exchanging the endpoints when the loop
        variable would decrease. */
    method BresenhamLine(line: Line)
      requires line.InRange()
      modifies this
      ensures plotted == old(plotted) + LineTrace(line)
    {
      assert IsI32(line.Dx()) && IsI32(line.Dy());
      if Abs(line.y1 - line.y0) < Abs(line.x1 - line.x0) {
        if line.x1 > line.x0 {
          BresenhamHorizontal(this, line.x0, line.y0, line.x1, line.y1);
        } else {
          BresenhamHorizontal(this, line.x1, line.y1, line.x0, line.y0);
        }
      } else {
        if line.y1 > line.y0 {
          BresenhamVertical(this, line.x0, line.y0, line.x1, line.y1);
        } else {
          BresenhamVertical(this, line.x1, line.y1, line.x0, line.y0);
        }
      }
    }
  }

  /** The error term of a helper walking `run` steps and rising `rise` fits in
      an i32 at every step. For a slope of at most one it is bounded by 2 * rise;
      for a steeper slope it grows each step up to its value after the last. */
  predicate ErrorTermFits(run: nat, rise: nat) {
    rise <= run || 2 * rise + 2 * run * (rise - run) - run <= I32Max
  }

  /** Below the coordinate bound, an error term that fits is an i32 at every step. */
  lemma ErrorTermInI32(k: nat, run: nat, rise: nat)
    requires 0 < run < CoordBound && rise < CoordBound && k <= run
    requires ErrorTermFits(run, rise)
    ensures IsI32(ErrorTerm(k, Offset(k, run, rise), run, rise))
  {
    ErrorTermRange(k, run, rise);
  }

  /** One iteration of either helper's loop, `pos` being the coordinate that
      moves toward `to` and `d` the error term: the branch on the sign of `d`
      yields the position and error term of the next step, both in i32 range. */
  lemma LoopStep(k: nat, run: nat, from: nat, to: nat, pos: int, d: int)
    requires k < run < CoordBound && from < CoordBound && to < CoordBound
    requires ErrorTermFits(run, Abs(to - from))
    requires pos == MoveToward(from, to, Offset(k, run, Abs(to - from)))
    requires d == ErrorTerm(k, Offset(k, run, Abs(to - from)), run, Abs(to - from))
    ensures var rise := Abs(to - from);
      var pos', d' := if d > 0 then pos + StepDir(to - from) else pos,
                      if d > 0 then d + 2 * (rise - run) else d + 2 * rise;
      && pos' == MoveToward(from, to, Offset(k + 1, run, rise))
      && d' == ErrorTerm(k + 1, Offset(k + 1, run, rise), run, rise)
      && IsI32(pos') && IsI32(d')
  {
    DecisionStep(k, run, Abs(to - from));
    ErrorTermInI32(k + 1, run, Abs(to - from));
  }

  /** What the shallow helper plots: the first x1 - x0 columns from x0, the
      row at column x0 + k being y0 moved toward y1 by Offset(k), that is by
      the integer nearest to k * |y1 - y0| / (x1 - x0) but at most k. */
  function ShallowTrace(x0: nat, y0: nat, x1: nat, y1: nat): seq<Pixel>
    requires x0 <= x1
  {
    var run, rise := x1 - x0, Abs(y1 - y0);
    seq(run, k requires 0 <= k < run => Pixel(x0 + k, MoveToward(y0, y1, Offset(k, run, rise))))
  }

  /** Exchanges the coordinates of every pixel. */
  function Transpose(t: seq<Pixel>): seq<Pixel> {
    seq(|t|, k requires 0 <= k < |t| => Pixel(t[k].y, t[k].x))
  }

  /** What the steep helper plots: the first y1 - y0 rows from y0, the column
      at row y0 + k being x0 moved toward x1 by Offset(k) of the transposed
      line. */
  function SteepTrace(x0: nat, y0: nat, x1: nat, y1: nat): seq<Pixel>
    requires y0 <= y1
  {
    var run, rise := y1 - y0, Abs(x1 - x0);
    seq(run, k requires 0 <= k < run => Pixel(MoveToward(x0, x1, Offset(k, run, rise)), y0 + k))
  }

  /** The steep trace is the shallow trace of the transposed line with x and y
      exchanged back. */
  lemma SteepTransposed(x0: nat, y0: nat, x1: nat, y1: nat)
    requires y0 <= y1
    ensures SteepTrace(x0, y0, x1, y1) == Transpose(ShallowTrace(y0, x0, y1, x1))
  {
  }

  /** The shallow helper, for endpoints ordered by x. */
  method BresenhamHorizontal(screen: Screen, x0: nat, y0: nat, x1: nat, y1: nat)
    requires x0 <= x1
    requires x1 < CoordBound && y0 < CoordBound && y1 < CoordBound
    requires ErrorTermFits(x1 - x0, Abs(y1 - y0))
    modifies screen
    ensures screen.plotted == old(screen.plotted) + ShallowTrace(x0, y0, x1, y1)
  {
    var dy := y1 - y0;
    var yi := 1;
    if dy < 0 {
      yi, dy := -1, -dy;
    }
    var dx := x1 - x0;
    var deltaH := 2 * dy;
    var deltaD := 2 * (dy - dx);
    assert IsI32(deltaH) && IsI32(deltaD);
    var y: int := y0;
    var d := 2 * dy - dx;
    ghost var trace := ShallowTrace(x0, y0, x1, y1);
    for x := x0 to x1
      invariant screen.plotted == old(screen.plotted) + trace[..x - x0]
      invariant y == MoveToward(y0, y1, Offset(x - x0, dx, dy))
      invariant d == ErrorTerm(x - x0, Offset(x - x0, dx, dy), dx, dy)
      invariant IsI32(d) && IsI32(y)
    {
      screen.PlotPixel(x, y);
      assert trace[..x + 1 - x0] == trace[..x - x0] + [Pixel(x, y)];
      LoopStep(x - x0, dx, y0, y1, y, d);
      if d > 0 {
        y := y + yi;
        d := d + deltaD;
      } else {
        d := d + deltaH;
      }
    }
    assert trace[..x1 - x0] == trace;
  }

  /** The steep helper, for endpoints ordered by y: the shallow helper with the
      roles of x and y exchanged. */
  method BresenhamVertical(screen: Screen, x0: nat, y0: nat, x1: nat, y1: nat)
    requires y0 <= y1
    requires x0 < CoordBound && x1 < CoordBound && y1 < CoordBound
    requires ErrorTermFits(y1 - y0, Abs(x1 - x0))
    modifies screen
    ensures screen.plotted == old(screen.plotted) + SteepTrace(x0, y0, x1, y1)
  {
    var dx := x1 - x0;
    var xi := 1;
    if dx < 0 {
      xi, dx := -1, -dx;
    }
    var dy := y1 - y0;
    var deltaV := 2 * dx;
    var deltaD := 2 * (dx - dy);
    assert IsI32(deltaV) && IsI32(deltaD);
    var x: int := x0;
    var d := 2 * dx - dy;
    ghost var trace := SteepTrace(x0, y0, x1, y1);
    for y := y0 to y1
      invariant screen.plotted == old(screen.plotted) + trace[..y - y0]
      invariant x == MoveToward(x0, x1, Offset(y - y0, dy, dx))
      invariant d == ErrorTerm(y - y0, Offset(y - y0, dy, dx), dy, dx)
      invariant IsI32(d) && IsI32(x)
    {
      screen.PlotPixel(x, y);
      assert trace[..y + 1 - y0] == trace[..y - y0] + [Pixel(x, y)];
      LoopStep(y - y0, dy, x0, x1, x, d);
      if d > 0 {
        x := x + xi;
        d := d + deltaD;
      } else {
        d := d + deltaV;
      }
    }
    assert trace[..y1 - y0] == trace;
  }

  /** Which helper the rasteriser calls, and with which ordered endpoints. */
  datatype Helper = Horizontal | Vertical

  datatype Call = Call(helper: Helper, x0: nat, y0: nat, x1: nat, y1: nat) {
    /** The loop variable of the called helper does not decrease. */
    predicate Ordered() {
      if helper == Horizontal then x0 <= x1 else y0 <= y1
    }

    function Endpoints(): Line { Line(x0, y0, x1, y1) }
  }

  /** The helper call the rasteriser makes for `line`. */
  function Dispatch(line: Line): (c: Call)
    ensures c.Ordered()
    ensures c.helper == Horizontal <==> Abs(line.Dy()) < Abs(line.Dx())
    ensures c.helper == Horizontal ==> c.x0 < c.x1
    ensures c.Endpoints() == line || c.Endpoints() == line.Reversed()
  {
    if Abs(line.y1 - line.y0) < Abs(line.x1 - line.x0) then
      if line.x1 > line.x0 then Call(Horizontal, line.x0, line.y0, line.x1, line.y1)
      else Call(Horizontal, line.x1, line.y1, line.x0, line.y0)
    else
      if line.y1 > line.y0 then Call(Vertical, line.x0, line.y0, line.x1, line.y1)
      else Call(Vertical, line.x1, line.y1, line.x0, line.y0)
  }

  /** The pixels a helper call plots. */
  function CallTrace(c: Call): seq<Pixel>
    requires c.Ordered()
  {
    match c.helper
    case Horizontal => ShallowTrace(c.x0, c.y0, c.x1, c.y1)
    case Vertical => SteepTrace(c.x0, c.y0, c.x1, c.y1)
  }

  /** The pixels the rasteriser plots for `line`, in order: one per unit
      step along the dominant axis. */
  function LineTrace(line: Line): (t: seq<Pixel>)
    ensures |t| == Max(Abs(line.Dx()), Abs(line.Dy()))
  {
    CallTrace(Dispatch(line))
  }
}
