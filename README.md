# Integer Bresenham line rasteriser

A Dafny model of the integer-only Bresenham rasteriser in `src/lines.rs`. The
model also proves properties of what the rasteriser plots.

A `Line` holds four unsigned coordinates. `bresenham_line` compares `|y1 - y0|`
with `|x1 - x0|`:

- A shallow line (`|dy| < |dx|`) goes to `bresenham_horizontal`.
- Any other line goes to `bresenham_vertical`.

Before the call, the endpoints are swapped if needed so that the loop variable
grows. The shallow helper steps `x` from `x0` up to `x1 - 1`. It plots
`(x, y)`, and whenever its integer error term `d` is positive it moves `y` one
row toward `y1`. The steep helper does the same with `x` and `y` exchanged.

The files:

- `midpoint.dfy` (module `Midpoint`) holds the arithmetic behind the error
  term:
  - `RoundHalfDown` gives the nearest integer, with a tie rounded down.
  - `Offset(k, run, rise)` is the row offset after `k` steps. It is the
    integer nearest to `k * rise / run`, but never more than `k`.
  - `ErrorTerm` is the quantity `2*rise*(k+1) - run - 2*run*m`.
  - `DecisionStep` proves that the sign of the error term picks the next
    offset correctly.
- `lines.dfy` (module `Lines`) holds the rasteriser itself:
  - the `Line` and `Pixel` datatypes;
  - the pixel sink, a `Screen` class whose `plotted` sequence grows by one
    pixel per plot;
  - the two helpers as methods with loops, each proved against a
    specification function (`ShallowTrace`, `SteepTrace`);
  - `LoopStep`, one iteration of either loop, and `SteepTransposed`, which
    shows the steep trace is the shallow one with x and y exchanged;
  - the dispatcher `Screen.BresenhamLine`, proved against `LineTrace`,
    which is `Dispatch` (the helper call it makes) followed by `CallTrace`.
  The helpers' loop invariants carry the error-term recurrence
  `d == ErrorTerm(k, |y - y0|, dx, dy)`. The rows are proved non-negative,
  so the `y as u32` cast loses nothing. The dispatcher's coordinate
  differences, the helpers' doubled deltas, the error term `d` and the
  moving coordinate (`y` in the shallow helper, `x` in the steep one) are
  proved to stay in i32 range.
- `line_properties.dfy` (module `LineProperties`) holds the lemmas:
  - pixel count, order and monotone direction;
  - rounding to the nearest pixel;
  - eight-connectivity and the bounding box;
  - that the shallow trace is a column walk (one column per pixel, the row staying or moving one step toward y1);
  - where the trace starts, and that its far endpoint is never plotted;
  - reversal of the endpoints;
  - three regression traces.

Three details of what `src/lines.rs` does:

- The step direction (`yi` / `xi`) comes from the endpoints the helper
  receives, that is, after any swap, not from the caller's original order.
- Swapping the endpoints of a line gives the same helper call with the same
  arguments, so both orders plot the same pixels in the same order.
- A zero-length line takes the steep branch and plots nothing.

Integers are unbounded. Every coordinate must be below 2^30, which is enough
for the casts from u32 to i32 and for the doubled deltas to stay in range.
The SDL screen is replaced by the recording `Screen`.

## Model

| member | source | states |
|---|---|---|
| `Midpoint.RoundHalfDown` | src/lines.rs:136-149 | the result r is the integer nearest to n/den, with a tie going to the smaller: 2·den·r − den < 2n ≤ 2·den·r + den |
| `Midpoint.Offset` | src/lines.rs:139-145 | the row offset after k steps is at most k and at most the rise; for a slope of at most 1 it is the integer nearest to k·rise/run (IsNearest); for a slope of at least 1 it equals k |
| `Midpoint.DecisionStep` | src/lines.rs:136-149 | error-term recurrence: the offset grows by one at step k exactly when ErrorTerm(k, offset) > 0; the error term then changes by 2·(dy − dx), and otherwise by 2·dy, as the loop does |
| `Midpoint.ErrorTermRange` | src/lines.rs:136-140 | a shallow error term stays within (2·(dy − dx), 2·dy]; a steep one is positive and at most its value after the last step; both are what keep `d` inside i32 |
| `Midpoint.OffsetRounds` | src/lines.rs:136-149 | for dy ≤ dx the offset equals RoundHalfDown(k·dy, dx) |
| `Lines.Screen.PlotPixel` | src/lines.rs:18 | plotting appends exactly the pixel (x, y) to the recorded trace |
| `Lines.LoopStep` | src/lines.rs:144-149 | one loop iteration: branching on the sign of d moves the coordinate by yi (xi in the steep helper, src/lines.rs:168-173) exactly when the offset grows, gives the next step's error term, and keeps both the coordinate and d in i32 range |
| `Lines.BresenhamHorizontal` | src/lines.rs:129-151 | the trace grows by exactly ShallowTrace(x0, y0, x1, y1); the loop invariant ties d to ErrorTerm at every column, and d and y stay in i32 range at every column |
| `Lines.SteepTransposed` | src/lines.rs:153-175 | the steep helper's trace is the shallow trace of the line with x and y exchanged, exchanged back |
| `Lines.BresenhamVertical` | src/lines.rs:153-175 | the trace grows by exactly SteepTrace(x0, y0, x1, y1), with the transposed error-term invariant, and d and x stay in i32 range at every row |
| `Lines.Dispatch` | src/lines.rs:112-126 | the shallow helper is chosen exactly when abs(dy) < abs(dx); the helper gets the line or its reversal, ordered so that the loop variable does not decrease (strictly increasing for the shallow helper) |
| `Lines.LineTrace` | src/lines.rs:113-125 | the rasteriser plots max(abs(dx), abs(dy)) pixels |
| `Lines.Screen.BresenhamLine` | src/lines.rs:112-126 | the trace grows by exactly LineTrace(line), the trace of the helper call Dispatch(line); the `as i32` differences the dispatcher compares are in i32 range |
| `LineProperties.ColumnWalkMonotone` | src/lines.rs:142-149 | on a walk that moves one column per pixel and stays or moves one row in direction yi, x grows by exactly j − i and y moves monotonically in direction yi by at most j − i between pixels i and j |
| `LineProperties.ShallowShape` | src/lines.rs:139-145 | the shallow helper plots x1 − x0 pixels with x = x0, x0+1, …, x1−1 in order; it starts at (x0, y0); each y equals the previous one or moves by yi; every y lies between y0 and y1; (x1, y1) is never plotted |
| `LineProperties.ShallowMonotone` | src/lines.rs:132 | y is monotone in the direction yi and changes by at most j − i between columns i and j |
| `LineProperties.ShallowRounds` | src/lines.rs:136-149 | for dy ≤ dx, abs(y − y0) at column x0 + k is the integer nearest to k·dy/dx, with a tie going toward y0 |
| `LineProperties.SteepShape` | src/lines.rs:153-175 | the transposed shape: y1 − y0 pixels with y = y0, …, y1−1 in order; starts at (x0, y0); x stays or moves by xi; x lies between x0 and x1; (x1, y1) is never plotted |
| `LineProperties.SteepMonotone` | src/lines.rs:156 | x is monotone in the direction xi and changes by at most j − i between rows i and j |
| `LineProperties.SteepRounds` | src/lines.rs:160-173 | for dx ≤ dy, abs(x − x0) at row y0 + k is the integer nearest to k·dx/dy, with a tie going toward x0 |
| `LineProperties.ShallowConnected` | src/lines.rs:142-149 | consecutive pixels of the shallow helper are distinct eight-neighbours |
| `LineProperties.SteepConnected` | src/lines.rs:166-173 | consecutive pixels of the steep helper are distinct eight-neighbours |
| `LineProperties.LineReversal` | src/lines.rs:113-125 | swapping the endpoints gives the same helper call, so the same pixel sequence |
| `LineProperties.LineEndpoints` | src/lines.rs:113-125 | the trace is empty exactly for a zero-length line; otherwise it starts at the helper's first endpoint; the helper's far endpoint is never plotted |
| `LineProperties.LineConnected` | src/lines.rs:112-126 | consecutive plotted pixels are distinct eight-neighbours |
| `LineProperties.LineInBox` | src/lines.rs:112-126 | every plotted pixel lies in the line's bounding box |
| `LineProperties.ShallowExample` | src/lines.rs:112-151 | (0,0)-(5,2) plots (0,0),(1,0),(2,1),(3,1),(4,2) |
| `LineProperties.VerticalExample` | src/lines.rs:119-124 | (3,0)-(3,4) takes the steep helper and plots (3,0),(3,1),(3,2),(3,3) |
| `LineProperties.PointExample` | src/lines.rs:119-124 | (2,2)-(2,2) takes the steep helper and plots nothing |

## Left out

- `naive_line`, `incremental_line` and `better_line` (src/lines.rs:20-110) are not modelled. They rely on `f32` slopes, accumulation and rounding, and they divide by zero on degenerate lines.
- Without them there is nothing to check the rasteriser against, so cross-algorithm agreement is not modelled either.
- The `impl Lines for ScreenContextManager` forwarding to SDL (src/lines.rs:177-181) is not modelled. The recording `Screen` replaces that external sink.
- The `Lines` trait is not kept as a trait. Its default method `bresenham_line` becomes a method of `Screen`, and the two generic helpers take a `Screen`.
- Everything in src/main.rs is not modelled: argument parsing, random line generation, the SDL window, colours, timing, printing and sleeps. These are I/O and glue around the core.
- Lines.Screen.BresenhamLine: requires every coordinate below 2^30. This is a convenient sufficient bound for the u32-to-i32 casts and the doubled deltas, not the exact overflow threshold. Coordinates of 2^31 and above, which wrap when cast, are not modelled.
- Lines.BresenhamHorizontal: requires `x0 <= x1`, because `x1 - x0` is a u32 subtraction. It also requires `ErrorTermFits`, which excludes the slopes above 1 where the growing error term would overflow i32. The dispatcher never passes such a slope.
- Lines.BresenhamVertical: the same restrictions as the horizontal helper, with x and y exchanged.
