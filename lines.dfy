/**
 * The integer Bresenham line walk the debug overlay draws with. The
 * per-pixel callback is modelled by the sequence of pixels it is called
 * with, in call order.
 */
module Lines {
  import Arith

  datatype ScreenPoint = ScreenPoint(x: int, y: int)

  function Abs(a: int): (r: int)
    ensures r >= 0 && (r == a || r == -a)
  {
    if a < 0 then -a else a
  }

  /** The unit step from `from` towards `to`, as the walk picks it once at the start. */
  function Toward(from: int, to: int): (s: int)
    ensures s == 1 || s == -1
    ensures from < to <==> s == 1
  {
    if from < to then 1 else -1
  }

  /**
   * `q` follows `p` on a walk to `end`: each coordinate stays or moves one
   * unit towards the end (never past it), and at least one of them moves.
   */
  predicate StepToward(p: ScreenPoint, q: ScreenPoint, end: ScreenPoint)
  {
    && (q.x == p.x || (p.x != end.x && q.x == p.x + Toward(p.x, end.x)))
    && (q.y == p.y || (p.y != end.y && q.y == p.y + Toward(p.y, end.y)))
    && q != p
  }

  /** `v` lies between `a` and `b`, both included. */
  predicate Between(a: int, v: int, b: int)
  {
    if a <= b then a <= v <= b else b <= v <= a
  }

  /**
   * `a` added `n` times. The walk's error term is written with it so that
   * the loop's bookkeeping stays linear; TimesIsProduct connects it to `*`.
   */
  function Times(a: int, n: nat): int
  {
    if n == 0 then 0 else Times(a, n - 1) + a
  }

  lemma {:induction false} TimesIsProduct(a: int, n: nat)
    ensures Times(a, n) == a * n
  {
    if n > 0 {
      TimesIsProduct(a, n - 1);
    }
  }

  /**
   * The error term after `nx` steps along x and `ny` along y, for a walk
   * whose deltas are `dx` and `-dy`.
   */
  function WalkError(dx: int, dy: int, nx: nat, ny: nat): int
  {
    dx + Times(dx, ny) - dy - Times(dy, nx)
  }

  /**
   * With the error term the walk keeps, the step rule asks to move along
   * an axis whose end is reached only when the other axis has reached its
   * end too.
   */
  lemma AxesFinishTogether(dx: int, dy: int, nx: nat, ny: nat)
    requires nx <= dx && ny <= dy
    ensures nx == dx && 2 * WalkError(dx, dy, nx, ny) >= -dy ==> ny == dy
    ensures ny == dy && 2 * WalkError(dx, dy, nx, ny) <= dx ==> nx == dx
  {
    if nx == dx && ny < dy {
      XEndsFirst(dx, dy, ny);
    }
    if ny == dy && nx < dx {
      YEndsFirst(dx, dy, nx);
    }
  }

  /** Once x is done while y is not, the error term is at most `-dy`. */
  lemma XEndsFirst(dx: int, dy: int, ny: nat)
    requires 0 <= dx && ny < dy
    ensures WalkError(dx, dy, dx, ny) <= -dy
  {
    TimesIsProduct(dx, ny);
    TimesIsProduct(dy, dx);
    var p := dx * ny;
    assert p <= dx * dy - dx by {
      Arith.MulMonotone(dx, ny, dy - 1);
      assert dx * (dy - 1) == dx * dy - dx;
    }
    assert dy * dx == dx * dy;
  }

  /** Once y is done while x is not, the error term is at least `dx`. */
  lemma YEndsFirst(dx: int, dy: int, nx: nat)
    requires 0 <= dy && nx < dx
    ensures WalkError(dx, dy, nx, dy) >= dx
  {
    TimesIsProduct(dx, dy);
    TimesIsProduct(dy, nx);
    var q := dy * nx;
    assert q <= dy * dx - dy by {
      Arith.MulMonotone(dy, nx, dx - 1);
      assert dy * (dx - 1) == dy * dx - dy;
    }
    assert dy * dx == dx * dy;
  }

  /** `p` lies in the box spanned by `start` and `end`. */
  predicate InBox(start: ScreenPoint, p: ScreenPoint, end: ScreenPoint)
  {
    Between(start.x, p.x, end.x) && Between(start.y, p.y, end.y)
  }

  /**
   * `pixels` is a walk from `start` towards `end`: it begins at `start`,
   * stays in the box the two span, and every step is a unit step towards
   * `end`.
   */
  predicate Walk(pixels: seq<ScreenPoint>, start: ScreenPoint, end: ScreenPoint)
  {
    && |pixels| >= 1
    && pixels[0] == start
    && (forall n :: 0 <= n < |pixels| ==> InBox(start, pixels[n], end))
    && (forall n :: 0 <= n < |pixels| - 1 ==> StepToward(pixels[n], pixels[n + 1], end))
  }

  /** A walk extended by a unit step that stays in the box is a walk. */
  lemma WalkExtend(pixels: seq<ScreenPoint>, q: ScreenPoint, start: ScreenPoint, end: ScreenPoint)
    requires pixels == [] ==> q == start
    requires pixels != [] ==> Walk(pixels, start, end) && StepToward(pixels[|pixels| - 1], q, end)
    requires InBox(start, q, end)
    ensures Walk(pixels + [q], start, end)
  {
  }

  /**
   * Walks from (xStart, yStart) to (xEnd, yEnd), returning the pixels the
   * callback is called with, in order: a walk from the start point that
   * ends at the end point.
   */
  method DrawLine(xStart: int, yStart: int, xEnd: int, yEnd: int) returns (pixels: seq<ScreenPoint>)
    ensures Walk(pixels, ScreenPoint(xStart, yStart), ScreenPoint(xEnd, yEnd))
    ensures pixels[|pixels| - 1] == ScreenPoint(xEnd, yEnd)
  {
    var xDelta := Abs(xEnd - xStart);
    var yDelta: int := -Abs(yEnd - yStart);
    var x := xStart;
    var y := yStart;
    var xSign: int := if x < xEnd then 1 else -1;
    var ySign: int := if y < yEnd then 1 else -1;
    var error: int := xDelta + yDelta;
    ghost var start, end := ScreenPoint(xStart, yStart), ScreenPoint(xEnd, yEnd);
    ghost var nx, ny := 0, 0;
    pixels := [];
    while true
      invariant 0 <= nx <= xDelta && 0 <= ny <= -yDelta
      invariant xSign == Toward(xStart, xEnd) && ySign == Toward(yStart, yEnd)
      invariant x == (if xStart < xEnd then xStart + nx else xStart - nx)
      invariant y == (if yStart < yEnd then yStart + ny else yStart - ny)
      invariant error == WalkError(xDelta, -yDelta, nx, ny)
      invariant pixels == [] ==> nx == 0 && ny == 0
      invariant pixels != [] ==> Walk(pixels, start, end) && StepToward(pixels[|pixels| - 1], ScreenPoint(x, y), end)
      decreases xDelta - nx + (-yDelta - ny)
    {
      WalkExtend(pixels, ScreenPoint(x, y), start, end);
      pixels := pixels + [ScreenPoint(x, y)];
      if x == xEnd && y == yEnd {
        return;
      }
      var error2 := 2 * error;
      AxesFinishTogether(xDelta, -yDelta, nx, ny);
      if error2 >= yDelta {
        if x == xEnd {
          assert false;
          return;
        }
        error := error + yDelta;
        x := x + xSign;
        nx := nx + 1;
      }
      if error2 <= xDelta {
        if y == yEnd {
          assert false;
          return;
        }
        error := error + xDelta;
        y := y + ySign;
        ny := ny + 1;
      }
    }
  }
}
