/** `draw_line`: the incremental line rasterizer.

    It takes `steps = max(|dx|, |dy|)` steps from `p1`, writing the rounded
    current position before each advance, so it writes `steps` pixels and never
    `p2` itself. The source advances in `f32`; this model advances in exact
    real arithmetic. Along an axis whose increment is 0 or +-1 the two agree
    as long as every coordinate it passes has magnitude at most 2^24, the
    range in which `f32` holds every integer exactly; there the exact-position
    lemmas below describe the source. Beyond 2^24 they describe this model
    only: from (16777217, 0) to (16777216, 0), for instance, `f32` starts at
    16777216.0 and the source writes `p2`. */
module LineRaster {
  import opened Geometry
  import opened Raster

  /** Neither difference overflows an `i32`, and neither is `i32::MIN`
      (whose `abs` overflows). */
  predicate LineFits(p1: Point, p2: Point) {
    -I32_MAX <= p2.x - p1.x <= I32_MAX && -I32_MAX <= p2.y - p1.y <= I32_MAX
  }

  /** The number of loop passes: the larger of `|dx|` and `|dy|`. */
  function Steps(p1: Point, p2: Point): (n: nat)
    ensures Abs(p2.x - p1.x) <= n && Abs(p2.y - p1.y) <= n
    ensures n == Abs(p2.x - p1.x) || n == Abs(p2.y - p1.y)
  {
    var dx := p2.x - p1.x;
    var dy := p2.y - p1.y;
    if Abs(dx) > Abs(dy) then Abs(dx) else Abs(dy)
  }

  /** `delta as f32 / steps as f32`, in exact arithmetic. When `steps` is 0 the
      source divides 0 by 0; the loop then never runs and the value is never
      used, so 0.0 stands in for it. */
  function Increment(delta: int, steps: int): (q: real)
    ensures steps != 0 ==> q * steps as real == delta as real
    ensures steps == 0 ==> q == 0.0
  {
    if steps == 0 then 0.0 else delta as real / steps as real
  }

  /** `f32::round`: to the nearest integer, halfway cases away from zero. */
  function Round(v: real): (r: int)
    ensures v >= 0.0 ==> r as real - 0.5 <= v < r as real + 0.5
    ensures v < 0.0 ==> r as real - 0.5 < v <= r as real + 0.5
  {
    if v >= 0.0 then (v + 0.5).Floor else -((-v + 0.5).Floor)
  }

  /** `as i32` from a float: saturating at the ends of the range. */
  function SaturatingCast(v: int): (r: I32)
    ensures I32_MIN <= v <= I32_MAX ==> r == v
    ensures v < I32_MIN ==> r == I32_MIN
    ensures v > I32_MAX ==> r == I32_MAX
  {
    if v < I32_MIN then I32_MIN else if v > I32_MAX then I32_MAX else v
  }

  /** The position on one axis after `i` advances by `inc` from `start`. */
  function Position(start: int, i: int, inc: real): real {
    start as real + i as real * inc
  }

  /** One more advance adds one more increment. */
  lemma PositionNext(start: int, i: int, inc: real)
    ensures Position(start, i + 1, inc) == Position(start, i, inc) + inc
  {
    assert (i + 1) as real * inc == i as real * inc + inc;
  }

  /** The coordinate written on one axis in loop pass `i`: the rounded position
      `start + i * delta / steps`, cast back to `i32`. */
  function AxisCoord(start: int, delta: int, steps: nat, i: int): I32 {
    SaturatingCast(Round(Position(start, i, Increment(delta, steps))))
  }

  /** The write made in loop pass `i`. */
  function StepPixel(p1: Point, p2: Point, i: int, color: Color): Pixel {
    var steps := Steps(p1, p2);
    Pixel(AxisCoord(p1.x, p2.x - p1.x, steps, i), AxisCoord(p1.y, p2.y - p1.y, steps, i), color)
  }

  /** The writes `draw_line(image, p1, p2, color)` makes, in order. */
  function LineWrites(p1: Point, p2: Point, color: Color): (ws: seq<Pixel>)
    ensures |ws| == Steps(p1, p2)
  {
    seq(Steps(p1, p2), i => StepPixel(p1, p2, i, color))
  }

  /** `draw_line`: one write per pass of `for _ in 0..steps`. */
  method DrawLine(image: Image, p1: Point, p2: Point, color: Color)
    requires LineFits(p1, p2)
    modifies image
    ensures image.writes == old(image.writes) + LineWrites(p1, p2, color)
  {
    var dx: I32 := p2.x - p1.x;
    var dy: I32 := p2.y - p1.y;
    var steps: I32 := if Abs(dx) > Abs(dy) then Abs(dx) else Abs(dy);
    var xInc := Increment(dx, steps);
    var yInc := Increment(dy, steps);
    assert steps == Steps(p1, p2);
    var x := p1.x as real;
    var y := p1.y as real;
    for i := 0 to steps
      invariant x == Position(p1.x, i, xInc) && y == Position(p1.y, i, yInc)
      invariant image.writes == old(image.writes) + LineWrites(p1, p2, color)[..i]
    {
      assert LineWrites(p1, p2, color)[..i + 1]
          == LineWrites(p1, p2, color)[..i] + [StepPixel(p1, p2, i, color)];
      image.Display(SaturatingCast(Round(x)), SaturatingCast(Round(y)), color);
      PositionNext(p1.x, i, xInc);
      PositionNext(p1.y, i, yInc);
      x := x + xInc;
      y := y + yInc;
    }
    assert LineWrites(p1, p2, color)[..steps] == LineWrites(p1, p2, color);
  }

  /** The write count is `max(|dx|, |dy|)`, and it is zero exactly when the two
      endpoints coincide: a degenerate line writes nothing. */
  lemma LineWriteCount(p1: Point, p2: Point, color: Color)
    ensures |LineWrites(p1, p2, color)| == Max(Abs(p2.x - p1.x), Abs(p2.y - p1.y))
    ensures |LineWrites(p1, p2, color)| == 0 <==> p1 == p2
  {
  }

  /** Every write of a line carries the line's colour. */
  lemma LineOneColor(p1: Point, p2: Point, color: Color)
    ensures AllColored(LineWrites(p1, p2, color), color)
  {
  }

  lemma RoundOfInteger(n: int)
    ensures Round(n as real) == n
  {
  }

  /** Rounding a value between two integers stays between them. */
  lemma RoundBetween(v: real, lo: int, hi: int)
    requires lo as real <= v <= hi as real
    ensures lo <= Round(v) <= hi
  {
    if v >= 0.0 {
      assert (v + 0.5).Floor <= (hi as real + 0.5).Floor;
      assert (lo as real + 0.5).Floor <= (v + 0.5).Floor || lo < 0;
    } else {
      assert (-v + 0.5).Floor <= (-lo as real + 0.5).Floor;
      assert (-hi as real + 0.5).Floor <= (-v + 0.5).Floor;
    }
  }

  /** An axis that moves by `steps` or not at all has increment `sign(delta)`. */
  lemma UnitIncrement(delta: int, steps: nat)
    requires delta == 0 || Abs(delta) == steps
    ensures Increment(delta, steps) == Sign(delta) as real
  {
    if delta > 0 {
      assert steps as real == delta as real;
    } else if delta < 0 {
      assert steps as real == -(delta as real);
      assert delta as real / steps as real == -1.0;
    }
  }

  lemma UnitPosition(start: int, i: int, s: int)
    requires -1 <= s <= 1
    ensures Position(start, i, s as real) == (start + i * s) as real
  {
    assert i as real * s as real == (i * s) as real;
  }

  /** `0 <= i <= steps` advances of `delta / steps` lie between 0 and `delta`. */
  lemma ScaledBetween(delta: int, steps: nat, i: nat)
    requires Abs(delta) <= steps && i <= steps
    ensures var v := i as real * Increment(delta, steps);
      (delta >= 0 ==> 0.0 <= v <= delta as real) && (delta < 0 ==> delta as real <= v <= 0.0)
  {
    if steps > 0 {
      var q := delta as real / steps as real;
      assert steps as real * q == delta as real;
      if delta >= 0 {
        assert q >= 0.0;
        MulMonotone(i as real, steps as real, q);
      } else {
        assert q < 0.0;
        MulMonotoneNeg(i as real, steps as real, q);
      }
    }
  }

  lemma MulMonotone(a: real, b: real, q: real)
    requires 0.0 <= a <= b && 0.0 <= q
    ensures 0.0 <= a * q <= b * q
  {
  }

  lemma MulMonotoneNeg(a: real, b: real, q: real)
    requires 0.0 <= a <= b && q <= 0.0
    ensures b * q <= a * q <= 0.0
  {
  }

  /** Along one axis, when the increment is 0 or +-1, the coordinate of pass `i`
      is exactly `start + i * sign(delta)` (for the source: when the coordinates
      stay within 2^24 in magnitude). */
  lemma AxisExact(start: I32, delta: int, steps: nat, i: nat)
    requires delta == 0 || Abs(delta) == steps
    requires i <= steps && I32_MIN <= start + delta <= I32_MAX
    ensures AxisCoord(start, delta, steps, i) == start + i * Sign(delta)
  {
    UnitIncrement(delta, steps);
    UnitPosition(start, i, Sign(delta));
    RoundOfInteger(start + i * Sign(delta));
    assert Sign(delta) * steps == delta;
    assert Sign(delta) >= 0 ==> start <= start + i * Sign(delta) <= start + delta;
    assert Sign(delta) < 0 ==> start + delta <= start + i * Sign(delta) <= start;
  }

  /** Along one axis the coordinate of pass `i <= steps` lies between `start`
      and `start + delta`. */
  lemma AxisBetween(start: I32, delta: int, steps: nat, i: nat)
    requires Abs(delta) <= steps && i <= steps
    requires I32_MIN <= start + delta <= I32_MAX
    ensures var r := AxisCoord(start, delta, steps, i);
      start <= r <= start + delta || start + delta <= r <= start
  {
    var v := Position(start, i, Increment(delta, steps));
    ScaledBetween(delta, steps, i);
    if delta >= 0 {
      RoundBetween(v, start, start + delta);
    } else {
      RoundBetween(v, start + delta, start);
    }
  }

  /** Along the major axis (and along an axis the line does not move on) the
      `i`-th write is exactly `i` unit steps from `p1` (for the source: within
      2^24 in magnitude). */
  lemma LineAxisPositions(p1: Point, p2: Point, color: Color, i: nat)
    requires i < Steps(p1, p2)
    ensures var w := LineWrites(p1, p2, color)[i];
      && (p2.x == p1.x || Abs(p2.x - p1.x) == Steps(p1, p2) ==> w.x == p1.x + i * Sign(p2.x - p1.x))
      && (p2.y == p1.y || Abs(p2.y - p1.y) == Steps(p1, p2) ==> w.y == p1.y + i * Sign(p2.y - p1.y))
  {
    var steps := Steps(p1, p2);
    if p2.x == p1.x || Abs(p2.x - p1.x) == steps {
      AxisExact(p1.x, p2.x - p1.x, steps, i);
    }
    if p2.y == p1.y || Abs(p2.y - p1.y) == steps {
      AxisExact(p1.y, p2.y - p1.y, steps, i);
    }
  }

  /** A horizontal, vertical or 45-degree line writes `p1 + i * (sign dx, sign dy)`
      for `i` in `0..steps` (for the source: within 2^24 in magnitude). */
  lemma StraightLineWrites(p1: Point, p2: Point, color: Color)
    requires var dx, dy := p2.x - p1.x, p2.y - p1.y; dx == 0 || dy == 0 || Abs(dx) == Abs(dy)
    ensures var ws := LineWrites(p1, p2, color);
      forall i :: 0 <= i < |ws| ==>
        ws[i] == Pixel(p1.x + i * Sign(p2.x - p1.x), p1.y + i * Sign(p2.y - p1.y), color)
  {
    var ws := LineWrites(p1, p2, color);
    forall i | 0 <= i < |ws|
      ensures ws[i] == Pixel(p1.x + i * Sign(p2.x - p1.x), p1.y + i * Sign(p2.y - p1.y), color)
    {
      LineAxisPositions(p1, p2, color, i);
    }
  }

  /** The far endpoint is never written: the major-axis coordinate of write `i`
      is `i < steps` unit steps from `p1`, short of `p2` (for the source: within
      2^24 in magnitude). */
  lemma EndpointNeverWritten(p1: Point, p2: Point, color: Color)
    ensures var ws := LineWrites(p1, p2, color);
      forall i :: 0 <= i < |ws| ==> ws[i].x != p2.x || ws[i].y != p2.y
  {
    var ws := LineWrites(p1, p2, color);
    var steps := Steps(p1, p2);
    forall i | 0 <= i < |ws| ensures ws[i].x != p2.x || ws[i].y != p2.y {
      LineAxisPositions(p1, p2, color, i);
      if Abs(p2.x - p1.x) == steps {
        MajorAxisShort(p2.x - p1.x, steps, i);
      } else {
        MajorAxisShort(p2.y - p1.y, steps, i);
      }
    }
  }

  lemma MajorAxisShort(delta: int, steps: nat, i: nat)
    requires Abs(delta) == steps && i < steps
    ensures i * Sign(delta) != delta
  {
  }

  /** Every write of a line lies in the bounding box of its endpoints (in the
      exact-arithmetic model of the stepping). */
  lemma LineInBoundingBox(p1: Point, p2: Point, color: Color)
    ensures var ws := LineWrites(p1, p2, color);
      forall i :: 0 <= i < |ws| ==>
        (p1.x <= ws[i].x <= p2.x || p2.x <= ws[i].x <= p1.x) &&
        (p1.y <= ws[i].y <= p2.y || p2.y <= ws[i].y <= p1.y)
  {
    var ws := LineWrites(p1, p2, color);
    forall i | 0 <= i < |ws|
      ensures (p1.x <= ws[i].x <= p2.x || p2.x <= ws[i].x <= p1.x)
      ensures (p1.y <= ws[i].y <= p2.y || p2.y <= ws[i].y <= p1.y)
    {
      AxisBetween(p1.x, p2.x - p1.x, Steps(p1, p2), i);
      AxisBetween(p1.y, p2.y - p1.y, Steps(p1, p2), i);
    }
  }

  /** A non-degenerate line writes its start point first and never its end
      point, so drawing it in the other direction writes a different set of
      pixels. */
  lemma LineDirectionMatters(p1: Point, p2: Point, color: Color)
    requires p1 != p2
    ensures LineWrites(p1, p2, color)[0] == Pixel(p1.x, p1.y, color)
    ensures Pixel(p1.x, p1.y, color) !in LineWrites(p2, p1, color)
  {
    var steps := Steps(p1, p2);
    AxisBetween(p1.x, p2.x - p1.x, steps, 0);
    AxisBetween(p1.y, p2.y - p1.y, steps, 0);
    assert Position(p1.x, 0, Increment(p2.x - p1.x, steps)) == p1.x as real;
    assert Position(p1.y, 0, Increment(p2.y - p1.y, steps)) == p1.y as real;
    RoundOfInteger(p1.x);
    RoundOfInteger(p1.y);
    EndpointNeverWritten(p2, p1, color);
  }

  /** The line from (0,0) to (4,0) writes (0,0), (1,0), (2,0), (3,0). */
  lemma HorizontalLineExample(color: Color)
    ensures LineWrites(Point(0, 0), Point(4, 0), color)
            == [Pixel(0, 0, color), Pixel(1, 0, color), Pixel(2, 0, color), Pixel(3, 0, color)]
  {
    StraightLineWrites(Point(0, 0), Point(4, 0), color);
  }
}
