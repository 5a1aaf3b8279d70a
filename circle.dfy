/** The midpoint circle loop of `Circle::draw`.

    The loop keeps offsets `x` (from 0 up) and `y` (from `r` down) and the
    integer decision variable `d`. Each pass writes the eight mirror images of
    `(x, y)` around the centre, then advances `x` and, when `d` says the
    midpoint below is inside the circle, lowers `y`. */
module CircleRaster {
  import opened Geometry
  import opened Raster

  /** Radii above this bound are excluded. At a loop head that runs the body,
      `d` lies in `[2x - 2y + 1, 2x + 1]`, a part of `[-2r + 1, 2r + 1]`; the
      update taken on `d < 0` stays in `[-2r, 2r + 2]` and the one taken on
      `d >= 0` in `[-2r + 5, 2r + 6]`. Both fit in an `i32` for every radius up
      to `2^30 - 4`. */
  const MAX_RADIUS: int := 0x4000_0000 - 4

  /** No `i32` arithmetic of the loop overflows: `1 - r`, the centre plus or
      minus any offset up to `r`, and the updates of `d`. */
  predicate CircleFits(c: Circle) {
    I32_MIN + 2 <= c.radius <= MAX_RADIUS &&
    (c.radius >= 0 ==>
      I32_MIN <= c.center.x - c.radius && c.center.x + c.radius <= I32_MAX &&
      I32_MIN <= c.center.y - c.radius && c.center.y + c.radius <= I32_MAX)
  }

  /** The eight writes of one loop pass, in the order of the source. */
  function Octants(xc: int, yc: int, x: int, y: int, color: Color): (ws: seq<Pixel>)
    ensures |ws| == 8 && AllColored(ws, color)
  {
    [Pixel(xc + x, yc + y, color), Pixel(xc - x, yc + y, color),
     Pixel(xc + x, yc - y, color), Pixel(xc - x, yc - y, color),
     Pixel(xc + y, yc + x, color), Pixel(xc - y, yc + x, color),
     Pixel(xc + y, yc - x, color), Pixel(xc - y, yc - x, color)]
  }

  /** The state update at the end of a pass: `x += 1`, then either
      `d += 2x + 1`, or `y -= 1; d += 2(x - y) + 1`. */
  function Next(x: int, y: int, d: int): (n: (int, int, int))
    ensures n.0 == x + 1
    ensures (n.1 == y <==> d < 0) && (n.1 == y || n.1 == y - 1)
    ensures n.2 - (n.0 * n.0 + 2 * n.0 + 1 + n.1 * n.1 - n.1) == d - (x * x + 2 * x + 1 + y * y - y)
  {
    var x' := x + 1;
    if d < 0 then (x', y, d + 2 * x' + 1)
    else (x', y - 1, d + 2 * (x' - (y - 1)) + 1)
  }

  /** The writes of the loop from state `(x, y, d)` on. */
  function Sweep(xc: int, yc: int, x: int, y: int, d: int, color: Color): seq<Pixel>
    decreases y - x + 2
  {
    if x > y then []
    else
      var next := Next(x, y, d);
      Octants(xc, yc, x, y, color) + Sweep(xc, yc, next.0, next.1, next.2, color)
  }

  /** The writes of `Circle::draw` with the colour it picked. */
  function CircleWrites(c: Circle, color: Color): (ws: seq<Pixel>)
    ensures ws == [] <==> c.radius < 0
  {
    Sweep(c.center.x, c.center.y, 0, c.radius, 1 - c.radius, color)
  }

  /** The loop invariant for `r >= 0`: `d` is `(x+1)^2 + y^2 - y - r^2`, and
      while `x <= y` the point `(x, y)` is within half a pixel of the circle:
      the midpoint `(x, y - 1/2)` is inside it and `(x, y + 1/2)` is not. */
  predicate MidpointInv(r: int, x: int, y: int, d: int) {
    0 <= r && 0 <= x <= r + 1 && y <= r &&
    d == x * x + 2 * x + 1 + y * y - y - r * r &&
    (x <= y ==> x * x + y * y - y <= r * r <= x * x + y * y + y)
  }

  /** A written pixel lies in the box `[xc - r, xc + r] x [yc - r, yc + r]`, and
      its squared distance from the centre differs from `r^2` by at most its
      larger offset. */
  predicate NearCircle(xc: int, yc: int, r: int, w: Pixel) {
    var u, v := w.x - xc, w.y - yc;
    Abs(u) <= r && Abs(v) <= r &&
    r * r - Max(Abs(u), Abs(v)) <= u * u + v * v <= r * r + Max(Abs(u), Abs(v))
  }

  /** The written positions are closed under mirroring in the vertical axis,
      in the horizontal axis, and in the diagonal through the centre. */
  predicate Symmetric(xc: int, yc: int, ws: seq<Pixel>) {
    forall w :: w in ws ==>
      Pixel(2 * xc - w.x, w.y, w.color) in ws &&
      Pixel(w.x, 2 * yc - w.y, w.color) in ws &&
      Pixel(xc + (w.y - yc), yc + (w.x - xc), w.color) in ws
  }

  /** The starting state satisfies the invariant. */
  lemma MidpointStart(r: int)
    requires r >= 0
    ensures MidpointInv(r, 0, r, 1 - r)
  {
  }

  /** One pass preserves the invariant, and `d` stays small enough for `i32`. */
  lemma MidpointStep(r: int, x: int, y: int, d: int)
    requires MidpointInv(r, x, y, d) && x <= y
    ensures 2 * x - 2 * y + 1 <= d <= 2 * x + 1
    ensures var next := Next(x, y, d); MidpointInv(r, next.0, next.1, next.2)
  {
    assert (x + 1) * (x + 1) == x * x + 2 * x + 1;
    assert (y - 1) * (y - 1) == y * y - 2 * y + 1;
    var (x', y', d') := Next(x, y, d);
    if d < 0 {
      assert d' == x' * x' + 2 * x' + 1 + y' * y' - y' - r * r;
      assert x' * x' + y' * y' - y' <= r * r;
      assert r * r <= x' * x' + y' * y' + y';
    } else {
      assert d' == x' * x' + 2 * x' + 1 + y' * y' - y' - r * r;
      assert x' <= y' ==> x' * x' + y' * y' - y' <= r * r;
      assert r * r <= x' * x' + y' * y' + y';
    }
  }

  /** The eight writes of a pass at `(x, y)` with `0 <= x <= y <= r` under the
      invariant are all near the circle. */
  lemma OctantsNearCircle(xc: int, yc: int, r: int, x: int, y: int, d: int, color: Color)
    requires MidpointInv(r, x, y, d) && x <= y
    ensures forall w :: w in Octants(xc, yc, x, y, color) ==> NearCircle(xc, yc, r, w)
  {
    assert (-x) * (-x) == x * x && (-y) * (-y) == y * y;
  }

  lemma OctantsSymmetric(xc: int, yc: int, x: int, y: int, color: Color)
    ensures Symmetric(xc, yc, Octants(xc, yc, x, y, color))
  {
    var oct := Octants(xc, yc, x, y, color);
    // For the k-th write: the index of its mirror image in the vertical axis,
    // in the horizontal axis, and in the diagonal.
    var mx, my, sw := [1, 0, 3, 2, 5, 4, 7, 6], [2, 3, 0, 1, 6, 7, 4, 5], [4, 6, 5, 7, 0, 2, 1, 3];
    forall w | w in oct
      ensures Pixel(2 * xc - w.x, w.y, w.color) in oct
      ensures Pixel(w.x, 2 * yc - w.y, w.color) in oct
      ensures Pixel(xc + (w.y - yc), yc + (w.x - xc), w.color) in oct
    {
      var k :| 0 <= k < 8 && oct[k] == w;
      assert Pixel(2 * xc - w.x, w.y, w.color) == oct[mx[k]];
      assert Pixel(w.x, 2 * yc - w.y, w.color) == oct[my[k]];
      assert Pixel(xc + (w.y - yc), yc + (w.x - xc), w.color) == oct[sw[k]];
    }
  }

  lemma EightMore(n: nat)
    ensures (n + 8) % 8 == n % 8
  {
  }

  /** From any state satisfying the invariant, the loop makes a whole number of
      eight-write passes, at most one per value of `x` up to `r`. */
  lemma {:induction false} SweepLength(xc: int, yc: int, r: int, x: int, y: int, d: int, color: Color)
    requires MidpointInv(r, x, y, d)
    ensures |Sweep(xc, yc, x, y, d, color)| % 8 == 0
    ensures |Sweep(xc, yc, x, y, d, color)| <= 8 * (r + 1 - x)
    decreases y - x + 2
  {
    if x <= y {
      var next := Next(x, y, d);
      MidpointStep(r, x, y, d);
      SweepLength(xc, yc, r, next.0, next.1, next.2, color);
      SweepUnfold(xc, yc, x, y, d, color);
      var n := |Sweep(xc, yc, next.0, next.1, next.2, color)|;
      assert |Sweep(xc, yc, x, y, d, color)| == 8 + n;
      EightMore(n);
      assert 8 * (r + 1 - next.0) == 8 * (r + 1 - x) - 8;
    }
  }

  lemma {:induction false} SweepNearCircle(xc: int, yc: int, r: int, x: int, y: int, d: int, color: Color)
    requires MidpointInv(r, x, y, d)
    ensures forall w :: w in Sweep(xc, yc, x, y, d, color) ==> NearCircle(xc, yc, r, w)
    decreases y - x + 2
  {
    if x <= y {
      var next := Next(x, y, d);
      MidpointStep(r, x, y, d);
      OctantsNearCircle(xc, yc, r, x, y, d, color);
      SweepNearCircle(xc, yc, r, next.0, next.1, next.2, color);
    }
  }

  lemma {:induction false} SweepSymmetric(xc: int, yc: int, x: int, y: int, d: int, color: Color)
    ensures Symmetric(xc, yc, Sweep(xc, yc, x, y, d, color))
    decreases y - x + 2
  {
    if x <= y {
      var next := Next(x, y, d);
      var oct := Octants(xc, yc, x, y, color);
      var rest := Sweep(xc, yc, next.0, next.1, next.2, color);
      OctantsSymmetric(xc, yc, x, y, color);
      SweepSymmetric(xc, yc, next.0, next.1, next.2, color);
      assert Sweep(xc, yc, x, y, d, color) == oct + rest;
    }
  }

  lemma {:induction false} SweepOneColor(xc: int, yc: int, x: int, y: int, d: int, color: Color)
    ensures AllColored(Sweep(xc, yc, x, y, d, color), color)
    decreases y - x + 2
  {
    if x <= y {
      var next := Next(x, y, d);
      SweepOneColor(xc, yc, next.0, next.1, next.2, color);
    }
  }

  /** A negative radius writes nothing: the first test of `x <= y` is `0 <= r`, which fails. */
  lemma NegativeRadiusWritesNothing(c: Circle, color: Color)
    requires c.radius < 0
    ensures CircleWrites(c, color) == []
  {
  }

  /** A circle of radius `r >= 0` makes between 1 and `r + 1` passes of eight
      writes each. */
  lemma CircleWriteCount(c: Circle, color: Color)
    requires c.radius >= 0
    ensures |CircleWrites(c, color)| % 8 == 0
    ensures 8 <= |CircleWrites(c, color)| <= 8 * (c.radius + 1)
  {
    MidpointStart(c.radius);
    SweepLength(c.center.x, c.center.y, c.radius, 0, c.radius, 1 - c.radius, color);
  }

  /** The first pass writes the four axis points `(xc, yc +- r)`, `(xc +- r, yc)`,
      each twice. */
  lemma CircleFirstPass(c: Circle, color: Color)
    requires c.radius >= 0
    ensures var ws := CircleWrites(c, color); var xc, yc, r := c.center.x, c.center.y, c.radius;
      |ws| >= 8 &&
      ws[..8] == [Pixel(xc, yc + r, color), Pixel(xc, yc + r, color),
                  Pixel(xc, yc - r, color), Pixel(xc, yc - r, color),
                  Pixel(xc + r, yc, color), Pixel(xc - r, yc, color),
                  Pixel(xc + r, yc, color), Pixel(xc - r, yc, color)]
  {
    SweepUnfold(c.center.x, c.center.y, 0, c.radius, 1 - c.radius, color);
  }

  /** Radius 0 writes the centre exactly eight times and nothing else. */
  lemma ZeroRadius(c: Circle, color: Color)
    requires c.radius == 0
    ensures CircleWrites(c, color) == seq(8, _ => Pixel(c.center.x, c.center.y, color))
  {
    SweepUnfold(c.center.x, c.center.y, 0, 0, 1, color);
    assert Next(0, 0, 1) == (1, -1, 6);
    assert Sweep(c.center.x, c.center.y, 1, -1, 6, color) == [];
  }

  /** Every write of a circle lies in its bounding box and within half a pixel
      of its circumference, in the sense of `NearCircle`. */
  lemma CircleNearCircumference(c: Circle, color: Color)
    ensures forall w :: w in CircleWrites(c, color) ==> NearCircle(c.center.x, c.center.y, c.radius, w)
  {
    if c.radius >= 0 {
      MidpointStart(c.radius);
      SweepNearCircle(c.center.x, c.center.y, c.radius, 0, c.radius, 1 - c.radius, color);
    }
  }

  /** The written set has the circle's eight-way symmetry. */
  lemma CircleSymmetric(c: Circle, color: Color)
    ensures Symmetric(c.center.x, c.center.y, CircleWrites(c, color))
  {
    SweepSymmetric(c.center.x, c.center.y, 0, c.radius, 1 - c.radius, color);
  }

  /** Every write of a circle carries the circle's colour. */
  lemma CircleOneColor(c: Circle, color: Color)
    ensures AllColored(CircleWrites(c, color), color)
  {
    SweepOneColor(c.center.x, c.center.y, 0, c.radius, 1 - c.radius, color);
  }

  /** The update of `d` taken in each branch stays in the `i32` range. */
  lemma UpdateFits(x: int, y: int, d: int)
    requires 0 <= x <= y <= MAX_RADIUS && 2 * x - 2 * y + 1 <= d <= 2 * x + 1
    ensures d < 0 ==> I32_MIN <= d + 2 * (x + 1) + 1 <= I32_MAX
    ensures d >= 0 ==> I32_MIN <= d + 2 * ((x + 1) - (y - 1)) + 1 <= I32_MAX
  {
  }

  /** One pass of the loop: its eight writes, then the rest. */
  lemma SweepUnfold(xc: int, yc: int, x: int, y: int, d: int, color: Color)
    requires x <= y
    ensures var next := Next(x, y, d);
      Sweep(xc, yc, x, y, d, color) == Octants(xc, yc, x, y, color) + Sweep(xc, yc, next.0, next.1, next.2, color)
  {
  }

  /** The eight `display` calls of one pass. */
  method DisplayOctants(image: Image, xc: I32, yc: I32, x: int, y: int, color: Color)
    requires 0 <= x <= y
    requires I32_MIN <= xc - y && xc + y <= I32_MAX && I32_MIN <= yc - y && yc + y <= I32_MAX
    modifies image
    ensures image.writes == old(image.writes) + Octants(xc, yc, x, y, color)
  {
    image.Display(xc + x, yc + y, color);
    image.Display(xc - x, yc + y, color);
    image.Display(xc + x, yc - y, color);
    image.Display(xc - x, yc - y, color);
    image.Display(xc + y, yc + x, color);
    image.Display(xc - y, yc + x, color);
    image.Display(xc + y, yc - x, color);
    image.Display(xc - y, yc - x, color);
  }

  /** The midpoint loop of `Circle::draw`, with the colour already picked. */
  method MidpointCircle(image: Image, c: Circle, color: Color)
    requires CircleFits(c)
    modifies image
    ensures image.writes == old(image.writes) + CircleWrites(c, color)
  {
    var xc := c.center.x;
    var yc := c.center.y;
    var r := c.radius;
    var x: I32 := 0;
    var y: I32 := r;
    var d: I32 := 1 - r;
    if r >= 0 {
      MidpointStart(r);
    }
    ghost var goal := old(image.writes) + CircleWrites(c, color);
    while x <= y
      invariant r >= 0 ==> MidpointInv(r, x, y, d)
      invariant r < 0 ==> x == 0 && y == r
      invariant image.writes + Sweep(xc, yc, x, y, d, color) == goal
      decreases y - x + 2
    {
      MidpointStep(r, x, y, d);
      assert 0 <= x <= y <= r <= MAX_RADIUS;
      ghost var next := Next(x, y, d);
      ghost var before := image.writes;
      SweepUnfold(xc, yc, x, y, d, color);
      DisplayOctants(image, xc, yc, x, y, color);
      ConcatAssoc(before, Octants(xc, yc, x, y, color), Sweep(xc, yc, next.0, next.1, next.2, color));
      UpdateFits(x, y, d);
      x := x + 1;
      if d < 0 {
        d := d + 2 * x + 1;
      } else {
        y := y - 1;
        d := d + 2 * (x - y) + 1;
      }
      assert x == next.0 && y == next.1 && d == next.2;
    }
  }
}
