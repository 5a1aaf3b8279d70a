/** The random constructors `Point::random`, `Line::random`, `Circle::random`
    and the colour source `color()`. The thread-local generator is modelled as
    nondeterministic choice: `GenRange` may return any value of its range, and
    each constructor promises only what holds for every such choice. */
module RandomShapes {
  import opened Geometry

  /** `rng.gen_range(lo..hi)`: some value of the half-open range. The range
      must not be empty (the generator panics on an empty range). */
  method GenRange(lo: int, hi: int) returns (v: int)
    requires lo < hi
    ensures lo <= v < hi
  {
    v :| lo <= v < hi;
  }

  /** `Point::random(width, height)`. */
  method RandomPoint(width: I32, height: I32) returns (p: Point)
    requires 0 < width && 0 < height
    ensures 0 <= p.x < width && 0 <= p.y < height
  {
    var x := GenRange(0, width);
    var y := GenRange(0, height);
    p := Point(x, y);
  }

  /** `Line::random(width, heigh)`: both endpoints are drawn independently, so
      they may coincide. */
  method RandomLine(width: I32, height: I32) returns (l: Line)
    requires 0 < width && 0 < height
    ensures 0 <= l.a.x < width && 0 <= l.a.y < height
    ensures 0 <= l.b.x < width && 0 <= l.b.y < height
  {
    var x1 := GenRange(0, width);
    var y1 := GenRange(0, height);
    var x2 := GenRange(0, width);
    var y2 := GenRange(0, height);
    l := Line(Point(x1, y1), Point(x2, y2));
  }

  /** `Circle::random(width, heigh)`: the radius is drawn from
      [0, (width + heigh) / 2). The sum must fit in an `i32`. */
  method RandomCircle(width: I32, height: I32) returns (c: Circle)
    requires 0 < width && 0 < height && width + height <= I32_MAX
    ensures 0 <= c.center.x < width && 0 <= c.center.y < height
    ensures 0 <= c.radius < (width + height) / 2
  {
    var x := GenRange(0, width);
    var y := GenRange(0, height);
    var r := GenRange(0, (width + height) / 2);
    c := Circle(Point(x, y), r);
  }

  /** `color()`: `Color::rgb` of three channels each from `gen_range(0..=255)`. */
  method RandomColor() returns (c: Color)
    ensures IsRgb8(c)
  {
    var r := GenRange(0, 256);
    var g := GenRange(0, 256);
    var b := GenRange(0, 256);
    c := Rgb(r, g, b);
  }
}
