/** The value types of the drawing core: 32-bit coordinates, points, the four
    compound shapes, the colour handed to every pixel write, and one recorded
    pixel write. */
module Geometry {

  const I32_MIN: int := -0x8000_0000
  const I32_MAX: int := 0x7fff_ffff

  /** Rust's `i32`. Arithmetic is done on `int`; storing a result back into an
      `I32` is where an overflow would be caught. */
  type I32 = v: int | I32_MIN <= v <= I32_MAX

  function Abs(v: int): (r: nat)
    ensures r == v || r == -v
  {
    if v < 0 then -v else v
  }

  function Sign(v: int): (r: int)
    ensures r * v == Abs(v)
    ensures -1 <= r <= 1 && (r == 0 <==> v == 0)
  {
    if v < 0 then -1 else if v == 0 then 0 else 1
  }

  function Max(a: int, b: int): (r: int)
    ensures r >= a && r >= b && (r == a || r == b)
  {
    if a >= b then a else b
  }

  /** `Point { x, y }`; `Point::new(x, y)` is this constructor. */
  datatype Point = Point(x: I32, y: I32)

  /** `Line { a, b }`; `Line::new(a, b)` is this constructor. */
  datatype Line = Line(a: Point, b: Point)

  /** `Triangle { a, b, c }`, the closed outline a -> b -> c -> a. */
  datatype Triangle = Triangle(a: Point, b: Point, c: Point)

  /** `Rectangle { a, b }`: two opposite corners of an axis-aligned rectangle;
      the other two corners are derived when it is drawn. */
  datatype Rectangle = Rectangle(a: Point, b: Point)

  /** `Circle { center, radius }`. `Circle::new` does not check the radius, so a
      negative radius is a value of this type too. */
  datatype Circle = Circle(center: Point, radius: I32)

  /** The colour of a write. Its channels are whatever the caller chose; the
      random colour source produces channels in [0, 255]. */
  datatype Color = Rgb(r: int, g: int, b: int)

  predicate IsRgb8(c: Color) {
    0 <= c.r <= 255 && 0 <= c.g <= 255 && 0 <= c.b <= 255
  }

  /** One call of `display(x, y, color)` on the image, as recorded in its log. */
  datatype Pixel = Pixel(x: int, y: int, color: Color)

  /** Every write of `ws` carries colour `c`. */
  predicate AllColored(ws: seq<Pixel>, c: Color) {
    forall k :: 0 <= k < |ws| ==> ws[k].color == c
  }

  lemma ConcatAssoc<T>(a: seq<T>, b: seq<T>, c: seq<T>)
    ensures (a + b) + c == a + (b + c)
  {
  }
}
