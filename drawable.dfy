/** The `Drawable` capability over the closed set of shape variants: each
    `draw` picks one colour, then makes its writes with that colour. A triangle
    and a two-corner rectangle are drawn as closed chains of `draw_line`
    edges. */
module Drawable {
  import opened Geometry
  import opened Raster
  import opened LineRaster
  import opened CircleRaster
  import opened RandomShapes

  datatype Shape =
    | PointShape(p: Point)
    | LineShape(l: Line)
    | TriangleShape(t: Triangle)
    | RectangleShape(r: Rectangle)
    | CircleShape(c: Circle)

  /** Each edge starts where the previous one ended, and the last one ends
      where the first one started. */
  predicate ClosedPath(es: seq<Line>) {
    |es| > 0 && es[|es| - 1].b == es[0].a &&
    forall i :: 0 <= i < |es| - 1 ==> es[i].b == es[i + 1].a
  }

  predicate AxisAligned(e: Line) {
    e.a.x == e.b.x || e.a.y == e.b.y
  }

  /** The edges `Triangle::draw` hands to `draw_line`, in call order. */
  function TriangleEdges(t: Triangle): (es: seq<Line>)
    ensures |es| == 3 && ClosedPath(es)
    ensures es[0].a == t.a && es[1].a == t.b && es[2].a == t.c
  {
    [Line(t.a, t.b), Line(t.b, t.c), Line(t.c, t.a)]
  }

  /** The edges `Rectangle::draw` hands to `draw_line`, in call order: around
      the corners `a`, `(b.x, a.y)`, `b`, `(a.x, b.y)`. */
  function RectangleEdges(r: Rectangle): (es: seq<Line>)
    ensures |es| == 4 && ClosedPath(es)
    ensures forall e :: e in es ==> AxisAligned(e)
    ensures es[0].a == r.a && es[1].a == Point(r.b.x, r.a.y) && es[2].a == r.b && es[3].a == Point(r.a.x, r.b.y)
  {
    var ba := Point(r.b.x, r.a.y);
    var ab := Point(r.a.x, r.b.y);
    [Line(r.a, ba), Line(ba, r.b), Line(r.b, ab), Line(ab, r.a)]
  }

  /** The writes of `draw_line` over each edge in turn. */
  function EdgeWrites(es: seq<Line>, color: Color): seq<Pixel> {
    if es == [] then [] else LineWrites(es[0].a, es[0].b, color) + EdgeWrites(es[1..], color)
  }

  function TotalSteps(es: seq<Line>): nat {
    if es == [] then 0 else Steps(es[0].a, es[0].b) + TotalSteps(es[1..])
  }

  /** The writes one `draw` call makes with the colour it picked. */
  function ShapeWrites(s: Shape, color: Color): seq<Pixel> {
    match s
    case PointShape(p) => [Pixel(p.x, p.y, color)]
    case LineShape(l) => LineWrites(l.a, l.b, color)
    case TriangleShape(t) => EdgeWrites(TriangleEdges(t), color)
    case RectangleShape(r) => EdgeWrites(RectangleEdges(r), color)
    case CircleShape(c) => CircleWrites(c, color)
  }

  /** No `i32` arithmetic of the shape's drawing overflows. */
  predicate ShapeFits(s: Shape) {
    match s
    case PointShape(_) => true
    case LineShape(l) => LineFits(l.a, l.b)
    case TriangleShape(t) => LineFits(t.a, t.b) && LineFits(t.b, t.c) && LineFits(t.c, t.a)
    case RectangleShape(r) => LineFits(r.a, r.b)
    case CircleShape(c) => CircleFits(c)
  }

  lemma EdgeWritesOfTwo(e1: Line, e2: Line, color: Color)
    ensures EdgeWrites([e1, e2], color) == LineWrites(e1.a, e1.b, color) + LineWrites(e2.a, e2.b, color)
  {
    assert [e1, e2][1..] == [e2];
    assert EdgeWrites([e2], color) == LineWrites(e2.a, e2.b, color) + EdgeWrites([], color);
  }

  /** The writes of the rectangle's four edges, one after the other. */
  lemma RectangleIsFourLines(r: Rectangle, color: Color)
    ensures var es := RectangleEdges(r);
      ShapeWrites(RectangleShape(r), color)
        == LineWrites(es[0].a, es[0].b, color) + LineWrites(es[1].a, es[1].b, color)
         + LineWrites(es[2].a, es[2].b, color) + LineWrites(es[3].a, es[3].b, color)
  {
    var es := RectangleEdges(r);
    assert es[1..][1..] == [es[2], es[3]];
    EdgeWritesOfTwo(es[2], es[3], color);
    assert EdgeWrites(es[1..], color) == LineWrites(es[1].a, es[1].b, color) + EdgeWrites(es[1..][1..], color);
  }

  lemma {:induction false} EdgeWritesLength(es: seq<Line>, color: Color)
    ensures |EdgeWrites(es, color)| == TotalSteps(es)
  {
    if es != [] {
      LineWriteCount(es[0].a, es[0].b, color);
      EdgeWritesLength(es[1..], color);
    }
  }

  lemma {:induction false} EdgeWritesOneColor(es: seq<Line>, color: Color)
    ensures AllColored(EdgeWrites(es, color), color)
  {
    if es != [] {
      LineOneColor(es[0].a, es[0].b, color);
      EdgeWritesOneColor(es[1..], color);
    }
  }

  /** Every write of one `draw` call carries the one colour it picked. */
  lemma ShapeOneColor(s: Shape, color: Color)
    ensures AllColored(ShapeWrites(s, color), color)
  {
    match s
    case PointShape(_) =>
    case LineShape(l) => LineOneColor(l.a, l.b, color);
    case TriangleShape(t) => EdgeWritesOneColor(TriangleEdges(t), color);
    case RectangleShape(r) => EdgeWritesOneColor(RectangleEdges(r), color);
    case CircleShape(c) => CircleOneColor(c, color);
  }

  /** A triangle is the lines a -> b, b -> c, c -> a, in that order. */
  lemma TriangleIsThreeLines(t: Triangle, color: Color)
    ensures ShapeWrites(TriangleShape(t), color)
         == LineWrites(t.a, t.b, color) + LineWrites(t.b, t.c, color) + LineWrites(t.c, t.a, color)
  {
    var es := TriangleEdges(t);
    assert es[1..] == [Line(t.b, t.c), Line(t.c, t.a)];
    EdgeWritesOfTwo(Line(t.b, t.c), Line(t.c, t.a), color);
  }

  /** A triangle makes as many writes as its three edges together. */
  lemma TriangleWriteCount(t: Triangle, color: Color)
    ensures |ShapeWrites(TriangleShape(t), color)| == Steps(t.a, t.b) + Steps(t.b, t.c) + Steps(t.c, t.a)
  {
    TriangleIsThreeLines(t, color);
    LineWriteCount(t.a, t.b, color);
    LineWriteCount(t.b, t.c, color);
    LineWriteCount(t.c, t.a, color);
  }

  /** A two-corner rectangle makes `2 |b.x - a.x| + 2 |b.y - a.y|` writes. */
  lemma RectangleWriteCount(r: Rectangle, color: Color)
    ensures |ShapeWrites(RectangleShape(r), color)| == 2 * Abs(r.b.x - r.a.x) + 2 * Abs(r.b.y - r.a.y)
  {
    var es := RectangleEdges(r);
    RectangleIsFourLines(r, color);
    LineWriteCount(es[0].a, es[0].b, color);
    LineWriteCount(es[1].a, es[1].b, color);
    LineWriteCount(es[2].a, es[2].b, color);
    LineWriteCount(es[3].a, es[3].b, color);
  }

  /** The rectangle with corners (0,0) and (5,3) is drawn along
      (0,0)-(5,0), (5,0)-(5,3), (5,3)-(0,3), (0,3)-(0,0). */
  lemma RectangleExample()
    ensures RectangleEdges(Rectangle(Point(0, 0), Point(5, 3)))
         == [Line(Point(0, 0), Point(5, 0)), Line(Point(5, 0), Point(5, 3)),
             Line(Point(5, 3), Point(0, 3)), Line(Point(0, 3), Point(0, 0))]
  {
  }

  /** `Point::draw`: a single write at the point itself. */
  method DrawPoint(p: Point, image: Image) returns (ghost picked: Color)
    modifies image
    ensures IsRgb8(picked)
    ensures image.writes == old(image.writes) + [Pixel(p.x, p.y, picked)]
    ensures image.writes == old(image.writes) + ShapeWrites(PointShape(p), picked)
  {
    var color := RandomColor();
    image.Display(p.x, p.y, color);
    picked := color;
  }

  /** `Line::draw`: one `draw_line` from `a` to `b`. */
  method DrawLineShape(l: Line, image: Image) returns (ghost picked: Color)
    requires LineFits(l.a, l.b)
    modifies image
    ensures IsRgb8(picked)
    ensures image.writes == old(image.writes) + ShapeWrites(LineShape(l), picked)
  {
    var color := RandomColor();
    DrawLine(image, l.a, l.b, color);
    picked := color;
  }

  /** `Triangle::draw`: the three edges with one colour. */
  method DrawTriangle(t: Triangle, image: Image) returns (ghost picked: Color)
    requires LineFits(t.a, t.b) && LineFits(t.b, t.c) && LineFits(t.c, t.a)
    modifies image
    ensures IsRgb8(picked)
    ensures image.writes == old(image.writes) + ShapeWrites(TriangleShape(t), picked)
  {
    var color := RandomColor();
    ghost var start := image.writes;
    DrawLine(image, t.a, t.b, color);
    DrawLine(image, t.b, t.c, color);
    DrawLine(image, t.c, t.a, color);
    ghost var ab, bc := LineWrites(t.a, t.b, color), LineWrites(t.b, t.c, color);
    ConcatAssoc(start, ab, bc);
    ConcatAssoc(start, ab + bc, LineWrites(t.c, t.a, color));
    TriangleIsThreeLines(t, color);
    picked := color;
  }

  /** `Rectangle::draw`: the four axis-aligned edges with one colour. */
  method DrawRectangle(r: Rectangle, image: Image) returns (ghost picked: Color)
    requires LineFits(r.a, r.b)
    modifies image
    ensures IsRgb8(picked)
    ensures image.writes == old(image.writes) + ShapeWrites(RectangleShape(r), picked)
  {
    var color := RandomColor();
    ghost var start := image.writes;
    var ba := Point(r.b.x, r.a.y);
    var ab := Point(r.a.x, r.b.y);
    DrawLine(image, r.a, ba, color);
    DrawLine(image, ba, r.b, color);
    DrawLine(image, r.b, ab, color);
    DrawLine(image, ab, r.a, color);
    ghost var w0, w1, w2 := LineWrites(r.a, ba, color), LineWrites(ba, r.b, color), LineWrites(r.b, ab, color);
    ConcatAssoc(start, w0, w1);
    ConcatAssoc(start, w0 + w1, w2);
    ConcatAssoc(start, w0 + w1 + w2, LineWrites(ab, r.a, color));
    RectangleIsFourLines(r, color);
    picked := color;
  }

  /** `Circle::draw`: pick the colour, then run the midpoint loop. */
  method DrawCircle(c: Circle, image: Image) returns (ghost picked: Color)
    requires CircleFits(c)
    modifies image
    ensures IsRgb8(picked)
    ensures image.writes == old(image.writes) + ShapeWrites(CircleShape(c), picked)
  {
    var color := RandomColor();
    MidpointCircle(image, c, color);
    picked := color;
  }

  /** `Drawable::draw`, dispatched over the shape variants. */
  method Draw(s: Shape, image: Image) returns (ghost picked: Color)
    requires ShapeFits(s)
    modifies image
    ensures IsRgb8(picked)
    ensures image.writes == old(image.writes) + ShapeWrites(s, picked)
    ensures AllColored(image.writes[|old(image.writes)|..], picked)
  {
    match s {
      case PointShape(p) => picked := DrawPoint(p, image);
      case LineShape(l) => picked := DrawLineShape(l, image);
      case TriangleShape(t) => picked := DrawTriangle(t, image);
      case RectangleShape(r) => picked := DrawRectangle(r, image);
      case CircleShape(c) => picked := DrawCircle(c, image);
    }
    ShapeOneColor(s, picked);
    assert image.writes[|old(image.writes)|..] == ShapeWrites(s, picked);
  }
}
