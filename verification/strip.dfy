/**
 Triangle-strip assembly and facing. A draw of n vertices with the
 triangle-strip topology produces n - 2 triangles; every odd triangle has its
 last two vertices swapped so that all triangles of a strip keep one winding.
 The rasterizer state is zero-initialised apart from fill and cull mode, so
 clockwise triangles (as seen on screen) are front-facing.
 */
module Strip {
  import opened Geometry

  datatype Triangle = Triangle(a: Vertex, b: Vertex, c: Vertex)

  /** Which stencil face a triangle uses; zero-area triangles produce no fragments. */
  datatype Facing = FrontFacing | BackFacing | Degenerate

  /** Triangle i of a strip over `vs`. */
  function StripTriangle(vs: seq<Vertex>, i: nat): Triangle
    requires i + 2 < |vs|
  {
    if i % 2 == 0 then Triangle(vs[i], vs[i + 1], vs[i + 2])
    else Triangle(vs[i], vs[i + 2], vs[i + 1])
  }

  /**
   All triangles a strip over `vs` assembles, in order: n - 2 of them for n >= 3
   vertices and none for fewer.
   */
  function StripTriangles(vs: seq<Vertex>): (ts: seq<Triangle>)
    ensures |ts| == if |vs| < 3 then 0 else |vs| - 2
  {
    if |vs| < 3 then [] else seq(|vs| - 2, i requires 0 <= i < |vs| - 2 => StripTriangle(vs, i))
  }

  /** Twice the signed area of a triangle in NDC (y up): negative for clockwise. */
  function SignedArea(t: Triangle): real
  {
    (t.b.x - t.a.x) * (t.c.y - t.a.y) - (t.b.y - t.a.y) * (t.c.x - t.a.x)
  }

  /** Clockwise is front (FrontCounterClockwise = FALSE). */
  function FacingOf(t: Triangle): Facing
  {
    if SignedArea(t) < 0.0 then FrontFacing
    else if SignedArea(t) > 0.0 then BackFacing
    else Degenerate
  }

  /** Twice the signed area of a pixel-space triangle (y down): positive for clockwise on screen. */
  function ScreenCross(px: real, py: real, qx: real, qy: real, rx: real, ry: real): real
  {
    (qx - px) * (ry - py) - (qy - py) * (rx - px)
  }

  /**
   The NDC transform scales areas by -4/(width*height): flipping y turns the
   on-screen clockwise orientation into a negative NDC area.
   */
  lemma AreaUnderNdc(px: real, py: real, qx: real, qy: real, rx: real, ry: real, width: real, height: real)
    requires width != 0.0 && height != 0.0
    ensures SignedArea(Triangle(PixelVertex(px, py, width, height), PixelVertex(qx, qy, width, height),
                                PixelVertex(rx, ry, width, height)))
         == -4.0 / (width * height) * ScreenCross(px, py, qx, qy, rx, ry)
  {
    var t := Triangle(PixelVertex(px, py, width, height), PixelVertex(qx, qy, width, height),
                      PixelVertex(rx, ry, width, height));
    PixelEdges(px, py, qx, qy, width, height);
    PixelEdges(px, py, rx, ry, width, height);
    AreaScaling(t, px, py, qx, qy, rx, ry, width, height);
  }

  /** An NDC edge is the pixel edge scaled by 2/width in x and -2/height in y. */
  lemma PixelEdges(px: real, py: real, qx: real, qy: real, width: real, height: real)
    requires width != 0.0 && height != 0.0
    ensures NdcX(qx, width) - NdcX(px, width) == 2.0 * (qx - px) * (1.0 / width)
    ensures NdcY(qy, height) - NdcY(py, height) == -2.0 * (qy - py) * (1.0 / height)
  {
    NdcDifferences(px, qx, width, height);
    NdcDifferences(py, qy, width, height);
    ScaledDifference(qx - px, width, 1.0 / width);
    ScaledDifference(qy - py, height, 1.0 / height);
  }

  /** The signed area of a triangle whose edges are pixel edges scaled as by the NDC transform. */
  lemma AreaScaling(t: Triangle, px: real, py: real, qx: real, qy: real, rx: real, ry: real, width: real, height: real)
    requires width != 0.0 && height != 0.0
    requires t.b.x - t.a.x == 2.0 * (qx - px) * (1.0 / width) && t.b.y - t.a.y == -2.0 * (qy - py) * (1.0 / height)
    requires t.c.x - t.a.x == 2.0 * (rx - px) * (1.0 / width) && t.c.y - t.a.y == -2.0 * (ry - py) * (1.0 / height)
    ensures SignedArea(t) == -4.0 / (width * height) * ScreenCross(px, py, qx, qy, rx, ry)
  {
    var u := 1.0 / width;
    var v := 1.0 / height;
    EdgeScaling(t, px, py, qx, qy, rx, ry, u, v);
    ReciprocalOfProduct(width, height);
    EqualFactors(-4.0 / (width * height), -(4.0 * u * v), ScreenCross(px, py, qx, qy, rx, ry));
  }

  /** Equal factors give equal products. */
  lemma EqualFactors(a: real, b: real, x: real)
    requires a == b
    ensures a * x == b * x
  {
  }

  /** A triangle whose edges are the pixel edges scaled by 2u in x and -2v in y has -4uv times their signed area. */
  lemma EdgeScaling(t: Triangle, px: real, py: real, qx: real, qy: real, rx: real, ry: real, u: real, v: real)
    requires t.b.x - t.a.x == 2.0 * (qx - px) * u && t.b.y - t.a.y == -2.0 * (qy - py) * v
    requires t.c.x - t.a.x == 2.0 * (rx - px) * u && t.c.y - t.a.y == -2.0 * (ry - py) * v
    ensures SignedArea(t) == -(4.0 * u * v) * ScreenCross(px, py, qx, qy, rx, ry)
  {
    ProductIdentity(t.b.x - t.a.x, t.b.y - t.a.y, t.c.x - t.a.x, t.c.y - t.a.y,
                    qx - px, qy - py, rx - px, ry - py, u, v);
  }

  /** -4/(w*h) is -4 times the product of the reciprocals. */
  lemma ReciprocalOfProduct(w: real, h: real)
    requires w != 0.0 && h != 0.0
    ensures -4.0 / (w * h) == -(4.0 * (1.0 / w) * (1.0 / h))
  {
    assert (1.0 / w) * w == 1.0;
    assert (1.0 / h) * h == 1.0;
    assert (4.0 * (1.0 / w) * (1.0 / h)) * (w * h) == 4.0 * ((1.0 / w) * w) * ((1.0 / h) * h);
    assert 4.0 / (w * h) == 4.0 * (1.0 / w) * (1.0 / h);
  }

  /** Dividing a scaled difference by a non-zero size is multiplying it by the size's reciprocal. */
  lemma ScaledDifference(d: real, size: real, recip: real)
    requires size != 0.0 && recip == 1.0 / size
    ensures 2.0 * d / size == 2.0 * d * recip
    ensures -2.0 * d / size == -2.0 * d * recip
  {
  }

  /**
   The polynomial identity behind AreaUnderNdc: with the NDC edge vectors
   (ex, ey), (fx, fy) obtained from the pixel edge vectors by scaling x by 2u
   and y by -2v, their cross product is -4uv times the pixel one.
   */
  lemma ProductIdentity(ex: real, ey: real, fx: real, fy: real,
                        dqx: real, dqy: real, drx: real, dry: real, u: real, v: real)
    requires ex == 2.0 * dqx * u && ey == -2.0 * dqy * v
    requires fx == 2.0 * drx * u && fy == -2.0 * dry * v
    ensures ex * fy - ey * fx == -(4.0 * u * v) * (dqx * dry - dqy * drx)
  {
  }

  /**
   On a surface of positive size a pixel-space triangle is front-facing exactly
   when it is clockwise on screen, back-facing exactly when counter-clockwise.
   */
  lemma FacingOfPixelTriangle(px: real, py: real, qx: real, qy: real, rx: real, ry: real, width: real, height: real)
    requires width > 0.0 && height > 0.0
    ensures var t := Triangle(PixelVertex(px, py, width, height), PixelVertex(qx, qy, width, height),
                              PixelVertex(rx, ry, width, height));
      && (FacingOf(t) == FrontFacing <==> ScreenCross(px, py, qx, qy, rx, ry) > 0.0)
      && (FacingOf(t) == BackFacing <==> ScreenCross(px, py, qx, qy, rx, ry) < 0.0)
  {
    AreaUnderNdc(px, py, qx, qy, rx, ry, width, height);
    var k := 4.0 / (width * height);
    assert k > 0.0 by {
      DividedByPositive(4.0, width * height);
    }
    var s := ScreenCross(px, py, qx, qy, rx, ry);
    assert -k * s < 0.0 <==> s > 0.0;
    assert -k * s > 0.0 <==> s < 0.0;
  }

  /**
   Both triangles of a rectangle's quad are front-facing when the rectangle
   has its first corner top-left of its second (x0 < x1, y0 < y1).
   */
  lemma QuadFrontFacing(r: Rect, width: real, height: real)
    requires width > 0.0 && height > 0.0
    requires NonDegenerate(r)
    ensures var ts := StripTriangles(SquareVertices(r, width, height));
      |ts| == 2 && FacingOf(ts[0]) == FrontFacing && FacingOf(ts[1]) == FrontFacing
  {
    var ts := StripTriangles(SquareVertices(r, width, height));
    FacingOfPixelTriangle(r.x0, r.y0, r.x1, r.y0, r.x0, r.y1, width, height);
    FacingOfPixelTriangle(r.x1, r.y0, r.x1, r.y1, r.x0, r.y1, width, height);
    PositiveProduct(r.x1 - r.x0, r.y1 - r.y0);
    assert ts[1] == Triangle(PixelVertex(r.x1, r.y0, width, height), PixelVertex(r.x1, r.y1, width, height),
                             PixelVertex(r.x0, r.y1, width, height));
  }

  /** The product of two positive reals is positive. */
  lemma PositiveProduct(a: real, b: real)
    requires a > 0.0 && b > 0.0
    ensures a * b > 0.0
  {
  }

  /**
   A strip over two quads (the eight-vertex draw) holds six triangles: 0, 1
   are the first quad, 4, 5 the second, and 2, 3 bridge the two. For
   well-formed rectangles the quad triangles are front-facing, and the bridge
   triangles are back-facing exactly when the second rectangle's top lies above
   the first one's bottom (front-facing exactly when it lies below).
   */
  lemma TwoSquaresFacing(a: Rect, b: Rect, width: real, height: real)
    requires width > 0.0 && height > 0.0
    requires NonDegenerate(a) && NonDegenerate(b)
    ensures var ts := StripTriangles(TwoSquares(a, b, width, height));
      && |ts| == 6
      && FacingOf(ts[0]) == FrontFacing && FacingOf(ts[1]) == FrontFacing
      && FacingOf(ts[4]) == FrontFacing && FacingOf(ts[5]) == FrontFacing
      && (FacingOf(ts[2]) == BackFacing <==> b.y0 < a.y1)
      && (FacingOf(ts[3]) == BackFacing <==> b.y0 < a.y1)
      && (FacingOf(ts[2]) == FrontFacing <==> b.y0 > a.y1)
      && (FacingOf(ts[3]) == FrontFacing <==> b.y0 > a.y1)
  {
    StripOfTwoSquares(a, b, width, height);
    QuadFrontFacing(a, width, height);
    QuadFrontFacing(b, width, height);
    BridgeFacing(a, b, width, height);
  }

  /** The six triangles of the two-quad strip: the quads' own triangles and two bridges. */
  lemma StripOfTwoSquares(a: Rect, b: Rect, width: real, height: real)
    requires width != 0.0 && height != 0.0
    ensures var qa := StripTriangles(SquareVertices(a, width, height));
      var qb := StripTriangles(SquareVertices(b, width, height));
      var ts := StripTriangles(TwoSquares(a, b, width, height));
      && |ts| == 6 && |qa| == 2 && |qb| == 2
      && ts[0] == qa[0] && ts[1] == qa[1] && ts[4] == qb[0] && ts[5] == qb[1]
      && ts[2] == Triangle(PixelVertex(a.x0, a.y1, width, height), PixelVertex(a.x1, a.y1, width, height),
                           PixelVertex(b.x0, b.y0, width, height))
      && ts[3] == Triangle(PixelVertex(a.x1, a.y1, width, height), PixelVertex(b.x1, b.y0, width, height),
                           PixelVertex(b.x0, b.y0, width, height))
  {
  }

  /**
   The two bridge triangles are back-facing exactly when the second
   rectangle's top lies above the first one's bottom.
   */
  lemma BridgeFacing(a: Rect, b: Rect, width: real, height: real)
    requires width > 0.0 && height > 0.0
    requires a.x0 < a.x1 && b.x0 < b.x1
    ensures var t2 := Triangle(PixelVertex(a.x0, a.y1, width, height), PixelVertex(a.x1, a.y1, width, height),
                               PixelVertex(b.x0, b.y0, width, height));
      var t3 := Triangle(PixelVertex(a.x1, a.y1, width, height), PixelVertex(b.x1, b.y0, width, height),
                         PixelVertex(b.x0, b.y0, width, height));
      && (FacingOf(t2) == BackFacing <==> b.y0 < a.y1)
      && (FacingOf(t3) == BackFacing <==> b.y0 < a.y1)
      && (FacingOf(t2) == FrontFacing <==> b.y0 > a.y1)
      && (FacingOf(t3) == FrontFacing <==> b.y0 > a.y1)
  {
    FacingOfPixelTriangle(a.x0, a.y1, a.x1, a.y1, b.x0, b.y0, width, height);
    assert ScreenCross(a.x0, a.y1, a.x1, a.y1, b.x0, b.y0) == (a.x1 - a.x0) * (b.y0 - a.y1);
    SignOfProduct(a.x1 - a.x0, b.y0 - a.y1);
    FacingOfPixelTriangle(a.x1, a.y1, b.x1, b.y0, b.x0, b.y0, width, height);
    assert ScreenCross(a.x1, a.y1, b.x1, b.y0, b.x0, b.y0) == (b.x1 - b.x0) * (b.y0 - a.y1);
    SignOfProduct(b.x1 - b.x0, b.y0 - a.y1);
  }

  /** A positive factor keeps the sign of the other. */
  lemma SignOfProduct(k: real, s: real)
    requires k > 0.0
    ensures k * s > 0.0 <==> s > 0.0
    ensures k * s < 0.0 <==> s < 0.0
  {
    if s > 0.0 {
      PositiveProduct(k, s);
    } else if s < 0.0 {
      PositiveProduct(k, -s);
    }
  }
}
