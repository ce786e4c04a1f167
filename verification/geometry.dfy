/**
 The geometry builder: pixel-space rectangles are turned into four
 normalised-device-coordinate (NDC) vertices by an affine transform that puts
 pixel centres at half-integer positions. Coordinates are real numbers; the
 rounding of 32-bit floats is not modelled.
 */
module Geometry {

  /** An RGB colour with components in 0..1. */
  datatype Rgb = Rgb(r: real, g: real, b: real)

  /** The colour every vertex of the scene carries. */
  const Green := Rgb(0.0, 1.0, 0.0)

  /** A vertex as uploaded to a vertex buffer: position (x, y, z) and colour. */
  datatype Vertex = Vertex(x: real, y: real, z: real, colour: Rgb)

  /** A rectangle in pixel space, given by two opposite corners. Pixel y grows downwards. */
  datatype Rect = Rect(x0: real, y0: real, x1: real, y1: real)

  /** First corner strictly above and left of the second: positive width and height. */
  predicate NonDegenerate(r: Rect)
  {
    r.x0 < r.x1 && r.y0 < r.y1
  }

  /** The NDC x coordinate of pixel x coordinate `px` on a surface `width` pixels wide. */
  function NdcX(px: real, width: real): real
    requires width != 0.0
  {
    2.0 * (px - 0.5) / width - 1.0
  }

  /** The NDC y coordinate of pixel y coordinate `py` on a surface `height` pixels high (y is flipped). */
  function NdcY(py: real, height: real): real
    requires height != 0.0
  {
    1.0 - 2.0 * (py - 0.5) / height
  }

  /** Inverse of NdcX: the pixel x coordinate an NDC x coordinate comes from. */
  function PixelX(x: real, width: real): real
  {
    (x + 1.0) * width / 2.0 + 0.5
  }

  /** Inverse of NdcY: the pixel y coordinate an NDC y coordinate comes from. */
  function PixelY(y: real, height: real): real
  {
    (1.0 - y) * height / 2.0 + 0.5
  }

  /** The vertex at pixel position (px, py), on the z = 0 plane, in the colour GetSquareVertices gives every vertex. */
  function PixelVertex(px: real, py: real, width: real, height: real): Vertex
    requires width != 0.0 && height != 0.0
  {
    Vertex(NdcX(px, width), NdcY(py, height), 0.0, Green)
  }

  /**
   The four vertices of a rectangle, in triangle-strip order: (x0,y0), (x1,y0), (x0,y1), (x1,y1).
   */
  function SquareVertices(r: Rect, width: real, height: real): seq<Vertex>
    requires width != 0.0 && height != 0.0
  {
    [ PixelVertex(r.x0, r.y0, width, height),
      PixelVertex(r.x1, r.y0, width, height),
      PixelVertex(r.x0, r.y1, width, height),
      PixelVertex(r.x1, r.y1, width, height) ]
  }

  /**
   The caller's vertex array after the rectangle's four vertices have been
   written at `start`: exactly the slots start..start+3 change.
   */
  function WriteSquare(v: seq<Vertex>, r: Rect, width: real, height: real, start: nat): (v': seq<Vertex>)
    requires width != 0.0 && height != 0.0
    requires start + 4 <= |v|
    ensures |v'| == |v|
    ensures forall i :: 0 <= i < |v| && !(start <= i < start + 4) ==> v'[i] == v[i]
    ensures v'[start..start + 4] == SquareVertices(r, width, height)
  {
    v[..start] + SquareVertices(r, width, height) + v[start + 4..]
  }

  /**
   The array-writing builder itself: fills v[startIndex..startIndex+4] and
   returns the same array.
   */
  method GetSquareVertices(x0: real, y0: real, x1: real, y1: real, width: real, height: real,
                           v: array<Vertex>, startIndex: nat) returns (r: array<Vertex>)
    requires width != 0.0 && height != 0.0
    requires startIndex + 4 <= v.Length
    modifies v
    ensures r == v
    ensures v[..] == WriteSquare(old(v[..]), Rect(x0, y0, x1, y1), width, height, startIndex)
  {
    var xx0 := NdcX(x0, width);
    var yy0 := NdcY(y0, height);
    var xx1 := NdcX(x1, width);
    var yy1 := NdcY(y1, height);

    v[startIndex] := Vertex(xx0, yy0, 0.0, Green);
    v[startIndex + 1] := Vertex(xx1, yy0, 0.0, Green);
    v[startIndex + 2] := Vertex(xx0, yy1, 0.0, Green);
    v[startIndex + 3] := Vertex(xx1, yy1, 0.0, Green);

    assert v[..] == WriteSquare(old(v[..]), Rect(x0, y0, x1, y1), width, height, startIndex);
    return v;
  }

  /** The horizontal transform is invertible: mapping to NDC and back gives the pixel coordinate. */
  lemma NdcXRoundTrip(px: real, x: real, width: real)
    requires width != 0.0
    ensures PixelX(NdcX(px, width), width) == px
    ensures NdcX(PixelX(x, width), width) == x
  {
  }

  /** The vertical transform is invertible: mapping to NDC and back gives the pixel coordinate. */
  lemma NdcYRoundTrip(py: real, y: real, height: real)
    requires height != 0.0
    ensures PixelY(NdcY(py, height), height) == py
    ensures NdcY(PixelY(y, height), height) == y
  {
  }

  /** NDC differences are pixel differences scaled by 2/width (x) and -2/height (y). */
  lemma NdcDifferences(p: real, q: real, width: real, height: real)
    requires width != 0.0 && height != 0.0
    ensures NdcX(q, width) - NdcX(p, width) == 2.0 * (q - p) / width
    ensures NdcY(q, height) - NdcY(p, height) == -2.0 * (q - p) / height
  {
  }

  /** On a surface of positive width, NDC x is strictly increasing in pixel x (both directions). */
  lemma NdcXStrictlyIncreasing(p: real, q: real, width: real)
    requires width > 0.0
    ensures p < q <==> NdcX(p, width) < NdcX(q, width)
  {
    NdcDifferences(p, q, width, 1.0);
    DividedByPositive(2.0 * (q - p), width);
  }

  /** On a surface of positive height, NDC y is strictly decreasing in pixel y (both directions). */
  lemma NdcYStrictlyDecreasing(p: real, q: real, height: real)
    requires height > 0.0
    ensures p < q <==> NdcY(q, height) < NdcY(p, height)
  {
    NdcDifferences(p, q, 1.0, height);
    DividedByPositive(2.0 * (q - p), height);
  }

  /** Dividing by a positive number keeps the sign. */
  lemma DividedByPositive(a: real, d: real)
    requires d > 0.0
    ensures a > 0.0 <==> a / d > 0.0
    ensures a == 0.0 <==> a / d == 0.0
  {
    assert a == (a / d) * d;
  }

  /**
   Pixel centres 0.5 and width + 0.5 land on the clip edges -1 and 1, and a
   pixel x lands inside [-1, 1] exactly when it lies in [0.5, width + 0.5].
   */
  lemma NdcXRange(px: real, width: real)
    requires width > 0.0
    ensures NdcX(0.5, width) == -1.0
    ensures NdcX(width + 0.5, width) == 1.0
    ensures -1.0 <= NdcX(px, width) <= 1.0 <==> 0.5 <= px <= width + 0.5
  {
    NdcXStrictlyIncreasing(px, 0.5, width);
    NdcXStrictlyIncreasing(width + 0.5, px, width);
  }

  /**
   Pixel centres 0.5 and height + 0.5 land on the clip edges 1 and -1, and a
   pixel y lands inside [-1, 1] exactly when it lies in [0.5, height + 0.5].
   */
  lemma NdcYRange(py: real, height: real)
    requires height > 0.0
    ensures NdcY(0.5, height) == 1.0
    ensures NdcY(height + 0.5, height) == -1.0
    ensures -1.0 <= NdcY(py, height) <= 1.0 <==> 0.5 <= py <= height + 0.5
  {
    NdcYStrictlyDecreasing(py, 0.5, height);
    NdcYStrictlyDecreasing(height + 0.5, py, height);
  }

  /** Pixel edge 0 lies outside the clip range: NDC x of 0 is below -1 and NDC y of 0 above 1. */
  lemma PixelEdgeOutsideClipRange(width: real, height: real)
    requires width > 0.0 && height > 0.0
    ensures NdcX(0.0, width) < -1.0
    ensures NdcY(0.0, height) > 1.0
  {
    NdcXRange(0.0, width);
    NdcYRange(0.0, height);
  }

  /**
   The four vertices, mapped back to pixel space, are the rectangle's corners
   in strip order (x0,y0), (x1,y0), (x0,y1), (x1,y1); all lie on z = 0 and
   are green whatever the rectangle.
   */
  lemma SquareCorners(r: Rect, width: real, height: real)
    requires width != 0.0 && height != 0.0
    ensures var q := SquareVertices(r, width, height);
      && |q| == 4
      && PixelX(q[0].x, width) == r.x0 && PixelY(q[0].y, height) == r.y0
      && PixelX(q[1].x, width) == r.x1 && PixelY(q[1].y, height) == r.y0
      && PixelX(q[2].x, width) == r.x0 && PixelY(q[2].y, height) == r.y1
      && PixelX(q[3].x, width) == r.x1 && PixelY(q[3].y, height) == r.y1
      && forall i :: 0 <= i < 4 ==> q[i].z == 0.0 && q[i].colour == Green
  {
    NdcXRoundTrip(r.x0, 0.0, width);
    NdcXRoundTrip(r.x1, 0.0, width);
    NdcYRoundTrip(r.y0, 0.0, height);
    NdcYRoundTrip(r.y1, 0.0, height);
  }

  /** Writing the same rectangle twice at the same offset is the same as writing it once. */
  lemma WriteSquareIdempotent(v: seq<Vertex>, r: Rect, width: real, height: real, start: nat)
    requires width != 0.0 && height != 0.0
    requires start + 4 <= |v|
    ensures WriteSquare(WriteSquare(v, r, width, height, start), r, width, height, start)
         == WriteSquare(v, r, width, height, start)
  {
  }

  /** The eight vertices of two rectangles, first quad then second, as InitializeScene lays them out. */
  function TwoSquares(a: Rect, b: Rect, width: real, height: real): seq<Vertex>
    requires width != 0.0 && height != 0.0
  {
    SquareVertices(a, width, height) + SquareVertices(b, width, height)
  }

  /**
   Writing one rectangle at slot 0 and another at slot 4 of an eight-vertex
   array overwrites all of it, whatever it held before.
   */
  lemma WriteTwoSquares(init: seq<Vertex>, a: Rect, b: Rect, width: real, height: real)
    requires width != 0.0 && height != 0.0
    requires |init| == 8
    ensures WriteSquare(WriteSquare(init, a, width, height, 0), b, width, height, 4)
         == TwoSquares(a, b, width, height)
  {
    var v1 := WriteSquare(init, a, width, height, 0);
    var v2 := WriteSquare(v1, b, width, height, 4);
    assert v2[..4] == v1[..4];
    assert v2 == v2[..4] + v2[4..8];
  }
}
