/**
 The scene InitializeScene uploads: two overlapping rectangles on an 800x600
 surface form the outer mesh, and the same rectangles shrunk by a thickness of
 5 on every edge form the inset mesh. Each mesh is one eight-vertex strip.
 */
module Scene {
  import opened Geometry
  import opened Strip

  const SurfaceWidth: real := 800.0
  const SurfaceHeight: real := 600.0

  /** The two outer rectangles, in pixel space. */
  const OuterFirst := Rect(20.0, 20.0, 250.0, 500.0)
  const OuterSecond := Rect(50.0, 50.0, 280.0, 530.0)

  /** How far the inset rectangles are moved in from the left/right and top/bottom edges. */
  const SideThickness: real := 5.0
  const TopThickness: real := 5.0

  /**
   The rectangle shrunk by `side` on the left and right edges and by `top` on
   the top and bottom edges: growing it back gives the original, and positive
   thicknesses put it strictly inside.
   */
  function Inset(r: Rect, side: real, top: real): (i: Rect)
    ensures Outset(i, side, top) == r
    ensures side > 0.0 && top > 0.0 ==> StrictlyInside(i, r)
    ensures i.x1 - i.x0 == r.x1 - r.x0 - 2.0 * side && i.y1 - i.y0 == r.y1 - r.y0 - 2.0 * top
  {
    Rect(r.x0 + side, r.y0 + top, r.x1 - side, r.y1 - top)
  }

  /** The rectangle grown by `side` and `top`: the inverse of Inset. */
  function Outset(r: Rect, side: real, top: real): Rect
  {
    Rect(r.x0 - side, r.y0 - top, r.x1 + side, r.y1 + top)
  }

  /** Every edge of `inner` lies strictly inside `outer`. */
  predicate StrictlyInside(inner: Rect, outer: Rect)
  {
    outer.x0 < inner.x0 && inner.x1 < outer.x1 && outer.y0 < inner.y0 && inner.y1 < outer.y1
  }

  /** The mesh uploaded to vertexBuffer. */
  function OuterMesh(): seq<Vertex>
  {
    TwoSquares(OuterFirst, OuterSecond, SurfaceWidth, SurfaceHeight)
  }

  /** The mesh uploaded to vertexBuffer2. */
  function InsetMesh(): seq<Vertex>
  {
    TwoSquares(Inset(OuterFirst, SideThickness, TopThickness), Inset(OuterSecond, SideThickness, TopThickness),
               SurfaceWidth, SurfaceHeight)
  }

  /**
   Shrinking by positive thicknesses puts every edge strictly inside the
   original, and the result keeps a positive width and height exactly when the
   original is wider than twice the side thickness and higher than twice the
   top thickness. Growing back restores the original.
   */
  lemma InsetContained(r: Rect, side: real, top: real)
    requires side > 0.0 && top > 0.0
    ensures StrictlyInside(Inset(r, side, top), r)
    ensures NonDegenerate(Inset(r, side, top)) <==> r.x1 - r.x0 > 2.0 * side && r.y1 - r.y0 > 2.0 * top
    ensures Outset(Inset(r, side, top), side, top) == r
  {
  }

  /**
   The scene's inset rectangles are (25,25)-(245,495) and (55,55)-(275,525);
   each is non-degenerate and strictly inside its outer rectangle.
   */
  lemma SceneInsets()
    ensures Inset(OuterFirst, SideThickness, TopThickness) == Rect(25.0, 25.0, 245.0, 495.0)
    ensures Inset(OuterSecond, SideThickness, TopThickness) == Rect(55.0, 55.0, 275.0, 525.0)
    ensures NonDegenerate(OuterFirst) && NonDegenerate(OuterSecond)
    ensures NonDegenerate(Inset(OuterFirst, SideThickness, TopThickness))
    ensures NonDegenerate(Inset(OuterSecond, SideThickness, TopThickness))
    ensures StrictlyInside(Inset(OuterFirst, SideThickness, TopThickness), OuterFirst)
    ensures StrictlyInside(Inset(OuterSecond, SideThickness, TopThickness), OuterSecond)
  {
    InsetContained(OuterFirst, SideThickness, TopThickness);
    InsetContained(OuterSecond, SideThickness, TopThickness);
  }

  /**
   The eight-vertex arrays InitializeScene fills with two GetSquareVertices
   calls (slots 0 and 4) are the outer and inset meshes, whatever the arrays
   held before.
   */
  lemma SceneArraysAreMeshes(v: seq<Vertex>, v2: seq<Vertex>)
    requires |v| == 8 && |v2| == 8
    ensures WriteSquare(WriteSquare(v, OuterFirst, SurfaceWidth, SurfaceHeight, 0),
                        OuterSecond, SurfaceWidth, SurfaceHeight, 4) == OuterMesh()
    ensures WriteSquare(WriteSquare(v2, Inset(OuterFirst, SideThickness, TopThickness), SurfaceWidth, SurfaceHeight, 0),
                        Inset(OuterSecond, SideThickness, TopThickness), SurfaceWidth, SurfaceHeight, 4) == InsetMesh()
  {
    WriteTwoSquares(v, OuterFirst, OuterSecond, SurfaceWidth, SurfaceHeight);
    WriteTwoSquares(v2, Inset(OuterFirst, SideThickness, TopThickness),
                    Inset(OuterSecond, SideThickness, TopThickness), SurfaceWidth, SurfaceHeight);
  }

  /**
   The NDC transform keeps strict containment: the NDC corners of an inner
   rectangle lie strictly inside those of an outer one (x increasing, y flipped).
   */
  lemma NdcKeepsInside(inner: Rect, outer: Rect, width: real, height: real)
    requires width > 0.0 && height > 0.0
    requires StrictlyInside(inner, outer)
    ensures NdcX(outer.x0, width) < NdcX(inner.x0, width)
    ensures NdcX(inner.x1, width) < NdcX(outer.x1, width)
    ensures NdcY(inner.y0, height) < NdcY(outer.y0, height)
    ensures NdcY(outer.y1, height) < NdcY(inner.y1, height)
  {
    NdcXStrictlyIncreasing(outer.x0, inner.x0, width);
    NdcXStrictlyIncreasing(inner.x1, outer.x1, width);
    NdcYStrictlyDecreasing(outer.y0, inner.y0, height);
    NdcYStrictlyDecreasing(inner.y1, outer.y1, height);
  }

  /**
   Each inset-mesh vertex lies strictly inside the NDC box spanned by the
   corresponding outer quad (its first and last vertex).
   */
  lemma InsetMeshInsideOuterMesh()
    ensures |OuterMesh()| == 8 && |InsetMesh()| == 8
    ensures forall k :: 0 <= k < 8 ==>
      var q := k / 4 * 4;
      && OuterMesh()[q].x < InsetMesh()[k].x < OuterMesh()[q + 3].x
      && OuterMesh()[q + 3].y < InsetMesh()[k].y < OuterMesh()[q].y
  {
    SceneInsets();
    var i1 := Inset(OuterFirst, SideThickness, TopThickness);
    var i2 := Inset(OuterSecond, SideThickness, TopThickness);
    NdcKeepsInside(i1, OuterFirst, SurfaceWidth, SurfaceHeight);
    NdcKeepsInside(i2, OuterSecond, SurfaceWidth, SurfaceHeight);
    NdcXStrictlyIncreasing(i1.x0, i1.x1, SurfaceWidth);
    NdcXStrictlyIncreasing(i2.x0, i2.x1, SurfaceWidth);
    NdcYStrictlyDecreasing(i1.y0, i1.y1, SurfaceHeight);
    NdcYStrictlyDecreasing(i2.y0, i2.y1, SurfaceHeight);
  }

  /** Every vertex of both meshes lands inside the clip range [-1, 1] x [-1, 1]. */
  lemma SceneInClipRange()
    ensures forall k :: 0 <= k < |OuterMesh()| ==>
      -1.0 <= OuterMesh()[k].x <= 1.0 && -1.0 <= OuterMesh()[k].y <= 1.0
    ensures forall k :: 0 <= k < |InsetMesh()| ==>
      -1.0 <= InsetMesh()[k].x <= 1.0 && -1.0 <= InsetMesh()[k].y <= 1.0
  {
    var xs := [20.0, 50.0, 250.0, 280.0, 25.0, 55.0, 245.0, 275.0];
    var ys := [20.0, 50.0, 500.0, 530.0, 25.0, 55.0, 495.0, 525.0];
    forall i | 0 <= i < 8
      ensures -1.0 <= NdcX(xs[i], SurfaceWidth) <= 1.0
      ensures -1.0 <= NdcY(ys[i], SurfaceHeight) <= 1.0
    {
      NdcXRange(xs[i], SurfaceWidth);
      NdcYRange(ys[i], SurfaceHeight);
    }
  }

  /**
   In both meshes the four quad triangles are front-facing and the two
   triangles bridging the quads are back-facing, because each second
   rectangle starts above the first one's bottom (50 < 500, 55 < 495).
   */
  lemma SceneFacing()
    ensures var ts := StripTriangles(OuterMesh());
      |ts| == 6 && (forall i :: 0 <= i < 6 ==> (FacingOf(ts[i]) == FrontFacing <==> i !in {2, 3}))
      && FacingOf(ts[2]) == BackFacing && FacingOf(ts[3]) == BackFacing
    ensures var ts := StripTriangles(InsetMesh());
      |ts| == 6 && (forall i :: 0 <= i < 6 ==> (FacingOf(ts[i]) == FrontFacing <==> i !in {2, 3}))
      && FacingOf(ts[2]) == BackFacing && FacingOf(ts[3]) == BackFacing
  {
    SceneInsets();
    TwoSquaresFacing(OuterFirst, OuterSecond, SurfaceWidth, SurfaceHeight);
    TwoSquaresFacing(Inset(OuterFirst, SideThickness, TopThickness), Inset(OuterSecond, SideThickness, TopThickness),
                     SurfaceWidth, SurfaceHeight);
  }
}
