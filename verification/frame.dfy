/**
 The frame RenderFrame draws for the scene InitializeScene uploads: the mask
 pass draws the inset mesh (vertexBuffer2) and the visible pass the outer mesh
 (vertexBuffer), so the pixels coloured are the outer quads' footprint minus
 the inset quads' footprint, a ring. The two bridge triangles of each strip are
 back-facing and take no part.
 */
module Frame {
  import opened Geometry
  import opened Strip
  import opened DepthStencil
  import opened Renderer
  import opened Scene

  /** The triangles of the two quads alone, without the bridges. */
  function QuadTriangles(a: Rect, b: Rect): seq<Triangle>
  {
    StripTriangles(SquareVertices(a, SurfaceWidth, SurfaceHeight))
      + StripTriangles(SquareVertices(b, SurfaceWidth, SurfaceHeight))
  }

  function OuterQuads(): seq<Triangle>
  {
    QuadTriangles(OuterFirst, OuterSecond)
  }

  function InsetQuads(): seq<Triangle>
  {
    QuadTriangles(Inset(OuterFirst, SideThickness, TopThickness), Inset(OuterSecond, SideThickness, TopThickness))
  }

  /** FrontCount over a list split in two is the sum of the two counts. */
  lemma {:induction false} FrontCountAppend(rast: Rasterizer, s: seq<Triangle>, t: seq<Triangle>, p: Pixel)
    ensures FrontCount(rast, s + t, p) == FrontCount(rast, s, p) + FrontCount(rast, t, p)
    decreases |s|
  {
    if |s| == 0 {
      assert s + t == t;
    } else {
      assert (s + t)[1..] == s[1..] + t;
      FrontCountAppend(rast, s[1..], t, p);
    }
  }

  /** A list of triangles none of which is front-facing counts nothing. */
  lemma {:induction false} FrontCountNoFront(rast: Rasterizer, s: seq<Triangle>, p: Pixel)
    requires forall i :: 0 <= i < |s| ==> FacingOf(s[i]) != FrontFacing
    ensures FrontCount(rast, s, p) == 0
    decreases |s|
  {
    if |s| > 0 {
      FrontCountNoFront(rast, s[1..], p);
    }
  }

  /**
   A draw of the eight-vertex two-quad strip counts, at every pixel, exactly
   the quads' own front-facing triangles when the bridges are back-facing.
   */
  lemma BridgesDoNotCount(rast: Rasterizer, a: Rect, b: Rect, p: Pixel)
    requires NonDegenerate(a) && NonDegenerate(b) && b.y0 < a.y1
    ensures FrontCount(rast, StripTriangles(Fetch(TwoSquares(a, b, SurfaceWidth, SurfaceHeight), 0, 8)), p)
         == FrontCount(rast, QuadTriangles(a, b), p)
  {
    var vs := TwoSquares(a, b, SurfaceWidth, SurfaceHeight);
    assert Fetch(vs, 0, 8) == vs;
    var ts := StripTriangles(vs);
    StripOfTwoSquares(a, b, SurfaceWidth, SurfaceHeight);
    TwoSquaresFacing(a, b, SurfaceWidth, SurfaceHeight);
    var qa := StripTriangles(SquareVertices(a, SurfaceWidth, SurfaceHeight));
    var qb := StripTriangles(SquareVertices(b, SurfaceWidth, SurfaceHeight));
    assert ts == qa + ts[2..4] + qb;
    FrontCountAppend(rast, qa + ts[2..4], qb, p);
    FrontCountAppend(rast, qa, ts[2..4], p);
    FrontCountNoFront(rast, ts[2..4], p);
    FrontCountAppend(rast, qa, qb, p);
  }

  /**
   Every triangle of the outer mesh is green at every vertex, so a
   rasteriser that interpolates colours shades every pixel it covers green.
   */
  lemma OuterMeshShadesGreen(rast: Rasterizer, p: Pixel)
    requires Interpolates(rast)
    ensures ShadesIn(rast, StripTriangles(Fetch(OuterMesh(), 0, 8)), p, Green)
  {
    var vs := OuterMesh();
    assert Fetch(vs, 0, 8) == vs;
    assert forall k :: 0 <= k < |vs| ==> vs[k].colour == Green;
    var ts := StripTriangles(vs);
    assert forall i :: 0 <= i < |ts| ==> ts[i].a.colour == Green && ts[i].b.colour == Green && ts[i].c.colour == Green;
  }

  /**
   The frame the scene renders, from any device state: a pixel is green
   exactly when some outer quad triangle covers it and no inset quad
   triangle does, and black otherwise; its stencil value is 0 exactly when no
   inset quad triangle covers it.
   */
  lemma SceneFrameIsRing(d: Device, rast: Rasterizer)
    requires Interpolates(rast)
    ensures var d' := Run(d, RenderFrameCommands(OuterMesh(), InsetMesh()), rast);
      && d'.target.Keys == d.target.Keys
      && (forall p :: p in d'.target ==>
            d'.target[p].colour == (if FrontCount(rast, OuterQuads(), p) > 0 && FrontCount(rast, InsetQuads(), p) == 0
                                    then Green else Black))
      && (forall p :: p in d'.target ==>
            d'.target[p].stencil == SaturatingAdd(0, FrontCount(rast, InsetQuads(), p)))
      && (forall p :: p in d'.target ==> (d'.target[p].stencil == 0 <==> FrontCount(rast, InsetQuads(), p) == 0))
  {
    forall p
      ensures ShadesIn(rast, StripTriangles(Fetch(OuterMesh(), 0, 8)), p, Green)
    {
      OuterMeshShadesGreen(rast, p);
    }
    RenderFrameDrawsRing(d, OuterMesh(), InsetMesh(), rast, Green);
    forall p
      ensures FrontCount(rast, StripTriangles(Fetch(OuterMesh(), 0, 8)), p) == FrontCount(rast, OuterQuads(), p)
      ensures FrontCount(rast, StripTriangles(Fetch(InsetMesh(), 0, 8)), p) == FrontCount(rast, InsetQuads(), p)
    {
      SceneCounts(rast, p);
    }
  }

  /** In both scene meshes only the quads' own triangles count at a pixel; the bridges drop out. */
  lemma SceneCounts(rast: Rasterizer, p: Pixel)
    ensures FrontCount(rast, StripTriangles(Fetch(OuterMesh(), 0, 8)), p) == FrontCount(rast, OuterQuads(), p)
    ensures FrontCount(rast, StripTriangles(Fetch(InsetMesh(), 0, 8)), p) == FrontCount(rast, InsetQuads(), p)
  {
    SceneInsets();
    BridgesDoNotCount(rast, OuterFirst, OuterSecond, p);
    BridgesDoNotCount(rast, Inset(OuterFirst, SideThickness, TopThickness),
                      Inset(OuterSecond, SideThickness, TopThickness), p);
  }
}
