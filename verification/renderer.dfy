/**
 The frame renderer as a state machine over an explicit device value. The
 render target holds, per pixel, a colour, a depth and an 8-bit stencil value.
 Commands mirror the device-context calls RenderFrame issues; rasterisation
 is abstract: a Rasterizer says which pixels a triangle covers and what
 fragment it produces at each.
 */
module Renderer {
  import opened Geometry
  import opened Strip
  import opened DepthStencil

  type Pixel = (int, int)

  /** What the render target and the depth/stencil buffer hold at one pixel. */
  datatype PixelState = PixelState(colour: Rgb, depth: real, stencil: Stencil8)

  /** The interpolated depth and pixel-shader colour of a triangle at one pixel. */
  datatype Fragment = Fragment(depth: real, colour: Rgb)

  /** Abstract rasterisation: coverage and attribute interpolation. */
  datatype Rasterizer = Rasterizer(covers: Triangle -> set<Pixel>, interpolate: (Triangle, Pixel) -> Fragment)

  /**
   The device context: the target, the bound depth/stencil state and reference,
   whether a pixel shader is bound, and the bound vertex buffer's contents.
   */
  datatype Device = Device(target: map<Pixel, PixelState>, depthStencil: DepthStencilDesc,
                           stencilRef: Stencil8, pixelShader: bool, vertices: seq<Vertex>)

  datatype Command =
    | ClearRenderTarget(colour: Rgb)
    | ClearDepthStencil(clearDepth: bool, clearStencil: bool, depth: real, stencil: Stencil8)
    | SetDepthStencilState(desc: DepthStencilDesc, ref: Stencil8)
    | SetPixelShader(bound: bool)
    | SetVertexBuffer(vertices: seq<Vertex>)
    | Draw(count: nat, start: nat)

  /** The background colour (the clear colour's alpha is not modelled). */
  const Black := Rgb(0.0, 0.0, 0.0)

  /** What a vertex fetch beyond the end of the bound buffer reads. */
  const ZeroVertex := Vertex(0.0, 0.0, 0.0, Black)

  /** Depth clear values are clamped to [0, 1]. */
  function Clamp01(z: real): real
  {
    if z < 0.0 then 0.0 else if z > 1.0 then 1.0 else z
  }

  /** The `count` vertices a draw starting at `start` fetches from the bound buffer. */
  function Fetch(vs: seq<Vertex>, start: nat, count: nat): seq<Vertex>
  {
    seq(count, i requires 0 <= i < count => if start + i < |vs| then vs[start + i] else ZeroVertex)
  }

  /** One fragment through the depth/stencil stage and, if it survives and a pixel shader is bound, into the target. */
  function ShadeFragment(desc: DepthStencilDesc, ref: Stencil8, shader: bool, face: Face,
                         frag: Fragment, px: PixelState): PixelState
  {
    var o := StencilStage(desc, face, ref, px.stencil, frag.depth, px.depth);
    PixelState(if o.passed && shader then frag.colour else px.colour,
               if o.passed && desc.depthEnable && desc.depthWriteAll then frag.depth else px.depth,
               o.stencil)
  }

  /** A triangle's effect on one pixel: nothing unless it has area and covers the pixel. */
  function ShadeTriangle(desc: DepthStencilDesc, ref: Stencil8, shader: bool, rast: Rasterizer,
                         t: Triangle, p: Pixel, px: PixelState): PixelState
  {
    match FacingOf(t)
    case Degenerate => px
    case FrontFacing => if p in rast.covers(t) then ShadeFragment(desc, ref, shader, Front, rast.interpolate(t, p), px) else px
    case BackFacing => if p in rast.covers(t) then ShadeFragment(desc, ref, shader, Back, rast.interpolate(t, p), px) else px
  }

  /** The triangles' effect on one pixel, in draw order. */
  function ShadeTriangles(desc: DepthStencilDesc, ref: Stencil8, shader: bool, rast: Rasterizer,
                          tris: seq<Triangle>, p: Pixel, px: PixelState): PixelState
    decreases |tris|
  {
    if |tris| == 0 then px
    else ShadeTriangles(desc, ref, shader, rast, tris[1..], p, ShadeTriangle(desc, ref, shader, rast, tris[0], p, px))
  }

  /** Whether triangle `t` is front-facing and covers `p`. */
  predicate FrontCovers(rast: Rasterizer, t: Triangle, p: Pixel)
  {
    FacingOf(t) == FrontFacing && p in rast.covers(t)
  }

  /** How many front-facing triangles cover `p`. */
  function FrontCount(rast: Rasterizer, tris: seq<Triangle>, p: Pixel): nat
    decreases |tris|
  {
    if |tris| == 0 then 0
    else (if FrontCovers(rast, tris[0], p) then 1 else 0) + FrontCount(rast, tris[1..], p)
  }

  /** The front-facing footprint of a draw: the pixels some front-facing triangle covers. */
  ghost predicate InFootprint(rast: Rasterizer, tris: seq<Triangle>, p: Pixel)
  {
    exists i :: 0 <= i < |tris| && FrontCovers(rast, tris[i], p)
  }

  /** Adding n to a stencil value, clamped at 255. */
  function SaturatingAdd(s: Stencil8, n: nat): Stencil8
  {
    if s + n < 255 then s + n else 255
  }

  /** Every front-facing triangle that covers `p` shades it in colour `c`. */
  predicate ShadesIn(rast: Rasterizer, tris: seq<Triangle>, p: Pixel, c: Rgb)
  {
    forall i :: 0 <= i < |tris| && FrontCovers(rast, tris[i], p) ==> rast.interpolate(tris[i], p).colour == c
  }

  /** Interpolating a triangle whose three vertices share one colour yields that colour everywhere. */
  ghost predicate Interpolates(rast: Rasterizer)
  {
    forall t: Triangle, p: Pixel :: t.a.colour == t.b.colour == t.c.colour ==> rast.interpolate(t, p).colour == t.a.colour
  }

  function Step(d: Device, cmd: Command, rast: Rasterizer): Device
  {
    match cmd
    case ClearRenderTarget(c) =>
      d.(target := map p | p in d.target :: d.target[p].(colour := c))
    case ClearDepthStencil(clearDepth, clearStencil, z, s) =>
      d.(target := map p | p in d.target ::
           d.target[p].(depth := if clearDepth then Clamp01(z) else d.target[p].depth,
                        stencil := if clearStencil then s else d.target[p].stencil))
    case SetDepthStencilState(desc, ref) =>
      d.(depthStencil := desc, stencilRef := ref)
    case SetPixelShader(bound) =>
      d.(pixelShader := bound)
    case SetVertexBuffer(vs) =>
      d.(vertices := vs)
    case Draw(count, start) =>
      var tris := StripTriangles(Fetch(d.vertices, start, count));
      d.(target := map p | p in d.target ::
           ShadeTriangles(d.depthStencil, d.stencilRef, d.pixelShader, rast, tris, p, d.target[p]))
  }

  function Run(d: Device, cmds: seq<Command>, rast: Rasterizer): Device
    decreases |cmds|
  {
    if |cmds| == 0 then d else Run(Step(d, cmds[0], rast), cmds[1..], rast)
  }

  /**
   The device-context calls of one frame that change modelled state, in order:
   full clear, pixel shader bound, stencil-only clear, the mask pass (default
   state, no pixel shader, vertexBuffer2 = the inset mesh) and the visible pass
   (discard state with reference 0, pixel shader, vertexBuffer = the outer mesh).
   */
  function RenderFrameCommands(outer: seq<Vertex>, inset: seq<Vertex>): seq<Command>
  {
    FrameClearCommands() + MaskPassCommands(inset) + VisiblePassCommands(outer)
  }

  /** RenderFrame's lines 20-27 and 34 in Graphics.cpp: full clear to black / depth 1 / stencil 0, pixel shader bound, stencil-only clear. */
  function FrameClearCommands(): seq<Command>
  {
    [ ClearRenderTarget(Black),
      ClearDepthStencil(true, true, 1.0, 0),
      SetPixelShader(true),
      ClearDepthStencil(false, true, 0.0, 0) ]
  }

  /** RenderFrame's lines 37-40 in Graphics.cpp: default state, pixel shader unbound, vertexBuffer2 (the inset mesh), eight vertices. */
  function MaskPassCommands(inset: seq<Vertex>): seq<Command>
  {
    [ SetDepthStencilState(DefaultState, 0),
      SetPixelShader(false),
      SetVertexBuffer(inset),
      Draw(8, 0) ]
  }

  /** RenderFrame's lines 44-47 in Graphics.cpp: discard state with reference 0, pixel shader bound, vertexBuffer (the outer mesh), eight vertices. */
  function VisiblePassCommands(outer: seq<Vertex>): seq<Command>
  {
    [ SetDepthStencilState(DiscardState, 0),
      SetPixelShader(true),
      SetVertexBuffer(outer),
      Draw(8, 0) ]
  }

  /** A pixel is counted at least once exactly when it lies in the front-facing footprint. */
  lemma {:induction false} FrontCountPositive(rast: Rasterizer, tris: seq<Triangle>, p: Pixel)
    ensures FrontCount(rast, tris, p) > 0 <==> InFootprint(rast, tris, p)
    decreases |tris|
  {
    if |tris| > 0 {
      FrontCountPositive(rast, tris[1..], p);
      if InFootprint(rast, tris[1..], p) {
        var i :| 0 <= i < |tris[1..]| && FrontCovers(rast, tris[1..][i], p);
        assert FrontCovers(rast, tris[i + 1], p);
      }
      if InFootprint(rast, tris, p) && !FrontCovers(rast, tris[0], p) {
        var i :| 0 <= i < |tris| && FrontCovers(rast, tris[i], p);
        assert FrontCovers(rast, tris[1..][i - 1], p);
      }
    }
  }

  /**
   The mask pass: under the default state with no pixel shader, drawing
   raises a pixel's stencil value by the number of front-facing triangles
   covering it, saturating at 255, and changes neither colour nor depth.
   */
  lemma {:induction false} MaskPassCounts(ref: Stencil8, rast: Rasterizer, tris: seq<Triangle>, p: Pixel, px: PixelState)
    ensures ShadeTriangles(DefaultState, ref, false, rast, tris, p, px)
         == px.(stencil := SaturatingAdd(px.stencil, FrontCount(rast, tris, p)))
    decreases |tris|
  {
    if |tris| > 0 {
      var t := tris[0];
      var px' := ShadeTriangle(DefaultState, ref, false, rast, t, p, px);
      if FrontCovers(rast, t, p) {
        DefaultFrontCounts(ref, px.stencil, rast.interpolate(t, p).depth, px.depth);
        assert px' == px.(stencil := SaturatingAdd(px.stencil, 1));
      } else if FacingOf(t) == BackFacing && p in rast.covers(t) {
        BackFaceNeverPasses(DefaultState, ref, px.stencil, rast.interpolate(t, p).depth, px.depth);
        assert px' == px;
      } else {
        assert px' == px;
      }
      MaskPassCounts(ref, rast, tris[1..], p, px');
    }
  }

  /**
   The visible pass: under the discard state with a pixel shader bound,
   drawing leaves stencil and depth alone, and colours a pixel (in the
   triangles' colour) exactly when a front-facing triangle covers it and its
   stencil value equals the reference.
   */
  lemma {:induction false} VisiblePassColours(ref: Stencil8, rast: Rasterizer, tris: seq<Triangle>, p: Pixel,
                                              px: PixelState, c: Rgb)
    requires ShadesIn(rast, tris, p, c)
    ensures ShadeTriangles(DiscardState, ref, true, rast, tris, p, px)
         == px.(colour := if px.stencil == ref && FrontCount(rast, tris, p) > 0 then c else px.colour)
    decreases |tris|
  {
    if |tris| > 0 {
      var t := tris[0];
      var px' := ShadeTriangle(DiscardState, ref, true, rast, t, p, px);
      if FrontCovers(rast, t, p) {
        DiscardFrontTestsEquality(ref, px.stencil, rast.interpolate(t, p).depth, px.depth);
        assert rast.interpolate(tris[0], p).colour == c;
        assert px' == px.(colour := if px.stencil == ref then c else px.colour);
      } else if FacingOf(t) == BackFacing && p in rast.covers(t) {
        BackFaceNeverPasses(DiscardState, ref, px.stencil, rast.interpolate(t, p).depth, px.depth);
        assert px' == px;
      } else {
        assert px' == px;
      }
      assert ShadesIn(rast, tris[1..], p, c) by {
        forall i | 0 <= i < |tris[1..]| && FrontCovers(rast, tris[1..][i], p)
          ensures rast.interpolate(tris[1..][i], p).colour == c
        {
          assert tris[1..][i] == tris[i + 1];
        }
      }
      VisiblePassColours(ref, rast, tris[1..], p, px', c);
    }
  }

  /** Running two command lists one after the other is running their concatenation. */
  lemma {:induction false} RunAppend(d: Device, a: seq<Command>, b: seq<Command>, rast: Rasterizer)
    ensures Run(d, a + b, rast) == Run(Run(d, a, rast), b, rast)
    decreases |a|
  {
    if |a| > 0 {
      assert (a + b)[1..] == a[1..] + b;
      RunAppend(Step(d, a[0], rast), a[1..], b, rast);
    } else {
      assert a + b == b;
    }
  }

  /** Running the commands from position k is one step followed by running them from k + 1. */
  lemma RunPrefix(d: Device, cs: seq<Command>, k: nat, rast: Rasterizer)
    requires k < |cs|
    ensures Run(d, cs[k..], rast) == Run(Step(d, cs[k], rast), cs[k + 1..], rast)
  {
    assert cs[k..][1..] == cs[k + 1..];
  }

  /** Running four commands is stepping through them in order. */
  lemma RunFour(d: Device, cs: seq<Command>, rast: Rasterizer)
    requires |cs| == 4
    ensures Run(d, cs, rast) == Step(Step(Step(Step(d, cs[0], rast), cs[1], rast), cs[2], rast), cs[3], rast)
  {
    var d1 := Step(d, cs[0], rast);
    var d2 := Step(d1, cs[1], rast);
    var d3 := Step(d2, cs[2], rast);
    RunPrefix(d, cs, 0, rast);
    RunPrefix(d1, cs, 1, rast);
    RunPrefix(d2, cs, 2, rast);
    RunPrefix(d3, cs, 3, rast);
    assert cs[0..] == cs;
  }

  /**
   The frame's clears leave every pixel black, at depth 1 and stencil 0 (the
   stencil-only clear leaves depth alone), with the pixel shader bound.
   */
  lemma FrameClearResets(d: Device, rast: Rasterizer)
    ensures var e := Run(d, FrameClearCommands(), rast);
      && e.target.Keys == d.target.Keys
      && (forall p :: p in e.target ==> e.target[p] == PixelState(Black, 1.0, 0))
      && e.pixelShader && e.depthStencil == d.depthStencil && e.vertices == d.vertices
  {
    var cs := FrameClearCommands();
    var e := Step(Step(Step(Step(d, cs[0], rast), cs[1], rast), cs[2], rast), cs[3], rast);
    RunFour(d, cs, rast);
  }

  /**
   The mask pass over the inset mesh adds each pixel's front-facing coverage
   count to its stencil value (saturating) and writes no colour or depth.
   */
  lemma MaskPassEffect(d: Device, inset: seq<Vertex>, rast: Rasterizer)
    ensures var e := Run(d, MaskPassCommands(inset), rast);
      var it := StripTriangles(Fetch(inset, 0, 8));
      && e.target.Keys == d.target.Keys
      && (forall p :: p in e.target ==>
            e.target[p] == d.target[p].(stencil := SaturatingAdd(d.target[p].stencil, FrontCount(rast, it, p))))
  {
    var cs := MaskPassCommands(inset);
    var it := StripTriangles(Fetch(inset, 0, 8));
    var e := Step(Step(Step(Step(d, cs[0], rast), cs[1], rast), cs[2], rast), cs[3], rast);
    RunFour(d, cs, rast);
    forall p | p in e.target
      ensures e.target[p] == d.target[p].(stencil := SaturatingAdd(d.target[p].stencil, FrontCount(rast, it, p)))
    {
      MaskPassCounts(0, rast, it, p, d.target[p]);
    }
  }

  /**
   The visible pass over the outer mesh colours exactly the pixels whose
   stencil value is 0 and which a front-facing outer triangle covers; stencil
   and depth stay as they were.
   */
  lemma VisiblePassEffect(d: Device, outer: seq<Vertex>, rast: Rasterizer, c: Rgb)
    requires forall p :: ShadesIn(rast, StripTriangles(Fetch(outer, 0, 8)), p, c)
    ensures var e := Run(d, VisiblePassCommands(outer), rast);
      var ot := StripTriangles(Fetch(outer, 0, 8));
      && e.target.Keys == d.target.Keys
      && (forall p :: p in e.target ==>
            e.target[p] == d.target[p].(colour := if d.target[p].stencil == 0 && FrontCount(rast, ot, p) > 0
                                                  then c else d.target[p].colour))
  {
    var cs := VisiblePassCommands(outer);
    var ot := StripTriangles(Fetch(outer, 0, 8));
    var e := Step(Step(Step(Step(d, cs[0], rast), cs[1], rast), cs[2], rast), cs[3], rast);
    RunFour(d, cs, rast);
    forall p | p in e.target
      ensures e.target[p] == d.target[p].(colour := if d.target[p].stencil == 0 && FrontCount(rast, ot, p) > 0
                                                    then c else d.target[p].colour)
    {
      VisiblePassColours(0, rast, ot, p, d.target[p], c);
    }
  }

  /**
   One whole frame, from any device state: every pixel ends up coloured or
   black by the ring rule (coloured exactly when the outer draw's
   front-facing triangles cover it and the inset draw's do not), with depth 1
   and stencil equal to the inset coverage count clamped at 255. So the
   stencil is 0 exactly outside the inset footprint: INCR_SAT never wraps a
   covered pixel back to 0.
   */
  lemma RenderFrameDrawsRing(d: Device, outer: seq<Vertex>, inset: seq<Vertex>, rast: Rasterizer, c: Rgb)
    requires forall p :: ShadesIn(rast, StripTriangles(Fetch(outer, 0, 8)), p, c)
    ensures var d' := Run(d, RenderFrameCommands(outer, inset), rast);
      var ot := StripTriangles(Fetch(outer, 0, 8));
      var it := StripTriangles(Fetch(inset, 0, 8));
      && d'.target.Keys == d.target.Keys
      && (forall p :: p in d'.target ==>
            d'.target[p] == PixelState(if FrontCount(rast, ot, p) > 0 && FrontCount(rast, it, p) == 0 then c else Black,
                                       1.0, SaturatingAdd(0, FrontCount(rast, it, p))))
      && (forall p :: p in d'.target ==> (d'.target[p].stencil == 0 <==> !InFootprint(rast, it, p)))
  {
    var ot := StripTriangles(Fetch(outer, 0, 8));
    var it := StripTriangles(Fetch(inset, 0, 8));
    var d1 := Run(d, FrameClearCommands(), rast);
    var d2 := Run(d1, MaskPassCommands(inset), rast);
    var d3 := Run(d2, VisiblePassCommands(outer), rast);
    RunAppend(d, FrameClearCommands(), MaskPassCommands(inset), rast);
    RunAppend(d, FrameClearCommands() + MaskPassCommands(inset), VisiblePassCommands(outer), rast);
    FrameClearResets(d, rast);
    MaskPassEffect(d1, inset, rast);
    VisiblePassEffect(d2, outer, rast, c);
    forall p | p in d3.target
      ensures d3.target[p] == PixelState(if FrontCount(rast, ot, p) > 0 && FrontCount(rast, it, p) == 0 then c else Black,
                                         1.0, SaturatingAdd(0, FrontCount(rast, it, p)))
      ensures d3.target[p].stencil == 0 <==> !InFootprint(rast, it, p)
    {
      FrontCountPositive(rast, it, p);
    }
  }

  /**
   The visible pass with no assumption about what the pixel shader outputs:
   stencil and depth never change, and a pixel keeps its colour unless its
   stencil value equals the reference and a front-facing triangle covers it.
   */
  lemma {:induction false} VisiblePassKeeps(ref: Stencil8, rast: Rasterizer, tris: seq<Triangle>, p: Pixel, px: PixelState)
    ensures var q := ShadeTriangles(DiscardState, ref, true, rast, tris, p, px);
      && q.depth == px.depth && q.stencil == px.stencil
      && (px.stencil != ref || FrontCount(rast, tris, p) == 0 ==> q.colour == px.colour)
    decreases |tris|
  {
    if |tris| > 0 {
      var t := tris[0];
      var px' := ShadeTriangle(DiscardState, ref, true, rast, t, p, px);
      if FrontCovers(rast, t, p) {
        DiscardFrontTestsEquality(ref, px.stencil, rast.interpolate(t, p).depth, px.depth);
        assert px'.depth == px.depth && px'.stencil == px.stencil;
        assert px.stencil != ref ==> px'.colour == px.colour;
      } else if FacingOf(t) == BackFacing && p in rast.covers(t) {
        BackFaceNeverPasses(DiscardState, ref, px.stencil, rast.interpolate(t, p).depth, px.depth);
        assert px' == px;
      } else {
        assert px' == px;
      }
      VisiblePassKeeps(ref, rast, tris[1..], p, px');
    }
  }

  /**
   What a frame leaves in the target, whatever the pixel shader outputs: the
   same pixels, every one at depth 1 with stencil equal to the inset coverage
   count clamped at 255, and every pixel outside the ring (not covered by the
   outer draw, or covered by the inset draw) black.
   */
  predicate FrameOutcome(d: Device, d': Device, outer: seq<Vertex>, inset: seq<Vertex>, rast: Rasterizer)
  {
    var ot := StripTriangles(Fetch(outer, 0, 8));
    var it := StripTriangles(Fetch(inset, 0, 8));
    && d'.target.Keys == d.target.Keys
    && (forall p :: p in d'.target ==>
          d'.target[p].depth == 1.0 && d'.target[p].stencil == SaturatingAdd(0, FrontCount(rast, it, p)))
    && (forall p :: p in d'.target && (FrontCount(rast, ot, p) == 0 || FrontCount(rast, it, p) > 0) ==>
          d'.target[p].colour == Black)
  }

  /** The frame's commands, run from any device state, have the frame's outcome. */
  lemma RenderFrameOutsideRingBlack(d: Device, outer: seq<Vertex>, inset: seq<Vertex>, rast: Rasterizer)
    ensures FrameOutcome(d, Run(d, RenderFrameCommands(outer, inset), rast), outer, inset, rast)
  {
    var ot := StripTriangles(Fetch(outer, 0, 8));
    var it := StripTriangles(Fetch(inset, 0, 8));
    var d1 := Run(d, FrameClearCommands(), rast);
    var d2 := Run(d1, MaskPassCommands(inset), rast);
    var d3 := Run(d2, VisiblePassCommands(outer), rast);
    RunAppend(d, FrameClearCommands(), MaskPassCommands(inset), rast);
    RunAppend(d, FrameClearCommands() + MaskPassCommands(inset), VisiblePassCommands(outer), rast);
    FrameClearResets(d, rast);
    MaskPassEffect(d1, inset, rast);
    var cs := VisiblePassCommands(outer);
    RunFour(d2, cs, rast);
    forall p | p in d3.target
      ensures d3.target[p].depth == 1.0 && d3.target[p].stencil == SaturatingAdd(0, FrontCount(rast, it, p))
      ensures FrontCount(rast, ot, p) == 0 || FrontCount(rast, it, p) > 0 ==> d3.target[p].colour == Black
    {
      VisiblePassKeeps(0, rast, ot, p, d2.target[p]);
    }
  }

  /**
   RenderFrame on the modelled device: the frame's device-context calls run
   in order, with the frame's outcome whatever the pixel shader outputs.
   */
  function RenderFrame(d: Device, outer: seq<Vertex>, inset: seq<Vertex>, rast: Rasterizer): (d': Device)
    ensures FrameOutcome(d, d', outer, inset, rast)
  {
    RenderFrameOutsideRingBlack(d, outer, inset, rast);
    Run(d, RenderFrameCommands(outer, inset), rast)
  }
}
