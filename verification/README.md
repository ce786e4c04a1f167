# ninEngine outline renderer — a Dafny model

ninEngine is a small Direct3D 11 harness. It draws the borders of two
overlapping rectangles, except that a stretch of either border lying inside
the other rectangle's inset stays black. Each frame it uses a two-pass
stencil technique:

- a **mask pass** with the pixel shader unbound draws the *inset* mesh
  (`vertexBuffer2`) under the "default" depth/stencil state, which counts
  coverage into the 8-bit stencil plane with `INCR_SAT`;
- a **visible pass** draws the *outer* mesh (`vertexBuffer`) under the
  "discard" state, which passes only where the stencil equals the reference 0.

The pixels that get colour are therefore the outer footprint (both rectangles)
minus the inset footprint (both insets): a ring.

This project models that core:

- `geometry.dfy` (`Geometry`): the pixel-to-NDC transform with half-pixel
  centring, `GetSquareVertices` as a method on an `array<Vertex>` with a
  `modifies` frame, and `WriteSquare`, its pure counterpart on sequences.
- `strip.dfy` (`Strip`): how a triangle-strip draw is split into triangles,
  and the winding that picks each triangle's stencil face.
- `scene.dfy` (`Scene`): the rectangles and the thickness-5 inset built by
  `InitializeScene`, and the two eight-vertex meshes.
- `depthstencil.dfy` (`DepthStencil`): the Direct3D 11 depth/stencil stage for
  one fragment (comparison functions, stencil operations, read/write masks)
  and the two state descriptions built in `InitializeDirectX`.
- `renderer.dfy` (`Renderer`): the device as an explicit value, the
  device-context commands `RenderFrame` issues, and the per-pass and
  whole-frame theorems.
- `frame.dfy` (`Frame`): the whole-frame theorem for the actual scene.
- `init.dfy` (`Init`): the short-circuit start-up chain of `Initialize`.
- `stringconverter.dfy` (`StringConverter`): `StringToWide`.

What the code does, where its comments or names suggest otherwise:

- The comments call the first draw "green tri" and the second "red square",
  but line 39 of Graphics.cpp binds `vertexBuffer2`, the inset mesh, for the
  mask pass, and line 46 binds `vertexBuffer`, the outer mesh, for the visible
  pass. Every vertex gets colour (0, 1, 0) (lines 61-64).
- `Draw(8, 0)` with a triangle-strip topology assembles six triangles from the
  eight vertices. Triangles 2 and 3 bridge the two quads. For both meshes of
  the scene they are back-facing: the zeroed rasterizer description leaves
  clockwise as the front face. The back face's `NEVER` stencil function
  therefore drops them in both passes. `Strip.BridgeFacing` shows this depends
  on the layout: the bridges are back-facing exactly when the second
  rectangle's top lies above the first one's bottom.
- NDC x lies in [-1, 1] exactly for pixel x in [0.5, width + 0.5], and NDC y
  likewise for pixel y in [0.5, height + 0.5]; pixel 0 maps below -1 in x and
  above 1 in y.
- Under the Windows toolchain `char` is signed and `wchar_t` is unsigned
  16-bit. So `StringToWide` maps the bytes 0x80..0xFF to U+FF80..U+FFFF, not
  to U+0080..U+00FF.

Parameters and assumptions standing in for what cannot be seen:

- **Rasterisation.** `Renderer.Rasterizer` gives, for each triangle, the
  pixels it covers and the fragment (depth, colour) it produces there.
- **Shaders.** The vertex shader is not part of this model. It is taken to
  pass each uploaded position through unchanged, with w = 1, so a triangle's
  facing (`Strip.FacingOf`, used by `Renderer.ShadeTriangle`) is decided by the
  winding of the uploaded NDC positions. `Scene.SceneFacing`,
  `Frame.BridgesDoNotCount` and `Frame.SceneFrameIsRing` rest on this. The
  pixel shader is not part of this model either. `Renderer.Interpolates`
  assumes that it outputs the interpolated vertex colour: a triangle whose
  three vertices share a colour is shaded in that colour.
  `Frame.SceneFrameIsRing` uses it, and `Renderer.RenderFrameDrawsRing` takes
  it as its precondition that the outer mesh shades in one colour.
  `Renderer.RenderFrame` holds without it.
- **Start-up outcomes.** The outcome of each resource creation or shader load
  is a parameter, `created: Step -> bool`. The adapter check is decided by the
  adapter count.
- **Device state.** The device's state before a frame is arbitrary.

## Model

| member | source | states |
|---|---|---|
| Geometry.GetSquareVertices | Graphics/Graphics.cpp:54-67 | writes the four vertices into `v[startIndex..startIndex+4]`, leaves every other element as it was, and returns the same array |
| Geometry.WriteSquare | Graphics/Graphics.cpp:61-66 | the written vertex array keeps its length and every element outside slots start..start+3, and those four slots hold the rectangle's quad |
| Geometry.NdcXRoundTrip | Graphics/Graphics.cpp:56-58 | the x transform is invertible: mapping pixel x to NDC and back gives the pixel coordinate, and the other way round too |
| Geometry.NdcYRoundTrip | Graphics/Graphics.cpp:57-59 | the y transform is invertible in both directions |
| Geometry.NdcDifferences | Graphics/Graphics.cpp:56-59 | the transform is affine: NDC differences are pixel differences times 2/width for x and -2/height for y |
| Geometry.NdcXStrictlyIncreasing | Graphics/Graphics.cpp:56-58 | for a positive width, p < q if and only if NDC x of p < NDC x of q |
| Geometry.NdcYStrictlyDecreasing | Graphics/Graphics.cpp:57-59 | for a positive height, p < q if and only if NDC y of q < NDC y of p (y is flipped) |
| Geometry.NdcXRange | Graphics/Graphics.cpp:56 | pixel x 0.5 maps to -1 and width + 0.5 maps to 1; NDC x lies in [-1, 1] exactly when pixel x lies in [0.5, width + 0.5] |
| Geometry.NdcYRange | Graphics/Graphics.cpp:57 | pixel y 0.5 maps to 1 and height + 0.5 maps to -1; NDC y lies in [-1, 1] exactly when pixel y lies in [0.5, height + 0.5] |
| Geometry.PixelEdgeOutsideClipRange | Graphics/Graphics.cpp:56-57 | pixel coordinate 0 maps outside [-1, 1]: below -1 in x and above 1 in y |
| Geometry.SquareCorners | Graphics/Graphics.cpp:61-64 | mapped back to pixel space, the four vertices are (x0,y0), (x1,y0), (x0,y1), (x1,y1) in that order; all have z = 0 and colour (0,1,0) whatever the caller |
| Geometry.WriteSquareIdempotent | Graphics/Graphics.cpp:54-66 | writing the same rectangle twice at the same offset gives the same array as writing it once |
| Geometry.WriteTwoSquares | Graphics/Graphics.cpp:298-299 | writing one rectangle at slot 0 and another at slot 4 overwrites all eight vertices, whatever the array held |
| Strip.AreaUnderNdc | Graphics/Graphics.cpp:56-59 | the NDC transform scales a triangle's signed area by -4/(width*height), reversing its orientation |
| Strip.FacingOfPixelTriangle | Graphics/Graphics.cpp:237-241 | with the zeroed rasterizer description, a triangle is front-facing exactly when it is clockwise on screen, and back-facing exactly when it is counter-clockwise |
| Strip.StripTriangles | Graphics/Graphics.cpp:24 | a triangle-strip draw of n >= 3 vertices assembles n - 2 triangles, and fewer vertices assemble none |
| Strip.QuadFrontFacing | Graphics/Graphics.cpp:61-64 | both triangles of a quad whose first corner is above-left of its second are front-facing |
| Strip.StripOfTwoSquares | Graphics/Graphics.cpp:40 | the eight-vertex strip is the first quad's two triangles, two bridging triangles, and the second quad's two triangles |
| Strip.BridgeFacing | Graphics/Graphics.cpp:61-64 | the bridging triangles are back-facing exactly when the second rectangle's top lies above the first one's bottom, and front-facing exactly when it lies below |
| Strip.TwoSquaresFacing | Graphics/Graphics.cpp:296-299 | in an eight-vertex draw of two well-formed quads, triangles 0, 1, 4 and 5 are front-facing; triangles 2 and 3 are back-facing if and only if the second quad starts above the first one's bottom |
| Scene.Inset | Graphics/Graphics.cpp:321-327 | growing the inset back by the same thicknesses gives the original rectangle; positive thicknesses put it strictly inside; width and height each shrink by twice the thickness |
| Scene.InsetContained | Graphics/Graphics.cpp:321-327 | shrinking by positive thicknesses puts every edge strictly inside the original; the inset is non-degenerate exactly when the original is wider than twice the side thickness and taller than twice the top thickness; growing it back restores the original |
| Scene.SceneInsets | Graphics/Graphics.cpp:298-327 | the insets are (25,25)-(245,495) and (55,55)-(275,525); each is non-degenerate and strictly inside its outer rectangle |
| Scene.SceneArraysAreMeshes | Graphics/Graphics.cpp:296-327 | the arrays `v` and `v2` filled by two builder calls each are exactly the outer and inset meshes, whatever they held before |
| Scene.NdcKeepsInside | Graphics/Graphics.cpp:56-59 | the NDC corners of a rectangle strictly inside another lie strictly inside the other's NDC corners |
| Scene.InsetMeshInsideOuterMesh | Graphics/Graphics.cpp:298-327 | every inset-mesh vertex lies strictly inside the NDC box of the matching outer quad |
| Scene.SceneInClipRange | Graphics/Graphics.cpp:298-327 | every vertex of both meshes lies in [-1, 1] x [-1, 1] |
| Scene.SceneFacing | Graphics/Graphics.cpp:298-327 | in both scene meshes, only the four quad triangles are front-facing; the two bridge triangles are back-facing |
| DepthStencil.FullMasks | Graphics/Graphics.cpp:180-181 | the default 0xFF read and write masks read and write stencil values unchanged |
| DepthStencil.MaskedBits | Graphics/Graphics.cpp:180 | a read mask keeps each of the eight bits the mask has set and clears the others |
| DepthStencil.MaskedWriteBits | Graphics/Graphics.cpp:181 | a masked write takes the new value's bits where the write mask is set and keeps the stored value's bits where it is clear |
| DepthStencil.StencilStageKeepsUnmaskedBits | Graphics/Graphics.cpp:171-212 | whatever the face, reference and depths, the stage never changes a stored stencil bit that the write mask leaves clear |
| DepthStencil.DiscardDiffersFromDefault | Graphics/Graphics.cpp:208-212 | the discard state is the default state with only the front-face function changed to EQUAL and the front-face pass op changed to KEEP; depth is disabled in both |
| DepthStencil.DefaultFrontCounts | Graphics/Graphics.cpp:183-192 | under the default state a front-facing fragment always passes and raises the stored value by one, saturating at 255, whatever the reference and depths |
| DepthStencil.BackFaceNeverPasses | Graphics/Graphics.cpp:195-198 | under either state a back-facing fragment never passes and never changes the stored value |
| DepthStencil.DiscardFrontTestsEquality | Graphics/Graphics.cpp:209-212 | under the discard state a front-facing fragment passes exactly when the stored value equals the reference, and the stored value never changes |
| DepthStencil.IncrSatNeverWraps | Graphics/Graphics.cpp:191 | INCR_SAT never lowers a value and never produces 0, whereas INCR wraps 255 to 0 |
| DepthStencil.StencilStage | Graphics/Graphics.cpp:171-212 | a fragment survives exactly when it passes the stencil test of its face (reference and stored value under the read mask, or stencil disabled) and the depth test (or depth disabled); with stencil disabled the stored value never changes |
| Renderer.FrontCountPositive | Graphics/Graphics.cpp:37-40 | a pixel's front-facing coverage count is positive exactly when some front-facing triangle of the draw covers it |
| Renderer.MaskPassCounts | Graphics/Graphics.cpp:37-40 | with the default state and no pixel shader, a draw adds each pixel's front-facing coverage count to its stencil value, saturating at 255, and changes no colour or depth |
| Renderer.VisiblePassColours | Graphics/Graphics.cpp:44-47 | with the discard state and a pixel shader, a draw leaves stencil and depth alone, and colours a pixel exactly when a front-facing triangle covers it and its stencil equals the reference |
| Renderer.FrameClearResets | Graphics/Graphics.cpp:19-34 | after the clears every pixel is black, at depth 1 and stencil 0; the stencil-only clear leaves depth alone |
| Renderer.MaskPassEffect | Graphics/Graphics.cpp:37-40 | the mask pass draws the inset mesh and adds its coverage count to the stencil, saturating, on every pixel of the target, leaving colour and depth as they were |
| Renderer.VisiblePassEffect | Graphics/Graphics.cpp:44-47 | the visible pass draws the outer mesh and colours exactly the pixels with stencil 0 that it covers, leaving stencil and depth as they were |
| Renderer.RenderFrameDrawsRing | Graphics/Graphics.cpp:17-51 | from any device state, a frame colours exactly the pixels the outer mesh covers and the inset mesh does not, and leaves the rest black; stencil = min(inset coverage, 255), so it is 0 exactly outside the inset footprint |
| Renderer.VisiblePassKeeps | Graphics/Graphics.cpp:44-47 | whatever the pixel shader outputs, the visible pass leaves stencil and depth alone and keeps a pixel's colour unless its stencil equals the reference and a front-facing triangle covers it |
| Renderer.RenderFrameOutsideRingBlack | Graphics/Graphics.cpp:17-51 | whatever the pixel shader outputs, running the frame's commands from any device state gives `FrameOutcome`: same pixels, every one at depth 1 with stencil min(inset coverage, 255), and black wherever the outer mesh does not cover it or the inset mesh does |
| Renderer.RenderFrame | Graphics/Graphics.cpp:17-51 | the frame as a device transformation has `FrameOutcome`, with no assumption about the pixel shader |
| Frame.BridgesDoNotCount | Graphics/Graphics.cpp:39-40 | for the two-quad layout, a draw's coverage count at every pixel equals the count of the quads' own triangles alone |
| Frame.OuterMeshShadesGreen | Graphics/Graphics.cpp:61-64 | every triangle of the outer mesh is shaded (0,1,0) wherever it covers |
| Frame.SceneFrameIsRing | Graphics/Graphics.cpp:32-48 | for the actual scene, a pixel is green exactly when an outer quad covers it and no inset quad does, and black otherwise; its stencil is 0 exactly when no inset quad covers it |
| Init.RunSteps | Graphics/Graphics.cpp:3-15 | `FirstFailure`: a chain completes exactly when every step succeeds and then has run them all; otherwise it stops at the first failing step, having run exactly the steps up to it |
| Init.RunStepsAppend | Graphics/Graphics.cpp:3-15 | running two step lists one after the other gives the same outcome as running their concatenation |
| Init.Initialize | Graphics/Graphics.cpp:3-15 | the nested DirectX, shader and scene stages behave as one flat chain of nine steps in start-up order, stopping at the first failure |
| Init.InitializeDirectX | Graphics/Graphics.cpp:69-250 | the adapter check runs first, so with no adapter nothing else runs; the stage completes exactly when all five of its steps succeed |
| Init.InitializeSucceedsIffAllSteps | Graphics/Graphics.cpp:3-15 | Initialize returns true exactly when an adapter exists and every creation and load step succeeds |
| Init.NoAdapterFailsFirst | Graphics/Graphics.cpp:73-77 | with an empty adapter list, both InitializeDirectX and Initialize fail at the adapter check, having run nothing else |
| Init.ShaderStageStops | Graphics/Graphics.cpp:283-287 | when the pixel shader fails to load, the shader stage stops at one of its own steps |
| Init.PixelShaderFailureRan | Graphics/Graphics.cpp:8-9 | when the pixel shader fails to load, Initialize stops, having run only DirectX and shader steps |
| Init.PixelShaderFailureStops | Graphics/Graphics.cpp:8-12 | when the pixel shader fails to load, Initialize returns false and neither vertex buffer is created |
| StringConverter.Widen | StringConverter.cpp:6 | the char-to-wchar_t conversion keeps values 0..127 and maps a negative char c to c + 65536 |
| StringConverter.WidenRoundTrip | StringConverter.cpp:6 | taking the low byte back undoes widening, so distinct chars widen to distinct wide chars |
| StringConverter.StringToWide | StringConverter.cpp:4-8 | the result has the input's length; position i holds the widened char i, so the empty string maps to the empty string and chars 0..127 keep their value; narrowing gives the input back |

## Left out

- The creation of device, swap chain, back buffer, render-target view, depth/stencil texture and view (Graphics/Graphics.cpp:79-166) and the viewport (lines 222-234): one abstract step, `CreateDeviceResources`, stands for them. The adapter check, the two depth/stencil states and the rasterizer state are separate steps. The rasterizer state's zeroed `FrontCounterClockwise` (lines 237-241) is what `Strip.FacingOf` models. `HRESULT` values and `ErrorLogger` are foreign calls.
- Shader path selection and loading (`InitializeShaders` lines 253-281, `IsDebuggerPresent`, `#ifdef`) and the `VertexShader`/`PixelShader` classes: they are not part of this model. Loading is two abstract steps, and the pixel shader is a bound/unbound flag.
- The vertex and pixel shader programs: they are not part of this model. Positions are taken to pass through the vertex shader unchanged (w = 1), and `Renderer.Interpolates` assumes the pixel shader outputs the interpolated vertex colour.
- The input-layout, topology, rasterizer-state and vertex-shader bindings (Graphics.cpp lines 23-26) and the stride/offset arguments: the model treats the strip topology and the `Vertex` layout as fixed.
- `Present` (Graphics.cpp line 51), GPU asynchrony and triangle rasterisation: coverage and interpolation are the `Rasterizer` parameter.
- Float rounding: coordinates are reals, and 32-bit float rounding is not modelled.
- The alpha channel of the clear colour and of the pixel shader's output: colours are RGB only.
- A surface of zero width or height, which gives infinities in float. The transform requires non-zero sizes.
- `unsigned int` wrap-around of `startIndex + k`: the array bound already rules it out.
- `StringConverter::WideToString`: it depends on `WideCharToMultiByte` and the ANSI code page. `NarrowString` is a reference inverse for `StringToWide`, not a model of it.
- `Engine.cpp`, `main.cpp`, `RenderWindow.h`: the Win32 message pump, window plumbing, and input buffers drained and discarded in `Engine::Update`. `Graphics.h` only declares members.
