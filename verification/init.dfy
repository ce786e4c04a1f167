/**
 Start-up as a short-circuit chain: Initialize runs the DirectX, shader and
 scene stages in order, each itself a chain of steps, and stops at the first
 step that fails. The outcome of each resource creation is abstract (a
 parameter); the adapter check is decided by the number of adapters found.
 */
module Init {

  /** The steps whose failure aborts start-up. */
  datatype Step =
    | FindAdapter                // adapters.size() >= 1
    | CreateDeviceResources      // device, swap chain, render-target and depth/stencil views
    | CreateDefaultStencilState
    | CreateDiscardStencilState
    | CreateRasterizerState
    | LoadVertexShader
    | LoadPixelShader
    | CreateVertexBuffer         // the outer mesh
    | CreateVertexBuffer2        // the inset mesh

  /** The steps that ran, and the one that failed if the chain stopped. */
  datatype Outcome = Completed(ran: seq<Step>) | Stopped(ran: seq<Step>, failed: Step)

  const DirectXSteps := [FindAdapter, CreateDeviceResources, CreateDefaultStencilState,
                         CreateDiscardStencilState, CreateRasterizerState]
  const ShaderSteps := [LoadVertexShader, LoadPixelShader]
  const SceneSteps := [CreateVertexBuffer, CreateVertexBuffer2]

  /** Runs `steps` in order and stops at the first that fails. */
  function Chain(steps: seq<Step>, succeeds: Step -> bool): Outcome
    decreases |steps|
  {
    if |steps| == 0 then Completed([])
    else if !succeeds(steps[0]) then Stopped([steps[0]], steps[0])
    else Then(steps[0], Chain(steps[1..], succeeds))
  }

  /**
   `r` is what running `steps` in order, stopping at the first that fails,
   gives: it completed exactly when every step succeeds, and then ran them
   all; otherwise it stopped at the first failing step, having run exactly
   the steps up to and including it.
   */
  predicate FirstFailure(steps: seq<Step>, succeeds: Step -> bool, r: Outcome)
  {
    && (r.Completed? <==> forall i :: 0 <= i < |steps| ==> succeeds(steps[i]))
    && (r.Completed? ==> r.ran == steps)
    && (r.Stopped? ==> && 0 < |r.ran| <= |steps| && r.ran == steps[..|r.ran|]
                       && r.failed == steps[|r.ran| - 1] && !succeeds(r.failed)
                       && forall i :: 0 <= i < |r.ran| - 1 ==> succeeds(steps[i]))
  }

  /** A chain stops at its first failure. */
  lemma {:induction false} ChainFacts(steps: seq<Step>, succeeds: Step -> bool)
    ensures FirstFailure(steps, succeeds, Chain(steps, succeeds))
    decreases |steps|
  {
    if |steps| > 0 && succeeds(steps[0]) {
      ChainFacts(steps[1..], succeeds);
      var r := Chain(steps, succeeds);
      var t := Chain(steps[1..], succeeds);
      assert r.ran == [steps[0]] + t.ran;
      forall i | 1 <= i < |steps| ensures steps[i] == steps[1..][i - 1] { }
    }
  }

  /** Runs `steps` in order and stops at the first that fails. */
  function RunSteps(steps: seq<Step>, succeeds: Step -> bool): (r: Outcome)
    ensures FirstFailure(steps, succeeds, r)
  {
    ChainFacts(steps, succeeds);
    Chain(steps, succeeds)
  }

  /** `second` runs only if `first` completed. */
  function AndThen(first: Outcome, second: Outcome): Outcome
  {
    match first
    case Stopped(_, _) => first
    case Completed(ran) =>
      match second
      case Completed(ran2) => Completed(ran + ran2)
      case Stopped(ran2, failed) => Stopped(ran + ran2, failed)
  }

  /** Step outcomes, with the adapter check decided by the adapter count. */
  function StepResults(adapterCount: nat, created: Step -> bool): Step -> bool
  {
    s => if s == FindAdapter then adapterCount >= 1 else created(s)
  }

  /**
   InitializeDirectX: the adapter check comes first, so when it fails nothing
   else runs; the stage completes exactly when all five of its steps succeed.
   */
  function InitializeDirectX(succeeds: Step -> bool): (r: Outcome)
    ensures !succeeds(FindAdapter) ==> r == Stopped([FindAdapter], FindAdapter)
    ensures r.Completed? <==> forall s :: s in DirectXSteps ==> succeeds(s)
  {
    RunSteps(DirectXSteps, succeeds)
  }

  function InitializeShaders(succeeds: Step -> bool): Outcome
  {
    RunSteps(ShaderSteps, succeeds)
  }

  function InitializeScene(succeeds: Step -> bool): Outcome
  {
    RunSteps(SceneSteps, succeeds)
  }

  /**
   Graphics::Initialize: DirectX, then shaders, then scene, stopping at the
   first failure. The nested stages behave as one flat chain over all nine
   steps in start-up order.
   */
  function Initialize(adapterCount: nat, created: Step -> bool): (r: Outcome)
    ensures r == RunSteps(AllSteps, StepResults(adapterCount, created))
  {
    var succeeds := StepResults(adapterCount, created);
    RunStepsAppend(DirectXSteps, ShaderSteps, succeeds);
    RunStepsAppend(DirectXSteps + ShaderSteps, SceneSteps, succeeds);
    AndThen(AndThen(InitializeDirectX(succeeds), InitializeShaders(succeeds)), InitializeScene(succeeds))
  }

  /** Running two step lists one after the other is running their concatenation. */
  lemma RunStepsAppend(a: seq<Step>, b: seq<Step>, succeeds: Step -> bool)
    ensures RunSteps(a + b, succeeds) == AndThen(RunSteps(a, succeeds), RunSteps(b, succeeds))
  {
    ChainAppend(a, b, succeeds);
  }

  lemma {:induction false} ChainAppend(a: seq<Step>, b: seq<Step>, succeeds: Step -> bool)
    ensures Chain(a + b, succeeds) == AndThen(Chain(a, succeeds), Chain(b, succeeds))
    decreases |a|
  {
    if |a| == 0 {
      assert a + b == b;
    } else {
      var x := a[0];
      assert (a + b)[0] == x;
      assert (a + b)[1..] == a[1..] + b;
      if succeeds(x) {
        ChainAppend(a[1..], b, succeeds);
        var tail := Chain(a[1..], succeeds);
        var second := Chain(b, succeeds);
        assert Chain(a + b, succeeds) == Then(x, Chain(a[1..] + b, succeeds));
        assert Chain(a, succeeds) == Then(x, tail);
        ThenAndThen(x, tail, second);
      }
    }
  }

  /** A successful `x` followed by `rest`. */
  function Then(x: Step, rest: Outcome): Outcome
  {
    match rest
    case Completed(ran) => Completed([x] + ran)
    case Stopped(ran, failed) => Stopped([x] + ran, failed)
  }

  lemma ThenAndThen(x: Step, first: Outcome, second: Outcome)
    ensures AndThen(Then(x, first), second) == Then(x, AndThen(first, second))
  {
    if first.Completed? && second.Completed? {
      assert [x] + (first.ran + second.ran) == ([x] + first.ran) + second.ran;
    } else if first.Completed? {
      assert [x] + (first.ran + second.ran) == ([x] + first.ran) + second.ran;
    }
  }

  /** Every step, in start-up order. */
  const AllSteps := DirectXSteps + ShaderSteps + SceneSteps

  /** A chain only ever runs steps from its own list. */
  lemma RanWithin(steps: seq<Step>, succeeds: Step -> bool)
    ensures forall s :: s in RunSteps(steps, succeeds).ran ==> s in steps
  {
    var r := RunSteps(steps, succeeds);
    assert r.ran == steps[..|r.ran|];
  }

  /** The shader stage stops, inside its own steps, when the pixel shader fails to load. */
  lemma ShaderStageStops(succeeds: Step -> bool)
    requires !succeeds(LoadPixelShader)
    ensures var r := InitializeShaders(succeeds);
      r.Stopped? && r.failed in ShaderSteps && forall s :: s in r.ran ==> s in ShaderSteps
  {
    RanWithin(ShaderSteps, succeeds);
    assert !succeeds(ShaderSteps[1]);
  }

  /** Where each step sits in start-up order. */
  function Position(s: Step): (k: nat)
    ensures k < |AllSteps| && AllSteps[k] == s
  {
    match s
    case FindAdapter => 0
    case CreateDeviceResources => 1
    case CreateDefaultStencilState => 2
    case CreateDiscardStencilState => 3
    case CreateRasterizerState => 4
    case LoadVertexShader => 5
    case LoadPixelShader => 6
    case CreateVertexBuffer => 7
    case CreateVertexBuffer2 => 8
  }

  /**
   Initialize succeeds exactly when an adapter exists and every resource
   creation and shader load succeeds.
   */
  lemma InitializeSucceedsIffAllSteps(adapterCount: nat, created: Step -> bool)
    ensures Initialize(adapterCount, created).Completed?
        <==> adapterCount >= 1 && forall s :: s != FindAdapter ==> created(s)
  {
    var ok := StepResults(adapterCount, created);
    var r := RunSteps(AllSteps, ok);
    if r.Completed? {
      assert ok(AllSteps[Position(FindAdapter)]);
      forall s | s != FindAdapter
        ensures created(s)
      {
        assert ok(AllSteps[Position(s)]);
      }
    } else {
      assert !ok(r.failed);
    }
  }

  /** With no adapter, Initialize fails at the adapter check and nothing else runs. */
  lemma NoAdapterFailsFirst(created: Step -> bool)
    ensures Initialize(0, created) == Stopped([FindAdapter], FindAdapter)
    ensures InitializeDirectX(StepResults(0, created)) == Stopped([FindAdapter], FindAdapter)
  {
  }

  /** With the pixel shader failing, Initialize stops and has run only DirectX and shader steps. */
  lemma PixelShaderFailureRan(adapterCount: nat, created: Step -> bool)
    requires !created(LoadPixelShader)
    ensures var r := Initialize(adapterCount, created);
      && r.Stopped? && (r.failed in DirectXSteps || r.failed in ShaderSteps)
      && forall s :: s in r.ran ==> s in DirectXSteps || s in ShaderSteps
  {
    var ok := StepResults(adapterCount, created);
    var dx := InitializeDirectX(ok);
    RanWithin(DirectXSteps, ok);
    ShaderStageStops(ok);
    var r := Initialize(adapterCount, created);
    if dx.Stopped? {
      assert r == dx;
    } else {
      assert r == Stopped(dx.ran + InitializeShaders(ok).ran, InitializeShaders(ok).failed);
    }
  }

  /**
   A failing pixel-shader load stops Initialize there: the scene's vertex
   buffers are never created, so the caller never enters the render loop.
   */
  lemma PixelShaderFailureStops(adapterCount: nat, created: Step -> bool)
    requires !created(LoadPixelShader)
    ensures !Initialize(adapterCount, created).Completed?
    ensures CreateVertexBuffer !in Initialize(adapterCount, created).ran
    ensures CreateVertexBuffer2 !in Initialize(adapterCount, created).ran
  {
    PixelShaderFailureRan(adapterCount, created);
    assert CreateVertexBuffer !in DirectXSteps && CreateVertexBuffer !in ShaderSteps;
    assert CreateVertexBuffer2 !in DirectXSteps && CreateVertexBuffer2 !in ShaderSteps;
  }
}
