/**
 The output-merger depth/stencil stage of Direct3D 11 for one fragment, and
 the two depth/stencil configurations the renderer creates at start-up: the
 "default" one (stencil always passes and counts up, saturating) and the
 "discard" one (stencil passes only where the stored value equals the
 reference, and is never written). The stencil plane is 8 bits deep
 (DXGI_FORMAT_D24_UNORM_S8_UINT).
 */
module DepthStencil {

  /** One stencil-plane value. */
  type Stencil8 = x: int | 0 <= x < 256

  const StencilMax: Stencil8 := 255

  /** D3D11_COMPARISON_FUNC. */
  datatype ComparisonFunc = Never | Less | Equal | LessEqual | Greater | NotEqual | GreaterEqual | Always

  /** D3D11_STENCIL_OP. */
  datatype StencilOp = Keep | Zero | Replace | IncrSat | DecrSat | Invert | Incr | Decr

  /** D3D11_DEPTH_STENCILOP_DESC: the test and the three update operations of one face. */
  datatype FaceOps = FaceOps(stencilFunc: ComparisonFunc, stencilFailOp: StencilOp,
                             stencilDepthFailOp: StencilOp, stencilPassOp: StencilOp)

  /** D3D11_DEPTH_STENCIL_DESC. `depthWriteAll` is D3D11_DEPTH_WRITE_MASK_ALL (false: ZERO). */
  datatype DepthStencilDesc = DepthStencilDesc(
    depthEnable: bool, depthWriteAll: bool, depthFunc: ComparisonFunc,
    stencilEnable: bool, stencilReadMask: Stencil8, stencilWriteMask: Stencil8,
    frontFace: FaceOps, backFace: FaceOps)

  /** The face of the triangle a fragment comes from. */
  datatype Face = Front | Back

  /** What the stage does with one fragment: the new stencil value, and whether the fragment survives. */
  datatype StencilOutcome = StencilOutcome(stencil: Stencil8, passed: bool)

  /** A comparison function applied as "source func destination". */
  function Compare(f: ComparisonFunc, src: real, dst: real): bool
  {
    match f
    case Never => false
    case Less => src < dst
    case Equal => src == dst
    case LessEqual => src <= dst
    case Greater => src > dst
    case NotEqual => src != dst
    case GreaterEqual => src >= dst
    case Always => true
  }

  /** 2 to the power k. */
  function Pow2(k: nat): (p: nat)
    ensures p > 0
  {
    if k == 0 then 1 else 2 * Pow2(k - 1)
  }

  /**
   The low k bits taken from `onBits` where `mask` has a 1 bit and from
   `offBits` where it has a 0 bit; the result fits in k bits.
   */
  function SelectBits(offBits: nat, onBits: nat, mask: nat, k: nat): (r: nat)
    ensures r < Pow2(k)
    decreases k
  {
    if k == 0 then 0
    else (if mask % 2 == 1 then onBits % 2 else offBits % 2) + 2 * SelectBits(offBits / 2, onBits / 2, mask / 2, k - 1)
  }

  /** A stencil value under a read mask: its bits where the mask has a 1, zero elsewhere. */
  function Masked(v: Stencil8, mask: Stencil8): Stencil8
  {
    assert Pow2(8) == 256;
    SelectBits(0, v, mask, 8)
  }

  /** The stored value after writing `next` through a write mask: bits outside the mask keep `stored`. */
  function MaskedWrite(stored: Stencil8, next: Stencil8, mask: Stencil8): Stencil8
  {
    assert Pow2(8) == 256;
    SelectBits(stored, next, mask, 8)
  }

  /** The value a stencil operation produces from the stored value and the reference. */
  function ApplyStencilOp(op: StencilOp, stored: Stencil8, ref: Stencil8): Stencil8
  {
    match op
    case Keep => stored
    case Zero => 0
    case Replace => ref
    case IncrSat => if stored < StencilMax then stored + 1 else StencilMax
    case DecrSat => if stored > 0 then stored - 1 else 0
    case Invert => StencilMax - stored
    case Incr => (stored + 1) % 256
    case Decr => (stored - 1) % 256
  }

  /**
   One fragment through the depth/stencil stage: the stencil test
   (reference and stored value both under the read mask), then the depth test
   (passing when depth is disabled), then the fail, depth-fail or pass
   operation of the fragment's face, written through the write mask. A
   fragment survives exactly when it passes both tests, and with stencil
   disabled the stored value never changes.
   */
  function StencilStage(desc: DepthStencilDesc, face: Face, ref: Stencil8, stored: Stencil8,
                        fragmentDepth: real, storedDepth: real): (o: StencilOutcome)
    ensures o.passed <==> && (!desc.stencilEnable
                               || Compare((if face == Front then desc.frontFace else desc.backFace).stencilFunc,
                                          Masked(ref, desc.stencilReadMask) as real,
                                          Masked(stored, desc.stencilReadMask) as real))
                           && (!desc.depthEnable || Compare(desc.depthFunc, fragmentDepth, storedDepth))
    ensures !desc.stencilEnable ==> o.stencil == stored
  {
    var ops := if face == Front then desc.frontFace else desc.backFace;
    var depthPasses := !desc.depthEnable || Compare(desc.depthFunc, fragmentDepth, storedDepth);
    if !desc.stencilEnable then
      StencilOutcome(stored, depthPasses)
    else if !Compare(ops.stencilFunc, Masked(ref, desc.stencilReadMask) as real,
                     Masked(stored, desc.stencilReadMask) as real) then
      StencilOutcome(MaskedWrite(stored, ApplyStencilOp(ops.stencilFailOp, stored, ref), desc.stencilWriteMask), false)
    else if !depthPasses then
      StencilOutcome(MaskedWrite(stored, ApplyStencilOp(ops.stencilDepthFailOp, stored, ref), desc.stencilWriteMask), false)
    else
      StencilOutcome(MaskedWrite(stored, ApplyStencilOp(ops.stencilPassOp, stored, ref), desc.stencilWriteMask), true)
  }

  /** The stage never changes a stored stencil bit that the write mask leaves clear. */
  lemma StencilStageKeepsUnmaskedBits(desc: DepthStencilDesc, face: Face, ref: Stencil8, stored: Stencil8,
                                      fragmentDepth: real, storedDepth: real, i: nat)
    requires i < 8 && Bit(desc.stencilWriteMask, i) == 0
    ensures Bit(StencilStage(desc, face, ref, stored, fragmentDepth, storedDepth).stencil, i) == Bit(stored, i)
  {
    var ops := if face == Front then desc.frontFace else desc.backFace;
    MaskedWriteBits(stored, ApplyStencilOp(ops.stencilFailOp, stored, ref), desc.stencilWriteMask, i);
    MaskedWriteBits(stored, ApplyStencilOp(ops.stencilDepthFailOp, stored, ref), desc.stencilWriteMask, i);
    MaskedWriteBits(stored, ApplyStencilOp(ops.stencilPassOp, stored, ref), desc.stencilWriteMask, i);
  }

  /** The "default" configuration: depth off, stencil always passes and saturating-increments; back faces never pass. */
  const DefaultState := DepthStencilDesc(
    depthEnable := false, depthWriteAll := true, depthFunc := Never,
    stencilEnable := true, stencilReadMask := 0xFF, stencilWriteMask := 0xFF,
    frontFace := FaceOps(stencilFunc := Always, stencilFailOp := Keep,
                         stencilDepthFailOp := Keep, stencilPassOp := IncrSat),
    backFace := FaceOps(stencilFunc := Never, stencilFailOp := Keep,
                        stencilDepthFailOp := Keep, stencilPassOp := Keep))

  /** The "discard" configuration: the default one with the front face changed to EQUAL and KEEP. */
  const DiscardState := DefaultState.(
    frontFace := FaceOps(stencilFunc := Equal, stencilFailOp := Keep,
                         stencilDepthFailOp := Keep, stencilPassOp := Keep))

  /** The full (0xFF) masks read and write stencil values unchanged. */
  lemma FullMasks(v: Stencil8, w: Stencil8)
    ensures Masked(v, 0xFF) == v
    ensures MaskedWrite(v, w, 0xFF) == w
  {
    assert Pow2(8) == 256;
    SelectAllOnes(0, v, 8);
    SelectAllOnes(v, w, 8);
  }

  /** A mask of k one bits selects all k low bits of `onBits`. */
  lemma {:induction false} SelectAllOnes(offBits: nat, onBits: nat, k: nat)
    requires onBits < Pow2(k)
    ensures SelectBits(offBits, onBits, Pow2(k) - 1, k) == onBits
    decreases k
  {
    if k > 0 {
      var m := Pow2(k) - 1;
      assert m % 2 == 1 && m / 2 == Pow2(k - 1) - 1;
      assert onBits / 2 < Pow2(k - 1);
      SelectAllOnes(offBits / 2, onBits / 2, k - 1);
    }
  }

  /** Bit i of x (bit 0 is the lowest). */
  function Bit(x: nat, i: nat): nat
    decreases i
  {
    if i == 0 then x % 2 else Bit(x / 2, i - 1)
  }

  /** Each of the k low bits of a selection comes from `onBits` where the mask bit is set and from `offBits` where it is clear. */
  lemma {:induction false} SelectBitsBit(offBits: nat, onBits: nat, mask: nat, k: nat, i: nat)
    requires i < k
    ensures Bit(SelectBits(offBits, onBits, mask, k), i)
            == if Bit(mask, i) == 1 then Bit(onBits, i) else Bit(offBits, i)
    decreases k
  {
    var low := if mask % 2 == 1 then onBits % 2 else offBits % 2;
    var rest := SelectBits(offBits / 2, onBits / 2, mask / 2, k - 1);
    assert SelectBits(offBits, onBits, mask, k) == low + 2 * rest;
    if i > 0 {
      assert (low + 2 * rest) / 2 == rest;
      SelectBitsBit(offBits / 2, onBits / 2, mask / 2, k - 1, i - 1);
    }
  }

  /**
   A masked write keeps the stored value's bits outside the write mask and
   takes the new value's bits inside it.
   */
  lemma MaskedWriteBits(stored: Stencil8, next: Stencil8, mask: Stencil8, i: nat)
    requires i < 8
    ensures Bit(MaskedWrite(stored, next, mask), i) == if Bit(mask, i) == 1 then Bit(next, i) else Bit(stored, i)
  {
    SelectBitsBit(stored, next, mask, 8, i);
  }

  /** A read mask keeps the value's bits inside the mask and clears the rest. */
  lemma MaskedBits(v: Stencil8, mask: Stencil8, i: nat)
    requires i < 8
    ensures Bit(Masked(v, mask), i) == if Bit(mask, i) == 1 then Bit(v, i) else 0
  {
    SelectBitsBit(0, v, mask, 8, i);
    assert Bit(0, i) == 0 by { ZeroBits(i); }
  }

  /** Every bit of zero is clear. */
  lemma {:induction false} ZeroBits(i: nat)
    ensures Bit(0, i) == 0
  {
    if i > 0 {
      ZeroBits(i - 1);
    }
  }

  /**
   The discard configuration differs from the default one only in the front
   face's comparison (EQUAL instead of ALWAYS) and pass operation (KEEP
   instead of INCR_SAT); depth is disabled in both.
   */
  lemma DiscardDiffersFromDefault()
    ensures DiscardState.frontFace.stencilFunc == Equal && DefaultState.frontFace.stencilFunc == Always
    ensures DiscardState.frontFace.stencilPassOp == Keep && DefaultState.frontFace.stencilPassOp == IncrSat
    ensures DiscardState == DefaultState.(frontFace := DefaultState.frontFace.(stencilFunc := Equal, stencilPassOp := Keep))
    ensures !DefaultState.depthEnable && !DiscardState.depthEnable
  {
  }

  /**
   Under the default configuration a front-facing fragment always survives
   and raises the stored value by one, saturating at 255, whatever the
   reference and depths.
   */
  lemma DefaultFrontCounts(ref: Stencil8, stored: Stencil8, fragmentDepth: real, storedDepth: real)
    ensures var o := StencilStage(DefaultState, Front, ref, stored, fragmentDepth, storedDepth);
      o.passed && o.stencil == (if stored < 255 then stored + 1 else 255)
  {
    var next := ApplyStencilOp(IncrSat, stored, ref);
    FullMasks(stored, next);
    assert MaskedWrite(stored, next, DefaultState.stencilWriteMask) == next;
  }

  /** Under both configurations a back-facing fragment never survives and leaves the stencil value alone. */
  lemma BackFaceNeverPasses(desc: DepthStencilDesc, ref: Stencil8, stored: Stencil8, fragmentDepth: real, storedDepth: real)
    requires desc == DefaultState || desc == DiscardState
    ensures var o := StencilStage(desc, Back, ref, stored, fragmentDepth, storedDepth);
      !o.passed && o.stencil == stored
  {
    FullMasks(stored, stored);
  }

  /**
   Under the discard configuration a front-facing fragment survives exactly
   when the stored value equals the reference, and no fragment ever changes
   the stored value.
   */
  lemma DiscardFrontTestsEquality(ref: Stencil8, stored: Stencil8, fragmentDepth: real, storedDepth: real)
    ensures var o := StencilStage(DiscardState, Front, ref, stored, fragmentDepth, storedDepth);
      (o.passed <==> stored == ref) && o.stencil == stored
  {
    FullMasks(stored, stored);
    FullMasks(ref, ref);
  }

  /**
   INCR_SAT never wraps: it never lowers the value and stays at 255, while
   INCR would wrap 255 round to 0.
   */
  lemma IncrSatNeverWraps(stored: Stencil8, ref: Stencil8)
    ensures ApplyStencilOp(IncrSat, stored, ref) >= stored
    ensures ApplyStencilOp(IncrSat, stored, ref) != 0
    ensures ApplyStencilOp(Incr, StencilMax, ref) == 0
    ensures stored < StencilMax ==> ApplyStencilOp(Incr, stored, ref) == ApplyStencilOp(IncrSat, stored, ref)
  {
  }
}
