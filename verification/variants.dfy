/**
 * `GenerateNormalMap` and the comparison of its two branches.
 *
 * The branches do not gate their stages the same way, so they are compared
 * by which stage's output each one returns. They agree exactly when S1 is
 * on and S3 is not on without S2; in particular when all four toggles are
 * on, and when S1 and S2 are on with S3 off.
 */
module Variants {
  import opened Images
  import opened GaussianKernel
  import opened Gating
  import opened ReferencePipeline
  import opened OptimizedPipeline

  /** `GenerateNormalMap`: the `useOptimized` flag selects the branch. */
  function GenerateNormalMap(gauss: nat -> real, s: Settings, t: Toggles, useOptimized: bool): (r: Run)
    requires PositiveWeights(gauss)
    ensures useOptimized ==> r.readbacks == 1 && r.output.ReadBack?
    ensures !useOptimized ==> r.readbacks == |r.dispatches|
    ensures !useOptimized && !t.blurSource ==> r.output == Source(s.sourceTexture)
  {
    if useOptimized then GenerateOptimized(gauss, s, t) else GenerateReference(gauss, s, t)
  }

  /** The stages, in pipeline order. */
  datatype StageDone = BlurDone | DistanceDone | NormalDone | FinalBlurDone

  /** What a call hands back, classified by where it came from. */
  datatype Returned =
    | SourceTexture        // the caller's texture itself
    | UntouchedResult      // the render texture no stage wrote to
    | After(stage: StageDone)

  /** The stage reached after `k` stages, for `1 <= k <= 4`. */
  function StageNumbered(k: nat): StageDone
    requires 1 <= k <= 4
  {
    match k
    case 1 => BlurDone
    case 2 => DistanceDone
    case 3 => NormalDone
    case _ => FinalBlurDone
  }

  /** The reference branch returns the output of its longest enabled prefix of stages. */
  function ReferenceReturns(t: Toggles): Returned {
    var k := ReferenceStopsAfter(t);
    if k == 0 then SourceTexture else After(StageNumbered(k))
  }

  /** The optimized branch returns the highest-precedence stage it ran. */
  function OptimizedReturns(t: Toggles): Returned {
    FirstEnabled([ (FinalStageRuns(t), After(FinalBlurDone)),
                   (NormalStageRuns(t), After(NormalDone)),
                   (t.distMap, After(DistanceDone)),
                   (t.blurSource, After(BlurDone)) ],
                 UntouchedResult)
  }

  /** The surface that holds a given stage's output in the optimized branch. */
  function OptimizedSurface(gauss: nat -> real, s: Settings, t: Toggles, ret: Returned): Surface
    requires PositiveWeights(gauss)
  {
    var pass := FusedPassOf(gauss, s, t);
    match ret
    case After(BlurDone) => SrcBlur(pass)
    case After(DistanceDone) => Dist(pass)
    case After(NormalDone) => NormalsOf(gauss, s, t)
    case After(FinalBlurDone) => FinalBlurOf(gauss, s, t)
    case _ => Unwritten
  }

  /** The classification describes the reference run: its output is that stage's output. */
  lemma ReferenceReturnsStageOutput(gauss: nat -> real, s: Settings, t: Toggles)
    requires PositiveWeights(gauss)
    ensures ReferenceReturns(t) != UntouchedResult
    ensures ReferenceReturns(t) == SourceTexture ==> GenerateReference(gauss, s, t).output == Source(s.sourceTexture)
    ensures forall k :: 1 <= k <= 4 && ReferenceReturns(t) == After(StageNumbered(k))
              ==> GenerateReference(gauss, s, t).output == GenerateReference(gauss, s, UpTo(k)).output
  {
    ReferenceRunsLongestPrefix(gauss, s, t);
    forall k | 1 <= k <= 4 && ReferenceReturns(t) == After(StageNumbered(k))
      ensures k == ReferenceStopsAfter(t)
    {
    }
  }

  /** The classification describes the optimized run: it reads back that stage's surface. */
  lemma OptimizedReturnsStageOutput(gauss: nat -> real, s: Settings, t: Toggles)
    requires PositiveWeights(gauss)
    ensures OptimizedReturns(t) != SourceTexture
    ensures GenerateOptimized(gauss, s, t).output == ReadBack(OptimizedSurface(gauss, s, t, OptimizedReturns(t)))
  {
    OptimizedReturnsByToggles(t);
  }

  /**
   * The two branches return the same stage's output exactly when S1 is on
   * and S3 is not on without S2.
   */
  lemma BranchesAgreeExactly(t: Toggles)
    ensures ReferenceReturns(t) == OptimizedReturns(t) <==> t.blurSource && (t.distMap || !t.normalMap)
  {
    ReferenceReturnsByToggles(t);
    OptimizedReturnsByToggles(t);
  }

  /** The reference classification, toggle by toggle. */
  lemma ReferenceReturnsByToggles(t: Toggles)
    ensures ReferenceReturns(t)
         == if !t.blurSource then SourceTexture
            else if !t.distMap then After(BlurDone)
            else if !t.normalMap then After(DistanceDone)
            else if !t.finalBlur then After(NormalDone)
            else After(FinalBlurDone)
  {
    var bs := t.AsSeq();
    var k := ReferenceStopsAfter(t);
    assert bs[0] == t.blurSource && bs[1] == t.distMap && bs[2] == t.normalMap && bs[3] == t.finalBlur;
    assert k < 4 ==> !bs[k];
    assert forall i :: 0 <= i < k ==> bs[i];
  }

  /** The optimized classification, toggle by toggle. */
  lemma OptimizedReturnsByToggles(t: Toggles)
    ensures OptimizedReturns(t)
         == if !(t.blurSource || t.distMap) then UntouchedResult
            else if !t.normalMap then (if t.distMap then After(DistanceDone) else After(BlurDone))
            else if !t.finalBlur then After(NormalDone)
            else After(FinalBlurDone)
  {
    var c := [ (FinalStageRuns(t), After(FinalBlurDone)),
               (NormalStageRuns(t), After(NormalDone)),
               (t.distMap, After(DistanceDone)),
               (t.blurSource, After(BlurDone)) ];
    if FinalStageRuns(t) {
      assert FirstEnabledAt(c, 0);
    } else if NormalStageRuns(t) {
      assert FirstEnabledAt(c, 1);
    } else if t.distMap {
      assert FirstEnabledAt(c, 2);
    } else if t.blurSource {
      assert FirstEnabledAt(c, 3);
    }
  }

  /** With all four toggles on, both branches return the final blur. */
  lemma BranchesAgreeAllOn()
    ensures ReferenceReturns(UpTo(4)) == OptimizedReturns(UpTo(4)) == After(FinalBlurDone)
  {
    BranchesAgreeExactly(UpTo(4));
  }

  /** With S1 and S2 on and S3 off, both branches return the distance map, whatever S4 is. */
  lemma BranchesAgreeStopAtDistance(finalBlur: bool)
    ensures var t := Toggles(true, true, false, finalBlur);
      ReferenceReturns(t) == OptimizedReturns(t) == After(DistanceDone)
  {
  }

  /**
   * With S1 and S2 off the reference branch returns the caller's texture
   * untouched, while the optimized branch dispatches nothing and reads back
   * a render texture that no stage wrote.
   */
  lemma BranchesDivergeWithoutBlurOrDistance(gauss: nat -> real, s: Settings, t: Toggles)
    requires PositiveWeights(gauss)
    requires !t.blurSource && !t.distMap
    ensures GenerateReference(gauss, s, t) == Run(Source(s.sourceTexture), [], 0)
    ensures GenerateOptimized(gauss, s, t) == Run(ReadBack(Unwritten), [], 1)
    ensures GenerateReference(gauss, s, t).output != GenerateOptimized(gauss, s, t).output
  {
  }

  /**
   * With only S2 on, the reference branch stops before any stage, while the
   * optimized branch still runs the fused pass (told not to blur) and
   * returns its distance map.
   */
  lemma BranchesDivergeDistanceOnly(gauss: nat -> real, s: Settings)
    requires PositiveWeights(gauss)
    ensures var t := Toggles(false, true, false, false);
      && GenerateReference(gauss, s, t) == Run(Source(s.sourceTexture), [], 0)
      && GenerateOptimized(gauss, s, t).dispatches == [FusedBlurDist(false, true)]
      && GenerateOptimized(gauss, s, t).output == ReadBack(Dist(FusedPassOf(gauss, s, t)))
      && !FusedPassOf(gauss, s, t).doSourceBlur
  {
  }

  /**
   * A radius of zero means "no blur" in both branches: the reference blur
   * returns its input without a dispatch, and the optimized shaders are
   * handed the one-entry kernel `[1.0]`, a convolution that leaves every
   * pixel as it is.
   */
  lemma ZeroRadiusMeansNoBlur(gauss: nat -> real, s: Settings)
    requires PositiveWeights(gauss)
    ensures s.blurEdgesRadius == 0 ==>
      && GenerateReference(gauss, s, UpTo(1)) == Run(Source(s.sourceTexture), [], 0)
      && FusedPassOf(gauss, s, UpTo(1)).kernel == [1.0]
    ensures s.finalBlurRadius == 0 ==>
      && GenerateReference(gauss, s, UpTo(4)) == GenerateReference(gauss, s, UpTo(3))
      && FinalBlurOf(gauss, s, UpTo(4)).kernel == [1.0]
  {
    if s.blurEdgesRadius == 0 {
      KernelRadiusZero(gauss, s.blurEdgesRadius);
    }
    if s.finalBlurRadius == 0 {
      KernelRadiusZero(gauss, s.finalBlurRadius);
    }
  }

  /** Every blur the reference branch dispatches uses a positive kernel that sums to one. */
  lemma ReferenceBlurKernelsNormalised(gauss: nat -> real, image: Image, radius: nat)
    requires PositiveWeights(gauss)
    requires radius > 0
    ensures var out := ApplyGaussianBlur(gauss, image, radius).output;
      && out.Blurred?
      && |out.kernel| == Side(radius) * Side(radius)
      && Sum(out.kernel) == 1.0
      && forall i :: 0 <= i < |out.kernel| ==> out.kernel[i] > 0.0
  {
    KernelNormalised(gauss, radius);
    KernelPositive(gauss, radius);
  }

  /**
   * A negative radius is not skipped: the reference dispatches the blur
   * with the all-zero kernel of `(2r+1)²` entries, whose sum is zero.
   */
  lemma ReferenceBlurNegativeRadius(gauss: nat -> real, image: Image, radius: int)
    requires PositiveWeights(gauss)
    requires radius < 0
    ensures var r := ApplyGaussianBlur(gauss, image, radius);
      && r.dispatches == [SlowGaussian(radius)]
      && r.output.Blurred?
      && |r.output.kernel| == Side(radius) * Side(radius)
      && Sum(r.output.kernel) == 0.0
      && forall i :: 0 <= i < |r.output.kernel| ==> r.output.kernel[i] == 0.0
  {
    var kernel := KernelSpec(gauss, radius);
    KernelNegativeRadius(gauss, radius);
    PrefixSumZero(kernel, |kernel|);
  }
}
