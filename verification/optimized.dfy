/**
 * `CSAllInOne`, the optimized branch of `GenerateNormalMap`: one fused
 * blur-and-distance dispatch, then the normal-map and final-blur dispatches
 * on GPU-resident render textures, and a single read-back of whichever
 * render texture `lastResult` names at the end.
 */
module OptimizedPipeline {
  import opened Images
  import opened GaussianKernel
  import opened Gating

  /** The fused dispatch the call would make for these settings and toggles. */
  function FusedPassOf(gauss: nat -> real, s: Settings, t: Toggles): FusedPass
    requires PositiveWeights(gauss)
  {
    FusedPass(Source(s.sourceTexture), s.blurEdgesRadius, KernelSpec(gauss, s.blurEdgesRadius),
              s.slopePercentageBorder, t.blurSource, t.distMap)
  }

  /** `normRendTex` once the fast normal-map shader has run on the fused pass's outputs. */
  function NormalsOf(gauss: nat -> real, s: Settings, t: Toggles): Surface
    requires PositiveWeights(gauss)
  {
    var pass := FusedPassOf(gauss, s, t);
    Normals(SrcBlur(pass), Dist(pass), s.strengthEdges, s.strengthBorder, s.softenBorder)
  }

  /** `resultRendTex` once the fast Gaussian shader has blurred `normRendTex` into it. */
  function FinalBlurOf(gauss: nat -> real, s: Settings, t: Toggles): Surface
    requires PositiveWeights(gauss)
  {
    FinalBlur(NormalsOf(gauss, s, t), s.finalBlurRadius, KernelSpec(gauss, s.finalBlurRadius))
  }

  /** `CSAllInOne`: which surfaces are written, and which one is read back. */
  function GenerateOptimized(gauss: nat -> real, s: Settings, t: Toggles): (r: Run)
    requires PositiveWeights(gauss)
    ensures r.readbacks == 1
    ensures r.output.ReadBack?
    ensures r.dispatches == [] <==> !(t.blurSource || t.distMap)
  {
    // `lastResult` starts out as the freshly created `resultRendTex`.
    var initial := Unwritten;
    if !(t.blurSource || t.distMap) then
      Run(ReadBack(initial), [], 1)
    else
      var pass := FusedPassOf(gauss, s, t);
      var fused := [FusedBlurDist(t.blurSource, t.distMap)];
      var afterBlur := if t.blurSource then SrcBlur(pass) else initial;
      var afterDist := if t.distMap then Dist(pass) else afterBlur;
      if !t.normalMap then
        Run(ReadBack(afterDist), fused, 1)
      else if !t.finalBlur then
        Run(ReadBack(NormalsOf(gauss, s, t)), fused + [FastNormalMap], 1)
      else
        Run(ReadBack(FinalBlurOf(gauss, s, t)), fused + [FastNormalMap, FastGaussian(s.finalBlurRadius)], 1)
  }

  /** The normal-map stage runs when S3 is on and at least one of S1, S2 is. */
  predicate NormalStageRuns(t: Toggles) {
    (t.blurSource || t.distMap) && t.normalMap
  }

  /** The final blur runs when the normal-map stage does and S4 is on. */
  predicate FinalStageRuns(t: Toggles) {
    NormalStageRuns(t) && t.finalBlur
  }

  /**
   * Gating of the dispatches: nothing is dispatched unless S1 or S2 is on;
   * then the fused pass runs, with S1 and S2 as its two switches (so it
   * runs when only S2 is on); S3 additionally needs S1 or S2, and S4 needs S3.
   */
  lemma OptimizedDispatchGating(gauss: nat -> real, s: Settings, t: Toggles)
    requires PositiveWeights(gauss)
    ensures var d := GenerateOptimized(gauss, s, t).dispatches;
      && (FusedBlurDist(t.blurSource, t.distMap) in d <==> t.blurSource || t.distMap)
      && (FastNormalMap in d <==> NormalStageRuns(t))
      && (FastGaussian(s.finalBlurRadius) in d <==> FinalStageRuns(t))
      && |d| == (if t.blurSource || t.distMap then 1 else 0)
              + (if NormalStageRuns(t) then 1 else 0)
              + (if FinalStageRuns(t) then 1 else 0)
  {
  }

  /**
   * The surfaces in the order they take precedence for `lastResult`, each
   * with the condition under which it was written: final blur, normal map,
   * distance map, blurred source.
   */
  function OptimizedCandidates(gauss: nat -> real, s: Settings, t: Toggles): seq<(bool, Surface)>
    requires PositiveWeights(gauss)
  {
    var pass := FusedPassOf(gauss, s, t);
    [ (FinalStageRuns(t), FinalBlurOf(gauss, s, t)),
      (NormalStageRuns(t), NormalsOf(gauss, s, t)),
      (t.distMap, Dist(pass)),
      (t.blurSource, SrcBlur(pass)) ]
  }

  /**
   * The surface read back is the first written one in the precedence
   * final blur > normal map > distance map > blurred source, and the
   * untouched `resultRendTex` when none was written.
   */
  lemma OptimizedPrecedence(gauss: nat -> real, s: Settings, t: Toggles)
    requires PositiveWeights(gauss)
    ensures GenerateOptimized(gauss, s, t).output
         == ReadBack(FirstEnabled(OptimizedCandidates(gauss, s, t), Unwritten))
  {
    var c := OptimizedCandidates(gauss, s, t);
    if FinalStageRuns(t) {
      assert FirstEnabledAt(c, 0);
    } else if NormalStageRuns(t) {
      assert FirstEnabledAt(c, 1);
    } else if t.distMap {
      assert FirstEnabledAt(c, 2);
    } else if t.blurSource {
      assert FirstEnabledAt(c, 3);
    }
  }

  /**
   * Data flow between the optimized stages: the normal-map shader reads the
   * blurred-source and distance surfaces of the same fused pass, with the
   * edge strength, border strength and border softening of the settings,
   * and the final blur reads the normal-map surface with `finalBlurRadius`
   * and the kernel of that radius.
   */
  lemma OptimizedStageInputs(gauss: nat -> real, s: Settings)
    requires PositiveWeights(gauss)
    ensures var pass := FusedPassOf(gauss, s, UpTo(4));
      && GenerateOptimized(gauss, s, UpTo(1)).output == ReadBack(SrcBlur(FusedPassOf(gauss, s, UpTo(1))))
      && GenerateOptimized(gauss, s, UpTo(2)).output == ReadBack(Dist(pass))
      && GenerateOptimized(gauss, s, UpTo(3)).output
         == ReadBack(Normals(SrcBlur(pass), Dist(pass), s.strengthEdges, s.strengthBorder, s.softenBorder))
      && GenerateOptimized(gauss, s, UpTo(4)).output
         == ReadBack(FinalBlur(GenerateOptimized(gauss, s, UpTo(3)).output.surface,
                               s.finalBlurRadius, KernelSpec(gauss, s.finalBlurRadius)))
  {
  }
}
