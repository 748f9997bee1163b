/**
 * The reference branch of `GenerateNormalMap`: four stages run one after
 * another, each read back into a CPU texture, each gated by its toggle and
 * by every toggle before it.
 */
module ReferencePipeline {
  import opened Images
  import opened GaussianKernel
  import opened Rounding
  import opened Gating

  /** Width of the border slope in pixels: the slope fraction of the source width, rounded. */
  function BorderDistance(s: Settings): (d: int)
    ensures IsRoundHalfEven(s.sourceTexture.width as real * s.slopePercentageBorder, d)
  {
    RoundToInt(s.sourceTexture.width as real * s.slopePercentageBorder)
  }

  /**
   * A slope fraction in `[0, 1]` gives a distance between zero and the
   * source width; a zero slope gives no border at all.
   */
  lemma BorderDistanceBounds(s: Settings)
    requires 0.0 <= s.slopePercentageBorder <= 1.0
    ensures 0 <= BorderDistance(s) <= s.sourceTexture.width
    ensures s.slopePercentageBorder == 0.0 ==> BorderDistance(s) == 0
  {
    ScaleWithin(s.sourceTexture.width as real, s.slopePercentageBorder);
    RoundWithin(s.sourceTexture.width as real * s.slopePercentageBorder, s.sourceTexture.width);
  }

  lemma ScaleWithin(w: real, f: real)
    requires 0.0 <= w && 0.0 <= f <= 1.0
    ensures 0.0 <= w * f <= w
    ensures f == 0.0 ==> w * f == 0.0
  {
  }

  /**
   * `CSApplyGaussianBlur`: radius zero returns the input itself without a
   * dispatch; any other radius runs the blur shader with the kernel of
   * that radius and reads the result back.
   */
  function ApplyGaussianBlur(gauss: nat -> real, source: Image, radius: int): (r: Run)
    requires PositiveWeights(gauss)
    ensures radius == 0 <==> r.output == source
    ensures radius == 0 <==> r.dispatches == []
    ensures r.readbacks == |r.dispatches| <= 1
    ensures radius != 0 ==> r.output == Blurred(source, radius, KernelSpec(gauss, radius))
  {
    if radius == 0 then
      Run(source, [], 0)
    else
      Run(Blurred(source, radius, KernelSpec(gauss, radius)), [SlowGaussian(radius)], 1)
  }

  /** The reference branch of `GenerateNormalMap`, as a nested short-circuit. */
  function GenerateReference(gauss: nat -> real, s: Settings, t: Toggles): (r: Run)
    requires PositiveWeights(gauss)
    ensures r.readbacks == |r.dispatches|
    ensures !t.blurSource ==> r.output == Source(s.sourceTexture) && r.dispatches == []
  {
    var source := Source(s.sourceTexture);
    if !t.blurSource then
      Run(source, [], 0)
    else
      var blurred := ApplyGaussianBlur(gauss, source, s.blurEdgesRadius);
      if !t.distMap then
        blurred
      else
        var distance := BorderDistance(s);
        var heightMap := HeightMap(blurred.output, distance);
        var toHeight := blurred.dispatches + [SlowDistance(distance)];
        if !t.normalMap then
          Run(heightMap, toHeight, |toHeight|)
        else
          var normalMap := NormalMap(blurred.output, heightMap, s.strengthEdges, s.strengthBorder,
                                     s.blurBorderRadius, s.softenBorder);
          var toNormal := toHeight + [SlowNormalMap];
          if !t.finalBlur then
            Run(normalMap, toNormal, |toNormal|)
          else
            var finalBlur := ApplyGaussianBlur(gauss, normalMap, s.finalBlurRadius);
            Run(finalBlur.output, toNormal + finalBlur.dispatches, |toNormal| + finalBlur.readbacks)
  }

  /** Which stage the reference pipeline stops after: the number of leading enabled toggles. */
  function ReferenceStopsAfter(t: Toggles): (k: nat)
    ensures k <= 4
  {
    LeadingTrue(t.AsSeq())
  }

  /**
   * The run depends only on the longest enabled prefix of S1→S2→S3→S4: it
   * is the run with exactly that prefix switched on.
   */
  lemma ReferenceRunsLongestPrefix(gauss: nat -> real, s: Settings, t: Toggles)
    requires PositiveWeights(gauss)
    ensures GenerateReference(gauss, s, t) == GenerateReference(gauss, s, UpTo(ReferenceStopsAfter(t)))
  {
    var k := ReferenceStopsAfter(t);
    assert t.AsSeq()[0] == t.blurSource;
    assert k >= 1 ==> t.AsSeq()[0];
    assert k >= 2 ==> t.AsSeq()[1];
    assert k >= 3 ==> t.AsSeq()[2];
    assert k >= 4 ==> t.AsSeq()[3];
  }

  /** Once a toggle is off, the toggles after it have no effect. */
  lemma ReferenceIgnoresLaterToggles(gauss: nat -> real, s: Settings, t: Toggles, u: Toggles, k: nat)
    requires PositiveWeights(gauss)
    requires k < 4 && !t.AsSeq()[k]
    requires t.AsSeq()[..k + 1] == u.AsSeq()[..k + 1]
    ensures GenerateReference(gauss, s, t) == GenerateReference(gauss, s, u)
  {
    LeadingTrueStopsAtFalse(t.AsSeq(), u.AsSeq(), k);
    ReferenceRunsLongestPrefix(gauss, s, t);
    ReferenceRunsLongestPrefix(gauss, s, u);
  }

  /**
   * Data flow between stages. Each stage consumes exactly the images the
   * pipeline returns when stopped before it: the height map is made from
   * the blurred source with the rounded border distance, the normal map
   * from the blurred source and the height map (never the raw source), and
   * the final blur from the normal map with `finalBlurRadius`.
   */
  lemma ReferenceStageInputs(gauss: nat -> real, s: Settings)
    requires PositiveWeights(gauss)
    ensures GenerateReference(gauss, s, UpTo(0)).output == Source(s.sourceTexture)
    ensures GenerateReference(gauss, s, UpTo(1)).output
         == ApplyGaussianBlur(gauss, Source(s.sourceTexture), s.blurEdgesRadius).output
    ensures GenerateReference(gauss, s, UpTo(2)).output
         == HeightMap(GenerateReference(gauss, s, UpTo(1)).output, BorderDistance(s))
    ensures GenerateReference(gauss, s, UpTo(3)).output
         == NormalMap(GenerateReference(gauss, s, UpTo(1)).output, GenerateReference(gauss, s, UpTo(2)).output,
                      s.strengthEdges, s.strengthBorder, s.blurBorderRadius, s.softenBorder)
    ensures GenerateReference(gauss, s, UpTo(4)).output
         == ApplyGaussianBlur(gauss, GenerateReference(gauss, s, UpTo(3)).output, s.finalBlurRadius).output
  {
  }

  /**
   * One CPU read-back per dispatch: each stage that reaches the GPU costs a
   * round trip, and blurs with radius zero cost none.
   */
  lemma ReferenceDispatches(gauss: nat -> real, s: Settings)
    requires PositiveWeights(gauss)
    ensures GenerateReference(gauss, s, UpTo(4)).dispatches
         == (if s.blurEdgesRadius == 0 then [] else [SlowGaussian(s.blurEdgesRadius)])
          + [SlowDistance(BorderDistance(s)), SlowNormalMap]
          + (if s.finalBlurRadius == 0 then [] else [SlowGaussian(s.finalBlurRadius)])
  {
  }
}
