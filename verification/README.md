# Normal-map generator: kernel and stage gating

A Dafny model of the core of `NormalMapGenerator`. This Unity component turns a flat sprite texture into a normal map. It does this with a chain of compute-shader stages:

- S1 blurs the source;
- S2 derives a height map from the blurred source;
- S3 synthesises normals;
- S4 applies a final blur.

`GenerateNormalMap` has two branches:

- The **reference** branch runs each stage on its own and reads every intermediate back into a CPU texture.
- The **optimized** branch (`CSAllInOne`) fuses S1 and S2 into one dispatch. It keeps the intermediates on the GPU and reads back once.

The model covers two parts of the source:

1. **The Gaussian kernel** (`GetGaussianKernel`), in `kernel.dfy`. The imperative nested-loop construction is proved equal to a functional definition. That definition is then shown to have:
   - the stated size;
   - the row-major index ↔ offset mapping;
   - symmetry under mirroring and swapping the axes;
   - positive entries;
   - a sum of exactly one;
   - the identity kernel `[1.0]` at radius 0.

   The floating-point Gaussian is the parameter `gauss: nat -> real`, a strictly positive function of the squared offset. All arithmetic is in `real`.
2. **Stage selection in the two branches**:
   - `reference.dfy` holds the reference branch and the radius-0 guard of `CSApplyGaussianBlur`.
   - `optimized.dfy` holds `CSAllInOne`.
   - `variants.dfy` holds the `useOptimized` switch and the comparison of the two branches.

   Each image is the symbolic term of the dispatches that made it (`images.dfy`), so the shaders stay uninterpreted. A call yields a `Run`: the returned image, the dispatches in order, and the number of GPU→CPU read-backs.

The two branches do **not** gate their stages the same way:

- The reference branch returns the output of the longest enabled prefix of S1→S2→S3→S4. With S1 off it returns the caller's texture.
- The optimized branch runs the fused pass whenever S1 **or** S2 is on. S3 then needs only S1 ∨ S2, and S4 needs S3. The surface read back follows the precedence final blur > normals > distance > blurred source. With neither S1 nor S2 on, it reads back the freshly created `resultRendTex`, which no stage wrote.

`Variants.BranchesAgreeExactly` characterises when both branches return the same stage's output: exactly when S1 is on and S3 is not on without S2. This covers all four toggles on, and S1 and S2 on with S3 off. The model does not claim the branches are equivalent in general. With every toggle off the two branches return different things. The reference branch returns `settings.sourceTexture` (src/FullFiles/NormalMapGenerator.cs:76, :107). The optimized branch reads back `resultRendTex`, which it created (:294-295) and made `lastResult` (:319) but never wrote (:391). `Variants.BranchesDivergeWithoutBlurOrDistance` states this.

Files: `gating.dfy` (leading-run and precedence selection), `rounding.dfy` (`Mathf.RoundToInt`), `images.dfy` (terms, settings, toggles), `kernel.dfy`, `reference.dfy`, `optimized.dfy`, `variants.dfy`.

## Model

| member | source | states |
|---|---|---|
| GaussianKernel.GetGaussianKernel | src/FullFiles/NormalMapGenerator.cs:244-280 | The two nested passes produce exactly the functional kernel: raw weight of each cell's squared offset divided by the sum of all raw weights; for a negative radius the loops do not run and every entry stays zero |
| GaussianKernel.WriteRawWeights | src/FullFiles/NormalMapGenerator.cs:246-268 | The first pass writes the raw weight of every cell's squared offset at `filterY·length+filterX`, so the array equals the functional raw kernel; `sumTotal` ends as the left-to-right sum of those weights |
| GaussianKernel.WriteRawRow | src/FullFiles/NormalMapGenerator.cs:257-267 | One run of the inner loop writes the raw weights of row `filterY` right after the rows already written and adds each to `sumTotal`; afterwards one more row of the array agrees with the raw kernel and `sumTotal` is the sum of everything written so far |
| GaussianKernel.DivideAll | src/FullFiles/NormalMapGenerator.cs:270-277 | The second pass divides every cell, and only once, by `sumTotal` |
| GaussianKernel.Total | src/FullFiles/NormalMapGenerator.cs:248-268 | The `sumTotal` of the raw weights is strictly positive, so the normalising division is defined |
| GaussianKernel.KernelLength | src/FullFiles/NormalMapGenerator.cs:246-247 | The kernel has `(2·radius+1)²` entries for every radius |
| GaussianKernel.RowStartIsProduct | src/FullFiles/NormalMapGenerator.cs:264 | Row `y` of the kernel starts at index `y·length`, the row-major addressing of the source |
| GaussianKernel.SquareIsProduct | src/FullFiles/NormalMapGenerator.cs:262 | The squared offset used for a weight is `n·n`, the product the source computes |
| GaussianKernel.KernelEntry | src/FullFiles/NormalMapGenerator.cs:255-264 | Entry `RowStart(y)+x`, that is `y·length+x`, holds the normalised weight of the offset `(x−radius, y−radius)`, and that index lies inside the kernel |
| GaussianKernel.KernelWeightByDistance | src/FullFiles/NormalMapGenerator.cs:259-264 | The weight read for offset `(dx, dy)` is `gauss(dx²+dy²)` over the total: it depends only on the squared distance from the centre |
| GaussianKernel.KernelMirrorX | src/FullFiles/NormalMapGenerator.cs:259-264 | Negating dx leaves the weight unchanged |
| GaussianKernel.KernelMirrorY | src/FullFiles/NormalMapGenerator.cs:259-264 | Negating dy leaves the weight unchanged |
| GaussianKernel.KernelTranspose | src/FullFiles/NormalMapGenerator.cs:259-264 | Swapping dx and dy leaves the weight unchanged |
| GaussianKernel.KernelPositive | src/FullFiles/NormalMapGenerator.cs:264-277 | With strictly positive raw weights every normalised entry is strictly positive |
| GaussianKernel.KernelNormalised | src/FullFiles/NormalMapGenerator.cs:264-277 | The normalised entries sum to exactly 1 |
| GaussianKernel.KernelRadiusZero | src/FullFiles/NormalMapGenerator.cs:246-277 | Radius 0 yields the one-entry kernel `[1.0]` |
| GaussianKernel.KernelNegativeRadius | src/FullFiles/NormalMapGenerator.cs:246-257 | A negative radius is not rejected: it yields `(2r+1)²` entries, all zero |
| GaussianKernel.SumScale | src/FullFiles/NormalMapGenerator.cs:271-277 | Dividing every entry by the total divides their sum by the total |
| Rounding.RoundToInt | src/FullFiles/NormalMapGenerator.cs:87 | The border distance is the integer nearest to `width·slopePercentageBorder`, the even one on a tie |
| Rounding.RoundingUnique | src/FullFiles/NormalMapGenerator.cs:87 | At most one integer satisfies that rounding rule, so the distance is determined by the product |
| ReferencePipeline.BorderDistance | src/FullFiles/NormalMapGenerator.cs:87 | The distance handed to the height-map stage is a nearest integer to `width·slopePercentageBorder`, the even one on a tie |
| ReferencePipeline.BorderDistanceBounds | src/FullFiles/NormalMapGenerator.cs:87 | For a slope fraction in `[0, 1]` the distance lies in `[0, width]`, and a zero slope gives distance 0 |
| ReferencePipeline.ApplyGaussianBlur | src/FullFiles/NormalMapGenerator.cs:193-241 | Radius 0 returns the input itself, with no dispatch and no read-back, and this happens only for radius 0; any other radius dispatches the blur once with the kernel of that radius and reads the result back once |
| ReferencePipeline.GenerateReference | src/FullFiles/NormalMapGenerator.cs:76-107 | Every dispatched stage is read back once; with S1 off the result is `settings.sourceTexture` itself and nothing is dispatched |
| ReferencePipeline.ReferenceRunsLongestPrefix | src/FullFiles/NormalMapGenerator.cs:76-107 | The run equals the run with only the longest enabled prefix of S1→S2→S3→S4 switched on |
| ReferencePipeline.ReferenceIgnoresLaterToggles | src/FullFiles/NormalMapGenerator.cs:78-105 | When a toggle is off, changing any later toggle changes neither the result nor the dispatches |
| ReferencePipeline.ReferenceStageInputs | src/FullFiles/NormalMapGenerator.cs:76-107 | The height map is made from the blurred source with distance `round(width·slope)`. The normal map is made from the blurred source and the height map, not the raw source. The final blur takes the normal map with `finalBlurRadius`. Each is exactly the image the pipeline returns when stopped one stage earlier |
| ReferencePipeline.ReferenceDispatches | src/FullFiles/NormalMapGenerator.cs:76-107 | With all stages on, the dispatches are: blur (skipped at radius 0), distance, normal map, then final blur (skipped at radius 0) |
| Gating.LeadingTrue | src/FullFiles/NormalMapGenerator.cs:78-105 | The nesting depth reached is the number of leading enabled toggles: all before it are on and the next is off |
| Gating.FirstEnabled | src/FullFiles/NormalMapGenerator.cs:343-385 | The value chosen is that of the first enabled candidate in precedence order, or the default when none is enabled |
| OptimizedPipeline.FusedPassOf | src/FullFiles/NormalMapGenerator.cs:324-334 | Definition: the fused dispatch reads the source texture with `blurEdgesRadius`, that radius's kernel and the slope fraction, and takes S1 and S2 as its two switches |
| OptimizedPipeline.NormalsOf | src/FullFiles/NormalMapGenerator.cs:350-356 | Definition: `normRendTex` is the fast normal shader applied to the fused pass's blurred-source and distance surfaces with the edge strength, border strength and border softening |
| OptimizedPipeline.FinalBlurOf | src/FullFiles/NormalMapGenerator.cs:370-376 | Definition: `resultRendTex` is the fast Gaussian shader applied to `normRendTex` with `finalBlurRadius` and that radius's kernel |
| OptimizedPipeline.GenerateOptimized | src/FullFiles/NormalMapGenerator.cs:282-408 | Exactly one read-back happens; nothing is dispatched if and only if S1 and S2 are both off |
| OptimizedPipeline.OptimizedDispatchGating | src/FullFiles/NormalMapGenerator.cs:321-386 | The fused pass runs iff S1 ∨ S2, with S1 and S2 as its switches; the normal-map dispatch runs iff (S1 ∨ S2) ∧ S3; the final blur runs iff that holds and S4 is on; no other dispatches happen |
| OptimizedPipeline.OptimizedPrecedence | src/FullFiles/NormalMapGenerator.cs:319-391 | The surface read back is the first written one in the order final blur > normals > distance > blurred source; with none written it is the unwritten result texture |
| OptimizedPipeline.OptimizedStageInputs | src/FullFiles/NormalMapGenerator.cs:331-376 | The normal shader reads the blurred-source and distance surfaces of the same fused pass with the edge strength, border strength and softening of the settings. The final blur reads the normal surface with `finalBlurRadius` and its kernel |
| Variants.GenerateNormalMap | src/FullFiles/NormalMapGenerator.cs:64-115 | The optimized branch reads back once and always returns a read-back surface. The reference branch reads back once per dispatch and returns the source when S1 is off |
| Variants.ReferenceReturnsStageOutput | src/FullFiles/NormalMapGenerator.cs:76-107 | The reference result is the source or the output of the stage at the end of the enabled prefix; it is never an untouched render texture |
| Variants.OptimizedReturnsStageOutput | src/FullFiles/NormalMapGenerator.cs:319-391 | The optimized result is the read-back of the surface holding the classified stage's output, and never the source texture |
| Variants.ReferenceReturnsByToggles | src/FullFiles/NormalMapGenerator.cs:76-107 | Reference result by toggles: S1 off → source; else S2 off → blur; else S3 off → distance; else S4 off → normals; else final blur |
| Variants.OptimizedReturnsByToggles | src/FullFiles/NormalMapGenerator.cs:319-391 | Optimized result by toggles: S1 and S2 off → untouched; else S3 off → distance if S2 is on, otherwise blur; else S4 off → normals; else final blur |
| Variants.BranchesAgreeExactly | src/FullFiles/NormalMapGenerator.cs:319-391 | The branches return the same stage's output if and only if S1 is on and (S2 is on or S3 is off) |
| Variants.BranchesAgreeAllOn | src/FullFiles/NormalMapGenerator.cs:364-385 | With all four toggles on both branches return the final-blur output |
| Variants.BranchesAgreeStopAtDistance | src/FullFiles/NormalMapGenerator.cs:343-347 | With S1 and S2 on and S3 off both branches return the distance map, whatever S4 is |
| Variants.BranchesDivergeWithoutBlurOrDistance | src/FullFiles/NormalMapGenerator.cs:319-321 | With S1 and S2 off the reference returns the source texture, but the optimized branch dispatches nothing and reads back the never-written `resultRendTex`; the two outputs differ |
| Variants.BranchesDivergeDistanceOnly | src/FullFiles/NormalMapGenerator.cs:321-344 | With only S2 on the reference returns the source with no dispatch, while the optimized branch runs the fused pass with source blurring off and returns its distance surface |
| Variants.ZeroRadiusMeansNoBlur | src/FullFiles/NormalMapGenerator.cs:198-201 | At radius 0 the reference blur is skipped, for the edge blur and for the final blur. The optimized shaders receive the identity kernel `[1.0]` |
| Variants.ReferenceBlurKernelsNormalised | src/FullFiles/NormalMapGenerator.cs:207-212 | Every blur the reference dispatches with a positive radius carries a kernel of `(2r+1)²` positive entries summing to 1 |
| Variants.ReferenceBlurNegativeRadius | src/FullFiles/NormalMapGenerator.cs:198-212 | A negative radius is not skipped: the blur is dispatched once with a kernel of `(2r+1)²` zeros, whose sum is 0 |

## Left out

- Pixel arithmetic of the blur, distance-field and normal-map shaders. Those compute shaders are not part of this model, so each stage is an uninterpreted term constructor.
- Equality of the fused and fast shaders with the slow ones. Because of this, the branches are compared by which stage's output each returns, not pixel by pixel. Among the differences: the reference stages render into `ARGBFloat` textures (src/FullFiles/NormalMapGenerator.cs:124, :162, :203), while the optimized intermediates use `RenderTextureFormat.Default` with `sRGB = true` (:288-291); the slow normal shader receives `blurBorderRadius` and the fast one does not; the fused shader receives the slope fraction instead of the rounded distance. The optimized read-back goes into an explicit `RGBA32` texture (:392); the reference read-backs use `new Texture2D(width, height)` (:146, :182, :231), whose format the code does not state.
- Float evaluation of the Gaussian (`Mathf.Exp`, `Mathf.PI`, `Mathf.Pow` with `GAUSSIAN_WEIGHT`). This is the positive parameter `gauss`. An `exp` that underflows to zero, or a zero spread that gives infinities, is outside the model.
- Float rounding of `width * slopePercentageBorder`. The product is taken exactly in `real` before `Mathf.RoundToInt`.
- 32-bit overflow of `length * length` for very large radii.
- GPU and Unity plumbing: render-texture and buffer allocation, thread-group sizing, `ReadPixels`, and release/dispose calls. `normRendTex` is never released (src/FullFiles/NormalMapGenerator.cs:399-404); resource handling is outside the model.
- Contents of pooled and unwritten render textures. `srcBlurRendTex` and `distRendTex` come from the `RenderTexture.GetTemporary` pool (:296, :298), and `resultRendTex` is read back unwritten when S1 and S2 are off (:319, :391). Their contents need not be the same from call to call. The model treats every surface as determined by its term, so `ReadBack(Unwritten)`, or `Dist(pass)` of a pass with `doDistMap` off, stands for whatever such a texture holds.
- The toggles and `useOptimized` are serialized fields of the component. Here they are arguments.
- The `Update` polling loop and `_update` flag (src/FullFiles/NormalMapGenerator.cs:44-62): editor glue.
- src/FullFiles/NormalMapManager.cs and src/Cut_NormalMapManager.cs. These hold UI callbacks, the character list, the per-animation batch loop, persistence, and the benchmarking code with wall-clock timing and file output. None of them has algorithmic content in the pipeline.
