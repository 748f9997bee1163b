/**
 * The values the normal-map generator passes between its stages.
 *
 * The pixel arithmetic of every stage lives in compute shaders, so an
 * image is represented by the term that produced it: which shader ran, on
 * which inputs, with which parameters. Images with the same term are
 * treated as equal: the same dispatches on the same inputs. That is what
 * any implementation of those shaders would agree on for written
 * surfaces. A surface no dispatch filled (`Unwritten`, or one the fused
 * pass was told not to write) stands for whatever that texture, fresh or
 * taken from the pool of temporaries, happens to hold.
 */
module Images {

  /** A sprite texture handed in by the caller (`Texture2D`). */
  datatype Texture = Texture(id: nat, width: nat, height: nat)

  /** A CPU-readable image, as returned by a stage of the reference pipeline. */
  datatype Image =
    | Source(texture: Texture)
      // read back from the Gaussian blur shader run with this kernel
    | Blurred(input: Image, radius: int, kernel: seq<real>)
      // read back from the distance shader, `_distance` pixels
    | HeightMap(input: Image, distance: int)
      // read back from the normal-map shader
    | NormalMap(source: Image, heightMap: Image, normalStrength: int, bumpHeight: int, bumpBlur: int, softenBump: int)
      // the one read-back of the optimized pipeline
    | ReadBack(surface: Surface)

  /** The single dispatch of the fused blur-and-distance shader. */
  datatype FusedPass = FusedPass(
    source: Image,
    blurRadius: int,
    kernel: seq<real>,
    slopePercentageBorder: real,
    doSourceBlur: bool,
    doDistMap: bool)

  /** Contents of a GPU-resident render texture of the optimized pipeline. */
  datatype Surface =
      // created but never written by a dispatch
    | Unwritten
      // `srcBlurRendTex` after the fused pass
    | SrcBlur(pass: FusedPass)
      // `distRendTex` after the fused pass
    | Dist(pass: FusedPass)
      // `normRendTex` after the fast normal-map shader
    | Normals(srcBlur: Surface, distMap: Surface, edgeStrength: int, borderStrength: int, borderSoften: int)
      // `resultRendTex` after the fast Gaussian shader
    | FinalBlur(input: Surface, radius: int, kernel: seq<real>)

  /** `NormalMapSettings`: the parameters of one pipeline call. */
  datatype Settings = Settings(
    sourceTexture: Texture,
    strengthEdges: int,
    blurEdgesRadius: int,
    strengthBorder: int,
    blurBorderRadius: int,
    softenBorder: int,
    slopePercentageBorder: real,
    finalBlurRadius: int)

  /** The four stage switches `S1BlurSource` … `S4FinalBlur`. */
  datatype Toggles = Toggles(blurSource: bool, distMap: bool, normalMap: bool, finalBlur: bool)
  {
    /** The switches in stage order. */
    function AsSeq(): seq<bool> {
      [blurSource, distMap, normalMap, finalBlur]
    }
  }

  /** Stage toggles with exactly the first `k` stages switched on. */
  function UpTo(k: nat): (t: Toggles)
    ensures forall i :: 0 <= i < 4 ==> t.AsSeq()[i] == (i < k)
  {
    Toggles(k >= 1, k >= 2, k >= 3, k >= 4)
  }

  /** One compute-shader dispatch. */
  datatype Dispatch =
    | SlowGaussian(radius: int)
    | SlowDistance(distance: int)
    | SlowNormalMap
    | FusedBlurDist(doSourceBlur: bool, doDistMap: bool)
    | FastNormalMap
    | FastGaussian(radius: int)

  /**
   * What one pipeline call does: the image it returns, the dispatches it
   * makes in order, and how many times it copies a GPU surface back into
   * CPU memory.
   */
  datatype Run = Run(output: Image, dispatches: seq<Dispatch>, readbacks: nat)
}
