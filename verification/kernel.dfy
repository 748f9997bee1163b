/**
 * The square Gaussian convolution kernel shared by every blur pass.
 *
 * The kernel for a radius `r` is a flat, row-major sequence of side
 * `2r+1`; the entry at index `y * side + x` belongs to the offset
 * `(x - r, y - r)` from the centre. Each entry is the raw Gaussian weight
 * of the squared offset, divided by the sum of all raw weights.
 *
 * The floating-point Gaussian `(1 / 2πσ²) · exp(-d² / 2σ²)` is not
 * evaluated here: it is the parameter `gauss`, a function of the squared
 * offset `d²`, required to be strictly positive.
 */
module GaussianKernel {

  /** The raw weight function never yields zero or a negative weight. */
  ghost predicate PositiveWeights(gauss: nat -> real) {
    forall d: nat :: gauss(d) > 0.0
  }

  /** Number of cells along one side of the kernel (`length` in the source). */
  function Side(radius: int): int {
    2 * radius + 1
  }

  /**
   * Index of the first cell of row `y`: `y` full rows of `2r+1` cells come
   * before it. `RowStartIsProduct` shows that this is `y * (2r+1)`, the
   * `filterY * length` of the source.
   */
  function RowStart(radius: nat, y: nat): nat {
    if y == 0 then 0 else RowStart(radius, y - 1) + Side(radius)
  }

  /** `d` is an offset inside the window of the given radius. */
  predicate InWindow(radius: int, d: int) {
    -radius <= d <= radius
  }

  /** Squared Euclidean length of an offset. */
  function SquaredDistance(dx: int, dy: int): nat {
    Square(dx) + Square(dy)
  }

  /**
   * `n²`, as the sum of the first `|n|` odd numbers. Stating it without a
   * product keeps the kernel's definitions in linear arithmetic;
   * `SquareIsProduct` connects it to `n * n`.
   */
  function Square(n: int): nat
    decreases if n < 0 then 1 - n else n
  {
    if n < 0 then Square(-n) else if n == 0 then 0 else Square(n - 1) + 2 * n - 1
  }

  lemma {:induction false} SquareIsProduct(n: int)
    ensures Square(n) == n * n
    decreases if n < 0 then 1 - n else n
  {
    if n < 0 {
      SquareIsProduct(-n);
      assert (-n) * (-n) == n * n;
    } else if n > 0 {
      SquareIsProduct(n - 1);
      assert (n - 1) * (n - 1) + 2 * n - 1 == n * n;
    }
  }

  /** Sum of all entries. */
  function Sum(s: seq<real>): real {
    PrefixSum(s, |s|)
  }

  /** Sum of the first `k` entries, added left to right as the source accumulates `sumTotal`. */
  function PrefixSum(s: seq<real>, k: nat): real
    requires k <= |s|
  {
    if k == 0 then 0.0 else PrefixSum(s, k - 1) + s[k - 1]
  }

  /** Row `y` of the un-normalised weights: the offsets `(x - r, y - r)` for `0 <= x < 2r+1`. */
  function RawRow(gauss: nat -> real, radius: nat, y: int): (row: seq<real>)
    ensures |row| == Side(radius)
  {
    seq(Side(radius), x => gauss(SquaredDistance(x - radius, y - radius)))
  }

  /** The first `k` rows of un-normalised weights, one after another. */
  function RawRows(gauss: nat -> real, radius: nat, k: nat): seq<real> {
    if k == 0 then [] else RawRows(gauss, radius, k - 1) + RawRow(gauss, radius, k - 1)
  }

  /** The un-normalised weights, row by row. */
  function RawKernel(gauss: nat -> real, radius: nat): (raw: seq<real>)
    ensures |raw| == Side(radius) * Side(radius)
  {
    RawRowsLength(gauss, radius, Side(radius));
    RowStartIsProduct(radius, Side(radius));
    RawRows(gauss, radius, Side(radius))
  }

  /** Every entry of `s` divided by `total`. */
  function Scale(s: seq<real>, total: real): seq<real>
    requires total != 0.0
  {
    seq(|s|, i requires 0 <= i < |s| => s[i] / total)
  }

  /**
   * The kernel the source builds for `radius`. A negative radius is not
   * rejected by the source: its side `2r+1` is not positive, so neither
   * loop runs and the array of `(2r+1)²` entries keeps its zero
   * initialisation.
   */
  function KernelSpec(gauss: nat -> real, radius: int): seq<real>
    requires PositiveWeights(gauss)
  {
    if radius < 0 then
      seq(Side(radius) * Side(radius), _ => 0.0)
    else
      Scale(RawKernel(gauss, radius), Total(gauss, radius))
  }

  /** The sum of the raw weights (`sumTotal` after the first pass); never zero. */
  function Total(gauss: nat -> real, radius: nat): (total: real)
    requires PositiveWeights(gauss)
    ensures total > 0.0
  {
    RawSumPositive(gauss, radius);
    Sum(RawKernel(gauss, radius))
  }

  /** The weight a convolution reads for the offset `(dx, dy)`. */
  function Weight(kernel: seq<real>, radius: nat, dx: int, dy: int): real
    requires |kernel| == Side(radius) * Side(radius)
    requires InWindow(radius, dx) && InWindow(radius, dy)
  {
    GridIndex(radius, dx + radius, dy + radius);
    kernel[RowStart(radius, dy + radius) + dx + radius]
  }

  /** The weight of the offset `(x - r, y - r)` is the entry `RowStart(y) + x`. */
  lemma WeightAt(kernel: seq<real>, radius: nat, x: int, y: int)
    requires |kernel| == Side(radius) * Side(radius)
    requires 0 <= x < Side(radius) && 0 <= y < Side(radius)
    ensures RowStart(radius, y) + x < |kernel|
    ensures Weight(kernel, radius, x - radius, y - radius) == kernel[RowStart(radius, y) + x]
  {
    GridIndex(radius, x, y);
  }

  /**
   * Builds the kernel imperatively, as the source does: one nested pass
   * writing raw weights and accumulating their sum, then one nested pass
   * dividing every entry by that sum. The source's `float[]` is a sequence
   * updated one cell at a time.
   */
  method GetGaussianKernel(radius: int, gauss: nat -> real) returns (kernel: seq<real>)
    requires PositiveWeights(gauss)
    ensures kernel == KernelSpec(gauss, radius)
  {
    var length := Side(radius);
    kernel := seq(length * length, _ => 0.0);
    if radius < 0 {
      // Both loops of the source have the guard `0 < length`, which fails here.
      return;
    }
    var sumTotal;
    kernel, sumTotal := WriteRawWeights(kernel, radius, gauss);
    RawSumPositive(gauss, radius);
    kernel := DivideAll(kernel, radius, sumTotal);
  }

  /** First pass: every cell gets its raw weight, and `sumTotal` their sum. */
  method WriteRawWeights(zeros: seq<real>, radius: nat, gauss: nat -> real) returns (kernel: seq<real>, sumTotal: real)
    requires |zeros| == Side(radius) * Side(radius)
    ensures kernel == RawKernel(gauss, radius)
    ensures sumTotal == Sum(kernel)
  {
    var length := Side(radius);
    ghost var raw := RawKernel(gauss, radius);
    kernel := zeros;
    sumTotal := 0.0;
    var filterY := 0;
    while filterY < length
      invariant 0 <= filterY <= length
      invariant |kernel| == |raw|
      invariant RowStart(radius, filterY) <= |raw|
      invariant forall i :: 0 <= i < RowStart(radius, filterY) ==> kernel[i] == raw[i]
      invariant sumTotal == PrefixSum(raw, RowStart(radius, filterY))
    {
      kernel, sumTotal := WriteRawRow(kernel, radius, gauss, filterY, sumTotal, raw);
      filterY := filterY + 1;
    }
    RowStartIsProduct(radius, length);
  }

  /**
   * The inner loop of the first pass: writes the raw weights of row
   * `filterY` after the rows already written, adding each to `sumTotal`.
   */
  method WriteRawRow(before: seq<real>, radius: nat, gauss: nat -> real, filterY: nat, sumBefore: real,
                     ghost raw: seq<real>)
    returns (kernel: seq<real>, sumTotal: real)
    requires raw == RawKernel(gauss, radius)
    requires filterY < Side(radius) && |before| == |raw|
    requires RowStart(radius, filterY) <= |raw|
    requires forall i :: 0 <= i < RowStart(radius, filterY) ==> before[i] == raw[i]
    requires sumBefore == PrefixSum(raw, RowStart(radius, filterY))
    ensures |kernel| == |raw|
    ensures RowStart(radius, filterY + 1) <= |raw|
    ensures forall i :: 0 <= i < RowStart(radius, filterY + 1) ==> kernel[i] == raw[i]
    ensures sumTotal == PrefixSum(raw, RowStart(radius, filterY + 1))
  {
    var length := Side(radius);
    kernel, sumTotal := before, sumBefore;
    // `done` counts the cells already written: `RowStart(filterY) + filterX`.
    ghost var done := RowStart(radius, filterY);
    RawKernelEntry(gauss, radius, 0, filterY);
    var filterX := 0;
    while filterX < length
      invariant 0 <= filterX <= length
      invariant done == RowStart(radius, filterY) + filterX <= |raw| == |kernel|
      invariant forall i :: 0 <= i < done ==> kernel[i] == raw[i]
      invariant sumTotal == PrefixSum(raw, done)
    {
      var filterXOffset := filterX - radius;
      var filterYOffset := filterY - radius;
      var cell := filterY * length + filterX;
      assert cell == done by {
        GridIndex(radius, filterX, filterY);
      }
      assert done < |raw| && raw[done] == gauss(SquaredDistance(filterXOffset, filterYOffset)) by {
        RawKernelEntry(gauss, radius, filterX, filterY);
      }
      kernel := kernel[cell := gauss(SquaredDistance(filterXOffset, filterYOffset))];
      sumTotal := sumTotal + kernel[cell];
      done := done + 1;
      filterX := filterX + 1;
    }
  }

  /** Second pass: every cell is divided by `sumTotal`. */
  method DivideAll(raw: seq<real>, radius: nat, sumTotal: real) returns (kernel: seq<real>)
    requires |raw| == Side(radius) * Side(radius)
    requires sumTotal != 0.0
    ensures kernel == Scale(raw, sumTotal)
  {
    var length := Side(radius);
    kernel := raw;
    // `done` counts the cells already divided: `RowStart(y) + x`.
    ghost var done := 0;
    var y := 0;
    while y < length
      invariant 0 <= y <= length
      invariant done == RowStart(radius, y) <= |kernel| == |raw|
      invariant forall i :: 0 <= i < done ==> kernel[i] == raw[i] / sumTotal
      invariant forall i :: done <= i < |kernel| ==> kernel[i] == raw[i]
    {
      var x := 0;
      while x < length
        invariant 0 <= x <= length
        invariant done == RowStart(radius, y) + x <= |kernel| == |raw|
        invariant forall i :: 0 <= i < done ==> kernel[i] == raw[i] / sumTotal
        invariant forall i :: done <= i < |kernel| ==> kernel[i] == raw[i]
      {
        var cell := y * length + x;
        assert cell == done < |kernel| by {
          GridIndex(radius, x, y);
        }
        kernel := kernel[cell := kernel[cell] / sumTotal];
        done := done + 1;
        x := x + 1;
      }
      y := y + 1;
    }
    RowStartIsProduct(radius, length);
  }

  lemma {:induction false} RowStartIsProduct(radius: nat, y: nat)
    ensures RowStart(radius, y) == y * Side(radius)
  {
    if y > 0 {
      RowStartIsProduct(radius, y - 1);
    }
  }

  /** Row-major addressing of the square grid stays inside `[0, (2r+1)²)`. */
  lemma GridIndex(radius: nat, x: int, y: int)
    requires 0 <= x < Side(radius) && 0 <= y < Side(radius)
    ensures RowStart(radius, y) == y * Side(radius)
    ensures 0 <= y * Side(radius) + x < Side(radius) * Side(radius)
  {
    RowStartIsProduct(radius, y);
    GridBound(x, y, Side(radius));
  }

  lemma GridBound(x: int, y: int, n: int)
    requires 0 <= x < n && 0 <= y < n
    ensures 0 <= y * n + x < n * n
  {
    MulAtLeast(n - 1 - y, n);
    MulAtLeast(y, n);
  }

  /** `k` rows of `2r+1` weights each. */
  lemma {:induction false} RawRowsLength(gauss: nat -> real, radius: nat, k: nat)
    ensures |RawRows(gauss, radius, k)| == RowStart(radius, k)
  {
    if k > 0 {
      RawRowsLength(gauss, radius, k - 1);
    }
  }

  /** Within the first `k` rows, entry `x` of row `y` sits at `RowStart(y) + x`. */
  lemma {:induction false} RawRowsEntry(gauss: nat -> real, radius: nat, k: nat, x: int, y: int)
    requires 0 <= x < Side(radius) && 0 <= y < k
    ensures RowStart(radius, y) + x < |RawRows(gauss, radius, k)|
    ensures RawRows(gauss, radius, k)[RowStart(radius, y) + x] == RawRow(gauss, radius, y)[x]
  {
    RawRowsLength(gauss, radius, k - 1);
    if y < k - 1 {
      RawRowsEntry(gauss, radius, k - 1, x, y);
    }
  }

  /** The raw kernel at `RowStart(y) + x` is the raw weight of the offset `(x - r, y - r)`. */
  lemma RawKernelEntry(gauss: nat -> real, radius: nat, x: int, y: int)
    requires 0 <= x < Side(radius) && 0 <= y < Side(radius)
    ensures RowStart(radius, y) + x < |RawKernel(gauss, radius)|
    ensures RawKernel(gauss, radius)[RowStart(radius, y) + x] == gauss(SquaredDistance(x - radius, y - radius))
  {
    RawRowsEntry(gauss, radius, Side(radius), x, y);
  }

  /** Every entry of `s` is strictly positive. */
  predicate AllPositive(s: seq<real>) {
    forall i :: 0 <= i < |s| ==> s[i] > 0.0
  }

  lemma AllPositiveConcat(s: seq<real>, t: seq<real>)
    requires AllPositive(s) && AllPositive(t)
    ensures AllPositive(s + t)
  {
    forall i | 0 <= i < |s + t|
      ensures (s + t)[i] > 0.0
    {
      if i >= |s| {
        assert (s + t)[i] == t[i - |s|];
      }
    }
  }

  /** With positive raw weights, every raw entry of the first `k` rows is positive. */
  lemma {:induction false} RawRowsPositive(gauss: nat -> real, radius: nat, k: nat)
    requires PositiveWeights(gauss)
    ensures AllPositive(RawRows(gauss, radius, k))
  {
    if k > 0 {
      var row := RawRow(gauss, radius, k - 1);
      forall x | 0 <= x < |row|
        ensures row[x] > 0.0
      {
        assert row[x] == gauss(SquaredDistance(x - radius, k - 1 - radius));
      }
      RawRowsPositive(gauss, radius, k - 1);
      AllPositiveConcat(RawRows(gauss, radius, k - 1), row);
    }
  }

  /** A positive multiple of `n` is at least `n`; a non-negative one is non-negative. */
  lemma MulAtLeast(a: int, n: int)
    requires n > 0
    ensures a >= 1 ==> a * n >= n
    ensures a >= 0 ==> a * n >= 0
  {
  }

  lemma DivSelf(x: real)
    requires x != 0.0
    ensures x / x == 1.0
  {
  }

  lemma DivAdd(a: real, b: real, c: real)
    requires c != 0.0
    ensures a / c + b / c == (a + b) / c
  {
  }

  lemma DivPositive(a: real, b: real)
    requires a > 0.0 && b > 0.0
    ensures a / b > 0.0
  {
  }

  lemma SumSingleton(s: seq<real>)
    requires |s| == 1
    ensures Sum(s) == s[0]
  {
    assert PrefixSum(s, 0) == 0.0;
  }

  /** A non-empty prefix of positive reals has a positive sum. */
  lemma {:induction false} PrefixSumPositive(s: seq<real>, k: nat)
    requires 0 < k <= |s|
    requires AllPositive(s)
    ensures PrefixSum(s, k) > 0.0
  {
    if k > 1 {
      PrefixSumPositive(s, k - 1);
    }
  }

  /** A prefix of all-zero entries sums to zero. */
  lemma {:induction false} PrefixSumZero(s: seq<real>, k: nat)
    requires k <= |s|
    requires forall i :: 0 <= i < |s| ==> s[i] == 0.0
    ensures PrefixSum(s, k) == 0.0
  {
    if k > 0 {
      PrefixSumZero(s, k - 1);
    }
  }

  lemma RawSumPositive(gauss: nat -> real, radius: nat)
    requires PositiveWeights(gauss)
    ensures Sum(RawKernel(gauss, radius)) > 0.0
  {
    RawRowsPositive(gauss, radius, Side(radius));
    PrefixSumPositive(RawKernel(gauss, radius), |RawKernel(gauss, radius)|);
  }

  /** Dividing every entry by `total` divides every prefix sum by `total`. */
  lemma {:induction false} PrefixSumScale(s: seq<real>, total: real, k: nat)
    requires total != 0.0 && k <= |s|
    ensures PrefixSum(Scale(s, total), k) == PrefixSum(s, k) / total
  {
    if k > 0 {
      PrefixSumScale(s, total, k - 1);
      DivAdd(PrefixSum(s, k - 1), s[k - 1], total);
    }
  }

  /** Dividing every entry by `total` divides the sum by `total`. */
  lemma SumScale(s: seq<real>, total: real)
    requires total != 0.0
    ensures Sum(Scale(s, total)) == Sum(s) / total
  {
    PrefixSumScale(s, total, |s|);
  }

  /** The kernel has `(2r+1)²` entries, for every radius. */
  lemma KernelLength(gauss: nat -> real, radius: int)
    requires PositiveWeights(gauss)
    ensures |KernelSpec(gauss, radius)| == Side(radius) * Side(radius)
  {
  }

  /**
   * Index ↔ offset: the entry at `y * side + x` is the normalised weight of
   * the offset `(x - r, y - r)`.
   */
  lemma KernelEntry(gauss: nat -> real, radius: nat, x: int, y: int)
    requires PositiveWeights(gauss)
    requires 0 <= x < Side(radius) && 0 <= y < Side(radius)
    ensures RowStart(radius, y) + x < |KernelSpec(gauss, radius)|
    ensures KernelSpec(gauss, radius)[RowStart(radius, y) + x]
         == gauss(SquaredDistance(x - radius, y - radius)) / Total(gauss, radius)
  {
    RawKernelEntry(gauss, radius, x, y);
  }

  /**
   * The weight read for an offset is the raw weight of its squared length,
   * normalised; so it depends on the offset only through `dx² + dy²`.
   */
  lemma KernelWeightByDistance(gauss: nat -> real, radius: nat, dx: int, dy: int)
    requires PositiveWeights(gauss)
    requires InWindow(radius, dx) && InWindow(radius, dy)
    ensures Weight(KernelSpec(gauss, radius), radius, dx, dy)
         == gauss(SquaredDistance(dx, dy)) / Total(gauss, radius)
  {
    var x, y := dx + radius, dy + radius;
    KernelLength(gauss, radius);
    KernelEntry(gauss, radius, x, y);
    WeightAt(KernelSpec(gauss, radius), radius, x, y);
  }

  /** Mirroring the horizontal offset leaves the weight unchanged. */
  lemma KernelMirrorX(gauss: nat -> real, radius: nat, dx: int, dy: int)
    requires PositiveWeights(gauss)
    requires InWindow(radius, dx) && InWindow(radius, dy)
    ensures Weight(KernelSpec(gauss, radius), radius, -dx, dy) == Weight(KernelSpec(gauss, radius), radius, dx, dy)
  {
    assert Square(-dx) == Square(dx);
    KernelWeightByDistance(gauss, radius, dx, dy);
    KernelWeightByDistance(gauss, radius, -dx, dy);
  }

  /** Mirroring the vertical offset leaves the weight unchanged. */
  lemma KernelMirrorY(gauss: nat -> real, radius: nat, dx: int, dy: int)
    requires PositiveWeights(gauss)
    requires InWindow(radius, dx) && InWindow(radius, dy)
    ensures Weight(KernelSpec(gauss, radius), radius, dx, -dy) == Weight(KernelSpec(gauss, radius), radius, dx, dy)
  {
    assert Square(-dy) == Square(dy);
    KernelWeightByDistance(gauss, radius, dx, dy);
    KernelWeightByDistance(gauss, radius, dx, -dy);
  }

  /** Swapping the two axes leaves the weight unchanged. */
  lemma KernelTranspose(gauss: nat -> real, radius: nat, dx: int, dy: int)
    requires PositiveWeights(gauss)
    requires InWindow(radius, dx) && InWindow(radius, dy)
    ensures Weight(KernelSpec(gauss, radius), radius, dy, dx) == Weight(KernelSpec(gauss, radius), radius, dx, dy)
  {
    KernelWeightByDistance(gauss, radius, dx, dy);
    KernelWeightByDistance(gauss, radius, dy, dx);
  }

  /** With positive raw weights every normalised entry is positive. */
  lemma KernelPositive(gauss: nat -> real, radius: nat)
    requires PositiveWeights(gauss)
    ensures forall i :: 0 <= i < |KernelSpec(gauss, radius)| ==> KernelSpec(gauss, radius)[i] > 0.0
  {
    var raw, total := RawKernel(gauss, radius), Total(gauss, radius);
    RawRowsPositive(gauss, radius, Side(radius));
    forall i | 0 <= i < |raw|
      ensures Scale(raw, total)[i] > 0.0
    {
      DivPositive(raw[i], total);
    }
  }

  /** The normalised weights sum to exactly one. */
  lemma KernelNormalised(gauss: nat -> real, radius: nat)
    requires PositiveWeights(gauss)
    ensures Sum(KernelSpec(gauss, radius)) == 1.0
  {
    SumScale(RawKernel(gauss, radius), Total(gauss, radius));
    DivSelf(Total(gauss, radius));
  }

  /**
   * Radius zero gives the one-entry identity kernel. The radius is a
   * parameter known to be zero, rather than the literal `0`, so that callers
   * can pass the settings field they hold and the solver does not evaluate
   * the kernel's definitions at a literal.
   */
  lemma KernelRadiusZero(gauss: nat -> real, radius: int)
    requires PositiveWeights(gauss)
    requires radius == 0
    ensures KernelSpec(gauss, radius) == [1.0]
  {
    var raw := RawKernel(gauss, 0);
    RawKernelRadiusZero(gauss);
    var total := Total(gauss, 0);
    assert total == gauss(0) by {
      SumSingleton(raw);
    }
    assert Scale(raw, total)[0] == 1.0 by {
      DivSelf(total);
    }
  }

  /** For radius zero the only raw weight is that of the centre. */
  lemma RawKernelRadiusZero(gauss: nat -> real)
    ensures RawKernel(gauss, 0) == [gauss(0)]
  {
    var row := RawRow(gauss, 0, 0);
    assert row[0] == gauss(0) by {
      assert SquaredDistance(0, 0) == 0;
    }
    assert row == [gauss(0)];
    assert RawRows(gauss, 0, 1) == [] + row;
  }

  /** A negative radius gives `(2r+1)²` zero entries, which do not sum to one. */
  lemma KernelNegativeRadius(gauss: nat -> real, radius: int)
    requires PositiveWeights(gauss)
    requires radius < 0
    ensures |KernelSpec(gauss, radius)| == Side(radius) * Side(radius) > 0
    ensures forall i :: 0 <= i < |KernelSpec(gauss, radius)| ==> KernelSpec(gauss, radius)[i] == 0.0
  {
    assert Side(radius) < 0;
  }
}
