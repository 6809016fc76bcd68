/** `findTabletBox`: look for the tablet in a 160-pixel-wide copy of the frame.
    The copy is turned to gray, Sobel gradient magnitudes are taken, a
    summed-area table is built over them, and a grid of candidate rectangles
    (three aspect ratios, several widths and positions) is scored by mean
    edge strength. The first best-scoring rectangle is scaled back to overlay
    pixels. `Math.hypot` is the parameter `hypot`; only `hypot(a, b) >= 0` is used. */
module EdgeBox {
  import opened Common
  import opened Pixels

  // EDGE_SIZE, the width `W` of the analysis canvas, is 160. It is written out as a
  // literal (161 for the table's `W + 1`) so that every index stays linear arithmetic.

  /** The overlay canvas whose size the box is reported in. */
  datatype Overlay = Overlay(width: nat, height: nat)

  /** `cvs.height`: the frame's aspect kept, at least one row. */
  function AnalysisHeight(vw: nat, vh: nat): (h: nat)
    ensures h >= 1
    ensures 160 * vh >= Max(1, vw) ==> h * Max(1, vw) <= 160 * vh < (h + 1) * Max(1, vw)
    ensures 160 * vh < Max(1, vw) ==> h == 1
  {
    Max(1, (160 * vh) / Max(1, vw))
  }

  // ---------------------------------------------------------------- gray

  /** Luma of pixel `i` with weights 0.299, 0.587, 0.114. */
  function Luma(pix: seq<Byte>, i: nat): (v: real)
    requires 4 * i + 3 < |pix|
    ensures 0.0 <= v <= 255.0
  {
    0.299 * Sample(pix, i, 0) as real + 0.587 * Sample(pix, i, 1) as real + 0.114 * Sample(pix, i, 2) as real
  }

  /** The weights sum to one, so a pixel with equal channels keeps its level. */
  lemma LumaOfNeutral(pix: seq<Byte>, i: nat)
    requires 4 * i + 3 < |pix|
    requires Sample(pix, i, 0) == Sample(pix, i, 1) == Sample(pix, i, 2)
    ensures Luma(pix, i) == Sample(pix, i, 0) as real
  {
  }

  function GrayOf(pix: seq<Byte>, n: nat): (g: seq<real>)
    requires |pix| == 4 * n
    ensures |g| == n
  {
    seq(n, i requires 0 <= i < n => Luma(pix, i))
  }

  /** The gray pass: one luma per pixel, the alpha byte skipped by the cursor `p`. */
  method GrayFill(pix: seq<Byte>, n: nat) returns (gray: array<real>)
    requires |pix| == 4 * n
    ensures gray[..] == GrayOf(pix, n)
    ensures forall i :: 0 <= i < n ==> 0.0 <= gray[i] <= 255.0
  {
    gray := new real[n](_ => 0.0);
    var i, p := 0, 0;
    while i < n
      invariant 0 <= i <= n && p == 4 * i
      invariant forall j :: 0 <= j < i ==> gray[j] == Luma(pix, j)
    {
      var r := pix[p];
      var g := pix[p + 1];
      var b := pix[p + 2];
      p := p + 4;
      gray[i] := 0.299 * r as real + 0.587 * g as real + 0.114 * b as real;
      i := i + 1;
    }
  }

  // ---------------------------------------------------------------- Sobel

  const GxK: seq<real> := [-1.0, 0.0, 1.0, -2.0, 0.0, 2.0, -1.0, 0.0, 1.0]
  const GyK: seq<real> := [-1.0, -2.0, -1.0, 0.0, 0.0, 0.0, 1.0, 2.0, 1.0]

  predicate Interior(h: nat, x: int, y: int)
  {
    1 <= x < 160 - 1 && 1 <= y < h - 1
  }

  /** Row and column offsets of the window's neighbours, in the kernels' row-major order. */
  const RowOffset: seq<int> := [-1, -1, -1, 0, 0, 0, 1, 1, 1]
  const ColOffset: seq<int> := [-1, 0, 1, -1, 0, 1, -1, 0, 1]

  /** Neighbour `k` (row-major over the 3 x 3 window) of interior pixel (x, y). */
  function Tap(g: seq<real>, h: nat, x: nat, y: nat, k: nat): real
    requires |g| == 160 * h && Interior(h, x, y) && k < 9
  {
    g[(y + RowOffset[k]) * 160 + (x + ColOffset[k])]
  }

  /** The first `n` products of the window with kernel `kern`, added in window order. */
  function Conv(g: seq<real>, h: nat, x: nat, y: nat, kern: seq<real>, n: nat): real
    requires |g| == 160 * h && Interior(h, x, y) && |kern| == 9 && n <= 9
  {
    if n == 0 then 0.0 else Conv(g, h, x, y, kern, n - 1) + Tap(g, h, x, y, n - 1) * kern[n - 1]
  }

  /** Gradient magnitude at flat index `k`; the one-pixel border stays 0. */
  function MagAt(g: seq<real>, h: nat, hypot: (real, real) -> real, k: nat): real
    requires |g| == 160 * h && k < 160 * h
  {
    var x, y := k % 160, k / 160;
    if Interior(h, x, y) then hypot(Conv(g, h, x, y, GxK, 9), Conv(g, h, x, y, GyK, 9)) else 0.0
  }

  function Magnitudes(g: seq<real>, h: nat, hypot: (real, real) -> real): (m: seq<real>)
    requires |g| == 160 * h
    ensures |m| == 160 * h
  {
    seq(160 * h, k requires 0 <= k < 160 * h => MagAt(g, h, hypot, k))
  }

  /** Every magnitude is non-negative, and the border row and column are exactly 0. */
  lemma MagnitudesShape(g: seq<real>, h: nat, hypot: (real, real) -> real)
    requires |g| == 160 * h && HypotNonNeg(hypot)
    ensures forall k :: 0 <= k < 160 * h ==> Magnitudes(g, h, hypot)[k] >= 0.0
    ensures forall k :: 0 <= k < 160 * h && !Interior(h, k % 160, k / 160) ==> Magnitudes(g, h, hypot)[k] == 0.0
  {
  }

  /** Offsets (i, j) of the window are neighbour `3 (j + 1) + (i + 1)`, and adding its
      product extends the convolution by one term. */
  lemma TapAt(g: seq<real>, h: nat, x: nat, y: nat, j: int, i: int, k: nat)
    requires |g| == 160 * h && Interior(h, x, y) && -1 <= j <= 1 && -1 <= i <= 1
    requires k == 3 * (j + 1) + (i + 1)
    ensures 0 <= (y + j) * 160 + (x + i) < |g|
    ensures
      && Conv(g, h, x, y, GxK, k + 1) == Conv(g, h, x, y, GxK, k) + g[(y + j) * 160 + (x + i)] * GxK[k]
      && Conv(g, h, x, y, GyK, k + 1) == Conv(g, h, x, y, GyK, k) + g[(y + j) * 160 + (x + i)] * GyK[k]
  {
    assert RowOffset[k] == j && ColOffset[k] == i;
  }

  /** The 3 x 3 window of interior pixel (x, y) against both kernels, walked with the
      row offset `j`, the column offset `i` and the running kernel index `k`. */
  method Window(gray: array<real>, h: nat, x: nat, y: nat) returns (gx: real, gy: real)
    requires gray.Length == 160 * h && Interior(h, x, y)
    ensures gx == Conv(gray[..], h, x, y, GxK, 9) && gy == Conv(gray[..], h, x, y, GyK, 9)
  {
    ghost var g := gray[..];
    gx, gy := 0.0, 0.0;
    var k := 0;
    var j := -1;
    while j <= 1
      invariant -1 <= j <= 2 && k == 3 * (j + 1)
      invariant gx == Conv(g, h, x, y, GxK, k) && gy == Conv(g, h, x, y, GyK, k)
    {
      var i := -1;
      while i <= 1
        invariant -1 <= i <= 2 && k == 3 * (j + 1) + (i + 1)
        invariant gx == Conv(g, h, x, y, GxK, k) && gy == Conv(g, h, x, y, GyK, k)
      {
        TapAt(g, h, x, y, j, i, k);
        var v := gray[(y + j) * 160 + (x + i)];
        gx := gx + v * GxK[k];
        gy := gy + v * GyK[k];
        k := k + 1;
        i := i + 1;
      }
      j := j + 1;
    }
  }

  /** Entries of `s` before `upto` agree with `want`; the rest are still 0. */
  ghost predicate Filled(s: seq<real>, want: seq<real>, upto: int)
  {
    |s| == |want| && forall q :: 0 <= q < |s| ==> s[q] == if q < upto then want[q] else 0.0
  }

  lemma FilledStep(s: seq<real>, want: seq<real>, upto: nat)
    requires Filled(s, want, upto) && upto < |s|
    ensures Filled(s[upto := want[upto]], want, upto + 1)
  {
  }

  lemma FilledSkip(s: seq<real>, want: seq<real>, upto: nat)
    requires Filled(s, want, upto) && upto < |s| && want[upto] == 0.0
    ensures Filled(s, want, upto + 1)
  {
  }

  /** Magnitudes before flat position `upto` are written; the rest are still 0. */
  ghost predicate MagFilled(mag: array<real>, g: seq<real>, h: nat, hypot: (real, real) -> real, upto: int)
    requires |g| == 160 * h
    reads mag
  {
    Filled(mag[..], Magnitudes(g, h, hypot), upto)
  }

  lemma MagAtInterior(g: seq<real>, h: nat, hypot: (real, real) -> real, x: nat, y: nat)
    requires |g| == 160 * h && Interior(h, x, y)
    ensures y * 160 + x < 160 * h
    ensures Magnitudes(g, h, hypot)[y * 160 + x] == hypot(Conv(g, h, x, y, GxK, 9), Conv(g, h, x, y, GyK, 9))
  {
    assert (y * 160 + x) % 160 == x && (y * 160 + x) / 160 == y;
  }

  /** One interior row `y` of the Sobel pass, left to right. */
  method SobelRow(gray: array<real>, h: nat, hypot: (real, real) -> real, mag: array<real>, y: nat)
    requires gray.Length == 160 * h && 1 <= y < h - 1 && mag != gray
    requires MagFilled(mag, gray[..], h, hypot, y * 160 + 1)
    modifies mag
    ensures MagFilled(mag, gray[..], h, hypot, (y + 1) * 160 + 1)
  {
    ghost var want := Magnitudes(gray[..], h, hypot);
    var x := 1;
    while x < 160 - 1
      invariant 1 <= x <= 160 - 1
      invariant Filled(mag[..], want, y * 160 + x)
    {
      var gx, gy := Window(gray, h, x, y);
      MagAtInterior(gray[..], h, hypot, x, y);
      ghost var before := mag[..];
      mag[y * 160 + x] := hypot(gx, gy);
      assert mag[..] == before[y * 160 + x := want[y * 160 + x]];
      FilledStep(before, want, y * 160 + x);
      x := x + 1;
    }
    BorderPair(gray[..], h, hypot, y);
    FilledSkip(mag[..], want, y * 160 + 160 - 1);
    FilledSkip(mag[..], want, (y + 1) * 160);
  }

  /** The Sobel pass: the interior in row-major order over a zero-filled output. */
  method SobelMagnitudes(gray: array<real>, h: nat, hypot: (real, real) -> real) returns (mag: array<real>)
    requires gray.Length == 160 * h
    ensures mag[..] == Magnitudes(gray[..], h, hypot)
  {
    mag := new real[160 * h](_ => 0.0);
    var y := 1;
    while y < h - 1
      invariant 1 <= y && (h >= 2 ==> y <= h - 1)
      invariant MagFilled(mag, gray[..], h, hypot, y * 160 + 1)
    {
      SobelRow(gray, h, hypot, mag, y);
      y := y + 1;
    }
    forall q | 0 <= q < 160 * h && q >= y * 160 + 1 ensures Magnitudes(gray[..], h, hypot)[q] == 0.0 {
      assert q / 160 == h - 1;
    }
  }

  /** The last pixel of row `y` and the first of row `y + 1` lie on the border. */
  lemma BorderPair(g: seq<real>, h: nat, hypot: (real, real) -> real, y: nat)
    requires |g| == 160 * h && 1 <= y < h - 1
    ensures Magnitudes(g, h, hypot)[y * 160 + 160 - 1] == 0.0
    ensures Magnitudes(g, h, hypot)[(y + 1) * 160] == 0.0
  {
    assert (y * 160 + 160 - 1) % 160 == 160 - 1;
    assert ((y + 1) * 160) % 160 == 0;
  }

  // ---------------------------------------------------------------- summed-area table

  /** Sum of row `y` of `m` over columns `x0 .. x1 - 1`, left to right. */
  function RowRange(m: seq<real>, y: nat, x0: nat, x1: nat): real
    requires x0 <= x1 <= 160 && (y + 1) * 160 <= |m|
    decreases x1 - x0
  {
    if x1 == x0 then 0.0 else RowRange(m, y, x0, x1 - 1) + m[y * 160 + x1 - 1]
  }

  /** Sum of `m` over the block of columns `x0 .. x1 - 1` and rows `y0 .. y1 - 1`. */
  function BlockSum(m: seq<real>, h: nat, x0: nat, y0: nat, x1: nat, y1: nat): real
    requires |m| == 160 * h && x0 <= x1 <= 160 && y0 <= y1 <= h
    decreases y1 - y0
  {
    if y1 == y0 then 0.0 else BlockSum(m, h, x0, y0, x1, y1 - 1) + RowRange(m, y1 - 1, x0, x1)
  }

  /** The table `ii`: entry (x, y) of the 161 x (h + 1) grid sums the block above-left of it. */
  function Integral(m: seq<real>, h: nat): (ii: seq<real>)
    requires |m| == 160 * h
    ensures |ii| == 161 * (h + 1)
  {
    seq(161 * (h + 1), k requires 0 <= k < 161 * (h + 1) =>
      BlockSum(m, h, 0, 0, k % 161, k / 161))
  }

  lemma IntegralAt(m: seq<real>, h: nat, x: nat, y: nat)
    requires |m| == 160 * h && x <= 160 && y <= h
    ensures y * 161 + x < 161 * (h + 1)
    ensures Integral(m, h)[y * 161 + x] == BlockSum(m, h, 0, 0, x, y)
  {
    assert (y * 161 + x) % 161 == x && (y * 161 + x) / 161 == y;
  }

  lemma {:induction false} ZeroWidth(m: seq<real>, h: nat, y: nat)
    requires |m| == 160 * h && y <= h
    ensures BlockSum(m, h, 0, 0, 0, y) == 0.0
    decreases y
  {
    if y > 0 {
      ZeroWidth(m, h, y - 1);
    }
  }

  /** Entries of the table before flat position `upto` are final; the rest are still 0. */
  ghost predicate FilledUpTo(ii: array<real>, m: seq<real>, h: nat, upto: nat)
    requires |m| == 160 * h
    reads ii
  {
    ii.Length == 161 * (h + 1) &&
    forall q {:trigger ii[q]} :: 0 <= q < 161 * (h + 1) ==> ii[q] == if q < upto then Integral(m, h)[q] else 0.0
  }

  /** The entry above plus the running row total is the next entry of the table. */
  lemma TableStep(m: seq<real>, h: nat, x: nat, y: nat, above: real, row: real)
    requires |m| == 160 * h && 1 <= x <= 160 && 1 <= y <= h
    requires above == Integral(m, h)[(y - 1) * 161 + x]
    requires row == RowRange(m, y - 1, 0, x)
    ensures above + row == Integral(m, h)[y * 161 + x]
  {
    IntegralAt(m, h, x, y - 1);
    IntegralAt(m, h, x, y);
  }

  /** One row `y` of the table pass: the running total `row` of row `y - 1` of `mag`, and
      each entry the one above it plus that total. */
  method IntegralRow(mag: array<real>, h: nat, ii: array<real>, y: nat)
    requires mag.Length == 160 * h && 1 <= y <= h && ii != mag
    requires FilledUpTo(ii, mag[..], h, y * 161)
    modifies ii
    ensures FilledUpTo(ii, mag[..], h, (y + 1) * 161)
  {
    ghost var m := mag[..];
    ZeroWidth(m, h, y);
    IntegralAt(m, h, 0, y);
    var row := 0.0;
    var x := 1;
    while x <= 160
      invariant 1 <= x <= 160 + 1
      invariant row == RowRange(m, y - 1, 0, x - 1)
      invariant FilledUpTo(ii, m, h, y * 161 + x)
    {
      row := row + mag[(y - 1) * 160 + (x - 1)];
      var above := ii[(y - 1) * 161 + x];
      TableStep(m, h, x, y, above, row);
      ii[y * 161 + x] := above + row;
      x := x + 1;
    }
  }

  /** The table pass: a zero-filled 161 x (H + 1) table, filled row by row. */
  method IntegralTable(mag: array<real>, h: nat) returns (ii: array<real>)
    requires mag.Length == 160 * h
    ensures ii[..] == Integral(mag[..], h)
  {
    ii := new real[161 * (h + 1)](_ => 0.0);
    var y := 1;
    while y <= h
      invariant 1 <= y <= h + 1
      invariant FilledUpTo(ii, mag[..], h, y * 161)
    {
      IntegralRow(mag, h, ii, y);
      y := y + 1;
    }
  }

  /** `sumRect`: four table lookups. */
  function SumRect(ii: seq<real>, h: nat, x0: nat, y0: nat, x1: nat, y1: nat): real
    requires |ii| == 161 * (h + 1) && x0 <= x1 <= 160 && y0 <= y1 <= h
  {
    ii[y1 * 161 + x1] - ii[y0 * 161 + x1] - ii[y1 * 161 + x0] + ii[y0 * 161 + x0]
  }

  lemma {:induction false} RowRangeSplit(m: seq<real>, y: nat, x0: nat, x1: nat, x2: nat)
    requires x0 <= x1 <= x2 <= 160 && (y + 1) * 160 <= |m|
    ensures RowRange(m, y, x0, x2) == RowRange(m, y, x0, x1) + RowRange(m, y, x1, x2)
    decreases x2 - x1
  {
    if x2 > x1 {
      RowRangeSplit(m, y, x0, x1, x2 - 1);
    }
  }

  lemma {:induction false} ColumnSplit(m: seq<real>, h: nat, x0: nat, x1: nat, x2: nat, y0: nat, y1: nat)
    requires |m| == 160 * h && x0 <= x1 <= x2 <= 160 && y0 <= y1 <= h
    ensures BlockSum(m, h, x0, y0, x2, y1) == BlockSum(m, h, x0, y0, x1, y1) + BlockSum(m, h, x1, y0, x2, y1)
    decreases y1 - y0
  {
    if y1 > y0 {
      ColumnSplit(m, h, x0, x1, x2, y0, y1 - 1);
      RowRangeSplit(m, y1 - 1, x0, x1, x2);
    }
  }

  lemma {:induction false} RowSplit(m: seq<real>, h: nat, x0: nat, x1: nat, y0: nat, y1: nat, y2: nat)
    requires |m| == 160 * h && x0 <= x1 <= 160 && y0 <= y1 <= y2 <= h
    ensures BlockSum(m, h, x0, y0, x1, y2) == BlockSum(m, h, x0, y0, x1, y1) + BlockSum(m, h, x0, y1, x1, y2)
    decreases y2 - y1
  {
    if y2 > y1 {
      RowSplit(m, h, x0, x1, y0, y1, y2 - 1);
    }
  }

  /** Four lookups in the table give exactly the block sum of the rectangle. */
  lemma SumRectExact(m: seq<real>, h: nat, x0: nat, y0: nat, x1: nat, y1: nat)
    requires |m| == 160 * h && x0 <= x1 <= 160 && y0 <= y1 <= h
    ensures SumRect(Integral(m, h), h, x0, y0, x1, y1) == BlockSum(m, h, x0, y0, x1, y1)
  {
    var ii := Integral(m, h);
    IntegralAt(m, h, x1, y1);
    IntegralAt(m, h, x1, y0);
    IntegralAt(m, h, x0, y1);
    IntegralAt(m, h, x0, y0);
    var a, b := BlockSum(m, h, 0, 0, x1, y1), BlockSum(m, h, 0, 0, x1, y0);
    var c, d := BlockSum(m, h, 0, 0, x0, y1), BlockSum(m, h, 0, 0, x0, y0);
    assert SumRect(ii, h, x0, y0, x1, y1) == a - b - c + d;
    RowSplit(m, h, 0, x1, 0, y0, y1);
    RowSplit(m, h, 0, x0, 0, y0, y1);
    ColumnSplit(m, h, 0, x0, x1, y0, y1);
  }

  lemma {:induction false} BlockSumNonNeg(m: seq<real>, h: nat, x0: nat, y0: nat, x1: nat, y1: nat)
    requires |m| == 160 * h && x0 <= x1 <= 160 && y0 <= y1 <= h
    requires forall k :: 0 <= k < |m| ==> m[k] >= 0.0
    ensures BlockSum(m, h, x0, y0, x1, y1) >= 0.0
    decreases y1 - y0
  {
    if y1 > y0 {
      BlockSumNonNeg(m, h, x0, y0, x1, y1 - 1);
      RowRangeNonNeg(m, y1 - 1, x0, x1);
    }
  }

  lemma {:induction false} RowRangeNonNeg(m: seq<real>, y: nat, x0: nat, x1: nat)
    requires x0 <= x1 <= 160 && (y + 1) * 160 <= |m|
    requires forall k :: 0 <= k < |m| ==> m[k] >= 0.0
    ensures RowRange(m, y, x0, x1) >= 0.0
    decreases x1 - x0
  {
    if x1 > x0 {
      RowRangeNonNeg(m, y, x0, x1 - 1);
    }
  }

  // ---------------------------------------------------------------- grid search

  /** The aspect ratios tried, in this order. */
  const Aspects: seq<real> := [1.33, 1.5, 1.6]

  /** `Math.floor(w / ar)` for aspect number `ai`, computed exactly. */
  function HeightFor(ai: nat, w: nat): (h: nat)
    requires ai < |Aspects|
  {
    if ai == 0 then (100 * w) / 133 else if ai == 1 then (2 * w) / 3 else (5 * w) / 8
  }

  /** `HeightFor` is the floor of `w / ar`: the largest height whose `ar` multiple fits in `w`. */
  lemma HeightForIsFloor(ai: nat, w: nat)
    requires ai < |Aspects|
    ensures HeightFor(ai, w) as real * Aspects[ai] <= w as real < (HeightFor(ai, w) + 1) as real * Aspects[ai]
  {
    if ai == 0 {
      FloorRatio(w, 100, 133);
      assert Aspects[0] == 133 as real / 100 as real;
    } else if ai == 1 {
      FloorRatio(w, 2, 3);
      assert Aspects[1] == 3 as real / 2 as real;
    } else {
      FloorRatio(w, 5, 8);
      assert Aspects[2] == 8 as real / 5 as real;
    }
  }

  /** `(num * w) / den` is the floor of `w / (den / num)`. */
  lemma FloorRatio(w: nat, num: nat, den: nat)
    requires num > 0 && den > 0
    ensures var h := (num * w) / den; var r := den as real / num as real;
      h as real * r <= w as real < (h + 1) as real * r
  {
    var h := (num * w) / den;
    var r := den as real / num as real;
    assert h * den <= num * w < (h + 1) * den;
    assert (h * den) as real == h as real * den as real;
    assert ((h + 1) * den) as real == (h + 1) as real * den as real;
    assert (num * w) as real == num as real * w as real;
    assert h as real * r == h as real * den as real / num as real;
    assert (h + 1) as real * r == (h + 1) as real * den as real / num as real;
  }

  /** The width loop: from `floor(W * 0.45)` to `floor(W * 0.95)` in steps of `max(8, floor(W * 0.08))`. */
  const WidthFirst: nat := (160 * 45) / 100
  const WidthLast: nat := (160 * 95) / 100
  const WidthStep: nat := Max(8, (160 * 8) / 100)
  /** The x loop's step `max(6, floor(W * 0.06))`. */
  const XStep: nat := Max(6, (160 * 6) / 100)

  /** With W = 160 the widths tried are 72, 84, ..., 144 and x advances by 9. */
  lemma GridConstants()
    ensures WidthFirst == 72 && WidthLast == 152 && WidthStep == 12 && XStep == 9
  {
  }

  /** The y loop's step `max(6, floor(H * 0.06))`. */
  function StepY(h: nat): (s: nat)
    ensures s >= 6 && s * 100 <= Max(600, 6 * h)
  {
    Max(6, (h * 6) / 100)
  }

  /** `y` is one of 1, 1 + s, 1 + 2s, ...: a row the y loop visits. */
  predicate OnGrid(y: int, s: nat)
    decreases y
  {
    y == 1 || (s > 0 && y > 1 && OnGrid(y - s, s))
  }

  /** Two distinct grid rows are at least one step apart. */
  lemma {:induction false} GridGap(a: int, b: int, s: nat)
    requires s > 0 && OnGrid(a, s) && OnGrid(b, s) && a < b
    ensures a + s <= b
    decreases b
  {
    if a == 1 {
      assert OnGrid(b - s, s);
      GridFloor(b - s, s);
    } else if b - s > a {
      GridGap(a, b - s, s);
    } else if b - s < a {
      GridGap(b - s, a, s);
    }
  }

  /** The row after a grid row is a grid row. */
  lemma GridNext(y: int, s: nat)
    requires s > 0 && y >= 1 && OnGrid(y, s)
    ensures OnGrid(y + s, s)
  {
    assert y + s - s == y;
  }

  lemma {:induction false} GridFloor(y: int, s: nat)
    requires OnGrid(y, s)
    ensures y >= 1
    decreases y
  {
    if y != 1 {
      GridFloor(y - s, s);
    }
  }

  /** A column of the grid: aspect number `ai`, width step `kw` and x step `kx`. */
  datatype Col = Col(ai: nat, kw: nat, kx: nat)

  /** A grid candidate: a column and the row `y` of its top edge. */
  datatype Cand = Cand(col: Col, y: int)

  function CW(k: Col): nat { 72 + 12 * k.kw }
  function CX(k: Col): nat { 1 + 9 * k.kx }
  function CH(k: Col): nat
    requires k.ai < |Aspects|
  {
    HeightFor(k.ai, CW(k))
  }

  /** A column the loops scan: its height passes the `h < 16 || h > H` skip and it lies
      strictly inside the analysis image as the width and x loop guards demand. */
  predicate ValidCol(k: Col, h: nat)
  {
    k.ai < |Aspects| && CW(k) <= 152 && 16 <= CH(k) <= h && CX(k) + CW(k) < 160
  }

  /** A candidate the loops visit and score: a scanned column and a row of the y loop. */
  predicate Valid(c: Cand, h: nat)
  {
    ValidCol(c.col, h) && 1 <= c.y && OnGrid(c.y, StepY(h)) && c.y + CH(c.col) < h
  }

  /** Visiting order of the three outer loops. */
  predicate ColBefore(k: Col, l: Col)
  {
    k.ai < l.ai || (k.ai == l.ai && (k.kw < l.kw || (k.kw == l.kw && k.kx < l.kx)))
  }

  /** Visiting order of all four nested loops. */
  predicate Before(c: Cand, d: Cand)
  {
    ColBefore(c.col, d.col) || (c.col == d.col && c.y < d.y)
  }

  /** `best`: a score and a rectangle in analysis pixels. */
  datatype Pick = Pick(score: real, x: int, y: int, w: int, h: int)

  /** The start value `{score: -1, x: 0, y: 0, w: W, h: H}`: the whole analysis image. */
  function Initial(h: nat): Pick
  {
    Pick(-1.0, 0, 0, 160, h)
  }

  /** `total / (w * h)`: the mean over a `w` by `h` rectangle whose values sum to `total`. */
  function Mean(total: real, w: nat, hh: nat): real
    requires w >= 1 && hh >= 1
  {
    AreaPositive(w, hh);
    total / (w * hh) as real
  }

  lemma MeanNonNeg(total: real, w: nat, hh: nat)
    requires w >= 1 && hh >= 1 && total >= 0.0
    ensures Mean(total, w, hh) >= 0.0
  {
    AreaPositive(w, hh);
    var a := (w * hh) as real;
    assert total / a * a == total;
  }

  /** Mean edge strength over the candidate's rectangle. */
  function Score(m: seq<real>, h: nat, c: Cand): real
    requires |m| == 160 * h && Valid(c, h)
  {
    Mean(BlockSum(m, h, CX(c.col), c.y, CX(c.col) + CW(c.col), c.y + CH(c.col)), CW(c.col), CH(c.col))
  }

  lemma ScoreNonNeg(m: seq<real>, h: nat, c: Cand)
    requires |m| == 160 * h && Valid(c, h)
    requires forall k :: 0 <= k < |m| ==> m[k] >= 0.0
    ensures Score(m, h, c) >= 0.0
  {
    var k := c.col;
    BlockSumNonNeg(m, h, CX(k), c.y, CX(k) + CW(k), c.y + CH(k));
    MeanNonNeg(BlockSum(m, h, CX(k), c.y, CX(k) + CW(k), c.y + CH(k)), CW(k), CH(k));
  }

  /** The score of every candidate, as one function the search below is stated over;
      candidates the loops never score get 0. */
  ghost function Scores(m: seq<real>, h: nat): Cand -> real
    requires |m| == 160 * h
  {
    c => if Valid(c, h) then Score(m, h, c) else 0.0
  }

  // The search is stated for any score `sc` that is never negative on a valid candidate;
  // `Scores(m, h)` is the one `findTabletBox` uses.

  /** The pick a candidate makes: its score and its rectangle. */
  function PickOf(sc: Cand -> real, h: nat, c: Cand): Pick
    requires Valid(c, h)
  {
    Pick(sc(c), CX(c.col), c.y, CW(c.col), CH(c.col))
  }

  /** `b` has the highest score, and every candidate visited before it scores strictly less
      (the update only fires on `s > best.score`). */
  ghost predicate FirstMax(sc: Cand -> real, h: nat, b: Cand)
  {
    forall c :: Valid(c, h) ==> sc(c) <= sc(b) && (Before(c, b) ==> sc(c) < sc(b))
  }

  /** What the search returns: the start value when no candidate is valid, else the first maximum. */
  ghost predicate Chosen(sc: Cand -> real, h: nat, p: Pick)
  {
    || (p == Initial(h) && forall c :: !Valid(c, h))
    || (exists b :: Valid(b, h) && FirstMax(sc, h, b) && p == PickOf(sc, h, b))
  }

  /** The loop invariant: `best` is the first maximum among the candidates visited before `cur`. */
  ghost predicate Tracks(sc: Cand -> real, h: nat, best: Pick, which: Option<Cand>, cur: Cand)
  {
    match which
    case None => best == Initial(h) && forall c :: Valid(c, h) ==> !Before(c, cur)
    case Some(b) =>
      && Valid(b, h) && Before(b, cur) && best == PickOf(sc, h, b)
      && forall c :: Valid(c, h) && Before(c, cur) ==>
           sc(c) <= best.score && (Before(c, b) ==> sc(c) < best.score)
  }

  /** Moving the cursor past candidates that are all invalid keeps the invariant. */
  lemma Advance(sc: Cand -> real, h: nat, best: Pick, which: Option<Cand>, cur: Cand, next: Cand)
    requires Tracks(sc, h, best, which, cur)
    requires !Before(next, cur)
    requires forall c :: Valid(c, h) && Before(c, next) ==> Before(c, cur)
    ensures Tracks(sc, h, best, which, next)
  {
  }

  /** Scoring the candidate at the cursor and keeping it only when it is strictly better;
      the cursor then moves one y step on. */
  lemma Visit(sc: Cand -> real, h: nat, best: Pick, which: Option<Cand>, cur: Cand)
    requires Tracks(sc, h, best, which, cur) && Valid(cur, h) && sc(cur) >= 0.0
    ensures var next := Cand(cur.col, cur.y + StepY(h));
      if sc(cur) > best.score then Tracks(sc, h, PickOf(sc, h, cur), Some(cur), next)
      else Tracks(sc, h, best, which, next)
  {
    var next := Cand(cur.col, cur.y + StepY(h));
    forall c | Valid(c, h) && Before(c, next) && !Before(c, cur) ensures c == cur {
      if c.y > cur.y {
        GridGap(cur.y, c.y, StepY(h));
      }
    }
  }

  /** The y loop ends once `y + h >= H`; the later rows are lower still. */
  lemma NextColumn(sc: Cand -> real, h: nat, best: Pick, which: Option<Cand>, cur: Cand)
    requires Tracks(sc, h, best, which, cur) && cur.col.ai < |Aspects|
    requires cur.y + CH(cur.col) >= h
    ensures Tracks(sc, h, best, which, Cand(Col(cur.col.ai, cur.col.kw, cur.col.kx + 1), 1))
  {
    Advance(sc, h, best, which, cur, Cand(Col(cur.col.ai, cur.col.kw, cur.col.kx + 1), 1));
  }

  /** The x loop ends once `x + w >= W`, or never starts when the height is skipped. */
  lemma NextWidth(sc: Cand -> real, h: nat, best: Pick, which: Option<Cand>, k: Col)
    requires Tracks(sc, h, best, which, Cand(k, 1)) && k.ai < |Aspects|
    requires CH(k) < 16 || CH(k) > h || CX(k) + CW(k) >= 160
    ensures Tracks(sc, h, best, which, Cand(Col(k.ai, k.kw + 1, 0), 1))
  {
    Advance(sc, h, best, which, Cand(k, 1), Cand(Col(k.ai, k.kw + 1, 0), 1));
  }

  /** The width loop ends once `w > floor(W * 0.95)`. */
  lemma NextAspect(sc: Cand -> real, h: nat, best: Pick, which: Option<Cand>, k: Col)
    requires Tracks(sc, h, best, which, Cand(k, 1)) && k.kx == 0
    requires CW(k) > 152
    ensures Tracks(sc, h, best, which, Cand(Col(k.ai + 1, 0, 0), 1))
  {
    Advance(sc, h, best, which, Cand(k, 1), Cand(Col(k.ai + 1, 0, 0), 1));
  }

  /** After the last aspect every valid candidate has been visited. */
  lemma Finish(sc: Cand -> real, h: nat, best: Pick, which: Option<Cand>)
    requires Tracks(sc, h, best, which, Cand(Col(|Aspects|, 0, 0), 1))
    ensures Chosen(sc, h, best)
  {
    if which.Some? {
      var b := which.value;
      assert FirstMax(sc, h, b);
    }
  }

  /** Exactly one result is chosen: the first maximum is unique. */
  lemma ChosenUnique(sc: Cand -> real, h: nat, p: Pick, q: Pick)
    requires Chosen(sc, h, p) && Chosen(sc, h, q)
    ensures p == q
  {
    if p != Initial(h) || q != Initial(h) {
      var b :| Valid(b, h) && FirstMax(sc, h, b) && p == PickOf(sc, h, b);
      var d :| Valid(d, h) && FirstMax(sc, h, d) && q == PickOf(sc, h, d);
    }
  }

  /** The chosen rectangle lies inside the analysis image and is not empty. */
  lemma ChosenFits(sc: Cand -> real, h: nat, p: Pick)
    requires h >= 1 && Chosen(sc, h, p)
    ensures 0 <= p.x < 160 && 1 <= p.w && p.x + p.w <= 160
    ensures 0 <= p.y < h && 1 <= p.h && p.y + p.h <= h
  {
  }

  /** `sumRect(x, y, x + w, y + h) / (w * h)`: the mean over a rectangle, from the table. */
  function MeanAt(ii: seq<real>, h: nat, x: nat, y: nat, w: nat, hh: nat): real
    requires |ii| == 161 * (h + 1) && x + w <= 160 && y + hh <= h && w >= 1 && hh >= 1
  {
    Mean(SumRect(ii, h, x, y, x + w, y + hh), w, hh)
  }

  lemma AreaPositive(w: nat, hh: nat)
    requires w >= 1 && hh >= 1
    ensures w * hh >= 1
  {
    assert w * hh == w * (hh - 1) + w;
  }

  /** What the y loop needs of the table: the mean it reads for a valid candidate is that
      candidate's score, which is never negative. */
  ghost predicate ReadsScores(ii: seq<real>, h: nat, sc: Cand -> real)
  {
    && |ii| == 161 * (h + 1)
    && forall c {:trigger MeanAt(ii, h, CX(c.col), c.y, CW(c.col), CH(c.col))} ::
         Valid(c, h) ==> sc(c) >= 0.0 && MeanAt(ii, h, CX(c.col), c.y, CW(c.col), CH(c.col)) == sc(c)
  }

  lemma ReadScore(ii: seq<real>, h: nat, sc: Cand -> real, c: Cand)
    requires ReadsScores(ii, h, sc) && Valid(c, h)
    ensures sc(c) >= 0.0 && MeanAt(ii, h, CX(c.col), c.y, CW(c.col), CH(c.col)) == sc(c)
  {
  }

  /** For one candidate: the mean read from the table is its score, never negative. */
  lemma TableReadsScore(m: seq<real>, h: nat, c: Cand)
    requires |m| == 160 * h && forall k :: 0 <= k < |m| ==> m[k] >= 0.0
    requires Valid(c, h)
    ensures Score(m, h, c) >= 0.0
    ensures MeanAt(Integral(m, h), h, CX(c.col), c.y, CW(c.col), CH(c.col)) == Score(m, h, c)
  {
    var k := c.col;
    ScoreNonNeg(m, h, c);
    SumRectExact(m, h, CX(k), c.y, CX(k) + CW(k), c.y + CH(k));
  }

  /** The summed-area table of non-negative magnitudes reads the mean-edge scores. */
  lemma TableReadsScores(m: seq<real>, h: nat)
    requires |m| == 160 * h && forall k :: 0 <= k < |m| ==> m[k] >= 0.0
    ensures ReadsScores(Integral(m, h), h, Scores(m, h))
  {
    forall c | Valid(c, h)
      ensures Scores(m, h)(c) >= 0.0 && MeanAt(Integral(m, h), h, CX(c.col), c.y, CW(c.col), CH(c.col)) == Scores(m, h)(c)
    {
      TableReadsScore(m, h, c);
    }
  }

  /** One pass of the y loop: score the rectangle at row `y` through `sumRect` and keep it
      when it is strictly better than `best`. */
  method ScoreRow(ii: seq<real>, h: nat, ghost sc: Cand -> real, ghost k: Col,
                  w: nat, hh: nat, x: nat, y: nat, best0: Pick, ghost which0: Option<Cand>)
    returns (best: Pick, ghost which: Option<Cand>)
    requires ReadsScores(ii, h, sc) && ValidCol(k, h)
    requires w == CW(k) && hh == CH(k) && x == CX(k)
    requires 1 <= y && OnGrid(y, StepY(h)) && y + hh < h
    requires Tracks(sc, h, best0, which0, Cand(k, y))
    ensures Tracks(sc, h, best, which, Cand(k, y + StepY(h)))
  {
    ghost var cur := Cand(k, y);
    ReadScore(ii, h, sc, cur);
    var s := MeanAt(ii, h, x, y, w, hh);
    Visit(sc, h, best0, which0, cur);
    if s > best0.score {
      best, which := Pick(s, x, y, w, hh), Some(cur);
    } else {
      best, which := best0, which0;
    }
  }

  /** The innermost loop: every row `y` of one column `x` for width `w` and height `hh`. */
  method ScanColumn(ii: seq<real>, h: nat, ghost sc: Cand -> real, ghost k: Col,
                    w: nat, hh: nat, x: nat, best0: Pick, ghost which0: Option<Cand>)
    returns (best: Pick, ghost which: Option<Cand>)
    requires ReadsScores(ii, h, sc) && ValidCol(k, h)
    requires w == CW(k) && hh == CH(k) && x == CX(k)
    requires Tracks(sc, h, best0, which0, Cand(k, 1))
    ensures Tracks(sc, h, best, which, Cand(Col(k.ai, k.kw, k.kx + 1), 1))
  {
    best, which := best0, which0;
    var y := 1;
    while y + hh < h
      invariant 1 <= y && OnGrid(y, StepY(h)) && Tracks(sc, h, best, which, Cand(k, y))
    {
      best, which := ScoreRow(ii, h, sc, k, w, hh, x, y, best, which);
      GridNext(y, StepY(h));
      y := y + StepY(h);
    }
    NextColumn(sc, h, best, which, Cand(k, y));
  }

  /** The four nested loops over aspect, width, x and y, keeping the first strictly best mean. */
  method SearchBest(ii: array<real>, h: nat, ghost sc: Cand -> real) returns (best: Pick)
    requires ReadsScores(ii[..], h, sc)
    ensures Chosen(sc, h, best)
  {
    GridConstants();
    best := Initial(h);
    ghost var which: Option<Cand> := None;
    var ai := 0;
    while ai < |Aspects|
      invariant 0 <= ai <= |Aspects| && Tracks(sc, h, best, which, Cand(Col(ai, 0, 0), 1))
    {
      var w := WidthFirst;
      ghost var kw := 0;
      while w <= WidthLast
        invariant w == CW(Col(ai, kw, 0)) && Tracks(sc, h, best, which, Cand(Col(ai, kw, 0), 1))
      {
        var hh := HeightFor(ai, w);
        if hh < 16 || hh > h {
          NextWidth(sc, h, best, which, Col(ai, kw, 0));
        } else {
          var x := 1;
          ghost var kx := 0;
          while x + w < 160
            invariant x == CX(Col(ai, kw, kx)) && Tracks(sc, h, best, which, Cand(Col(ai, kw, kx), 1))
          {
            best, which := ScanColumn(ii[..], h, sc, Col(ai, kw, kx), w, hh, x, best, which);
            x := x + XStep;
            kx := kx + 1;
          }
          NextWidth(sc, h, best, which, Col(ai, kw, kx));
        }
        w := w + WidthStep;
        kw := kw + 1;
      }
      NextAspect(sc, h, best, which, Col(ai, kw, 0));
      ai := ai + 1;
    }
    Finish(sc, h, best, which);
  }

  // ---------------------------------------------------------------- result

  /** `Math.max(lo, Math.floor(v * (size / n)))`, computed exactly (`n > 0`, so the
      Euclidean quotient is the floor). */
  function Rescale(v: int, size: nat, n: nat, lo: int): int
    requires n >= 1
  {
    Max(lo, (v * size) / n)
  }

  lemma DivSum(p: nat, q: nat, n: nat)
    requires n >= 1
    ensures p / n + q / n <= (p + q) / n
  {
    var a, b := p / n, q / n;
    assert a * n + p % n == p && b * n + q % n == q;
    assert (a + b) * n == a * n + b * n;
    DivAtLeast(p + q, n, a + b);
  }

  lemma DivAtLeast(p: nat, n: nat, k: nat)
    requires n >= 1 && k * n <= p
    ensures k <= p / n
  {
    var d := p / n;
    assert p == d * n + p % n && p % n < n;
    assert (d + 1) * n == d * n + n;
    MulCancel(k, d + 1, n);
  }

  lemma MulCancel(a: nat, b: nat, c: nat)
    requires a * c < b * c
    ensures a < b
  {
    if a >= b {
      MulMono(b, a, c);
    }
  }

  lemma DivBelow(p: nat, n: nat, k: nat)
    requires n >= 1 && p < k * n
    ensures p / n < k
  {
  }

  lemma MulMono(a: nat, b: nat, c: nat)
    requires a <= b
    ensures a * c <= b * c
  {
    assert b * c == a * c + (b - a) * c;
  }

  /** A segment `[v, v + len)` inside `[0, n)` lands inside `[0, size)` once rescaled. */
  lemma RescaleFits(v: nat, len: nat, size: nat, n: nat)
    requires n >= 1 && size >= 1 && len >= 1 && v + len <= n
    ensures 0 <= Rescale(v, size, n, 0) && 1 <= Rescale(len, size, n, 1)
    ensures Rescale(v, size, n, 0) + Rescale(len, size, n, 1) <= size
  {
    var p, q := v * size, len * size;
    assert p + q == (v + len) * size;
    MulMono(v + len, n, size);
    DivSum(p, q, n);
    DivBelow(p + q, n, size + 1);
    MulMono(v + 1, n, size);
    assert p < (v + 1) * size;
    DivBelow(p, n, size);
  }

  /** The reported box: the chosen rectangle scaled by `vw / W` and `vh / H`, its corner
      clamped to at least 0 and its extents to at least 1 whatever the overlay. */
  function ScaleBack(p: Pick, o: Overlay, h: nat): (b: Box)
    requires h >= 1
    ensures 0 <= b.x && 0 <= b.y && 1 <= b.w && 1 <= b.h
  {
    Box(Rescale(p.x, o.width, 160, 0), Rescale(p.y, o.height, h, 0),
        Rescale(p.w, o.width, 160, 1), Rescale(p.h, o.height, h, 1))
  }

  /** A non-empty box lying within the overlay. */
  predicate Inside(b: Box, o: Overlay)
  {
    0 <= b.x && 0 <= b.y && 1 <= b.w && 1 <= b.h && b.x + b.w <= o.width && b.y + b.h <= o.height
  }

  /** A chosen rectangle, scaled back, lies within a non-empty overlay. */
  lemma ScaleBackInside(sc: Cand -> real, h: nat, p: Pick, o: Overlay)
    requires h >= 1 && Chosen(sc, h, p) && o.width >= 1 && o.height >= 1
    ensures Inside(ScaleBack(p, o, h), o)
  {
    ChosenFits(sc, h, p);
    RescaleFits(p.x, p.w, o.width, 160);
    RescaleFits(p.y, p.h, o.height, h);
  }

  /** The edge-magnitude image of a frame drawn at 160 x `h`. */
  function Edges(frame: seq<Byte>, h: nat, hypot: (real, real) -> real): (m: seq<real>)
    requires |frame| == 4 * (160 * h)
    ensures |m| == 160 * h
  {
    Magnitudes(GrayOf(frame, 160 * h), h, hypot)
  }

  /** `findTabletBox(videoEl, overlay)`: no overlay, no box; otherwise the first best
      rectangle of the grid search over the frame `frame` (the video drawn at 160 x H, as
      `getImageData` returns it), scaled back to overlay pixels. */
  method FindTabletBox(overlay: Option<Overlay>, frame: seq<Byte>, hypot: (real, real) -> real)
    returns (box: Option<Box>)
    requires HypotNonNeg(hypot)
    requires overlay.Some? ==> |frame| == 4 * (160 * AnalysisHeight(overlay.value.width, overlay.value.height))
    ensures box.Some? <==> overlay.Some?
    ensures box.Some? ==> 0 <= box.value.x && 0 <= box.value.y && 1 <= box.value.w && 1 <= box.value.h
    ensures overlay.Some? ==>
      var o := overlay.value;
      var h := AnalysisHeight(o.width, o.height);
      exists p :: Chosen(Scores(Edges(frame, h, hypot), h), h, p) && box == Some(ScaleBack(p, o, h))
    ensures overlay.Some? && overlay.value.width >= 1 && overlay.value.height >= 1 ==>
      Inside(box.value, overlay.value)
  {
    if overlay.None? {
      return None;
    }
    var o := overlay.value;
    var h := AnalysisHeight(o.width, o.height);
    var gray := GrayFill(frame, 160 * h);
    var mag := SobelMagnitudes(gray, h, hypot);
    ghost var m := mag[..];
    assert m == Edges(frame, h, hypot);
    MagnitudesShape(gray[..], h, hypot);
    var ii := IntegralTable(mag, h);
    TableReadsScores(m, h);
    var best := SearchBest(ii, h, Scores(m, h));
    box := Some(ScaleBack(best, o, h));
    if o.width >= 1 && o.height >= 1 {
      ScaleBackInside(Scores(m, h), h, best, o);
    }
  }
}
