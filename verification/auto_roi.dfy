/** The automatic-ROI pipeline: quadrilaterals found in the frame are
    filtered and ranked by area, each is put in corner order, normalised
    into a channel-first ImageNet tensor, classified, smoothed per slot with
    an exponential moving average and read out with a confidence threshold.
    Contour extraction, polygon approximation and convexity come from
    OpenCV and enter as data; `Math.hypot` and `Math.exp` are parameters. */
module AutoRoi {
  import opened Common
  import opened Pixels
  import opened Probability
  import opened Sorting

  const InputSize: nat := 224
  /** TEMP: logits are divided by it before the softmax. */
  const Temp: real := 1.5
  /** EMA_ALPHA: the weight kept by the running average. */
  const EmaAlpha: real := 0.7
  /** CONF_THRESH: a smoothed probability at least this high is shown as confident. */
  const ConfThresh: real := 0.75
  /** At most this many quadrilaterals are classified per tick. */
  const MaxRois: nat := 4

  // ---------------------------------------------------------------- softmax with temperature

  /** `softmaxWithT(logits, T)`: the stable softmax of `logits / T`. */
  function SoftmaxWithT(logits: seq<real>, t: real, exp: real -> real): (p: seq<real>)
    requires t > 0.0 && PositiveExp(exp)
    ensures |p| == |logits|
    ensures forall i :: 0 <= i < |p| ==> 0.0 < p[i] <= 1.0
    ensures |p| > 0 ==> Sum(p) == 1.0
  {
    Softmax(Tempered(logits, t), exp)
  }

  /** A positive temperature never reorders the classes. */
  lemma SoftmaxWithTKeepsOrder(logits: seq<real>, t: real, exp: real -> real, i: nat, j: nat)
    requires t > 0.0 && PositiveExp(exp) && IncreasingExp(exp)
    requires i < |logits| && j < |logits|
    ensures logits[i] <= logits[j] <==> SoftmaxWithT(logits, t, exp)[i] <= SoftmaxWithT(logits, t, exp)[j]
  {
    TemperedKeepsOrder(logits, t, i, j);
    SoftmaxKeepsOrder(Tempered(logits, t), exp, i, j);
  }

  // ---------------------------------------------------------------- corner order

  /** An integer vertex as read by `approx.intPtr(j)`. */
  datatype Point = Point(x: int, y: int)

  /** `s.indexOf(Math.min(...s))`: the first index holding the minimum. */
  function IndexOfMin(s: seq<int>): (i: nat)
    requires |s| > 0
    ensures i < |s|
    ensures forall j :: 0 <= j < |s| ==> s[i] <= s[j]
    ensures forall j :: 0 <= j < i ==> s[i] < s[j]
  {
    if |s| == 1 then 0
    else
      var k := IndexOfMin(s[..|s| - 1]);
      if s[|s| - 1] < s[k] then |s| - 1 else k
  }

  /** `s.indexOf(Math.max(...s))`: the first index holding the maximum. */
  function IndexOfMax(s: seq<int>): (i: nat)
    requires |s| > 0
    ensures i < |s|
    ensures forall j :: 0 <= j < |s| ==> s[j] <= s[i]
    ensures forall j :: 0 <= j < i ==> s[j] < s[i]
  {
    if |s| == 1 then 0
    else
      var k := IndexOfMax(s[..|s| - 1]);
      if s[|s| - 1] > s[k] then |s| - 1 else k
  }

  /** `pts.map(p => p.x + p.y)` */
  function Sums(pts: seq<Point>): (s: seq<int>)
    ensures |s| == |pts|
  {
    seq(|pts|, i requires 0 <= i < |pts| => pts[i].x + pts[i].y)
  }

  /** `pts.map(p => p.x - p.y)` */
  function Diffs(pts: seq<Point>): (d: seq<int>)
    ensures |d| == |pts|
  {
    seq(|pts|, i requires 0 <= i < |pts| => pts[i].x - pts[i].y)
  }

  /** `orderQuad` as written: `[tl, tr, br, bl]` with `tr` the first point of least
      `x - y` and `bl` the first point of greatest `x - y`. This is the order the tick's
      perspective warp receives. */
  function OrderQuadAsWritten(pts: seq<Point>): (r: seq<Point>)
    requires |pts| > 0
    ensures |r| == 4 && forall k :: 0 <= k < 4 ==> r[k] in pts
  {
    [pts[IndexOfMin(Sums(pts))], pts[IndexOfMin(Diffs(pts))],
     pts[IndexOfMax(Sums(pts))], pts[IndexOfMax(Diffs(pts))]]
  }

  /** Corner order `[tl, tr, br, bl]` in image coordinates (y grows downwards): top-left
      has the least `x + y`, bottom-right the greatest, top-right the greatest `x - y` and
      bottom-left the least. This is the order the warp's destination corners call for. */
  function OrderQuad(pts: seq<Point>): (r: seq<Point>)
    requires |pts| > 0
    ensures |r| == 4 && forall k :: 0 <= k < 4 ==> r[k] in pts
  {
    [pts[IndexOfMin(Sums(pts))], pts[IndexOfMax(Diffs(pts))],
     pts[IndexOfMax(Sums(pts))], pts[IndexOfMin(Diffs(pts))]]
  }

  /** `c` is the first of `pts` to reach the least value of `f`. */
  ghost predicate FirstLeast(pts: seq<Point>, f: Point -> int, c: Point)
  {
    && (forall p :: p in pts ==> f(c) <= f(p))
    && exists i :: 0 <= i < |pts| && pts[i] == c && forall j :: 0 <= j < i ==> f(c) < f(pts[j])
  }

  /** `c` is the first of `pts` to reach the greatest value of `f`. */
  ghost predicate FirstGreatest(pts: seq<Point>, f: Point -> int, c: Point)
  {
    && (forall p :: p in pts ==> f(p) <= f(c))
    && exists i :: 0 <= i < |pts| && pts[i] == c && forall j :: 0 <= j < i ==> f(pts[j]) < f(c)
  }

  function SumOf(p: Point): int { p.x + p.y }

  function DiffOf(p: Point): int { p.x - p.y }

  /** `pts[s.indexOf(Math.min(...s))]` is the first point of least `f`, and likewise for the greatest. */
  lemma IndexedExtremes(pts: seq<Point>, s: seq<int>, f: Point -> int)
    requires |pts| > 0 && |s| == |pts|
    requires forall i :: 0 <= i < |pts| ==> s[i] == f(pts[i])
    ensures FirstLeast(pts, f, pts[IndexOfMin(s)])
    ensures FirstGreatest(pts, f, pts[IndexOfMax(s)])
  {
    var a, b := IndexOfMin(s), IndexOfMax(s);
    forall p | p in pts ensures f(pts[a]) <= f(p) && f(p) <= f(pts[b]) {
      var j :| 0 <= j < |pts| && pts[j] == p;
      assert s[a] <= s[j] <= s[b];
    }
    forall j | 0 <= j < a ensures f(pts[a]) < f(pts[j]) {
      assert s[a] < s[j];
    }
    forall j | 0 <= j < b ensures f(pts[j]) < f(pts[b]) {
      assert s[j] < s[b];
    }
  }

  /** `orderQuad` as written: `tl` and `br` are the first points of least and greatest
      `x + y`, while `tr` is the first point of least `x - y` and `bl` the first of greatest. */
  lemma OrderQuadAsWrittenCorners(pts: seq<Point>)
    requires |pts| > 0
    ensures var r := OrderQuadAsWritten(pts);
      && FirstLeast(pts, SumOf, r[0]) && FirstGreatest(pts, SumOf, r[2])
      && FirstLeast(pts, DiffOf, r[1]) && FirstGreatest(pts, DiffOf, r[3])
  {
    IndexedExtremes(pts, Sums(pts), SumOf);
    IndexedExtremes(pts, Diffs(pts), DiffOf);
  }

  /** The corrected order: `tl` and `br` as before, `tr` the first point of greatest
      `x - y` and `bl` the first of least. */
  lemma OrderQuadCorners(pts: seq<Point>)
    requires |pts| > 0
    ensures var r := OrderQuad(pts);
      && FirstLeast(pts, SumOf, r[0]) && FirstGreatest(pts, SumOf, r[2])
      && FirstGreatest(pts, DiffOf, r[1]) && FirstLeast(pts, DiffOf, r[3])
  {
    IndexedExtremes(pts, Sums(pts), SumOf);
    IndexedExtremes(pts, Diffs(pts), DiffOf);
  }

  /** The corners of an upright rectangle `x0 < x1`, `y0 < y1` in `[tl, tr, br, bl]` order. */
  function Upright(x0: int, y0: int, x1: int, y1: int): seq<Point>
  {
    [Point(x0, y0), Point(x1, y0), Point(x1, y1), Point(x0, y1)]
  }

  /** Four points that are the corners of an upright rectangle in some order. */
  ghost predicate IsUpright(pts: seq<Point>, x0: int, y0: int, x1: int, y1: int)
  {
    x0 < x1 && y0 < y1 && |pts| == 4 && multiset(pts) == multiset(Upright(x0, y0, x1, y1))
  }

  lemma UprightPoints(pts: seq<Point>, x0: int, y0: int, x1: int, y1: int)
    requires IsUpright(pts, x0, y0, x1, y1)
    ensures forall k :: 0 <= k < 4 ==> Upright(x0, y0, x1, y1)[k] in pts
    ensures forall j :: 0 <= j < 4 ==> pts[j] in Upright(x0, y0, x1, y1)
  {
    var u := Upright(x0, y0, x1, y1);
    forall k | 0 <= k < 4 ensures u[k] in pts {
      assert u[k] in multiset(u);
    }
    forall j | 0 <= j < 4 ensures pts[j] in u {
      assert pts[j] in multiset(pts);
    }
  }

  /** On an upright rectangle the least `x + y` is the top-left corner and the greatest the
      bottom-right one. */
  lemma UprightSums(pts: seq<Point>, x0: int, y0: int, x1: int, y1: int)
    requires IsUpright(pts, x0, y0, x1, y1)
    ensures pts[IndexOfMin(Sums(pts))] == Point(x0, y0)
    ensures pts[IndexOfMax(Sums(pts))] == Point(x1, y1)
  {
    UprightPoints(pts, x0, y0, x1, y1);
    var a := IndexOfMin(Sums(pts));
    var j0 :| 0 <= j0 < 4 && pts[j0] == Point(x0, y0);
    assert Sums(pts)[a] <= Sums(pts)[j0];
    var b := IndexOfMax(Sums(pts));
    var j2 :| 0 <= j2 < 4 && pts[j2] == Point(x1, y1);
    assert Sums(pts)[j2] <= Sums(pts)[b];
  }

  /** On an upright rectangle the greatest `x - y` is the top-right corner and the least the
      bottom-left one. */
  lemma UprightDiffs(pts: seq<Point>, x0: int, y0: int, x1: int, y1: int)
    requires IsUpright(pts, x0, y0, x1, y1)
    ensures pts[IndexOfMax(Diffs(pts))] == Point(x1, y0)
    ensures pts[IndexOfMin(Diffs(pts))] == Point(x0, y1)
  {
    UprightPoints(pts, x0, y0, x1, y1);
    var c := IndexOfMax(Diffs(pts));
    var j1 :| 0 <= j1 < 4 && pts[j1] == Point(x1, y0);
    assert Diffs(pts)[j1] <= Diffs(pts)[c];
    var d := IndexOfMin(Diffs(pts));
    var j3 :| 0 <= j3 < 4 && pts[j3] == Point(x0, y1);
    assert Diffs(pts)[d] <= Diffs(pts)[j3];
  }

  /** The corrected order puts an upright rectangle's corners where their names say. */
  lemma OrderQuadUpright(pts: seq<Point>, x0: int, y0: int, x1: int, y1: int)
    requires IsUpright(pts, x0, y0, x1, y1)
    ensures OrderQuad(pts) == Upright(x0, y0, x1, y1)
  {
    UprightSums(pts, x0, y0, x1, y1);
    UprightDiffs(pts, x0, y0, x1, y1);
  }

  /** As written, the order swaps the top-right and bottom-left corners of every upright
      rectangle, so the warp that maps them to `(size, 0)` and `(0, size)` transposes the ROI. */
  lemma OrderQuadAsWrittenSwaps(pts: seq<Point>, x0: int, y0: int, x1: int, y1: int)
    requires IsUpright(pts, x0, y0, x1, y1)
    ensures OrderQuadAsWritten(pts) == [Point(x0, y0), Point(x0, y1), Point(x1, y1), Point(x1, y0)]
    ensures OrderQuadAsWritten(pts)[1] != Upright(x0, y0, x1, y1)[1]
  {
    UprightSums(pts, x0, y0, x1, y1);
    UprightDiffs(pts, x0, y0, x1, y1);
  }

  /** The concrete case: the square with corners (0,0), (10,0), (10,10), (0,10) listed
      clockwise gets (0,10) as its "top-right" corner. */
  lemma OrderQuadAsWrittenExample()
    ensures OrderQuadAsWritten(Upright(0, 0, 10, 10))[1] == Point(0, 10)
    ensures OrderQuad(Upright(0, 0, 10, 10))[1] == Point(10, 0)
  {
    OrderQuadAsWrittenSwaps(Upright(0, 0, 10, 10), 0, 0, 10, 10);
    OrderQuadUpright(Upright(0, 0, 10, 10), 0, 0, 10, 10);
  }

  // ---------------------------------------------------------------- quad detection

  /** Twice the signed (shoelace) area of a quadrilateral with integer vertices. */
  function TwiceSignedArea(q: seq<Point>): int
    requires |q| == 4
  {
    (q[0].x * q[1].y - q[1].x * q[0].y) + (q[1].x * q[2].y - q[2].x * q[1].y) +
    (q[2].x * q[3].y - q[3].x * q[2].y) + (q[3].x * q[0].y - q[0].x * q[3].y)
  }

  /** `cv.contourArea` of a four-vertex contour: the absolute shoelace area. Other vertex
      counts never reach the sort, so they are given area 0. */
  function AreaOf(q: seq<Point>): (a: real)
    ensures a >= 0.0
  {
    if |q| == 4 then
      var t := TwiceSignedArea(q);
      (if t >= 0 then t else -t) as real / 2.0
    else 0.0
  }

  /** The area does not depend on which vertex the contour starts from, nor on its direction. */
  lemma AreaOfRotateReverse(a: Point, b: Point, c: Point, d: Point)
    ensures AreaOf([b, c, d, a]) == AreaOf([a, b, c, d])
    ensures AreaOf([d, c, b, a]) == AreaOf([a, b, c, d])
  {
    assert TwiceSignedArea([b, c, d, a]) == TwiceSignedArea([a, b, c, d]);
    assert TwiceSignedArea([d, c, b, a]) == -TwiceSignedArea([a, b, c, d]);
  }

  /** An upright rectangle's area is its width times its height. */
  lemma AreaOfUpright(x0: int, y0: int, x1: int, y1: int)
    requires x0 <= x1 && y0 <= y1
    ensures AreaOf(Upright(x0, y0, x1, y1)) == ((x1 - x0) * (y1 - y0)) as real
  {
    var q := Upright(x0, y0, x1, y1);
    assert TwiceSignedArea(q) == 2 * ((x1 - x0) * (y1 - y0)) by {
      assert TwiceSignedArea(q) == (x0 * y0 - x1 * y0) + (x1 * y1 - x1 * y0) + (x1 * y1 - x0 * y1) + (x0 * y0 - x0 * y1);
      assert (x1 - x0) * (y1 - y0) == x1 * y1 - x1 * y0 - x0 * y1 + x0 * y0;
    }
    assert (x1 - x0) * (y1 - y0) >= 0;
  }

  /** A contour after `approxPolyDP`: its vertices and whether `isContourConvex` holds. */
  datatype Contour = Contour(approx: seq<Point>, convex: bool)

  /** The options of `detectQuads`; the Canny thresholds and `eps` only steer OpenCV. */
  datatype DetectOptions = DetectOptions(canny1: real, canny2: real, eps: real, minAreaRatio: real, maxSideRatio: real)

  function DefaultOptions(): DetectOptions
  {
    DetectOptions(70.0, 180.0, 0.02, 0.03, 1.7)
  }

  /** The four side lengths `hypot(dx, dy)` of a quadrilateral, in vertex order. */
  function Sides(q: seq<Point>, hypot: (real, real) -> real): (s: seq<real>)
    requires |q| == 4
    ensures |s| == 4
  {
    [hypot((q[1].x - q[0].x) as real, (q[1].y - q[0].y) as real),
     hypot((q[2].x - q[1].x) as real, (q[2].y - q[1].y) as real),
     hypot((q[3].x - q[2].x) as real, (q[3].y - q[2].y) as real),
     hypot((q[0].x - q[3].x) as real, (q[0].y - q[3].y) as real)]
  }

  /** `Math.max(...sides) / (Math.min(...sides) + 1e-6)`. */
  function SideRatio(q: seq<Point>, hypot: (real, real) -> real): real
    requires |q| == 4 && HypotNonNeg(hypot)
  {
    var s := Sides(q, hypot);
    MaxOf(s) / (MinOf(s) + 0.000001)
  }

  /** The acceptance test: four vertices, convex, area at least `minAreaRatio * w * h`, and
      longest side less than `maxSideRatio` times the shortest. */
  predicate Accepted(c: Contour, opts: DetectOptions, w: nat, h: nat, hypot: (real, real) -> real)
    requires HypotNonNeg(hypot)
  {
    && |c.approx| == 4 && c.convex
    && AreaOf(c.approx) >= opts.minAreaRatio * w as real * h as real
    && SideRatio(c.approx, hypot) < opts.maxSideRatio
  }

  /** The accepted contours' vertices, in contour order. */
  function Kept(cs: seq<Contour>, opts: DetectOptions, w: nat, h: nat, hypot: (real, real) -> real): (r: seq<seq<Point>>)
    requires HypotNonNeg(hypot)
    ensures |r| <= |cs|
  {
    if cs == [] then []
    else
      var c := cs[|cs| - 1];
      Kept(cs[..|cs| - 1], opts, w, h, hypot) + (if Accepted(c, opts, w, h, hypot) then [c.approx] else [])
  }

  /** A quadrilateral is kept exactly when some accepted contour has it as its vertices. */
  lemma {:induction false} KeptMembers(cs: seq<Contour>, opts: DetectOptions, w: nat, h: nat, hypot: (real, real) -> real)
    requires HypotNonNeg(hypot)
    ensures forall q :: q in Kept(cs, opts, w, h, hypot) <==>
      exists c :: c in cs && Accepted(c, opts, w, h, hypot) && c.approx == q
  {
    if cs != [] {
      var init, c := cs[..|cs| - 1], cs[|cs| - 1];
      KeptMembers(init, opts, w, h, hypot);
      forall q ensures q in Kept(cs, opts, w, h, hypot) <==>
        exists e :: e in cs && Accepted(e, opts, w, h, hypot) && e.approx == q
      {
        if e :| e in cs && Accepted(e, opts, w, h, hypot) && e.approx == q {
          if e != c {
            var i :| 0 <= i < |cs| && cs[i] == e;
            assert init[i] == e;
          }
        }
      }
    }
  }

  /** `detectQuads(mat, opts)` after OpenCV: `cands` are the approximated contours of a
      `w` x `h` frame. The accepted ones are pushed in order, then sorted by area, largest
      first, ties in push order (the sort is stable). */
  method DetectQuads(cands: seq<Contour>, w: nat, h: nat, opts: DetectOptions, hypot: (real, real) -> real)
    returns (quads: seq<seq<Point>>)
    requires HypotNonNeg(hypot)
    ensures quads == SortDesc(Kept(cands, opts, w, h, hypot), AreaOf)
    ensures SortedDesc(quads, AreaOf)
    ensures multiset(quads) == multiset(Kept(cands, opts, w, h, hypot))
    ensures KeepsTieOrder(Kept(cands, opts, w, h, hypot), quads, AreaOf)
    ensures forall q :: q in quads <==> exists c :: c in cands && Accepted(c, opts, w, h, hypot) && c.approx == q
  {
    var pushed: seq<seq<Point>> := [];
    for i := 0 to |cands|
      invariant pushed == Kept(cands[..i], opts, w, h, hypot)
    {
      assert cands[..i + 1][..i] == cands[..i];
      if Accepted(cands[i], opts, w, h, hypot) {
        pushed := pushed + [cands[i].approx];
      }
    }
    assert cands[..|cands|] == cands;
    quads := SortDesc(pushed, AreaOf);
    SortDescSorted(pushed, AreaOf);
    SortDescKeepsTieOrder(pushed, AreaOf);
    KeptMembers(cands, opts, w, h, hypot);
    SameMembers(quads, pushed);
  }

  lemma SameMembers<T>(a: seq<T>, b: seq<T>)
    requires multiset(a) == multiset(b)
    ensures forall x :: x in a <==> x in b
  {
    forall x ensures x in a <==> x in b {
      assert x in a <==> x in multiset(a);
      assert x in b <==> x in multiset(b);
    }
  }

  // ---------------------------------------------------------------- ImageNet tensor

  /** `toTensorCHW(canvas, size)`: `pix` is the canvas drawn at `size` x `size`; every
      channel byte becomes `(v / 255 - MEAN[c]) / STD[c]` in its plane, alpha is skipped. */
  method ToTensorCHW(pix: seq<Byte>, size: nat) returns (t: Tensor)
    requires |pix| == 4 * (size * size)
    ensures t.data == Planar(pix, size * size, ImageNetNorm())
    ensures t.dims == [1, 3, size, size]
    ensures |t.data| == 3 * (size * size) == Product(t.dims)
  {
    var floats := PackPlanar(pix, size * size, ImageNetNorm());
    t := Tensor(floats[..], [1, 3, size, size]);
    assert Product([size]) == size && [size, size][1..] == [size];
    assert Product([3, size, size]) == 3 * (size * size);
  }

  /** Each tensor value is the ImageNet normalisation of its byte, and decodes back to it. */
  lemma TensorCHWDecode(pix: seq<Byte>, size: nat, c: Channel, p: nat)
    requires |pix| == 4 * (size * size) && p < size * size
    ensures var chw := Planar(pix, size * size, ImageNetNorm());
      c * (size * size) + p < |chw| &&
      chw[c * (size * size) + p] == ImageNet(pix[4 * p + c], c) &&
      (chw[c * (size * size) + p] * ImageNetStd[c] + ImageNetMean[c]) * 255.0 == pix[4 * p + c] as real
  {
    PlanarAt(pix, size * size, ImageNetNorm(), c, p);
  }

  // ---------------------------------------------------------------- smoothing

  /** `v.set(probs)`: the first `|probs|` entries replaced, the rest kept. */
  function Overwrite(v: seq<real>, probs: seq<real>): (r: seq<real>)
    requires |probs| <= |v|
    ensures |r| == |v|
  {
    probs + v[|probs|..]
  }

  /** One blending pass: `v[i] := alpha * v[i] + (1 - alpha) * probs[i]` for every index
      both have; writes past the end of the typed array are dropped. */
  function Blend(v: seq<real>, probs: seq<real>, alpha: real): (r: seq<real>)
    ensures |r| == |v|
  {
    seq(|v|, i requires 0 <= i < |v| => if i < |probs| then alpha * v[i] + (1.0 - alpha) * probs[i] else v[i])
  }

  /** What `emaUpdate` leaves in `state.v`: a copy the first time, a blend afterwards. */
  function EmaStep(v: seq<real>, ready: bool, probs: seq<real>, alpha: real): (r: seq<real>)
    requires ready || |probs| <= |v|
    ensures |r| == |v|
  {
    if !ready then Overwrite(v, probs) else Blend(v, probs, alpha)
  }

  /** The first update copies the observation into the zero vector `emaInit` made. */
  lemma FirstStepCopies(probs: seq<real>, alpha: real)
    ensures EmaStep(seq(|probs|, _ => 0.0), false, probs, alpha) == probs
  {
  }

  /** With `alpha` in [0, 1] each blended entry lies between its old value and the observation. */
  lemma BlendBetween(v: seq<real>, probs: seq<real>, alpha: real, i: nat)
    requires 0.0 <= alpha <= 1.0 && i < |v| && i < |probs|
    ensures RealMin(v[i], probs[i]) <= Blend(v, probs, alpha)[i] <= RealMax(v[i], probs[i])
  {
    var d := probs[i] - v[i];
    assert Blend(v, probs, alpha)[i] == v[i] + d - alpha * d;
    if d >= 0.0 {
      assert 0.0 <= alpha * d <= d;
    } else {
      assert d <= alpha * d <= 0.0;
    }
  }

  /** An average that already equals the observation stays put. */
  lemma BlendFixed(v: seq<real>, probs: seq<real>, alpha: real)
    requires |probs| <= |v| && v[..|probs|] == probs
    ensures Blend(v, probs, alpha) == v
  {
    forall i | 0 <= i < |v| ensures Blend(v, probs, alpha)[i] == v[i] {
      if i < |probs| {
        assert v[i] == v[..|probs|][i] == probs[i];
      }
    }
  }

  /** Blending a vector of probabilities with another keeps a total of one. */
  lemma {:induction false} BlendSum(v: seq<real>, probs: seq<real>, alpha: real)
    requires |v| == |probs|
    ensures Sum(Blend(v, probs, alpha)) == alpha * Sum(v) + (1.0 - alpha) * Sum(probs)
  {
    if v != [] {
      var n := |v|;
      var whole, init := Blend(v, probs, alpha)[..n - 1], Blend(v[..n - 1], probs[..n - 1], alpha);
      forall k | 0 <= k < n - 1 ensures whole[k] == init[k] {
      }
      assert whole == init;
      BlendSum(v[..n - 1], probs[..n - 1], alpha);
    }
  }

  /** With prior `[0.5, 0.5]`, observation `[1, 0]` and `alpha = 0.7` the average becomes `[0.65, 0.35]`. */
  lemma BlendExample()
    ensures Blend([0.5, 0.5], [1.0, 0.0], EmaAlpha) == [0.65, 0.35]
  {
    var r := Blend([0.5, 0.5], [1.0, 0.0], EmaAlpha);
    assert r[0] == 0.65 && r[1] == 0.35;
  }

  function Power(a: real, n: nat): real
  {
    if n == 0 then 1.0 else a * Power(a, n - 1)
  }

  /** `n` updates with the same observation. */
  function Repeated(v: seq<real>, probs: seq<real>, alpha: real, n: nat): (r: seq<real>)
    ensures |r| == |v|
  {
    if n == 0 then v else Blend(Repeated(v, probs, alpha, n - 1), probs, alpha)
  }

  /** Feeding the same observation `n` times shrinks each entry's distance to it by `alpha^n`,
      so with `alpha` below one the average converges to the observation. */
  lemma {:induction false} RepeatedGap(v: seq<real>, probs: seq<real>, alpha: real, n: nat, i: nat)
    requires i < |v| && i < |probs|
    ensures Repeated(v, probs, alpha, n)[i] - probs[i] == Power(alpha, n) * (v[i] - probs[i])
  {
    if n > 0 {
      RepeatedGap(v, probs, alpha, n - 1, i);
      var prev := Repeated(v, probs, alpha, n - 1);
      calc {
        Repeated(v, probs, alpha, n)[i] - probs[i];
        alpha * prev[i] + (1.0 - alpha) * probs[i] - probs[i];
        alpha * (prev[i] - probs[i]);
        alpha * (Power(alpha, n - 1) * (v[i] - probs[i]));
      }
    }
  }

  function RealMin(a: real, b: real): real { if a <= b then a else b }
  function RealMax(a: real, b: real): real { if a >= b then a else b }

  /** `emaInit` / `emaUpdate`: the per-slot smoothing state, a typed array and a flag. */
  class EmaState {
    var v: array<real>
    var ready: bool

    /** `emaInit(n)`: `n` zeros, not ready. */
    constructor (n: nat)
      ensures fresh(v) && v.Length == n && !ready
      ensures v[..] == seq(n, _ => 0.0)
    {
      v := new real[n](_ => 0.0);
      ready := false;
    }

    /** `emaUpdate(state, probs, alpha)`: returns the state's own buffer, updated in place.
        The first call needs `probs` to fit (`set` throws a RangeError otherwise). */
    method Update(probs: seq<real>, alpha: real) returns (smooth: array<real>)
      requires ready || |probs| <= v.Length
      modifies this, v
      ensures v == old(v) && smooth == v && ready
      ensures v[..] == EmaStep(old(v[..]), old(ready), probs, alpha)
    {
      if !ready {
        forall i | 0 <= i < |probs| {
          v[i] := probs[i];
        }
        ready := true;
        assert v[..] == Overwrite(old(v[..]), probs);
      } else {
        ghost var want := Blend(v[..], probs, alpha);
        var i := 0;
        while i < |probs|
          invariant 0 <= i <= |probs| && v == old(v) && ready
          invariant forall j :: 0 <= j < v.Length ==> v[j] == (if j < i then want[j] else old(v[j]))
        {
          if i < v.Length {
            v[i] := alpha * v[i] + (1.0 - alpha) * probs[i];
          }
          i := i + 1;
        }
        assert v[..] == want;
      }
      smooth := v;
    }
  }

  // ---------------------------------------------------------------- read-out

  /** What the overlay shows for one ROI: class, smoothed probability, label, and whether
      it is drawn as confident. */
  datatype Readout = Readout(index: nat, prob: real, name: string, confident: bool)

  /** `id2label[i] ?? `class_${i}``: a missing or null entry falls back to the placeholder. */
  function LabelFor(id2label: seq<Option<string>>, i: nat): string
  {
    if i < |id2label| && id2label[i].Some? then id2label[i].value else Placeholder(i)
  }

  /** The read-out of a smoothed vector: the head of the stable descending sort of
      `{i, p}` pairs. An empty vector has no head, and `top.i` then throws. */
  function ReadoutOf(smooth: seq<real>, id2label: seq<Option<string>>): (r: Option<Readout>)
    ensures r.None? <==> |smooth| == 0
    ensures r.Some? ==> var t := r.value;
      && t.index < |smooth| && t.prob == smooth[t.index]
      && (forall j :: 0 <= j < |smooth| ==> smooth[j] <= t.prob)
      && (forall j :: 0 <= j < t.index ==> smooth[j] < t.prob)
      && (t.index < |id2label| && id2label[t.index].Some? ==> t.name == id2label[t.index].value)
      && (!(t.index < |id2label| && id2label[t.index].Some?) ==> t.name == Placeholder(t.index))
      && (t.confident <==> t.prob >= ConfThresh)
  {
    if |smooth| == 0 then None
    else
      RankingHead(smooth);
      var i := Ranking(smooth)[0];
      Some(Readout(i, smooth[i], LabelFor(id2label, i), smooth[i] >= ConfThresh))
  }

  /** The EMA key of slot `qi`: `roi_<qi>`. */
  function RoiKey(qi: nat): string
  {
    "roi_" + NatToString(qi)
  }

  /** Slots are bound by position: different slots never share a smoothing state. */
  lemma RoiKeyInjective(i: nat, j: nat)
    requires RoiKey(i) == RoiKey(j)
    ensures i == j
  {
    assert RoiKey(i)[4..] == NatToString(i) && RoiKey(j)[4..] == NatToString(j);
    NatToStringInjective(i, j);
  }

  // ---------------------------------------------------------------- one tick, on values

  /** The smoothed vector slot `key` holds after observing `probs`: a blend with the
      existing state, or a copy of `probs` into a freshly made one. */
  function SlotValue(c: map<string, seq<real>>, key: string, probs: seq<real>): seq<real>
  {
    if key in c then Blend(c[key], probs, EmaAlpha) else probs
  }

  function SlotStep(c: map<string, seq<real>>, key: string, probs: seq<real>): map<string, seq<real>>
  {
    c[key := SlotValue(c, key, probs)]
  }

  /** The smoothing states after a tick, the labels drawn, and whether the tick threw. */
  datatype Run = Run(contents: map<string, seq<real>>, shown: seq<Readout>, halted: bool)

  /** The slots of a tick in order: each updates its state and draws its read-out. A slot
      whose warp or inference throws (`None`) ends the tick with its state untouched, and so
      does the first slot whose smoothed vector is empty, after its update. */
  function RunSlots(c: map<string, seq<real>>, ps: seq<Option<seq<real>>>, id2label: seq<Option<string>>): (r: Run)
    ensures |r.shown| <= |ps|
  {
    if ps == [] then Run(c, [], false)
    else
      var r := RunSlots(c, ps[..|ps| - 1], id2label);
      if r.halted then r
      else if ps[|ps| - 1].None? then Run(r.contents, r.shown, true)
      else
        var i := |ps| - 1;
        var c' := SlotStep(r.contents, RoiKey(i), ps[i].value);
        var top := ReadoutOf(c'[RoiKey(i)], id2label);
        if top.None? then Run(c', r.shown, true) else Run(c', r.shown + [top.value], false)
  }

  /** A slot whose classification throws ends the tick with the states and labels the
      earlier slots left. */
  lemma RunSlotsThrows(c: map<string, seq<real>>, ps: seq<Option<seq<real>>>, qi: nat, id2label: seq<Option<string>>)
    requires qi < |ps| && ps[qi].None? && !RunSlots(c, ps[..qi], id2label).halted
    ensures var r := RunSlots(c, ps[..qi], id2label);
      RunSlots(c, ps, id2label) == Run(r.contents, r.shown, true)
  {
    assert ps[..qi + 1][..qi] == ps[..qi];
    RunSlotsHaltedStays(c, ps, id2label, qi + 1);
  }

  /** Once a slot has thrown, the later slots of the tick do nothing. */
  lemma {:induction false} RunSlotsHaltedStays(c: map<string, seq<real>>, ps: seq<Option<seq<real>>>, id2label: seq<Option<string>>, k: nat)
    requires k <= |ps| && RunSlots(c, ps[..k], id2label).halted
    ensures RunSlots(c, ps, id2label) == RunSlots(c, ps[..k], id2label)
  {
    if k < |ps| {
      assert ps[..|ps| - 1][..k] == ps[..k];
      RunSlotsHaltedStays(c, ps[..|ps| - 1], id2label, k);
    } else {
      assert ps[..k] == ps;
    }
  }

  /** The classifier answers in every slot with `n > 0` classes and every existing state holds `n`. */
  ghost predicate Uniform(c: map<string, seq<real>>, ps: seq<Option<seq<real>>>, n: nat)
  {
    n > 0 && (forall i :: 0 <= i < |ps| ==> ps[i].Some? && |ps[i].value| == n) && (forall k :: k in c ==> |c[k]| == n)
  }

  lemma UniformInit(c: map<string, seq<real>>, ps: seq<Option<seq<real>>>, n: nat)
    requires Uniform(c, ps, n) && ps != []
    ensures Uniform(c, ps[..|ps| - 1], n) && ps[|ps| - 1].Some? && |ps[|ps| - 1].value| == n
  {
    var init := ps[..|ps| - 1];
    forall i | 0 <= i < |init| ensures init[i].Some? && |init[i].value| == n {
      assert init[i] == ps[i];
    }
  }

  /** Slot `m`'s key is none of the earlier slots' keys. */
  lemma LaterKey(m: nat)
    ensures forall i :: 0 <= i < m ==> RoiKey(m) != RoiKey(i)
  {
    forall i | 0 <= i < m ensures RoiKey(m) != RoiKey(i) {
      if RoiKey(m) == RoiKey(i) {
        RoiKeyInjective(m, i);
      }
    }
  }

  /** With uniform lengths no slot throws, every slot is drawn, and every state keeps `n` entries. */
  lemma {:induction false} RunSlotsCompletes(c: map<string, seq<real>>, ps: seq<Option<seq<real>>>, id2label: seq<Option<string>>, n: nat)
    requires Uniform(c, ps, n)
    ensures var r := RunSlots(c, ps, id2label);
      !r.halted && |r.shown| == |ps| && forall k :: k in r.contents ==> |r.contents[k]| == n
  {
    if ps != [] {
      UniformInit(c, ps, n);
      var m := |ps| - 1;
      RunSlotsCompletes(c, ps[..m], id2label, n);
      var r0 := RunSlots(c, ps[..m], id2label);
      assert |SlotValue(r0.contents, RoiKey(m), ps[m].value)| == n;
    }
  }

  /** The keys of the first `n` slots. */
  function SlotKeys(n: nat): set<string>
  {
    set i: nat | i < n :: RoiKey(i)
  }

  lemma SlotKeysNext(m: nat)
    ensures SlotKeys(m + 1) == SlotKeys(m) + {RoiKey(m)}
  {
    assert RoiKey(m) in SlotKeys(m + 1);
  }

  /** Without a throw, the tick adds exactly the keys of its slots and leaves every other
      state as it was. */
  lemma {:induction false} RunSlotsKeys(c: map<string, seq<real>>, ps: seq<Option<seq<real>>>, id2label: seq<Option<string>>, n: nat)
    requires Uniform(c, ps, n)
    ensures var r := RunSlots(c, ps, id2label);
      && r.contents.Keys == c.Keys + SlotKeys(|ps|)
      && (forall k :: k in c && k !in SlotKeys(|ps|) ==> r.contents[k] == c[k])
  {
    if ps != [] {
      UniformInit(c, ps, n);
      var m := |ps| - 1;
      var init := ps[..m];
      RunSlotsKeys(c, init, id2label, n);
      RunSlotsCompletes(c, init, id2label, n);
      SlotKeysNext(m);
    }
  }

  /** Slot `i` reads out its own state only: the blend of `roi_i`'s previous vector with the
      slot's probabilities, or a copy of them when `roi_i` is new. */
  lemma {:induction false} RunSlotsSlot(c: map<string, seq<real>>, ps: seq<Option<seq<real>>>, id2label: seq<Option<string>>, n: nat, i: nat)
    requires Uniform(c, ps, n) && i < |ps|
    ensures var r := RunSlots(c, ps, id2label);
      |r.shown| == |ps| && RoiKey(i) in r.contents &&
      r.contents[RoiKey(i)] == SlotValue(c, RoiKey(i), ps[i].value) &&
      ReadoutOf(SlotValue(c, RoiKey(i), ps[i].value), id2label) == Some(r.shown[i])
  {
    UniformInit(c, ps, n);
    var m := |ps| - 1;
    var init := ps[..m];
    RunSlotsCompletes(c, init, id2label, n);
    var r0 := RunSlots(c, init, id2label);
    var key := RoiKey(m);
    var v := SlotValue(r0.contents, key, ps[m].value);
    assert |v| == n;
    var top := ReadoutOf(v, id2label);
    var r := RunSlots(c, ps, id2label);
    assert r == Run(r0.contents[key := v], r0.shown + [top.value], false);
    LaterKey(m);
    if i < m {
      RunSlotsSlot(c, init, id2label, n, i);
      assert init[i] == ps[i];
      assert RoiKey(i) != key;
      assert r0.contents[key := v][RoiKey(i)] == r0.contents[RoiKey(i)];
      assert (r0.shown + [top.value])[i] == r0.shown[i];
      assert r.contents[RoiKey(i)] == SlotValue(c, RoiKey(i), ps[i].value);
    } else {
      assert i == m && RoiKey(i) == key && ps[i] == ps[m];
      RunSlotsKeys(c, init, id2label, n);
      assert key !in SlotKeys(m);
      assert v == SlotValue(c, key, ps[m].value);
      assert top == Some(top.value);
      assert (r0.shown + [top.value])[m] == top.value;
      assert r.contents[RoiKey(i)] == SlotValue(c, RoiKey(i), ps[i].value);
    }
  }

  // ---------------------------------------------------------------- the tick

  /** Slot `i`'s probabilities: the tempered softmax of what the classifier returns for the
      `i`-th largest quadrilateral, warped from its corners in `orderQuad`'s order as written.
      `classify` stands for the warp, the anti-moire pass, `toTensorCHW` and the inference
      session; `None` is an exception from any of them (an OpenCV error, a rejected
      `session.run`). */
  function SlotProbs(quads: seq<seq<Point>>, classify: seq<Point> -> Option<seq<real>>, exp: real -> real)
    : (ps: seq<Option<seq<real>>>)
    requires PositiveExp(exp)
    requires forall q :: q in quads ==> |q| == 4
    ensures |ps| == Min(|quads|, MaxRois)
  {
    seq(Min(|quads|, MaxRois), i requires 0 <= i < Min(|quads|, MaxRois) => SlotProb(quads[i], classify, exp))
  }

  function SlotProb(q: seq<Point>, classify: seq<Point> -> Option<seq<real>>, exp: real -> real): Option<seq<real>>
    requires PositiveExp(exp) && |q| == 4
  {
    match classify(OrderQuadAsWritten(q))
    case None => None
    case Some(logits) => Some(SoftmaxWithT(logits, Temp, exp))
  }

  /** After `qi` slots of a tick that started from `c0`, the states and the labels drawn
      are those of `RunSlots`, and no slot has thrown. */
  ghost predicate Progress(c0: map<string, seq<real>>, ps: seq<Option<seq<real>>>, qi: nat, contents: map<string, seq<real>>,
                           shown: seq<Readout>, id2label: seq<Option<string>>)
  {
    qi <= |ps| &&
    var r := RunSlots(c0, ps[..qi], id2label);
    contents == r.contents && shown == r.shown && !r.halted
  }

  /** The `emaByTrack` map of the running pipeline: one smoothing state per slot key. */
  class RoiTracker {
    var ema: map<string, EmaState>
    /** The key each state and each state's buffer belongs to. */
    ghost var owner: map<object, string>
    /** The smoothed vector each key holds. */
    ghost var contents: map<string, seq<real>>

    /** Every state and its buffer belong to their own key, so no two keys share either;
        between ticks every state has been updated at least once. */
    ghost predicate Valid()
      reads this, owner.Keys
    {
      && ema.Keys == contents.Keys
      && forall k :: k in ema ==>
           && ema[k] in owner && owner[ema[k]] == k && ema[k].v in owner && owner[ema[k].v] == k
           && ema[k].ready && ema[k].v[..] == contents[k]
    }

    /** `new Map()`: no slot has a state yet. */
    constructor ()
      ensures Valid() && contents == map[] && owner == map[]
    {
      ema := map[];
      owner := map[];
      contents := map[];
    }

    /** One slot's `if (!emaByTrack.has(key)) emaByTrack.set(key, emaInit(probs.length))`
        and `emaUpdate(emaByTrack.get(key), probs, EMA_ALPHA)`: the state is made on the key's
        first use, with as many entries as `probs`, and reused afterwards. */
    method Observe(key: string, probs: seq<real>) returns (smooth: seq<real>)
      requires Valid()
      modifies this, owner.Keys
      ensures Valid() && fresh(owner.Keys - old(owner.Keys))
      ensures key in ema && (key in old(ema) ==> ema[key] == old(ema[key]))
      ensures contents == SlotStep(old(contents), key, probs)
      ensures smooth == contents[key]
    {
      if key in ema {
        smooth := Reuse(key, probs);
      } else {
        smooth := Admit(key, probs);
      }
    }

    /** A key seen before: its state is blended with `probs` in place. */
    method Reuse(key: string, probs: seq<real>) returns (smooth: seq<real>)
      requires Valid() && key in ema
      modifies this, ema[key], ema[key].v
      ensures Valid() && ema == old(ema) && owner == old(owner)
      ensures smooth == Blend(old(contents)[key], probs, EmaAlpha)
      ensures contents == old(contents)[key := smooth]
    {
      var st := ema[key];
      var out := st.Update(probs, EmaAlpha);
      smooth := out[..];
      contents := contents[key := smooth];
      forall k | k in ema && k != key
        ensures ema[k].ready && ema[k].v[..] == contents[k]
      {
        assert owner[ema[k]] != owner[st] && owner[ema[k].v] != owner[st.v];
      }
    }

    /** A new key: `emaInit(probs.length)` is stored, then the first update copies `probs`. */
    method Admit(key: string, probs: seq<real>) returns (smooth: seq<real>)
      requires Valid() && key !in ema
      modifies this
      ensures Valid() && fresh(owner.Keys - old(owner.Keys))
      ensures ema.Keys == old(ema.Keys) + {key}
      ensures smooth == probs && contents == old(contents)[key := probs]
    {
      ghost var states := ema;
      var made := new EmaState(|probs|);
      ema := ema[key := made];
      owner := owner[made := key][made.v := key];
      var out := made.Update(probs, EmaAlpha);
      smooth := out[..];
      assert smooth == probs;
      contents := contents[key := smooth];
      forall k | k in ema && k != key
        ensures ema[k] in owner && owner[ema[k]] == k && ema[k].v in owner && owner[ema[k].v] == k
        ensures ema[k].ready && ema[k].v[..] == contents[k]
      {
        assert ema[k] == states[k];
      }
    }

    /** `tick()`: with a playable video, the quadrilaterals `detectQuads` keeps are taken
        largest first, at most four, and slot `qi` is smoothed under `roi_<qi>` and read
        out. `detected` is the contour list OpenCV extracts from the frame, or `None` when
        `cv.imread` or `detectQuads` throws: the tick then ends before drawing anything.
        A slot whose warp or inference throws, or whose smoothed vector is empty so that
        `top.i` throws, ends the tick as well. Only a tick that ends normally reschedules
        itself. */
    method Tick(videoReady: bool, detected: Option<seq<Contour>>, w: nat, h: nat, hypot: (real, real) -> real,
                classify: seq<Point> -> Option<seq<real>>, id2label: seq<Option<string>>, exp: real -> real)
      returns (shown: seq<Readout>, rescheduled: bool)
      requires Valid() && HypotNonNeg(hypot) && PositiveExp(exp)
      modifies this, owner.Keys
      ensures Valid() && fresh(owner.Keys - old(owner.Keys))
      ensures !videoReady ==> contents == old(contents) && shown == [] && rescheduled
      ensures videoReady && detected.None? ==> contents == old(contents) && shown == [] && !rescheduled
      ensures videoReady && detected.Some? ==>
        var quads := SortDesc(Kept(detected.value, DefaultOptions(), w, h, hypot), AreaOf);
        (forall q :: q in quads ==> |q| == 4) &&
        var run := RunSlots(old(contents), SlotProbs(quads, classify, exp), id2label);
        contents == run.contents && shown == run.shown && rescheduled == !run.halted
    {
      shown, rescheduled := [], true;
      if !videoReady {
        return;
      }
      if detected.None? {
        rescheduled := false;
        return;
      }
      var quads := DetectQuads(detected.value, w, h, DefaultOptions(), hypot);
      shown, rescheduled := ProcessSlots(quads, classify, id2label, exp);
    }

    /** Slot `qi` of a tick: smoothing under `roi_<qi>`, then the read-out, one more step of
        `RunSlots` over the slots' probabilities `ps`. A missing read-out ends the run. */
    method Slot(qi: nat, probs: seq<real>, id2label: seq<Option<string>>, ghost c0: map<string, seq<real>>,
                ghost ps: seq<Option<seq<real>>>, ghost shown: seq<Readout>)
      returns (top: Option<Readout>)
      requires Valid() && qi < |ps| && ps[qi] == Some(probs)
      requires Progress(c0, ps, qi, contents, shown, id2label)
      modifies this, owner.Keys
      ensures Valid() && fresh(owner.Keys - old(owner.Keys))
      ensures top.Some? ==> Progress(c0, ps, qi + 1, contents, shown + [top.value], id2label)
      ensures top.None? ==> var run := RunSlots(c0, ps, id2label);
        contents == run.contents && shown == run.shown && run.halted
    {
      assert ps[..qi + 1][..qi] == ps[..qi];
      var smooth := Observe(RoiKey(qi), probs);
      top := ReadoutOf(smooth, id2label);
      if top.None? {
        RunSlotsHaltedStays(c0, ps, id2label, qi + 1);
      }
    }

    /** Warp, classify and soften quadrilateral `qi`. */
    static method Classify(quads: seq<seq<Point>>, qi: nat, classify: seq<Point> -> Option<seq<real>>, exp: real -> real)
      returns (probs: Option<seq<real>>)
      requires PositiveExp(exp) && qi < Min(|quads|, MaxRois)
      requires forall q :: q in quads ==> |q| == 4
      ensures probs == SlotProbs(quads, classify, exp)[qi]
    {
      probs := SlotProb(quads[qi], classify, exp);
    }

    /** The body of `for (qi ...)` over the first `min(quads.length, 4)` quadrilaterals. */
    method ProcessSlots(quads: seq<seq<Point>>, classify: seq<Point> -> Option<seq<real>>, id2label: seq<Option<string>>,
                        exp: real -> real)
      returns (shown: seq<Readout>, rescheduled: bool)
      requires Valid() && PositiveExp(exp)
      requires forall q :: q in quads ==> |q| == 4
      modifies this, owner.Keys
      ensures Valid() && fresh(owner.Keys - old(owner.Keys))
      ensures var run := RunSlots(old(contents), SlotProbs(quads, classify, exp), id2label);
        contents == run.contents && shown == run.shown && rescheduled == !run.halted
    {
      ghost var c0 := contents;
      ghost var ps := SlotProbs(quads, classify, exp);
      shown, rescheduled := [], true;
      var n := Min(|quads|, MaxRois);
      var qi := 0;
      while qi < n
        invariant 0 <= qi <= n
        invariant Valid() && fresh(owner.Keys - old(owner.Keys))
        invariant Progress(c0, ps, qi, contents, shown, id2label)
      {
        var probs := Classify(quads, qi, classify, exp);
        if probs.None? {
          RunSlotsThrows(c0, ps, qi, id2label);
          rescheduled := false;
          return;
        }
        var top := Slot(qi, probs.value, id2label, c0, ps, shown);
        if top.None? {
          rescheduled := false;
          return;
        }
        shown := shown + [top.value];
        qi := qi + 1;
      }
      assert ps[..n] == ps;
    }
  }
}
