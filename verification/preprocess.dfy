/** The box pipeline's tensor builder and its read-out of the classifier:
    `preprocessToTensor` (crop choice, then neg1to1 values in NCHW or NHWC
    layout) and `topkSoftmax` (max scan, softmax, ranking, top-k). */
module Preprocess {
  import opened Common
  import opened Pixels
  import opened Probability
  import opened Sorting

  /** INPUT_SIZE: the model's square input side. */
  const InputSize: nat := 224
  const InputPixels: nat := InputSize * InputSize

  /** What `drawImage` reads from the video: the whole frame or a source rectangle. */
  datatype DrawSource = WholeFrame | Crop(sx: real, sy: real, sw: real, sh: real)

  /** With a box and an overlay the box, divided by the device pixel ratio, is the source rectangle. */
  function SourceRect(lastBox: Option<Box>, hasOverlay: bool, dpr: real): (r: DrawSource)
    requires dpr > 0.0
    ensures r.Crop? <==> lastBox.Some? && hasOverlay
    ensures r.Crop? ==>
      r.sx * dpr == lastBox.value.x as real && r.sy * dpr == lastBox.value.y as real &&
      r.sw * dpr == lastBox.value.w as real && r.sh * dpr == lastBox.value.h as real
  {
    if lastBox.Some? && hasOverlay then
      var b := lastBox.value;
      Crop(b.x as real / dpr, b.y as real / dpr, b.w as real / dpr, b.h as real / dpr)
    else WholeFrame
  }

  /** `preprocessToTensor`: `pix` is the INPUT_SIZE x INPUT_SIZE raster that `drawImage`
      produced from `src`; the result is always a 224 x 224 tensor in the session's layout. */
  method PreprocessToTensor(lastBox: Option<Box>, useNCHW: bool, hasOverlay: bool, dpr: real, pix: seq<Byte>)
    returns (src: DrawSource, t: Tensor)
    requires dpr > 0.0
    requires |pix| == 4 * InputPixels
    ensures src.Crop? <==> lastBox.Some? && hasOverlay
    ensures src == SourceRect(lastBox, hasOverlay, dpr)
    ensures useNCHW ==> t == Tensor(Planar(pix, InputPixels, Neg1To1Norm()), [1, 3, InputSize, InputSize])
    ensures !useNCHW ==> t == Tensor(Interleaved(pix, InputPixels, Neg1To1Norm()), [1, InputSize, InputSize, 3])
    ensures |t.data| == 3 * InputPixels == Product(t.dims)
  {
    src := SourceRect(lastBox, hasOverlay, dpr);
    assert Product([InputSize]) == InputSize && Product([3]) == 3;
    assert [InputSize, 3][1..] == [3];
    assert Product([InputSize, 3]) == 3 * InputSize;
    assert Product([3, InputSize, InputSize]) == 3 * InputPixels;
    assert Product([InputSize, InputSize, 3]) == 3 * InputPixels;
    if useNCHW {
      var floats := PackPlanar(pix, InputPixels, Neg1To1Norm());
      t := Tensor(floats[..], [1, 3, InputSize, InputSize]);
    } else {
      var floats := PackInterleaved(pix, InputPixels, Neg1To1Norm());
      t := Tensor(floats[..], [1, InputSize, InputSize, 3]);
    }
  }

  /** Every value of either layout lies in [-1, 1] and decodes back to its byte. */
  lemma TensorValuesDecode(pix: seq<Byte>, c: Channel, i: nat)
    requires |pix| == 4 * InputPixels && i < InputPixels
    ensures var nchw := Planar(pix, InputPixels, Neg1To1Norm());
      var nhwc := Interleaved(pix, InputPixels, Neg1To1Norm());
      -1.0 <= nchw[c * InputPixels + i] <= 1.0 &&
      (nchw[c * InputPixels + i] + 1.0) * 127.5 == pix[4 * i + c] as real &&
      nhwc[3 * i + c] == nchw[c * InputPixels + i]
  {
    PlanarAt(pix, InputPixels, Neg1To1Norm(), c, i);
    LayoutsPermuted(pix, InputPixels, Neg1To1Norm());
  }

  /** One ranked class: its index and probability. */
  datatype Entry = Entry(idx: nat, prob: real)

  /** `top1` is absent exactly when there are no logits (`idxs[0]` is undefined then). */
  datatype TopK = TopK(top1: Option<Entry>, top3: seq<Entry>)

  /** The running maximum `maxL`, with `None` standing for its start value `-Infinity`. */
  method MaxScan(logits: seq<real>) returns (maxL: Option<real>)
    ensures maxL.None? <==> |logits| == 0
    ensures maxL.Some? ==> forall i :: 0 <= i < |logits| ==> logits[i] <= maxL.value
    ensures maxL.Some? ==> exists i :: 0 <= i < |logits| && logits[i] == maxL.value
  {
    maxL := None;
    var i := 0;
    while i < |logits|
      invariant 0 <= i <= |logits|
      invariant maxL.None? <==> i == 0
      invariant maxL.Some? ==> forall j :: 0 <= j < i ==> logits[j] <= maxL.value
      invariant maxL.Some? ==> exists j :: 0 <= j < i && logits[j] == maxL.value
    {
      if maxL.None? || logits[i] > maxL.value {
        maxL := Some(logits[i]);
      }
      i := i + 1;
    }
  }

  function EntryOf(p: seq<real>, i: nat): Entry
  {
    Entry(i, ValueAt(p, i))
  }

  /** Second pass: `exps[i] = exp(logits[i] - maxL)`, accumulated into `sum` left to right. */
  method ExpPass(logits: seq<real>, m: real, exp: real -> real) returns (exps: array<real>, sum: real)
    ensures fresh(exps)
    ensures exps[..] == Shifted(logits, m, exp) && sum == Sum(exps[..])
  {
    var n := |logits|;
    exps := new real[n](_ => 0.0);
    ghost var e := Shifted(logits, m, exp);
    sum := 0.0;
    var i := 0;
    while i < n
      invariant 0 <= i <= n
      invariant exps[..i] == e[..i]
      invariant sum == Sum(e[..i])
    {
      var x := exp(logits[i] - m);
      exps[i] := x;
      sum := sum + x;
      assert e[..i + 1][..i] == e[..i];
      i := i + 1;
    }
    assert e[..n] == e;
    assert exps[..] == e;
  }

  /** Third pass: `probs[i] = exps[i] / sum`. */
  method DividePass(exps: array<real>, sum: real) returns (probs: array<real>)
    requires sum != 0.0
    ensures probs[..] == Scale(exps[..], sum)
  {
    probs := new real[exps.Length](_ => 0.0);
    var i := 0;
    while i < exps.Length
      invariant 0 <= i <= exps.Length
      invariant forall j :: 0 <= j < i ==> probs[j] == exps[j] / sum
    {
      probs[i] := exps[i] / sum;
      i := i + 1;
    }
  }

  /** The three passes of `topkSoftmax` over the logits: the max scan, the shifted
      exponentials with their running sum, then each exponential over the sum. */
  method SoftmaxPasses(logits: seq<real>, exp: real -> real) returns (probs: array<real>)
    requires PositiveExp(exp)
    ensures probs[..] == Softmax(logits, exp)
  {
    var maxL := MaxScan(logits);
    if maxL.None? {
      probs := new real[0];
      return;
    }
    var m := maxL.value;
    assert m == MaxOf(logits) by {
      var a :| 0 <= a < |logits| && logits[a] == m;
      var b :| 0 <= b < |logits| && logits[b] == MaxOf(logits);
    }
    var exps, sum := ExpPass(logits, m, exp);
    SumPositive(exps[..]);
    probs := DividePass(exps, sum);
  }

  /** `topkSoftmax(logits, k)`: the probabilities are the softmax of the logits, ranked
      most probable first with ties by ascending index; `top3` is the first `min(k, n)`. */
  method TopkSoftmax(logits: seq<real>, k: nat, exp: real -> real) returns (r: TopK)
    requires PositiveExp(exp)
    ensures var p := Softmax(logits, exp);
      var idxs := Ranking(p);
      && |idxs| == |p| == |logits|
      && (r.top1.None? <==> |logits| == 0)
      && (r.top1.Some? ==> r.top1.value == EntryOf(p, idxs[0]))
      && |r.top3| == Min(k, |logits|)
      && (forall j :: 0 <= j < |r.top3| ==> r.top3[j] == EntryOf(p, idxs[j]))
    ensures r.top1.Some? ==> var p := Softmax(logits, exp);
      && r.top1.value.idx < |logits|
      && (forall j :: 0 <= j < |logits| ==> p[j] <= r.top1.value.prob)
      && (forall j :: 0 <= j < r.top1.value.idx ==> p[j] < r.top1.value.prob)
  {
    var n := |logits|;
    var probs := SoftmaxPasses(logits, exp);
    var p := probs[..];
    var idxs := Ranking(p);
    RankingMembers(p);
    var top1 := if n > 0 then Some(EntryOf(p, idxs[0])) else None;
    var top3 := seq(Min(k, n), j requires 0 <= j < Min(k, n) => EntryOf(p, idxs[j]));
    r := TopK(top1, top3);
    if n > 0 {
      RankingHead(p);
    }
  }

  /** With an increasing `exp` the ranking of the probabilities is the ranking of the
      logits, so `top1Idx` is the first index of the largest logit. */
  lemma RankingFollowsLogits(logits: seq<real>, exp: real -> real)
    requires PositiveExp(exp) && IncreasingExp(exp)
    ensures Ranking(Softmax(logits, exp)) == Ranking(logits)
  {
    var p := Softmax(logits, exp);
    forall i, j | 0 <= i < |p| && 0 <= j < |p| ensures p[i] <= p[j] <==> logits[i] <= logits[j] {
      SoftmaxKeepsOrder(logits, exp, i, j);
    }
    RankingSameOrder(p, logits);
  }
}
