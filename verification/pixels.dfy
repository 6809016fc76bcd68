/** Pixel-to-tensor packing shared by both pipelines: the two per-sample
    normalisations the source uses and the two channel layouts. A raster is
    the flat RGBA byte sequence of `getImageData`; the alpha byte of every
    pixel is never read. */
module Pixels {
  import opened Common

  type Channel = c: nat | c < 3

  /** A tensor as handed to the inference session: flat data and declared shape. */
  datatype Tensor = Tensor(data: seq<real>, dims: seq<nat>)

  function Product(dims: seq<nat>): nat
  {
    if dims == [] then 1 else dims[0] * Product(dims[1..])
  }

  /** Channel `c` (0 red, 1 green, 2 blue) of pixel `i`. */
  function Sample(pix: seq<Byte>, i: nat, c: Channel): Byte
    requires 4 * i + 3 < |pix|
  {
    pix[4 * i + c]
  }

  /** `v / 127.5 - 1`: maps a byte into [-1, 1]; `(f + 1) * 127.5` recovers it. */
  function Neg1To1(v: Byte): (f: real)
    ensures -1.0 <= f <= 1.0
    ensures (f + 1.0) * 127.5 == v as real
    ensures v == 0 ==> f == -1.0
    ensures v == 255 ==> f == 1.0
  {
    v as real / 127.5 - 1.0
  }

  const ImageNetMean: seq<real> := [0.485, 0.456, 0.406]
  const ImageNetStd: seq<real> := [0.229, 0.224, 0.225]

  /** `(v / 255 - MEAN[c]) / STD[c]`; `(f * STD[c] + MEAN[c]) * 255` recovers the byte. */
  function ImageNet(v: Byte, c: Channel): (f: real)
    ensures (f * ImageNetStd[c] + ImageNetMean[c]) * 255.0 == v as real
    ensures (0.0 - ImageNetMean[c]) / ImageNetStd[c] <= f <= (1.0 - ImageNetMean[c]) / ImageNetStd[c]
  {
    var u := v as real / 255.0;
    assert 0.0 <= u <= 1.0;
    var f := (u - ImageNetMean[c]) / ImageNetStd[c];
    assert f * ImageNetStd[c] == u - ImageNetMean[c];
    f
  }

  function Neg1To1Norm(): (Byte, Channel) -> real
  {
    (v: Byte, c: Channel) => Neg1To1(v)
  }

  function ImageNetNorm(): (Byte, Channel) -> real
  {
    (v: Byte, c: Channel) => ImageNet(v, c)
  }

  /** One colour plane: `norm` applied to channel `c` of every pixel, in pixel order. */
  function Plane(pix: seq<Byte>, n: nat, c: Channel, norm: (Byte, Channel) -> real): (r: seq<real>)
    requires |pix| == 4 * n
    ensures |r| == n
  {
    seq(n, i requires 0 <= i < n => norm(Sample(pix, i, c), c))
  }

  /** Channel-first (NCHW) data: the red plane, then green, then blue. */
  function Planar(pix: seq<Byte>, n: nat, norm: (Byte, Channel) -> real): (r: seq<real>)
    requires |pix| == 4 * n
  {
    Plane(pix, n, 0, norm) + Plane(pix, n, 1, norm) + Plane(pix, n, 2, norm)
  }

  /** Channel-last (NHWC) data: red, green, blue of pixel 0, then of pixel 1, ... */
  function Interleaved(pix: seq<Byte>, n: nat, norm: (Byte, Channel) -> real): (r: seq<real>)
    requires |pix| == 4 * n
  {
    seq(3 * n, k requires 0 <= k < 3 * n => norm(Sample(pix, k / 3, k % 3), k % 3))
  }

  lemma PlanarAt(pix: seq<Byte>, n: nat, norm: (Byte, Channel) -> real, c: Channel, i: nat)
    requires |pix| == 4 * n && i < n
    ensures |Planar(pix, n, norm)| == 3 * n
    ensures c * n + i < 3 * n
    ensures Planar(pix, n, norm)[c * n + i] == norm(Sample(pix, i, c), c)
  {
    var p0, p1, p2 := Plane(pix, n, 0, norm), Plane(pix, n, 1, norm), Plane(pix, n, 2, norm);
    assert Planar(pix, n, norm) == p0 + p1 + p2;
    if c == 0 {
      assert (p0 + p1 + p2)[i] == p0[i];
    } else if c == 1 {
      assert (p0 + p1 + p2)[n + i] == p1[i];
    } else {
      assert (p0 + p1 + p2)[2 * n + i] == p2[i];
    }
  }

  lemma InterleavedAt(pix: seq<Byte>, n: nat, norm: (Byte, Channel) -> real, c: Channel, i: nat)
    requires |pix| == 4 * n && i < n
    ensures |Interleaved(pix, n, norm)| == 3 * n
    ensures 3 * i + c < 3 * n
    ensures Interleaved(pix, n, norm)[3 * i + c] == norm(Sample(pix, i, c), c)
  {
    assert (3 * i + c) / 3 == i && (3 * i + c) % 3 == c;
  }

  /** Both layouts hold the same values, permuted: `NHWC[3i+c] == NCHW[c*wh+i]`. */
  lemma LayoutsPermuted(pix: seq<Byte>, n: nat, norm: (Byte, Channel) -> real)
    requires |pix| == 4 * n
    ensures |Planar(pix, n, norm)| == |Interleaved(pix, n, norm)| == 3 * n
    ensures forall c: Channel, i :: 0 <= i < n ==>
      Interleaved(pix, n, norm)[3 * i + c] == Planar(pix, n, norm)[c * n + i]
  {
    forall c: Channel, i | 0 <= i < n
      ensures Interleaved(pix, n, norm)[3 * i + c] == Planar(pix, n, norm)[c * n + i]
    {
      PlanarAt(pix, n, norm, c, i);
      InterleavedAt(pix, n, norm, c, i);
    }
  }

  /** The alpha byte of a pixel never reaches either layout. */
  lemma AlphaIgnored(pix: seq<Byte>, pix': seq<Byte>, n: nat, norm: (Byte, Channel) -> real)
    requires |pix| == |pix'| == 4 * n
    requires forall i, c: Channel :: 0 <= i < n ==> Sample(pix, i, c) == Sample(pix', i, c)
    ensures Planar(pix, n, norm) == Planar(pix', n, norm)
    ensures Interleaved(pix, n, norm) == Interleaved(pix', n, norm)
  {
    forall c: Channel ensures Plane(pix, n, c, norm) == Plane(pix', n, c, norm) {
      forall i | 0 <= i < n ensures Plane(pix, n, c, norm)[i] == Plane(pix', n, c, norm)[i] {
        assert Sample(pix, i, c) == Sample(pix', i, c);
      }
    }
    assert Plane(pix, n, 0, norm) == Plane(pix', n, 0, norm);
    assert Plane(pix, n, 1, norm) == Plane(pix', n, 1, norm);
    assert Plane(pix, n, 2, norm) == Plane(pix', n, 2, norm);
    forall k | 0 <= k < 3 * n
      ensures Interleaved(pix, n, norm)[k] == Interleaved(pix', n, norm)[k]
    {
      assert Sample(pix, k / 3, k % 3) == Sample(pix', k / 3, k % 3);
    }
  }

  /** Fills a channel-first buffer pixel by pixel, writing the three planes at `i`, `wh + i`, `2 wh + i`. */
  method PackPlanar(pix: seq<Byte>, n: nat, norm: (Byte, Channel) -> real) returns (floats: array<real>)
    requires |pix| == 4 * n
    ensures floats.Length == 3 * n
    ensures floats[..] == Planar(pix, n, norm)
  {
    floats := new real[3 * n](_ => 0.0);
    ghost var p0, p1, p2 := Plane(pix, n, 0, norm), Plane(pix, n, 1, norm), Plane(pix, n, 2, norm);
    var i, p := 0, 0;
    while i < n
      invariant 0 <= i <= n && p == 4 * i
      invariant forall j :: 0 <= j < i ==> floats[j] == p0[j] && floats[n + j] == p1[j] && floats[2 * n + j] == p2[j]
    {
      var r := pix[p];
      var g := pix[p + 1];
      var b := pix[p + 2];
      p := p + 4;
      floats[i] := norm(r, 0);
      floats[i + n] := norm(g, 1);
      floats[i + 2 * n] := norm(b, 2);
      assert r == Sample(pix, i, 0) && g == Sample(pix, i, 1) && b == Sample(pix, i, 2);
      i := i + 1;
    }
    forall k | 0 <= k < 3 * n ensures floats[k] == (p0 + p1 + p2)[k] {
      if k < n {
      } else if k < 2 * n {
        assert floats[n + (k - n)] == p1[k - n];
      } else {
        assert floats[2 * n + (k - 2 * n)] == p2[k - 2 * n];
      }
    }
  }

  /** Fills a channel-last buffer with a running cursor `q`, three values per pixel. */
  method PackInterleaved(pix: seq<Byte>, n: nat, norm: (Byte, Channel) -> real) returns (floats: array<real>)
    requires |pix| == 4 * n
    ensures floats.Length == 3 * n
    ensures floats[..] == Interleaved(pix, n, norm)
  {
    floats := new real[3 * n](_ => 0.0);
    ghost var want := Interleaved(pix, n, norm);
    var i, p, q := 0, 0, 0;
    while i < n
      invariant 0 <= i <= n && p == 4 * i && q == 3 * i
      invariant forall k :: 0 <= k < q ==> floats[k] == want[k]
    {
      var r := pix[p];
      var g := pix[p + 1];
      var b := pix[p + 2];
      p := p + 4;
      InterleavedAt(pix, n, norm, 0, i);
      InterleavedAt(pix, n, norm, 1, i);
      InterleavedAt(pix, n, norm, 2, i);
      floats[q] := norm(r, 0);
      floats[q + 1] := norm(g, 1);
      floats[q + 2] := norm(b, 2);
      q := q + 3;
      i := i + 1;
    }
  }
}
