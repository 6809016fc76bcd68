/** Values shared by every stage of the pipeline: optional results, raw
    8-bit samples, boxes in overlay pixels, and the decimal rendering that
    the source uses to build keys and placeholder labels. */
module Common {

  datatype Option<+T> = None | Some(value: T)

  /** One sample of an RGBA raster as returned by `getImageData`. */
  type Byte = b: int | 0 <= b < 256

  /** An axis-aligned rectangle in overlay (frame) pixels. */
  datatype Box = Box(x: int, y: int, w: int, h: int)

  function Digit(d: nat): (c: char)
    requires d < 10
    ensures '0' <= c <= '9' && c as int - '0' as int == d
  {
    ('0' as int + d) as char
  }

  /** `String(n)` for a non-negative integer: its decimal digits, no leading zero. */
  function NatToString(n: nat): (s: string)
    ensures 1 <= |s|
    ensures forall i :: 0 <= i < |s| ==> '0' <= s[i] <= '9'
    ensures n < 10 <==> |s| == 1
    ensures s[|s| - 1] == Digit(n % 10)
    decreases n
  {
    if n < 10 then [Digit(n)] else NatToString(n / 10) + [Digit(n % 10)]
  }

  /** Different numbers render differently, so keys built from them never collide. */
  lemma {:induction false} NatToStringInjective(a: nat, b: nat)
    requires NatToString(a) == NatToString(b)
    ensures a == b
    decreases a
  {
    var sa, sb := NatToString(a), NatToString(b);
    if a < 10 || b < 10 {
      assert |sa| == 1 && |sb| == 1;
      assert a < 10 && b < 10;
      assert Digit(a) == sa[0] == sb[0] == Digit(b);
    } else {
      assert sa == NatToString(a / 10) + [Digit(a % 10)];
      assert sb == NatToString(b / 10) + [Digit(b % 10)];
      assert NatToString(a / 10) == sa[..|sa| - 1] == sb[..|sb| - 1] == NatToString(b / 10);
      NatToStringInjective(a / 10, b / 10);
      assert Digit(a % 10) == sa[|sa| - 1] == sb[|sb| - 1] == Digit(b % 10);
    }
  }

  /** The label shown for a class index that the mapping does not name: `class_<i>`. */
  function Placeholder(i: nat): (s: string)
    ensures |s| > 6 && s[..6] == "class_" && s[6..] == NatToString(i)
  {
    "class_" + NatToString(i)
  }

  lemma PlaceholderInjective(i: nat, j: nat)
    requires Placeholder(i) == Placeholder(j)
    ensures i == j
  {
    assert NatToString(i) == Placeholder(i)[6..] == Placeholder(j)[6..] == NatToString(j);
    NatToStringInjective(i, j);
  }

  /** `Math.hypot` is a parameter wherever it is used; only its sign is relied on. */
  ghost predicate HypotNonNeg(hypot: (real, real) -> real)
  {
    forall a, b :: hypot(a, b) >= 0.0
  }

  function Min(a: int, b: int): int { if a <= b then a else b }
  function Max(a: int, b: int): int { if a >= b then a else b }
}
