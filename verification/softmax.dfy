/** The numerically stable softmax both pipelines use: subtract the largest
    logit, exponentiate, divide by the total. `Math.exp` is a parameter
    `exp` of which only positivity (and, for ranking, monotonicity) is used. */
module Probability {

  ghost predicate PositiveExp(exp: real -> real)
  {
    forall x :: exp(x) > 0.0
  }

  ghost predicate IncreasingExp(exp: real -> real)
  {
    forall a, b :: a < b ==> exp(a) < exp(b)
  }

  /** Left-to-right total, the order in which `sum += e` accumulates. */
  function Sum(s: seq<real>): real
  {
    if s == [] then 0.0 else Sum(s[..|s| - 1]) + s[|s| - 1]
  }

  /** `Math.max(...xs)` for a non-empty vector. */
  function MaxOf(xs: seq<real>): (m: real)
    requires |xs| > 0
    ensures forall i :: 0 <= i < |xs| ==> xs[i] <= m
    ensures exists i :: 0 <= i < |xs| && xs[i] == m
  {
    if |xs| == 1 then xs[0]
    else
      var m := MaxOf(xs[..|xs| - 1]);
      if xs[|xs| - 1] > m then xs[|xs| - 1] else m
  }

  /** `Math.min(...xs)` for a non-empty vector. */
  function MinOf(xs: seq<real>): (m: real)
    requires |xs| > 0
    ensures forall i :: 0 <= i < |xs| ==> m <= xs[i]
    ensures exists i :: 0 <= i < |xs| && xs[i] == m
  {
    if |xs| == 1 then xs[0]
    else
      var m := MinOf(xs[..|xs| - 1]);
      if xs[|xs| - 1] < m then xs[|xs| - 1] else m
  }

  function Shifted(xs: seq<real>, m: real, exp: real -> real): (e: seq<real>)
    ensures |e| == |xs|
  {
    seq(|xs|, i requires 0 <= i < |xs| => exp(xs[i] - m))
  }

  function Scale(e: seq<real>, s: real): (r: seq<real>)
    requires s != 0.0
    ensures |r| == |e|
  {
    seq(|e|, i requires 0 <= i < |e| => e[i] / s)
  }

  lemma {:induction false} SumPositive(e: seq<real>)
    requires forall i :: 0 <= i < |e| ==> e[i] > 0.0
    ensures forall i :: 0 <= i < |e| ==> e[i] <= Sum(e)
    ensures |e| > 0 ==> Sum(e) > 0.0
  {
    if e != [] {
      var init := e[..|e| - 1];
      SumPositive(init);
      forall i | 0 <= i < |e| ensures e[i] <= Sum(e) {
        if i < |e| - 1 {
          assert e[i] == init[i];
        }
      }
    }
  }

  lemma {:induction false} SumScale(e: seq<real>, s: real)
    requires s != 0.0
    ensures Sum(Scale(e, s)) == Sum(e) / s
  {
    if e != [] {
      var n := |e|;
      assert Scale(e, s)[..n - 1] == Scale(e[..n - 1], s);
      SumScale(e[..n - 1], s);
    }
  }

  lemma FractionBounds(a: real, s: real)
    requires 0.0 < a <= s
    ensures 0.0 < a / s <= 1.0
  {
    assert a / s * s == a;
  }

  lemma DivMonotone(a: real, b: real, s: real)
    requires s > 0.0
    ensures a <= b <==> a / s <= b / s
  {
    assert a / s * s == a && b / s * s == b;
    if a <= b {
      assert a / s <= b / s;
    } else {
      assert b / s < a / s;
    }
  }

  lemma ScaleBounds(e: seq<real>)
    requires forall i :: 0 <= i < |e| ==> e[i] > 0.0
    requires |e| > 0
    ensures Sum(e) > 0.0
    ensures forall i :: 0 <= i < |e| ==> 0.0 < Scale(e, Sum(e))[i] <= 1.0
  {
    SumPositive(e);
    forall i | 0 <= i < |e| ensures 0.0 < Scale(e, Sum(e))[i] <= 1.0 {
      FractionBounds(e[i], Sum(e));
    }
  }

  /** Probabilities: one per logit, each in (0, 1], summing to 1 when there is any. */
  function Softmax(xs: seq<real>, exp: real -> real): (p: seq<real>)
    requires PositiveExp(exp)
    ensures |p| == |xs|
    ensures forall i :: 0 <= i < |p| ==> 0.0 < p[i] <= 1.0
    ensures |p| > 0 ==> Sum(p) == 1.0
  {
    if xs == [] then []
    else
      var e := Shifted(xs, MaxOf(xs), exp);
      ScaleBounds(e);
      SumScale(e, Sum(e));
      Scale(e, Sum(e))
  }

  /** With an increasing `exp`, softmax orders the entries exactly as the logits. */
  lemma SoftmaxKeepsOrder(xs: seq<real>, exp: real -> real, i: nat, j: nat)
    requires PositiveExp(exp) && IncreasingExp(exp)
    requires i < |xs| && j < |xs|
    ensures xs[i] <= xs[j] <==> Softmax(xs, exp)[i] <= Softmax(xs, exp)[j]
  {
    var m := MaxOf(xs);
    var e := Shifted(xs, m, exp);
    SumPositive(e);
    var s := Sum(e);
    assert Softmax(xs, exp)[i] == e[i] / s && Softmax(xs, exp)[j] == e[j] / s;
    DivMonotone(e[i], e[j], s);
    assert e[i] == exp(xs[i] - m) && e[j] == exp(xs[j] - m);
    if xs[i] < xs[j] {
      assert xs[i] - m < xs[j] - m;
    } else if xs[j] < xs[i] {
      assert xs[j] - m < xs[i] - m;
    }
  }

  /** `logits.map(v => v / T)`. */
  function Tempered(xs: seq<real>, t: real): (r: seq<real>)
    requires t > 0.0
    ensures |r| == |xs|
  {
    seq(|xs|, i requires 0 <= i < |xs| => xs[i] / t)
  }

  lemma TemperedKeepsOrder(xs: seq<real>, t: real, i: nat, j: nat)
    requires t > 0.0 && i < |xs| && j < |xs|
    ensures xs[i] <= xs[j] <==> Tempered(xs, t)[i] <= Tempered(xs, t)[j]
  {
    assert Tempered(xs, t)[i] == xs[i] / t && Tempered(xs, t)[j] == xs[j] / t;
    if xs[i] <= xs[j] {
      assert xs[i] / t <= xs[j] / t;
    } else {
      assert xs[j] / t < xs[i] / t;
    }
  }
}
