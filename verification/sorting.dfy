/** The ordering the source gets from `Array.prototype.sort` with the
    comparator `(a, b) => key(b) - key(a)`: a stable sort by descending key.
    It ranks class indices by probability (preprocess.js, the tick's
    argmax) and quadrilaterals by area (detectQuads). The engine's own
    algorithm is not visible; this insertion sort produces the one result a
    stable descending sort can produce. */
module Sorting {

  ghost predicate SortedDesc<T>(s: seq<T>, key: T -> real)
  {
    forall i, j :: 0 <= i < j < |s| ==> key(s[i]) >= key(s[j])
  }

  /** Elements with equal keys keep the order they had in `xs`. */
  ghost predicate KeepsTieOrder<T>(xs: seq<T>, r: seq<T>, key: T -> real)
  {
    forall a, b :: 0 <= a < b < |r| && key(r[a]) == key(r[b]) ==>
      exists i, j :: 0 <= i < j < |xs| && xs[i] == r[a] && xs[j] == r[b]
  }

  /** Puts `x` in front of the first element whose key is not larger. */
  function Insert<T>(x: T, s: seq<T>, key: T -> real): (r: seq<T>)
  {
    if s == [] || key(s[0]) <= key(x) then [x] + s else [s[0]] + Insert(x, s[1..], key)
  }

  function SortDesc<T>(xs: seq<T>, key: T -> real): (r: seq<T>)
  {
    if xs == [] then [] else Insert(xs[0], SortDesc(xs[1..], key), key)
  }

  /** `Insert` splits `s` at the first key not larger than `x`'s. */
  lemma {:induction false} InsertShape<T>(x: T, s: seq<T>, key: T -> real) returns (p: nat)
    ensures p <= |s|
    ensures Insert(x, s, key) == s[..p] + [x] + s[p..]
    ensures forall i :: 0 <= i < p ==> key(s[i]) > key(x)
    ensures p < |s| ==> key(s[p]) <= key(x)
  {
    if s == [] || key(s[0]) <= key(x) {
      p := 0;
    } else {
      var q := InsertShape(x, s[1..], key);
      p := q + 1;
      assert s[1..][..q] == s[1..p];
      assert s[1..][q..] == s[p..];
      assert s[..p] == [s[0]] + s[1..p];
    }
  }

  lemma {:induction false} InsertSorted<T>(x: T, s: seq<T>, key: T -> real)
    requires SortedDesc(s, key)
    ensures SortedDesc(Insert(x, s, key), key)
    ensures multiset(Insert(x, s, key)) == multiset(s) + multiset{x}
  {
    var p := InsertShape(x, s, key);
    var r := Insert(x, s, key);
    assert s == s[..p] + s[p..];
    forall i, j | 0 <= i < j < |r| ensures key(r[i]) >= key(r[j]) {
      if j < p {
        assert r[i] == s[i] && r[j] == s[j];
      } else if j == p {
        assert r[i] == s[i];
      } else if i < p {
        assert r[i] == s[i] && r[j] == s[j - 1];
      } else if i == p {
        assert r[j] == s[j - 1];
        assert key(s[p]) >= key(s[j - 1]) || j - 1 == p;
      } else {
        assert r[i] == s[i - 1] && r[j] == s[j - 1];
      }
    }
  }

  /** The ranking is ordered by descending key and holds exactly the input's elements. */
  lemma {:induction false} SortDescSorted<T>(xs: seq<T>, key: T -> real)
    ensures |SortDesc(xs, key)| == |xs|
    ensures SortedDesc(SortDesc(xs, key), key)
    ensures multiset(SortDesc(xs, key)) == multiset(xs)
  {
    if xs != [] {
      SortDescSorted(xs[1..], key);
      InsertSorted(xs[0], SortDesc(xs[1..], key), key);
      assert xs == [xs[0]] + xs[1..];
      assert |multiset(SortDesc(xs, key))| == |multiset(xs)|;
    }
  }

  /** Where each element of `Insert(x, s)` comes from. */
  lemma InsertAt<T>(x: T, s: seq<T>, key: T -> real, p: nat)
    requires p <= |s| && Insert(x, s, key) == s[..p] + [x] + s[p..]
    ensures |Insert(x, s, key)| == |s| + 1 && Insert(x, s, key)[p] == x
    ensures forall a :: 0 <= a < p ==> Insert(x, s, key)[a] == s[a]
    ensures forall a :: p < a <= |s| ==> Insert(x, s, key)[a] == s[a - 1]
  {
  }

  /** Stability: two elements with the same key appear in their input order. */
  lemma {:induction false} SortDescKeepsTieOrder<T>(xs: seq<T>, key: T -> real)
    ensures KeepsTieOrder(xs, SortDesc(xs, key), key)
  {
    if xs != [] {
      var t := SortDesc(xs[1..], key);
      var r := SortDesc(xs, key);
      SortDescKeepsTieOrder(xs[1..], key);
      SortDescSorted(xs[1..], key);
      var p := InsertShape(xs[0], t, key);
      InsertAt(xs[0], t, key, p);
      forall a, b | 0 <= a < b < |r| && key(r[a]) == key(r[b])
        ensures exists i, j :: 0 <= i < j < |xs| && xs[i] == r[a] && xs[j] == r[b]
      {
        TieCase(xs, key, t, p, a, b);
      }
    }
  }

  lemma TieCase<T>(xs: seq<T>, key: T -> real, t: seq<T>, p: nat, a: nat, b: nat)
    requires xs != [] && t == SortDesc(xs[1..], key) && multiset(t) == multiset(xs[1..])
    requires KeepsTieOrder(xs[1..], t, key)
    requires p <= |t| && forall i :: 0 <= i < p ==> key(t[i]) > key(xs[0])
    requires a < b < |t| + 1
    requires var r := SortDesc(xs, key);
      |r| == |t| + 1 && r[p] == xs[0] &&
      (forall k :: 0 <= k < p ==> r[k] == t[k]) &&
      (forall k :: p < k <= |t| ==> r[k] == t[k - 1]) &&
      key(r[a]) == key(r[b])
    ensures var r := SortDesc(xs, key);
      exists i, j :: 0 <= i < j < |xs| && xs[i] == r[a] && xs[j] == r[b]
  {
    var r := SortDesc(xs, key);
    if b == p {
      assert false;
    } else if a == p {
      assert r[b] == t[b - 1];
      assert t[b - 1] in multiset(xs[1..]);
      var j' :| 0 <= j' < |xs[1..]| && xs[1..][j'] == t[b - 1];
      assert xs[0] == r[a] && xs[j' + 1] == r[b];
    } else {
      var a' := if a < p then a else a - 1;
      var b' := if b < p then b else b - 1;
      assert r[a] == t[a'] && r[b] == t[b'] && a' < b';
      var i', j' :| 0 <= i' < j' < |xs[1..]| && xs[1..][i'] == t[a'] && xs[1..][j'] == t[b'];
      assert xs[i' + 1] == r[a] && xs[j' + 1] == r[b];
    }
  }

  /** Two keys that order the elements alike give the same ranking. */
  lemma {:induction false} SortDescSameOrder<T>(xs: seq<T>, k1: T -> real, k2: T -> real)
    requires forall a, b :: a in xs && b in xs ==> (k1(a) <= k1(b) <==> k2(a) <= k2(b))
    ensures SortDesc(xs, k1) == SortDesc(xs, k2)
  {
    if xs != [] {
      SortDescSameOrder(xs[1..], k1, k2);
      SortDescSorted(xs[1..], k1);
      forall e | e in SortDesc(xs[1..], k1) ensures e in xs {
        assert e in multiset(SortDesc(xs[1..], k1));
      }
      InsertSameOrder(xs[0], SortDesc(xs[1..], k1), k1, k2, xs);
    }
  }

  lemma {:induction false} InsertSameOrder<T>(x: T, s: seq<T>, k1: T -> real, k2: T -> real, xs: seq<T>)
    requires x in xs && forall e :: e in s ==> e in xs
    requires forall a, b :: a in xs && b in xs ==> (k1(a) <= k1(b) <==> k2(a) <= k2(b))
    ensures Insert(x, s, k1) == Insert(x, s, k2)
  {
    if s != [] {
      assert s[0] in xs;
      InsertSameOrder(x, s[1..], k1, k2, xs);
    }
  }

  // Ranking class indices by a probability vector.

  function Indices(n: nat): (r: seq<nat>)
    ensures |r| == n && forall i :: 0 <= i < n ==> r[i] == i
  {
    if n == 0 then [] else Indices(n - 1) + [n - 1]
  }

  function ValueAt(p: seq<real>, i: int): real
  {
    if 0 <= i < |p| then p[i] else 0.0
  }

  function ValueKey(p: seq<real>): nat -> real
  {
    i => ValueAt(p, i)
  }

  /** `[...p.keys()].sort((a, b) => p[b] - p[a])`: the indices of `p`, most probable first. */
  function Ranking(p: seq<real>): seq<nat>
  {
    SortDesc(Indices(|p|), ValueKey(p))
  }

  /** The ranking lists every index of `p` and nothing else. */
  lemma RankingMembers(p: seq<real>)
    ensures |Ranking(p)| == |p|
    ensures multiset(Ranking(p)) == multiset(Indices(|p|))
    ensures forall i :: 0 <= i < |p| ==> i in Ranking(p)
    ensures forall a :: 0 <= a < |p| ==> Ranking(p)[a] < |p|
  {
    var xs := Indices(|p|);
    var r := Ranking(p);
    SortDescSorted(xs, ValueKey(p));
    forall i | 0 <= i < |p| ensures i in r {
      assert xs[i] == i;
      assert i in multiset(xs);
    }
    forall a | 0 <= a < |p| ensures r[a] < |p| {
      assert r[a] in multiset(xs);
      var k :| 0 <= k < |xs| && xs[k] == r[a];
    }
  }

  /** The ranking is by descending value, equal values by ascending index. */
  lemma RankingOrder(p: seq<real>)
    ensures |Ranking(p)| == |p|
    ensures forall a :: 0 <= a < |p| ==> Ranking(p)[a] < |p|
    ensures forall a, b :: 0 <= a < b < |p| ==>
      p[Ranking(p)[a]] > p[Ranking(p)[b]] ||
      (p[Ranking(p)[a]] == p[Ranking(p)[b]] && Ranking(p)[a] < Ranking(p)[b])
  {
    var key := ValueKey(p);
    var xs := Indices(|p|);
    var r := Ranking(p);
    RankingMembers(p);
    SortDescSorted(xs, key);
    SortDescKeepsTieOrder(xs, key);
    forall a, b | 0 <= a < b < |p|
      ensures p[r[a]] > p[r[b]] || (p[r[a]] == p[r[b]] && r[a] < r[b])
    {
      assert key(r[a]) == p[r[a]] && key(r[b]) == p[r[b]];
      assert key(r[a]) >= key(r[b]);
      if key(r[a]) == key(r[b]) {
        var i, j :| 0 <= i < j < |xs| && xs[i] == r[a] && xs[j] == r[b];
      }
    }
  }

  /** The head of the ranking is the first index holding the largest value. */
  lemma RankingHead(p: seq<real>)
    requires |p| > 0
    ensures Ranking(p)[0] < |p|
    ensures forall j :: 0 <= j < |p| ==> p[j] <= p[Ranking(p)[0]]
    ensures forall j :: 0 <= j < Ranking(p)[0] ==> p[j] < p[Ranking(p)[0]]
  {
    RankingMembers(p);
    RankingOrder(p);
    var r := Ranking(p);
    forall j | 0 <= j < |p| ensures p[j] <= p[r[0]] && (j < r[0] ==> p[j] < p[r[0]]) {
      assert j in r;
      var b :| 0 <= b < |r| && r[b] == j;
      if b != 0 {
        assert p[r[0]] > p[r[b]] || (p[r[0]] == p[r[b]] && r[0] < r[b]);
      }
    }
  }

  /** Vectors that order their entries alike have the same ranking. */
  lemma RankingSameOrder(p: seq<real>, q: seq<real>)
    requires |p| == |q|
    requires forall i, j :: 0 <= i < |p| && 0 <= j < |p| ==> (p[i] <= p[j] <==> q[i] <= q[j])
    ensures Ranking(p) == Ranking(q)
  {
    var xs := Indices(|p|);
    forall a, b | a in xs && b in xs
      ensures ValueAt(p, a) <= ValueAt(p, b) <==> ValueAt(q, a) <= ValueAt(q, b)
    {
      var i :| 0 <= i < |xs| && xs[i] == a;
      var j :| 0 <= j < |xs| && xs[j] == b;
    }
    SortDescSameOrder(xs, ValueKey(p), ValueKey(q));
  }
}
