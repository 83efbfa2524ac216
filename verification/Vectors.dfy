/** Vectors of exact reals: sums, products, and the reindexing facts the solver needs. */
module Vectors {

  type Vec = seq<real>

  function Get(x: Vec, k: nat): (v: real) {
    if k < |x| then x[k] else 0.0
  }

  function Zeros(n: nat): (z: Vec)
    ensures |z| == n && forall k :: 0 <= k < n ==> z[k] == 0.0
  {
    seq(n, _ => 0.0)
  }

  function Dot(a: Vec, b: Vec): (d: real)
    requires |a| == |b|
  {
    if |a| == 0 then 0.0
    else
      var n := |a| - 1;
      Dot(a[..n], b[..n]) + a[n] * b[n]
  }

  /** a + c·b */
  function Axpy(a: Vec, c: real, b: Vec): (r: Vec)
    requires |a| == |b|
    ensures |r| == |a| && forall k :: 0 <= k < |a| ==> r[k] == a[k] + c * b[k]
  {
    seq(|a|, k requires 0 <= k < |a| => a[k] + c * b[k])
  }

  /** w·p·q, named so that proofs can treat it as one term. */
  function Weighted(w: real, p: real, q: real): (v: real) {
    w * (p * q)
  }

  lemma {:induction false} AxpyPrefix(a: Vec, c: real, b: Vec)
    requires |a| == |b| > 0
    ensures var n := |a| - 1; Axpy(a, c, b)[..n] == Axpy(a[..n], c, b[..n])
  {
    var n := |a| - 1;
    forall k | 0 <= k < n ensures Axpy(a, c, b)[..n][k] == Axpy(a[..n], c, b[..n])[k] {
      assert a[..n][k] == a[k] && b[..n][k] == b[k];
    }
  }

  lemma {:induction false} Expand(c: real, p: real, q: real, r: real)
    ensures (p + c * q) * r == p * r + c * (q * r)
  {
  }

  lemma {:induction false} LastTerm(a: Vec, x: Vec, term: real)
    requires |a| == |x| > 0 && term == a[|a| - 1] * x[|a| - 1]
    ensures Dot(a, x) == Dot(a[..|a| - 1], x[..|a| - 1]) + term
  {
  }

  lemma {:induction false} GapReal(p: real, q: real, r: real, c: real, an: real, bn: real, xn: real, t: real, u: real, v: real)
    requires t == (an + c * bn) * xn && u == an * xn && v == bn * xn
    ensures (p + t) - ((q + u) + c * (r + v)) == p - (q + c * r)
  {
    Expand(c, an, bn, xn);
    Spread(c, r, v);
  }

  /** How far the product is from being linear: by nothing. */
  ghost function Gap(a: Vec, c: real, b: Vec, x: Vec): (v: real)
    requires |a| == |b| == |x|
  {
    Dot(Axpy(a, c, b), x) - (Dot(a, x) + c * Dot(b, x))
  }

  lemma {:induction false} GapStep(a: Vec, c: real, b: Vec, x: Vec)
    requires |a| == |b| == |x| > 0
    ensures var n := |a| - 1; Gap(a, c, b, x) == Gap(a[..n], c, b[..n], x[..n])
  {
    hide Dot;
    var n := |a| - 1;
    var t, u, v := Axpy(a, c, b)[n] * x[n], a[n] * x[n], b[n] * x[n];
    AxpyPrefix(a, c, b);
    LastTerm(a, x, u);
    LastTerm(b, x, v);
    LastTerm(Axpy(a, c, b), x, t);
    GapReal(Dot(Axpy(a[..n], c, b[..n]), x[..n]), Dot(a[..n], x[..n]), Dot(b[..n], x[..n]), c, a[n], b[n], x[n], t, u, v);
  }

  lemma {:induction false} GapIsZero(a: Vec, c: real, b: Vec, x: Vec)
    requires |a| == |b| == |x|
    ensures Gap(a, c, b, x) == 0.0
  {
    if |a| > 0 {
      hide Gap;
      GapIsZero(a[..|a| - 1], c, b[..|a| - 1], x[..|a| - 1]);
      GapStep(a, c, b, x);
    }
  }

  /** The product is linear. */
  lemma {:induction false} DotAxpy(a: Vec, c: real, b: Vec, x: Vec)
    requires |a| == |b| == |x|
    ensures Dot(Axpy(a, c, b), x) == Dot(a, x) + c * Dot(b, x)
  {
    hide Dot;
    GapIsZero(a, c, b, x);
  }

  lemma {:induction false} Spread(c: real, p: real, q: real)
    ensures c * (p + q) == c * p + c * q
  {
  }

  lemma {:induction false} DotCommutes(a: Vec, b: Vec)
    requires |a| == |b|
    ensures Dot(a, b) == Dot(b, a)
  {
    if |a| > 0 {
      DotCommutes(a[..|a| - 1], b[..|b| - 1]);
    }
  }

  lemma {:induction false} DotZeros(a: Vec)
    ensures Dot(Zeros(|a|), a) == 0.0
  {
    if |a| > 0 {
      var n := |a| - 1;
      DotZeros(a[..n]);
      assert Zeros(|a|)[..n] == Zeros(n);
    }
  }

  /** Changing one component changes the product by that component's share. */
  lemma {:induction false} DotUpdate(a: Vec, k: nat, v: real, x: Vec)
    requires |a| == |x| && k < |a|
    ensures Dot(a[k := a[k] + v], x) == Dot(a, x) + v * x[k]
  {
    var n := |a| - 1;
    var a' := a[k := a[k] + v];
    if k < n {
      DotUpdate(a[..n], k, v, x[..n]);
      assert a'[..n] == a[..n][k := a[k] + v];
    } else {
      assert a'[..n] == a[..n];
      Expand(1.0, a[n], v, x[n]);
    }
  }

  lemma {:induction false} PositiveProduct(p: real, q: real, r: real)
    requires p > 0.0 && q > 0.0 && r == p * q
    ensures r > 0.0
  {
  }

  lemma {:induction false} SquarePositive(v: real, square: real)
    requires square == v * v
    ensures v != 0.0 ==> square > 0.0
    ensures v == 0.0 ==> square == 0.0
  {
    if v > 0.0 {
      PositiveProduct(v, v, square);
    } else if v < 0.0 {
      PositiveProduct(-v, -v, square);
    }
  }

  lemma {:induction false} DotSelf(a: Vec)
    ensures Dot(a, a) >= 0.0
    ensures Dot(a, a) == 0.0 ==> a == Zeros(|a|)
  {
    if |a| > 0 {
      var n := |a| - 1;
      DotSelf(a[..n]);
      var square := a[n] * a[n];
      SquarePositive(a[n], square);
      assert Dot(a, a) == Dot(a[..n], a[..n]) + square;
      if Dot(a, a) == 0.0 {
        assert a == a[..n] + [a[n]] == Zeros(|a|);
      }
    }
  }

  lemma {:induction false} DotConcat(a: Vec, b: Vec, x: Vec, y: Vec)
    requires |a| == |x| && |b| == |y|
    ensures Dot(a + b, x + y) == Dot(a, x) + Dot(b, y)
    decreases |b|
  {
    if |b| == 0 {
      assert a + b == a && x + y == x;
    } else {
      var n := |b| - 1;
      DotConcat(a, b[..n], x, y[..n]);
      assert (a + b)[..|a + b| - 1] == a + b[..n] && (x + y)[..|x + y| - 1] == x + y[..n];
    }
  }

  lemma {:induction false} DotVanishes(a: Vec, x: Vec)
    requires |a| == |x| && forall k :: 0 <= k < |a| ==> a[k] == 0.0 || x[k] == 0.0
    ensures Dot(a, x) == 0.0
  {
    if |a| > 0 {
      DotVanishes(a[..|a| - 1], x[..|a| - 1]);
    }
  }

  // ----- reindexing -----

  function Gather(x: Vec, at: seq<nat>): (r: Vec)
    requires forall k :: 0 <= k < |at| ==> at[k] < |x|
    ensures |r| == |at| && forall k :: 0 <= k < |at| ==> r[k] == x[at[k]]
  {
    seq(|at|, k requires 0 <= k < |at| => x[at[k]])
  }

  /** `at` lists every index below `n` exactly once. */
  ghost predicate Enumerates(at: seq<nat>, n: nat) {
    && (forall i :: 0 <= i < |at| ==> at[i] < n)
    && (forall i, j :: 0 <= i < j < |at| ==> at[i] != at[j])
    && (forall k: nat :: k < n ==> k in at)
  }

  function Without(at: seq<nat>, p: nat): (r: seq<nat>)
    requires p < |at|
    ensures |r| == |at| - 1
    ensures forall i :: 0 <= i < |r| ==> r[i] == if i < p then at[i] else at[i + 1]
  {
    at[..p] + at[p + 1..]
  }

  /** The position of the largest index, without which the rest enumerates one index less. */
  lemma {:induction false} EnumerationHasLast(at: seq<nat>, n: nat) returns (p: nat)
    requires Enumerates(at, n) && n > 0
    ensures p < |at| && at[p] == n - 1 && Enumerates(Without(at, p), n - 1)
  {
    var last: nat := n - 1;
    assert last in at;
    p :| p < |at| && at[p] == last;
    var rest := Without(at, p);
    forall k: nat | k < last ensures k in rest {
      assert k in at;
      var i: nat :| i < |at| && at[i] == k;
      assert rest[if i < p then i else i - 1] == k;
    }
  }

  lemma {:induction false} DotSingle(p: real, q: real, term: real)
    requires term == p * q
    ensures Dot([p], [q]) == term
  {
    assert [p][..0] == [] && [q][..0] == [];
  }

  lemma {:induction false} DotMiddle(a: Vec, m: real, b: Vec, x: Vec, n: real, y: Vec, term: real)
    requires |a| == |x| && |b| == |y| && term == m * n
    ensures Dot(a + ([m] + b), x + ([n] + y)) == Dot(a + b, x + y) + term
  {
    DotSingle(m, n, term);
    hide Dot;
    DotConcat(a, [m] + b, x, [n] + y);
    DotConcat([m], b, [n], y);
    DotConcat(a, b, x, y);
  }

  /** Taking one pair out of a product. */
  lemma {:induction false} DotRemove(a: Vec, x: Vec, p: nat, term: real)
    requires |a| == |x| && p < |a| && term == a[p] * x[p]
    ensures Dot(a, x) == Dot(a[..p] + a[p + 1..], x[..p] + x[p + 1..]) + term
  {
    hide Dot;
    assert a == a[..p] + ([a[p]] + a[p + 1..]) && x == x[..p] + ([x[p]] + x[p + 1..]);
    DotMiddle(a[..p], a[p], a[p + 1..], x[..p], x[p], x[p + 1..], term);
  }

  lemma {:induction false} GatherWithout(a: Vec, at: seq<nat>, p: nat)
    requires Enumerates(at, |a|) && p < |at| && at[p] == |a| - 1
    ensures forall k :: 0 <= k < |at| - 1 ==> Without(at, p)[k] < |a| - 1
    ensures Gather(a, at)[..p] + Gather(a, at)[p + 1..] == Gather(a[..|a| - 1], Without(at, p))
  {
  }

  /** Leaving out the pair of the largest index. */
  lemma {:induction false} ReorderStep(a: Vec, x: Vec, at: seq<nat>, p: nat, term: real)
    requires |a| == |x| > 0 && Enumerates(at, |a|) && p < |at| && at[p] == |a| - 1 && term == a[|a| - 1] * x[|a| - 1]
    ensures forall k :: 0 <= k < |at| - 1 ==> Without(at, p)[k] < |a| - 1
    ensures Dot(Gather(a, at), Gather(x, at))
      == Dot(Gather(a[..|a| - 1], Without(at, p)), Gather(x[..|a| - 1], Without(at, p))) + term
  {
    hide Dot;
    GatherWithout(a, at, p);
    GatherWithout(x, at, p);
    DotRemove(Gather(a, at), Gather(x, at), p, term);
  }

  /** The reordered and the plain product change alike when the largest index is left out. */
  lemma {:induction false} SameChange(a: Vec, x: Vec, at: seq<nat>, p: nat)
    requires |a| == |x| > 0 && Enumerates(at, |a|) && p < |at| && at[p] == |a| - 1
    ensures forall k :: 0 <= k < |at| - 1 ==> Without(at, p)[k] < |a| - 1
    ensures var n := |a| - 1;
      Dot(Gather(a, at), Gather(x, at)) - Dot(a, x)
      == Dot(Gather(a[..n], Without(at, p)), Gather(x[..n], Without(at, p))) - Dot(a[..n], x[..n])
  {
    hide Dot;
    var term := a[|a| - 1] * x[|a| - 1];
    ReorderStep(a, x, at, p, term);
    LastTerm(a, x, term);
  }

  lemma {:induction false} NothingEnumerated(n: nat)
    requires Enumerates([], n)
    ensures n == 0
  {
    var none: seq<nat> := [];
    var zero: nat := 0;
    assert n > 0 ==> zero in none;
  }

  /** A product does not depend on the order of its components. */
  lemma {:induction false} DotReordered(a: Vec, x: Vec, at: seq<nat>)
    requires |a| == |x| && Enumerates(at, |a|)
    ensures Dot(Gather(a, at), Gather(x, at)) == Dot(a, x)
    decreases |a|
  {
    hide Without;
    if at == [] {
      NothingEnumerated(|a|);
    } else {
      hide Dot;
      assert at[0] < |a|;
      var p := EnumerationHasLast(at, |a|);
      SameChange(a, x, at, p);
      DotReordered(a[..|a| - 1], x[..|a| - 1], Without(at, p));
    }
  }

  /** A product splits over any two index lists that together enumerate the components. */
  lemma {:induction false} DotSplit(a: Vec, x: Vec, one: seq<nat>, two: seq<nat>)
    requires |a| == |x| && Enumerates(one + two, |a|)
    ensures (forall k :: 0 <= k < |one| ==> one[k] < |a|) && (forall k :: 0 <= k < |two| ==> two[k] < |a|)
    ensures Dot(a, x) == Dot(Gather(a, one), Gather(x, one)) + Dot(Gather(a, two), Gather(x, two))
  {
    hide Dot;
    assert forall k :: 0 <= k < |one| ==> one[k] == (one + two)[k];
    assert forall k :: 0 <= k < |two| ==> two[k] == (one + two)[|one| + k];
    DotReordered(a, x, one + two);
    assert Gather(a, one + two) == Gather(a, one) + Gather(a, two);
    assert Gather(x, one + two) == Gather(x, one) + Gather(x, two);
    DotConcat(Gather(a, one), Gather(a, two), Gather(x, one), Gather(x, two));
  }

  // ----- linear combinations of columns -----

  /** x[0]·columns[0] + x[1]·columns[1] + … */
  function Combine(columns: seq<Vec>, x: Vec, n: nat): (r: Vec)
    requires |columns| == |x| && forall c :: 0 <= c < |columns| ==> |columns[c]| == n
    ensures |r| == n
  {
    if |x| == 0 then Zeros(n)
    else
      var m := |x| - 1;
      Axpy(Combine(columns[..m], x[..m], n), x[m], columns[m])
  }

  function Products(columns: seq<Vec>, a: Vec): (r: Vec)
    requires forall c :: 0 <= c < |columns| ==> |columns[c]| == |a|
    ensures |r| == |columns| && forall k :: 0 <= k < |columns| ==> r[k] == Dot(a, columns[k])
  {
    seq(|columns|, k requires 0 <= k < |columns| => Dot(a, columns[k]))
  }

  lemma {:induction false} DotAxpyRight(a: Vec, p: Vec, c: real, q: Vec)
    requires |a| == |p| == |q|
    ensures Dot(a, Axpy(p, c, q)) == Dot(a, p) + c * Dot(a, q)
  {
    hide Dot, Axpy;
    DotAxpy(p, c, q, a);
    DotCommutes(a, Axpy(p, c, q));
    DotCommutes(p, a);
    DotCommutes(q, a);
  }

  lemma {:induction false} DotSum(a: Vec, p: Vec, q: Vec)
    requires |a| == |p| == |q|
    ensures Dot(a, Axpy(p, 1.0, q)) == Dot(a, p) + Dot(a, q)
  {
    hide Dot, Axpy;
    DotAxpyRight(a, p, 1.0, q);
    var unit := 1.0;
    assert unit * Dot(a, q) == Dot(a, q);
  }

  lemma {:induction false} DotCombine(a: Vec, columns: seq<Vec>, x: Vec)
    requires |columns| == |x| && forall c :: 0 <= c < |columns| ==> |columns[c]| == |a|
    ensures Dot(a, Combine(columns, x, |a|)) == Dot(Products(columns, a), x)
    decreases |x|
  {
    if |x| == 0 {
      DotZeros(a);
      DotCommutes(a, Zeros(|a|));
    } else {
      var m := |x| - 1;
      hide Dot;
      DotCombine(a, columns[..m], x[..m]);
      assert Products(columns, a)[..m] == Products(columns[..m], a);
      LastTerm(Products(columns, a), x, Dot(a, columns[m]) * x[m]);
      DotAxpyRight(a, Combine(columns[..m], x[..m], |a|), x[m], columns[m]);
    }
  }

  /** Component `k` of a combination is the product of the columns' components `k` with the coefficients. */
  lemma {:induction false} CombineAt(columns: seq<Vec>, x: Vec, n: nat, k: nat)
    requires |columns| == |x| && (forall c :: 0 <= c < |columns| ==> |columns[c]| == n) && k < n
    ensures Combine(columns, x, n)[k] == Dot(seq(|x|, c requires 0 <= c < |x| => columns[c][k]), x)
    decreases |x|
  {
    if |x| > 0 {
      var m := |x| - 1;
      CombineAt(columns[..m], x[..m], n, k);
      var components := seq(|x|, c requires 0 <= c < |x| => columns[c][k]);
      assert components[..m] == seq(m, c requires 0 <= c < m => columns[..m][c][k]);
    }
  }
}
