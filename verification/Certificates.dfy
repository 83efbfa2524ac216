/** The normalised residuals that the engine certifies an answer with. */
module Certificates {
  import opened Common
  import opened Vectors
  import opened Entries
  import opened SparseMatrix
  import opened Elimination
  import opened Backend
  import opened ConstrainedSolver

  /** `vector_infinity_norm` */
  function MaxAbs(v: Vec): (r: real)
    ensures r >= 0.0 && forall k :: 0 <= k < |v| ==> Abs(v[k]) <= r
    ensures r == 0.0 || exists k :: 0 <= k < |v| && Abs(v[k]) == r
  {
    if v == [] then 0.0
    else
      var n := |v| - 1;
      var rest := MaxAbs(v[..n]);
      assert forall k :: 0 <= k < n ==> v[..n][k] == v[k];
      if Abs(v[n]) > rest then Abs(v[n]) else rest
  }

  /** `_normalized_residual`; None is infinite. */
  function Normalized(residual: Vec, scale: real): (e: Option<real>) {
    if scale == 0.0 then if MaxAbs(residual) == 0.0 then Some(0.0) else None
    else Some(MaxAbs(residual) / scale)
  }

  /** No component exceeds the limit times the scale. */
  ghost predicate Bounded(residual: Vec, limit: real, scale: real) {
    forall k :: 0 <= k < |residual| ==> Abs(residual[k]) <= Scale(limit, scale)
  }

  lemma {:induction false} QuotientBounds(p: real, q: real, r: real, limit: real)
    requires q > 0.0 && r == p / q && r <= limit
    ensures p <= Scale(limit, q)
  {
    QuotientTimes(p, q, r);
    NonnegativeProduct(limit - r, q, (limit - r) * q);
  }

  /** What an accepted error says about every component, and the converse. */
  lemma {:induction false} NormalizedMeans(residual: Vec, scale: real, limit: real)
    requires scale >= 0.0 && limit >= 0.0
    ensures var e := Normalized(residual, scale); e.Some? && e.value <= limit ==> Bounded(residual, limit, scale)
    ensures (forall k :: 0 <= k < |residual| ==> residual[k] == 0.0) ==> Normalized(residual, scale) == Some(0.0)
  {
    var e := Normalized(residual, scale);
    hide MaxAbs;
    if e.Some? && e.value <= limit && scale > 0.0 {
      QuotientBounds(MaxAbs(residual), scale, e.value, limit);
    }
    assert Scale(limit, 0.0) == 0.0;
  }

  lemma {:induction false} ScaleNonnegative(c: real, v: real)
    requires c >= 0.0 && v >= 0.0
    ensures Scale(c, v) >= 0.0
  {
    NonnegativeProduct(c, v, Scale(c, v));
  }

  // ----- stationarity -----

  /** Mx - q + Cᵀu */
  function StationarityResidual(m: Csr, q: Vec, c: Csr, x: Vec, u: Vec): (r: Vec)
    requires m.Valid() && c.Valid() && |q| == m.rows
    ensures |r| == m.rows && forall i :: 0 <= i < m.rows ==>
      r[i] == RowDot(m.Stored(), i, x) - q[i] + RowDot(Transposed(c.Stored()), i, u)
  {
    seq(m.rows, i requires 0 <= i < m.rows => RowDot(m.Stored(), i, x) - q[i] + RowDot(Transposed(c.Stored()), i, u))
  }

  ghost function StationarityScale(m: Csr, q: Vec, c: Csr, x: Vec, u: Vec): (v: real)
    requires m.Valid() && c.Valid()
    ensures v >= 0.0
  {
    ScaleNonnegative(Norm(m, m.rows), MaxAbs(x));
    Scale(Norm(m, m.rows), MaxAbs(x)) + MaxAbs(q) + MaxAbs(Times(Transposed(c.Stored()), c.cols, u))
  }

  /** `_stationarity_error`; None when a length does not fit or the error is infinite. */
  method StationarityError(m: Csr, q: Vec, c: Csr, x: Vec, u: Vec) returns (e: Option<real>)
    requires m.Valid() && c.Valid() && m.rows == m.cols == c.cols == |q|
    ensures e ==
      if |x| != m.rows || |u| != c.rows then None
      else Normalized(StationarityResidual(m, q, c, x, u), StationarityScale(m, q, c, x, u))
  {
    hide Csr.Valid, RowDot, Normalized, MaxAbs, Scale, Norm, AbsSum, RowData;
    var product := MatVec(m, x);
    var transposed := TransposeMatVec(c, u);
    if product.None? || transposed.None? {
      return None;
    }
    var residual := seq(m.rows, i requires 0 <= i < m.rows => product.value[i] - q[i] + transposed.value[i]);
    assert residual == StationarityResidual(m, q, c, x, u);
    var norm := InfinityNorm(m);
    return Normalized(residual, Scale(norm, MaxAbs(x)) + MaxAbs(q) + MaxAbs(transposed.value));
  }

  // ----- rows -----

  /** Ax - b */
  function RowsResidual(a: Csr, b: Vec, x: Vec): (r: Vec)
    requires a.Valid() && |b| == a.rows
    ensures |r| == a.rows && forall k :: 0 <= k < a.rows ==> r[k] == RowDot(a.Stored(), k, x) - b[k]
  {
    seq(a.rows, k requires 0 <= k < a.rows => RowDot(a.Stored(), k, x) - b[k])
  }

  ghost function RowsScale(a: Csr, b: Vec, x: Vec): (v: real)
    requires a.Valid()
    ensures v >= 0.0
  {
    ScaleNonnegative(Norm(a, a.rows), MaxAbs(x));
    Scale(Norm(a, a.rows), MaxAbs(x)) + MaxAbs(b)
  }

  /** `_constraint_error`, and the reconstruction error of a reduced solution. */
  method RowsError(a: Csr, b: Vec, x: Vec) returns (e: Option<real>)
    requires a.Valid() && |b| == a.rows
    ensures e == if |x| != a.cols then None else Normalized(RowsResidual(a, b, x), RowsScale(a, b, x))
  {
    hide Csr.Valid, RowDot, Normalized, MaxAbs, Scale, Norm, AbsSum, RowData;
    var product := MatVec(a, x);
    if product.None? {
      return None;
    }
    var residual := seq(a.rows, k requires 0 <= k < a.rows => product.value[k] - b[k]);
    assert residual == RowsResidual(a, b, x);
    var norm := InfinityNorm(a);
    return Normalized(residual, Scale(norm, MaxAbs(x)) + MaxAbs(b));
  }

  /** A KKT point has no stationarity error. */
  lemma {:induction false} KktHasNoError(m: Csr, q: Vec, c: Csr, d: Vec, x: Vec, u: Vec)
    requires m.Valid() && c.Valid() && Kkt(m, q, c, d, x, u)
    ensures Normalized(StationarityResidual(m, q, c, x, u), StationarityScale(m, q, c, x, u)) == Some(0.0)
  {
    hide Csr.Valid, RowDot, Normalized, StationarityScale;
    NormalizedMeans(StationarityResidual(m, q, c, x, u), StationarityScale(m, q, c, x, u), 0.0);
  }
}
