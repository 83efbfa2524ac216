/** Elimination of coordinates: the Schur complement, the projected solve and the reconstruction. */
module Reduction {
  import opened Vectors
  import opened Entries
  import opened SparseMatrix
  import opened ConstraintCompiler
  import opened ConstrainedSolver

  // ----- the index split -----

  /** The indices below `n` that are not retained, in order. */
  function EliminatedOf(n: nat, retained: seq<nat>): (r: seq<nat>)
    ensures forall k: nat :: k in r <==> k < n && k !in retained
    ensures forall i :: 0 <= i < |r| ==> r[i] < n && r[i] !in retained
    ensures Distinct(r)
  {
    if n == 0 then []
    else
      var rest := EliminatedOf(n - 1, retained);
      if n - 1 in retained then rest else rest + [n - 1]
  }

  lemma {:induction false} SplitEnumerates(n: nat, retained: seq<nat>)
    requires Distinct(retained) && Within(retained, n)
    ensures Enumerates(retained + EliminatedOf(n, retained), n)
  {
    var r, e := retained, EliminatedOf(n, retained);
    forall k: nat | k < n ensures k in r + e {
      assert k in r || k in e;
    }
    forall i, j | 0 <= i < j < |r + e| ensures (r + e)[i] != (r + e)[j] {
      if i < |r| <= j {
        assert r[i] in r;
      }
    }
  }

  // ----- blocks -----

  /** Row `i` of the matrix, seen at some columns. */
  ghost function Block(es: seq<Entry>, n: nat, i: nat, across: seq<nat>): (v: Vec)
    requires Within(across, n)
    ensures |v| == |across|
  {
    Gather(RowOf(es, i, n), across)
  }

  /** A row's product splits over the retained and the eliminated coordinates. */
  lemma {:induction false} RowSplits(es: seq<Entry>, rows: nat, i: nat, x: Vec, one: seq<nat>, two: seq<nat>)
    requires InShape(es, rows, |x|) && Enumerates(one + two, |x|)
    ensures Within(one, |x|) && Within(two, |x|)
    ensures RowDot(es, i, x)
      == Dot(Block(es, |x|, i, one), Gather(x, one)) + Dot(Block(es, |x|, i, two), Gather(x, two))
  {
    hide RowDot, Dot;
    RowDotIsDot(es, i, x);
    DotSplit(RowOf(es, i, |x|), x, one, two);
  }

  /** The eliminated coordinates as an affine function of the retained ones: offset - columns · x. */
  ghost function Reconstructed(offset: Vec, columns: seq<Vec>, x: Vec): (v: Vec)
    requires |columns| == |x| && forall k :: 0 <= k < |columns| ==> |columns[k]| == |offset|
    ensures |v| == |offset|
  {
    Axpy(offset, -1.0, Combine(columns, x, |offset|))
  }

  lemma {:induction false} DotReconstructed(a: Vec, offset: Vec, columns: seq<Vec>, x: Vec)
    requires |a| == |offset| && |columns| == |x| && forall k :: 0 <= k < |columns| ==> |columns[k]| == |offset|
    ensures Dot(a, Reconstructed(offset, columns, x)) == Dot(a, offset) - Dot(Products(columns, a), x)
  {
    hide Dot, Combine, Axpy;
    DotAxpyRight(a, offset, -1.0, Combine(columns, x, |offset|));
    DotCombine(a, columns, x);
  }

  /** What the elimination solves establish about the blocks of M. */
  ghost predicate Eliminates(
    es: seq<Entry>, n: nat, q: Vec, retained: seq<nat>, eliminated: seq<nat>, offset: Vec, columns: seq<Vec>)
    requires Within(retained, n) && Within(eliminated, n) && |q| == n
  {
    && |offset| == |eliminated| && |columns| == |retained|
    && (forall k :: 0 <= k < |columns| ==> |columns[k]| == |eliminated|)
    && (forall b :: 0 <= b < |eliminated| ==>
          Dot(Block(es, n, eliminated[b], eliminated), offset) == q[eliminated[b]])
    && (forall b :: 0 <= b < |eliminated| ==>
          Products(columns, Block(es, n, eliminated[b], eliminated)) == Block(es, n, eliminated[b], retained))
  }

  /** The reduced system: M_RR - M_RE·columns and q_R - M_RE·offset. */
  ghost predicate SchurOf(
    schur: seq<Entry>, target: Vec, es: seq<Entry>, n: nat, q: Vec, retained: seq<nat>, eliminated: seq<nat>,
    offset: Vec, columns: seq<Vec>)
    requires Within(retained, n) && Within(eliminated, n) && |q| == n
    requires |offset| == |eliminated| && forall k :: 0 <= k < |columns| ==> |columns[k]| == |eliminated|
    requires |columns| == |retained|
  {
    && InShape(schur, |retained|, |retained|) && |target| == |retained|
    && (forall a :: 0 <= a < |retained| ==>
          var across := Block(es, n, retained[a], eliminated);
          && RowOf(schur, a, |retained|) == Axpy(Block(es, n, retained[a], retained), -1.0, Products(columns, across))
          && target[a] == q[retained[a]] - Dot(across, offset))
  }

  /** Full rows at eliminated coordinates hold by construction, whatever the retained solution is. */
  lemma {:induction false} EliminatedRow(
    es: seq<Entry>, q: Vec, retained: seq<nat>, eliminated: seq<nat>, offset: Vec, columns: seq<Vec>, x: Vec, b: nat)
    requires InShape(es, |x|, |x|) && |q| == |x| && Enumerates(retained + eliminated, |x|)
    requires Within(retained, |x|) && Within(eliminated, |x|) && b < |eliminated|
    requires Eliminates(es, |x|, q, retained, eliminated, offset, columns)
    requires Gather(x, eliminated) == Reconstructed(offset, columns, Gather(x, retained))
    ensures RowDot(es, eliminated[b], x) == q[eliminated[b]]
  {
    hide RowDot, Dot;
    RowSplits(es, |x|, eliminated[b], x, retained, eliminated);
    DotReconstructed(Block(es, |x|, eliminated[b], eliminated), offset, columns, Gather(x, retained));
  }

  /** Full rows at retained coordinates are the reduced rows. */
  lemma {:induction false} RetainedRow(
    schur: seq<Entry>, target: Vec, es: seq<Entry>, q: Vec, retained: seq<nat>, eliminated: seq<nat>,
    offset: Vec, columns: seq<Vec>, x: Vec, a: nat)
    requires InShape(es, |x|, |x|) && |q| == |x| && Enumerates(retained + eliminated, |x|)
    requires Within(retained, |x|) && Within(eliminated, |x|) && a < |retained|
    requires |offset| == |eliminated| && |columns| == |retained|
    requires forall k :: 0 <= k < |columns| ==> |columns[k]| == |eliminated|
    requires SchurOf(schur, target, es, |x|, q, retained, eliminated, offset, columns)
    requires Gather(x, eliminated) == Reconstructed(offset, columns, Gather(x, retained))
    ensures RowDot(es, retained[a], x) - q[retained[a]] == RowDot(schur, a, Gather(x, retained)) - target[a]
  {
    hide RowDot, Dot;
    var across, inner, xr := Block(es, |x|, retained[a], eliminated), Block(es, |x|, retained[a], retained), Gather(x, retained);
    RowSplits(es, |x|, retained[a], x, retained, eliminated);
    DotReconstructed(across, offset, columns, xr);
    RowDotIsDot(schur, a, xr);
    DotAxpy(inner, -1.0, Products(columns, across), xr);
  }

  // ----- constraints -----

  /** The constraint matrix vanishes outside the retained columns. */
  ghost predicate Confined(c: Csr, retained: seq<nat>)
    requires c.Valid()
  {
    forall r: nat, j: nat :: r < c.rows && j < c.cols && j !in retained ==> Value(c.Stored(), r, j) == 0.0
  }

  function AllRowsOf(n: nat): (r: seq<nat>)
    ensures |r| == n && forall i :: 0 <= i < n ==> r[i] == i
  {
    seq(n, i => i)
  }

  lemma {:induction false} DotAgainstZeros(a: Vec, x: Vec)
    requires |a| == |x| && forall k :: 0 <= k < |a| ==> a[k] == 0.0
    ensures Dot(a, x) == 0.0
  {
    assert a == Zeros(|x|);
    DotZeros(x);
  }

  /** Cx depends only on the retained coordinates, through the projected constraints. */
  lemma {:induction false} ConstraintRowSplits(c: Csr, sub: Csr, retained: seq<nat>, eliminated: seq<nat>, x: Vec, r: nat)
    requires c.Valid() && |x| == c.cols && Enumerates(retained + eliminated, |x|) && r < c.rows
    requires IsSubmatrix(sub, c, AllRowsOf(c.rows), retained) && Confined(c, retained)
    requires forall k :: 0 <= k < |eliminated| ==> eliminated[k] !in retained
    ensures RowDot(c.Stored(), r, x) == RowDot(sub.Stored(), r, Gather(x, retained))
  {
    hide RowDot, Dot, Csr.Valid;
    StoredInShape(c);
    StoredInShape(sub);
    RowSplits(c.Stored(), c.rows, r, x, retained, eliminated);
    SubmatrixRow(sub, c, AllRowsOf(c.rows), retained, r);
    RowDotIsDot(sub.Stored(), r, Gather(x, retained));
    var outside := Block(c.Stored(), |x|, r, eliminated);
    forall k | 0 <= k < |outside| ensures outside[k] == 0.0 {
      assert eliminated[k] !in retained;
    }
    DotAgainstZeros(outside, Gather(x, eliminated));
  }

  /** A retained column of C is the same column of the projected constraints. */
  lemma {:induction false} RetainedColumn(c: Csr, sub: Csr, retained: seq<nat>, u: Vec, a: nat)
    requires c.Valid() && IsSubmatrix(sub, c, AllRowsOf(c.rows), retained) && |u| == c.rows && a < |retained|
    ensures RowDot(Transposed(c.Stored()), retained[a], u) == RowDot(Transposed(sub.Stored()), a, u)
  {
    hide RowDot, Dot, Csr.Valid;
    StoredInShape(c);
    StoredInShape(sub);
    ColumnDot(c.Stored(), retained[a], u);
    ColumnDot(sub.Stored(), a, u);
    assert ColumnOf(c.Stored(), retained[a], |u|) == ColumnOf(sub.Stored(), a, |u|);
  }

  /** An eliminated column of C is zero. */
  lemma {:induction false} EliminatedColumn(c: Csr, retained: seq<nat>, u: Vec, j: nat)
    requires c.Valid() && Confined(c, retained) && |u| == c.rows && j < c.cols && j !in retained
    ensures RowDot(Transposed(c.Stored()), j, u) == 0.0
  {
    hide RowDot, Dot, Csr.Valid;
    StoredInShape(c);
    ColumnDot(c.Stored(), j, u);
    DotAgainstZeros(ColumnOf(c.Stored(), j, |u|), u);
  }

  // ----- the reduction record -----

  datatype StateReduction = StateReduction(
    matrix: Csr, rhs: Vec, constraints: Compiled, retained: seq<nat>, eliminated: seq<nat>,
    reduced: Csr, reducedRhs: Vec, projected: Compiled, operator: seq<Vec>, offset: Vec)

  /** The solved columns, read back from the reconstruction operator. */
  ghost function ColumnsFrom(operator: seq<Vec>, width: nat): (columns: seq<Vec>)
    requires forall b :: 0 <= b < |operator| ==> |operator[b]| == width
    ensures |columns| == width && forall k :: 0 <= k < width ==> |columns[k]| == |operator|
    ensures forall k, b :: 0 <= k < width && 0 <= b < |operator| ==> columns[k][b] == -operator[b][k]
  {
    seq(width, k requires 0 <= k < width => seq(|operator|, b requires 0 <= b < |operator| => -operator[b][k]))
  }

  /** The shapes the constructor of a reduction fixes. */
  ghost predicate ReductionShaped(r: StateReduction) {
    && r.matrix.Valid() && r.matrix.rows == r.matrix.cols == |r.rhs| && Shaped(r.constraints)
    && r.constraints.matrix.cols == r.matrix.rows
    && Distinct(r.retained) && Within(r.retained, r.matrix.rows) && r.eliminated == EliminatedOf(r.matrix.rows, r.retained)
    && r.reduced.Valid() && r.reduced.rows == r.reduced.cols == |r.retained| == |r.reducedRhs|
    && Shaped(r.projected) && r.projected.matrix.cols == |r.retained| && r.projected.rhs == r.constraints.rhs
    && |r.operator| == |r.eliminated| == |r.offset|
    && (forall b :: 0 <= b < |r.operator| ==> |r.operator[b]| == |r.retained|)
  }

  ghost predicate ReductionOk(r: StateReduction) {
    && ReductionShaped(r)
    && IsSubmatrix(r.projected.matrix, r.constraints.matrix, AllRowsOf(r.constraints.matrix.rows), r.retained)
    && Confined(r.constraints.matrix, r.retained)
    && var columns := ColumnsFrom(r.operator, |r.retained|);
    && Within(r.eliminated, r.matrix.rows)
    && Eliminates(r.matrix.Stored(), r.matrix.rows, r.rhs, r.retained, r.eliminated, r.offset, columns)
    && SchurOf(r.reduced.Stored(), r.reducedRhs, r.matrix.Stored(), r.matrix.rows, r.rhs, r.retained, r.eliminated,
               r.offset, columns)
  }

  /** A solution of the reduced system, reconstructed, solves the full one with the same multipliers. */
  lemma {:induction false} ReconstructionSolves(r: StateReduction, xr: Vec, u: Vec, x: Vec)
    requires ReductionOk(r) && Kkt(r.reduced, r.reducedRhs, r.projected.matrix, r.projected.rhs, xr, u)
    requires |x| == r.matrix.rows && Gather(x, r.retained) == xr
    requires Gather(x, r.eliminated) == Reconstructed(r.offset, ColumnsFrom(r.operator, |r.retained|), xr)
    ensures Kkt(r.matrix, r.rhs, r.constraints.matrix, r.constraints.rhs, x, u)
  {
    hide RowDot, Dot, Csr.Valid, Eliminates, SchurOf, ColumnsFrom, Confined, IsSubmatrix;
    var m, c := r.matrix, r.constraints.matrix;
    SplitEnumerates(|x|, r.retained);
    StoredInShape(m);
    forall i: nat | i < |x| ensures RowDot(m.Stored(), i, x) + RowDot(Transposed(c.Stored()), i, u) == r.rhs[i] {
      StationaryRow(r, xr, u, x, i);
    }
    SubmatrixRows(r.projected.matrix, c, r.retained);
    forall k | 0 <= k < c.rows ensures RowDot(c.Stored(), k, x) == r.constraints.rhs[k] {
      ConstraintRowSplits(c, r.projected.matrix, r.retained, r.eliminated, x, k);
      assert Times(r.projected.matrix.Stored(), r.projected.matrix.rows, xr)[k] == r.projected.rhs[k];
    }
    assert Times(c.Stored(), c.rows, x) == r.constraints.rhs;
  }

  lemma {:induction false} SubmatrixRows(sub: Csr, c: Csr, retained: seq<nat>)
    requires c.Valid() && IsSubmatrix(sub, c, AllRowsOf(c.rows), retained)
    ensures sub.rows == c.rows
  {
  }

  lemma {:induction false} StationaryRow(r: StateReduction, xr: Vec, u: Vec, x: Vec, i: nat)
    requires ReductionOk(r) && Kkt(r.reduced, r.reducedRhs, r.projected.matrix, r.projected.rhs, xr, u)
    requires |x| == r.matrix.rows && Gather(x, r.retained) == xr && i < |x|
    requires Gather(x, r.eliminated) == Reconstructed(r.offset, ColumnsFrom(r.operator, |r.retained|), xr)
    ensures RowDot(r.matrix.Stored(), i, x) + RowDot(Transposed(r.constraints.matrix.Stored()), i, u) == r.rhs[i]
  {
    hide RowDot, Dot, Csr.Valid, Eliminates, SchurOf, ColumnsFrom, Confined, IsSubmatrix;
    var m, c, columns := r.matrix, r.constraints.matrix, ColumnsFrom(r.operator, |r.retained|);
    SplitEnumerates(|x|, r.retained);
    StoredInShape(m);
    SubmatrixRows(r.projected.matrix, c, r.retained);
    if i in r.retained {
      var a :| 0 <= a < |r.retained| && r.retained[a] == i;
      RetainedRow(r.reduced.Stored(), r.reducedRhs, m.Stored(), r.rhs, r.retained, r.eliminated, r.offset, columns, x, a);
      RetainedColumn(c, r.projected.matrix, r.retained, u, a);
    } else {
      assert i in r.eliminated;
      var b :| 0 <= b < |r.eliminated| && r.eliminated[b] == i;
      EliminatedRow(m.Stored(), r.rhs, r.retained, r.eliminated, r.offset, columns, x, b);
      EliminatedColumn(c, r.retained, u, i);
    }
  }

  // ----- regularity survives the reduction -----

  function PositionIn(at: seq<nat>, i: nat): (k: nat)
    ensures i in at ==> k < |at| && at[k] == i
    ensures i !in at ==> k == |at|
  {
    if at == [] then 0 else if at[0] == i then 0 else 1 + PositionIn(at[1..], i)
  }

  /** The vector with two given parts. */
  ghost function Joined(n: nat, one: seq<nat>, two: seq<nat>, x: Vec, y: Vec): (v: Vec)
    requires |x| == |one| && |y| == |two|
    ensures |v| == n
  {
    seq(n, i requires 0 <= i < n =>
      if i in one then x[PositionIn(one, i)] else if i in two then y[PositionIn(two, i)] else 0.0)
  }

  lemma {:induction false} JoinedParts(n: nat, one: seq<nat>, two: seq<nat>, x: Vec, y: Vec)
    requires |x| == |one| && |y| == |two| && Within(one, n) && Within(two, n) && Distinct(one) && Distinct(two)
    requires forall k :: 0 <= k < |two| ==> two[k] !in one
    ensures Gather(Joined(n, one, two, x, y), one) == x && Gather(Joined(n, one, two, x, y), two) == y
  {
    forall k | 0 <= k < |one| ensures PositionIn(one, one[k]) == k {
    }
    forall k | 0 <= k < |two| ensures PositionIn(two, two[k]) == k {
    }
  }

  lemma {:induction false} DotOfZeros(a: Vec)
    ensures Dot(a, Zeros(|a|)) == 0.0
  {
    DotZeros(a);
    DotCommutes(a, Zeros(|a|));
  }

  /** The same reduction with all right-hand sides zero. */
  ghost function WithoutSources(r: StateReduction): (r0: StateReduction) {
    var c := r.constraints.(rhs := Zeros(|r.constraints.rhs|));
    var p := r.projected.(rhs := Zeros(|r.projected.rhs|));
    r.(rhs := Zeros(|r.rhs|), constraints := c, reducedRhs := Zeros(|r.reducedRhs|), projected := p, offset := Zeros(|r.offset|))
  }

  lemma {:induction false} WithoutSourcesOk(r: StateReduction)
    requires ReductionOk(r)
    ensures ReductionOk(WithoutSources(r))
  {
    hide RowDot, Dot, Csr.Valid, ColumnsFrom, Confined, IsSubmatrix, RowOf;
    var r0, columns, es, n := WithoutSources(r), ColumnsFrom(r.operator, |r.retained|), r.matrix.Stored(), r.matrix.rows;
    forall b | 0 <= b < |r.eliminated|
      ensures Dot(Block(es, n, r.eliminated[b], r.eliminated), r0.offset) == r0.rhs[r.eliminated[b]]
    {
      DotOfZeros(Block(es, n, r.eliminated[b], r.eliminated));
    }
    forall a | 0 <= a < |r.retained|
      ensures r0.reducedRhs[a] == r0.rhs[r.retained[a]] - Dot(Block(es, n, r.retained[a], r.eliminated), r0.offset)
    {
      DotOfZeros(Block(es, n, r.retained[a], r.eliminated));
    }
  }

  lemma {:induction false} ReducedZero(r: StateReduction, z: Vec, w: Vec)
    requires ReductionOk(r) && OnlyZero(r.matrix, r.constraints.matrix)
    requires Kkt(r.reduced, Zeros(r.reduced.rows), r.projected.matrix, Zeros(r.projected.matrix.rows), z, w)
    ensures z == Zeros(|z|) && w == Zeros(|w|)
  {
    hide RowDot, Dot, Csr.Valid, ColumnsFrom, Confined, IsSubmatrix, Eliminates, SchurOf, Kkt, Joined, Reconstructed;
    var r0, columns := WithoutSources(r), ColumnsFrom(r.operator, |r.retained|);
    WithoutSourcesOk(r);
    KktShape(r.reduced, Zeros(r.reduced.rows), r.projected.matrix, Zeros(r.projected.matrix.rows), z, w);
    var xe := Reconstructed(r0.offset, columns, z);
    var x := Joined(r.matrix.rows, r.retained, r.eliminated, z, xe);
    JoinedParts(r.matrix.rows, r.retained, r.eliminated, z, xe);
    ReconstructionSolves(r0, z, w, x);
    KktShape(r.matrix, r0.rhs, r.constraints.matrix, r0.constraints.rhs, x, w);
    assert x == Zeros(r.matrix.rows) && w == Zeros(r.constraints.matrix.rows);
    assert Gather(x, r.retained) == Zeros(|z|);
  }

  lemma {:induction false} KktShape(m: Csr, q: Vec, c: Csr, d: Vec, x: Vec, u: Vec)
    requires m.Valid() && c.Valid() && Kkt(m, q, c, d, x, u)
    ensures m.rows == m.cols == c.cols == |x| == |q| && c.rows == |d| == |u|
  {
  }

  /** If the full homogeneous system has only the zero solution, so has the reduced one. */
  lemma {:induction false} ReducedOnlyZero(r: StateReduction)
    requires ReductionOk(r) && OnlyZero(r.matrix, r.constraints.matrix)
    ensures OnlyZero(r.reduced, r.projected.matrix)
  {
    hide RowDot, Csr.Valid, Kkt, Eliminates, SchurOf, Confined, IsSubmatrix, ColumnsFrom;
    forall z: Vec, w: Vec | |z| == r.reduced.rows && |w| == r.projected.matrix.rows
      && Kkt(r.reduced, Zeros(r.reduced.rows), r.projected.matrix, Zeros(r.projected.matrix.rows), z, w)
      ensures z == Zeros(r.reduced.rows) && w == Zeros(r.projected.matrix.rows)
    {
      ReducedZero(r, z, w);
    }
  }
}
