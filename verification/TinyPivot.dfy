/** A regular matrix that the reference backend reports as SINGULAR. */
module TinyPivot {
  import opened Common
  import opened Vectors
  import opened Entries
  import opened SparseMatrix
  import opened Elimination
  import opened Backend

  /** 2⁻⁶⁰ */
  const TINY: real := 1.0 / 1152921504606846976.0

  /** A stored diagonal matrix of size two. */
  function DiagonalCsr(p: real, q: real): (m: Csr)
    ensures m.Valid() && m.rows == m.cols == 2
  {
    var m := Csr(2, 2, [0, 1, 2], [0, 1], [p, q]);
    assert m.Framed();
    m
  }

  /** The diagonal matrix of 1 and 2⁻⁶⁰. */
  const SCALED := DiagonalCsr(1.0, TINY)

  function Diagonal2(p: real, q: real): (d: Rows) {
    [[p, 0.0], [0.0, q]]
  }

  lemma {:induction false} Dot2(a: Vec, x: Vec, first: real, second: real)
    requires |a| == |x| == 2 && first == a[0] * x[0] && second == a[1] * x[1]
    ensures Dot(a, x) == first + second
  {
    DotSingle(a[0], x[0], first);
    assert a[..1] == [a[0]] && x[..1] == [x[0]];
  }

  lemma {:induction false} DiagonalIsRegular(p: real, q: real)
    requires p != 0.0 && q != 0.0
    ensures !HasKernel(Diagonal2(p, q), 2)
  {
    hide Dot;
    var d := Diagonal2(p, q);
    forall z: Vec | |z| == 2 && Annihilates(d, z) ensures z == Zeros(2) {
      Dot2(d[0], z, p * z[0], 0.0);
      Dot2(d[1], z, 0.0, q * z[1]);
      assert Dot(d[0], z) == 0.0 && Dot(d[1], z) == 0.0;
      ProductZero(p, z[0]);
      ProductZero(q, z[1]);
    }
  }

  lemma {:induction false} FirstColumn(p: real, q: real, tolerance: real)
    requires Abs(p) > tolerance >= 0.0
    ensures Cleared(Diagonal2(p, q), 2, 0) == Diagonal2(p, q)
  {
    var d := Diagonal2(p, q);
    assert Factor(d, 2, 0, 1) == 0.0;
    assert Axpy(d[1], -0.0, d[0]) == d[1];
  }

  /** The second column has no candidate above the tolerance. */
  lemma {:induction false} SecondColumnStuck(p: real, q: real, b: Vec, tolerance: real)
    requires |b| == 2 && Abs(p) > tolerance >= Abs(q)
    ensures Eliminated(Diagonal2(p, q), b, 2, tolerance, 2).None?
  {
    hide Cleared, ClearedTargets;
    var d := Diagonal2(p, q);
    assert PivotOf(d, 0, 0) == 0;
    assert PivotOf(d, 0, 1) == 0;
    assert Exchanged(d, 0, 0) == d;
    FirstColumn(p, q, tolerance);
    var e := Eliminated(d, b, 2, tolerance, 1);
    assert Eliminated(d, b, 2, tolerance, 0) == Some((d, b));
    assert e == ColumnStep(d, b, 2, tolerance, 0);
    assert e.value.0 == d;
    assert PivotOf(d, 1, 1) == 1;
  }

  lemma {:induction false} AbsSumSingle(v: real)
    ensures AbsSum([v]) == Abs(v)
  {
    assert [v][..0] == [];
  }

  lemma {:induction false} DiagonalRows(p: real, q: real)
    ensures RowData(DiagonalCsr(p, q), 0) == [p] && RowData(DiagonalCsr(p, q), 1) == [q]
  {
    assert [p, q][0..1] == [p] && [p, q][1..2] == [q];
  }

  lemma {:induction false} DiagonalNorm(p: real, q: real)
    requires Abs(q) <= Abs(p)
    ensures Norm(DiagonalCsr(p, q), 2) == Abs(p)
  {
    hide AbsSum, RowData, Csr.Valid;
    var m := DiagonalCsr(p, q);
    DiagonalRows(p, q);
    AbsSumSingle(p);
    AbsSumSingle(q);
    assert Norm(m, 0) == 0.0;
    assert Norm(m, 1) == Abs(p);
  }

  lemma {:induction false} DiagonalStored(p: real, q: real)
    ensures DiagonalCsr(p, q).Stored() == [Entry(0, 0, p), Entry(1, 1, q)]
  {
    var m := DiagonalCsr(p, q);
    assert m.RowEntries(0, 1) == [Entry(0, 0, p)] && m.RowEntries(1, 2) == [Entry(1, 1, q)];
    assert m.EntriesBelow(1) == [Entry(0, 0, p)];
  }

  lemma {:induction false} TwoEntries(e: Entry, f: Entry, i: nat, j: nat)
    ensures Value([e, f], i, j)
      == (if e.row == i && e.col == j then e.value else 0.0) + (if f.row == i && f.col == j then f.value else 0.0)
  {
    assert [e, f][..1] == [e];
    SingleEntry(e, i, j, []);
  }

  lemma {:induction false} DiagonalDense(p: real, q: real)
    ensures DenseOf(DiagonalCsr(p, q)) == Diagonal2(p, q)
  {
    hide Value, Csr.Stored, Csr.Valid;
    DiagonalStored(p, q);
    var d := DenseOf(DiagonalCsr(p, q));
    forall i, j | 0 <= i < 2 && 0 <= j < 2 ensures d[i][j] == Diagonal2(p, q)[i][j] {
      TwoEntries(Entry(0, 0, p), Entry(1, 1, q), i, j);
    }
    forall i | 0 <= i < 2 ensures d[i] == Diagonal2(p, q)[i] {
    }
  }

  /** It has only one solution for every right-hand side, and yet it is refused as singular. */
  lemma {:induction false} RegularYetRefused(rhs: Vec)
    requires |rhs| == 2
    ensures !HasKernel(DenseOf(SCALED), 2) && Triangular(SCALED, rhs).None?
  {
    hide Eliminated, DenseOf, Norm;
    DiagonalNorm(1.0, TINY);
    DiagonalDense(1.0, TINY);
    DiagonalIsRegular(1.0, TINY);
    SecondColumnStuck(1.0, TINY, rhs, Tolerance(SCALED));
  }

  /** The refusal. */
  method SolveScaled(rhs: Vec, policy: Policy) returns (r: Solve)
    requires |rhs| == 2 && policy.maxSize >= 2 && policy.maxStored >= 2
    ensures r == Solve(Singular, None)
  {
    RegularYetRefused(rhs);
    hide Triangular;
    r := SolveReference(SCALED, rhs, policy);
  }
}
