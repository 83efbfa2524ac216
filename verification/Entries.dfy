/** Coordinate lists and the linear maps they stand for. Repeated coordinates add up. */
module Entries {
  import opened Vectors

  datatype Entry = Entry(row: nat, col: nat, value: real)

  ghost predicate InShape(es: seq<Entry>, rows: nat, cols: nat) {
    forall k :: 0 <= k < |es| ==> es[k].row < rows && es[k].col < cols
  }

  /** The matrix element at (i, j). */
  function Value(es: seq<Entry>, i: nat, j: nat): (v: real) {
    if es == [] then 0.0
    else
      var e := es[|es| - 1];
      Value(es[..|es| - 1], i, j) + (if e.row == i && e.col == j then e.value else 0.0)
  }

  /** What one entry contributes to row `i` times `x`. */
  function RowTerm(e: Entry, i: nat, x: Vec): (v: real) {
    if e.row == i then e.value * Get(x, e.col) else 0.0
  }

  /** Row `i` times `x`. */
  function RowDot(es: seq<Entry>, i: nat, x: Vec): (v: real) {
    if es == [] then 0.0 else RowDot(es[..|es| - 1], i, x) + RowTerm(es[|es| - 1], i, x)
  }

  /** The bilinear form yᵀAx. */
  function Form(es: seq<Entry>, y: Vec, x: Vec): (v: real) {
    if es == [] then 0.0
    else
      var e := es[|es| - 1];
      Form(es[..|es| - 1], y, x) + Weighted(e.value, Get(y, e.row), Get(x, e.col))
  }

  function Flipped(e: Entry): (r: Entry) {
    Entry(e.col, e.row, e.value)
  }

  function Transposed(es: seq<Entry>): (r: seq<Entry>)
    ensures |r| == |es| && forall k :: 0 <= k < |es| ==> r[k] == Flipped(es[k])
  {
    seq(|es|, k requires 0 <= k < |es| => Flipped(es[k]))
  }

  /** The vector Ax. */
  function Times(es: seq<Entry>, rows: nat, x: Vec): (r: Vec)
    ensures |r| == rows && forall i :: 0 <= i < rows ==> r[i] == RowDot(es, i, x)
  {
    seq(rows, i requires 0 <= i < rows => RowDot(es, i, x))
  }

  function RowOf(es: seq<Entry>, i: nat, cols: nat): (r: Vec)
    ensures |r| == cols && forall j :: 0 <= j < cols ==> r[j] == Value(es, i, j)
  {
    seq(cols, j requires 0 <= j < cols => Value(es, i, j))
  }

  /** The two lists stand for the same matrix. */
  ghost predicate SameMatrix(es: seq<Entry>, fs: seq<Entry>, rows: nat, cols: nat) {
    && InShape(es, rows, cols) && InShape(fs, rows, cols)
    && forall i: nat, j: nat :: i < rows && j < cols ==> Value(es, i, j) == Value(fs, i, j)
  }

  // ----- lists -----

  lemma {:induction false} SingleEntry(e: Entry, i: nat, j: nat, x: Vec)
    ensures Value([e], i, j) == if e.row == i && e.col == j then e.value else 0.0
    ensures RowDot([e], i, x) == if e.row == i then e.value * Get(x, e.col) else 0.0
  {
    assert [e][..0] == [];
  }

  lemma {:induction false} RowDotConcat(es: seq<Entry>, fs: seq<Entry>, i: nat, x: Vec)
    ensures RowDot(es + fs, i, x) == RowDot(es, i, x) + RowDot(fs, i, x)
    decreases |fs|
  {
    hide RowTerm;
    if fs == [] {
      assert es + fs == es;
    } else {
      var n := |fs| - 1;
      RowDotConcat(es, fs[..n], i, x);
      assert (es + fs)[..|es + fs| - 1] == es + fs[..n];
    }
  }

  lemma {:induction false} ValueConcat(es: seq<Entry>, fs: seq<Entry>, i: nat, j: nat)
    ensures Value(es + fs, i, j) == Value(es, i, j) + Value(fs, i, j)
    decreases |fs|
  {
    if fs == [] {
      assert es + fs == es;
    } else {
      var n := |fs| - 1;
      ValueConcat(es, fs[..n], i, j);
      assert (es + fs)[..|es + fs| - 1] == es + fs[..n];
    }
  }

  lemma {:induction false} FormConcat(es: seq<Entry>, fs: seq<Entry>, y: Vec, x: Vec)
    ensures Form(es + fs, y, x) == Form(es, y, x) + Form(fs, y, x)
    decreases |fs|
  {
    hide Weighted;
    if fs == [] {
      assert es + fs == es;
    } else {
      var n := |fs| - 1;
      FormConcat(es, fs[..n], y, x);
      assert (es + fs)[..|es + fs| - 1] == es + fs[..n];
    }
  }

  lemma {:induction false} TransposedValue(es: seq<Entry>, i: nat, j: nat)
    ensures Value(Transposed(es), j, i) == Value(es, i, j)
  {
    if es != [] {
      var n := |es| - 1;
      TransposedValue(es[..n], i, j);
      assert Transposed(es)[..n] == Transposed(es[..n]);
    }
  }

  lemma {:induction false} Swap(v: real, p: real, q: real)
    ensures Weighted(v, p, q) == Weighted(v, q, p)
  {
  }

  lemma {:induction false} TransposedForm(es: seq<Entry>, y: Vec, x: Vec)
    ensures Form(Transposed(es), x, y) == Form(es, y, x)
  {
    if es != [] {
      var n := |es| - 1;
      TransposedForm(es[..n], y, x);
      assert Transposed(es)[..n] == Transposed(es[..n]);
      Swap(es[n].value, Get(x, es[n].col), Get(y, es[n].row));
    }
  }

  // ----- the matrix behind a list -----

  lemma {:induction false} RowOfLast(es: seq<Entry>, i: nat, cols: nat)
    requires es != [] && es[|es| - 1].col < cols
    ensures var n := |es| - 1; var rest := RowOf(es[..n], i, cols); var e := es[n];
      RowOf(es, i, cols) == if e.row == i then rest[e.col := rest[e.col] + e.value] else rest
  {
  }

  /** A row times a vector depends only on the row's elements. */
  lemma {:induction false} RowDotIsDot(es: seq<Entry>, i: nat, x: Vec)
    requires forall k :: 0 <= k < |es| ==> es[k].col < |x|
    ensures RowDot(es, i, x) == Dot(RowOf(es, i, |x|), x)
  {
    if es == [] {
      assert RowOf(es, i, |x|) == Zeros(|x|);
      DotZeros(x);
    } else {
      hide Dot;
      var n := |es| - 1;
      RowDotIsDot(es[..n], i, x);
      RowOfLast(es, i, |x|);
      if es[n].row == i {
        DotUpdate(RowOf(es[..n], i, |x|), es[n].col, es[n].value, x);
      }
    }
  }

  lemma {:induction false} TimesLast(es: seq<Entry>, rows: nat, x: Vec, share: real)
    requires es != [] && es[|es| - 1].row < rows && share == es[|es| - 1].value * Get(x, es[|es| - 1].col)
    ensures var n := |es| - 1; var rest := Times(es[..n], rows, x); var e := es[n];
      Times(es, rows, x) == rest[e.row := rest[e.row] + share]
  {
    var n := |es| - 1;
    var e := es[n];
    forall i: nat | i < rows ensures RowTerm(e, i, x) == if i == e.row then share else 0.0 {
    }
    hide RowTerm;
  }

  lemma {:induction false} FormLast(es: seq<Entry>, y: Vec, x: Vec, share: real, term: real)
    requires es != [] && share == es[|es| - 1].value * Get(x, es[|es| - 1].col) && term == share * Get(y, es[|es| - 1].row)
    ensures Form(es, y, x) == Form(es[..|es| - 1], y, x) + term
  {
  }

  lemma {:induction false} TimesDotLast(es: seq<Entry>, y: Vec, x: Vec, share: real, term: real)
    requires es != [] && es[|es| - 1].row < |y|
    requires share == es[|es| - 1].value * Get(x, es[|es| - 1].col) && term == share * Get(y, es[|es| - 1].row)
    ensures Dot(Times(es, |y|, x), y) == Dot(Times(es[..|es| - 1], |y|, x), y) + term
  {
    hide Dot;
    var n := |es| - 1;
    TimesLast(es, |y|, x, share);
    DotUpdate(Times(es[..n], |y|, x), es[n].row, share, y);
  }

  /** The form is the product of `y` with Ax. */
  lemma {:induction false} FormIsDot(es: seq<Entry>, y: Vec, x: Vec)
    requires forall k :: 0 <= k < |es| ==> es[k].row < |y|
    ensures Form(es, y, x) == Dot(Times(es, |y|, x), y)
  {
    if es == [] {
      assert Times(es, |y|, x) == Zeros(|y|);
      DotZeros(y);
    } else {
      hide Dot, Form, Times;
      var n := |es| - 1;
      FormIsDot(es[..n], y, x);
      var share := es[n].value * Get(x, es[n].col);
      FormLast(es, y, x, share, share * Get(y, es[n].row));
      TimesDotLast(es, y, x, share, share * Get(y, es[n].row));
    }
  }

  lemma {:induction false} SameRowDot(es: seq<Entry>, fs: seq<Entry>, rows: nat, x: Vec, i: nat)
    requires SameMatrix(es, fs, rows, |x|) && i < rows
    ensures RowDot(es, i, x) == RowDot(fs, i, x)
  {
    RowDotIsDot(es, i, x);
    RowDotIsDot(fs, i, x);
    assert RowOf(es, i, |x|) == RowOf(fs, i, |x|);
  }

  lemma {:induction false} SameForm(es: seq<Entry>, fs: seq<Entry>, y: Vec, x: Vec)
    requires SameMatrix(es, fs, |y|, |x|)
    ensures Form(es, y, x) == Form(fs, y, x)
  {
    FormIsDot(es, y, x);
    FormIsDot(fs, y, x);
    forall i: nat | i < |y| ensures Times(es, |y|, x)[i] == Times(fs, |y|, x)[i] {
      SameRowDot(es, fs, |y|, x, i);
    }
    assert Times(es, |y|, x) == Times(fs, |y|, x);
  }

  lemma {:induction false} SameTransposed(es: seq<Entry>, fs: seq<Entry>, rows: nat, cols: nat)
    requires SameMatrix(es, fs, rows, cols)
    ensures SameMatrix(Transposed(es), Transposed(fs), cols, rows)
  {
    forall i: nat, j: nat | i < cols && j < rows ensures Value(Transposed(es), i, j) == Value(Transposed(fs), i, j) {
      TransposedValue(es, j, i);
      TransposedValue(fs, j, i);
    }
  }

  /** Moving a matrix across a product: (Ax)·y == x·(Aᵀy). */
  lemma {:induction false} Adjoint(es: seq<Entry>, y: Vec, x: Vec)
    requires InShape(es, |y|, |x|)
    ensures Dot(Times(es, |y|, x), y) == Dot(Times(Transposed(es), |x|, y), x)
  {
    FormIsDot(es, y, x);
    FormIsDot(Transposed(es), x, y);
    TransposedForm(es, y, x);
  }

  /** c·v, named so that proofs can treat it as one term. */
  function Scale(c: real, v: real): (r: real) {
    c * v
  }

  lemma {:induction false} ScaleAdds(c: real, p: real, q: real)
    ensures Scale(c, p + q) == Scale(c, p) + Scale(c, q) && Scale(c, 0.0) == 0.0
  {
    Spread(c, p, q);
  }

  lemma {:induction false} RowTermAxpy(e: Entry, i: nat, x: Vec, c: real, z: Vec)
    requires |x| == |z|
    ensures RowTerm(e, i, Axpy(x, c, z)) == RowTerm(e, i, x) + Scale(c, RowTerm(e, i, z))
  {
    assert Get(Axpy(x, c, z), e.col) == Get(x, e.col) + c * Get(z, e.col);
    Expand(c, Get(x, e.col), Get(z, e.col), e.value);
  }

  lemma {:induction false} RowDotUnfold(es: seq<Entry>, i: nat, x: Vec)
    requires es != []
    ensures RowDot(es, i, x) == RowDot(es[..|es| - 1], i, x) + RowTerm(es[|es| - 1], i, x)
  {
  }

  lemma {:induction false} RowDotScaled(es: seq<Entry>, i: nat, x: Vec, c: real, z: Vec)
    requires |x| == |z|
    ensures RowDot(es, i, Axpy(x, c, z)) == RowDot(es, i, x) + Scale(c, RowDot(es, i, z))
  {
    hide RowTerm, Axpy, Scale;
    if es == [] {
      ScaleAdds(c, 0.0, 0.0);
    } else {
      var n := |es| - 1;
      RowDotScaled(es[..n], i, x, c, z);
      RowTermAxpy(es[n], i, x, c, z);
      RowDotUnfold(es, i, x);
      RowDotUnfold(es, i, z);
      RowDotUnfold(es, i, Axpy(x, c, z));
      ScaleAdds(c, RowDot(es[..n], i, z), RowTerm(es[n], i, z));
    }
  }

  lemma {:induction false} RowDotAxpy(es: seq<Entry>, i: nat, x: Vec, c: real, z: Vec)
    requires |x| == |z|
    ensures RowDot(es, i, Axpy(x, c, z)) == RowDot(es, i, x) + c * RowDot(es, i, z)
  {
    hide RowDot, Axpy;
    RowDotScaled(es, i, x, c, z);
  }

  function ColumnOf(es: seq<Entry>, j: nat, rows: nat): (c: Vec)
    ensures |c| == rows && forall i :: 0 <= i < rows ==> c[i] == Value(es, i, j)
  {
    seq(rows, i requires 0 <= i < rows => Value(es, i, j))
  }

  /** Row `j` of the transpose is column `j`. */
  lemma {:induction false} ColumnDot(es: seq<Entry>, j: nat, u: Vec)
    requires forall k :: 0 <= k < |es| ==> es[k].row < |u|
    ensures RowDot(Transposed(es), j, u) == Dot(ColumnOf(es, j, |u|), u)
  {
    RowDotIsDot(Transposed(es), j, u);
    var row := RowOf(Transposed(es), j, |u|);
    forall k: nat | k < |u| ensures row[k] == ColumnOf(es, j, |u|)[k] {
      TransposedValue(es, k, j);
    }
    assert row == ColumnOf(es, j, |u|);
  }
}
