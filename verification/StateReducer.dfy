/** `reduce_state` and `solve_projected_system` as they run: block extraction, elimination solves, the Schur
    complement built entry by entry, and the solution scattered back. */
module StateReducer {
  import opened Common
  import opened Vectors
  import opened Entries
  import opened SparseMatrix
  import opened ConstraintCompiler
  import opened Elimination
  import opened Backend
  import opened ConstrainedSolver
  import opened Certificates
  import opened Reduction

  datatype ReductionError = SupportEliminated | SolveFailed | InvalidInput | ShapeMismatch
  datatype Reduced = Reduced(value: StateReduction) | NotReduced(error: ReductionError)

  predicate Accepted(status: SolveStatus, allowLeastSquares: bool) {
    status.Converged? || (status.LeastSquares? && allowLeastSquares)
  }

  /** A least-squares solution counts when the policy allows it, and any other status but CONVERGED never. */
  lemma {:induction false} AcceptedMeans(status: SolveStatus, allow: bool)
    ensures Accepted(status, allow) <==> match status
      case Converged => true
      case LeastSquares => allow
      case _ => false
  {
  }

  /** The columns of a matrix, filled entry by entry. */
  method ColumnsOf(m: Csr) returns (columns: seq<Vec>)
    requires m.Valid()
    ensures |columns| == m.cols && forall j :: 0 <= j < m.cols ==> columns[j] == ColumnOf(m.Stored(), j, m.rows)
  {
    hide Value;
    columns := seq(m.cols, _ => Zeros(m.rows));
    var es := m.Stored();
    StoredInShape(m);
    StoredRowMajor(m, m.rows);
    ColumnsStart(columns, m.cols, m.rows);
    for k := 0 to |es|
      invariant |columns| == m.cols && forall j :: 0 <= j < m.cols ==> columns[j] == ColumnOf(es[..k], j, m.rows)
    {
      var e := es[k];
      DenseFresh(es, k);
      ColumnStep(es, k, m.rows, m.cols, e.col);
      columns := columns[e.col := columns[e.col][e.row := e.value]];
    }
    assert es[..|es|] == es;
  }

  lemma {:induction false} ColumnsStart(columns: seq<Vec>, cols: nat, rows: nat)
    requires |columns| == cols && forall j :: 0 <= j < cols ==> columns[j] == Zeros(rows)
    ensures forall j :: 0 <= j < cols ==> columns[j] == ColumnOf([], j, rows)
  {
  }

  lemma {:induction false} ColumnStep(es: seq<Entry>, k: nat, rows: nat, cols: nat, col: nat)
    requires InShape(es, rows, cols) && k < |es| && col == es[k].col && Value(es[..k], es[k].row, col) == 0.0
    ensures ColumnOf(es[..k + 1], col, rows) == ColumnOf(es[..k], col, rows)[es[k].row := es[k].value]
    ensures forall j :: 0 <= j < cols && j != col ==> ColumnOf(es[..k + 1], j, rows) == ColumnOf(es[..k], j, rows)
  {
    assert es[..k + 1][..k] == es[..k];
    forall j | 0 <= j < cols && j != col ensures ColumnOf(es[..k + 1], j, rows) == ColumnOf(es[..k], j, rows) {
    }
  }

  /** One elimination solve per retained column; None as soon as one is not accepted. */
  method SolveColumns(ee: Csr, rhs: seq<Vec>, solve: (Csr, Vec) -> Solve, allow: bool) returns (r: Option<seq<Vec>>)
    ensures r.Some? ==> |r.value| == |rhs| && forall k :: 0 <= k < |rhs| ==> solve(ee, rhs[k]).solution == Some(r.value[k])
    ensures r.None? <==> exists k :: 0 <= k < |rhs| && (!Accepted(solve(ee, rhs[k]).status, allow) || solve(ee, rhs[k]).solution.None?)
  {
    var columns: seq<Vec> := [];
    for k := 0 to |rhs|
      invariant |columns| == k && forall i :: 0 <= i < k ==>
        Accepted(solve(ee, rhs[i]).status, allow) && solve(ee, rhs[i]).solution == Some(columns[i])
    {
      var result := solve(ee, rhs[k]);
      if !Accepted(result.status, allow) || result.solution.None? {
        return None;
      }
      columns := columns + [result.solution.value];
    }
    return Some(columns);
  }

  // ----- the Schur complement -----

  /** Entries of one corrected column; zeros are skipped. */
  method Correct(es: seq<Entry>, column: nat, correction: Vec, n: nat) returns (r: seq<Entry>)
    requires InShape(es, n, n) && column < n && |correction| == n
    ensures InShape(r, n, n)
    ensures forall i: nat, j: nat :: i < n && j < n ==> Value(r, i, j) == Value(es, i, j) - if j == column then correction[i] else 0.0
  {
    r := es;
    for row := 0 to n
      invariant InShape(r, n, n)
      invariant forall i: nat, j: nat :: i < n && j < n ==>
        Value(r, i, j) == Value(es, i, j) - if j == column && i < row then correction[i] else 0.0
    {
      if correction[row] != 0.0 {
        ghost var before := r;
        r := r + [Entry(row, column, -correction[row])];
        assert r[..|r| - 1] == before;
      }
    }
  }

  /** M_RR - M_RE·columns, as entries; None when a column does not fit. */
  method SchurEntries(rr: Csr, re: Csr, columns: seq<Vec>) returns (es: Option<seq<Entry>>)
    requires rr.Valid() && re.Valid() && rr.rows == rr.cols == re.rows == |columns|
    ensures es.Some? <==> forall k :: 0 <= k < |columns| ==> |columns[k]| == re.cols
    ensures es.Some? ==> InShape(es.value, rr.rows, rr.rows)
    ensures es.Some? ==> forall i: nat, j: nat :: i < rr.rows && j < rr.rows ==>
      Value(es.value, i, j) == Value(rr.Stored(), i, j) - RowDot(re.Stored(), i, columns[j])
  {
    hide Value, RowDot, Csr.Valid;
    StoredInShape(rr);
    var r := rr.Stored();
    for k := 0 to |columns|
      invariant forall c :: 0 <= c < k ==> |columns[c]| == re.cols
      invariant InShape(r, rr.rows, rr.rows)
      invariant forall i: nat, j: nat :: i < rr.rows && j < rr.rows ==>
        Value(r, i, j) == Value(rr.Stored(), i, j) - if j < k then RowDot(re.Stored(), i, columns[j]) else 0.0
    {
      var correction := MatVec(re, columns[k]);
      if correction.None? {
        return None;
      }
      r := Correct(r, k, correction.value, rr.rows);
    }
    return Some(r);
  }

  // ----- constraints -----

  function Picked(ids: seq<Id>, at: seq<nat>): (r: seq<Id>)
    requires Within(at, |ids|)
    ensures |r| == |at| && forall k :: 0 <= k < |at| ==> r[k] == ids[at[k]]
  {
    seq(|at|, k requires 0 <= k < |at| => ids[at[k]])
  }

  /** `_project_constraints`. */
  method ProjectConstraints(c: Compiled, retained: seq<nat>) returns (p: Compiled)
    requires Shaped(c) && Distinct(retained) && Within(retained, |c.ids|)
    ensures Shaped(p) && p.ids == Picked(c.ids, retained) && p.rhs == c.rhs && p.supports == c.supports
    ensures IsSubmatrix(p.matrix, c.matrix, AllRowsOf(c.matrix.rows), retained)
    ensures IsSubmatrix(p.certificate, c.certificate, AllRowsOf(c.certificate.rows), retained)
  {
    var matrix := Submatrix(c.matrix, AllRowsOf(c.matrix.rows), retained);
    var certificate := Submatrix(c.certificate, AllRowsOf(c.certificate.rows), retained);
    p := Compiled(Picked(c.ids, retained), matrix.value, c.rhs, certificate.value, c.certificateRhs, c.supports);
  }

  /** Every coordinate the constraints mention is retained. */
  predicate SupportRetained(c: Compiled, retained: seq<nat>) {
    forall j: nat :: j < |c.ids| && InSupport(c.supports, c.ids[j]) ==> j in retained
  }

  lemma {:induction false} RetainedSupportConfines(c: Compiled, retained: seq<nat>)
    requires Shaped(c) && ColumnsSupported(c) && SupportRetained(c, retained)
    ensures Confined(c.matrix, retained)
  {
    hide Csr.Valid, InSupport, Value;
  }

  // ----- what the solves establish -----

  lemma {:induction false} RowProduct(sub: Csr, m: Csr, at: seq<nat>, across: seq<nat>, a: nat, x: Vec)
    requires IsSubmatrix(sub, m, at, across) && a < |at| && |x| == |across|
    ensures RowDot(sub.Stored(), a, x) == Dot(Block(m.Stored(), m.cols, at[a], across), x)
  {
    hide RowDot, Dot, Csr.Valid;
    StoredInShape(sub);
    SubmatrixRow(sub, m, at, across, a);
    RowDotIsDot(sub.Stored(), a, x);
  }

  lemma {:induction false} OffsetSolves(m: Csr, q: Vec, eliminated: seq<nat>, ee: Csr, offset: Vec, b: nat)
    requires m.Valid() && m.rows == m.cols == |q| && IsSubmatrix(ee, m, eliminated, eliminated) && b < |eliminated|
    requires Satisfies(ee, Gather(q, eliminated), offset)
    ensures Dot(Block(m.Stored(), |q|, eliminated[b], eliminated), offset) == q[eliminated[b]]
  {
    hide RowDot, Dot, Csr.Valid, IsSubmatrix;
    SubShape(ee, m, eliminated, eliminated);
    RowProduct(ee, m, eliminated, eliminated, b, offset);
    assert Times(ee.Stored(), ee.rows, offset)[b] == q[eliminated[b]];
  }

  lemma {:induction false} SubShape(sub: Csr, m: Csr, at: seq<nat>, across: seq<nat>)
    requires IsSubmatrix(sub, m, at, across)
    ensures sub.rows == |at| && sub.cols == |across| && sub.Valid() && m.Valid() && Within(at, m.rows) && Within(across, m.cols)
  {
  }

  lemma {:induction false} ColumnSolves(m: Csr, retained: seq<nat>, eliminated: seq<nat>, er: Csr, ee: Csr, column: Vec, k: nat, b: nat)
    requires m.Valid() && m.rows == m.cols && IsSubmatrix(er, m, eliminated, retained) && IsSubmatrix(ee, m, eliminated, eliminated)
    requires k < |retained| && b < |eliminated| && Satisfies(ee, ColumnOf(er.Stored(), k, |eliminated|), column)
    ensures Dot(Block(m.Stored(), m.cols, eliminated[b], eliminated), column) == Value(m.Stored(), eliminated[b], retained[k])
  {
    hide RowDot, Dot, Csr.Valid;
    RowProduct(ee, m, eliminated, eliminated, b, column);
    assert Times(ee.Stored(), ee.rows, column)[b] == ColumnOf(er.Stored(), k, |eliminated|)[b];
  }

  lemma {:induction false} EliminationHolds(
    m: Csr, q: Vec, retained: seq<nat>, eliminated: seq<nat>, er: Csr, ee: Csr, offset: Vec, columns: seq<Vec>)
    requires m.Valid() && m.rows == m.cols == |q| && IsSubmatrix(er, m, eliminated, retained) && IsSubmatrix(ee, m, eliminated, eliminated)
    requires Satisfies(ee, Gather(q, eliminated), offset) && |columns| == |retained|
    requires forall k :: 0 <= k < |columns| ==> Satisfies(ee, ColumnOf(er.Stored(), k, |eliminated|), columns[k])
    ensures Within(retained, |q|) && Within(eliminated, |q|)
    ensures Eliminates(m.Stored(), |q|, q, retained, eliminated, offset, columns)
  {
    hide RowDot, Dot, Csr.Valid, IsSubmatrix;
    SubShape(ee, m, eliminated, eliminated);
    SubShape(er, m, eliminated, retained);
    forall b | 0 <= b < |eliminated|
      ensures Dot(Block(m.Stored(), |q|, eliminated[b], eliminated), offset) == q[eliminated[b]]
      ensures Products(columns, Block(m.Stored(), |q|, eliminated[b], eliminated)) == Block(m.Stored(), |q|, eliminated[b], retained)
    {
      OffsetSolves(m, q, eliminated, ee, offset, b);
      forall k | 0 <= k < |columns|
        ensures Dot(Block(m.Stored(), |q|, eliminated[b], eliminated), columns[k]) == Value(m.Stored(), eliminated[b], retained[k])
      {
        ColumnSolves(m, retained, eliminated, er, ee, columns[k], k, b);
      }
    }
  }

  lemma {:induction false} SchurRow(
    m: Csr, retained: seq<nat>, eliminated: seq<nat>, rr: Csr, re: Csr, schur: seq<Entry>, columns: seq<Vec>, a: nat)
    requires m.Valid() && m.rows == m.cols && IsSubmatrix(rr, m, retained, retained) && IsSubmatrix(re, m, retained, eliminated)
    requires |columns| == |retained| && (forall k :: 0 <= k < |columns| ==> |columns[k]| == |eliminated|) && a < |retained|
    requires forall j: nat :: j < |retained| ==>
      Value(schur, a, j) == Value(rr.Stored(), a, j) - RowDot(re.Stored(), a, columns[j])
    ensures RowOf(schur, a, |retained|)
      == Axpy(Block(m.Stored(), m.cols, retained[a], retained), -1.0, Products(columns, Block(m.Stored(), m.cols, retained[a], eliminated)))
  {
    hide RowDot, Dot, Csr.Valid, Value;
    var across := Block(m.Stored(), m.cols, retained[a], eliminated);
    forall j: nat | j < |retained|
      ensures Value(schur, a, j) == Block(m.Stored(), m.cols, retained[a], retained)[j] + -1.0 * Dot(across, columns[j])
    {
      RowProduct(re, m, retained, eliminated, a, columns[j]);
      assert Value(rr.Stored(), a, j) == Value(m.Stored(), retained[a], retained[j]);
    }
  }

  lemma {:induction false} SchurHolds(
    m: Csr, q: Vec, retained: seq<nat>, eliminated: seq<nat>, rr: Csr, re: Csr, schur: seq<Entry>, target: Vec,
    offset: Vec, columns: seq<Vec>)
    requires m.Valid() && m.rows == m.cols == |q| && IsSubmatrix(rr, m, retained, retained) && IsSubmatrix(re, m, retained, eliminated)
    requires |offset| == |eliminated| && |columns| == |retained| && (forall k :: 0 <= k < |columns| ==> |columns[k]| == |eliminated|)
    requires InShape(schur, |retained|, |retained|) && |target| == |retained|
    requires forall i: nat, j: nat :: i < |retained| && j < |retained| ==>
      Value(schur, i, j) == Value(rr.Stored(), i, j) - RowDot(re.Stored(), i, columns[j])
    requires Within(retained, |q|) && forall a :: 0 <= a < |retained| ==> target[a] == q[retained[a]] - RowDot(re.Stored(), a, offset)
    ensures Within(eliminated, |q|) && SchurOf(schur, target, m.Stored(), |q|, q, retained, eliminated, offset, columns)
  {
    hide RowDot, Dot, Csr.Valid, IsSubmatrix, Value;
    SubShape(re, m, retained, eliminated);
    forall a: nat | a < |retained|
      ensures var across := Block(m.Stored(), |q|, retained[a], eliminated);
        && RowOf(schur, a, |retained|) == Axpy(Block(m.Stored(), |q|, retained[a], retained), -1.0, Products(columns, across))
        && target[a] == q[retained[a]] - Dot(across, offset)
    {
      SchurRow(m, retained, eliminated, rr, re, schur, columns, a);
      RowProduct(re, m, retained, eliminated, a, offset);
    }
  }

  /** Nothing to eliminate: the reduced system is the permuted one. */
  lemma {:induction false} NothingEliminated(m: Csr, q: Vec, retained: seq<nat>, rr: Csr)
    requires m.Valid() && m.rows == m.cols == |q| && IsSubmatrix(rr, m, retained, retained) && Within(retained, |q|)
    ensures Eliminates(m.Stored(), |q|, q, retained, [], [], ColumnsFrom([], |retained|))
    ensures SchurOf(rr.Stored(), Gather(q, retained), m.Stored(), |q|, q, retained, [], [], ColumnsFrom([], |retained|))
  {
    hide Value, Csr.Valid;
    StoredInShape(rr);
    var columns := ColumnsFrom([], |retained|);
    forall a: nat | a < |retained|
      ensures RowOf(rr.Stored(), a, |retained|)
        == Axpy(Block(m.Stored(), |q|, retained[a], retained), -1.0, Products(columns, Block(m.Stored(), |q|, retained[a], [])))
    {
      SubmatrixRow(rr, m, retained, retained, a);
    }
  }

  // ----- the eliminated block is regular -----

  lemma {:induction false} PrincipalRow(m: Csr, ee: Csr, retained: seq<nat>, eliminated: seq<nat>, z: Vec, x: Vec, b: nat)
    requires m.Valid() && m.rows == m.cols == |x| && IsSubmatrix(ee, m, eliminated, eliminated)
    requires Enumerates(retained + eliminated, |x|) && Within(retained, |x|) && Within(eliminated, |x|)
    requires |z| == |eliminated| && Gather(x, retained) == Zeros(|retained|) && Gather(x, eliminated) == z && b < |eliminated|
    ensures RowDot(m.Stored(), eliminated[b], x) == RowDot(ee.Stored(), b, z)
  {
    hide RowDot, Dot, Csr.Valid, IsSubmatrix;
    StoredInShape(m);
    RowSplits(m.Stored(), m.rows, eliminated[b], x, retained, eliminated);
    DotOfZeros(Block(m.Stored(), m.cols, eliminated[b], retained));
    RowProduct(ee, m, eliminated, eliminated, b, z);
  }

  /** A kernel vector of the eliminated block, padded with zeros, has no energy. */
  lemma {:induction false} PaddedEnergy(m: Csr, ee: Csr, retained: seq<nat>, eliminated: seq<nat>, z: Vec, x: Vec)
    requires m.Valid() && m.rows == m.cols == |x| && IsSubmatrix(ee, m, eliminated, eliminated)
    requires Enumerates(retained + eliminated, |x|) && Within(retained, |x|) && Within(eliminated, |x|)
    requires |z| == |eliminated| && Gather(x, retained) == Zeros(|retained|) && Gather(x, eliminated) == z
    requires Times(ee.Stored(), |z|, z) == Zeros(|z|)
    ensures Form(m.Stored(), x, x) == 0.0
  {
    hide RowDot, Dot, Form, Csr.Valid, IsSubmatrix;
    SubShape(ee, m, eliminated, eliminated);
    StoredInShape(m);
    FormIsDot(m.Stored(), x, x);
    var product := Times(m.Stored(), |x|, x);
    forall i: nat | i < |x| ensures product[i] == 0.0 || x[i] == 0.0 {
      assert i in retained + eliminated;
      if i in retained {
        var a :| 0 <= a < |retained| && retained[a] == i;
        assert Gather(x, retained)[a] == x[i];
      } else {
        var b: nat :| b < |eliminated| && eliminated[b] == i;
        PrincipalRow(m, ee, retained, eliminated, z, x, b);
        assert Times(ee.Stored(), |z|, z)[b] == 0.0;
      }
    }
    DotVanishes(product, x);
  }

  lemma {:induction false} PaddedZero(m: Csr, ee: Csr, retained: seq<nat>, eliminated: seq<nat>, z: Vec)
    requires m.Valid() && m.rows == m.cols && Definite(m) && IsSubmatrix(ee, m, eliminated, eliminated)
    requires Distinct(retained) && Within(retained, m.rows) && eliminated == EliminatedOf(m.rows, retained)
    requires |z| == |eliminated| && Times(ee.Stored(), |z|, z) == Zeros(|z|)
    ensures z == Zeros(|z|)
  {
    hide RowDot, Dot, Form, Csr.Valid, IsSubmatrix, Joined;
    SplitEnumerates(m.rows, retained);
    var x := Joined(m.rows, retained, eliminated, Zeros(|retained|), z);
    JoinedParts(m.rows, retained, eliminated, Zeros(|retained|), z);
    PaddedEnergy(m, ee, retained, eliminated, z, x);
    assert x == Zeros(m.rows);
    forall k | 0 <= k < |z| ensures z[k] == 0.0 {
      assert Gather(x, eliminated)[k] == x[eliminated[k]];
    }
  }

  /** A principal block of a definite operator is regular. */
  lemma {:induction false} PrincipalRegular(m: Csr, ee: Csr, retained: seq<nat>, eliminated: seq<nat>)
    requires m.Valid() && m.rows == m.cols && Definite(m) && IsSubmatrix(ee, m, eliminated, eliminated)
    requires Distinct(retained) && Within(retained, m.rows) && eliminated == EliminatedOf(m.rows, retained)
    ensures ee.Valid() && ee.rows == ee.cols == |eliminated| && !HasKernel(DenseOf(ee), ee.rows)
  {
    hide RowDot, Dot, Csr.Valid, IsSubmatrix, Definite, RowsOf;
    SubShape(ee, m, eliminated, eliminated);
    StoredInShape(ee);
    forall z: Vec | |z| == ee.rows && Annihilates(DenseOf(ee), z) ensures z == Zeros(ee.rows) {
      KernelMeans(ee.Stored(), ee.rows, z);
      PaddedZero(m, ee, retained, eliminated, z);
    }
  }

  // ----- the operation -----

  /** `tuple(-solve_columns[column][row] …)`, row by row. */
  function OperatorOf(columns: seq<Vec>, n: nat): (r: seq<Vec>)
    requires forall k :: 0 <= k < |columns| ==> |columns[k]| == n
    ensures |r| == n && forall b :: 0 <= b < n ==> |r[b]| == |columns|
    ensures forall b, k :: 0 <= b < n && 0 <= k < |columns| ==> r[b][k] == -columns[k][b]
  {
    seq(n, b requires 0 <= b < n => seq(|columns|, k requires 0 <= k < |columns| => -columns[k][b]))
  }

  lemma {:induction false} OperatorColumns(columns: seq<Vec>, n: nat)
    requires forall k :: 0 <= k < |columns| ==> |columns[k]| == n
    ensures ColumnsFrom(OperatorOf(columns, n), |columns|) == columns
  {
    var back := ColumnsFrom(OperatorOf(columns, n), |columns|);
    forall k | 0 <= k < |columns| ensures back[k] == columns[k] {
      assert forall b :: 0 <= b < n ==> back[k][b] == -OperatorOf(columns, n)[b][k];
    }
  }

  function Minus(a: Vec, b: Vec): (r: Vec)
    requires |a| == |b|
    ensures |r| == |a| && forall k :: 0 <= k < |a| ==> r[k] == a[k] - b[k]
  {
    seq(|a|, k requires 0 <= k < |a| => a[k] - b[k])
  }

  predicate InputOk(m: Csr, q: Vec, c: Compiled, retained: seq<nat>) {
    m.rows == m.cols == |q| && c.matrix.cols == m.rows && Within(retained, m.rows) && Distinct(retained)
  }

  /** `reduce_state`: with an exact backend and constraints confined to their support, a reduction that loses nothing. */
  method ReduceState(m: Csr, q: Vec, c: Compiled, retained: seq<nat>, solve: (Csr, Vec) -> Solve, allow: bool)
    returns (r: Reduced)
    requires m.Valid() && Shaped(c)
    ensures r == NotReduced(ReductionError.InvalidInput) <==> !InputOk(m, q, c, retained)
    ensures r == NotReduced(SupportEliminated) <==> InputOk(m, q, c, retained) && !SupportRetained(c, retained)
    ensures r.Reduced? ==>
      && ReductionShaped(r.value)
      && r.value.matrix == m && r.value.rhs == q && r.value.constraints == c && r.value.retained == retained
    ensures r.Reduced? && Exact(solve) && ColumnsSupported(c) ==> ReductionOk(r.value)
    ensures Exact(solve) ==> r != NotReduced(ShapeMismatch)
    ensures Exact(solve) && Complete(solve) && Definite(m) ==> r != NotReduced(SolveFailed)
  {
    if !InputOk(m, q, c, retained) {
      return NotReduced(ReductionError.InvalidInput);
    }
    if !SupportRetained(c, retained) {
      return NotReduced(SupportEliminated);
    }
    hide Csr.Valid, SupportRetained, ColumnsSupported, Confined, IsSubmatrix, Eliminates, SchurOf;
    var eliminated := EliminatedOf(m.rows, retained);
    var projected := ProjectConstraints(c, retained);
    SubShape(projected.matrix, c.matrix, AllRowsOf(c.matrix.rows), retained);
    var rr := Submatrix(m, retained, retained);
    SubShape(rr.value, m, retained, retained);
    if ColumnsSupported(c) {
      RetainedSupportConfines(c, retained);
    }
    if eliminated == [] {
      NothingEliminated(m, q, retained, rr.value);
      return Reduced(StateReduction(m, q, c, retained, [], rr.value, Gather(q, retained), projected, [], []));
    }
    r := Eliminate(m, q, c, retained, eliminated, rr.value, projected, solve, allow);
  }

  method Eliminate(
    m: Csr, q: Vec, c: Compiled, retained: seq<nat>, eliminated: seq<nat>, rr: Csr, projected: Compiled,
    solve: (Csr, Vec) -> Solve, allow: bool)
    returns (r: Reduced)
    requires m.Valid() && Shaped(c) && InputOk(m, q, c, retained) && eliminated == EliminatedOf(m.rows, retained)
    requires IsSubmatrix(rr, m, retained, retained)
    requires Shaped(projected) && projected.matrix.cols == |retained| && projected.rhs == c.rhs
    requires IsSubmatrix(projected.matrix, c.matrix, AllRowsOf(c.matrix.rows), retained)
    ensures r.NotReduced? ==> r.error.SolveFailed? || r.error.ShapeMismatch?
    ensures r.Reduced? ==>
      && ReductionShaped(r.value)
      && r.value.matrix == m && r.value.rhs == q && r.value.constraints == c && r.value.retained == retained
    ensures r.Reduced? && Exact(solve) && Confined(c.matrix, retained) ==> ReductionOk(r.value)
    ensures Exact(solve) ==> r != NotReduced(ShapeMismatch)
    ensures Exact(solve) && Complete(solve) && Definite(m) ==> r != NotReduced(SolveFailed)
  {
    hide Csr.Valid, Confined, IsSubmatrix, Eliminates, SchurOf, RowDot, Value, Definite, HasKernel, DenseOf;
    SubShape(rr, m, retained, retained);
    var ee := Submatrix(m, eliminated, eliminated);
    var er := Submatrix(m, eliminated, retained);
    var re := Submatrix(m, retained, eliminated);
    SubShape(ee.value, m, eliminated, eliminated);
    SubShape(er.value, m, eliminated, retained);
    SubShape(re.value, m, retained, eliminated);
    if Definite(m) {
      PrincipalRegular(m, ee.value, retained, eliminated);
    }
    var first := solve(ee.value, Gather(q, eliminated));
    if !Accepted(first.status, allow) || first.solution.None? {
      return NotReduced(SolveFailed);
    }
    var offset := first.solution.value;
    var columnRhs := ColumnsOf(er.value);
    var columns := SolveColumns(ee.value, columnRhs, solve, allow);
    if columns.None? {
      return NotReduced(SolveFailed);
    }
    var schur := SchurEntries(rr, re.value, columns.value);
    if schur.None? {
      return NotReduced(ShapeMismatch);
    }
    var reduced := FromEntries(|retained|, |retained|, schur.value);
    var correction := MatVec(re.value, offset);
    if correction.None? {
      return NotReduced(ShapeMismatch);
    }
    var target := Minus(Gather(q, retained), correction.value);
    SchurHolds(m, q, retained, eliminated, rr, re.value, reduced.value.Stored(), target, offset, columns.value);
    OperatorColumns(columns.value, |eliminated|);
    if Exact(solve) {
      EliminationHolds(m, q, retained, eliminated, er.value, ee.value, offset, columns.value);
    }
    return Reduced(StateReduction(
      m, q, c, retained, eliminated, reduced.value, target, projected, OperatorOf(columns.value, |eliminated|), offset));
  }

  // ----- the projected solve -----

  datatype Projected =
    | Projected(status: SolveStatus, solution: Option<Vec>, multipliers: Option<Vec>, reconstruction: Option<real>)
    | Raised

  lemma {:induction false} NegatedRow(row: Vec, negated: Vec, x: Vec)
    requires |row| == |negated| == |x| && forall k :: 0 <= k < |row| ==> negated[k] == -row[k]
    ensures Dot(negated, x) == -Dot(row, x)
  {
    hide Dot;
    assert negated == Axpy(Zeros(|x|), -1.0, row);
    DotAxpy(Zeros(|x|), -1.0, row, x);
    DotZeros(x);
  }

  /** One eliminated coordinate, from its row of the reconstruction operator. */
  lemma {:induction false} ReconstructedAt(r: StateReduction, x: Vec, b: nat)
    requires ReductionShaped(r) && |x| == |r.retained| && b < |r.eliminated|
    ensures Reconstructed(r.offset, ColumnsFrom(r.operator, |x|), x)[b] == r.offset[b] + Dot(r.operator[b], x)
  {
    hide Dot, Combine, ReductionShaped, ColumnsFrom;
    ShapedOperator(r);
    var columns := ColumnsFrom(r.operator, |x|);
    CombineAt(columns, x, |r.offset|, b);
    NegatedRow(seq(|x|, k requires 0 <= k < |x| => columns[k][b]), r.operator[b], x);
  }

  lemma {:induction false} ShapedOperator(r: StateReduction)
    requires ReductionShaped(r)
    ensures |r.operator| == |r.eliminated| == |r.offset| && forall b :: 0 <= b < |r.operator| ==> |r.operator[b]| == |r.retained|
    ensures Within(r.retained, r.matrix.rows) && Within(r.eliminated, r.matrix.rows) && Distinct(r.retained) && Distinct(r.eliminated)
    ensures forall k :: 0 <= k < |r.eliminated| ==> r.eliminated[k] !in r.retained
  {
  }

  /** The eliminated coordinates of a retained solution. */
  method Reconstruct(r: StateReduction, xr: Vec) returns (xe: Vec)
    requires ReductionShaped(r) && |xr| == |r.retained|
    ensures xe == Reconstructed(r.offset, ColumnsFrom(r.operator, |xr|), xr)
  {
    hide Dot, Reconstructed, ReductionShaped, ColumnsFrom;
    ShapedOperator(r);
    xe := [];
    for b := 0 to |r.eliminated|
      invariant |xe| == b
      invariant forall k :: 0 <= k < b ==> xe[k] == Reconstructed(r.offset, ColumnsFrom(r.operator, |xr|), xr)[k]
    {
      ReconstructedAt(r, xr, b);
      xe := xe + [r.offset[b] + Dot(r.operator[b], xr)];
    }
  }

  /** Writes both parts of the solution to their original places. */
  method Scatter(n: nat, retained: seq<nat>, eliminated: seq<nat>, xr: Vec, xe: Vec) returns (x: Vec)
    requires Within(retained, n) && Within(eliminated, n) && Distinct(retained) && Distinct(eliminated)
    requires |xr| == |retained| && |xe| == |eliminated| && forall k :: 0 <= k < |eliminated| ==> eliminated[k] !in retained
    ensures |x| == n && Gather(x, retained) == xr && Gather(x, eliminated) == xe
  {
    x := Zeros(n);
    for k := 0 to |retained|
      invariant |x| == n && forall i :: 0 <= i < k ==> x[retained[i]] == xr[i]
    {
      x := x[retained[k] := xr[k]];
    }
    for k := 0 to |eliminated|
      invariant |x| == n && forall i :: 0 <= i < |retained| ==> x[retained[i]] == xr[i]
      invariant forall i :: 0 <= i < k ==> x[eliminated[i]] == xe[i]
    {
      assert forall i :: 0 <= i < |retained| ==> retained[i] in retained;
      x := x[eliminated[k] := xe[k]];
    }
  }

  /** The components that `zip` and indexing see: missing ones stay zero, extra ones are dropped. */
  function Fit(x: Vec, n: nat): (r: Vec)
    ensures |r| == n && (|x| == n ==> r == x)
  {
    seq(n, k requires 0 <= k < n => Get(x, k))
  }

  /** A row of the eliminated ones, over all columns, is the row of the matrix. */
  lemma {:induction false} WholeRow(rows: Csr, m: Csr, at: seq<nat>, b: nat, x: Vec)
    requires IsSubmatrix(rows, m, at, AllRowsOf(m.cols)) && b < |at| && |x| == m.cols
    ensures RowDot(rows.Stored(), b, x) == RowDot(m.Stored(), at[b], x)
  {
    hide RowDot, Dot, Csr.Valid;
    StoredInShape(m);
    RowProduct(rows, m, at, AllRowsOf(m.cols), b, x);
    assert Block(m.Stored(), m.cols, at[b], AllRowsOf(m.cols)) == RowOf(m.Stored(), at[b], m.cols);
    RowDotIsDot(m.Stored(), at[b], x);
  }

  /** A faithful reduction reconstructs without error. */
  lemma {:induction false} ReconstructionHasNoError(r: StateReduction, rows: Csr, x: Vec)
    requires ReductionOk(r) && |x| == r.matrix.rows && IsSubmatrix(rows, r.matrix, r.eliminated, AllRowsOf(r.matrix.cols))
    requires Gather(x, r.eliminated) == Reconstructed(r.offset, ColumnsFrom(r.operator, |r.retained|), Gather(x, r.retained))
    ensures rows.Valid() && rows.rows == |r.eliminated|
    ensures var q := Gather(r.rhs, r.eliminated); Normalized(RowsResidual(rows, q, x), RowsScale(rows, q, x)) == Some(0.0)
  {
    hide RowDot, Dot, Csr.Valid, Eliminates, SchurOf, ColumnsFrom, Confined, IsSubmatrix, Normalized, RowsScale, Reconstructed;
    SubShape(rows, r.matrix, r.eliminated, AllRowsOf(r.matrix.cols));
    SplitEnumerates(|x|, r.retained);
    StoredInShape(r.matrix);
    var q := Gather(r.rhs, r.eliminated);
    forall b: nat | b < |r.eliminated| ensures RowDot(rows.Stored(), b, x) == q[b] {
      WholeRow(rows, r.matrix, r.eliminated, b, x);
      EliminatedRow(r.matrix.Stored(), r.rhs, r.retained, r.eliminated, r.offset, ColumnsFrom(r.operator, |r.retained|), x, b);
    }
    NormalizedMeans(RowsResidual(rows, q, x), RowsScale(rows, q, x), 0.0);
  }

  /** The residual of the eliminated rows, normalised. */
  method ReconstructionError(m: Csr, q: Vec, eliminated: seq<nat>, x: Vec) returns (e: Option<real>, ghost rows: Csr)
    requires m.Valid() && m.rows == m.cols == |q| == |x| && Within(eliminated, m.rows) && Distinct(eliminated)
    ensures IsSubmatrix(rows, m, eliminated, AllRowsOf(m.cols)) && rows.Valid() && rows.rows == |eliminated|
    ensures var target := Gather(q, eliminated); e == Normalized(RowsResidual(rows, target, x), RowsScale(rows, target, x))
  {
    hide Csr.Valid, RowDot, Normalized, RowsScale, IsSubmatrix;
    var sub := Submatrix(m, eliminated, AllRowsOf(m.cols));
    SubShape(sub.value, m, eliminated, AllRowsOf(m.cols));
    e := RowsError(sub.value, Gather(q, eliminated), x);
    rows := sub.value;
  }

  /** `e` is the normalised residual of the eliminated rows. */
  ghost predicate ReconstructionIs(m: Csr, q: Vec, eliminated: seq<nat>, x: Vec, e: Option<real>)
    requires m.Valid() && m.rows == m.cols == |q| && Within(eliminated, m.rows)
  {
    exists rows: Csr :: IsSubmatrix(rows, m, eliminated, AllRowsOf(m.cols))
      && e == Normalized(RowsResidual(rows, Gather(q, eliminated), x), RowsScale(rows, Gather(q, eliminated), x))
  }

  /** Status and multipliers are those of the answer to the reduced system; one that is too short for the retained
      coordinates is an exception when something has to be reconstructed from it. */
  ghost predicate RelaysReduced(r: StateReduction, c: Constrained, p: Projected) {
    && c.Constrained?
    && if r.eliminated != [] && c.solution.Some? && |c.solution.value| < |r.retained| then p.Raised?
       else p.Projected? && p.status == c.status && p.multipliers == c.multipliers && (p.solution.Some? <==> c.solution.Some?)
  }

  ghost predicate AskedReduced(r: StateReduction, solve: (Csr, Vec) -> Solve, p: Projected)
    requires ReductionShaped(r)
  {
    exists c: Constrained :: Asked(r.reduced, r.reducedRhs, r.projected, solve, c) && RelaysReduced(r, c, p)
  }

  /** `solve_projected_system`: the reconstructed solution solves the full constrained system. Raised is the
      IndexError of a solution that is too short. */
  method SolveProjected(r: StateReduction, solve: (Csr, Vec) -> Solve) returns (p: Projected)
    requires ReductionShaped(r)
    ensures AskedReduced(r, solve, p)
    ensures p.Projected? && p.solution.Some? ==> p.multipliers.Some? && |p.solution.value| == r.matrix.rows
    ensures p.Projected? && p.solution.Some? ==>
      Within(r.eliminated, r.matrix.rows) && ReconstructionIs(r.matrix, r.rhs, r.eliminated, p.solution.value, p.reconstruction)
    ensures p.Projected? && p.solution.Some? && Exact(solve) && ReductionOk(r) ==>
      && Kkt(r.matrix, r.rhs, r.constraints.matrix, r.constraints.rhs, p.solution.value, p.multipliers.value)
      && p.reconstruction == Some(0.0)
    ensures Exact(solve) ==> p.Projected?
    ensures Exact(solve) && Complete(solve) && OnlyZero(r.reduced, r.projected.matrix) ==>
      p.Projected? && p.status.Converged? && p.solution.Some?
  {
    hide OnlyZero, Csr.Valid, RowDot, IsSubmatrix, Normalized, Complete, Exact, ReductionOk, ReductionShaped, Kkt, Shaped,
      Reconstructed, ColumnsFrom, Asked;
    ShapedOperator(r);
    ShapedSystems(r);
    var result := SolveConstrained(r.reduced, r.reducedRhs, r.projected, solve);
    if result.solution.None? {
      p := Projected(result.status, None, result.multipliers, None);
      assert RelaysReduced(r, result, p);
      return p;
    }
    if Exact(solve) {
      KktShape(r.reduced, r.reducedRhs, r.projected.matrix, r.projected.rhs, result.solution.value, result.multipliers.value);
    }
    if r.eliminated != [] && |result.solution.value| < |r.retained| {
      assert RelaysReduced(r, result, Raised);
      return Raised;
    }
    var xr := Fit(result.solution.value, |r.retained|);
    var xe := Reconstruct(r, xr);
    var x := Scatter(r.matrix.rows, r.retained, r.eliminated, xr, xe);
    var error, rows := ReconstructionError(r.matrix, r.rhs, r.eliminated, x);
    if Exact(solve) && ReductionOk(r) {
      ReconstructionSolves(r, xr, result.multipliers.value, x);
      ReconstructionHasNoError(r, rows, x);
    }
    assert ReconstructionIs(r.matrix, r.rhs, r.eliminated, x, error);
    p := Projected(result.status, Some(x), result.multipliers, error);
    assert RelaysReduced(r, result, p);
  }

  lemma {:induction false} ShapedSystems(r: StateReduction)
    requires ReductionShaped(r)
    ensures r.matrix.Valid() && r.matrix.rows == r.matrix.cols == |r.rhs| && r.constraints.matrix.Valid()
    ensures r.reduced.Valid() && r.reduced.rows == r.reduced.cols == |r.retained| == |r.reducedRhs|
    ensures Shaped(r.projected) && r.projected.matrix.Valid() && r.projected.matrix.cols == |r.retained|
    ensures r.projected.matrix.rows == |r.projected.rhs|
  {
  }
}
