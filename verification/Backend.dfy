/** Linear solves: the contract of a backend, and the reference backend that meets it. */
module Backend {
  import opened Common
  import opened Vectors
  import opened Entries
  import opened SparseMatrix
  import opened Elimination

  datatype SolveStatus = Converged | LeastSquares | IllConditioned | Singular | CapacityExceeded | InvalidInput
  datatype Solve = Solve(status: SolveStatus, solution: Option<Vec>)

  datatype Policy = Policy(
    allowLeastSquares: bool, maxSize: nat, maxStored: nat, conditionWarning: real, conditionFailure: real)

  /** x solves the square system. */
  ghost predicate Satisfies(m: Csr, rhs: Vec, x: Vec)
    requires m.Valid()
  {
    m.rows == m.cols == |x| && Times(m.Stored(), m.rows, x) == rhs
  }

  /** A backend is exact when every solution it reports, under any status, solves the system it was given. */
  ghost predicate Exact(solve: (Csr, Vec) -> Solve) {
    forall m: Csr, rhs: Vec :: m.Valid() && solve(m, rhs).solution.Some? ==> Satisfies(m, rhs, solve(m, rhs).solution.value)
  }

  function AbsSum(v: Vec): (s: real)
    ensures s >= 0.0
  {
    if v == [] then 0.0 else AbsSum(v[..|v| - 1]) + Abs(v[|v| - 1])
  }

  function RowData(m: Csr, r: nat): (v: Vec)
    requires m.Valid() && r < m.rows
  {
    assert m.indptr[r + 1] <= m.indptr[m.rows];
    m.data[m.indptr[r]..m.indptr[r + 1]]
  }

  /** The largest absolute sum among the first `r` rows. */
  ghost function Norm(m: Csr, r: nat): (norm: real)
    requires m.Valid() && r <= m.rows
    ensures norm >= 0.0
  {
    if r == 0 then 0.0
    else if AbsSum(RowData(m, r - 1)) > Norm(m, r - 1) then AbsSum(RowData(m, r - 1))
    else Norm(m, r - 1)
  }

  /** `matrix_infinity_norm`: the largest absolute row sum. */
  method InfinityNorm(m: Csr) returns (norm: real)
    requires m.Valid()
    ensures norm == Norm(m, m.rows)
    ensures norm >= 0.0 && forall r :: 0 <= r < m.rows ==> AbsSum(RowData(m, r)) <= norm
    ensures norm == 0.0 || exists r :: 0 <= r < m.rows && AbsSum(RowData(m, r)) == norm
  {
    hide AbsSum, RowData, Csr.Valid;
    norm := 0.0;
    for r := 0 to m.rows
      invariant norm >= 0.0 && forall k :: 0 <= k < r ==> AbsSum(RowData(m, k)) <= norm
      invariant norm == 0.0 || exists k :: 0 <= k < r && AbsSum(RowData(m, k)) == norm
      invariant norm == Norm(m, r)
    {
      if AbsSum(RowData(m, r)) > norm {
        norm := AbsSum(RowData(m, r));
      }
    }
  }

  method Extremes(v: Vec) returns (least: real, greatest: real)
    requires v != []
    ensures least in v && greatest in v && forall x <- v :: least <= x <= greatest
  {
    least, greatest := v[0], v[0];
    for k := 1 to |v|
      invariant least in v && greatest in v && forall j :: 0 <= j < k ==> least <= v[j] <= greatest
    {
      if v[k] < least {
        least := v[k];
      }
      if v[k] > greatest {
        greatest := v[k];
      }
    }
  }

  /** The unit round-off of a double, 2⁻⁵². */
  const UNIT_ROUNDOFF: real := 1.0 / 4503599627370496.0

  lemma {:induction false} NonnegativeProduct(p: real, q: real, r: real)
    requires p >= 0.0 && q >= 0.0 && r == p * q
    ensures r >= 0.0
  {
    if p > 0.0 && q > 0.0 {
      PositiveProduct(p, q, r);
    }
  }

  // ----- which systems are refused -----

  ghost function RowsOf(es: seq<Entry>, n: nat): (d: Rows)
    ensures |d| == n && forall i :: 0 <= i < n ==> d[i] == RowOf(es, i, n)
  {
    seq(n, i requires 0 <= i < n => RowOf(es, i, n))
  }

  ghost function DenseOf(m: Csr): (d: Rows)
    requires m.Valid() && m.rows == m.cols
    ensures |d| == m.rows && forall i :: 0 <= i < m.rows ==> d[i] == RowOf(m.Stored(), i, m.cols)
  {
    RowsOf(m.Stored(), m.rows)
  }

  /** ε·‖M‖·n, the magnitude a pivot has to exceed. */
  ghost function Tolerance(m: Csr): (t: real)
    requires m.Valid()
    ensures t >= 0.0
  {
    NonnegativeProduct(UNIT_ROUNDOFF, Norm(m, m.rows), UNIT_ROUNDOFF * Norm(m, m.rows));
    NonnegativeProduct(UNIT_ROUNDOFF * Norm(m, m.rows), m.rows as real, UNIT_ROUNDOFF * Norm(m, m.rows) * m.rows as real);
    UNIT_ROUNDOFF * Norm(m, m.rows) * m.rows as real
  }

  ghost predicate Square(m: Csr, rhs: Vec) {
    m.rows == m.cols == |rhs|
  }

  ghost predicate Admitted(m: Csr, rhs: Vec, policy: Policy) {
    Square(m, rhs) && m.rows <= policy.maxSize && |m.data| <= policy.maxStored
  }

  /** The triangular system, or None when a column has no candidate above the tolerance. */
  ghost function Triangular(m: Csr, rhs: Vec): (r: Option<(Rows, Vec)>)
    requires m.Valid() && Square(m, rhs)
  {
    Eliminated(DenseOf(m), rhs, m.rows, Tolerance(m), m.rows)
  }

  /** Some pivot is at least `bound` times another in magnitude. */
  ghost predicate PivotsSpread(m: Csr, rhs: Vec, bound: real)
    requires m.Valid() && Square(m, rhs) && Triangular(m, rhs).Some?
  {
    SpreadBy(Diagonal(Triangular(m, rhs).value.0, m.rows), bound)
  }

  ghost function Diagonal(d: Rows, n: nat): (v: Vec)
    requires |d| == n && forall i :: 0 <= i < n ==> |d[i]| == n
    ensures |v| == n && forall k :: 0 <= k < n ==> v[k] == Abs(d[k][k])
  {
    seq(n, k requires 0 <= k < n => Abs(d[k][k]))
  }

  ghost predicate SpreadBy(v: Vec, bound: real) {
    exists j, k :: 0 <= j < |v| && 0 <= k < |v| && v[k] > 0.0 && v[j] / v[k] >= bound
  }

  lemma {:induction false} QuotientGrows(p: real, q: real, great: real, small: real, r: real, quotient: real)
    requires 0.0 <= p <= great && 0.0 < small <= q && r == p / q && quotient == great / small
    ensures r <= quotient
  {
    QuotientTimes(p, q, r);
    QuotientTimes(great, small, quotient);
    if r > quotient {
      QuotientNonnegative(great, small, quotient);
      LargerProduct(quotient, r, small, q, quotient * small, r * q);
    }
  }

  lemma {:induction false} QuotientNonnegative(p: real, q: real, r: real)
    requires p >= 0.0 && q > 0.0 && r == p / q
    ensures r >= 0.0
  {
  }

  lemma {:induction false} LargerProduct(a: real, b: real, c: real, d: real, low: real, high: real)
    requires 0.0 <= a < b && 0.0 < c <= d && low == a * c && high == b * d
    ensures low < high
  {
    var middle := b * c;
    var step, rest := (b - a) * c, b * (d - c);
    PositiveProduct(b - a, c, step);
    NonnegativeProduct(b, d - c, rest);
    assert middle == low + step && high == middle + rest;
  }

  lemma {:induction false} SpreadIff(v: Vec, least: real, greatest: real, bound: real)
    requires least in v && greatest in v && (forall x <- v :: least <= x <= greatest) && least > 0.0
    ensures greatest / least >= bound <==> SpreadBy(v, bound)
  {
    if greatest / least >= bound {
      var j :| 0 <= j < |v| && v[j] == greatest;
      var k :| 0 <= k < |v| && v[k] == least;
      assert v[j] / v[k] >= bound;
    }
    if SpreadBy(v, bound) {
      var j, k :| 0 <= j < |v| && 0 <= k < |v| && v[k] > 0.0 && v[j] / v[k] >= bound;
      assert v[j] in v && v[k] in v;
      QuotientGrows(v[j], v[k], greatest, least, v[j] / v[k], greatest / least);
    }
  }

  lemma {:induction false} RowsMean(es: seq<Entry>, n: nat, x: Vec, i: nat)
    requires InShape(es, n, n) && |x| == n && i < n
    ensures Dot(RowsOf(es, n)[i], x) == RowDot(es, i, x)
  {
    RowDotIsDot(es, i, x);
  }

  /** The vectors that the dense rows annihilate are those that the matrix maps to zero. */
  lemma {:induction false} KernelMeans(es: seq<Entry>, n: nat, z: Vec)
    requires InShape(es, n, n) && |z| == n
    ensures Annihilates(RowsOf(es, n), z) <==> Times(es, n, z) == Zeros(n)
  {
    hide Dot, RowDot, RowsOf;
    forall i | 0 <= i < n ensures Dot(RowsOf(es, n)[i], z) == RowDot(es, i, z) {
      RowsMean(es, n, z, i);
    }
    assert Times(es, n, z) == Zeros(n) <==> forall i :: 0 <= i < n ==> Times(es, n, z)[i] == 0.0;
  }

  /** A regular square system, given by entries, has a solution. */
  lemma {:induction false} RegularHasSolution(es: seq<Entry>, n: nat, rhs: Vec) returns (x: Vec)
    requires InShape(es, n, n) && |rhs| == n && !HasKernel(RowsOf(es, n), n)
    ensures |x| == n && Times(es, n, x) == rhs
  {
    hide Dot, RowDot, RowsOf, HasKernel;
    x := RegularIsSolvable(RowsOf(es, n), rhs, n);
    forall i | 0 <= i < n ensures Times(es, n, x)[i] == rhs[i] {
      RowsMean(es, n, x, i);
    }
  }

  /** A backend is complete when it solves every square system whose matrix has no kernel. */
  ghost predicate Complete(solve: (Csr, Vec) -> Solve) {
    forall m: Csr, rhs: Vec :: m.Valid() && Square(m, rhs) && !HasKernel(DenseOf(m), m.rows) ==> Solved(solve(m, rhs))
  }

  predicate Solved(r: Solve) {
    r.status.Converged? && r.solution.Some?
  }

  ghost predicate Solvable(m: Csr, rhs: Vec) {
    m.Valid() && Square(m, rhs) && exists x: Vec :: Satisfies(m, rhs, x)
  }

  /** A backend that answers whatever has an answer. */
  ghost function Ideal(m: Csr, rhs: Vec): (r: Solve) {
    if Solvable(m, rhs) then
      var x: Vec :| Satisfies(m, rhs, x);
      Solve(Converged, Some(x))
    else Solve(Singular, None)
  }

  /** Exact and complete backends exist. */
  lemma {:induction false} IdealIsExactAndComplete()
    ensures Exact(Ideal) && Complete(Ideal)
  {
    hide HasKernel, DenseOf, Csr.Valid, Satisfies;
    forall m: Csr, rhs: Vec | m.Valid() && Square(m, rhs) && !HasKernel(DenseOf(m), m.rows) ensures Solved(Ideal(m, rhs)) {
      RegularIsSatisfiable(m, rhs);
    }
  }

  lemma {:induction false} RegularIsSatisfiable(m: Csr, rhs: Vec)
    requires m.Valid() && Square(m, rhs) && !HasKernel(DenseOf(m), m.rows)
    ensures Solvable(m, rhs)
  {
    hide HasKernel, RowDot;
    StoredInShape(m);
    var x := RegularHasSolution(m.Stored(), m.rows, rhs);
    assert Satisfies(m, rhs, x);
  }

  /** A refusal as singular is right up to the tolerance: with the matrix as given, some vector with a component 1 is
      mapped to components of at most ε·‖M‖·n. A matrix with a kernel is always refused. */
  lemma {:induction false} RefusedIsNearlySingular(m: Csr, rhs: Vec)
    requires m.Valid() && Square(m, rhs)
    ensures Triangular(m, rhs).None? ==> NearlySingular(DenseOf(m), m.rows, Tolerance(m))
    ensures HasKernel(DenseOf(m), m.rows) ==> Triangular(m, rhs).None?
  {
    hide Eliminated;
    if Triangular(m, rhs).None? {
      StuckIsNearlySingular(DenseOf(m), rhs, m.rows, Tolerance(m));
    }
    if HasKernel(DenseOf(m), m.rows) {
      KernelGetsStuck(DenseOf(m), rhs, m.rows, Tolerance(m));
    }
  }

  // ----- a matrix of zeros -----

  lemma {:induction false} AbsSumZero(v: Vec)
    requires AbsSum(v) == 0.0
    ensures forall k :: 0 <= k < |v| ==> v[k] == 0.0
  {
    if v != [] {
      AbsSumZero(v[..|v| - 1]);
      forall k | 0 <= k < |v| - 1 ensures v[k] == 0.0 {
        assert v[..|v| - 1][k] == v[k];
      }
    }
  }

  lemma {:induction false} OffsetZero(m: Csr, r: nat, o: nat)
    requires m.Valid() && r <= m.rows && o < m.indptr[r]
    requires forall k :: 0 <= k < m.rows ==> AbsSum(RowData(m, k)) <= 0.0
    ensures o < |m.data| && m.data[o] == 0.0
  {
    assert m.indptr[r] <= m.indptr[m.rows];
    if o < m.indptr[r - 1] {
      OffsetZero(m, r - 1, o);
    } else {
      AbsSumZero(RowData(m, r - 1));
      assert RowData(m, r - 1)[o - m.indptr[r - 1]] == m.data[o];
    }
  }

  lemma {:induction false} ValueOfZeros(es: seq<Entry>, i: nat, j: nat)
    requires forall k :: 0 <= k < |es| ==> es[k].value == 0.0
    ensures Value(es, i, j) == 0.0
  {
    if es != [] {
      ValueOfZeros(es[..|es| - 1], i, j);
    }
  }

  /** A matrix of norm zero is zero, so elimination finds no pivot in it. */
  lemma {:induction false} ZeroNorm(m: Csr, rhs: Vec)
    requires m.Valid() && Square(m, rhs) && m.rows > 0
    requires forall k :: 0 <= k < m.rows ==> AbsSum(RowData(m, k)) <= 0.0
    ensures Triangular(m, rhs).None?
  {
    hide Eliminated, Value, Dot, AbsSum, Norm, Tolerance, RowData, Csr.Stored;
    var n := m.rows;
    var d := DenseOf(m);
    forall o | 0 <= o < |m.data| ensures m.Stored()[o].value == 0.0 {
      OffsetZero(m, m.rows, o);
      StoredData(m);
    }
    forall i, j | 0 <= i < n && 0 <= j < n ensures d[i][j] == 0.0 {
      ValueOfZeros(m.Stored(), i, j);
    }
    var z := Zeros(n)[0 := 1.0];
    forall i | 0 <= i < n ensures Dot(d[i], z) == 0.0 {
      DotVanishes(d[i], z);
    }
    assert z[0] != Zeros(n)[0];
    assert HasKernel(d, n);
    KernelGetsStuck(d, rhs, n, Tolerance(m));
  }

  // ----- the backend -----

  /** `PythonReferenceBackend.solve`. The backward error is that of an exact solution, hence zero. */
  method SolveReference(m: Csr, rhs: Vec, policy: Policy) returns (r: Solve)
    requires m.Valid()
    ensures r.status.InvalidInput? <==> !Square(m, rhs)
    ensures r.status.CapacityExceeded? <==> Square(m, rhs) && !Admitted(m, rhs, policy)
    ensures r.status.Singular? <==> Admitted(m, rhs, policy) && Triangular(m, rhs).None?
    ensures r.status.IllConditioned? <==>
      && Admitted(m, rhs, policy) && Triangular(m, rhs).Some?
      && (PivotsSpread(m, rhs, policy.conditionWarning) || PivotsSpread(m, rhs, policy.conditionFailure))
    ensures r.solution.Some? <==>
      Admitted(m, rhs, policy) && Triangular(m, rhs).Some? && !PivotsSpread(m, rhs, policy.conditionFailure)
    ensures !r.status.LeastSquares?
    ensures r.solution.Some? ==> Satisfies(m, rhs, r.solution.value)
    ensures r.solution.Some? ==> forall y: Vec :: Satisfies(m, rhs, y) ==> y == r.solution.value
  {
    hide Eliminated, Equivalent, Csr.Valid, Reduced, Solves, Satisfies, SpreadBy, Norm, AbsSum, RowData, Tolerance, Diagonal, DenseOf;
    if m.rows != m.cols || |rhs| != m.rows {
      return Solve(InvalidInput, None);
    }
    var n := m.rows;
    if n > policy.maxSize || |m.data| > policy.maxStored {
      return Solve(CapacityExceeded, None);
    }
    if n == 0 {
      EmptySystem(m, rhs);
      return Solve(Converged, Some([]));
    }
    var dense := ToDense(m);
    IsDense(m, dense);
    var scale := InfinityNorm(m);
    if scale == 0.0 {
      ZeroNorm(m, rhs);
      return Solve(Singular, None);
    }
    var tolerance := UNIT_ROUNDOFF * scale * n as real;
    ToleranceIs(m, tolerance);
    var triangular, magnitudes := Triangularise(dense, rhs, n, tolerance);
    if triangular.None? {
      return Solve(Singular, None);
    }
    var d, t := triangular.value.0, triangular.value.1;
    var x := BackSubstitute(d, t, n);
    SolvedSystem(m, rhs, dense, d, t, x);
    var least, greatest := Extremes(magnitudes);
    MagnitudesAre(d, n, magnitudes);
    SpreadIff(magnitudes, least, greatest, policy.conditionFailure);
    SpreadIff(magnitudes, least, greatest, policy.conditionWarning);
    var condition := greatest / least;
    if condition >= policy.conditionFailure {
      return Solve(IllConditioned, None);
    }
    return Solve(if condition >= policy.conditionWarning then IllConditioned else Converged, Some(x));
  }

  lemma {:induction false} IsDense(m: Csr, dense: Rows)
    requires m.Valid() && |dense| == m.rows == m.cols && forall i :: 0 <= i < m.rows ==> dense[i] == RowOf(m.Stored(), i, m.cols)
    ensures dense == DenseOf(m)
  {
  }

  lemma {:induction false} ToleranceIs(m: Csr, tolerance: real)
    requires m.Valid() && tolerance == UNIT_ROUNDOFF * Norm(m, m.rows) * m.rows as real
    ensures tolerance == Tolerance(m) >= 0.0
  {
  }

  lemma {:induction false} MagnitudesAre(d: Rows, n: nat, magnitudes: Vec)
    requires |d| == n && (forall i :: 0 <= i < n ==> |d[i]| == n)
    requires |magnitudes| == n && forall k :: 0 <= k < n ==> magnitudes[k] == Abs(d[k][k])
    ensures magnitudes == Diagonal(d, n)
  {
  }

  lemma {:induction false} EmptySystem(m: Csr, rhs: Vec)
    requires m.Valid() && Square(m, rhs) && m.rows == 0
    ensures Satisfies(m, rhs, []) && (forall y: Vec :: Satisfies(m, rhs, y) ==> y == [])
    ensures Triangular(m, rhs).Some? && forall bound: real :: !PivotsSpread(m, rhs, bound)
  {
  }

  lemma {:induction false} DenseMeans(m: Csr, rhs: Vec, dense: Rows, x: Vec)
    requires m.Valid() && m.rows == m.cols == |rhs| == |dense| == |x|
    requires forall i :: 0 <= i < m.rows ==> dense[i] == RowOf(m.Stored(), i, m.cols)
    ensures Sized(dense, rhs, m.rows) && (Solves(dense, rhs, x) <==> Satisfies(m, rhs, x))
  {
    hide Dot, RowDot;
    StoredInShape(m);
    forall i | 0 <= i < m.rows ensures Dot(dense[i], x) == RowDot(m.Stored(), i, x) {
      RowDotIsDot(m.Stored(), i, x);
    }
    var product := Times(m.Stored(), m.rows, x);
    assert product == rhs <==> forall i :: 0 <= i < m.rows ==> product[i] == rhs[i];
  }

  lemma {:induction false} SolvedSystem(m: Csr, rhs: Vec, dense: Rows, d: Rows, t: Vec, x: Vec)
    requires m.Valid() && m.rows == m.cols == |rhs| == |dense| == |x|
    requires forall i :: 0 <= i < m.rows ==> dense[i] == RowOf(m.Stored(), i, m.cols)
    requires Sized(d, t, m.rows) && Equivalent(dense, rhs, d, t, m.rows) && Reduced(d, m.rows, m.rows) && Solves(d, t, x)
    ensures Satisfies(m, rhs, x) && forall y: Vec :: Satisfies(m, rhs, y) ==> y == x
  {
    hide Solves, Reduced, Csr.Valid;
    DenseMeans(m, rhs, dense, x);
    forall y: Vec | |y| == m.rows && Satisfies(m, rhs, y) ensures y == x {
      DenseMeans(m, rhs, dense, y);
      SolutionIsUnique(d, t, m.rows, x, y);
    }
  }
}
