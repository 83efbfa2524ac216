/** The constrained solve: KKT assembly, the split of its solution, and uniqueness. */
module ConstrainedSolver {
  import opened Common
  import opened Vectors
  import opened Entries
  import opened SparseMatrix
  import opened ContextGraph
  import opened Propagation
  import opened Constraints
  import opened ConstraintCompiler
  import opened Elimination
  import opened Backend

  /** Mx + Cᵀu == q and Cx == d. */
  ghost predicate Kkt(m: Csr, q: Vec, c: Csr, d: Vec, x: Vec, u: Vec)
    requires m.Valid() && c.Valid()
  {
    && m.rows == m.cols == c.cols == |x| == |q| && c.rows == |d| == |u|
    && (forall i :: 0 <= i < |x| ==> RowDot(m.Stored(), i, x) + RowDot(Transposed(c.Stored()), i, u) == q[i])
    && Times(c.Stored(), c.rows, x) == d
  }

  // ----- assembly -----

  /** Each constraint entry appears once above and once below the diagonal. */
  function Bordered(es: seq<Entry>, n: nat): (r: seq<Entry>) {
    if es == [] then []
    else
      Bordered(es[..|es| - 1], n) + Pair(es[|es| - 1], n)
  }

  function Pair(e: Entry, n: nat): (r: seq<Entry>) {
    [Entry(e.col, n + e.row, e.value), Entry(n + e.row, e.col, e.value)]
  }

  lemma {:induction false} RowDotLast(es: seq<Entry>, i: nat, x: Vec, term: real)
    requires es != [] && term == if es[|es| - 1].row == i then es[|es| - 1].value * Get(x, es[|es| - 1].col) else 0.0
    ensures RowDot(es, i, x) == RowDot(es[..|es| - 1], i, x) + term
  {
  }

  /** What one constraint entry contributes to row `i` of the bordered system. */
  function Contribution(e: Entry, x: Vec, u: Vec, i: nat): (v: real) {
    if i < |x| then (if e.col == i then e.value * Get(u, e.row) else 0.0)
    else (if |x| + e.row == i then e.value * Get(x, e.col) else 0.0)
  }

  lemma {:induction false} LastContribution(es: seq<Entry>, x: Vec, u: Vec, i: nat)
    requires es != []
    ensures var n := |es| - 1; var v := Contribution(es[n], x, u, i);
      if i < |x| then RowDot(Transposed(es), i, u) == RowDot(Transposed(es[..n]), i, u) + v
      else RowDot(es, i - |x|, x) == RowDot(es[..n], i - |x|, x) + v
  {
    var n, flipped := |es| - 1, Transposed(es);
    assert flipped[..n] == Transposed(es[..n]) && flipped[n] == Flipped(es[n]);
    if i < |x| {
      RowDotLast(flipped, i, u, Contribution(es[n], x, u, i));
    } else {
      RowDotLast(es, i - |x|, x, Contribution(es[n], x, u, i));
    }
  }

  lemma {:induction false} PairMeaning(e: Entry, x: Vec, u: Vec, i: nat, term: real)
    requires e.col < |x| && e.row < |u|
    requires term == Contribution(e, x, u, i)
    ensures RowDot(Pair(e, |x|), i, x + u) == term
  {
    var above, below := Entry(e.col, |x| + e.row, e.value), Entry(|x| + e.row, e.col, e.value);
    SingleEntry(above, i, 0, x + u);
    SingleEntry(below, i, 0, x + u);
    RowDotConcat([above], [below], i, x + u);
    assert [above] + [below] == Pair(e, |x|);
    assert Get(x + u, |x| + e.row) == Get(u, e.row) && Get(x + u, e.col) == Get(x, e.col);
  }

  lemma {:induction false} BorderedMeans(es: seq<Entry>, x: Vec, u: Vec, i: nat)
    requires InShape(es, |u|, |x|) && i < |x| + |u|
    ensures RowDot(Bordered(es, |x|), i, x + u)
      == if i < |x| then RowDot(Transposed(es), i, u) else RowDot(es, i - |x|, x)
  {
    if es != [] {
      hide RowDot, Contribution;
      var n := |es| - 1;
      BorderedMeans(es[..n], x, u, i);
      PairMeaning(es[n], x, u, i, Contribution(es[n], x, u, i));
      RowDotConcat(Bordered(es[..n], |x|), Pair(es[n], |x|), i, x + u);
      LastContribution(es, x, u, i);
    }
  }

  lemma {:induction false} BorderedShape(es: seq<Entry>, n: nat, k: nat)
    requires InShape(es, k, n)
    ensures InShape(Bordered(es, n), n + k, n + k)
  {
    if es != [] {
      BorderedShape(es[..|es| - 1], n, k);
    }
  }

  lemma {:induction false} TopBlock(es: seq<Entry>, x: Vec, u: Vec, i: nat)
    requires InShape(es, |x|, |x|)
    ensures RowDot(es, i, x + u) == if i < |x| then RowDot(es, i, x) else 0.0
  {
    if es != [] {
      TopBlock(es[..|es| - 1], x, u, i);
    }
  }

  /** The entries of the KKT matrix, up to equal sums. */
  ghost predicate KktEntries(m: Csr, c: Csr, es: seq<Entry>, n: nat, k: nat)
    requires m.Valid() && c.Valid()
  {
    m.rows == m.cols == c.cols == n && c.rows == k && SameMatrix(es, m.Stored() + Bordered(c.Stored(), n), n + k, n + k)
  }

  /** The KKT rows are the stationarity rows followed by the constraint rows. */
  lemma {:induction false} KktRows(m: Csr, c: Csr, es: seq<Entry>, x: Vec, u: Vec, i: nat)
    requires m.Valid() && c.Valid() && KktEntries(m, c, es, |x|, |u|) && i < |x| + |u|
    ensures RowDot(es, i, x + u)
      == if i < |x| then RowDot(m.Stored(), i, x) + RowDot(Transposed(c.Stored()), i, u) else RowDot(c.Stored(), i - |x|, x)
  {
    hide RowDot, Csr.Valid;
    StoredInShape(m);
    StoredInShape(c);
    SameRowDot(es, m.Stored() + Bordered(c.Stored(), |x|), |x| + |u|, x + u, i);
    RowDotConcat(m.Stored(), Bordered(c.Stored(), |x|), i, x + u);
    BorderedMeans(c.Stored(), x, u, i);
    BorderedShape(c.Stored(), |x|, |u|);
    TopBlock(m.Stored(), x, u, i);
  }

  lemma {:induction false} SplitSolves(m: Csr, q: Vec, c: Csr, d: Vec, es: seq<Entry>, x: Vec, u: Vec)
    requires m.Valid() && c.Valid() && KktEntries(m, c, es, |x|, |u|) && |q| == |x| && |d| == |u|
    requires Times(es, |x| + |u|, x + u) == q + d
    ensures Kkt(m, q, c, d, x, u)
  {
    hide RowDot, Csr.Valid, SameMatrix;
    var product := Times(es, |x| + |u|, x + u);
    forall i | 0 <= i < |x| ensures RowDot(m.Stored(), i, x) + RowDot(Transposed(c.Stored()), i, u) == q[i] {
      KktRows(m, c, es, x, u, i);
      assert product[i] == (q + d)[i];
    }
    forall r | 0 <= r < |u| ensures RowDot(c.Stored(), r, x) == d[r] {
      KktRows(m, c, es, x, u, |x| + r);
      assert product[|x| + r] == (q + d)[|x| + r];
    }
    assert Times(c.Stored(), c.rows, x) == d;
  }

  // ----- regularity -----

  /** The homogeneous system has no solution but zero. */
  ghost predicate OnlyZero(m: Csr, c: Csr)
    requires m.Valid() && c.Valid()
  {
    forall z: Vec, w: Vec :: |z| == m.rows && |w| == c.rows && Kkt(m, Zeros(m.rows), c, Zeros(c.rows), z, w) ==>
      z == Zeros(m.rows) && w == Zeros(c.rows)
  }

  lemma {:induction false} HomogeneousKernel(m: Csr, c: Csr, es: seq<Entry>, z: Vec)
    requires m.Valid() && c.Valid() && KktEntries(m, c, es, m.rows, c.rows) && OnlyZero(m, c)
    requires |z| == m.rows + c.rows && Times(es, |z|, z) == Zeros(|z|)
    ensures z == Zeros(|z|)
  {
    hide RowDot, Csr.Valid, KktEntries, Kkt;
    var x, u := z[..m.rows], z[m.rows..];
    assert z == x + u && Zeros(|z|) == Zeros(m.rows) + Zeros(c.rows);
    SplitSolves(m, Zeros(m.rows), c, Zeros(c.rows), es, x, u);
  }

  lemma {:induction false} KktShaped(m: Csr, c: Csr, es: seq<Entry>)
    requires m.Valid() && c.Valid() && KktEntries(m, c, es, m.rows, c.rows)
    ensures InShape(es, m.rows + c.rows, m.rows + c.rows)
  {
  }

  /** Then the KKT matrix is regular. */
  lemma {:induction false} KktRegular(m: Csr, c: Csr, es: seq<Entry>)
    requires m.Valid() && c.Valid() && KktEntries(m, c, es, m.rows, c.rows) && OnlyZero(m, c)
    ensures !HasKernel(RowsOf(es, m.rows + c.rows), m.rows + c.rows)
  {
    hide RowDot, Dot, Csr.Valid, OnlyZero, RowsOf, KktEntries, Annihilates, Times;
    var n := m.rows + c.rows;
    KktShaped(m, c, es);
    forall z: Vec | |z| == n && Annihilates(RowsOf(es, n), z) ensures z == Zeros(n) {
      KernelMeans(es, n, z);
      HomogeneousKernel(m, c, es, z);
    }
  }

  lemma {:induction false} UnconstrainedRegular(m: Csr, c: Csr)
    requires m.Valid() && c.Valid() && m.rows == m.cols == c.cols && c.rows == 0 && OnlyZero(m, c)
    ensures !HasKernel(DenseOf(m), m.rows)
  {
    hide RowDot, Dot, Csr.Valid, Kkt, RowsOf;
    StoredInShape(m);
    forall z: Vec | |z| == m.rows && Annihilates(DenseOf(m), z) ensures z == Zeros(m.rows) {
      KernelMeans(m.Stored(), m.rows, z);
      NoConstraints(m, Zeros(m.rows), c, Zeros(0), z);
    }
  }

  datatype Constrained =
    | Constrained(status: SolveStatus, solution: Option<Vec>, multipliers: Option<Vec>)
    | BadShape

  /** The entries of the operator, and each constraint entry above and below the diagonal. */
  method Border(m: Csr, c: Csr) returns (es: seq<Entry>)
    requires m.Valid() && c.Valid() && m.rows == m.cols == c.cols
    ensures es == m.Stored() + Bordered(c.Stored(), m.rows) && InShape(es, m.rows + c.rows, m.rows + c.rows)
  {
    hide Csr.Valid;
    var size, border := m.rows, c.Stored();
    es := m.Stored();
    StoredInShape(m);
    StoredInShape(c);
    for k := 0 to |border|
      invariant es == m.Stored() + Bordered(border[..k], size)
    {
      var e := border[k];
      assert border[..k + 1][..k] == border[..k];
      es := es + [Entry(e.col, size + e.row, e.value)];
      es := es + [Entry(size + e.row, e.col, e.value)];
    }
    assert border[..|border|] == border;
    BorderedShape(border, size, c.rows);
  }

  /** What the backend answered, cut into solution and multipliers after the first `n` components. */
  ghost predicate Relays(answer: Solve, n: nat, count: nat, r: Constrained) {
    && r.Constrained? && r.status == answer.status
    && match answer.solution
       case None => r.solution.None? && r.multipliers.None?
       case Some(z) =>
         && r.solution.Some? && r.multipliers.Some? && r.solution.value + r.multipliers.value == z
         && if count == 0 then |r.multipliers.value| == 0 else |r.solution.value| == if |z| < n then |z| else n
  }

  /** The reply relays the backend's answer to the bordered system. */
  ghost predicate Asked(m: Csr, q: Vec, c: Compiled, solve: (Csr, Vec) -> Solve, r: Constrained)
    requires m.Valid() && Shaped(c)
  {
    exists k: Csr :: k.Valid() && KktEntries(m, c.matrix, k.Stored(), m.rows, c.matrix.rows)
      && k.rows == k.cols == m.rows + c.matrix.rows && Relays(solve(k, q + c.rhs), m.rows, c.matrix.rows, r)
  }

  /** `solve_constrained_system`; BadShape stands for its ValueErrors. */
  method SolveConstrained(m: Csr, q: Vec, c: Compiled, solve: (Csr, Vec) -> Solve) returns (r: Constrained)
    requires m.Valid() && Shaped(c)
    ensures r.BadShape? <==> m.rows != m.cols || |q| != m.rows || c.matrix.cols != m.rows
    ensures r.Constrained? ==> (r.solution.Some? <==> r.multipliers.Some?) && Asked(m, q, c, solve, r)
    ensures Exact(solve) && r.Constrained? && r.solution.Some? ==>
      Kkt(m, q, c.matrix, c.rhs, r.solution.value, r.multipliers.value)
    ensures Exact(solve) && Complete(solve) && r.Constrained? && OnlyZero(m, c.matrix) ==>
      r.status.Converged? && r.solution.Some?
  {
    hide Csr.Valid, RowDot, OnlyZero, HasKernel, RowsOf, Bordered, Kkt, Value;
    if m.rows != m.cols || |q| != m.rows || c.matrix.cols != m.rows {
      return BadShape;
    }
    var size, count := m.rows, c.matrix.rows;
    if count == 0 {
      var direct := solve(m, q);
      assert c.rhs == [] && q + c.rhs == q;
      UnborderedEntries(m, c.matrix);
      if OnlyZero(m, c.matrix) {
        UnconstrainedRegular(m, c.matrix);
      }
      if Exact(solve) && direct.solution.Some? {
        NoConstraints(m, q, c.matrix, c.rhs, direct.solution.value);
      }
      r := Constrained(direct.status, direct.solution, if direct.solution.Some? then Some([]) else None);
      assert Relays(solve(m, q + c.rhs), size, count, r);
      return r;
    }
    var es := Border(m, c.matrix);
    var kkt := FromEntries(size + count, size + count, es);
    var result := solve(kkt.value, q + c.rhs);
    if OnlyZero(m, c.matrix) {
      KktRegular(m, c.matrix, kkt.value.Stored());
    }
    assert KktEntries(m, c.matrix, kkt.value.Stored(), size, count);
    if result.solution.None? {
      r := Constrained(result.status, None, None);
      assert Relays(solve(kkt.value, q + c.rhs), size, count, r);
      return r;
    }
    var z := result.solution.value;
    if |z| < size {
      // an exact backend never returns this; slicing yields what is there
      r := Constrained(result.status, Some(z), Some([]));
      assert Relays(solve(kkt.value, q + c.rhs), size, count, r);
      return r;
    }
    var x, u := z[..size], z[size..];
    if Exact(solve) {
      assert z == x + u;
      SplitSolves(m, q, c.matrix, c.rhs, kkt.value.Stored(), x, u);
    }
    r := Constrained(result.status, Some(x), Some(u));
    assert Relays(solve(kkt.value, q + c.rhs), size, count, r);
  }

  /** Without constraints the bordered matrix is the operator. */
  lemma {:induction false} UnborderedEntries(m: Csr, c: Csr)
    requires m.Valid() && c.Valid() && m.rows == m.cols == c.cols && c.rows == 0
    ensures KktEntries(m, c, m.Stored(), m.rows, 0)
  {
    StoredInShape(m);
    StoredInShape(c);
    assert c.Stored() == [];
    hide Csr.Valid, Csr.Stored;
    assert Bordered(c.Stored(), m.rows) == [];
    assert m.Stored() + [] == m.Stored();
  }

  lemma {:induction false} NoConstraints(m: Csr, q: Vec, c: Csr, d: Vec, x: Vec)
    requires m.Valid() && c.Valid() && m.rows == m.cols == c.cols == |x| == |q| && c.rows == |d| == 0
    requires Times(m.Stored(), m.rows, x) == q
    ensures Kkt(m, q, c, d, x, [])
  {
    StoredInShape(c);
    assert c.Stored() == [];
    assert Transposed(c.Stored()) == [];
    forall i | 0 <= i < |x| ensures RowDot(m.Stored(), i, x) == q[i] {
      assert Times(m.Stored(), m.rows, x)[i] == q[i];
    }
  }

  // ----- uniqueness -----

  /** xᵀMx ≥ ε‖x‖² with ε > 0. */
  ghost predicate Coercive(m: Csr, epsilon: real)
    requires m.Valid()
  {
    epsilon > 0.0 && forall x: Vec :: |x| == m.rows ==> Form(m.Stored(), x, x) >= epsilon * Dot(x, x)
  }

  lemma {:induction false} OperatorIsCoercive(m: Csr, g: Graph, epsilon: real)
    requires IsOperator(m, g, epsilon) && epsilon > 0.0
    ensures Coercive(m, epsilon)
  {
    forall x: Vec | |x| == m.rows ensures Form(m.Stored(), x, x) >= epsilon * Dot(x, x) {
      OperatorBound(m, g, epsilon, x);
    }
  }

  lemma {:induction false} DifferenceRow(es: seq<Entry>, i: nat, x: Vec, y: Vec)
    requires |x| == |y|
    ensures RowDot(es, i, Axpy(x, -1.0, y)) == RowDot(es, i, x) - RowDot(es, i, y)
  {
    RowDotAxpy(es, i, x, -1.0, y);
  }

  /** The difference of two KKT points solves the homogeneous system. */
  lemma {:induction false} Homogeneous(m: Csr, q: Vec, c: Csr, d: Vec, x: Vec, u: Vec, x': Vec, u': Vec)
    requires m.Valid() && c.Valid() && Kkt(m, q, c, d, x, u) && Kkt(m, q, c, d, x', u')
    ensures Kkt(m, Zeros(m.rows), c, Zeros(c.rows), Axpy(x, -1.0, x'), Axpy(u, -1.0, u'))
  {
    hide RowDot, Csr.Valid, Axpy;
    var z, w := Axpy(x, -1.0, x'), Axpy(u, -1.0, u');
    forall i | 0 <= i < |x| ensures RowDot(m.Stored(), i, z) + RowDot(Transposed(c.Stored()), i, w) == 0.0 {
      DifferenceRow(m.Stored(), i, x, x');
      DifferenceRow(Transposed(c.Stored()), i, u, u');
    }
    forall r | 0 <= r < c.rows ensures RowDot(c.Stored(), r, z) == 0.0 {
      DifferenceRow(c.Stored(), r, x, x');
      assert Times(c.Stored(), c.rows, x)[r] == Times(c.Stored(), c.rows, x')[r];
    }
    assert Times(c.Stored(), c.rows, z) == Zeros(c.rows);
  }

  /** Energy of a homogeneous KKT point: zᵀMz == -(Cᵀw)·z == -w·(Cz) == 0. */
  lemma {:induction false} NoEnergy(m: Csr, c: Csr, z: Vec, w: Vec)
    requires m.Valid() && c.Valid() && Kkt(m, Zeros(m.rows), c, Zeros(c.rows), z, w)
    ensures Form(m.Stored(), z, z) == 0.0
  {
    hide RowDot, Csr.Valid, Dot, Form;
    StoredInShape(m);
    StoredInShape(c);
    var mz, cw := Times(m.Stored(), |z|, z), Times(Transposed(c.Stored()), |z|, w);
    FormIsDot(m.Stored(), z, z);
    Adjoint(c.Stored(), w, z);
    DotZeros(w);
    assert Axpy(mz, 1.0, cw) == Zeros(|z|);
    DotAxpy(mz, 1.0, cw, z);
    DotZeros(z);
  }

  lemma {:induction false} EnergyForces(epsilon: real, square: real, bound: real)
    requires epsilon > 0.0 && square >= 0.0 && bound == epsilon * square && bound <= 0.0
    ensures square == 0.0
  {
    if square > 0.0 {
      PositiveProduct(epsilon, square, bound);
    }
  }

  lemma {:induction false} ZeroRow(es: seq<Entry>, i: nat, n: nat)
    ensures RowDot(es, i, Zeros(n)) == 0.0
  {
    if es != [] {
      ZeroRow(es[..|es| - 1], i, n);
    }
  }

  /** Only zero has no energy. */
  ghost predicate Definite(m: Csr)
    requires m.Valid()
  {
    forall x: Vec :: |x| == m.rows && Form(m.Stored(), x, x) <= 0.0 ==> x == Zeros(m.rows)
  }

  lemma {:induction false} CoerciveIsDefinite(m: Csr, epsilon: real)
    requires m.Valid() && Coercive(m, epsilon)
    ensures Definite(m)
  {
    hide Dot, Form;
    forall x: Vec | |x| == m.rows && Form(m.Stored(), x, x) <= 0.0 ensures x == Zeros(m.rows) {
      DotSelf(x);
      EnergyForces(epsilon, Dot(x, x), epsilon * Dot(x, x));
    }
  }

  lemma {:induction false} HomogeneousIsZero(m: Csr, c: Csr, z: Vec, w: Vec)
    requires m.Valid() && c.Valid() && Definite(m) && Independent(c.Stored(), c.rows, c.cols)
    requires Kkt(m, Zeros(m.rows), c, Zeros(c.rows), z, w)
    ensures z == Zeros(|z|) && w == Zeros(|w|)
  {
    hide RowDot, Csr.Valid, Dot, Form;
    NoEnergy(m, c, z, w);
    forall i | 0 <= i < |z| ensures RowDot(Transposed(c.Stored()), i, w) == 0.0 {
      ZeroRow(m.Stored(), i, |z|);
    }
    assert Times(Transposed(c.Stored()), c.cols, w) == Zeros(c.cols);
  }

  /** The KKT system of a coercive operator with independent constraint rows has at most one solution, so any two
      ways of solving it agree. */
  lemma {:induction false} KktUnique(m: Csr, q: Vec, c: Csr, d: Vec, epsilon: real, x: Vec, u: Vec, x': Vec, u': Vec)
    requires m.Valid() && c.Valid() && Coercive(m, epsilon) && Independent(c.Stored(), c.rows, c.cols)
    requires Kkt(m, q, c, d, x, u) && Kkt(m, q, c, d, x', u')
    ensures x == x' && u == u'
  {
    hide RowDot, Csr.Valid, Coercive, Definite, Independent;
    Homogeneous(m, q, c, d, x, u, x', u');
    CoerciveIsDefinite(m, epsilon);
    HomogeneousIsZero(m, c, Axpy(x, -1.0, x'), Axpy(u, -1.0, u'));
    ZeroDifference(x, x');
    ZeroDifference(u, u');
  }

  lemma {:induction false} ZeroDifference(x: Vec, y: Vec)
    requires |x| == |y| && Axpy(x, -1.0, y) == Zeros(|x|)
    ensures x == y
  {
    forall k | 0 <= k < |x| ensures x[k] == y[k] {
      assert Axpy(x, -1.0, y)[k] == 0.0;
    }
  }

  // ----- existence -----

  lemma {:induction false} DefiniteOnlyZero(m: Csr, c: Csr)
    requires m.Valid() && c.Valid() && Definite(m) && Independent(c.Stored(), c.rows, c.cols)
    ensures OnlyZero(m, c)
  {
    hide RowDot, Csr.Valid, Definite, Independent;
    forall z: Vec, w: Vec | |z| == m.rows && |w| == c.rows && Kkt(m, Zeros(m.rows), c, Zeros(c.rows), z, w)
      ensures z == Zeros(m.rows) && w == Zeros(c.rows)
    {
      HomogeneousIsZero(m, c, z, w);
    }
  }

  /** The KKT system of a coercive operator with independent constraint rows has a solution, whatever the right-hand
      sides are. */
  lemma {:induction false} KktExists(m: Csr, q: Vec, c: Csr, d: Vec, epsilon: real) returns (x: Vec, u: Vec)
    requires m.Valid() && c.Valid() && m.rows == m.cols == c.cols == |q| && c.rows == |d|
    requires Coercive(m, epsilon) && Independent(c.Stored(), c.rows, c.cols)
    ensures Kkt(m, q, c, d, x, u)
  {
    hide RowDot, Csr.Valid, Coercive, Definite, Independent, OnlyZero, HasKernel, RowsOf, Kkt;
    var n, k := m.rows, c.rows;
    var es := m.Stored() + Bordered(c.Stored(), n);
    StoredInShape(m);
    StoredInShape(c);
    BorderedShape(c.Stored(), n, k);
    CoerciveIsDefinite(m, epsilon);
    DefiniteOnlyZero(m, c);
    KktRegular(m, c, es);
    var z := RegularHasSolution(es, n + k, q + d);
    x, u := z[..n], z[n..];
    assert z == x + u;
    SplitSolves(m, q, c, d, es, x, u);
  }
}
