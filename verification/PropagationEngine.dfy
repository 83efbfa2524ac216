/** The engine's solve, end to end: whichever coordinates are retained, the answer is the one vector that meets the
    constraint rows and minimises the graph's energy against the query. */
module PropagationEngine {
  import opened Common
  import opened Vectors
  import opened Entries
  import opened SparseMatrix
  import opened ContextGraph
  import opened Propagation
  import opened Constraints
  import opened ConstraintCompiler
  import opened Backend
  import opened ConstrainedSolver
  import opened Reduction
  import opened StateReducer

  // ----- bilinearity -----

  lemma {:induction false} TimesAdd(es: seq<Entry>, n: nat, z: Vec, x: Vec)
    requires |x| == |z|
    ensures Times(es, n, Axpy(z, 1.0, x)) == Axpy(Times(es, n, z), 1.0, Times(es, n, x))
  {
    hide RowDot;
    forall i | 0 <= i < n ensures Times(es, n, Axpy(z, 1.0, x))[i] == Axpy(Times(es, n, z), 1.0, Times(es, n, x))[i] {
      RowDotAxpy(es, i, z, 1.0, x);
      assert Axpy(Times(es, n, z), 1.0, Times(es, n, x))[i] == RowDot(es, i, z) + 1.0 * RowDot(es, i, x);
    }
  }

  lemma {:induction false} FormAdd(es: seq<Entry>, w: Vec, z: Vec, x: Vec)
    requires |x| == |z| && InShape(es, |w|, |x|)
    ensures Form(es, w, Axpy(z, 1.0, x)) == Form(es, w, z) + Form(es, w, x)
  {
    hide Form, RowDot, Dot, Axpy;
    FormIsDot(es, w, Axpy(z, 1.0, x));
    FormIsDot(es, w, z);
    FormIsDot(es, w, x);
    TimesAdd(es, |w|, z, x);
    DotAxpy(Times(es, |w|, z), 1.0, Times(es, |w|, x), w);
  }

  ghost predicate SymmetricForm(es: seq<Entry>, n: nat) {
    forall y: Vec, x: Vec :: |y| == |x| == n ==> Form(es, y, x) == Form(es, x, y)
  }

  /** (z + x)ᵀM(z + x) for a symmetric M. */
  lemma {:induction false} FormSquare(es: seq<Entry>, z: Vec, x: Vec)
    requires |x| == |z| && InShape(es, |x|, |x|) && SymmetricForm(es, |x|)
    ensures Form(es, Axpy(z, 1.0, x), Axpy(z, 1.0, x)) == Form(es, z, z) + 2.0 * Form(es, z, x) + Form(es, x, x)
  {
    hide Form;
    var y := Axpy(z, 1.0, x);
    FormAdd(es, y, z, x);
    assert Form(es, y, z) == Form(es, z, y) && Form(es, y, x) == Form(es, x, y) && Form(es, x, z) == Form(es, z, x);
    FormAdd(es, z, z, x);
    FormAdd(es, x, z, x);
  }

  // ----- minimality -----

  /** At a KKT point the form against any feasible direction is the query's product with it. */
  lemma {:induction false} StationaryDirection(m: Csr, q: Vec, c: Csr, d: Vec, x: Vec, u: Vec, z: Vec)
    requires m.Valid() && c.Valid() && Kkt(m, q, c, d, x, u) && |z| == |x| && Times(c.Stored(), c.rows, z) == Zeros(c.rows)
    ensures Form(m.Stored(), z, x) == Dot(q, z)
  {
    hide Form, RowDot, Dot, Csr.Valid;
    StoredInShape(m);
    StoredInShape(c);
    var mx, cu := Times(m.Stored(), |z|, x), Times(Transposed(c.Stored()), |z|, u);
    FormIsDot(m.Stored(), z, x);
    Adjoint(c.Stored(), u, z);
    DotZeros(u);
    assert Axpy(mx, 1.0, cu) == q;
    DotAxpy(mx, 1.0, cu, z);
  }

  /** Twice the objective ½yᵀMy - q·y. */
  ghost function Objective(m: Csr, q: Vec, y: Vec): (v: real)
    requires m.Valid() && |q| == |y|
  {
    Form(m.Stored(), y, y) - 2.0 * Dot(q, y)
  }

  lemma {:induction false} DifferenceFeasible(c: Csr, d: Vec, y: Vec, x: Vec)
    requires c.Valid() && |x| == |y| == c.cols && Times(c.Stored(), c.rows, x) == d && Times(c.Stored(), c.rows, y) == d
    ensures Times(c.Stored(), c.rows, Axpy(y, -1.0, x)) == Zeros(c.rows)
  {
    hide RowDot, Csr.Valid;
    forall r | 0 <= r < c.rows ensures RowDot(c.Stored(), r, Axpy(y, -1.0, x)) == 0.0 {
      DifferenceRow(c.Stored(), r, y, x);
      assert Times(c.Stored(), c.rows, x)[r] == Times(c.Stored(), c.rows, y)[r];
    }
  }

  lemma {:induction false} SumBack(y: Vec, x: Vec)
    requires |x| == |y|
    ensures Axpy(Axpy(y, -1.0, x), 1.0, x) == y
  {
    var z := Axpy(y, -1.0, x);
    forall k | 0 <= k < |y| ensures Axpy(z, 1.0, x)[k] == y[k] {
      assert z[k] == y[k] - x[k];
    }
  }

  /** Every feasible vector costs more than the KKT point, by the energy of the difference. */
  lemma {:induction false} KktMinimises(m: Csr, q: Vec, c: Csr, d: Vec, x: Vec, u: Vec, y: Vec)
    requires m.Valid() && c.Valid() && Kkt(m, q, c, d, x, u) && SymmetricForm(m.Stored(), m.rows)
    requires |y| == |x| && Times(c.Stored(), c.rows, y) == d
    ensures var z := Axpy(y, -1.0, x); Objective(m, q, y) == Objective(m, q, x) + Form(m.Stored(), z, z)
  {
    hide Form, RowDot, Dot, Csr.Valid;
    var z := Axpy(y, -1.0, x);
    DifferenceFeasible(c, d, y, x);
    StationaryDirection(m, q, c, d, x, u, z);
    StoredInShape(m);
    FormSquare(m.Stored(), z, x);
    SumBack(y, x);
    DotSum(q, z, x);
  }

  // ----- the engine -----

  /** `x` meets the rows, and beats every other vector that does by at least ε times the squared distance. */
  ghost predicate Minimises(g: Graph, epsilon: real, rows: seq<ConstraintRow>, q: Vec, x: Vec)
    requires GraphOk(g)
  {
    && |x| == |q| == |g.coordinates|
    && RowsHold(rows, IndexOf(CoordinateIds(g.coordinates)), x)
    && forall y: Vec :: |y| == |x| && RowsHold(rows, IndexOf(CoordinateIds(g.coordinates)), y) ==> Beats(g, epsilon, q, x, y)
  }

  /** Twice the energy of `y` against the query. */
  ghost function Cost(g: Graph, epsilon: real, q: Vec, y: Vec): (v: real)
    requires GraphOk(g) && |q| == |y|
  {
    Energy(g, epsilon, y, y) - 2.0 * Dot(q, y)
  }

  ghost predicate Beats(g: Graph, epsilon: real, q: Vec, x: Vec, y: Vec)
    requires GraphOk(g) && |x| == |q| == |y|
  {
    var z := Axpy(y, -1.0, x);
    Cost(g, epsilon, q, y) >= Cost(g, epsilon, q, x) + epsilon * Dot(z, z)
  }

  /** A minimiser in this sense is unique, so the retained set cannot change the answer. */
  lemma {:induction false} MinimiserIsUnique(g: Graph, epsilon: real, rows: seq<ConstraintRow>, q: Vec, x: Vec, x': Vec)
    requires GraphOk(g) && epsilon > 0.0 && Minimises(g, epsilon, rows, q, x) && Minimises(g, epsilon, rows, q, x')
    ensures x == x'
  {
    hide Dot, Cost, RowsHold, Axpy;
    var z, z' := Axpy(x', -1.0, x), Axpy(x, -1.0, x');
    assert Beats(g, epsilon, q, x, x') && Beats(g, epsilon, q, x', x);
    DotSelf(z);
    DotSelf(z');
    NoGap(epsilon, Cost(g, epsilon, q, x), Cost(g, epsilon, q, x'), Dot(z, z), Dot(z', z'));
    ZeroDifference(x', x);
  }

  lemma {:induction false} NoGap(epsilon: real, here: real, there: real, a: real, b: real)
    requires epsilon > 0.0 && a >= 0.0 && b >= 0.0 && there >= here + epsilon * a && here >= there + epsilon * b
    ensures a == 0.0
  {
    var p, q := epsilon * a, epsilon * b;
    if b > 0.0 {
      PositiveProduct(epsilon, b, q);
    }
    assert p <= 0.0;
    if a > 0.0 {
      PositiveProduct(epsilon, a, p);
    }
  }

  lemma {:induction false} OperatorSymmetricForm(m: Csr, g: Graph, epsilon: real)
    requires IsOperator(m, g, epsilon)
    ensures SymmetricForm(m.Stored(), m.rows)
  {
    hide Form;
    forall y: Vec, x: Vec | |y| == |x| == m.rows ensures Form(m.Stored(), y, x) == Form(m.Stored(), x, y) {
      OperatorEnergy(m, g, epsilon, y, x);
      OperatorEnergy(m, g, epsilon, x, y);
      DiagonalSymmetric(g.coordinates, epsilon, y, x);
      RelationsSymmetric(g.relations, IndexOf(CoordinateIds(g.coordinates)), y, x);
    }
  }

  lemma {:induction false} KktBeats(m: Csr, g: Graph, epsilon: real, q: Vec, c: Csr, d: Vec, x: Vec, u: Vec, y: Vec)
    requires IsOperator(m, g, epsilon) && c.Valid() && Kkt(m, q, c, d, x, u)
    requires |y| == |x| && Times(c.Stored(), c.rows, y) == d
    ensures Beats(g, epsilon, q, x, y)
  {
    hide Form, RowDot, Dot, Csr.Valid, Energy;
    OperatorSymmetricForm(m, g, epsilon);
    KktMinimises(m, q, c, d, x, u, y);
    OperatorEnergy(m, g, epsilon, x, x);
    OperatorEnergy(m, g, epsilon, y, y);
    OperatorBound(m, g, epsilon, Axpy(y, -1.0, x));
  }

  lemma {:induction false} KktIsMinimiser(m: Csr, g: Graph, epsilon: real, q: Vec, c: Compiled, rows: seq<ConstraintRow>, x: Vec, u: Vec)
    requires IsOperator(m, g, epsilon) && c.ids == CoordinateIds(g.coordinates) && Faithful(c, rows)
    requires Kkt(m, q, c.matrix, c.rhs, x, u)
    ensures Minimises(g, epsilon, rows, q, x)
  {
    hide Csr.Valid, RowDot, RowsHold, Independent, ColumnsSupported, SupportsOf, Beats, IsOperator;
    OperatorShape(m, g, epsilon);
    forall y: Vec | |y| == |x| && RowsHold(rows, IndexOf(c.ids), y) ensures Beats(g, epsilon, q, x, y) {
      KktBeats(m, g, epsilon, q, c.matrix, c.rhs, x, u, y);
    }
  }

  lemma {:induction false} OperatorShape(m: Csr, g: Graph, epsilon: real)
    requires IsOperator(m, g, epsilon)
    ensures GraphOk(g) && m.Valid() && m.rows == m.cols == |g.coordinates|
  {
  }

  /** The constraint rows are well formed and some vector satisfies them. */
  ghost predicate Answerable(g: Graph, rows: seq<ConstraintRow>) {
    var ids := CoordinateIds(g.coordinates);
    !Misnamed(ids) && AllGood(rows, ids) && Satisfiable(rows, ids)
  }

  /** The engine's operator has positive energy, and its KKT system is regular. */
  lemma {:induction false} EngineRegular(m: Csr, g: Graph, epsilon: real, c: Compiled, rows: seq<ConstraintRow>)
    requires IsOperator(m, g, epsilon) && epsilon > 0.0 && Faithful(c, rows)
    ensures Definite(m) && OnlyZero(m, c.matrix)
  {
    hide Csr.Valid, SameMeaning, SupportsOf, ColumnsSupported, CertifiesRows, Definite, OnlyZero;
    OperatorIsCoercive(m, g, epsilon);
    CoerciveIsDefinite(m, epsilon);
    DefiniteOnlyZero(m, c.matrix);
  }

  /** Both paths of the engine solve the same KKT system, so they agree on the scores and on the multipliers. */
  lemma {:induction false} PathsAgree(
    m: Csr, g: Graph, epsilon: real, q: Vec, c: Compiled, rows: seq<ConstraintRow>, x: Vec, u: Vec, x': Vec, u': Vec)
    requires IsOperator(m, g, epsilon) && epsilon > 0.0 && Faithful(c, rows)
    requires Kkt(m, q, c.matrix, c.rhs, x, u) && Kkt(m, q, c.matrix, c.rhs, x', u')
    ensures x == x' && u == u'
  {
    hide Csr.Valid, SameMeaning, SupportsOf, ColumnsSupported, CertifiesRows, Coercive, Kkt;
    OperatorIsCoercive(m, g, epsilon);
    KktUnique(m, q, c.matrix, c.rhs, epsilon, x, u, x', u');
  }

  /** A compiled problem has a minimiser, whatever the query. */
  lemma {:induction false} MinimiserExists(m: Csr, g: Graph, epsilon: real, q: Vec, c: Compiled, rows: seq<ConstraintRow>)
    returns (x: Vec)
    requires IsOperator(m, g, epsilon) && epsilon > 0.0 && Faithful(c, rows) && c.ids == CoordinateIds(g.coordinates)
    requires |q| == |g.coordinates|
    ensures Minimises(g, epsilon, rows, q, x)
  {
    hide Csr.Valid, SameMeaning, SupportsOf, ColumnsSupported, CertifiesRows, Coercive, Kkt;
    OperatorShape(m, g, epsilon);
    OperatorIsCoercive(m, g, epsilon);
    var u: Vec;
    x, u := KktExists(m, q, c.matrix, c.rhs, epsilon);
    KktIsMinimiser(m, g, epsilon, q, c, rows, x, u);
  }

  lemma {:induction false} SupportStays(c: Compiled, all: set<Id>, retained: seq<nat>)
    requires forall j: nat :: j < |c.ids| ==> (j in retained <==> c.ids[j] in all)
    requires forall j: nat :: j < |c.ids| && InSupport(c.supports, c.ids[j]) ==> c.ids[j] in all
    ensures SupportRetained(c, retained)
  {
    hide InSupport;
  }

  /** The engine's solve: an answer with the system it belongs to, a refusal, or an exception that leaves the engine.
      A refusal is retryable when its code begins with REDUCTION_ or SOLVE_. */
  datatype Answer =
    | Answer(status: SolveStatus, scores: Vec, multipliers: Vec, reconstruction: Option<real>, operator: Csr, constraints: Compiled)
    | Degraded(retryable: bool)
    | Escaped

  /** Positions of the retained ids, in coordinate order. */
  method Positions(ids: seq<Id>, kept: set<Id>) returns (r: seq<nat>)
    ensures Distinct(r) && Within(r, |ids|) && forall j: nat :: j < |ids| ==> (j in r <==> ids[j] in kept)
  {
    r := [];
    for i := 0 to |ids|
      invariant Distinct(r) && Within(r, i) && forall j: nat :: j < i ==> (j in r <==> ids[j] in kept)
    {
      if ids[i] in kept {
        r := r + [i];
      }
    }
  }

  /** The reconstruction error is that of the eliminated rows, and zero when nothing was eliminated. */
  ghost predicate ReconstructedWith(m: Csr, q: Vec, eliminated: seq<nat>, x: Vec, e: Option<real>)
    requires m.Valid() && m.rows == m.cols == |q|
  {
    Within(eliminated, m.rows) && if eliminated == [] then e == Some(0.0) else ReconstructionIs(m, q, eliminated, x, e)
  }

  lemma {:induction false} SomethingEliminated(n: nat, retained: seq<nat>)
    requires Distinct(retained) && Within(retained, n)
    ensures |retained| <= n && (EliminatedOf(n, retained) == [] <==> |retained| == n)
    ensures Within(EliminatedOf(n, retained), n)
  {
    var e := EliminatedOf(n, retained);
    SplitEnumerates(n, retained);
    EnumeratedCount(retained + e, n);
  }

  lemma {:induction false} EnumeratedCount(at: seq<nat>, n: nat)
    requires Enumerates(at, n)
    ensures |at| == n
    decreases n
  {
    if at != [] {
      assert at[0] < n;
      var p := EnumerationHasLast(at, n);
      EnumeratedCount(Without(at, p), n - 1);
    } else {
      var first: nat := 0;
      assert first < n ==> first in at;
    }
  }

  lemma {:induction false} EliminatedShape(r: StateReduction)
    requires ReductionShaped(r)
    ensures r.eliminated == EliminatedOf(r.matrix.rows, r.retained) && Within(r.eliminated, r.matrix.rows)
  {
  }

  /** The reduced path when something can be eliminated, the full one otherwise. */
  method SolveEither(m: Csr, q: Vec, c: Compiled, retained: seq<nat>, solve: (Csr, Vec) -> Solve, allow: bool) returns (a: Answer)
    requires m.Valid() && m.rows == m.cols == |q| && Shaped(c) && c.matrix.cols == m.rows
    requires Distinct(retained) && Within(retained, m.rows) && SupportRetained(c, retained) && ColumnsSupported(c)
    ensures a.Answer? ==> Accepted(a.status, allow) && a.operator == m && a.constraints == c
    ensures a.Answer? ==> ReconstructedWith(m, q, EliminatedOf(m.rows, retained), a.scores, a.reconstruction)
    ensures a.Answer? && Exact(solve) ==>
      Kkt(m, q, c.matrix, c.rhs, a.scores, a.multipliers) && a.reconstruction == Some(0.0)
    ensures Exact(solve) ==> !a.Escaped?
    ensures Exact(solve) && Complete(solve) && Definite(m) && OnlyZero(m, c.matrix) ==> a.Answer?
  {
    hide Csr.Valid, ReductionOk, Kkt, Definite, OnlyZero, Exact, Complete, SupportRetained, ColumnsSupported, ReconstructionIs;
    SomethingEliminated(m.rows, retained);
    var status: SolveStatus, x: Option<Vec>, u: Option<Vec>, error: Option<real>;
    if |retained| < m.rows {
      var reduced := ReduceState(m, q, c, retained, solve, allow);
      assert InputOk(m, q, c, retained);
      assert reduced != NotReduced(ReductionError.InvalidInput) && reduced != NotReduced(SupportEliminated);
      if reduced.NotReduced? {
        assert reduced.error.SolveFailed? || reduced.error.ShapeMismatch?;
        return Degraded(!reduced.error.ShapeMismatch?);
      }
      if Exact(solve) && OnlyZero(m, c.matrix) {
        ReducedOnlyZero(reduced.value);
      }
      EliminatedShape(reduced.value);
      var p := SolveProjected(reduced.value, solve);
      if p.Raised? {
        return Escaped;
      }
      status, x, u, error := p.status, p.solution, p.multipliers, p.reconstruction;
    } else {
      var full := SolveConstrained(m, q, c, solve);
      if full.BadShape? {
        return Degraded(false);
      }
      status, x, u, error := full.status, full.solution, full.multipliers, Some(0.0);
    }
    if !Accepted(status, allow) || x.None? || u.None? {
      return Degraded(true);
    }
    return Answer(status, x.value, u.value, error, m, c);
  }

  /** Neither retained nor in a constraint row; retaining nothing by name retains everything. */
  ghost predicate Eliminable(kept: set<Id>, c: Compiled, id: Id) {
    kept != {} && id !in kept && !InSupport(c.supports, id)
  }

  lemma {:induction false} EliminatedAre(c: Compiled, kept: set<Id>, all: set<Id>, retained: seq<nat>, n: nat)
    requires |c.ids| == n && all == if kept == {} then set id <- c.ids else kept + set id <- c.ids | InSupport(c.supports, id)
    requires forall j: nat :: j < n ==> (j in retained <==> c.ids[j] in all)
    ensures forall j: nat :: j in EliminatedOf(n, retained) <==> j < n && Eliminable(kept, c, c.ids[j])
    ensures SupportRetained(c, retained)
  {
    SupportStays(c, all, retained);
    hide InSupport;
  }

  /** The solve of `ContextGraphEngine`: `kept` is the caller's retained set together with the required coordinates,
      empty when the caller retains everything. */
  method Propagate(
    g: Graph, rows: seq<ConstraintRow>, epsilon: real, q: Vec, kept: set<Id>, solve: (Csr, Vec) -> Solve, allow: bool)
    returns (a: Answer, ghost eliminated: seq<nat>)
    requires GraphOk(g) && |q| == |g.coordinates|
    ensures a.Answer? ==> epsilon > 0.0 && Accepted(a.status, allow)
    ensures a.Answer? ==> SystemOf(g, rows, epsilon, a) && a.operator.Valid() && a.operator.rows == a.operator.cols == |q|
    ensures a.Answer? ==>
      && ReconstructedWith(a.operator, q, eliminated, a.scores, a.reconstruction)
      && forall j: nat :: j in eliminated <==> j < |q| && Eliminable(kept, a.constraints, g.coordinates[j].id)
    ensures a.Answer? && Exact(solve) ==> Minimises(g, epsilon, rows, q, a.scores) && NoResidual(q, a)
    ensures Exact(solve) ==> !a.Escaped?
    ensures Exact(solve) && Complete(solve) ==> (a.Answer? <==> epsilon > 0.0 && Answerable(g, rows))
  {
    hide Csr.Valid, IsOperator, Faithful, Minimises, RowsHold, Satisfiable, RowError, Misnamed, BadIds, AllGood, FirstBad,
      NamesKnown, ReductionOk, Kkt, Definite, OnlyZero, Exact, Complete, InSupport, ReconstructedWith, EliminatedOf;
    var ids := CoordinateIds(g.coordinates);
    eliminated := [];
    var operator := BuildOperator(g, epsilon);
    if operator.None? {
      return Degraded(false), [];
    }
    OperatorShape(operator.value, g, epsilon);
    var compiled := Compile(ids, rows);
    MisnamedIff(ids);
    RowErrorMeans(rows, ids);
    if compiled.Refused? {
      return Degraded(false), [];
    }
    var c := compiled.value;
    CompiledIs(ids, rows, compiled);
    EngineRegular(operator.value, g, epsilon, c, rows);
    var all := if kept == {} then set id <- ids else kept + set id <- ids | InSupport(c.supports, id);
    var retained := Positions(ids, all);
    EliminatedAre(c, kept, all, retained, |q|);
    a := SolveEither(operator.value, q, c, retained, solve, allow);
    eliminated := EliminatedOf(|q|, retained);
    if a.Answer? && Exact(solve) {
      KktIsMinimiser(operator.value, g, epsilon, q, c, rows, a.scores, a.multipliers);
    }
  }

  /** The answer carries the operator of the graph and the compiled rows. */
  ghost predicate SystemOf(g: Graph, rows: seq<ConstraintRow>, epsilon: real, a: Answer)
    requires a.Answer?
  {
    IsOperator(a.operator, g, epsilon) && Faithful(a.constraints, rows) && a.constraints.ids == CoordinateIds(g.coordinates)
  }

  /** The answer solves its system, and its reconstruction is without error. */
  ghost predicate NoResidual(q: Vec, a: Answer)
    requires a.Answer?
  {
    && a.operator.Valid() && a.constraints.matrix.Valid() && a.reconstruction == Some(0.0)
    && Kkt(a.operator, q, a.constraints.matrix, a.constraints.rhs, a.scores, a.multipliers)
  }

  /** A successful compilation is faithful. */
  lemma {:induction false} CompiledIs(ids: seq<Id>, rows: seq<ConstraintRow>, r: Result<Compiled>)
    requires r.Done? && !BadIds(ids)
    requires RowError(rows, IndexOf(ids)).Some? ==> r == Refused(RowError(rows, IndexOf(ids)).value)
    requires RowError(rows, IndexOf(ids)).None? ==>
      if Satisfiable(rows, ids) then r.Done? && r.value.ids == ids && Faithful(r.value, rows) else r == Refused(Contradictory)
    ensures r.value.ids == ids && Faithful(r.value, rows) && Shaped(r.value) && ColumnsSupported(r.value)
  {
  }
}
