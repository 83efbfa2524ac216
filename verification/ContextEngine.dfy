/** The engine as a whole: capacity limits, the solve, the error certificate and the selection by threshold. */
module ContextEngine {
  import opened Common
  import opened Vectors
  import opened Entries
  import opened SparseMatrix
  import opened ContextGraph
  import opened Elimination
  import opened Constraints
  import opened ConstraintCompiler
  import opened Backend
  import opened ConstrainedSolver
  import opened Reduction
  import opened Certificates
  import opened Propagation
  import opened PropagationEngine
  import opened Blocks
  import opened Live

  datatype EngineConfig = EngineConfig(
    epsilon: real, threshold: real, limit: real, maxCoordinates: nat, maxRelations: nat, maxRelationEntries: nat,
    maxConstraints: nat, allowLeastSquares: bool)
  {
    /** What the constructor demands. */
    predicate Valid() { epsilon > 0.0 && 0.0 <= threshold <= 1.0 && limit > 0.0 }
  }

  datatype Activation = Activation(scores: map<Id, real>, retained: set<Id>, provenance: set<Id>)

  // ----- capacity -----

  function Square(n: nat): (s: nat) {
    n * n
  }

  /** The entries that the relations expand to. */
  ghost function Expansion(rs: seq<Relation>): (n: nat) {
    if rs == [] then 0 else Expansion(rs[..|rs| - 1]) + Square(|rs[|rs| - 1].terms|)
  }

  lemma {:induction false} QuotientTest(n: nat, r: nat, quotient: nat, rest: nat, product: nat)
    requires n > 0 && r == product + rest && product == quotient * n && rest < n
    ensures n > quotient <==> Square(n) > r
  {
    if n > quotient {
      MoreTimes(quotient + 1, n, n);
      assert (quotient + 1) * n == product + n;
    } else {
      MoreTimes(n, quotient, n);
    }
  }

  lemma {:induction false} MoreTimes(a: nat, b: nat, n: nat)
    requires a <= b
    ensures a * n <= b * n
  {
  }

  lemma {:induction false} ExpansionGrows(rs: seq<Relation>, k: nat)
    requires k <= |rs|
    ensures Expansion(rs[..k]) <= Expansion(rs)
  {
    if k < |rs| {
      assert rs[..|rs| - 1][..k] == rs[..k];
      ExpansionGrows(rs[..|rs| - 1], k);
    } else {
      assert rs[..k] == rs;
    }
  }

  /** `_relation_expansion_exceeds_limit`, which never squares before it divides. */
  method ExpansionExceeds(rs: seq<Relation>, limit: nat) returns (b: bool)
    requires forall r <- rs :: r.terms != []
    ensures b <==> Expansion(rs) > limit
  {
    hide Square;
    var expanded := 0;
    for k := 0 to |rs|
      invariant expanded == Expansion(rs[..k]) <= limit
    {
      assert rs[..k + 1][..k] == rs[..k];
      var n, remaining := |rs[k].terms|, limit - expanded;
      QuotientTest(n, remaining, remaining / n, remaining % n, (remaining / n) * n);
      if n > remaining / n {
        ExpansionGrows(rs, k + 1);
        return true;
      }
      expanded := expanded + Square(n);
    }
    assert rs[..|rs|] == rs;
    return false;
  }

  ghost predicate WithinCapacity(g: Graph, rows: seq<ConstraintRow>, config: EngineConfig) {
    && |g.coordinates| <= config.maxCoordinates && |g.relations| <= config.maxRelations
    && Expansion(g.relations) <= config.maxRelationEntries && |rows| <= config.maxConstraints
  }

  ghost predicate NamesCoordinate(g: Graph, id: Id) {
    exists i :: 0 <= i < |g.coordinates| && g.coordinates[i].id == id
  }

  /** The activation names coordinates of the graph only. */
  ghost predicate ActivationFits(g: Graph, activation: Activation) {
    && (forall id <- activation.scores.Keys :: NamesCoordinate(g, id))
    && (forall id <- activation.retained :: NamesCoordinate(g, id))
  }

  predicate KnownActivation(g: Graph, activation: Activation) {
    var ids := set id <- CoordinateIds(g.coordinates);
    activation.scores.Keys <= ids && activation.retained <= ids
  }

  lemma {:induction false} KnownIff(g: Graph, activation: Activation)
    ensures KnownActivation(g, activation) <==> ActivationFits(g, activation)
  {
    forall id ensures id in CoordinateIds(g.coordinates) <==> NamesCoordinate(g, id) {
    }
    hide NamesCoordinate, CoordinateIds;
  }

  // ----- the question -----

  /** Σ score · value over the activated coordinates. */
  ghost function Gain(cs: seq<Coordinate>, scores: map<Id, real>, y: Vec): (v: real)
    requires |cs| == |y|
  {
    if cs == [] then 0.0
    else
      var n := |cs| - 1;
      Gain(cs[..n], scores, y[..n]) + if cs[n].id in scores then Scale(scores[cs[n].id], y[n]) else 0.0
  }

  /** The graph's energy of `y` minus twice its gain. */
  ghost function ActivatedCost(g: Graph, epsilon: real, scores: map<Id, real>, y: Vec): (v: real)
    requires GraphOk(g) && |y| == |g.coordinates|
  {
    Energy(g, epsilon, y, y) - 2.0 * Gain(g.coordinates, scores, y)
  }

  /** `x` meets the rows and costs less than every other vector that does. */
  ghost predicate Optimal(g: Graph, epsilon: real, rows: seq<ConstraintRow>, scores: map<Id, real>, x: Vec)
    requires GraphOk(g)
  {
    var index := IndexOf(CoordinateIds(g.coordinates));
    && |x| == |g.coordinates| && RowsHold(rows, index, x)
    && forall y: Vec :: |y| == |x| && y != x && RowsHold(rows, index, y) ==>
         ActivatedCost(g, epsilon, scores, x) < ActivatedCost(g, epsilon, scores, y)
  }

  /** The vector of the scores, zero at the coordinates that are not activated. */
  ghost predicate IsQuery(g: Graph, scores: map<Id, real>, q: Vec) {
    && |q| == |g.coordinates|
    && forall i :: 0 <= i < |q| ==> q[i] == if g.coordinates[i].id in scores then scores[g.coordinates[i].id] else 0.0
  }

  lemma {:induction false} GainIsDot(cs: seq<Coordinate>, scores: map<Id, real>, q: Vec, y: Vec)
    requires |q| == |cs| == |y|
    requires forall i :: 0 <= i < |q| ==> q[i] == if cs[i].id in scores then scores[cs[i].id] else 0.0
    ensures Dot(q, y) == Gain(cs, scores, y)
  {
    if cs != [] {
      var n := |cs| - 1;
      GainIsDot(cs[..n], scores, q[..n], y[..n]);
      assert q[n] * y[n] == if cs[n].id in scores then Scale(scores[cs[n].id], y[n]) else 0.0;
    }
  }

  lemma {:induction false} CostIs(g: Graph, epsilon: real, scores: map<Id, real>, q: Vec, y: Vec)
    requires GraphOk(g) && IsQuery(g, scores, q) && |y| == |q|
    ensures PropagationEngine.Cost(g, epsilon, q, y) == ActivatedCost(g, epsilon, scores, y)
  {
    hide Energy, Dot, Gain;
    GainIsDot(g.coordinates, scores, q, y);
  }

  lemma {:induction false} MinimiserIsOptimal(g: Graph, epsilon: real, rows: seq<ConstraintRow>, scores: map<Id, real>, q: Vec, x: Vec)
    requires GraphOk(g) && epsilon > 0.0 && IsQuery(g, scores, q) && Minimises(g, epsilon, rows, q, x)
    ensures Optimal(g, epsilon, rows, scores, x)
  {
    hide Dot, PropagationEngine.Cost, RowsHold, Axpy, GraphOk, IsQuery, ActivatedCost;
    var index := IndexOf(CoordinateIds(g.coordinates));
    forall y: Vec | |y| == |x| && y != x && RowsHold(rows, index, y)
      ensures ActivatedCost(g, epsilon, scores, x) < ActivatedCost(g, epsilon, scores, y)
    {
      assert Beats(g, epsilon, q, x, y);
      CostIs(g, epsilon, scores, q, x);
      CostIs(g, epsilon, scores, q, y);
      ApartPositive(y, x, epsilon);
    }
  }

  /** Different vectors are apart. */
  lemma {:induction false} ApartPositive(y: Vec, x: Vec, epsilon: real)
    requires |x| == |y| && x != y && epsilon > 0.0
    ensures epsilon * Dot(Axpy(y, -1.0, x), Axpy(y, -1.0, x)) > 0.0
  {
    hide Dot, Axpy;
    var z := Axpy(y, -1.0, x);
    DotSelf(z);
    if Dot(z, z) == 0.0 {
      ZeroDifference(y, x);
    }
    PositiveProduct(epsilon, Dot(z, z), epsilon * Dot(z, z));
  }

  lemma {:induction false} OptimumIsUnique(g: Graph, epsilon: real, rows: seq<ConstraintRow>, scores: map<Id, real>, x: Vec, x': Vec)
    requires GraphOk(g) && Optimal(g, epsilon, rows, scores, x) && Optimal(g, epsilon, rows, scores, x')
    ensures x == x'
  {
    hide ActivatedCost, RowsHold;
  }

  // ----- query, retained set and selection -----

  function QueryOf(g: Graph, scores: map<Id, real>): (q: Vec)
    ensures |q| == |g.coordinates|
  {
    var ids := CoordinateIds(g.coordinates);
    seq(|ids|, i requires 0 <= i < |ids| => if ids[i] in scores then scores[ids[i]] else 0.0)
  }

  lemma {:induction false} QueryIs(g: Graph, scores: map<Id, real>)
    ensures IsQuery(g, scores, QueryOf(g, scores))
  {
  }

  /** The caller's retained ids and those of required candidates; nothing when the caller retains everything. */
  function KeptIds(g: Graph, candidates: seq<Block>, retained: set<Id>): (s: set<Id>)
    requires |candidates| == |g.coordinates|
  {
    if retained == {} then {}
    else retained + set i | 0 <= i < |candidates| && candidates[i].required :: g.coordinates[i].id
  }

  /** Eliminated are exactly the coordinates that the caller did not retain, that are not required and that no
      constraint row supports; none when the caller names nothing to retain. */
  ghost predicate RightlyEliminated(
    g: Graph, candidates: seq<Block>, retained: set<Id>, c: Compiled, eliminated: seq<nat>)
    requires |candidates| == |g.coordinates|
  {
    forall j: nat :: j in eliminated <==>
      && j < |g.coordinates| && retained != {} && g.coordinates[j].id !in retained && !candidates[j].required
      && !InSupport(c.supports, g.coordinates[j].id)
  }

  lemma {:induction false} KeptMeans(g: Graph, candidates: seq<Block>, retained: set<Id>, c: Compiled, eliminated: seq<nat>)
    requires GraphOk(g) && |candidates| == |g.coordinates|
    requires forall j: nat :: j in eliminated <==>
      j < |g.coordinates| && Eliminable(KeptIds(g, candidates, retained), c, g.coordinates[j].id)
    ensures RightlyEliminated(g, candidates, retained, c, eliminated)
  {
    hide InSupport;
    var ids := CoordinateIds(g.coordinates);
    forall j: nat | j < |g.coordinates| && retained != {}
      ensures ids[j] in KeptIds(g, candidates, retained) <==> ids[j] in retained || candidates[j].required
    {
    }
  }

  /** The candidates whose coordinate reaches the threshold, in coordinate order. */
  function Reaching(candidates: seq<Block>, x: Vec, threshold: real): (bs: seq<Block>)
    requires |candidates| == |x|
  {
    if candidates == [] then []
    else
      var n := |candidates| - 1;
      var rest := Reaching(candidates[..n], x[..n], threshold);
      if x[n] >= threshold then rest + [candidates[n]] else rest
  }

  /** `at` lists, rising, the positions whose value reaches the threshold, and `bs` the candidates there. */
  ghost predicate Picks(candidates: seq<Block>, x: Vec, threshold: real, bs: seq<Block>, at: seq<nat>)
    requires |candidates| == |x|
  {
    && |at| == |bs| && (forall i, j :: 0 <= i < j < |at| ==> at[i] < at[j])
    && (forall k :: 0 <= k < |at| ==> at[k] < |x| && bs[k] == candidates[at[k]])
    && (forall i: nat :: i in at <==> i < |x| && x[i] >= threshold)
  }

  ghost predicate Selected(candidates: seq<Block>, x: Vec, threshold: real, bs: seq<Block>)
    requires |candidates| == |x|
  {
    exists at: seq<nat> :: Picks(candidates, x, threshold, bs, at)
  }

  lemma {:induction false} ReachingMeans(candidates: seq<Block>, x: Vec, threshold: real) returns (at: seq<nat>)
    requires |candidates| == |x|
    ensures Picks(candidates, x, threshold, Reaching(candidates, x, threshold), at)
  {
    if candidates == [] {
      at := [];
    } else {
      hide Picks;
      var n := |candidates| - 1;
      var rest := ReachingMeans(candidates[..n], x[..n], threshold);
      at := if x[n] >= threshold then rest + [n] else rest;
      PicksNext(candidates, x, threshold, Reaching(candidates[..n], x[..n], threshold), rest);
    }
  }

  lemma {:induction false} PicksNext(candidates: seq<Block>, x: Vec, threshold: real, bs: seq<Block>, at: seq<nat>)
    requires |candidates| == |x| > 0 && Picks(candidates[..|x| - 1], x[..|x| - 1], threshold, bs, at)
    ensures var n := |x| - 1;
      if x[n] >= threshold then Picks(candidates, x, threshold, bs + [candidates[n]], at + [n]) else Picks(candidates, x, threshold, bs, at)
  {
    var n: nat := |x| - 1;
    forall i: nat | i < n ensures x[i] >= threshold <==> i in at {
      assert x[..n][i] >= threshold <==> i in at;
    }
    forall i: nat ensures i in at + [n] <==> i in at || i == n {
    }
  }

  predicate RequiredReached(candidates: seq<Block>, x: Vec, threshold: real)
    requires |candidates| == |x|
  {
    forall i :: 0 <= i < |x| && candidates[i].required ==> x[i] >= threshold
  }

  predicate ReachedProvided(candidates: seq<Block>, x: Vec, threshold: real, provenance: set<Id>)
    requires |candidates| == |x|
  {
    forall i :: 0 <= i < |x| && x[i] >= threshold ==> forall e <- candidates[i].sources :: e in provenance
  }

  /** Every required candidate reaches the threshold. */
  ghost predicate HoldsRequired(candidates: seq<Block>, x: Vec, threshold: real) {
    |candidates| == |x| && !(exists i :: 0 <= i < |x| && candidates[i].required && x[i] < threshold)
  }

  /** Every source of a candidate that reaches the threshold is known to the caller. */
  ghost predicate HoldsProvenance(candidates: seq<Block>, x: Vec, threshold: real, provenance: set<Id>) {
    |candidates| == |x|
    && !(exists i, e :: 0 <= i < |x| && e in candidates[i].sources && x[i] >= threshold && e !in provenance)
  }

  lemma {:induction false} PassesIff(candidates: seq<Block>, x: Vec, threshold: real, provenance: set<Id>)
    requires |candidates| == |x|
    ensures RequiredReached(candidates, x, threshold) <==> HoldsRequired(candidates, x, threshold)
    ensures ReachedProvided(candidates, x, threshold, provenance) <==> HoldsProvenance(candidates, x, threshold, provenance)
  {
  }

  /** Each coordinate that has a value has its own, and no other id has any. */
  ghost predicate ScoresAre(g: Graph, x: Vec, scores: map<Id, real>) {
    && (forall id <- scores.Keys :: exists i :: 0 <= i < |x| && i < |g.coordinates| && g.coordinates[i].id == id)
    && forall i :: 0 <= i < |x| && i < |g.coordinates| ==>
         g.coordinates[i].id in scores && scores[g.coordinates[i].id] == x[i]
  }

  lemma {:induction false} ScoresByCoordinateMean(g: Graph, x: Vec)
    requires GraphOk(g)
    ensures ScoresAre(g, x, ScoresByCoordinate(CoordinateIds(g.coordinates), x))
  {
    var ids := CoordinateIds(g.coordinates);
    forall i | 0 <= i < |ids| ensures ids[i] in IndexOf(ids) && IndexOf(ids)[ids[i]] == i {
    }
  }

  // ----- what a certificate is worth -----

  /** Stationarity and every original row hold up to the limit, whatever the backend is. */
  ghost predicate Accurate(rows: seq<ConstraintRow>, q: Vec, limit: real, a: Answer)
    requires a.Answer? && a.operator.Valid() && a.constraints.matrix.Valid() && a.constraints.certificate.Valid()
    requires |q| == a.operator.rows
  {
    && |a.scores| == a.operator.rows && |a.multipliers| == a.constraints.matrix.rows
    && Bounded(StationarityResidual(a.operator, q, a.constraints.matrix, a.scores, a.multipliers), limit,
               StationarityScale(a.operator, q, a.constraints.matrix, a.scores, a.multipliers))
    && forall k: nat :: k < |rows| ==> RowWithin(rows[k], IndexOf(a.constraints.ids), a.scores, limit,
                                                 RowsScale(a.constraints.certificate, RhsOf(rows), a.scores))
  }

  /** The row holds for x up to the limit times the scale. */
  ghost predicate RowWithin(row: ConstraintRow, index: map<Id, nat>, x: Vec, limit: real, scale: real) {
    Known(row.terms, index) && Abs(Along(row.terms, index, x) - row.rhs) <= Scale(limit, scale)
  }

  lemma {:induction false} RowsAccurate(c: Compiled, rows: seq<ConstraintRow>, x: Vec, limit: real, e: real)
    requires c.certificate.Valid() && CertifiesRows(c, rows) && |x| == |c.ids| && limit >= 0.0 && e <= limit
    requires |c.certificateRhs| == c.certificate.rows
    requires Normalized(RowsResidual(c.certificate, c.certificateRhs, x), RowsScale(c.certificate, c.certificateRhs, x)) == Some(e)
    ensures forall k: nat :: k < |rows| ==>
      RowWithin(rows[k], IndexOf(c.ids), x, limit, RowsScale(c.certificate, RhsOf(rows), x))
  {
    hide Csr.Valid, RowDot, Along, Normalized, RowsScale, Scale;
    var residual := RowsResidual(c.certificate, c.certificateRhs, x);
    NormalizedMeans(residual, RowsScale(c.certificate, c.certificateRhs, x), limit);
    forall k: nat | k < |rows| ensures RowWithin(rows[k], IndexOf(c.ids), x, limit, RowsScale(c.certificate, RhsOf(rows), x)) {
      assert CertifiesRow(c, rows[k], x, k);
      assert Abs(residual[k]) <= Scale(limit, RowsScale(c.certificate, c.certificateRhs, x));
    }
  }

  // ----- the engine -----

  ghost predicate Served(r: EngineReply) {
    r.Returned? && (r.result.outcome.OutcomeActive? || r.result.outcome.OutcomeShadow?)
  }

  function Refused(retryable: bool): (r: EngineReply) {
    Returned(EngineResult(OutcomeDegraded, [], None, retryable, map[]))
  }

  /** A served reply selects in ACTIVE mode only, and carries a passed certificate and all the scores. */
  ghost predicate IsServed(g: Graph, candidates: seq<Block>, threshold: real, mode: EngineMode, x: Vec, r: EngineResult)
    requires |candidates| == |x|
  {
    && r.certificate == Some(Certificate(true, true, true)) && !r.retryable && ScoresAre(g, x, r.scores)
    && match mode
       case Off => false
       case Shadow => r.outcome == OutcomeShadow && |r.selected| == 0
       case Active => r.outcome == OutcomeActive && Selected(candidates, x, threshold, r.selected)
  }

  /** A degraded reply selects nothing. */
  ghost predicate IsDegraded(r: EngineResult, certificate: Option<Certificate>, retryable: bool) {
    r.outcome == OutcomeDegraded && |r.selected| == 0 && r.certificate == certificate && r.retryable == retryable
  }

  /** The three numerical errors exist and are finite. */
  ghost predicate Finite(q: Vec, a: Answer)
    requires a.Answer? && a.operator.Valid() && Shaped(a.constraints)
    requires a.operator.rows == a.operator.cols == a.constraints.matrix.cols == |q|
  {
    var c := a.constraints;
    && |a.scores| == |q| && |a.multipliers| == c.matrix.rows && a.reconstruction.Some?
    && Normalized(StationarityResidual(a.operator, q, c.matrix, a.scores, a.multipliers),
                  StationarityScale(a.operator, q, c.matrix, a.scores, a.multipliers)).Some?
    && Normalized(RowsResidual(c.certificate, c.certificateRhs, a.scores), RowsScale(c.certificate, c.certificateRhs, a.scores)).Some?
  }

  /** All three are within the limit. */
  ghost predicate Fine(q: Vec, limit: real, a: Answer)
    requires a.Answer? && a.operator.Valid() && Shaped(a.constraints)
    requires a.operator.rows == a.operator.cols == a.constraints.matrix.cols == |q| && Finite(q, a)
  {
    var c := a.constraints;
    && Normalized(StationarityResidual(a.operator, q, c.matrix, a.scores, a.multipliers),
                  StationarityScale(a.operator, q, c.matrix, a.scores, a.multipliers)).value <= limit
    && Normalized(RowsResidual(c.certificate, c.certificateRhs, a.scores), RowsScale(c.certificate, c.certificateRhs, a.scores)).value <= limit
    && a.reconstruction.value <= limit
  }

  /** The three numerical errors, or None when one cannot be formed or is infinite. */
  method Errors(q: Vec, a: Answer) returns (e: Option<(real, real, real)>)
    requires a.Answer? && a.operator.Valid() && Shaped(a.constraints)
    requires a.operator.rows == a.operator.cols == a.constraints.matrix.cols == |q|
    ensures e.Some? <==> Finite(q, a)
    ensures e.Some? ==> forall limit: real :: e.value.0 <= limit && e.value.1 <= limit && e.value.2 <= limit <==> Fine(q, limit, a)
    ensures NoResidual(q, a) && RowsVanish(a.constraints, a.scores) ==> e == Some((0.0, 0.0, 0.0))
  {
    hide Csr.Valid, Normalized, StationarityScale, RowsScale, Kkt, RowDot, CertifiesRows, SameMeaning;
    var c := a.constraints;
    if NoResidual(q, a) {
      KktShape(a.operator, q, c.matrix, c.rhs, a.scores, a.multipliers);
      KktHasNoError(a.operator, q, c.matrix, c.rhs, a.scores, a.multipliers);
      if RowsVanish(c, a.scores) {
        NormalizedMeans(RowsResidual(c.certificate, c.certificateRhs, a.scores), RowsScale(c.certificate, c.certificateRhs, a.scores), 0.0);
      }
    }
    var stationarity := StationarityError(a.operator, q, c.matrix, a.scores, a.multipliers);
    var rows := RowsError(c.certificate, c.certificateRhs, a.scores);
    if stationarity.None? || rows.None? || a.reconstruction.None? {
      return None;
    }
    return Some((stationarity.value, rows.value, a.reconstruction.value));
  }

  /** The certificate rows hold exactly. */
  ghost predicate RowsVanish(c: Compiled, x: Vec)
    requires Shaped(c)
  {
    |x| == c.certificate.cols && forall k :: 0 <= k < c.certificate.rows ==> RowDot(c.certificate.Stored(), k, x) == c.certificateRhs[k]
  }

  lemma {:induction false} MinimiserVanishes(g: Graph, epsilon: real, rows: seq<ConstraintRow>, q: Vec, c: Compiled, x: Vec)
    requires GraphOk(g) && Minimises(g, epsilon, rows, q, x) && Faithful(c, rows) && c.ids == CoordinateIds(g.coordinates)
    ensures RowsVanish(c, x)
  {
    hide Csr.Valid, RowDot, Along, SameMeaning, SupportsOf, ColumnsSupported, Independent, Beats;
    forall k | 0 <= k < c.certificate.rows ensures RowDot(c.certificate.Stored(), k, x) == c.certificateRhs[k] {
      assert CertifiesRow(c, rows[k], x, k);
      assert RowHolds(rows[k], IndexOf(c.ids), x);
    }
  }

  /** What a served answer is worth, whatever the backend is: it belongs to the graph's system; stationarity, every row and
      the reconstruction of what was eliminated hold up to the limit; and the selection is complete and known. */
  ghost predicate Certifies(
    g: Graph, rows: seq<ConstraintRow>, candidates: seq<Block>, config: EngineConfig, activation: Activation, a: Answer,
    eliminated: seq<nat>)
    requires GraphOk(g) && |candidates| == |g.coordinates|
  {
    && a.Answer? && SystemOf(g, rows, config.epsilon, a)
    && (exists q: Vec :: IsQuery(g, activation.scores, q) && Accurate(rows, q, config.limit, a)
                         && ReconstructedWith(a.operator, q, eliminated, a.scores, a.reconstruction))
    && a.reconstruction.Some? && a.reconstruction.value <= config.limit
    && RightlyEliminated(g, candidates, activation.retained, a.constraints, eliminated)
    && HoldsRequired(candidates, a.scores, config.threshold)
    && HoldsProvenance(candidates, a.scores, config.threshold, activation.provenance)
  }

  /** How an answer is judged: without finite errors there is no certificate; otherwise the certificate says what failed, and
      the reply is served when nothing did. */
  ghost predicate Judged(
    g: Graph, candidates: seq<Block>, config: EngineConfig, activation: Activation, mode: EngineMode, q: Vec, a: Answer, r: EngineResult)
    requires a.Answer? && a.operator.Valid() && Shaped(a.constraints)
    requires a.operator.rows == a.operator.cols == a.constraints.matrix.cols == |q| == |candidates|
  {
    if !Finite(q, a) then IsDegraded(r, None, false) && ScoresAre(g, a.scores, r.scores)
    else
      var required := HoldsRequired(candidates, a.scores, config.threshold);
      var provided := HoldsProvenance(candidates, a.scores, config.threshold, activation.provenance);
      if Fine(q, config.limit, a) && required && provided then IsServed(g, candidates, config.threshold, mode, a.scores, r)
      else IsDegraded(r, Some(Certificate(false, required, provided)), false) && ScoresAre(g, a.scores, r.scores)
  }

  lemma {:induction false} SystemShape(g: Graph, rows: seq<ConstraintRow>, epsilon: real, a: Answer)
    requires GraphOk(g) && a.Answer? && SystemOf(g, rows, epsilon, a)
    ensures var c := a.constraints;
      && a.operator.Valid() && Shaped(c) && Faithful(c, rows) && CertifiesRows(c, rows) && c.ids == CoordinateIds(g.coordinates)
      && a.operator.rows == a.operator.cols == c.matrix.cols == c.certificate.cols == |c.ids| == |g.coordinates|
  {
    hide Csr.Valid, SameMeaning, SupportsOf, ColumnsSupported, Independent, SameMatrix;
  }

  lemma {:induction false} FineIsAccurate(rows: seq<ConstraintRow>, q: Vec, limit: real, a: Answer)
    requires a.Answer? && a.operator.Valid() && Shaped(a.constraints) && CertifiesRows(a.constraints, rows)
    requires a.operator.rows == a.operator.cols == a.constraints.matrix.cols == |q| == |a.constraints.ids|
    requires limit >= 0.0 && Finite(q, a) && Fine(q, limit, a)
    ensures Accurate(rows, q, limit, a)
  {
    hide Csr.Valid, RowDot, Normalized, StationarityScale, RowsScale, CertifiesRows, RowWithin, Bounded;
    var c := a.constraints;
    NormalizedMeans(StationarityResidual(a.operator, q, c.matrix, a.scores, a.multipliers),
                    StationarityScale(a.operator, q, c.matrix, a.scores, a.multipliers), limit);
    RowsAccurate(c, rows, a.scores, limit,
                 Normalized(RowsResidual(c.certificate, c.certificateRhs, a.scores), RowsScale(c.certificate, c.certificateRhs, a.scores)).value);
  }

  /** What the reply must be, and what a served one is worth. */
  ghost predicate Replied(
    g: Graph, rows: seq<ConstraintRow>, candidates: seq<Block>, config: EngineConfig, activation: Activation, mode: EngineMode,
    a: Answer, eliminated: seq<nat>, r: EngineReply)
    requires GraphOk(g) && |candidates| == |g.coordinates|
  {
    if mode.Off? then r.Returned? && r.result == EngineResult(OutcomeOff, [], None, false, map[])
    else if !WithinCapacity(g, rows, config) || !ActivationFits(g, activation) then
      r.Returned? && IsDegraded(r.result, None, false) && |r.result.scores| == 0
    else
      match a
      case Escaped => r.Raised?
      case Degraded(retryable) => r.Returned? && IsDegraded(r.result, None, retryable) && |r.result.scores| == 0
      case Answer(_, _, _, _, operator, constraints) =>
        && operator.Valid() && Shaped(constraints) && r.Returned?
        && operator.rows == operator.cols == constraints.matrix.cols == |candidates|
        && (exists q: Vec :: IsQuery(g, activation.scores, q) && Judged(g, candidates, config, activation, mode, q, a, r.result))
        && (Served(r) ==> Certifies(g, rows, candidates, config, activation, a, eliminated))
  }

  /** The reply to an answer of the solver. */
  method Judge(
    ghost g: Graph, ids: seq<Id>, candidates: seq<Block>, config: EngineConfig, activation: Activation, mode: EngineMode,
    q: Vec, a: Answer)
    returns (r: EngineReply)
    requires a.Answer? && a.operator.Valid() && Shaped(a.constraints) && GraphOk(g) && ids == CoordinateIds(g.coordinates)
    requires a.operator.rows == a.operator.cols == a.constraints.matrix.cols == |q| == |candidates| == |ids| && !mode.Off?
    ensures r.Returned? && Judged(g, candidates, config, activation, mode, q, a, r.result)
    ensures Served(r) <==>
      && Finite(q, a) && Fine(q, config.limit, a) && HoldsRequired(candidates, a.scores, config.threshold)
      && HoldsProvenance(candidates, a.scores, config.threshold, activation.provenance)
    ensures NoResidual(q, a) && RowsVanish(a.constraints, a.scores) && config.limit >= 0.0 ==> Finite(q, a) && Fine(q, config.limit, a)
  {
    hide Shaped, Csr.Valid, GraphOk, NoResidual, RowsVanish, Reaching, Finite, Fine, RequiredReached, ReachedProvided,
      HoldsRequired, HoldsProvenance, ScoresAre, Picks, Selected, ScoresByCoordinate;
    var errors := Errors(q, a);
    ScoresByCoordinateMean(g, a.scores);
    if errors.None? {
      return Returned(EngineResult(OutcomeDegraded, [], None, false, ScoresByCoordinate(ids, a.scores)));
    }
    FiniteShape(q, a);
    var x, e := a.scores, errors.value;
    PassesIff(candidates, x, config.threshold, activation.provenance);
    var numerical := e.0 <= config.limit && e.1 <= config.limit && e.2 <= config.limit;
    var required, provided := RequiredReached(candidates, x, config.threshold), ReachedProvided(candidates, x, config.threshold, activation.provenance);
    if !numerical || !required || !provided {
      return Returned(EngineResult(OutcomeDegraded, [], Some(Certificate(false, required, provided)), false, ScoresByCoordinate(ids, x)));
    }
    var selected := if mode.Active? then Reaching(candidates, x, config.threshold) else [];
    ghost var at := ReachingMeans(candidates, x, config.threshold);
    assert Selected(candidates, x, config.threshold, Reaching(candidates, x, config.threshold)) by {
      PicksSelects(candidates, x, config.threshold, Reaching(candidates, x, config.threshold), at);
    }
    return Returned(EngineResult(if mode.Active? then OutcomeActive else OutcomeShadow, selected,
                                 Some(Certificate(true, true, true)), false, ScoresByCoordinate(ids, x)));
  }

  lemma {:induction false} PicksSelects(candidates: seq<Block>, x: Vec, threshold: real, bs: seq<Block>, at: seq<nat>)
    requires |candidates| == |x| && Picks(candidates, x, threshold, bs, at)
    ensures Selected(candidates, x, threshold, bs)
  {
  }

  lemma {:induction false} FiniteShape(q: Vec, a: Answer)
    requires a.Answer? && a.operator.Valid() && Shaped(a.constraints)
    requires a.operator.rows == a.operator.cols == a.constraints.matrix.cols == |q| && Finite(q, a)
    ensures |a.scores| == |q|
  {
  }

  /** `SparseContextEngine.solve`, with the answer it judged and the coordinates it eliminated. An exact backend's served
      answer is optimal for the activation; and with an exact and complete backend a reply is served exactly when the
      request fits, the rows can be met, and every optimum reaches the threshold at the required candidates and selects
      only candidates with known sources. */
  method Solve(
    g: Graph, rows: seq<ConstraintRow>, candidates: seq<Block>, config: EngineConfig, activation: Activation, mode: EngineMode,
    solve: (Csr, Vec) -> Solve)
    returns (r: EngineReply, ghost a: Answer, ghost eliminated: seq<nat>)
    requires GraphOk(g) && (forall relation <- g.relations :: relation.terms != []) && |candidates| == |g.coordinates|
    requires config.Valid()
    ensures Replied(g, rows, candidates, config, activation, mode, a, eliminated, r)
    ensures Exact(solve) ==> r.Returned?
    ensures Exact(solve) && Served(r) ==> a.Answer? && Optimal(g, config.epsilon, rows, activation.scores, a.scores)
    ensures Exact(solve) && Complete(solve) && !mode.Off? ==>
      (Served(r) <==>
        && WithinCapacity(g, rows, config) && ActivationFits(g, activation) && Answerable(g, rows)
        && forall x: Vec :: Optimal(g, config.epsilon, rows, activation.scores, x) ==>
             HoldsRequired(candidates, x, config.threshold) && HoldsProvenance(candidates, x, config.threshold, activation.provenance))
  {
    hide Exact, Complete, Minimises, Answerable, SystemOf, Accurate, Shaped, Faithful, CertifiesRows, Csr.Valid, GraphOk, NoResidual,
      RowsVanish, Finite, Fine, HoldsRequired, HoldsProvenance, Optimal, Judged, ActivationFits, KnownActivation, ReconstructedWith,
      IsQuery, RightlyEliminated, QueryOf, KeptIds, Eliminable;
    a, eliminated := Escaped, [];
    if mode.Off? {
      return Returned(EngineResult(OutcomeOff, [], None, false, map[])), a, [];
    }
    var exceeds := ExpansionExceeds(g.relations, config.maxRelationEntries);
    if |g.coordinates| > config.maxCoordinates || |g.relations| > config.maxRelations || exceeds || |rows| > config.maxConstraints {
      return Refused(false), a, [];
    }
    KnownIff(g, activation);
    if !KnownActivation(g, activation) {
      return Refused(false), a, [];
    }
    var q, ids := QueryOf(g, activation.scores), CoordinateIds(g.coordinates);
    QueryIs(g, activation.scores);
    var answer, out := Propagate(g, rows, config.epsilon, q, KeptIds(g, candidates, activation.retained), solve, config.allowLeastSquares);
    a, eliminated := answer, out;
    if answer.Escaped? {
      return EngineReply.Raised, a, [];
    }
    if answer.Degraded? {
      return Refused(answer.retryable), a, [];
    }
    SystemShape(g, rows, config.epsilon, answer);
    KeptMeans(g, candidates, activation.retained, answer.constraints, eliminated);
    if Exact(solve) {
      MinimiserVanishes(g, config.epsilon, rows, q, answer.constraints, answer.scores);
      MinimiserIsOptimal(g, config.epsilon, rows, activation.scores, q, answer.scores);
      forall x: Vec | Optimal(g, config.epsilon, rows, activation.scores, x) ensures x == answer.scores {
        OptimumIsUnique(g, config.epsilon, rows, activation.scores, x, answer.scores);
      }
    }
    r := Judge(g, ids, candidates, config, activation, mode, q, answer);
    if Finite(q, answer) && Fine(q, config.limit, answer) {
      FineIsAccurate(rows, q, config.limit, answer);
      FineReconstruction(q, config.limit, answer);
    }
  }

  lemma {:induction false} FineReconstruction(q: Vec, limit: real, a: Answer)
    requires a.Answer? && a.operator.Valid() && Shaped(a.constraints)
    requires a.operator.rows == a.operator.cols == a.constraints.matrix.cols == |q| && Finite(q, a) && Fine(q, limit, a)
    ensures a.reconstruction.Some? && a.reconstruction.value <= limit
  {
  }

  /** `dict(zip(coordinate_ids, solution))` */
  function ScoresByCoordinate(ids: seq<Id>, x: Vec): (scores: map<Id, real>) {
    var n := if |ids| < |x| then |ids| else |x|;
    map k | 0 <= k < n :: ids[k] := Get(x, IndexOf(ids)[ids[k]])
  }
}
