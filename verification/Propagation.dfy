/** The propagation operator of a context graph: symmetric, and at least ε times the identity. */
module Propagation {
  import opened Common
  import opened Vectors
  import opened Entries
  import opened SparseMatrix
  import opened ContextGraph

  // ----- the entries, in the order they are produced -----

  function DiagonalEntries(cs: seq<Coordinate>, epsilon: real): (es: seq<Entry>)
    ensures |es| == |cs| && forall i :: 0 <= i < |cs| ==> es[i] == Entry(i, i, cs[i].diagonal + epsilon)
  {
    seq(|cs|, i requires 0 <= i < |cs| => Entry(i, i, cs[i].diagonal + epsilon))
  }

  function PairEntry(w: real, left: Term, right: Term, index: map<Id, nat>): (e: Entry)
    requires left.id in index && right.id in index
  {
    Entry(index[left.id], index[right.id], w * left.coefficient * right.coefficient)
  }

  /** One left term against the terms `rights`. */
  function LeftEntries(w: real, left: Term, rights: seq<Term>, index: map<Id, nat>): (es: seq<Entry>)
    requires left.id in index && Known(rights, index)
  {
    if rights == [] then []
    else
      LeftEntries(w, left, rights[..|rights| - 1], index) + [PairEntry(w, left, rights[|rights| - 1], index)]
  }

  function RelationEntries(w: real, lefts: seq<Term>, rights: seq<Term>, index: map<Id, nat>): (es: seq<Entry>)
    requires Known(lefts, index) && Known(rights, index)
  {
    if lefts == [] then []
    else
      RelationEntries(w, lefts[..|lefts| - 1], rights, index) + LeftEntries(w, lefts[|lefts| - 1], rights, index)
  }

  function AllRelationEntries(rs: seq<Relation>, index: map<Id, nat>): (es: seq<Entry>)
    requires forall k :: 0 <= k < |rs| ==> Known(rs[k].terms, index)
  {
    if rs == [] then []
    else
      var r := rs[|rs| - 1];
      AllRelationEntries(rs[..|rs| - 1], index) + RelationEntries(r.weight, r.terms, r.terms, index)
  }

  function OperatorEntries(g: Graph, epsilon: real): (es: seq<Entry>)
    requires GraphOk(g)
  {
    DiagonalEntries(g.coordinates, epsilon) + AllRelationEntries(g.relations, IndexOf(CoordinateIds(g.coordinates)))
  }

  // ----- what they stand for -----

  /** Σ (dᵢ + ε) yᵢ xᵢ over the first `n` coordinates. */
  function DiagonalForm(cs: seq<Coordinate>, epsilon: real, y: Vec, x: Vec): (v: real) {
    if cs == [] then 0.0
    else
      var n := |cs| - 1;
      DiagonalForm(cs[..n], epsilon, y, x) + Weighted(cs[n].diagonal + epsilon, Get(y, n), Get(x, n))
  }

  /** Σ w (r·y)(r·x) over the relations. */
  function RelationForm(rs: seq<Relation>, index: map<Id, nat>, y: Vec, x: Vec): (v: real)
    requires forall k :: 0 <= k < |rs| ==> Known(rs[k].terms, index)
  {
    if rs == [] then 0.0
    else
      var r := rs[|rs| - 1];
      RelationForm(rs[..|rs| - 1], index, y, x) + Weighted(r.weight, Along(r.terms, index, y), Along(r.terms, index, x))
  }

  /** The bilinear energy of the graph, defined without any matrix. */
  function Energy(g: Graph, epsilon: real, y: Vec, x: Vec): (v: real)
    requires GraphOk(g)
  {
    DiagonalForm(g.coordinates, epsilon, y, x)
    + RelationForm(g.relations, IndexOf(CoordinateIds(g.coordinates)), y, x)
  }

  lemma {:induction false} DiagonalMeans(cs: seq<Coordinate>, epsilon: real, y: Vec, x: Vec)
    ensures Form(DiagonalEntries(cs, epsilon), y, x) == DiagonalForm(cs, epsilon, y, x)
  {
    if cs != [] {
      var n := |cs| - 1;
      DiagonalMeans(cs[..n], epsilon, y, x);
      assert DiagonalEntries(cs, epsilon)[..n] == DiagonalEntries(cs[..n], epsilon);
    }
  }

  lemma {:induction false} OneTerm(w: real, l: real, r: real, y: real, x: real, rest: real, p: real, q: real, v: real)
    requires p == l * y && q == r * x && v == w * l * r
    ensures Weighted(v, y, x) + Weighted(w, p, rest) == Weighted(w, p, rest + q)
  {
    assert v * (y * x) == w * (p * q);
    Spread(p, rest, q);
    Spread(w, p * rest, p * q);
  }

  lemma {:induction false} PairMeans(w: real, left: Term, right: Term, index: map<Id, nat>, y: Vec, x: Vec, share: real, q: real, rest: real)
    requires left.id in index && right.id in index
    requires share == left.coefficient * Get(y, index[left.id]) && q == right.coefficient * Get(x, index[right.id])
    ensures var e := PairEntry(w, left, right, index);
      Weighted(e.value, Get(y, e.row), Get(x, e.col)) + Weighted(w, share, rest) == Weighted(w, share, rest + q)
  {
    hide Weighted;
    OneTerm(w, left.coefficient, right.coefficient, Get(y, index[left.id]), Get(x, index[right.id]), rest, share, q,
            PairEntry(w, left, right, index).value);
  }

  lemma {:induction false} LeftMeans(
    w: real, left: Term, rights: seq<Term>, index: map<Id, nat>, y: Vec, x: Vec, share: real)
    requires left.id in index && Known(rights, index) && share == left.coefficient * Get(y, index[left.id])
    ensures Form(LeftEntries(w, left, rights, index), y, x) == Weighted(w, share, Along(rights, index, x))
  {
    if rights != [] {
      hide Weighted, PairEntry, Along;
      var n := |rights| - 1;
      LeftMeans(w, left, rights[..n], index, y, x, share);
      var es := LeftEntries(w, left, rights, index);
      assert es[..|es| - 1] == LeftEntries(w, left, rights[..n], index);
      var q := rights[n].coefficient * Get(x, index[rights[n].id]);
      AlongLast(rights, index, x, q);
      PairMeans(w, left, rights[n], index, y, x, share, q, Along(rights[..n], index, x));
    }
  }

  lemma {:induction false} OneLeft(w: real, rest: real, p: real, q: real)
    ensures Weighted(w, rest, q) + Weighted(w, p, q) == Weighted(w, rest + p, q)
  {
    Expand(1.0, rest, p, q);
    Spread(w, rest * q, p * q);
  }

  lemma {:induction false} NoLeft(w: real, q: real)
    ensures Weighted(w, 0.0, q) == 0.0
  {
  }

  lemma {:induction false} RelationMeans(w: real, lefts: seq<Term>, rights: seq<Term>, index: map<Id, nat>, y: Vec, x: Vec)
    requires Known(lefts, index) && Known(rights, index)
    ensures Form(RelationEntries(w, lefts, rights, index), y, x) == Weighted(w, Along(lefts, index, y), Along(rights, index, x))
  {
    hide Weighted;
    if lefts == [] {
      NoLeft(w, Along(rights, index, x));
    } else {
      hide Form, Along, LeftEntries;
      var n := |lefts| - 1;
      var share := lefts[n].coefficient * Get(y, index[lefts[n].id]);
      AlongLast(lefts, index, y, share);
      RelationMeans(w, lefts[..n], rights, index, y, x);
      FormConcat(RelationEntries(w, lefts[..n], rights, index), LeftEntries(w, lefts[n], rights, index), y, x);
      LeftMeans(w, lefts[n], rights, index, y, x, share);
      OneLeft(w, Along(lefts[..n], index, y), share, Along(rights, index, x));
    }
  }

  lemma {:induction false} AllRelationsMean(rs: seq<Relation>, index: map<Id, nat>, y: Vec, x: Vec)
    requires forall k :: 0 <= k < |rs| ==> Known(rs[k].terms, index)
    ensures Form(AllRelationEntries(rs, index), y, x) == RelationForm(rs, index, y, x)
  {
    if rs != [] {
      var n := |rs| - 1;
      hide Weighted;
      AllRelationsMean(rs[..n], index, y, x);
      FormConcat(AllRelationEntries(rs[..n], index), RelationEntries(rs[n].weight, rs[n].terms, rs[n].terms, index), y, x);
      RelationMeans(rs[n].weight, rs[n].terms, rs[n].terms, index, y, x);
    }
  }

  lemma {:induction false} OperatorMeans(g: Graph, epsilon: real, y: Vec, x: Vec)
    requires GraphOk(g)
    ensures Form(OperatorEntries(g, epsilon), y, x) == Energy(g, epsilon, y, x)
  {
    var index := IndexOf(CoordinateIds(g.coordinates));
    FormConcat(DiagonalEntries(g.coordinates, epsilon), AllRelationEntries(g.relations, index), y, x);
    DiagonalMeans(g.coordinates, epsilon, y, x);
    AllRelationsMean(g.relations, index, y, x);
  }

  // ----- symmetry and definiteness of the energy -----

  lemma {:induction false} DiagonalSymmetric(cs: seq<Coordinate>, epsilon: real, y: Vec, x: Vec)
    ensures DiagonalForm(cs, epsilon, y, x) == DiagonalForm(cs, epsilon, x, y)
  {
    if cs != [] {
      var n := |cs| - 1;
      hide Weighted;
      DiagonalSymmetric(cs[..n], epsilon, y, x);
      Swap(cs[n].diagonal + epsilon, Get(y, n), Get(x, n));
    }
  }

  lemma {:induction false} RelationsSymmetric(rs: seq<Relation>, index: map<Id, nat>, y: Vec, x: Vec)
    requires forall k :: 0 <= k < |rs| ==> Known(rs[k].terms, index)
    ensures RelationForm(rs, index, y, x) == RelationForm(rs, index, x, y)
  {
    if rs != [] {
      var n := |rs| - 1;
      hide Weighted;
      RelationsSymmetric(rs[..n], index, y, x);
      Swap(rs[n].weight, Along(rs[n].terms, index, y), Along(rs[n].terms, index, x));
    }
  }

  lemma {:induction false} WeightedSquare(w: real, v: real, term: real)
    requires w >= 0.0 && term == Weighted(w, v, v)
    ensures term >= 0.0
  {
    var square := v * v;
    SquarePositive(v, square);
    if w > 0.0 && square > 0.0 {
      PositiveProduct(w, square, term);
    }
  }

  lemma {:induction false} RelationsNonnegative(rs: seq<Relation>, index: map<Id, nat>, x: Vec)
    requires forall k :: 0 <= k < |rs| ==> rs[k].weight >= 0.0 && Known(rs[k].terms, index)
    ensures RelationForm(rs, index, x, x) >= 0.0
  {
    if rs != [] {
      var n := |rs| - 1;
      hide Weighted;
      RelationsNonnegative(rs[..n], index, x);
      var v := Along(rs[n].terms, index, x);
      WeightedSquare(rs[n].weight, v, Weighted(rs[n].weight, v, v));
    }
  }

  lemma {:induction false} DiagonalTerm(d: real, epsilon: real, v: real, square: real)
    requires d >= 0.0 && square == v * v
    ensures (d + epsilon) * square >= epsilon * square
  {
    SquarePositive(v, square);
    WeightedSquare(d, v, Weighted(d, v, v));
    Expand(1.0, d, epsilon, square);
  }

  lemma {:induction false} DiagonalBound(cs: seq<Coordinate>, epsilon: real, x: Vec)
    requires |cs| == |x| && forall i :: 0 <= i < |cs| ==> cs[i].diagonal >= 0.0
    ensures DiagonalForm(cs, epsilon, x, x) >= epsilon * Dot(x, x)
  {
    if cs != [] {
      var n := |cs| - 1;
      DiagonalBound(cs[..n], epsilon, x[..n]);
      DiagonalPrefix(cs[..n], epsilon, x);
      DiagonalTerm(cs[n].diagonal, epsilon, x[n], x[n] * x[n]);
      Spread(epsilon, Dot(x[..n], x[..n]), x[n] * x[n]);
    }
  }

  lemma {:induction false} DiagonalPrefix(cs: seq<Coordinate>, epsilon: real, x: Vec)
    requires |cs| < |x|
    ensures DiagonalForm(cs, epsilon, x[..|x| - 1], x[..|x| - 1]) == DiagonalForm(cs, epsilon, x, x)
  {
    if cs != [] {
      DiagonalPrefix(cs[..|cs| - 1], epsilon, x);
    }
  }

  // ----- the operator -----

  ghost predicate IsOperator(m: Csr, g: Graph, epsilon: real) {
    && GraphOk(g) && m.Valid() && m.rows == m.cols == |g.coordinates|
    && SameMatrix(m.Stored(), OperatorEntries(g, epsilon), m.rows, m.cols)
  }

  lemma {:induction false} LeftInShape(w: real, left: Term, rights: seq<Term>, index: map<Id, nat>, n: nat)
    requires left.id in index && Known(rights, index) && forall id :: id in index ==> index[id] < n
    ensures InShape(LeftEntries(w, left, rights, index), n, n)
  {
    if rights != [] {
      LeftInShape(w, left, rights[..|rights| - 1], index, n);
    }
  }

  lemma {:induction false} RelationInShape(w: real, lefts: seq<Term>, rights: seq<Term>, index: map<Id, nat>, n: nat)
    requires Known(lefts, index) && Known(rights, index) && forall id :: id in index ==> index[id] < n
    ensures InShape(RelationEntries(w, lefts, rights, index), n, n)
  {
    if lefts != [] {
      RelationInShape(w, lefts[..|lefts| - 1], rights, index, n);
      LeftInShape(w, lefts[|lefts| - 1], rights, index, n);
    }
  }

  lemma {:induction false} RelationsInShape(rs: seq<Relation>, index: map<Id, nat>, n: nat)
    requires (forall k :: 0 <= k < |rs| ==> Known(rs[k].terms, index)) && forall id :: id in index ==> index[id] < n
    ensures InShape(AllRelationEntries(rs, index), n, n)
  {
    if rs != [] {
      var last := rs[|rs| - 1];
      RelationsInShape(rs[..|rs| - 1], index, n);
      RelationInShape(last.weight, last.terms, last.terms, index, n);
    }
  }

  /** The entries of one relation, by the two nested loops over its terms. */
  method CollectRelation(r: Relation, index: map<Id, nat>) returns (es: seq<Entry>)
    requires Known(r.terms, index)
    ensures es == RelationEntries(r.weight, r.terms, r.terms, index)
  {
    hide PairEntry;
    es := [];
    for a := 0 to |r.terms|
      invariant es == RelationEntries(r.weight, r.terms[..a], r.terms, index)
    {
      var left, before := r.terms[a], es;
      for b := 0 to |r.terms|
        invariant es == before + LeftEntries(r.weight, left, r.terms[..b], index)
      {
        assert r.terms[..b + 1][..b] == r.terms[..b];
        es := es + [PairEntry(r.weight, left, r.terms[b], index)];
      }
      assert r.terms[..|r.terms|] == r.terms && r.terms[..a + 1][..a] == r.terms[..a];
    }
    assert r.terms[..|r.terms|] == r.terms;
  }

  method CollectEntries(g: Graph, epsilon: real) returns (es: seq<Entry>)
    requires GraphOk(g)
    ensures es == OperatorEntries(g, epsilon)
  {
    hide RelationEntries;
    var index, n := IndexOf(CoordinateIds(g.coordinates)), |g.coordinates|;
    es := [];
    for i := 0 to n
      invariant es == DiagonalEntries(g.coordinates, epsilon)[..i]
    {
      es := es + [Entry(i, i, g.coordinates[i].diagonal + epsilon)];
    }
    for k := 0 to |g.relations|
      invariant es == DiagonalEntries(g.coordinates, epsilon) + AllRelationEntries(g.relations[..k], index)
    {
      var more := CollectRelation(g.relations[k], index);
      AllRelationsNext(g.relations, index, k);
      es := es + more;
    }
    assert g.relations[..|g.relations|] == g.relations;
  }

  lemma {:induction false} AllRelationsNext(rs: seq<Relation>, index: map<Id, nat>, k: nat)
    requires (forall i :: 0 <= i < |rs| ==> Known(rs[i].terms, index)) && k < |rs|
    ensures AllRelationEntries(rs[..k + 1], index)
      == AllRelationEntries(rs[..k], index) + RelationEntries(rs[k].weight, rs[k].terms, rs[k].terms, index)
  {
    hide RelationEntries;
    assert rs[..k + 1][..k] == rs[..k];
  }

  /** `build_propagation_operator`; None is the error for a regularisation that is not positive. */
  method BuildOperator(g: Graph, epsilon: real) returns (m: Option<Csr>)
    requires GraphOk(g)
    ensures m.Some? <==> epsilon > 0.0
    ensures m.Some? ==> IsOperator(m.value, g, epsilon)
  {
    if epsilon <= 0.0 {
      return None;
    }
    var es := CollectEntries(g, epsilon);
    RelationsInShape(g.relations, IndexOf(CoordinateIds(g.coordinates)), |g.coordinates|);
    hide AllRelationEntries, SameMatrix, Csr.Valid;
    m := FromEntries(|g.coordinates|, |g.coordinates|, es);
  }

  /** The stored matrix has exactly the graph's energy as its bilinear form. */
  lemma {:induction false} OperatorEnergy(m: Csr, g: Graph, epsilon: real, y: Vec, x: Vec)
    requires IsOperator(m, g, epsilon) && |y| == |x| == m.rows
    ensures Form(m.Stored(), y, x) == Energy(g, epsilon, y, x)
  {
    SameForm(m.Stored(), OperatorEntries(g, epsilon), y, x);
    OperatorMeans(g, epsilon, y, x);
  }

  /** xᵀMx is at least ε‖x‖². */
  lemma {:induction false} OperatorBound(m: Csr, g: Graph, epsilon: real, x: Vec)
    requires IsOperator(m, g, epsilon) && |x| == m.rows
    ensures Form(m.Stored(), x, x) >= epsilon * Dot(x, x)
  {
    OperatorEnergy(m, g, epsilon, x, x);
    DiagonalBound(g.coordinates, epsilon, x);
    RelationsNonnegative(g.relations, IndexOf(CoordinateIds(g.coordinates)), x);
  }

  function Unit(n: nat, i: nat): (e: Vec)
    ensures |e| == n && forall k :: 0 <= k < n ==> e[k] == if k == i then 1.0 else 0.0
  {
    seq(n, k => if k == i then 1.0 else 0.0)
  }

  lemma {:induction false} FormAtUnits(es: seq<Entry>, n: nat, i: nat, j: nat)
    requires InShape(es, n, n)
    ensures Form(es, Unit(n, i), Unit(n, j)) == Value(es, i, j)
  {
    if es != [] {
      FormAtUnits(es[..|es| - 1], n, i, j);
    }
  }

  lemma {:induction false} OperatorSymmetric(m: Csr, g: Graph, epsilon: real, i: nat, j: nat)
    requires IsOperator(m, g, epsilon) && i < m.rows && j < m.rows
    ensures Value(m.Stored(), i, j) == Value(m.Stored(), j, i)
  {
    var y, x := Unit(m.rows, i), Unit(m.rows, j);
    FormAtUnits(m.Stored(), m.rows, i, j);
    FormAtUnits(m.Stored(), m.rows, j, i);
    OperatorEnergy(m, g, epsilon, y, x);
    OperatorEnergy(m, g, epsilon, x, y);
    DiagonalSymmetric(g.coordinates, epsilon, y, x);
    RelationsSymmetric(g.relations, IndexOf(CoordinateIds(g.coordinates)), y, x);
  }
}
