/** Coordinates, weighted relations and constraint rows of a context graph. */
module ContextGraph {
  import opened Common
  import opened Vectors

  datatype Term = Term(id: Id, coefficient: real)
  datatype Coordinate = Coordinate(id: Id, diagonal: real)
  datatype Relation = Relation(terms: seq<Term>, weight: real)
  datatype ConstraintRow = ConstraintRow(constraintId: Id, terms: seq<Term>, rhs: real)
  datatype Graph = Graph(coordinates: seq<Coordinate>, relations: seq<Relation>)

  function CoordinateIds(cs: seq<Coordinate>): (ids: seq<Id>)
    ensures |ids| == |cs| && forall i :: 0 <= i < |cs| ==> ids[i] == cs[i].id
  {
    seq(|cs|, i requires 0 <= i < |cs| => cs[i].id)
  }

  predicate DistinctIds(ids: seq<Id>) {
    forall i, j :: 0 <= i < j < |ids| ==> ids[i] != ids[j]
  }

  /** The dictionary from id to position. */
  function IndexOf(ids: seq<Id>): (index: map<Id, nat>)
    ensures forall id :: id in index <==> id in ids
    ensures forall id :: id in index ==> index[id] < |ids| && ids[index[id]] == id
  {
    if ids == [] then map[] else IndexOf(ids[..|ids| - 1])[ids[|ids| - 1] := |ids| - 1]
  }

  predicate Known(terms: seq<Term>, index: map<Id, nat>) {
    forall k :: 0 <= k < |terms| ==> terms[k].id in index
  }

  /** What the record constructors of the graph guarantee. */
  predicate GraphOk(g: Graph) {
    && DistinctIds(CoordinateIds(g.coordinates))
    && (forall i :: 0 <= i < |g.coordinates| ==> g.coordinates[i].diagonal >= 0.0)
    && (forall i :: 0 <= i < |g.relations| ==>
          g.relations[i].weight >= 0.0 && Known(g.relations[i].terms, IndexOf(CoordinateIds(g.coordinates))))
  }

  /** A row of terms applied to a vector. */
  function Along(terms: seq<Term>, index: map<Id, nat>, x: Vec): (v: real)
    requires Known(terms, index)
  {
    if terms == [] then 0.0
    else
      var t := terms[|terms| - 1];
      Along(terms[..|terms| - 1], index, x) + t.coefficient * Get(x, index[t.id])
  }

  lemma {:induction false} AlongLast(terms: seq<Term>, index: map<Id, nat>, x: Vec, share: real)
    requires terms != [] && Known(terms, index)
    requires share == terms[|terms| - 1].coefficient * Get(x, index[terms[|terms| - 1].id])
    ensures Along(terms, index, x) == Along(terms[..|terms| - 1], index, x) + share
  {
  }
}
