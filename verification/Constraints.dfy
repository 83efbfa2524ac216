/** What constraint rows mean, and the shape of the rows they are compiled to. */
module Constraints {
  import opened Common
  import opened Vectors
  import opened Entries
  import opened ContextGraph

  datatype ConstraintError = Unsupported | Contradictory | UnknownCoordinate | InvalidCoordinates
  datatype Result<+T> = Done(value: T) | Refused(error: ConstraintError)

  /** A supported row: a coordinate fixed to 0 or 1, or two coordinates made equal. */
  datatype Kind = Fix(id: Id, value: real) | Equality(left: Id, right: Id)

  function Classify(row: ConstraintRow): (r: Result<Kind>) {
    if |row.terms| == 1 then
      if row.terms[0].coefficient == 1.0 && (row.rhs == 0.0 || row.rhs == 1.0) then Done(Fix(row.terms[0].id, row.rhs))
      else Refused(Unsupported)
    else if |row.terms| == 2 && row.rhs == 0.0
            && (row.terms[0].coefficient == 1.0 || row.terms[0].coefficient == -1.0)
            && row.terms[1].coefficient == -row.terms[0].coefficient then
      Done(Equality(row.terms[0].id, row.terms[1].id))
    else Refused(Unsupported)
  }

  ghost predicate RowHolds(row: ConstraintRow, index: map<Id, nat>, x: Vec)
    requires Known(row.terms, index)
  {
    Along(row.terms, index, x) == row.rhs
  }

  predicate Placed(k: Kind, index: map<Id, nat>) {
    match k
    case Fix(id, _) => id in index
    case Equality(l, r) => l in index && r in index
  }

  ghost predicate KindHolds(k: Kind, index: map<Id, nat>, x: Vec)
    requires Placed(k, index)
  {
    match k
    case Fix(id, v) => Get(x, index[id]) == v
    case Equality(l, r) => Get(x, index[l]) == Get(x, index[r])
  }

  /** Classification keeps the meaning of a row, and its ids. */
  lemma {:induction false} ClassifyMeans(row: ConstraintRow, index: map<Id, nat>, x: Vec)
    requires Known(row.terms, index) && Classify(row).Done?
    ensures var k := Classify(row).value; Placed(k, index) && (RowHolds(row, index, x) <==> KindHolds(k, index, x))
  {
    var ts := row.terms;
    if |ts| == 1 {
      OneTermAlong(ts[0], index, x);
      assert ts == [ts[0]];
    } else {
      OneTermAlong(ts[0], index, x);
      assert ts[..1] == [ts[0]];
      UnitTimes(ts[0].coefficient, Get(x, index[ts[0].id]));
      UnitTimes(ts[1].coefficient, Get(x, index[ts[1].id]));
    }
  }

  lemma {:induction false} UnitTimes(c: real, v: real)
    ensures c == 1.0 ==> c * v == v
    ensures c == -1.0 ==> c * v == -v
  {
  }

  lemma {:induction false} OneTermAlong(t: Term, index: map<Id, nat>, x: Vec)
    requires t.id in index
    ensures Known([t], index) && Along([t], index, x) == t.coefficient * Get(x, index[t.id])
    ensures t.coefficient == 1.0 ==> Along([t], index, x) == Get(x, index[t.id])
  {
    assert [t][..0] == [];
    UnitTimes(t.coefficient, Get(x, index[t.id]));
  }

  // ----- compiled rows -----

  /** `anchor - member == 0`, or `anchor == value`. */
  datatype SolveRow = Tie(anchor: Id, member: Id) | Pin(anchor: Id, value: real)
  {
    function Rhs(): (v: real) {
      if Tie? then 0.0 else value
    }

    /** The column that no later row of the compiled system uses. */
    function Pivot(): (id: Id) {
      if Tie? then member else anchor
    }

    predicate Uses(id: Id) {
      id == anchor || (Tie? && id == member)
    }

    predicate Placed(index: map<Id, nat>) {
      anchor in index && (Tie? ==> member in index && index[member] != index[anchor])
    }

    ghost predicate Holds(index: map<Id, nat>, x: Vec)
      requires Placed(index)
    {
      if Tie? then Get(x, index[anchor]) == Get(x, index[member]) else Get(x, index[anchor]) == value
    }

    function Coefficient(index: map<Id, nat>, j: nat): (v: real)
      requires Placed(index)
    {
      if j == index[anchor] then 1.0 else if Tie? && j == index[member] then -1.0 else 0.0
    }

    function Written(k: nat, index: map<Id, nat>): (es: seq<Entry>)
      requires Placed(index)
    {
      if Tie? then [Entry(k, index[anchor], 1.0), Entry(k, index[member], -1.0)] else [Entry(k, index[anchor], 1.0)]
    }
  }

  ghost predicate AllPlaced(rows: seq<SolveRow>, index: map<Id, nat>) {
    forall k :: 0 <= k < |rows| ==> rows[k].Placed(index)
  }

  function RowEntries(rows: seq<SolveRow>, index: map<Id, nat>): (es: seq<Entry>)
    requires AllPlaced(rows, index)
  {
    if rows == [] then []
    else RowEntries(rows[..|rows| - 1], index) + rows[|rows| - 1].Written(|rows| - 1, index)
  }

  function Targets(rows: seq<SolveRow>): (v: Vec)
    ensures |v| == |rows| && forall k :: 0 <= k < |rows| ==> v[k] == rows[k].Rhs()
  {
    seq(|rows|, k requires 0 <= k < |rows| => rows[k].Rhs())
  }

  lemma {:induction false} WrittenMeans(row: SolveRow, k: nat, index: map<Id, nat>, i: nat, j: nat, x: Vec)
    requires row.Placed(index)
    ensures Value(row.Written(k, index), i, j) == if i == k then row.Coefficient(index, j) else 0.0
    ensures RowDot(row.Written(k, index), i, x)
      == if i != k then 0.0
         else if row.Tie? then Get(x, index[row.anchor]) - Get(x, index[row.member])
         else Get(x, index[row.anchor])
  {
    var first := Entry(k, index[row.anchor], 1.0);
    SingleEntry(first, i, j, x);
    if row.Tie? {
      var second := Entry(k, index[row.member], -1.0);
      SingleEntry(second, i, j, x);
      assert [first, second] == [first] + [second];
      ValueConcat([first], [second], i, j);
      RowDotConcat([first], [second], i, x);
    }
  }

  lemma {:induction false} RowEntriesMean(rows: seq<SolveRow>, index: map<Id, nat>, i: nat, j: nat, x: Vec)
    requires AllPlaced(rows, index)
    ensures Value(RowEntries(rows, index), i, j) == if i < |rows| then rows[i].Coefficient(index, j) else 0.0
    ensures i < |rows| ==> (RowDot(RowEntries(rows, index), i, x) == rows[i].Rhs() <==> rows[i].Holds(index, x))
    ensures i >= |rows| ==> RowDot(RowEntries(rows, index), i, x) == 0.0
  {
    if rows != [] {
      var n := |rows| - 1;
      RowEntriesMean(rows[..n], index, i, j, x);
      ValueConcat(RowEntries(rows[..n], index), rows[n].Written(n, index), i, j);
      RowDotConcat(RowEntries(rows[..n], index), rows[n].Written(n, index), i, x);
      WrittenMeans(rows[n], n, index, i, j, x);
    }
  }

  lemma {:induction false} RowEntriesInShape(rows: seq<SolveRow>, index: map<Id, nat>, n: nat)
    requires AllPlaced(rows, index) && forall id :: id in index ==> index[id] < n
    ensures InShape(RowEntries(rows, index), |rows|, n)
  {
    if rows != [] {
      RowEntriesInShape(rows[..|rows| - 1], index, n);
    }
  }

  // ----- independence -----

  /** No nontrivial combination of the rows vanishes. */
  ghost predicate Independent(es: seq<Entry>, rows: nat, cols: nat) {
    forall u: Vec :: |u| == rows && Times(Transposed(es), cols, u) == Zeros(cols) ==> u == Zeros(rows)
  }

  /** Each row has a pivot column that no later row uses. */
  ghost predicate Echelon(rows: seq<SolveRow>) {
    forall a, b :: 0 <= a < b < |rows| ==> !rows[b].Uses(rows[a].Pivot())
  }

  /** A column times `u` is one term when the rest vanishes. */
  lemma {:induction false} ColumnTerm(es: seq<Entry>, u: Vec, j: nat, r: nat, term: real)
    requires r < |u| && term == Value(es, r, j) * u[r] && forall k :: 0 <= k < |es| ==> es[k].row < |u|
    requires forall k: nat :: k < |u| && k != r ==> u[k] == 0.0 || Value(es, k, j) == 0.0
    ensures RowDot(Transposed(es), j, u) == term
  {
    hide Dot, RowDot, Value;
    ColumnDot(es, j, u);
    OnlyTerm(ColumnOf(es, j, |u|), u, r, term);
  }

  lemma {:induction false} OnlyTerm(a: Vec, x: Vec, r: nat, term: real)
    requires |a| == |x| && r < |x| && term == a[r] * x[r] && forall k: nat :: k < |x| && k != r ==> x[k] == 0.0 || a[k] == 0.0
    ensures Dot(a, x) == term
  {
    DotRemove(a, x, r, term);
    DotVanishes(a[..r] + a[r + 1..], x[..r] + x[r + 1..]);
  }

  ghost predicate Injective(index: map<Id, nat>) {
    forall p, q :: p in index && q in index && index[p] == index[q] ==> p == q
  }

  lemma {:induction false} EchelonKills(rows: seq<SolveRow>, index: map<Id, nat>, n: nat, u: Vec, r: nat)
    requires AllPlaced(rows, index) && Echelon(rows) && Injective(index) && (forall id :: id in index ==> index[id] < n)
    requires |u| == |rows| && r <= |rows| && Times(Transposed(RowEntries(rows, index)), n, u) == Zeros(n)
    ensures forall k :: 0 <= k < r ==> u[k] == 0.0
  {
    if r > 0 {
      hide RowDot, Value, RowEntries, Echelon;
      EchelonKills(rows, index, n, u, r - 1);
      var es, at := RowEntries(rows, index), index[rows[r - 1].Pivot()];
      RowEntriesInShape(rows, index, n);
      PivotColumn(rows, index, n, r - 1);
      assert Times(Transposed(es), n, u)[at] == 0.0;
      ColumnKills(es, u, at, r - 1);
    }
  }

  /** A column that holds ±1 in row `r` and meets no other nonzero component forces that component to zero. */
  lemma {:induction false} ColumnKills(es: seq<Entry>, u: Vec, j: nat, r: nat)
    requires r < |u| && (forall k :: 0 <= k < |es| ==> es[k].row < |u|) && RowDot(Transposed(es), j, u) == 0.0
    requires Value(es, r, j) == 1.0 || Value(es, r, j) == -1.0
    requires forall k: nat :: k < |u| && k != r ==> u[k] == 0.0 || Value(es, k, j) == 0.0
    ensures u[r] == 0.0
  {
    hide RowDot, Value;
    var product := Value(es, r, j) * u[r];
    ColumnTerm(es, u, j, r, product);
    UnitFactor(Value(es, r, j), u[r], product);
  }

  lemma {:induction false} UnitFactor(c: real, v: real, product: real)
    requires (c == 1.0 || c == -1.0) && product == c * v && product == 0.0
    ensures v == 0.0
  {
  }

  /** The pivot column of row `r` holds ±1 there and zeros below. */
  lemma {:induction false} PivotColumn(rows: seq<SolveRow>, index: map<Id, nat>, n: nat, r: nat)
    requires AllPlaced(rows, index) && Echelon(rows) && Injective(index) && r < |rows| && (forall id :: id in index ==> index[id] < n)
    ensures rows[r].Pivot() in index
    ensures var at := index[rows[r].Pivot()];
      && at < n && (Value(RowEntries(rows, index), r, at) == 1.0 || Value(RowEntries(rows, index), r, at) == -1.0)
      && forall k: nat :: r < k < |rows| ==> Value(RowEntries(rows, index), k, at) == 0.0
  {
    hide RowDot, Value, RowEntries;
    var at := index[rows[r].Pivot()];
    RowEntriesMean(rows, index, r, at, []);
    forall k: nat | r < k < |rows| ensures Value(RowEntries(rows, index), k, at) == 0.0 {
      RowEntriesMean(rows, index, k, at, []);
      assert !rows[k].Uses(rows[r].Pivot());
    }
  }

  lemma {:induction false} EchelonIsIndependent(rows: seq<SolveRow>, index: map<Id, nat>, n: nat)
    requires AllPlaced(rows, index) && Echelon(rows) && Injective(index) && forall id :: id in index ==> index[id] < n
    ensures Independent(RowEntries(rows, index), |rows|, n)
  {
    forall u: Vec | |u| == |rows| && Times(Transposed(RowEntries(rows, index)), n, u) == Zeros(n)
      ensures u == Zeros(|rows|)
    {
      EchelonKills(rows, index, n, u, |rows|);
    }
  }

  lemma {:induction false} SameIndependent(es: seq<Entry>, fs: seq<Entry>, rows: nat, cols: nat)
    requires SameMatrix(es, fs, rows, cols) && Independent(fs, rows, cols)
    ensures Independent(es, rows, cols)
  {
    SameTransposed(es, fs, rows, cols);
    forall u: Vec | |u| == rows && Times(Transposed(es), cols, u) == Zeros(cols) ensures u == Zeros(rows) {
      forall j | 0 <= j < cols ensures Times(Transposed(fs), cols, u)[j] == 0.0 {
        SameRowDot(Transposed(es), Transposed(fs), cols, u, j);
        assert Times(Transposed(es), cols, u)[j] == 0.0;
      }
      assert Times(Transposed(fs), cols, u) == Zeros(cols);
    }
  }
}
