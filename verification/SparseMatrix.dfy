/** Compressed sparse rows: construction from coordinate lists, products and submatrices. */
module SparseMatrix {
  import opened Common
  import opened Vectors
  import opened Entries

  /** Row `r` holds the offsets `indptr[r] .. indptr[r + 1]` of `indices` and `data`. */
  datatype Csr = Csr(rows: nat, cols: nat, indptr: seq<nat>, indices: seq<nat>, data: Vec)
  {
    ghost predicate Framed() {
      && |indptr| == rows + 1 && indptr[0] == 0 && indptr[rows] == |indices| == |data|
      && (forall r, r' :: 0 <= r <= r' <= rows ==> indptr[r] <= indptr[r'])
    }

    /** The checks of the constructor: column indices fit and strictly increase along each row. */
    ghost predicate Valid() {
      && Framed()
      && (forall o :: 0 <= o < |indices| ==> indices[o] < cols)
      && (forall r, o :: 0 <= r < rows && indptr[r] < o < indptr[r + 1] ==> indices[o - 1] < indices[o])
    }

    function RowEntries(r: nat, to: nat): (es: seq<Entry>)
      requires Framed() && r < rows && indptr[r] <= to <= indptr[r + 1]
      ensures |es| == to - indptr[r]
      ensures forall k :: 0 <= k < |es| ==> es[k] == Entry(r, indices[indptr[r] + k], data[indptr[r] + k])
    {
      assert indptr[r + 1] <= indptr[rows];
      seq(to - indptr[r], k requires 0 <= k < to - indptr[r] => Entry(r, indices[indptr[r] + k], data[indptr[r] + k]))
    }

    function EntriesBelow(r: nat): (es: seq<Entry>)
      requires Framed() && r <= rows
      ensures |es| == indptr[r]
    {
      if r == 0 then [] else EntriesBelow(r - 1) + RowEntries(r - 1, indptr[r])
    }

    /** The stored entries in row-major order: what `iter_entries` yields. */
    function Stored(): (es: seq<Entry>)
      requires Valid()
      ensures |es| == |data|
    {
      EntriesBelow(rows)
    }
  }

  // ----- order -----

  predicate Precedes(a: Entry, b: Entry) {
    a.row < b.row || (a.row == b.row && a.col < b.col)
  }

  ghost predicate RowMajor(es: seq<Entry>) {
    forall a, b :: 0 <= a < b < |es| ==> Precedes(es[a], es[b])
  }

  function Insert(es: seq<Entry>, e: Entry): (r: seq<Entry>)
    ensures |r| == |es| + 1
    ensures forall f :: f in r <==> f == e || f in es
  {
    if es == [] || Precedes(es[|es| - 1], e) then es + [e]
    else Insert(es[..|es| - 1], e) + [es[|es| - 1]]
  }

  lemma {:induction false} InsertSorts(es: seq<Entry>, e: Entry)
    requires RowMajor(es) && forall f <- es :: (f.row, f.col) != (e.row, e.col)
    ensures RowMajor(Insert(es, e))
  {
    if es != [] && !Precedes(es[|es| - 1], e) {
      var n := |es| - 1;
      var shorter := Insert(es[..n], e);
      InsertSorts(es[..n], e);
      assert es[n] in es;
      forall a | 0 <= a < |shorter| ensures Precedes(shorter[a], es[n]) {
        assert shorter[a] in shorter;
      }
    }
  }

  /** In an ordered list each coordinate occurs once, so its element is the stored value. */
  lemma {:induction false} RowMajorValue(es: seq<Entry>, i: nat, j: nat)
    requires RowMajor(es)
    ensures forall k :: 0 <= k < |es| && es[k].row == i && es[k].col == j ==> Value(es, i, j) == es[k].value
    ensures (forall k :: 0 <= k < |es| ==> (es[k].row, es[k].col) != (i, j)) ==> Value(es, i, j) == 0.0
  {
    if es != [] {
      RowMajorValue(es[..|es| - 1], i, j);
    }
  }

  // ----- construction -----

  type Cells = map<(nat, nat), real>

  function CellValue(cells: Cells, i: nat, j: nat): (v: real) {
    if (i, j) in cells then cells[(i, j)] else 0.0
  }

  method Accumulate(es: seq<Entry>) returns (cells: Cells)
    ensures forall i: nat, j: nat :: CellValue(cells, i, j) == Value(es, i, j)
    ensures forall c <- cells.Keys :: exists k :: 0 <= k < |es| && (es[k].row, es[k].col) == c
  {
    cells := map[];
    for n := 0 to |es|
      invariant forall i: nat, j: nat :: CellValue(cells, i, j) == Value(es[..n], i, j)
      invariant forall c <- cells.Keys :: exists k :: 0 <= k < n && (es[k].row, es[k].col) == c
    {
      var e := es[n];
      assert es[..n + 1][..n] == es[..n];
      cells := cells[(e.row, e.col) := CellValue(cells, e.row, e.col) + e.value];
    }
    assert es[..|es|] == es;
  }

  /** `sorted` over the accumulated items that are not zero. */
  method SortedItems(cells: Cells) returns (ordered: seq<Entry>)
    ensures RowMajor(ordered)
    ensures forall e :: e in ordered <==> (e.row, e.col) in cells && cells[(e.row, e.col)] == e.value != 0.0
  {
    ordered := [];
    var keys := cells.Keys;
    while keys != {}
      invariant keys <= cells.Keys && RowMajor(ordered)
      invariant forall e :: e in ordered <==>
        (e.row, e.col) in cells && (e.row, e.col) !in keys && cells[(e.row, e.col)] == e.value != 0.0
      decreases |keys|
    {
      var key :| key in keys;
      if cells[key] != 0.0 {
        var e := Entry(key.0, key.1, cells[key]);
        InsertSorts(ordered, e);
        ordered := Insert(ordered, e);
      }
      keys := keys - {key};
    }
  }

  /** The cursor walk that turns an ordered list into rows. */
  method Pack(rows: nat, cols: nat, ordered: seq<Entry>) returns (m: Csr)
    requires RowMajor(ordered) && InShape(ordered, rows, cols)
    ensures m.rows == rows && m.cols == cols && m.Valid() && m.Stored() == ordered
  {
    var indptr: seq<nat>, indices: seq<nat>, data: Vec, cursor := [0], [], [], 0;
    for row := 0 to rows
      invariant |indptr| == row + 1 && indptr[0] == 0 && indptr[row] == cursor <= |ordered|
      invariant |indices| == |data| == cursor
      invariant forall k :: 0 <= k < cursor ==> indices[k] == ordered[k].col && data[k] == ordered[k].value
      invariant Split(ordered, indptr)
    {
      while cursor < |ordered| && ordered[cursor].row == row
        invariant indptr[row] <= cursor <= |ordered| && |indices| == |data| == cursor
        invariant forall k :: 0 <= k < cursor ==> indices[k] == ordered[k].col && data[k] == ordered[k].value
        invariant forall k :: indptr[row] <= k < cursor ==> ordered[k].row == row
      {
        indices := indices + [ordered[cursor].col];
        data := data + [ordered[cursor].value];
        cursor := cursor + 1;
      }
      SplitNext(ordered, indptr, cursor);
      indptr := indptr + [|indices|];
    }
    SplitEnd(ordered, indptr, rows, cols);
    m := Csr(rows, cols, indptr, indices, data);
    PackedIs(m, ordered);
  }

  lemma {:induction false} PackedIs(m: Csr, ordered: seq<Entry>)
    requires RowMajor(ordered) && InShape(ordered, m.rows, m.cols)
    requires |m.indptr| == m.rows + 1 && m.indptr[0] == 0 && Split(ordered, m.indptr)
    requires m.indptr[m.rows] == |m.indices| == |m.data| == |ordered|
    requires forall k :: 0 <= k < |ordered| ==> m.indices[k] == ordered[k].col && m.data[k] == ordered[k].value
    ensures m.Valid() && m.Stored() == ordered
  {
    PackedRows(m, ordered, m.rows);
    assert ordered[..|ordered|] == ordered;
    forall r, o | 0 <= r < m.rows && m.indptr[r] < o < m.indptr[r + 1] ensures m.indices[o - 1] < m.indices[o] {
      assert m.indptr[r + 1] <= m.indptr[m.rows];
      assert Precedes(ordered[o - 1], ordered[o]);
      assert o - 1 < m.indptr[r] <==> ordered[o - 1].row < r;
      assert o < m.indptr[r + 1] <==> ordered[o].row < r + 1;
    }
  }

  /** `indptr[r]` is where the rows from `r` on begin. */
  ghost predicate Split(ordered: seq<Entry>, indptr: seq<nat>) {
    && (forall r, r' :: 0 <= r <= r' < |indptr| ==> indptr[r] <= indptr[r'])
    && (forall r :: 0 <= r < |indptr| ==> indptr[r] <= |ordered|)
    && (forall r, k :: 0 <= r < |indptr| && 0 <= k < |ordered| ==> (k < indptr[r] <==> ordered[k].row < r))
  }

  lemma {:induction false} SplitEnd(ordered: seq<Entry>, indptr: seq<nat>, rows: nat, cols: nat)
    requires InShape(ordered, rows, cols) && |indptr| == rows + 1 && Split(ordered, indptr)
    ensures indptr[rows] == |ordered|
  {
    var k := |ordered| - 1;
    assert k >= 0 ==> (k < indptr[rows] <==> ordered[k].row < rows);
  }

  lemma {:induction false} SplitNext(ordered: seq<Entry>, indptr: seq<nat>, cursor: nat)
    requires RowMajor(ordered) && indptr != [] && Split(ordered, indptr)
    requires indptr[|indptr| - 1] <= cursor <= |ordered|
    requires forall k :: indptr[|indptr| - 1] <= k < cursor ==> ordered[k].row == |indptr| - 1
    requires cursor < |ordered| ==> ordered[cursor].row != |indptr| - 1
    ensures Split(ordered, indptr + [cursor])
  {
    var row := |indptr| - 1;
    forall k | 0 <= k < |ordered| ensures k < cursor <==> ordered[k].row < row + 1 {
      if k >= cursor {
        assert ordered[cursor].row >= row;
        assert k > cursor ==> Precedes(ordered[cursor], ordered[k]);
      } else {
        assert k < indptr[row] <==> ordered[k].row < row;
      }
    }
  }

  lemma {:induction false} PackedRows(m: Csr, ordered: seq<Entry>, r: nat)
    requires m.Framed() && r <= m.rows && |m.data| == |ordered| && Split(ordered, m.indptr)
    requires forall k :: 0 <= k < |ordered| ==> m.indices[k] == ordered[k].col && m.data[k] == ordered[k].value
    ensures m.EntriesBelow(r) == ordered[..m.indptr[r]]
  {
    if r > 0 {
      PackedRows(m, ordered, r - 1);
      var from, to := m.indptr[r - 1], m.indptr[r];
      assert to <= m.indptr[m.rows];
      var tail := m.RowEntries(r - 1, to);
      forall k | 0 <= k < to - from ensures tail[k] == ordered[from + k] {
        assert from + k < to <==> ordered[from + k].row < r;
        assert from + k < from <==> ordered[from + k].row < r - 1;
      }
      assert ordered[..to] == ordered[..from] + tail;
    }
  }

  /** `CsrMatrix.from_entries`: the canonical matrix of a coordinate list, or None when a coordinate does not fit. */
  method FromEntries(rows: nat, cols: nat, es: seq<Entry>) returns (m: Option<Csr>)
    ensures m.Some? <==> InShape(es, rows, cols)
    ensures m.Some? ==> var c := m.value;
      && c.rows == rows && c.cols == cols && c.Valid() && SameMatrix(c.Stored(), es, rows, cols)
      && RowMajor(c.Stored()) && forall v <- c.data :: v != 0.0
  {
    for n := 0 to |es|
      invariant forall k :: 0 <= k < n ==> es[k].row < rows && es[k].col < cols
    {
      if es[n].row >= rows || es[n].col >= cols {
        return None;
      }
    }
    var cells := Accumulate(es);
    var ordered := SortedItems(cells);
    OrderedMeans(es, cells, ordered, rows, cols);
    var packed := Pack(rows, cols, ordered);
    StoredData(packed);
    return Some(packed);
  }

  lemma {:induction false} OrderedMeans(es: seq<Entry>, cells: Cells, ordered: seq<Entry>, rows: nat, cols: nat)
    requires InShape(es, rows, cols) && RowMajor(ordered)
    requires forall i: nat, j: nat :: CellValue(cells, i, j) == Value(es, i, j)
    requires forall c <- cells.Keys :: exists k :: 0 <= k < |es| && (es[k].row, es[k].col) == c
    requires forall e :: e in ordered <==> (e.row, e.col) in cells && cells[(e.row, e.col)] == e.value != 0.0
    ensures SameMatrix(ordered, es, rows, cols) && forall k :: 0 <= k < |ordered| ==> ordered[k].value != 0.0
  {
    forall k | 0 <= k < |ordered| ensures ordered[k].row < rows && ordered[k].col < cols && ordered[k].value != 0.0 {
      assert ordered[k] in ordered;
    }
    forall i: nat, j: nat ensures Value(ordered, i, j) == Value(es, i, j) {
      RowMajorValue(ordered, i, j);
      assert forall k :: 0 <= k < |ordered| ==> ordered[k] in ordered;
      if CellValue(cells, i, j) != 0.0 {
        assert Entry(i, j, cells[(i, j)]) in ordered;
      }
    }
  }

  /** Every stored number is an entry's value. */
  lemma {:induction false} StoredData(m: Csr)
    requires m.Valid()
    ensures forall o :: 0 <= o < |m.data| ==> m.Stored()[o].value == m.data[o]
  {
    forall o | 0 <= o < |m.data| ensures m.Stored()[o].value == m.data[o] {
      EntryAt(m, m.rows, o);
    }
  }

  lemma {:induction false} EntryAt(m: Csr, r: nat, o: nat)
    requires m.Framed() && r <= m.rows && o < m.indptr[r]
    ensures o < |m.data| && m.EntriesBelow(r)[o].value == m.data[o] && m.EntriesBelow(r)[o].col == m.indices[o]
    ensures m.EntriesBelow(r)[o].row < r
  {
    assert m.indptr[r] <= m.indptr[m.rows];
    if o < m.indptr[r - 1] {
      EntryAt(m, r - 1, o);
    }
  }

  // ----- products -----

  lemma {:induction false} OtherRows(m: Csr, r: nat, end: nat, i: nat, x: Vec)
    requires m.Framed() && r < m.rows && m.indptr[r] <= end <= m.indptr[r + 1] && i != r
    ensures RowDot(m.RowEntries(r, end), i, x) == 0.0
    decreases end
  {
    if end > m.indptr[r] {
      OtherRows(m, r, end - 1, i, x);
      assert m.RowEntries(r, end)[..end - 1 - m.indptr[r]] == m.RowEntries(r, end - 1);
    }
  }

  /** Only row `i`'s own segment contributes to its product. */
  lemma {:induction false} RowSegment(m: Csr, r: nat, i: nat, x: Vec)
    requires m.Framed() && r <= m.rows && i < m.rows
    ensures RowDot(m.EntriesBelow(r), i, x) == if i < r then RowDot(m.RowEntries(i, m.indptr[i + 1]), i, x) else 0.0
    decreases r
  {
    if r > 0 {
      hide RowDot;
      RowSegment(m, r - 1, i, x);
      RowDotConcat(m.EntriesBelow(r - 1), m.RowEntries(r - 1, m.indptr[r]), i, x);
      if i != r - 1 {
        OtherRows(m, r - 1, m.indptr[r], i, x);
      }
    }
  }

  lemma {:induction false} SegmentStep(m: Csr, r: nat, o: nat, x: Vec)
    requires m.Valid() && r < m.rows && m.indptr[r] <= o < m.indptr[r + 1] && |x| == m.cols
    ensures o < |m.data| && m.indices[o] < |x|
    ensures RowDot(m.RowEntries(r, o + 1), r, x) == RowDot(m.RowEntries(r, o), r, x) + m.data[o] * x[m.indices[o]]
  {
    assert m.indptr[r + 1] <= m.indptr[m.rows];
    var longer := m.RowEntries(r, o + 1);
    assert longer[..|longer| - 1] == m.RowEntries(r, o);
    assert longer[|longer| - 1] == Entry(r, m.indices[o], m.data[o]);
  }

  /** `matvec`: the product with every vector of the right length. */
  method MatVec(m: Csr, x: Vec) returns (r: Option<Vec>)
    requires m.Valid()
    ensures r == if |x| == m.cols then Some(Times(m.Stored(), m.rows, x)) else None
  {
    if |x| != m.cols {
      return None;
    }
    var result: Vec := [];
    for row := 0 to m.rows
      invariant |result| == row
      invariant forall i :: 0 <= i < row ==> result[i] == RowDot(m.Stored(), i, x)
    {
      var total := 0.0;
      for o := m.indptr[row] to m.indptr[row + 1]
        invariant total == RowDot(m.RowEntries(row, o), row, x)
      {
        SegmentStep(m, row, o, x);
        total := total + m.data[o] * x[m.indices[o]];
      }
      RowSegment(m, m.rows, row, x);
      result := result + [total];
    }
    assert result == Times(m.Stored(), m.rows, x);
    return Some(result);
  }

  lemma {:induction false} StoredInShape(m: Csr)
    requires m.Valid()
    ensures InShape(m.Stored(), m.rows, m.cols)
  {
    forall o | 0 <= o < |m.data| ensures m.Stored()[o].row < m.rows && m.Stored()[o].col < m.cols {
      EntryAt(m, m.rows, o);
    }
  }

  lemma {:induction false} TransposedTimesLast(es: seq<Entry>, cols: nat, y: Vec, share: real)
    requires es != [] && es[|es| - 1].col < cols && share == es[|es| - 1].value * Get(y, es[|es| - 1].row)
    ensures var n := |es| - 1; var rest := Times(Transposed(es[..n]), cols, y);
      Times(Transposed(es), cols, y) == rest[es[n].col := rest[es[n].col] + share]
  {
    var n := |es| - 1;
    var flipped, rest := Transposed(es), Times(Transposed(es[..n]), cols, y);
    assert flipped[..n] == Transposed(es[..n]) && flipped[n] == Flipped(es[n]);
    forall j | 0 <= j < cols ensures RowDot(flipped, j, y) == rest[j] + if j == es[n].col then share else 0.0 {
    }
    assert Times(flipped, cols, y) == rest[es[n].col := rest[es[n].col] + share];
  }

  lemma {:induction false} NoEntries(cols: nat, y: Vec)
    ensures Times(Transposed([]), cols, y) == Zeros(cols)
  {
    assert Transposed([]) == [];
  }

  /** `transpose_matvec`: the same matrix, transposed. */
  method TransposeMatVec(m: Csr, y: Vec) returns (r: Option<Vec>)
    requires m.Valid()
    ensures r == if |y| == m.rows then Some(Times(Transposed(m.Stored()), m.cols, y)) else None
  {
    if |y| != m.rows {
      return None;
    }
    hide RowDot, Csr.Valid;
    var es := m.Stored();
    StoredInShape(m);
    var result := Zeros(m.cols);
    NoEntries(m.cols, y);
    for k := 0 to |es|
      invariant result == Times(Transposed(es[..k]), m.cols, y)
    {
      assert es[..k + 1][..k] == es[..k];
      var share := es[k].value * y[es[k].row];
      TransposedTimesLast(es[..k + 1], m.cols, y, share);
      result := result[es[k].col := result[es[k].col] + share];
    }
    assert es[..|es|] == es;
    return Some(result);
  }

  // ----- submatrices -----

  /** The projected position of an original index. */
  function Position(at: seq<nat>, k: nat): (p: Option<nat>)
    ensures p.Some? ==> p.value < |at| && at[p.value] == k
    ensures p.None? ==> forall i :: 0 <= i < |at| ==> at[i] != k
  {
    if at == [] then None
    else if at[|at| - 1] == k then Some(|at| - 1)
    else Position(at[..|at| - 1], k)
  }

  predicate Distinct(at: seq<nat>) {
    forall i, j :: 0 <= i < j < |at| ==> at[i] != at[j]
  }

  predicate Within(at: seq<nat>, n: nat) {
    forall i :: 0 <= i < |at| ==> at[i] < n
  }

  /** An entry as the submatrix sees it. */
  function Projected(e: Entry, at: seq<nat>, across: seq<nat>): (es: seq<Entry>) {
    var row, col := Position(at, e.row), Position(across, e.col);
    if row.Some? && col.Some? then [Entry(row.value, col.value, e.value)] else []
  }

  function Restricted(es: seq<Entry>, at: seq<nat>, across: seq<nat>): (r: seq<Entry>)
    ensures forall k :: 0 <= k < |r| ==> r[k].row < |at| && r[k].col < |across|
  {
    if es == [] then [] else Restricted(es[..|es| - 1], at, across) + Projected(es[|es| - 1], at, across)
  }

  lemma {:induction false} ProjectedValue(e: Entry, at: seq<nat>, across: seq<nat>, a: nat, b: nat)
    requires Distinct(at) && Distinct(across) && a < |at| && b < |across|
    ensures Value(Projected(e, at, across), a, b) == if e.row == at[a] && e.col == across[b] then e.value else 0.0
  {
  }

  lemma {:induction false} RestrictedValue(es: seq<Entry>, at: seq<nat>, across: seq<nat>, a: nat, b: nat)
    requires Distinct(at) && Distinct(across) && a < |at| && b < |across|
    ensures Value(Restricted(es, at, across), a, b) == Value(es, at[a], across[b])
  {
    if es != [] {
      var n := |es| - 1;
      RestrictedValue(es[..n], at, across, a, b);
      ValueConcat(Restricted(es[..n], at, across), Projected(es[n], at, across), a, b);
      ProjectedValue(es[n], at, across, a, b);
    }
  }

  /** `sub` is `m` seen through the index lists. */
  ghost predicate IsSubmatrix(sub: Csr, m: Csr, at: seq<nat>, across: seq<nat>) {
    && sub.Valid() && m.Valid() && sub.rows == |at| && sub.cols == |across|
    && Within(at, m.rows) && Within(across, m.cols) && Distinct(at) && Distinct(across)
    && forall a, b :: 0 <= a < |at| && 0 <= b < |across| ==> Value(sub.Stored(), a, b) == Value(m.Stored(), at[a], across[b])
  }

  lemma {:induction false} RestrictedValues(sub: seq<Entry>, es: seq<Entry>, at: seq<nat>, across: seq<nat>)
    requires Distinct(at) && Distinct(across) && SameMatrix(sub, Restricted(es, at, across), |at|, |across|)
    ensures forall a, b :: 0 <= a < |at| && 0 <= b < |across| ==> Value(sub, a, b) == Value(es, at[a], across[b])
  {
    hide Value;
    forall a, b | 0 <= a < |at| && 0 <= b < |across| ensures Value(sub, a, b) == Value(es, at[a], across[b]) {
      RestrictedValue(es, at, across, a, b);
    }
  }

  /** The filtering pass over the stored entries. */
  method Restrict(es: seq<Entry>, at: seq<nat>, across: seq<nat>) returns (projected: seq<Entry>)
    ensures projected == Restricted(es, at, across)
  {
    hide Projected;
    projected := [];
    for k := 0 to |es|
      invariant projected == Restricted(es[..k], at, across)
    {
      assert es[..k + 1][..k] == es[..k];
      projected := projected + Projected(es[k], at, across);
    }
    assert es[..|es|] == es;
  }

  method Submatrix(m: Csr, at: seq<nat>, across: seq<nat>) returns (sub: Option<Csr>)
    requires m.Valid()
    ensures sub.Some? <==> Distinct(at) && Distinct(across) && Within(at, m.rows) && Within(across, m.cols)
    ensures sub.Some? ==> IsSubmatrix(sub.value, m, at, across)
  {
    if !Distinct(at) || !Distinct(across) || !Within(at, m.rows) || !Within(across, m.cols) {
      return None;
    }
    hide Value, Distinct, Within, Csr.Valid, RowMajor;
    var projected := Restrict(m.Stored(), at, across);
    sub := FromEntries(|at|, |across|, projected);
    RestrictedValues(sub.value.Stored(), m.Stored(), at, across);
  }

  /** A submatrix row is the original row gathered at the columns. */
  lemma {:induction false} SubmatrixRow(sub: Csr, m: Csr, at: seq<nat>, across: seq<nat>, a: nat)
    requires IsSubmatrix(sub, m, at, across) && a < |at|
    ensures RowOf(sub.Stored(), a, sub.cols) == Gather(RowOf(m.Stored(), at[a], m.cols), across)
  {
  }

  // ----- dense form -----

  lemma {:induction false} ColumnsIncrease(m: Csr, r: nat, a: nat, b: nat)
    requires m.Valid() && r < m.rows && m.indptr[r] <= a < b < m.indptr[r + 1]
    ensures b < |m.indices| && m.indices[a] < m.indices[b]
    decreases b
  {
    assert m.indptr[r + 1] <= m.indptr[m.rows];
    if a < b - 1 {
      ColumnsIncrease(m, r, a, b - 1);
    }
  }

  lemma {:induction false} RowSorted(m: Csr, r: nat)
    requires m.Valid() && r < m.rows
    ensures RowMajor(m.RowEntries(r, m.indptr[r + 1]))
  {
    var row, from := m.RowEntries(r, m.indptr[r + 1]), m.indptr[r];
    forall a, b | 0 <= a < b < |row| ensures Precedes(row[a], row[b]) {
      ColumnsIncrease(m, r, from + a, from + b);
    }
  }

  lemma {:induction false} RowMajorConcat(es: seq<Entry>, fs: seq<Entry>, r: nat)
    requires RowMajor(es) && RowMajor(fs)
    requires (forall k :: 0 <= k < |es| ==> es[k].row < r) && forall k :: 0 <= k < |fs| ==> fs[k].row == r
    ensures RowMajor(es + fs)
  {
  }

  lemma {:induction false} RowsBelow(m: Csr, r: nat)
    requires m.Framed() && r <= m.rows
    ensures forall k :: 0 <= k < |m.EntriesBelow(r)| ==> m.EntriesBelow(r)[k].row < r
  {
    var below := m.EntriesBelow(r);
    forall k | 0 <= k < |below| ensures below[k].row < r {
      EntryAt(m, r, k);
    }
  }

  /** The constructor's checks make the stored list strictly row-major, so each coordinate is stored once. */
  lemma {:induction false} StoredRowMajor(m: Csr, r: nat)
    requires m.Valid() && r <= m.rows
    ensures RowMajor(m.EntriesBelow(r))
  {
    if r > 0 {
      hide RowMajor;
      StoredRowMajor(m, r - 1);
      RowSorted(m, r - 1);
      RowsBelow(m, r - 1);
      RowMajorConcat(m.EntriesBelow(r - 1), m.RowEntries(r - 1, m.indptr[r]), r - 1);
    }
  }

  /** `to_dense`: the rows written out. */
  method ToDense(m: Csr) returns (rows: seq<Vec>)
    requires m.Valid()
    ensures |rows| == m.rows && forall i :: 0 <= i < m.rows ==> rows[i] == RowOf(m.Stored(), i, m.cols)
  {
    hide Value;
    rows := seq(m.rows, _ => Zeros(m.cols));
    DenseStart(rows, m.rows, m.cols);
    var es := m.Stored();
    StoredInShape(m);
    StoredRowMajor(m, m.rows);
    for k := 0 to |es|
      invariant |rows| == m.rows && forall i :: 0 <= i < m.rows ==> rows[i] == RowOf(es[..k], i, m.cols)
    {
      var e := es[k];
      assert es[..k + 1][..k] == es[..k];
      DenseFresh(es, k);
      DenseStep(es, k, m.rows, m.cols, e.row);
      rows := rows[e.row := rows[e.row][e.col := e.value]];
    }
    assert es[..|es|] == es;
  }

  lemma {:induction false} DenseStart(rows: seq<Vec>, n: nat, cols: nat)
    requires |rows| == n && forall i :: 0 <= i < n ==> rows[i] == Zeros(cols)
    ensures forall i :: 0 <= i < n ==> rows[i] == RowOf([], i, cols)
  {
  }

  lemma {:induction false} DenseFresh(es: seq<Entry>, k: nat)
    requires RowMajor(es) && k < |es|
    ensures Value(es[..k], es[k].row, es[k].col) == 0.0
  {
    RowMajorValue(es[..k], es[k].row, es[k].col);
  }

  lemma {:induction false} DenseStep(es: seq<Entry>, k: nat, rows: nat, cols: nat, row: nat)
    requires InShape(es, rows, cols) && k < |es| && row == es[k].row && Value(es[..k], row, es[k].col) == 0.0
    ensures RowOf(es[..k + 1], row, cols) == RowOf(es[..k], row, cols)[es[k].col := es[k].value]
    ensures forall i :: 0 <= i < rows && i != row ==> RowOf(es[..k + 1], i, cols) == RowOf(es[..k], i, cols)
  {
    assert es[..k + 1][..k] == es[..k];
    RowOfLast(es[..k + 1], row, cols);
    forall i | 0 <= i < rows && i != row ensures RowOf(es[..k + 1], i, cols) == RowOf(es[..k], i, cols) {
      RowOfLast(es[..k + 1], i, cols);
    }
  }
}
