/** `compile_constraints`: the compiled system has the meaning of the original rows, independent rows, and columns
    only where the original rows have terms. */
module ConstraintCompiler {
  import opened Common
  import opened Vectors
  import opened Entries
  import opened SparseMatrix
  import opened ContextGraph
  import opened Constraints
  import opened DisjointSets
  import opened ConstraintMerging

  datatype Support = Support(constraintId: Id, ids: seq<Id>)

  datatype Compiled = Compiled(
    ids: seq<Id>, matrix: Csr, rhs: Vec, certificate: Csr, certificateRhs: Vec, supports: seq<Support>)

  function TermIds(terms: seq<Term>): (ids: seq<Id>)
    ensures |ids| == |terms| && forall k :: 0 <= k < |terms| ==> ids[k] == terms[k].id
  {
    seq(|terms|, k requires 0 <= k < |terms| => terms[k].id)
  }

  predicate InSupport(supports: seq<Support>, id: Id) {
    exists k :: 0 <= k < |supports| && id in supports[k].ids
  }

  predicate BadIds(ids: seq<Id>) {
    (exists i :: 0 <= i < |ids| && ids[i] == "") || !DistinctIds(ids)
  }

  /** The error of the first row that is not supported, if any. */
  function RowError(rows: seq<ConstraintRow>, index: map<Id, nat>): (e: Option<ConstraintError>)
    ensures e.None? ==> forall k :: 0 <= k < |rows| ==> Known(rows[k].terms, index) && Classify(rows[k]).Done?
  {
    if rows == [] then None
    else
      var earlier := RowError(rows[..|rows| - 1], index);
      var last := rows[|rows| - 1];
      if earlier.Some? then earlier
      else if !Known(last.terms, index) then Some(UnknownCoordinate)
      else if Classify(last).Refused? then Some(Unsupported)
      else None
  }

  ghost predicate RowsHold(rows: seq<ConstraintRow>, index: map<Id, nat>, x: Vec) {
    forall k :: 0 <= k < |rows| ==> Known(rows[k].terms, index) && RowHolds(rows[k], index, x)
  }

  ghost predicate Satisfiable(rows: seq<ConstraintRow>, ids: seq<Id>) {
    exists x: Vec :: |x| == |ids| && RowsHold(rows, IndexOf(ids), x)
  }

  // ----- reading the rows -----

  ghost predicate Read(rows: seq<ConstraintRow>, index: map<Id, nat>, kinds: seq<Kind>) {
    && |kinds| == |rows|
    && forall k :: 0 <= k < |rows| ==> Known(rows[k].terms, index) && Classify(rows[k]) == Done(kinds[k])
  }

  lemma {:induction false} ReadMeans(rows: seq<ConstraintRow>, index: map<Id, nat>, kinds: seq<Kind>, x: Vec)
    requires Read(rows, index, kinds)
    ensures RowsHold(rows, index, x) <==> AllHold(kinds, index, x)
    ensures forall k :: 0 <= k < |kinds| ==> Constraints.Placed(kinds[k], index)
  {
    forall k | 0 <= k < |rows|
      ensures Constraints.Placed(kinds[k], index)
      ensures RowHolds(rows[k], index, x) <==> KindHolds(kinds[k], index, x)
    {
      ClassifyMeans(rows[k], index, x);
    }
    hide RowHolds, Along;
    assert AllHold(kinds, index, x) <==> forall k :: 0 <= k < |kinds| ==> KindHolds(kinds[k], index, x);
  }

  /** The ids a row is classified by are ids of its terms. */
  lemma {:induction false} ClassifiedIds(row: ConstraintRow)
    requires Classify(row).Done?
    ensures var k := Classify(row).value; var ids := TermIds(row.terms);
      match k case Fix(id, _) => id in ids case Equality(l, r) => l in ids && r in ids
  {
    var ids := TermIds(row.terms);
    assert ids[0] in ids;
    assert |row.terms| == 2 ==> ids[1] in ids;
  }

  // ----- certificate -----

  function TermEntries(k: nat, terms: seq<Term>, index: map<Id, nat>): (es: seq<Entry>)
    requires Known(terms, index)
  {
    if terms == [] then []
    else
      var t := terms[|terms| - 1];
      TermEntries(k, terms[..|terms| - 1], index) + [Entry(k, index[t.id], t.coefficient)]
  }

  function CertificateEntries(rows: seq<ConstraintRow>, index: map<Id, nat>): (es: seq<Entry>)
    requires forall k :: 0 <= k < |rows| ==> Known(rows[k].terms, index)
  {
    if rows == [] then []
    else
      CertificateEntries(rows[..|rows| - 1], index) + TermEntries(|rows| - 1, rows[|rows| - 1].terms, index)
  }

  lemma {:induction false} LastTermEntry(k: nat, t: Term, index: map<Id, nat>, i: nat, x: Vec, share: real)
    requires t.id in index && share == t.coefficient * Get(x, index[t.id])
    ensures RowDot([Entry(k, index[t.id], t.coefficient)], i, x) == if i == k then share else 0.0
  {
    SingleEntry(Entry(k, index[t.id], t.coefficient), i, 0, x);
  }

  lemma {:induction false} TermEntriesMean(k: nat, terms: seq<Term>, index: map<Id, nat>, i: nat, n: nat, x: Vec)
    requires Known(terms, index) && forall id :: id in index ==> index[id] < n
    ensures RowDot(TermEntries(k, terms, index), i, x) == if i == k then Along(terms, index, x) else 0.0
    ensures InShape(TermEntries(k, terms, index), k + 1, n)
  {
    if terms != [] {
      hide RowDot, Along;
      var m := |terms| - 1;
      var share := terms[m].coefficient * Get(x, index[terms[m].id]);
      TermEntriesMean(k, terms[..m], index, i, n, x);
      LastTermEntry(k, terms[m], index, i, x, share);
      AlongLast(terms, index, x, share);
      RowDotConcat(TermEntries(k, terms[..m], index), [Entry(k, index[terms[m].id], terms[m].coefficient)], i, x);
    }
  }

  lemma {:induction false} CertificateMeans(rows: seq<ConstraintRow>, index: map<Id, nat>, i: nat, n: nat, x: Vec)
    requires (forall k :: 0 <= k < |rows| ==> Known(rows[k].terms, index)) && forall id :: id in index ==> index[id] < n
    ensures RowDot(CertificateEntries(rows, index), i, x) == if i < |rows| then Along(rows[i].terms, index, x) else 0.0
    ensures InShape(CertificateEntries(rows, index), |rows|, n)
  {
    if rows != [] {
      var m := |rows| - 1;
      CertificateMeans(rows[..m], index, i, n, x);
      TermEntriesMean(m, rows[m].terms, index, i, n, x);
      RowDotConcat(CertificateEntries(rows[..m], index), TermEntries(m, rows[m].terms, index), i, x);
    }
  }

  // ----- the compiled rows -----

  /** Everything the phases before the last establish. */
  ghost predicate Sorted(
    ids: seq<Id>, index: map<Id, nat>, kinds: seq<Kind>, root: map<Id, Id>, fixed: map<Id, real>,
    order: seq<Id>, groups: map<Id, seq<Id>>)
  {
    && index == IndexOf(ids) && DistinctIds(ids) && (forall v :: v in root <==> v in index)
    && Merged(root, kinds, index) && Pinned(fixed, root, kinds) && Grouped(ids, root, order, groups)
  }

  lemma {:induction false} IndexInjective(ids: seq<Id>)
    ensures Injective(IndexOf(ids))
  {
  }

  lemma {:induction false} SoundIsPlaced(rows: seq<SolveRow>, root: map<Id, Id>, fixed: map<Id, real>, order: seq<Id>, index: map<Id, nat>)
    requires RowsOk(rows, root, fixed, order) && Injective(index) && forall v :: v in root <==> v in index
    ensures AllPlaced(rows, index)
  {
    forall k | 0 <= k < |rows| ensures rows[k].Placed(index) {
      assert RowSound(rows[k], root, fixed);
    }
  }

  ghost predicate SystemHolds(rows: seq<SolveRow>, index: map<Id, nat>, x: Vec)
    requires AllPlaced(rows, index)
  {
    forall k :: 0 <= k < |rows| ==> rows[k].Holds(index, x)
  }

  /** If the original rows hold, each compiled row holds. */
  lemma {:induction false} CompiledNecessary(
    row: SolveRow, root: map<Id, Id>, fixed: map<Id, real>, kinds: seq<Kind>, index: map<Id, nat>, x: Vec)
    requires RowSound(row, root, fixed) && row.Placed(index) && Forced(root, kinds, index) && Pinned(fixed, root, kinds)
    requires AllHold(kinds, index, x)
    ensures row.Holds(index, x)
  {
    assert At(x, index, row.anchor) == At(x, index, root[row.anchor]);
    if row.Tie? {
      assert At(x, index, row.member) == At(x, index, root[row.member]);
    } else {
      var r := root[row.anchor];
      assert Witnessed(fixed, root, kinds, r);
      var k :| 0 <= k < |kinds| && kinds[k].Fix? && kinds[k].id in root && root[kinds[k].id] == r && kinds[k].value == fixed[r];
      assert At(x, index, kinds[k].id) == At(x, index, r);
    }
  }

  /** All rows of a class together give its members the anchor's value. */
  lemma {:induction false} MemberFollowsAnchor(rows: seq<SolveRow>, members: seq<Id>, fixed: map<Id, real>, r: Id, index: map<Id, nat>, x: Vec, v: Id)
    requires AllPlaced(rows, index) && members != [] && GroupComplete(rows, members, fixed, r) && v in members
    requires SystemHolds(rows, index, x)
    ensures At(x, index, v) == At(x, index, members[0])
    ensures r in fixed ==> At(x, index, members[0]) == fixed[r]
  {
    var m :| 0 <= m < |members| && members[m] == v;
    if m > 0 {
      assert Tie(members[0], v) in rows;
    }
    if r in fixed {
      assert Pin(members[0], fixed[r]) in rows;
    }
  }

  /** If the compiled rows hold, the original ones do. */
  lemma {:induction false} CompiledSufficient(
    ids: seq<Id>, index: map<Id, nat>, kinds: seq<Kind>, root: map<Id, Id>, fixed: map<Id, real>,
    order: seq<Id>, groups: map<Id, seq<Id>>, rows: seq<SolveRow>, x: Vec)
    requires Sorted(ids, index, kinds, root, fixed, order, groups) && AllPlaced(rows, index)
    requires forall r :: r in order ==> r in groups && groups[r] != [] && GroupComplete(rows, groups[r], fixed, r)
    requires SystemHolds(rows, index, x)
    ensures AllHold(kinds, index, x)
  {
    hide GroupComplete, Idempotent, Forced, Supported, GroupOk;
    forall v | v in ids
      ensures v in root && root[v] in groups && groups[root[v]] != [] && At(x, index, v) == At(x, index, groups[root[v]][0])
      ensures root[v] in fixed ==> At(x, index, v) == fixed[root[v]]
    {
      assert v in groups[root[v]] by {
        InOwnGroup(ids, root, groups, v);
      }
      MemberFollowsAnchor(rows, groups[root[v]], fixed, root[v], index, x, v);
    }
  }

  lemma {:induction false} InOwnGroup(ids: seq<Id>, root: map<Id, Id>, groups: map<Id, seq<Id>>, v: Id)
    requires v in ids && v in root && root[v] in groups && GroupOk(ids, root, groups[root[v]], root[v])
    ensures v in groups[root[v]]
  {
  }

  lemma {:induction false} CompiledMeaning(
    ids: seq<Id>, index: map<Id, nat>, kinds: seq<Kind>, root: map<Id, Id>, fixed: map<Id, real>,
    order: seq<Id>, groups: map<Id, seq<Id>>, rows: seq<SolveRow>, x: Vec)
    requires Sorted(ids, index, kinds, root, fixed, order, groups) && AllPlaced(rows, index) && RowsOk(rows, root, fixed, order)
    requires forall r :: r in order ==> r in groups && groups[r] != [] && GroupComplete(rows, groups[r], fixed, r)
    ensures SystemHolds(rows, index, x) <==> AllHold(kinds, index, x)
  {
    hide RowSound, Merged, Pinned, Grouped, GroupComplete, AllHold, Echelon;
    if AllHold(kinds, index, x) {
      forall k | 0 <= k < |rows| ensures rows[k].Holds(index, x) {
        assert Forced(root, kinds, index) by {
          MergedForces(root, kinds, index);
        }
        CompiledNecessary(rows[k], root, fixed, kinds, index, x);
      }
    }
    if SystemHolds(rows, index, x) {
      CompiledSufficient(ids, index, kinds, root, fixed, order, groups, rows, x);
    }
  }

  lemma {:induction false} MergedForces(root: map<Id, Id>, kinds: seq<Kind>, index: map<Id, nat>)
    requires Merged(root, kinds, index)
    ensures Forced(root, kinds, index)
  {
  }

  /** Columns are used only for ids the original rows mention. */
  lemma {:induction false} RowInSupport(
    row: SolveRow, root: map<Id, Id>, fixed: map<Id, real>, kinds: seq<Kind>, supports: seq<Support>, id: Id)
    requires RowSound(row, root, fixed) && Supported(root, kinds) && Pinned(fixed, root, kinds) && row.Uses(id)
    requires forall v :: Mentioned(kinds, v) ==> InSupport(supports, v)
    requires forall k :: 0 <= k < |kinds| && kinds[k].Fix? ==> InSupport(supports, kinds[k].id)
    ensures InSupport(supports, id)
  {
    if row.Tie? {
      assert Mentioned(kinds, row.anchor) && Mentioned(kinds, row.member);
    } else {
      var r := root[row.anchor];
      assert Witnessed(fixed, root, kinds, r);
      var k :| 0 <= k < |kinds| && kinds[k].Fix? && kinds[k].id in root && root[kinds[k].id] == r && kinds[k].value == fixed[r];
      if kinds[k].id != row.anchor {
        assert Mentioned(kinds, row.anchor);
      }
    }
  }

  // ----- the phases -----

  lemma {:induction false} RowErrorNext(rows: seq<ConstraintRow>, index: map<Id, nat>, k: nat)
    requires k < |rows| && RowError(rows[..k], index).None?
    ensures RowError(rows[..k + 1], index)
      == if !Known(rows[k].terms, index) then Some(UnknownCoordinate) else if Classify(rows[k]).Refused? then Some(Unsupported) else None
  {
    assert rows[..k + 1][..k] == rows[..k];
  }

  lemma {:induction false} RowErrorFirst(rows: seq<ConstraintRow>, index: map<Id, nat>, k: nat)
    requires k <= |rows| && RowError(rows[..k], index).Some?
    ensures RowError(rows, index) == RowError(rows[..k], index)
    decreases |rows| - k
  {
    if k < |rows| {
      assert rows[..k + 1][..k] == rows[..k];
      RowErrorFirst(rows, index, k + 1);
    } else {
      assert rows[..k] == rows;
    }
  }

  ghost predicate SupportsOf(supports: seq<Support>, rows: seq<ConstraintRow>) {
    && |supports| == |rows|
    && forall k :: 0 <= k < |rows| ==> supports[k] == Support(rows[k].constraintId, TermIds(rows[k].terms))
  }

  function RhsOf(rows: seq<ConstraintRow>): (v: Vec)
    ensures |v| == |rows| && forall k :: 0 <= k < |rows| ==> v[k] == rows[k].rhs
  {
    seq(|rows|, k requires 0 <= k < |rows| => rows[k].rhs)
  }

  lemma {:induction false} NoRowError(index: map<Id, nat>)
    ensures RowError([], index).None?
  {
  }

  lemma {:induction false} ReadNone(index: map<Id, nat>)
    ensures Read([], index, [])
  {
  }

  lemma {:induction false} ReadNext(rows: seq<ConstraintRow>, index: map<Id, nat>, kinds: seq<Kind>, k: nat)
    requires k < |rows| && Read(rows[..k], index, kinds) && Known(rows[k].terms, index) && Classify(rows[k]).Done?
    ensures Read(rows[..k + 1], index, kinds + [Classify(rows[k]).value])
  {
    assert rows[..k + 1] == rows[..k] + [rows[k]];
  }

  datatype ReadOut = ReadOut(kinds: seq<Kind>, supports: seq<Support>, entries: seq<Entry>, rhs: Vec)

  method ReadRows(rows: seq<ConstraintRow>, index: map<Id, nat>) returns (r: Result<ReadOut>)
    ensures r.Refused? ==> RowError(rows, index) == Some(r.error)
    ensures r.Done? ==> RowError(rows, index).None? && Read(rows, index, r.value.kinds) && SupportsOf(r.value.supports, rows)
    ensures r.Done? ==> r.value.entries == CertificateEntries(rows, index) && r.value.rhs == RhsOf(rows)
  {
    hide Classify, TermEntries, Read, RowError;
    ReadNone(index);
    NoRowError(index);
    var kinds: seq<Kind>, supports: seq<Support>, es: seq<Entry>, rhs: Vec := [], [], [], [];
    for k := 0 to |rows|
      invariant RowError(rows[..k], index).None? && Read(rows[..k], index, kinds) && SupportsOf(supports, rows[..k])
      invariant es == CertificateEntries(rows[..k], index) && rhs == RhsOf(rows[..k])
    {
      var row := rows[k];
      assert rows[..k + 1][..k] == rows[..k];
      RowErrorNext(rows, index, k);
      if !Known(row.terms, index) {
        RowErrorFirst(rows, index, k + 1);
        return Refused(UnknownCoordinate);
      }
      var kind := Classify(row);
      if kind.Refused? {
        RowErrorFirst(rows, index, k + 1);
        return Refused(Unsupported);
      }
      ReadNext(rows, index, kinds, k);
      kinds, supports := kinds + [kind.value], supports + [Support(row.constraintId, TermIds(row.terms))];
      es, rhs := es + TermEntries(k, row.terms, index), rhs + [row.rhs];
    }
    assert rows[..|rows|] == rows;
    return Done(ReadOut(kinds, supports, es, rhs));
  }

  method MergeClasses(ids: seq<Id>, index: map<Id, nat>, kinds: seq<Kind>) returns (d: DisjointSet)
    requires index == IndexOf(ids) && forall k :: 0 <= k < |kinds| ==> Constraints.Placed(kinds[k], index)
    ensures fresh(d) && d.Valid() && Merged(d.root, kinds, index) && forall v :: v in d.root <==> v in index
  {
    hide Merged, Forest;
    d := new DisjointSet(ids);
    MergedStart(d.root, index);
    for k := 0 to |kinds|
      invariant fresh(d) && d.Valid() && Merged(d.root, kinds[..k], index) && forall v :: v in d.root <==> v in index
    {
      assert kinds[..k + 1] == kinds[..k] + [kinds[k]];
      if kinds[k].Equality? {
        MergedUnion(d.root, kinds[..k], kinds[k], index);
        d.Union(kinds[k].left, kinds[k].right);
      } else {
        MergedFix(d.root, kinds[..k], kinds[k], index);
      }
    }
    assert kinds[..|kinds|] == kinds;
  }

  /** None is a contradiction: two fixes of one class disagree. */
  method CollectPins(d: DisjointSet, kinds: seq<Kind>, index: map<Id, nat>) returns (fixed: Option<map<Id, real>>)
    requires d.Valid() && Merged(d.root, kinds, index) && forall v :: v in d.root <==> v in index
    requires forall k :: 0 <= k < |kinds| ==> Constraints.Placed(kinds[k], index)
    modifies d`parent
    ensures d.Valid()
    ensures fixed.Some? ==> Pinned(fixed.value, d.root, kinds)
    ensures fixed.None? ==> forall x: Vec :: !AllHold(kinds, index, x)
  {
    hide Merged, Pinned, Forest, AllHold;
    var pins: map<Id, real> := map[];
    NoPins(d.root);
    for k := 0 to |kinds|
      invariant d.Valid() && Pinned(pins, d.root, kinds[..k])
    {
      assert kinds[..k + 1] == kinds[..k] + [kinds[k]];
      if kinds[k].Fix? {
        var root := d.Find(kinds[k].id);
        if root in pins && pins[root] != kinds[k].value {
          forall x: Vec ensures !AllHold(kinds, index, x) {
            PinsClash(pins, d.root, kinds, k, index, x);
          }
          return None;
        }
        PinnedStep(pins, d.root, kinds[..k], kinds[k]);
        pins := pins[root := kinds[k].value];
      } else {
        PinnedOther(pins, d.root, kinds[..k], kinds[k]);
      }
    }
    assert kinds[..|kinds|] == kinds;
    return Some(pins);
  }

  lemma {:induction false} NoPins(root: map<Id, Id>)
    ensures Pinned(map[], root, [])
  {
  }

  method GroupIds(d: DisjointSet, ids: seq<Id>) returns (order: seq<Id>, groups: map<Id, seq<Id>>)
    requires d.Valid() && DistinctIds(ids) && forall k :: 0 <= k < |ids| ==> ids[k] in d.root
    modifies d`parent
    ensures d.Valid() && Grouped(ids, d.root, order, groups)
  {
    hide Forest;
    order, groups := [], map[];
    for k := 0 to |ids|
      invariant d.Valid() && Grouped(ids[..k], d.root, order, groups)
    {
      hide Grouped;
      assert ids[..k + 1] == ids[..k] + [ids[k]];
      var r := d.Find(ids[k]);
      GroupedStep(ids[..k], d.root, order, groups, ids[k]);
      if r in groups {
        groups := groups[r := groups[r] + [ids[k]]];
      } else {
        order, groups := order + [r], groups[r := [] + [ids[k]]];
      }
    }
    assert ids[..|ids|] == ids;
  }

  /** The last loop: rows are numbered as they are written. */
  method WriteRows(
    order: seq<Id>, groups: map<Id, seq<Id>>, fixed: map<Id, real>, index: map<Id, nat>)
    returns (es: seq<Entry>, rhs: Vec, n: nat)
    requires forall r :: r in order ==> r in groups && groups[r] != []
    requires AllPlaced(AllRows(order, groups, fixed), index)
    ensures es == RowEntries(AllRows(order, groups, fixed), index) && rhs == Targets(AllRows(order, groups, fixed))
    ensures n == |AllRows(order, groups, fixed)|
  {
    es, rhs, n := [], [], 0;
    ghost var all, rows: seq<SolveRow> := AllRows(order, groups, fixed), [];
    for g := 0 to |order|
      invariant rows == AllRows(order[..g], groups, fixed) && rows <= all
      invariant AllPlaced(rows, index) && es == RowEntries(rows, index) && rhs == Targets(rows) && n == |rows|
    {
      hide AllRows;
      var r := order[g];
      AllRowsNext(order, groups, fixed, g);
      es, rhs, n := WriteGroup(groups[r], fixed, r, index, es, rhs, rows);
      rows := rows + GroupRows(groups[r], fixed, r);
    }
    assert order[..|order|] == order;
  }

  lemma {:induction false} AllRowsPrefix(order: seq<Id>, groups: map<Id, seq<Id>>, fixed: map<Id, real>, g: nat)
    requires (forall r :: r in order ==> r in groups && groups[r] != []) && g <= |order|
    ensures AllRows(order[..g], groups, fixed) <= AllRows(order, groups, fixed)
    decreases |order| - g
  {
    if g < |order| {
      AllRowsPrefix(order, groups, fixed, g + 1);
      assert order[..g + 1][..g] == order[..g];
    } else {
      assert order[..g] == order;
    }
  }

  lemma {:induction false} AllRowsNext(order: seq<Id>, groups: map<Id, seq<Id>>, fixed: map<Id, real>, g: nat)
    requires (forall r :: r in order ==> r in groups && groups[r] != []) && g < |order|
    ensures AllRows(order[..g + 1], groups, fixed)
      == AllRows(order[..g], groups, fixed) + GroupRows(groups[order[g]], fixed, order[g]) <= AllRows(order, groups, fixed)
  {
    assert order[..g + 1][..g] == order[..g];
    AllRowsPrefix(order, groups, fixed, g + 1);
  }

  lemma {:induction false} RowEntriesNext(rows: seq<SolveRow>, row: SolveRow, index: map<Id, nat>)
    requires AllPlaced(rows, index) && row.Placed(index)
    ensures AllPlaced(rows + [row], index)
    ensures RowEntries(rows + [row], index) == RowEntries(rows, index) + row.Written(|rows|, index)
    ensures Targets(rows + [row]) == Targets(rows) + [row.Rhs()]
  {
    assert (rows + [row])[..|rows|] == rows;
  }

  method WriteGroup(
    members: seq<Id>, fixed: map<Id, real>, r: Id, index: map<Id, nat>, es: seq<Entry>, rhs: Vec, ghost rows: seq<SolveRow>)
    returns (es': seq<Entry>, rhs': Vec, n: nat)
    requires members != [] && AllPlaced(rows + GroupRows(members, fixed, r), index) && AllPlaced(rows, index)
    requires es == RowEntries(rows, index) && rhs == Targets(rows)
    ensures var all := rows + GroupRows(members, fixed, r);
      es' == RowEntries(all, index) && rhs' == Targets(all) && n == |all|
  {
    hide RowEntries, Targets;
    es', rhs', n := es, rhs, |rhs|;
    var anchor := members[0];
    ghost var full := rows + GroupRows(members, fixed, r);
    assert rows + Ties(anchor, members[1..1]) == rows;
    for k := 1 to |members|
      invariant AllPlaced(rows + Ties(anchor, members[1..k]), index)
      invariant es' == RowEntries(rows + Ties(anchor, members[1..k]), index)
      invariant rhs' == Targets(rows + Ties(anchor, members[1..k])) && n == |rows| + k - 1
    {
      assert full[n] == Tie(anchor, members[k]);
      RowEntriesNext(rows + Ties(anchor, members[1..k]), Tie(anchor, members[k]), index);
      assert rows + Ties(anchor, members[1..k + 1]) == rows + Ties(anchor, members[1..k]) + [Tie(anchor, members[k])];
      es' := es' + [Entry(n, index[anchor], 1.0), Entry(n, index[members[k]], -1.0)];
      rhs', n := rhs' + [0.0], n + 1;
    }
    assert members[1..|members|] == members[1..];
    if r in fixed {
      assert full[n] == Pin(anchor, fixed[r]);
      RowEntriesNext(rows + Ties(anchor, members[1..]), Pin(anchor, fixed[r]), index);
      assert full == rows + Ties(anchor, members[1..]) + [Pin(anchor, fixed[r])];
      es' := es' + [Entry(n, index[anchor], 1.0)];
      rhs', n := rhs' + [fixed[r]], n + 1;
    } else {
      assert full == rows + Ties(anchor, members[1..]);
    }
  }

  // ----- the whole -----

  /** The compiled system means what the rows mean, for every vector. */
  ghost predicate SameMeaning(c: Compiled, rows: seq<ConstraintRow>)
    requires c.matrix.Valid() && c.certificate.Valid()
  {
    forall x: Vec :: |x| == |c.ids| ==> SameAt(c, rows, x)
  }

  /** Both systems agree with the rows about this vector. */
  ghost predicate SameAt(c: Compiled, rows: seq<ConstraintRow>, x: Vec)
    requires c.matrix.Valid() && c.certificate.Valid()
  {
    && (Times(c.matrix.Stored(), c.matrix.rows, x) == c.rhs <==> RowsHold(rows, IndexOf(c.ids), x))
    && (Times(c.certificate.Stored(), c.certificate.rows, x) == c.certificateRhs <==> RowsHold(rows, IndexOf(c.ids), x))
  }

  /** Every nonzero column belongs to a coordinate that some original row mentions. */
  ghost predicate ColumnsSupported(c: Compiled)
    requires c.matrix.Valid() && c.matrix.cols == |c.ids|
  {
    forall r: nat, j: nat :: r < c.matrix.rows && j < |c.ids| && Value(c.matrix.Stored(), r, j) != 0.0 ==> InSupport(c.supports, c.ids[j])
  }

  ghost predicate Shaped(c: Compiled) {
    && DistinctIds(c.ids)
    && c.matrix.Valid() && c.matrix.cols == |c.ids| && c.matrix.rows == |c.rhs|
    && c.certificate.Valid() && c.certificate.cols == |c.ids| && c.certificate.rows == |c.certificateRhs|
  }

  ghost predicate Faithful(c: Compiled, rows: seq<ConstraintRow>) {
    && Shaped(c) && SupportsOf(c.supports, rows) && SameMeaning(c, rows)
    && Independent(c.matrix.Stored(), c.matrix.rows, c.matrix.cols) && ColumnsSupported(c) && CertifiesRows(c, rows)
  }

  /** Row `k` of the certificate matrix is the original row, for every vector. */
  ghost predicate CertifiesRows(c: Compiled, rows: seq<ConstraintRow>)
    requires c.certificate.Valid()
  {
    && c.certificate.rows == |rows| && c.certificateRhs == RhsOf(rows)
    && (forall k :: 0 <= k < |rows| ==> Known(rows[k].terms, IndexOf(c.ids)))
    && forall x: Vec, k: nat :: |x| == |c.ids| && k < |rows| ==> CertifiesRow(c, rows[k], x, k)
  }

  ghost predicate CertifiesRow(c: Compiled, row: ConstraintRow, x: Vec, k: nat)
    requires c.certificate.Valid() && Known(row.terms, IndexOf(c.ids))
  {
    RowDot(c.certificate.Stored(), k, x) == Along(row.terms, IndexOf(c.ids), x)
  }

  lemma {:induction false} SystemMeans(m: Csr, solveRows: seq<SolveRow>, index: map<Id, nat>, x: Vec)
    requires AllPlaced(solveRows, index) && m.Valid() && m.rows == |solveRows| && m.cols == |x|
    requires SameMatrix(m.Stored(), RowEntries(solveRows, index), m.rows, m.cols)
    ensures Times(m.Stored(), m.rows, x) == Targets(solveRows)
      <==> SystemHolds(solveRows, index, x)
  {
    hide RowDot, Csr.Valid, SolveRow.Holds, SolveRow.Rhs;
    var product := Times(m.Stored(), m.rows, x);
    forall k | 0 <= k < |solveRows| ensures product[k] == solveRows[k].Rhs() <==> solveRows[k].Holds(index, x) {
      SameRowDot(m.Stored(), RowEntries(solveRows, index), m.rows, x, k);
      RowEntriesMean(solveRows, index, k, 0, x);
    }
    assert product == Targets(solveRows) <==> forall k :: 0 <= k < |solveRows| ==> product[k] == Targets(solveRows)[k];
  }

  lemma {:induction false} CertificateSystemMeans(m: Csr, rows: seq<ConstraintRow>, index: map<Id, nat>, x: Vec)
    requires m.Valid() && m.rows == |rows| && m.cols == |x| && forall id :: id in index ==> index[id] < |x|
    requires forall k :: 0 <= k < |rows| ==> Known(rows[k].terms, index)
    requires SameMatrix(m.Stored(), CertificateEntries(rows, index), m.rows, m.cols)
    ensures Times(m.Stored(), m.rows, x) == RhsOf(rows) <==> RowsHold(rows, index, x)
  {
    hide RowDot, Csr.Valid, Along;
    var product := Times(m.Stored(), m.rows, x);
    forall k | 0 <= k < |rows| ensures product[k] == Along(rows[k].terms, index, x) {
      SameRowDot(m.Stored(), CertificateEntries(rows, index), m.rows, x, k);
      CertificateMeans(rows, index, k, |x|, x);
    }
    assert product == RhsOf(rows) <==> forall k :: 0 <= k < |rows| ==> product[k] == RhsOf(rows)[k];
  }

  /** The compiled rows seen as a list of `SolveRow`s. */
  ghost predicate WrittenAs(c: Compiled, rows: seq<ConstraintRow>, solveRows: seq<SolveRow>) {
    && Shaped(c) && SupportsOf(c.supports, rows) && AllPlaced(solveRows, IndexOf(c.ids)) && Echelon(solveRows)
    && (forall k :: 0 <= k < |rows| ==> Known(rows[k].terms, IndexOf(c.ids)))
    && c.rhs == Targets(solveRows) && c.certificateRhs == RhsOf(rows)
    && SameMatrix(c.matrix.Stored(), RowEntries(solveRows, IndexOf(c.ids)), c.matrix.rows, c.matrix.cols)
    && SameMatrix(c.certificate.Stored(), CertificateEntries(rows, IndexOf(c.ids)), c.certificate.rows, c.certificate.cols)
  }

  lemma {:induction false} WrittenMeaning(c: Compiled, rows: seq<ConstraintRow>, solveRows: seq<SolveRow>)
    requires WrittenAs(c, rows, solveRows)
    requires forall x: Vec :: SystemHolds(solveRows, IndexOf(c.ids), x) <==> RowsHold(rows, IndexOf(c.ids), x)
    ensures SameMeaning(c, rows)
  {
    hide RowsHold, SystemHolds, WrittenAs, Shaped, SameAt, Csr.Valid;
    WrittenShape(c, rows, solveRows);
    forall x: Vec | |x| == |c.ids| ensures SameAt(c, rows, x) {
      WrittenAt(c, rows, solveRows, x);
    }
  }

  lemma {:induction false} WrittenAt(c: Compiled, rows: seq<ConstraintRow>, solveRows: seq<SolveRow>, x: Vec)
    requires WrittenAs(c, rows, solveRows) && |x| == |c.ids|
    requires SystemHolds(solveRows, IndexOf(c.ids), x) <==> RowsHold(rows, IndexOf(c.ids), x)
    ensures c.matrix.Valid() && c.certificate.Valid() && SameAt(c, rows, x)
  {
    hide RowsHold, SystemHolds, WrittenAs, Csr.Valid;
    WrittenShape(c, rows, solveRows);
    WrittenSystem(c, rows, solveRows, x);
    WrittenCertificate(c, rows, solveRows, x);
  }

  lemma {:induction false} WrittenShape(c: Compiled, rows: seq<ConstraintRow>, solveRows: seq<SolveRow>)
    requires WrittenAs(c, rows, solveRows)
    ensures Shaped(c) && c.matrix.Valid() && c.certificate.Valid() && AllPlaced(solveRows, IndexOf(c.ids))
  {
  }

  /** The solve matrix of written rows, for one vector. */
  lemma {:induction false} WrittenSystem(c: Compiled, rows: seq<ConstraintRow>, solveRows: seq<SolveRow>, x: Vec)
    requires WrittenAs(c, rows, solveRows) && |x| == |c.ids|
    ensures Times(c.matrix.Stored(), c.matrix.rows, x) == c.rhs <==> SystemHolds(solveRows, IndexOf(c.ids), x)
  {
    hide Csr.Valid, SameMatrix, SystemHolds, Echelon, SupportsOf, AllPlaced;
    SystemMeans(c.matrix, solveRows, IndexOf(c.ids), x);
  }

  /** The certificate matrix of written rows, for one vector. */
  lemma {:induction false} WrittenCertificate(c: Compiled, rows: seq<ConstraintRow>, solveRows: seq<SolveRow>, x: Vec)
    requires WrittenAs(c, rows, solveRows) && |x| == |c.ids|
    ensures Times(c.certificate.Stored(), c.certificate.rows, x) == c.certificateRhs <==> RowsHold(rows, IndexOf(c.ids), x)
  {
    hide Csr.Valid, SameMatrix, RowsHold, Echelon, SupportsOf, AllPlaced;
    CertificateSystemMeans(c.certificate, rows, IndexOf(c.ids), x);
  }

  lemma {:induction false} WrittenCertifies(c: Compiled, rows: seq<ConstraintRow>, solveRows: seq<SolveRow>)
    requires WrittenAs(c, rows, solveRows)
    ensures c.certificate.Valid() && CertifiesRows(c, rows)
  {
    hide Csr.Valid, SameMatrix, RowDot, Along, Echelon, SupportsOf, AllPlaced;
    forall x: Vec, k: nat | |x| == |c.ids| && k < |rows| ensures CertifiesRow(c, rows[k], x, k) {
      SameRowDot(c.certificate.Stored(), CertificateEntries(rows, IndexOf(c.ids)), c.certificate.rows, x, k);
      CertificateMeans(rows, IndexOf(c.ids), k, |c.ids|, x);
    }
  }

  lemma {:induction false} WrittenIndependent(c: Compiled, rows: seq<ConstraintRow>, solveRows: seq<SolveRow>)
    requires WrittenAs(c, rows, solveRows)
    ensures Independent(c.matrix.Stored(), c.matrix.rows, c.matrix.cols)
  {
    hide Csr.Valid, Independent, SameMatrix;
    IndexInjective(c.ids);
    EchelonIsIndependent(solveRows, IndexOf(c.ids), |c.ids|);
    SameIndependent(c.matrix.Stored(), RowEntries(solveRows, IndexOf(c.ids)), c.matrix.rows, c.matrix.cols);
  }

  lemma {:induction false} WrittenSupported(c: Compiled, rows: seq<ConstraintRow>, solveRows: seq<SolveRow>)
    requires WrittenAs(c, rows, solveRows)
    requires forall k, id :: 0 <= k < |solveRows| && solveRows[k].Uses(id) ==> InSupport(c.supports, id)
    ensures ColumnsSupported(c)
  {
    hide Csr.Valid, InSupport, SupportsOf, Echelon;
    var index := IndexOf(c.ids);
    forall r: nat, j: nat | r < c.matrix.rows && j < |c.ids| && Value(c.matrix.Stored(), r, j) != 0.0
      ensures InSupport(c.supports, c.ids[j])
    {
      RowEntriesMean(solveRows, index, r, j, []);
      assert solveRows[r].Coefficient(index, j) != 0.0;
      assert c.ids[j] in index;
      assert solveRows[r].Uses(c.ids[j]);
    }
  }

  /** Coordinates of classified rows are in the supports. */
  lemma {:induction false} KindsSupported(rows: seq<ConstraintRow>, index: map<Id, nat>, kinds: seq<Kind>, supports: seq<Support>)
    requires Read(rows, index, kinds) && SupportsOf(supports, rows)
    ensures forall v :: Mentioned(kinds, v) ==> InSupport(supports, v)
    ensures forall k :: 0 <= k < |kinds| && kinds[k].Fix? ==> InSupport(supports, kinds[k].id)
  {
    forall k | 0 <= k < |rows|
      ensures match kinds[k] case Fix(id, _) => id in supports[k].ids case Equality(l, r) => l in supports[k].ids && r in supports[k].ids
    {
      ClassifiedIds(rows[k]);
    }
  }

  // ----- which problems are compiled -----

  /** One coordinate is fixed to 0 or 1, or two coordinates are set equal. */
  ghost predicate HasForm(row: ConstraintRow) {
    || (|row.terms| == 1 && row.terms[0].coefficient == 1.0 && (row.rhs == 0.0 || row.rhs == 1.0))
    || (|row.terms| == 2 && row.rhs == 0.0
        && ((row.terms[0].coefficient == 1.0 && row.terms[1].coefficient == -1.0)
            || (row.terms[0].coefficient == -1.0 && row.terms[1].coefficient == 1.0)))
  }

  /** The row names coordinates only. */
  ghost predicate NamesKnown(row: ConstraintRow, ids: seq<Id>) {
    forall t <- row.terms :: t.id in ids
  }

  /** A coordinate without a name, or a name given twice. */
  ghost predicate Misnamed(ids: seq<Id>) {
    exists i :: 0 <= i < |ids| && (|ids[i]| == 0 || exists j :: i < j < |ids| && ids[j] == ids[i])
  }

  /** Row `k` is the first that is not supported or names something unknown. */
  ghost predicate FirstBad(rows: seq<ConstraintRow>, ids: seq<Id>, k: nat) {
    && k < |rows| && !(NamesKnown(rows[k], ids) && HasForm(rows[k]))
    && forall j :: 0 <= j < k ==> NamesKnown(rows[j], ids) && HasForm(rows[j])
  }

  ghost predicate AllGood(rows: seq<ConstraintRow>, ids: seq<Id>) {
    forall k :: 0 <= k < |rows| ==> NamesKnown(rows[k], ids) && HasForm(rows[k])
  }

  lemma {:induction false} HasFormIff(row: ConstraintRow)
    ensures Classify(row).Done? <==> HasForm(row)
  {
  }

  lemma {:induction false} KnownIff(row: ConstraintRow, ids: seq<Id>)
    ensures Known(row.terms, IndexOf(ids)) <==> NamesKnown(row, ids)
  {
  }

  lemma {:induction false} MisnamedIff(ids: seq<Id>)
    ensures BadIds(ids) <==> Misnamed(ids)
  {
  }

  /** The error of reading the rows is that of the first bad one. */
  lemma {:induction false} RowErrorMeans(rows: seq<ConstraintRow>, ids: seq<Id>)
    ensures var e := RowError(rows, IndexOf(ids));
      && (e.None? <==> AllGood(rows, ids))
      && (e == Some(UnknownCoordinate) <==> exists k: nat :: FirstBad(rows, ids, k) && !NamesKnown(rows[k], ids))
      && (e == Some(Unsupported) <==> exists k: nat :: FirstBad(rows, ids, k) && NamesKnown(rows[k], ids))
  {
    hide NamesKnown, HasForm, Known, Classify;
    if rows != [] {
      var n := |rows| - 1;
      RowErrorMeans(rows[..n], ids);
      HasFormIff(rows[n]);
      KnownIff(rows[n], ids);
      FirstBadGrows(rows, ids);
    }
  }

  lemma {:induction false} FirstBadGrows(rows: seq<ConstraintRow>, ids: seq<Id>)
    requires rows != []
    ensures var n := |rows| - 1;
      && (forall k: nat | k < n :: FirstBad(rows, ids, k) <==> FirstBad(rows[..n], ids, k))
      && (FirstBad(rows, ids, n) <==> AllGood(rows[..n], ids) && !(NamesKnown(rows[n], ids) && HasForm(rows[n])))
      && (AllGood(rows, ids) <==> AllGood(rows[..n], ids) && NamesKnown(rows[n], ids) && HasForm(rows[n]))
      && (AllGood(rows[..n], ids) ==> forall k: nat :: !FirstBad(rows[..n], ids, k))
  {
    hide NamesKnown, HasForm;
    var n: nat := |rows| - 1;
    forall k: nat | k < n ensures FirstBad(rows, ids, k) <==> FirstBad(rows[..n], ids, k) {
      assert rows[..n][k] == rows[k];
      assert forall j :: 0 <= j < k ==> rows[..n][j] == rows[j];
    }
    assert forall j :: 0 <= j < n ==> rows[..n][j] == rows[j];
  }

  method Compile(ids: seq<Id>, rows: seq<ConstraintRow>) returns (r: Result<Compiled>)
    ensures r == Refused(InvalidCoordinates) <==> Misnamed(ids)
    ensures r == Refused(UnknownCoordinate) <==>
      !Misnamed(ids) && exists k: nat :: FirstBad(rows, ids, k) && !NamesKnown(rows[k], ids)
    ensures r == Refused(Unsupported) <==>
      !Misnamed(ids) && exists k: nat :: FirstBad(rows, ids, k) && NamesKnown(rows[k], ids)
    ensures r == Refused(Contradictory) <==> !Misnamed(ids) && AllGood(rows, ids) && !Satisfiable(rows, ids)
    ensures r == Refused(InvalidCoordinates) <==> BadIds(ids)
    ensures !BadIds(ids) && RowError(rows, IndexOf(ids)).Some? ==> r == Refused(RowError(rows, IndexOf(ids)).value)
    ensures !BadIds(ids) && RowError(rows, IndexOf(ids)).None? ==>
      if Satisfiable(rows, ids) then r.Done? && r.value.ids == ids && Faithful(r.value, rows) else r == Refused(Contradictory)
  {
    MisnamedIff(ids);
    RowErrorMeans(rows, ids);
    hide RowError, Satisfiable, Faithful, Misnamed, FirstBad, AllGood, NamesKnown;
    if BadIds(ids) {
      return Refused(InvalidCoordinates);
    }
    var read := ReadRows(rows, IndexOf(ids));
    RowErrorKinds(rows, IndexOf(ids));
    if read.Refused? {
      return Refused(read.error);
    }
    r := CompileRead(ids, rows, read.value);
  }

  /** The phases after reading. */
  method CompileRead(ids: seq<Id>, rows: seq<ConstraintRow>, read: ReadOut) returns (r: Result<Compiled>)
    requires DistinctIds(ids) && Read(rows, IndexOf(ids), read.kinds) && SupportsOf(read.supports, rows)
    requires read.entries == CertificateEntries(rows, IndexOf(ids)) && read.rhs == RhsOf(rows)
    ensures if Satisfiable(rows, ids) then r.Done? && r.value.ids == ids && Faithful(r.value, rows) else r == Refused(Contradictory)
  {
    hide Classify, Merged, Pinned, Grouped, RowsHold, AllHold, Faithful, Forest, Satisfiable, Along, SupportsOf;
    var index := IndexOf(ids);
    ReadMeans(rows, index, read.kinds, []);
    var d := MergeClasses(ids, index, read.kinds);
    var fixed := CollectPins(d, read.kinds, index);
    if fixed.None? {
      ContradictionMeans(rows, ids, read.kinds);
      return Refused(Contradictory);
    }
    var order, groups := GroupIds(d, ids);
    PinsSatisfiable(rows, ids, read.kinds, d.root, fixed.value, order, groups);
    var c := Assemble(ids, rows, read, d.root, fixed.value, order, groups);
    return Done(c);
  }

  method Assemble(
    ids: seq<Id>, rows: seq<ConstraintRow>, read: ReadOut, ghost root: map<Id, Id>, fixed: map<Id, real>,
    order: seq<Id>, groups: map<Id, seq<Id>>)
    returns (c: Compiled)
    requires Sorted(ids, IndexOf(ids), read.kinds, root, fixed, order, groups)
    requires Read(rows, IndexOf(ids), read.kinds) && SupportsOf(read.supports, rows)
    requires read.entries == CertificateEntries(rows, IndexOf(ids)) && read.rhs == RhsOf(rows)
    ensures c.ids == ids && Faithful(c, rows)
  {
    hide Merged, Pinned, Grouped, Faithful, SameMatrix, Csr.Valid, AllRows, Echelon, RowSound, SupportsOf, GroupComplete, Classify;
    RowsReady(ids, IndexOf(ids), read.kinds, root, fixed, order, groups);
    var es, rhs, n := WriteRows(order, groups, fixed, IndexOf(ids));
    ShapesFit(ids, rows, AllRows(order, groups, fixed));
    var matrix := FromEntries(n, |ids|, es);
    var certificate := FromEntries(|rows|, |ids|, read.entries);
    c := Compiled(ids, matrix.value, rhs, certificate.value, read.rhs, read.supports);
    CompiledIsFaithful(c, rows, read.kinds, root, fixed, order, groups);
  }

  lemma {:induction false} RowErrorKinds(rows: seq<ConstraintRow>, index: map<Id, nat>)
    ensures RowError(rows, index) != Some(InvalidCoordinates) && RowError(rows, index) != Some(Contradictory)
  {
    if rows != [] {
      RowErrorKinds(rows[..|rows| - 1], index);
    }
  }

  lemma {:induction false} ContradictionMeans(rows: seq<ConstraintRow>, ids: seq<Id>, kinds: seq<Kind>)
    requires Read(rows, IndexOf(ids), kinds) && forall x: Vec :: !AllHold(kinds, IndexOf(ids), x)
    ensures !Satisfiable(rows, ids)
  {
    hide AllHold, RowsHold, Read;
    forall x: Vec ensures !RowsHold(rows, IndexOf(ids), x) {
      ReadMeans(rows, IndexOf(ids), kinds, x);
    }
  }

  lemma {:induction false} PinsSatisfiable(
    rows: seq<ConstraintRow>, ids: seq<Id>, kinds: seq<Kind>, root: map<Id, Id>, fixed: map<Id, real>,
    order: seq<Id>, groups: map<Id, seq<Id>>)
    requires Read(rows, IndexOf(ids), kinds) && Sorted(ids, IndexOf(ids), kinds, root, fixed, order, groups)
    ensures Satisfiable(rows, ids)
  {
    hide Merged, Pinned, Grouped, AllHold, RowsHold, Read;
    ClassVectorHolds(ids, root, fixed, kinds, IndexOf(ids));
    ReadMeans(rows, IndexOf(ids), kinds, ClassVector(ids, root, fixed));
  }

  lemma {:induction false} RowsReady(
    ids: seq<Id>, index: map<Id, nat>, kinds: seq<Kind>, root: map<Id, Id>, fixed: map<Id, real>,
    order: seq<Id>, groups: map<Id, seq<Id>>)
    requires Sorted(ids, index, kinds, root, fixed, order, groups)
    ensures forall r :: r in order ==> r in groups && groups[r] != []
    ensures var rows := AllRows(order, groups, fixed);
      && RowsOk(rows, root, fixed, order) && AllPlaced(rows, index)
      && forall r :: r in order ==> GroupComplete(rows, groups[r], fixed, r)
  {
    hide Merged, Pinned, GroupOk, RowsOk, AllPlaced, GroupComplete;
    AllRowsOk(ids, root, fixed, order, groups);
    IndexInjective(ids);
    SoundIsPlaced(AllRows(order, groups, fixed), root, fixed, order, index);
    forall r | r in order ensures GroupComplete(AllRows(order, groups, fixed), groups[r], fixed, r) {
      AllRowsComplete(order, groups, fixed, r);
    }
  }

  lemma {:induction false} ShapesFit(ids: seq<Id>, rows: seq<ConstraintRow>, solveRows: seq<SolveRow>)
    requires AllPlaced(solveRows, IndexOf(ids)) && forall k :: 0 <= k < |rows| ==> Known(rows[k].terms, IndexOf(ids))
    ensures InShape(RowEntries(solveRows, IndexOf(ids)), |solveRows|, |ids|)
    ensures InShape(CertificateEntries(rows, IndexOf(ids)), |rows|, |ids|)
  {
    RowEntriesInShape(solveRows, IndexOf(ids), |ids|);
    CertificateMeans(rows, IndexOf(ids), 0, |ids|, []);
  }

  lemma {:induction false} CompiledIsFaithful(
    c: Compiled, rows: seq<ConstraintRow>, kinds: seq<Kind>, root: map<Id, Id>, fixed: map<Id, real>,
    order: seq<Id>, groups: map<Id, seq<Id>>)
    requires Read(rows, IndexOf(c.ids), kinds) && Sorted(c.ids, IndexOf(c.ids), kinds, root, fixed, order, groups)
    requires forall r :: r in order ==> r in groups && groups[r] != []
    requires WrittenAs(c, rows, AllRows(order, groups, fixed))
    ensures Faithful(c, rows)
  {
    hide CertifiesRows, Csr.Valid, SystemHolds, SameMatrix, Echelon, SupportsOf, SameMeaning, ColumnsSupported, Independent, Merged, Pinned, Grouped, AllHold, RowsHold, Read, RowsOk,
      AllPlaced, GroupComplete, InSupport, SolveRow.Uses, RowSound;
    var index, solveRows := IndexOf(c.ids), AllRows(order, groups, fixed);
    RowsReady(c.ids, index, kinds, root, fixed, order, groups);
    WrittenCertifies(c, rows, solveRows);
    WrittenIndependent(c, rows, solveRows);
    RowsSupported(c, rows, kinds, root, fixed, order, solveRows);
    WrittenSupported(c, rows, solveRows);
    forall x: Vec
      ensures SystemHolds(solveRows, index, x) <==> RowsHold(rows, index, x)
    {
      CompiledMeaning(c.ids, index, kinds, root, fixed, order, groups, solveRows, x);
      ReadMeans(rows, index, kinds, x);
    }
    WrittenMeaning(c, rows, solveRows);
  }

  lemma {:induction false} RowsSupported(
    c: Compiled, rows: seq<ConstraintRow>, kinds: seq<Kind>, root: map<Id, Id>, fixed: map<Id, real>,
    order: seq<Id>, solveRows: seq<SolveRow>)
    requires Read(rows, IndexOf(c.ids), kinds) && SupportsOf(c.supports, rows)
    requires Merged(root, kinds, IndexOf(c.ids)) && Pinned(fixed, root, kinds) && RowsOk(solveRows, root, fixed, order)
    ensures forall k, id :: 0 <= k < |solveRows| && solveRows[k].Uses(id) ==> InSupport(c.supports, id)
  {
    hide Read, SupportsOf, Pinned, InSupport, Idempotent, Closed, Forced, Mentioned, Echelon;
    KindsSupported(rows, IndexOf(c.ids), kinds, c.supports);
    forall k, id | 0 <= k < |solveRows| && solveRows[k].Uses(id) ensures InSupport(c.supports, id) {
      RowInSupport(solveRows[k], root, fixed, kinds, c.supports, id);
    }
  }
}
