/** The specification side of the constraint compiler: classes of coordinates, their pins, and the rows they become. */
module ConstraintMerging {
  import opened Common
  import opened Vectors
  import opened ContextGraph
  import opened Constraints
  import opened DisjointSets

  function At(x: Vec, index: map<Id, nat>, id: Id): (v: real) {
    if id in index then Get(x, index[id]) else 0.0
  }

  ghost predicate Equal(kinds: seq<Kind>, index: map<Id, nat>, x: Vec) {
    forall k :: 0 <= k < |kinds| && kinds[k].Equality? ==> At(x, index, kinds[k].left) == At(x, index, kinds[k].right)
  }

  ghost predicate Mentioned(kinds: seq<Kind>, id: Id) {
    exists k :: 0 <= k < |kinds| && kinds[k].Equality? && (kinds[k].left == id || kinds[k].right == id)
  }

  // ----- classes -----

  /** Representatives stay within the ids and represent themselves. */
  ghost predicate Idempotent(root: map<Id, Id>) {
    forall v :: v in root ==> root[v] in root && root[root[v]] == root[v]
  }

  /** Each equality lies inside one class. */
  ghost predicate Closed(root: map<Id, Id>, kinds: seq<Kind>) {
    forall k :: 0 <= k < |kinds| && kinds[k].Equality? ==>
      kinds[k].left in root && kinds[k].right in root && root[kinds[k].left] == root[kinds[k].right]
  }

  /** The equalities force every coordinate to its representative's value. */
  ghost predicate Forced(root: map<Id, Id>, kinds: seq<Kind>, index: map<Id, nat>) {
    forall x: Vec, v: Id :: Equal(kinds, index, x) && v in root ==> At(x, index, v) == At(x, index, root[v])
  }

  /** Only coordinates of some equality share a class. */
  ghost predicate Supported(root: map<Id, Id>, kinds: seq<Kind>) {
    forall u, v :: u in root && v in root && u != v && root[u] == root[v] ==> Mentioned(kinds, u)
  }

  ghost predicate Merged(root: map<Id, Id>, kinds: seq<Kind>, index: map<Id, nat>) {
    Idempotent(root) && Closed(root, kinds) && Forced(root, kinds, index) && Supported(root, kinds)
  }

  lemma {:induction false} MergedStart(root: map<Id, Id>, index: map<Id, nat>)
    requires forall v :: v in root ==> root[v] == v
    ensures Merged(root, [], index)
  {
  }

  lemma {:induction false} EqualPrefix(kinds: seq<Kind>, k: Kind, index: map<Id, nat>, x: Vec)
    requires Equal(kinds + [k], index, x)
    ensures Equal(kinds, index, x) && (k.Equality? ==> At(x, index, k.left) == At(x, index, k.right))
  {
    assert forall i :: 0 <= i < |kinds| ==> (kinds + [k])[i] == kinds[i];
    assert (kinds + [k])[|kinds|] == k;
  }

  lemma {:induction false} MentionedMore(kinds: seq<Kind>, k: Kind, id: Id)
    requires Mentioned(kinds, id) || (k.Equality? && (k.left == id || k.right == id))
    ensures Mentioned(kinds + [k], id)
  {
    if Mentioned(kinds, id) {
      var i :| 0 <= i < |kinds| && kinds[i].Equality? && (kinds[i].left == id || kinds[i].right == id);
      assert (kinds + [k])[i] == kinds[i];
    } else {
      assert (kinds + [k])[|kinds|] == k;
    }
  }

  lemma {:induction false} MergedFix(root: map<Id, Id>, kinds: seq<Kind>, k: Kind, index: map<Id, nat>)
    requires Merged(root, kinds, index) && k.Fix?
    ensures Merged(root, kinds + [k], index)
  {
    forall x: Vec, v: Id | Equal(kinds + [k], index, x) && v in root ensures At(x, index, v) == At(x, index, root[v]) {
      EqualPrefix(kinds, k, index, x);
    }
    forall u, v | u in root && v in root && u != v && root[u] == root[v] ensures Mentioned(kinds + [k], u) {
      MentionedMore(kinds, k, u);
    }
  }

  lemma {:induction false} ForcedUnion(root: map<Id, Id>, kinds: seq<Kind>, k: Kind, index: map<Id, nat>)
    requires Forced(root, kinds, index) && k.Equality? && k.left in root && k.right in root
    ensures Forced(Joined(root, k.left, k.right), kinds + [k], index)
  {
    var root' := Joined(root, k.left, k.right);
    forall x: Vec, v: Id | Equal(kinds + [k], index, x) && v in root' ensures At(x, index, v) == At(x, index, root'[v]) {
      EqualPrefix(kinds, k, index, x);
      assert At(x, index, v) == At(x, index, root[v]);
      assert At(x, index, k.left) == At(x, index, root[k.left]) && At(x, index, k.right) == At(x, index, root[k.right]);
    }
  }

  lemma {:induction false} SupportedUnion(root: map<Id, Id>, kinds: seq<Kind>, k: Kind)
    requires Supported(root, kinds) && k.Equality? && k.left in root && k.right in root
    ensures Supported(Joined(root, k.left, k.right), kinds + [k])
  {
    var root' := Joined(root, k.left, k.right);
    forall u, v | u in root' && v in root' && u != v && root'[u] == root'[v] ensures Mentioned(kinds + [k], u) {
      if root[u] == root[v] {
        assert Mentioned(kinds, u);
      } else {
        assert u == k.left || u == k.right || Mentioned(kinds, u);
      }
      MentionedMore(kinds, k, u);
    }
  }

  lemma {:induction false} IdempotentUnion(root: map<Id, Id>, left: Id, right: Id)
    requires Idempotent(root) && left in root && right in root
    ensures Idempotent(Joined(root, left, right))
  {
    var root' := Joined(root, left, right);
    forall v | v in root' ensures root'[v] in root' && root'[root'[v]] == root'[v] {
      assert root[root[v]] == root[v] && root[root[left]] == root[left] && root[root[right]] == root[right];
    }
  }

  lemma {:induction false} ClosedUnion(root: map<Id, Id>, kinds: seq<Kind>, k: Kind)
    requires Closed(root, kinds) && k.Equality? && k.left in root && k.right in root
    ensures Closed(Joined(root, k.left, k.right), kinds + [k])
  {
    var root' := Joined(root, k.left, k.right);
    forall i | 0 <= i < |kinds + [k]| && (kinds + [k])[i].Equality?
      ensures var q := (kinds + [k])[i]; q.left in root' && q.right in root' && root'[q.left] == root'[q.right]
    {
      if i < |kinds| {
        assert (kinds + [k])[i] == kinds[i];
      }
    }
  }

  lemma {:induction false} MergedUnion(root: map<Id, Id>, kinds: seq<Kind>, k: Kind, index: map<Id, nat>)
    requires Merged(root, kinds, index) && k.Equality? && k.left in root && k.right in root
    ensures Merged(Joined(root, k.left, k.right), kinds + [k], index)
  {
    hide Idempotent, Closed, Forced, Supported;
    IdempotentUnion(root, k.left, k.right);
    ClosedUnion(root, kinds, k);
    ForcedUnion(root, kinds, k, index);
    SupportedUnion(root, kinds, k);
  }

  // ----- pins -----

  /** Every fix is recorded for its class, and every record is some fix. */
  ghost predicate Pinned(fixed: map<Id, real>, root: map<Id, Id>, kinds: seq<Kind>) {
    && (forall k :: 0 <= k < |kinds| && kinds[k].Fix? ==>
          kinds[k].id in root && root[kinds[k].id] in fixed && fixed[root[kinds[k].id]] == kinds[k].value)
    && (forall r :: r in fixed ==> Witnessed(fixed, root, kinds, r))
  }

  ghost predicate Witnessed(fixed: map<Id, real>, root: map<Id, Id>, kinds: seq<Kind>, r: Id)
    requires r in fixed
  {
    exists k :: 0 <= k < |kinds| && kinds[k].Fix? && kinds[k].id in root && root[kinds[k].id] == r && kinds[k].value == fixed[r]
  }

  lemma {:induction false} PinnedStep(fixed: map<Id, real>, root: map<Id, Id>, kinds: seq<Kind>, k: Kind)
    requires Pinned(fixed, root, kinds) && k.Fix? && k.id in root
    requires root[k.id] in fixed ==> fixed[root[k.id]] == k.value
    ensures Pinned(fixed[root[k.id] := k.value], root, kinds + [k])
  {
    var fixed' := fixed[root[k.id] := k.value];
    forall r | r in fixed' ensures Witnessed(fixed', root, kinds + [k], r) {
      if r == root[k.id] {
        assert (kinds + [k])[|kinds|] == k;
      } else {
        assert Witnessed(fixed, root, kinds, r);
        var i :| 0 <= i < |kinds| && kinds[i].Fix? && kinds[i].id in root && root[kinds[i].id] == r && kinds[i].value == fixed[r];
        assert (kinds + [k])[i] == kinds[i];
      }
    }
  }

  lemma {:induction false} PinnedOther(fixed: map<Id, real>, root: map<Id, Id>, kinds: seq<Kind>, k: Kind)
    requires Pinned(fixed, root, kinds) && k.Equality?
    ensures Pinned(fixed, root, kinds + [k])
  {
    forall r | r in fixed ensures Witnessed(fixed, root, kinds + [k], r) {
      assert Witnessed(fixed, root, kinds, r);
      var i :| 0 <= i < |kinds| && kinds[i].Fix? && kinds[i].id in root && root[kinds[i].id] == r && kinds[i].value == fixed[r];
      assert (kinds + [k])[i] == kinds[i];
    }
  }

  // ----- meaning of the classified rows -----

  ghost predicate AllHold(kinds: seq<Kind>, index: map<Id, nat>, x: Vec) {
    && Equal(kinds, index, x)
    && forall k :: 0 <= k < |kinds| && kinds[k].Fix? ==> At(x, index, kinds[k].id) == kinds[k].value
  }

  /** Two different pins on one class cannot both hold. */
  lemma {:induction false} PinsClash(fixed: map<Id, real>, root: map<Id, Id>, kinds: seq<Kind>, n: nat, index: map<Id, nat>, x: Vec)
    requires Merged(root, kinds, index) && n < |kinds| && Pinned(fixed, root, kinds[..n])
    requires kinds[n].Fix? && kinds[n].id in root && root[kinds[n].id] in fixed && fixed[root[kinds[n].id]] != kinds[n].value
    ensures !AllHold(kinds, index, x)
  {
    var r := root[kinds[n].id];
    assert Witnessed(fixed, root, kinds[..n], r);
    var i :| 0 <= i < n && kinds[..n][i].Fix? && kinds[..n][i].id in root && root[kinds[..n][i].id] == r && kinds[..n][i].value == fixed[r];
    assert kinds[..n][i] == kinds[i];
    if Equal(kinds, index, x) {
      assert At(x, index, kinds[i].id) == At(x, index, r) && At(x, index, kinds[n].id) == At(x, index, r);
    }
  }

  /** The vector that gives each class its pin, or zero. */
  function ClassVector(ids: seq<Id>, root: map<Id, Id>, fixed: map<Id, real>): (x: Vec)
    requires forall i :: 0 <= i < |ids| ==> ids[i] in root
    ensures |x| == |ids|
    ensures forall i :: 0 <= i < |ids| ==> x[i] == if root[ids[i]] in fixed then fixed[root[ids[i]]] else 0.0
  {
    seq(|ids|, i requires 0 <= i < |ids| => if root[ids[i]] in fixed then fixed[root[ids[i]]] else 0.0)
  }

  /** Once all pins agree, some vector satisfies every row. */
  lemma {:induction false} ClassVectorHolds(ids: seq<Id>, root: map<Id, Id>, fixed: map<Id, real>, kinds: seq<Kind>, index: map<Id, nat>)
    requires index == IndexOf(ids) && (forall v :: v in root <==> v in index)
    requires Merged(root, kinds, index) && Pinned(fixed, root, kinds)
    ensures AllHold(kinds, index, ClassVector(ids, root, fixed))
  {
    hide Forced, Supported, Idempotent;
    var x := ClassVector(ids, root, fixed);
    assert forall v :: v in root ==> At(x, index, v) == if root[v] in fixed then fixed[root[v]] else 0.0;
  }

  // ----- groups -----

  /** The ids sorted into their classes: `order` lists the representatives, `groups` the members of each. */
  ghost predicate Grouped(ids: seq<Id>, root: map<Id, Id>, order: seq<Id>, groups: map<Id, seq<Id>>) {
    && (forall v :: v in ids ==> v in root && root[v] in order)
    && (forall i, j :: 0 <= i < j < |order| ==> order[i] != order[j])
    && (forall r :: r in order <==> r in groups)
    && (forall r :: r in groups ==> GroupOk(ids, root, groups[r], r))
  }

  ghost predicate GroupOk(ids: seq<Id>, root: map<Id, Id>, members: seq<Id>, r: Id) {
    && members != [] && DistinctIds(members)
    && (forall v :: v in members <==> v in ids && v in root && root[v] == r)
  }

  lemma {:induction false} GroupGrows(ids: seq<Id>, root: map<Id, Id>, members: seq<Id>, r: Id, id: Id)
    requires members == [] ==> forall v :: v in ids && v in root ==> root[v] != r
    requires members != [] ==> GroupOk(ids, root, members, r)
    requires id in root && root[id] == r && id !in ids
    ensures GroupOk(ids + [id], root, members + [id], r)
  {
  }

  lemma {:induction false} GroupStays(ids: seq<Id>, root: map<Id, Id>, members: seq<Id>, r: Id, id: Id)
    requires GroupOk(ids, root, members, r) && id in root && root[id] != r
    ensures GroupOk(ids + [id], root, members, r)
  {
  }

  lemma {:induction false} GroupedStep(ids: seq<Id>, root: map<Id, Id>, order: seq<Id>, groups: map<Id, seq<Id>>, id: Id)
    requires Grouped(ids, root, order, groups) && id in root && id !in ids
    ensures var r := root[id];
      Grouped(ids + [id], root, if r in groups then order else order + [r],
              groups[r := (if r in groups then groups[r] else []) + [id]])
  {
    hide GroupOk;
    var r := root[id];
    var members := if r in groups then groups[r] else [];
    var order', groups' := if r in groups then order else order + [r], groups[r := members + [id]];
    forall s | s in groups' ensures GroupOk(ids + [id], root, groups'[s], s) {
      if s == r {
        GroupNonEmpty(ids, root, groups, r);
        GroupGrows(ids, root, members, r, id);
      } else {
        GroupStays(ids, root, groups[s], s, id);
      }
    }
  }

  lemma {:induction false} GroupNonEmpty(ids: seq<Id>, root: map<Id, Id>, groups: map<Id, seq<Id>>, r: Id)
    ensures r in groups && GroupOk(ids, root, groups[r], r) ==> groups[r] != []
  {
  }

  // ----- the rows of the groups -----

  function Ties(anchor: Id, members: seq<Id>): (rows: seq<SolveRow>)
    ensures |rows| == |members| && forall k :: 0 <= k < |members| ==> rows[k] == Tie(anchor, members[k])
  {
    seq(|members|, k requires 0 <= k < |members| => Tie(anchor, members[k]))
  }

  function GroupRows(members: seq<Id>, fixed: map<Id, real>, r: Id): (rows: seq<SolveRow>)
    requires members != []
  {
    Ties(members[0], members[1..]) + if r in fixed then [Pin(members[0], fixed[r])] else []
  }

  function AllRows(order: seq<Id>, groups: map<Id, seq<Id>>, fixed: map<Id, real>): (rows: seq<SolveRow>)
    requires forall r :: r in order ==> r in groups && groups[r] != []
  {
    if order == [] then []
    else
      var r := order[|order| - 1];
      AllRows(order[..|order| - 1], groups, fixed) + GroupRows(groups[r], fixed, r)
  }

  /** A row speaks of one class only, and says what the classes and pins say. */
  ghost predicate RowSound(row: SolveRow, root: map<Id, Id>, fixed: map<Id, real>) {
    match row
    case Tie(a, m) => a in root && m in root && a != m && root[a] == root[m]
    case Pin(a, v) => a in root && root[a] in fixed && v == fixed[root[a]]
  }

  lemma {:induction false} GroupRowsSound(ids: seq<Id>, root: map<Id, Id>, fixed: map<Id, real>, members: seq<Id>, r: Id)
    requires GroupOk(ids, root, members, r)
    ensures forall k :: 0 <= k < |GroupRows(members, fixed, r)| ==>
      RowSound(GroupRows(members, fixed, r)[k], root, fixed) && root[GroupRows(members, fixed, r)[k].anchor] == r
    ensures Echelon(GroupRows(members, fixed, r))
  {
    assert forall i :: 0 <= i < |members| ==> members[i] in members;
  }

  lemma {:induction false} EchelonConcat(a: seq<SolveRow>, b: seq<SolveRow>)
    requires Echelon(a) && Echelon(b)
    requires forall i, j :: 0 <= i < |a| && 0 <= j < |b| ==> !b[j].Uses(a[i].Pivot())
    ensures Echelon(a + b)
  {
  }

  /** All rows are sound, stay inside the classes listed, and are in echelon form. */
  ghost predicate RowsOk(rows: seq<SolveRow>, root: map<Id, Id>, fixed: map<Id, real>, order: seq<Id>) {
    && Echelon(rows)
    && forall k :: 0 <= k < |rows| ==> RowSound(rows[k], root, fixed) && root[rows[k].anchor] in order
  }

  lemma {:induction false} RowsOkConcat(
    a: seq<SolveRow>, b: seq<SolveRow>, root: map<Id, Id>, fixed: map<Id, real>, order: seq<Id>, r: Id)
    requires RowsOk(a, root, fixed, order) && Echelon(b) && r !in order
    requires forall k :: 0 <= k < |b| ==> RowSound(b[k], root, fixed) && root[b[k].anchor] == r
    ensures RowsOk(a + b, root, fixed, order + [r])
  {
    forall i, j | 0 <= i < |a| && 0 <= j < |b| ensures !b[j].Uses(a[i].Pivot()) {
      assert root[a[i].Pivot()] in order;
    }
    EchelonConcat(a, b);
  }

  lemma {:induction false} AllRowsOk(
    ids: seq<Id>, root: map<Id, Id>, fixed: map<Id, real>, order: seq<Id>, groups: map<Id, seq<Id>>)
    requires forall r :: r in order ==> r in groups && GroupOk(ids, root, groups[r], r)
    requires forall i, j :: 0 <= i < j < |order| ==> order[i] != order[j]
    ensures (forall r :: r in order ==> groups[r] != []) && RowsOk(AllRows(order, groups, fixed), root, fixed, order)
  {
    if order != [] {
      hide GroupOk, RowsOk, RowSound, Echelon;
      var n := |order| - 1;
      var r := order[n];
      AllRowsOk(ids, root, fixed, order[..n], groups);
      GroupNonEmpty(ids, root, groups, r);
      GroupRowsSound(ids, root, fixed, groups[r], r);
      RowsOkConcat(AllRows(order[..n], groups, fixed), GroupRows(groups[r], fixed, r), root, fixed, order[..n], r);
      assert order == order[..n] + [r];
    }
  }

  /** Every member is tied to its anchor, and every pinned class has its anchor pinned. */
  ghost predicate GroupComplete(rows: seq<SolveRow>, members: seq<Id>, fixed: map<Id, real>, r: Id)
    requires members != []
  {
    && (forall k :: 0 < k < |members| ==> Tie(members[0], members[k]) in rows)
    && (r in fixed ==> Pin(members[0], fixed[r]) in rows)
  }

  lemma {:induction false} GroupRowsComplete(members: seq<Id>, fixed: map<Id, real>, r: Id)
    requires members != []
    ensures GroupComplete(GroupRows(members, fixed, r), members, fixed, r)
  {
    var rows := GroupRows(members, fixed, r);
    forall k | 0 < k < |members| ensures Tie(members[0], members[k]) in rows {
      assert rows[k - 1] == Tie(members[0], members[k]);
    }
  }

  lemma {:induction false} AllRowsComplete(order: seq<Id>, groups: map<Id, seq<Id>>, fixed: map<Id, real>, r: Id)
    requires (forall s :: s in order ==> s in groups && groups[s] != []) && r in order
    ensures GroupComplete(AllRows(order, groups, fixed), groups[r], fixed, r)
  {
    var n := |order| - 1;
    if r == order[n] {
      GroupRowsComplete(groups[r], fixed, r);
    } else {
      assert r in order[..n];
      AllRowsComplete(order[..n], groups, fixed, r);
    }
  }
}
