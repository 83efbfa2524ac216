/** The path-compressing union-find of the constraint compiler. */
module DisjointSets {
  import opened Common

  /** One node of the forest: its representative is its parent's, a root is its own, and depth falls along links. */
  ghost predicate NodeOk(parent: map<Id, Id>, root: map<Id, Id>, depth: map<Id, nat>, v: Id) {
    && v in parent && v in root && v in depth
    && var p, r := parent[v], root[v];
    && p in parent && p in root && p in depth && root[p] == r
    && r in parent && r in root && r in depth && parent[r] == r && root[r] == r
    && (p == v ==> r == v)
    && (p != v ==> depth[p] < depth[v])
    && (r != v ==> depth[r] < depth[v])
  }

  ghost predicate Forest(parent: map<Id, Id>, root: map<Id, Id>, depth: map<Id, nat>) {
    && parent.Keys == root.Keys == depth.Keys
    && forall v {:trigger NodeOk(parent, root, depth, v)} :: v in parent ==> NodeOk(parent, root, depth, v)
  }

  /** Representatives after joining the classes of `left` and `right`. */
  ghost function Joined(root: map<Id, Id>, left: Id, right: Id): (r: map<Id, Id>)
    requires left in root && right in root
    ensures r.Keys == root.Keys
    ensures forall v :: v in root ==> r[v] == if root[v] == root[right] then root[left] else root[v]
  {
    map v | v in root :: if root[v] == root[right] then root[left] else root[v]
  }

  ghost function Deepened(root: map<Id, Id>, depth: map<Id, nat>, r: Id, shift: nat): (d: map<Id, nat>)
    ensures d.Keys == depth.Keys
    ensures forall v :: v in depth ==> d[v] == if v in root && root[v] == r then depth[v] + shift else depth[v]
  {
    map v | v in depth :: if v in root && root[v] == r then depth[v] + shift else depth[v]
  }

  lemma {:induction false} CompressKeeps(parent: map<Id, Id>, root: map<Id, Id>, depth: map<Id, nat>, v: Id)
    requires Forest(parent, root, depth) && v in parent && parent[v] != v
    ensures v in root && Forest(parent[v := root[v]], root, depth)
  {
    assert NodeOk(parent, root, depth, v);
    var parent' := parent[v := root[v]];
    forall w | w in parent' ensures NodeOk(parent', root, depth, w) {
      assert NodeOk(parent, root, depth, w);
    }
  }

  lemma {:induction false} UnionNode(parent: map<Id, Id>, root: map<Id, Id>, depth: map<Id, nat>, left: Id, right: Id, l: Id, r: Id, w: Id)
    requires parent.Keys == root.Keys == depth.Keys && left in root && right in root
    requires l == root[left] && r == root[right] && l != r
    requires NodeOk(parent, root, depth, l) && NodeOk(parent, root, depth, r) && NodeOk(parent, root, depth, w)
    requires root[l] == l && root[r] == r
    ensures NodeOk(parent[r := l], Joined(root, left, right), Deepened(root, depth, r, depth[l] + 1), w)
  {
  }

  lemma {:induction false} UnionKeeps(parent: map<Id, Id>, root: map<Id, Id>, depth: map<Id, nat>, left: Id, right: Id, l: Id, r: Id)
    requires Forest(parent, root, depth) && left in root && right in root
    requires l == root[left] && r == root[right] && l != r
    ensures l in depth && Forest(parent[r := l], Joined(root, left, right), Deepened(root, depth, r, depth[l] + 1))
  {
    assert NodeOk(parent, root, depth, left) && NodeOk(parent, root, depth, right);
    assert NodeOk(parent, root, depth, l) && NodeOk(parent, root, depth, r);
    var parent', root', depth' := parent[r := l], Joined(root, left, right), Deepened(root, depth, r, depth[l] + 1);
    forall w | w in parent' ensures NodeOk(parent', root', depth', w) {
      assert NodeOk(parent, root, depth, w);
      UnionNode(parent, root, depth, left, right, l, r, w);
    }
  }

  lemma {:induction false} JoinedAlready(root: map<Id, Id>, left: Id, right: Id)
    requires left in root && right in root && root[left] == root[right]
    ensures Joined(root, left, right) == root
  {
  }

  class DisjointSet {
    var parent: map<Id, Id>
    ghost var root: map<Id, Id>
    ghost var depth: map<Id, nat>

    ghost predicate Valid()
      reads this
    {
      Forest(parent, root, depth)
    }

    constructor (values: seq<Id>)
      ensures Valid() && root == map v | v in values :: v
    {
      parent := map v | v in values :: v;
      root := map v | v in values :: v;
      depth := map v | v in values :: 0;
    }

    /** Returns the representative; compression rewrites parent links but no representative. */
    method Find(v: Id) returns (r: Id)
      requires Valid() && v in root
      modifies this`parent
      ensures Valid() && v in parent && r == root[v] == parent[v]
      decreases if v in depth then depth[v] else 0
    {
      assert NodeOk(parent, root, depth, v);
      var p := parent[v];
      if p != v {
        var top := Find(p);
        assert NodeOk(parent, root, depth, v);
        if parent[v] != v {
          CompressKeeps(parent, root, depth, v);
        }
        parent := parent[v := top];
      }
      return parent[v];
    }

    /** Joins two classes under the left representative. */
    method Union(left: Id, right: Id)
      requires Valid() && left in root && right in root
      modifies this
      ensures Valid() && root == Joined(old(root), left, right)
    {
      hide Forest, NodeOk, Joined, Deepened;
      var l := Find(left);
      var r := Find(right);
      if l == r {
        JoinedAlready(root, left, right);
      } else {
        UnionKeeps(parent, root, depth, left, right, l, r);
        ghost var joined, deepened := Joined(root, left, right), Deepened(root, depth, r, depth[l] + 1);
        parent := parent[r := l];
        root, depth := joined, deepened;
      }
    }
  }
}
