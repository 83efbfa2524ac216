/** The bounded closure loop, its validator, and the groups that may be removed. */
module ClosureLoop {
  import opened Common
  import opened Blocks
  import opened Closure

  datatype ClosureError = InvalidBound | DuplicateBlock | UnknownBlock | CapacityExceeded
  datatype ClosureResult = Complete(blocks: seq<Block>) | ClosureFailed(error: ClosureError)

  predicate HoldsRequired(group: seq<Block>) {
    exists b <- group :: b.required
  }

  function RequiredIds(cs: seq<Block>): (s: set<Id>) {
    set k | 0 <= k < |cs| && cs[k].required :: cs[k].id
  }

  lemma {:induction false} RequiredInGroup(cs: seq<Block>, group: seq<Block>)
    requires Distinct(cs) && forall b :: b in group ==> b in cs
    ensures HoldsRequired(group) <==> exists id :: id in RequiredIds(cs) && id in Ids(group)
  {
    if HoldsRequired(group) {
      var b :| b in group && b.required;
      var i, k :| 0 <= i < |group| && group[i] == b && 0 <= k < |cs| && cs[k] == b;
      assert b.id in RequiredIds(cs) && b.id in Ids(group);
    }
    if id :| id in RequiredIds(cs) && id in Ids(group) {
      var i :| 0 <= i < |group| && group[i].id == id;
      var k :| 0 <= k < |cs| && cs[k].required && cs[k].id == id;
      SameBlock(cs, cs[k], group[i]);
      assert group[i] in group;
    }
  }

  function Optional(groups: seq<seq<Block>>): (r: seq<seq<Block>>)
    ensures forall g :: g in r <==> g in groups && !HoldsRequired(g)
  {
    if groups == [] then []
    else
      var last := groups[|groups| - 1];
      Optional(groups[..|groups| - 1]) + if HoldsRequired(last) then [] else [last]
  }

  /** `removable_dependency_groups`: exactly the components without a required block. */
  method RemovableGroups(cs: seq<Block>) returns (r: Option<seq<seq<Block>>>)
    ensures r.Some? <==> Distinct(cs)
    ensures r.Some? ==> forall g :: g in r.value <==> Removable(cs, g)
    ensures r.Some? && r.value == [] ==> forall b :: b in cs ==> Anchored(cs, b.id)
  {
    var groups := DependencyGroups(cs);
    if groups.None? {
      return None;
    }
    r := Some(Optional(groups.value));
    AllHoldRequired(cs, groups.value);
    OptionalAreComponents(cs, groups.value);
  }

  /** A component without a required block. */
  ghost predicate Removable(cs: seq<Block>, group: seq<Block>) {
    GroupOk(cs, group) && !HoldsRequired(group)
  }

  lemma {:induction false} OptionalAreComponents(cs: seq<Block>, groups: seq<seq<Block>>)
    requires Components(cs, groups) && Covering(cs, groups)
    ensures forall g :: g in Optional(groups) <==> Removable(cs, g)
  {
    hide GroupOk, HoldsRequired, Covering, Optional;
    forall g ensures g in Optional(groups) <==> Removable(cs, g) {
      if GroupOk(cs, g) {
        GroupListed(cs, groups, g);
      }
    }
  }

  lemma {:induction false} GroupListed(cs: seq<Block>, groups: seq<seq<Block>>, g: seq<Block>)
    requires Components(cs, groups) && Covering(cs, groups) && GroupOk(cs, g)
    ensures g in groups
  {
    hide Members, Component;
    var i: nat :| i < |cs| && cs[i] == g[0];
    assert Placed(groups, cs[i]);
    var k :| 0 <= k < |groups| && g[0] in groups[k];
    GroupIds(cs, groups[k]);
    assert groups[k] == g;
  }

  lemma {:induction false} AllHoldRequired(cs: seq<Block>, groups: seq<seq<Block>>)
    requires Components(cs, groups) && Covering(cs, groups)
    ensures Optional(groups) == [] ==> forall b :: b in cs ==> Anchored(cs, b.id)
  {
    hide GroupOk, Anchored, HoldsRequired;
    if Optional(groups) == [] {
      forall k | 0 <= k < |groups| ensures HoldsRequired(groups[k]) {
        assert groups[k] in groups && groups[k] !in Optional(groups);
      }
      forall b | b in cs ensures Anchored(cs, b.id) {
        var i: nat :| i < |cs| && cs[i] == b;
        assert Placed(groups, cs[i]);
        var k :| 0 <= k < |groups| && b in groups[k];
        GroupAnchored(cs, groups[k], b);
      }
    }
  }

  /** The block's component holds a required block. */
  ghost predicate Anchored(cs: seq<Block>, id: Id) {
    exists a :: a in cs && a.required && id in Component(cs, a.id)
  }

  lemma {:induction false} GroupAnchored(cs: seq<Block>, group: seq<Block>, b: Block)
    requires GroupOk(cs, group) && b in group
    ensures HoldsRequired(group) ==> Anchored(cs, b.id)
  {
    if HoldsRequired(group) {
      hide GroupOk, Component;
      var a :| a in group && a.required;
      GroupIds(cs, group);
    }
  }

  // ----- the closure loop -----

  /** The chosen ids hold the seed and nothing that is not forced. */
  ghost predicate Between(cs: seq<Block>, seed: set<Id>, chosen: set<Id>) {
    seed <= chosen <= Ids(cs) && forall id :: id in chosen ==> Forced(cs, seed, id)
  }

  lemma {:induction false} TooMany(cs: seq<Block>, seed: set<Id>, chosen: set<Id>, more: Id, bound: nat)
    requires Between(cs, seed, chosen) && more !in chosen && more in Ids(cs) && Forced(cs, seed, more) && |chosen| >= bound
    ensures |ClosureOf(cs, seed)| > bound
  {
    assert chosen + {more} <= ClosureOf(cs, seed);
    SubsetSize(chosen + {more}, ClosureOf(cs, seed));
  }

  lemma {:induction false} SubsetSize(a: set<Id>, b: set<Id>)
    requires a <= b
    ensures |a| <= |b|
  {
    assert b == a + (b - a);
  }

  /** The inner loop: takes every companion of `left`, or stops at the bound. */
  method Touch(cs: seq<Block>, left: Block, chosen: set<Id>, bound: nat, ghost seed: set<Id>) returns (r: set<Id>, ok: bool)
    requires Between(cs, seed, chosen) && left in cs && left.id in chosen && |chosen| <= bound
    ensures ok ==> Between(cs, seed, r) && chosen <= r && |r| <= bound
    ensures ok ==> forall j :: 0 <= j < |cs| && Companions(left, cs[j]) ==> cs[j].id in r
    ensures !ok ==> |ClosureOf(cs, seed)| > bound
  {
    hide Forced;
    r, ok := chosen, true;
    for j := 0 to |cs|
      invariant Between(cs, seed, r) && chosen <= r && |r| <= bound
      invariant forall k :: 0 <= k < j && Companions(left, cs[k]) ==> cs[k].id in r
    {
      var right := cs[j];
      if right.id !in r && Companions(left, right) {
        var i: nat :| i < |cs| && cs[i] == left;
        ForcedStep(cs, seed, i, j);
        assert right.id in Ids(cs);
        if |r| >= bound {
          TooMany(cs, seed, r, right.id, bound);
          return r, false;
        }
        r := r + {right.id};
      }
    }
  }

  /** One pass over the blocks that were active when it began. */
  method Pass(cs: seq<Block>, chosen: set<Id>, bound: nat, ghost seed: set<Id>) returns (r: set<Id>, ok: bool)
    requires Between(cs, seed, chosen) && |chosen| <= bound
    ensures ok ==> Between(cs, seed, r) && chosen <= r && |r| <= bound
    ensures ok && r == chosen ==> Closed(cs, chosen)
    ensures !ok ==> |ClosureOf(cs, seed)| > bound
  {
    hide Between;
    var active := Members(cs, chosen);
    r, ok := chosen, true;
    for k := 0 to |active|
      invariant Between(cs, seed, r) && chosen <= r && |r| <= bound
      invariant forall i, j :: 0 <= i < k && 0 <= j < |cs| && Companions(active[i], cs[j]) ==> cs[j].id in r
    {
      r, ok := Touch(cs, active[k], r, bound, seed);
      if !ok {
        return;
      }
    }
    if r == chosen {
      forall i, j | 0 <= i < |cs| && 0 <= j < |cs| && cs[i].id in chosen && Companions(cs[i], cs[j]) ensures cs[j].id in chosen {
        assert cs[i] in active;
      }
    }
  }

  /** `close_dependency_closure`. */
  method CloseDependencies(selected: seq<Block>, cs: seq<Block>, maxBlocks: int) returns (r: ClosureResult)
    ensures r == ClosureFailed(InvalidBound) <==> maxBlocks < 1
    ensures r == ClosureFailed(DuplicateBlock) <==> maxBlocks >= 1 && !Distinct(cs)
    ensures r == ClosureFailed(UnknownBlock) <==> maxBlocks >= 1 && Distinct(cs) && !(Ids(selected) <= Ids(cs))
    ensures maxBlocks >= 1 && Distinct(cs) && Ids(selected) <= Ids(cs) ==>
      var least := ClosureOf(cs, Ids(selected) + RequiredIds(cs));
      r == if |least| > maxBlocks then ClosureFailed(CapacityExceeded) else Complete(Members(cs, least))
  {
    if maxBlocks < 1 {
      return ClosureFailed(InvalidBound);
    }
    if !Distinct(cs) {
      return ClosureFailed(DuplicateBlock);
    }
    if !(Ids(selected) <= Ids(cs)) {
      return ClosureFailed(UnknownBlock);
    }
    var chosen := Ids(selected) + RequiredIds(cs);
    ghost var seed := chosen;
    assert RequiredIds(cs) <= Ids(cs);
    ClosureIsLeast(cs, seed);
    if |chosen| > maxBlocks {
      SubsetSize(seed, ClosureOf(cs, seed));
      return ClosureFailed(CapacityExceeded);
    }
    hide Ids, RequiredIds;
    var changed := true;
    while changed
      invariant Between(cs, seed, chosen) && |chosen| <= maxBlocks
      invariant changed || Closed(cs, chosen)
      decreases maxBlocks - |chosen|, if changed then 1 else 0
    {
      var next, ok := Pass(cs, chosen, maxBlocks, seed);
      if !ok {
        return ClosureFailed(CapacityExceeded);
      }
      if next != chosen {
        SubsetSize(chosen, next);
        assert |next| > |chosen| by {
          ProperlyMore(chosen, next);
        }
      }
      changed, chosen := next != chosen, next;
    }
    ClosureIs(cs, seed, chosen);
    return Complete(Members(cs, chosen));
  }

  lemma {:induction false} ProperlyMore(a: set<Id>, b: set<Id>)
    requires a <= b && a != b
    ensures |a| < |b|
  {
    assert b == a + (b - a);
  }

  /** The pack holds the required blocks, is closed, within the bound, and in list order. */
  ghost predicate IsOwnClosure(packed: seq<Block>, cs: seq<Block>, maxBlocks: int) {
    && maxBlocks >= 1 && Distinct(cs) && Ids(packed) <= Ids(cs) && RequiredIds(cs) <= Ids(packed)
    && Closed(cs, Ids(packed)) && |Ids(packed)| <= maxBlocks && SameIds(packed, Members(cs, Ids(packed)))
  }

  /** Equality of the id sequences. */
  predicate SameIds(a: seq<Block>, b: seq<Block>) {
    |a| == |b| && forall k :: 0 <= k < |a| ==> a[k].id == b[k].id
  }

  /** `validate_dependency_closure`. */
  method ValidateClosure(packed: seq<Block>, cs: seq<Block>, maxBlocks: int) returns (ok: bool)
    ensures ok <==> IsOwnClosure(packed, cs, maxBlocks)
  {
    var closure := CloseDependencies(packed, cs, maxBlocks);
    if maxBlocks >= 1 && Distinct(cs) && Ids(packed) <= Ids(cs) {
      ValidationMeans(packed, cs, maxBlocks);
    }
    return closure.Complete? && SameIds(packed, closure.blocks);
  }

  lemma {:induction false} ValidationMeans(packed: seq<Block>, cs: seq<Block>, maxBlocks: nat)
    requires maxBlocks >= 1 && Distinct(cs) && Ids(packed) <= Ids(cs)
    ensures var least := ClosureOf(cs, Ids(packed) + RequiredIds(cs));
      |least| <= maxBlocks && SameIds(packed, Members(cs, least)) <==> IsOwnClosure(packed, cs, maxBlocks)
  {
    assert RequiredIds(cs) <= Ids(cs);
    hide Members, Closed, ClosureOf, Ids, RequiredIds, SameIds, Distinct;
    var seed := Ids(packed) + RequiredIds(cs);
    var least := ClosureOf(cs, seed);
    MembersIds(cs, least);
    assert Ids(cs) * least == least;
    ClosureIsLeast(cs, seed);
    if SameIds(packed, Members(cs, least)) {
      SameIdSets(packed, Members(cs, least));
      assert Ids(packed) == least;
    }
    if IsOwnClosure(packed, cs, maxBlocks) {
      assert seed == Ids(packed);
      assert least == Ids(packed);
    }
  }

  lemma {:induction false} SameIdSets(a: seq<Block>, b: seq<Block>)
    requires SameIds(a, b)
    ensures Ids(a) == Ids(b)
  {
  }
}
