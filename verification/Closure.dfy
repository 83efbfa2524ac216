/** Dependency companions: connected components and least closed supersets. */
module Closure {
  import opened Common
  import opened Blocks

  predicate SharesSource(a: Block, b: Block) {
    exists e <- a.sources :: e in b.sources
  }

  /** `_companions`. */
  predicate Companions(a: Block, b: Block) {
    && (a.kind.DependencyKind? || b.kind.DependencyKind?)
    && ((a.capsule.Some? && a.capsule == b.capsule) || SharesSource(a, b))
  }

  /** Some source of `a` is one of `b`. */
  ghost predicate Cites(a: Block, b: Block) {
    exists k, l :: 0 <= k < |a.sources| && 0 <= l < |b.sources| && a.sources[k] == b.sources[l]
  }

  /** One of them is a dependency, and they come from one capsule or cite one event. */
  ghost predicate Tied(a: Block, b: Block) {
    && (a.kind == DependencyKind || b.kind == DependencyKind)
    && ((a.capsule != None && b.capsule == a.capsule) || Cites(a, b))
  }

  lemma {:induction false} CompanionsMean(a: Block, b: Block)
    ensures Companions(a, b) <==> Tied(a, b)
  {
    if SharesSource(a, b) {
      var e :| e in a.sources && e in b.sources;
      var k, l :| 0 <= k < |a.sources| && 0 <= l < |b.sources| && a.sources[k] == e && b.sources[l] == e;
      assert Cites(a, b);
    }
    if Cites(a, b) {
      var k, l :| 0 <= k < |a.sources| && 0 <= l < |b.sources| && a.sources[k] == b.sources[l];
      assert a.sources[k] in a.sources && a.sources[k] in b.sources;
    }
  }

  lemma {:induction false} CompanionsSymmetric(a: Block, b: Block)
    ensures Companions(a, b) <==> Companions(b, a)
  {
    if SharesSource(a, b) {
      var e :| e in a.sources && e in b.sources;
      assert SharesSource(b, a);
    }
    if SharesSource(b, a) {
      var e :| e in b.sources && e in a.sources;
      assert SharesSource(a, b);
    }
  }

  // ----- closed sets -----

  ghost predicate Closed(cs: seq<Block>, s: set<Id>) {
    forall i, j :: 0 <= i < |cs| && 0 <= j < |cs| && cs[i].id in s && Companions(cs[i], cs[j]) ==> cs[j].id in s
  }

  /** Every closed set that holds the seed holds `id`. */
  ghost predicate Forced(cs: seq<Block>, seed: set<Id>, id: Id) {
    forall t: set<Id> :: Closed(cs, t) && seed <= t ==> id in t
  }

  /** The least closed set over the seed. */
  ghost function ClosureOf(cs: seq<Block>, seed: set<Id>): (s: set<Id>)
    ensures s <= Ids(cs)
  {
    set id | id in Ids(cs) && Forced(cs, seed, id)
  }

  ghost function Component(cs: seq<Block>, id: Id): (s: set<Id>) {
    ClosureOf(cs, {id})
  }

  /** It holds the seed, is closed, and lies inside every closed superset. */
  lemma {:induction false} ClosureIsLeast(cs: seq<Block>, seed: set<Id>)
    requires seed <= Ids(cs)
    ensures seed <= ClosureOf(cs, seed) && Closed(cs, ClosureOf(cs, seed))
    ensures forall t: set<Id> :: Closed(cs, t) && seed <= t ==> ClosureOf(cs, seed) <= t
  {
    var s := ClosureOf(cs, seed);
    forall i, j | 0 <= i < |cs| && 0 <= j < |cs| && cs[i].id in s && Companions(cs[i], cs[j]) ensures cs[j].id in s {
      forall t: set<Id> | Closed(cs, t) && seed <= t ensures cs[j].id in t {
        assert cs[i].id in t;
      }
    }
  }

  /** A closed superset that every closed superset contains is the closure. */
  lemma {:induction false} ClosureIs(cs: seq<Block>, seed: set<Id>, s: set<Id>)
    requires seed <= s <= Ids(cs) && Closed(cs, s) && forall id :: id in s ==> Forced(cs, seed, id)
    ensures ClosureOf(cs, seed) == s
  {
    forall id | id in ClosureOf(cs, seed) ensures id in s {
      assert Forced(cs, seed, id);
    }
  }

  lemma {:induction false} ComplementClosed(cs: seq<Block>, s: set<Id>)
    requires Closed(cs, s)
    ensures Closed(cs, Ids(cs) - s)
  {
    forall i, j | 0 <= i < |cs| && 0 <= j < |cs| && cs[i].id in Ids(cs) - s && Companions(cs[i], cs[j])
      ensures cs[j].id in Ids(cs) - s
    {
      CompanionsSymmetric(cs[i], cs[j]);
      assert cs[j].id in Ids(cs);
    }
  }

  lemma {:induction false} UnionClosed(cs: seq<Block>, s: set<Id>, t: set<Id>)
    requires Closed(cs, s) && Closed(cs, t)
    ensures Closed(cs, s + t)
  {
  }

  /** Two components are equal or disjoint. */
  lemma {:induction false} ComponentSymmetric(cs: seq<Block>, a: Id, b: Id)
    requires a in Ids(cs) && b in Component(cs, a)
    ensures Component(cs, b) == Component(cs, a)
  {
    ClosureIsLeast(cs, {a});
    ClosureIsLeast(cs, {b});
    ComplementClosed(cs, Component(cs, b));
    assert Forced(cs, {a}, b) && {b} <= Component(cs, b);
    assert {a} <= Ids(cs) - Component(cs, b) ==> b in Ids(cs) - Component(cs, b);
    assert a in Component(cs, b);
    assert {a} <= Component(cs, b) && {b} <= Component(cs, a);
  }

  /** A closed set with an element holds that element's whole component. */
  lemma {:induction false} ClosedHoldsComponent(cs: seq<Block>, s: set<Id>, id: Id)
    requires Closed(cs, s) && id in s && id in Ids(cs)
    ensures Component(cs, id) <= s
  {
    ClosureIsLeast(cs, {id});
    assert {id} <= s;
  }

  /** A closed set is the union of the components of its elements, and so is the closure of a seed. */
  lemma {:induction false} ClosureIsUnion(cs: seq<Block>, seed: set<Id>, id: Id)
    requires seed <= Ids(cs)
    ensures id in ClosureOf(cs, seed) <==> exists a :: a in seed && id in Component(cs, a)
  {
    ClosureIsLeast(cs, seed);
    forall a | a in seed ensures Component(cs, a) <= ClosureOf(cs, seed) {
      ClosedHoldsComponent(cs, ClosureOf(cs, seed), a);
    }
    if id in ClosureOf(cs, seed) {
      var u := set a, b | a in seed && b in Component(cs, a) :: b;
      forall i, j | 0 <= i < |cs| && 0 <= j < |cs| && cs[i].id in u && Companions(cs[i], cs[j]) ensures cs[j].id in u {
        var a :| a in seed && cs[i].id in Component(cs, a);
        ClosureIsLeast(cs, {a});
        assert cs[j].id in Component(cs, a);
      }
      forall a | a in seed ensures a in u {
        ClosureIsLeast(cs, {a});
        assert a in Component(cs, a);
      }
      assert Forced(cs, seed, id);
      assert id in u;
    }
  }

  // ----- components -----

  /** The groups are the components, each in list order, and ordered by their first blocks. */
  ghost predicate GroupsOf(cs: seq<Block>, groups: seq<seq<Block>>) {
    Components(cs, groups) && Covering(cs, groups) && Separate(groups) && Ordered(cs, groups)
  }

  ghost predicate Components(cs: seq<Block>, groups: seq<seq<Block>>) {
    forall k :: 0 <= k < |groups| ==> GroupOk(cs, groups[k])
  }

  ghost predicate Covering(cs: seq<Block>, groups: seq<seq<Block>>) {
    forall i: nat :: i < |cs| ==> Placed(groups, cs[i])
  }

  ghost predicate Ordered(cs: seq<Block>, groups: seq<seq<Block>>) {
    forall a, b :: 0 <= a < b < |groups| ==> Earlier(cs, groups[a], groups[b])
  }

  ghost predicate Placed(groups: seq<seq<Block>>, b: Block) {
    exists k :: 0 <= k < |groups| && b in groups[k]
  }

  ghost predicate Separate(groups: seq<seq<Block>>) {
    forall a, b :: 0 <= a < b < |groups| ==> Ids(groups[a]) !! Ids(groups[b])
  }

  ghost predicate GroupOk(cs: seq<Block>, group: seq<Block>) {
    group != [] && group[0] in cs && group == Members(cs, Component(cs, group[0].id))
  }

  ghost predicate Earlier(cs: seq<Block>, a: seq<Block>, b: seq<Block>) {
    a != [] && b != [] && exists i, j :: 0 <= i < j < |cs| && cs[i] == a[0] && cs[j] == b[0]
  }

  /** The ids of a group are the component of any of its members. */
  lemma {:induction false} GroupIds(cs: seq<Block>, group: seq<Block>)
    requires GroupOk(cs, group)
    ensures Ids(group) == Component(cs, group[0].id) && Closed(cs, Ids(group)) && Ids(group) <= Ids(cs)
    ensures forall b :: b in group ==> b in cs && b.id in Ids(group) && Component(cs, b.id) == Ids(group)
  {
    var id := group[0].id;
    var i :| 0 <= i < |cs| && cs[i] == group[0];
    assert id in Ids(cs);
    ClosureIsLeast(cs, {id});
    MembersIds(cs, Component(cs, id));
    forall b | b in group ensures b in cs && b.id in Ids(group) && Component(cs, b.id) == Ids(group) {
      var k :| 0 <= k < |group| && group[k] == b;
      ComponentSymmetric(cs, id, b.id);
    }
  }

  // ----- the worklist -----

  function IdsAt(cs: seq<Block>, at: set<nat>): (s: set<Id>) {
    set k | k in at && k < |cs| :: cs[k].id
  }

  /** The inner worklist: everything taken or pending is forced by the start, and what a taken block touches is
      taken, pending, or in an earlier component. */
  ghost predicate Searching(cs: seq<Block>, start: nat, taken: set<nat>, pending: seq<nat>, remaining: set<nat>, done: set<nat>)
    requires start < |cs|
  {
    && (forall k :: k in taken ==> Reached(cs, start, k, done))
    && (forall k :: k in pending ==> Reached(cs, start, k, done))
    && (start in taken || start in pending)
    && (forall k :: k in pending ==> k in taken || k in remaining)
    && (forall k: nat :: k < |cs| ==> (k in remaining <==> k !in taken && k !in done))
    && (forall i: nat, j: nat :: i in taken && j < |cs| && Companions(cs[i], cs[j]) ==> j in taken || j in pending)
  }

  /** A position outside the earlier components that the start forces. */
  ghost predicate Reached(cs: seq<Block>, start: nat, k: nat, done: set<nat>)
    requires start < |cs|
  {
    k < |cs| && k !in done && Forced(cs, {cs[start].id}, cs[k].id)
  }

  ghost predicate DoneClosed(cs: seq<Block>, done: set<nat>) {
    && (forall k :: k in done ==> k < |cs|)
    && (forall i: nat, j: nat :: i in done && j < |cs| && Companions(cs[i], cs[j]) ==> j in done)
  }

  lemma {:induction false} ForcedStep(cs: seq<Block>, seed: set<Id>, i: nat, j: nat)
    requires i < |cs| && j < |cs| && Forced(cs, seed, cs[i].id) && Companions(cs[i], cs[j])
    ensures Forced(cs, seed, cs[j].id)
  {
  }

  /** The companions of block `index` that are still to be placed. */
  method Neighbours(cs: seq<Block>, index: nat, remaining: set<nat>) returns (found: seq<nat>)
    requires index < |cs|
    ensures forall k: nat :: k in found <==> k < |cs| && k in remaining && Companions(cs[index], cs[k])
  {
    found := [];
    for other := 0 to |cs|
      invariant forall k: nat :: k in found <==> k < other && k in remaining && Companions(cs[index], cs[k])
    {
      if other in remaining && Companions(cs[index], cs[other]) {
        found := found + [other];
      }
    }
  }

  lemma {:induction false} SearchSkips(cs: seq<Block>, start: nat, taken: set<nat>, pending: seq<nat>, remaining: set<nat>, done: set<nat>)
    requires start < |cs| && pending != [] && Searching(cs, start, taken, pending, remaining, done)
    requires pending[|pending| - 1] in taken
    ensures Searching(cs, start, taken, pending[..|pending| - 1], remaining, done)
  {
    var shorter := pending[..|pending| - 1];
    assert pending == shorter + [pending[|pending| - 1]];
    forall k | k in shorter ensures k in pending {
    }
    assert start in taken || start in shorter;
    forall i: nat, j: nat | i in taken && j < |cs| && Companions(cs[i], cs[j]) ensures j in taken || j in shorter {
      assert j in taken || j in pending;
    }
  }

  lemma {:induction false} SearchTakes(
    cs: seq<Block>, start: nat, taken: set<nat>, pending: seq<nat>, remaining: set<nat>, done: set<nat>, found: seq<nat>)
    requires start < |cs| && pending != [] && Searching(cs, start, taken, pending, remaining, done)
    requires DoneClosed(cs, done) && pending[|pending| - 1] !in taken
    requires var index := pending[|pending| - 1];
      index < |cs| && forall k: nat :: k in found <==> k < |cs| && k in remaining - {index} && Companions(cs[index], cs[k])
    ensures var index := pending[|pending| - 1];
      Searching(cs, start, taken + {index}, pending[..|pending| - 1] + found, remaining - {index}, done)
  {
    hide Forced, Companions;
    var index, shorter := pending[|pending| - 1], pending[..|pending| - 1];
    var longer := shorter + found;
    assert pending == shorter + [index] && index in pending;
    forall k | k in longer ensures Reached(cs, start, k, done) && (k in taken + {index} || k in remaining - {index}) {
      if k in shorter {
        assert k in pending;
      } else {
        assert k in found;
        ForcedStep(cs, {cs[start].id}, index, k);
      }
    }
    forall i: nat, j: nat | i in taken + {index} && j < |cs| && Companions(cs[i], cs[j]) ensures j in taken + {index} || j in longer {
      if i == index {
        CompanionsSymmetric(cs[index], cs[j]);
        assert j in done ==> index in done;
        assert j in remaining - {index} ==> j in found;
      } else {
        assert j in taken || j in pending;
      }
    }
    assert start in taken + {index} || start in longer;
  }

  method Search(cs: seq<Block>, start: nat, remaining: set<nat>, ghost done: set<nat>) returns (taken: set<nat>)
    requires Distinct(cs) && start < |cs| && start in remaining && DoneClosed(cs, done)
    requires forall k: nat :: k < |cs| ==> (k in remaining <==> k !in done)
    ensures forall k :: k in taken ==> k < |cs| && k !in done
    ensures start in taken && IdsAt(cs, taken) == Component(cs, cs[start].id) && DoneClosed(cs, done + taken)
  {
    var pending, left := [start], remaining;
    taken := {};
    while pending != []
      invariant Searching(cs, start, taken, pending, left, done) && left <= remaining
      decreases |left|, |pending|
    {
      var index := pending[|pending| - 1];
      assert index in pending;
      if index in taken {
        SearchSkips(cs, start, taken, pending, left, done);
        pending := pending[..|pending| - 1];
      } else {
        var found := Neighbours(cs, index, left - {index});
        SearchTakes(cs, start, taken, pending, left, done, found);
        taken, left, pending := taken + {index}, left - {index}, pending[..|pending| - 1] + found;
      }
    }
    SearchEnds(cs, start, taken, left, done);
  }

  lemma {:induction false} SearchEnds(cs: seq<Block>, start: nat, taken: set<nat>, remaining: set<nat>, done: set<nat>)
    requires Distinct(cs) && start < |cs| && DoneClosed(cs, done) && Searching(cs, start, taken, [], remaining, done)
    ensures IdsAt(cs, taken) == Component(cs, cs[start].id) && DoneClosed(cs, done + taken)
  {
    hide Companions, Forced;
    var s := IdsAt(cs, taken);
    assert cs[start].id in Ids(cs) && cs[start].id in s;
    forall id | id in s ensures id in Ids(cs) && Forced(cs, {cs[start].id}, id) {
      var k :| k in taken && k < |cs| && cs[k].id == id;
    }
    forall i, j | 0 <= i < |cs| && 0 <= j < |cs| && cs[i].id in s && Companions(cs[i], cs[j]) ensures cs[j].id in s {
      var k :| k in taken && k < |cs| && cs[k].id == cs[i].id;
      assert k == i;
    }
    ClosureIs(cs, {cs[start].id}, s);
  }

  // ----- the groups -----

  /** Picking by position is picking by id. */
  function PickAt(cs: seq<Block>, at: set<nat>): (r: seq<Block>) {
    if cs == [] then []
    else PickAt(cs[..|cs| - 1], at) + if |cs| - 1 in at then [cs[|cs| - 1]] else []
  }

  lemma {:induction false} PickIsMembers(cs: seq<Block>, at: set<nat>, s: set<Id>)
    requires forall k: nat :: k < |cs| ==> (k in at <==> cs[k].id in s)
    ensures PickAt(cs, at) == Members(cs, s)
  {
    if cs != [] {
      PickIsMembers(cs[..|cs| - 1], at, s);
    }
  }

  lemma {:induction false} PickComponent(cs: seq<Block>, at: set<nat>, s: set<Id>)
    requires Distinct(cs) && IdsAt(cs, at) == s && forall k :: k in at ==> k < |cs|
    ensures PickAt(cs, at) == Members(cs, s)
  {
    forall k: nat | k < |cs| ensures k in at <==> cs[k].id in s {
      if cs[k].id in s {
        var i :| i in at && i < |cs| && cs[i].id == cs[k].id;
        assert i == k;
      }
    }
    PickIsMembers(cs, at, s);
  }

  /** The first block of a picked list is at the least position. */
  lemma {:induction false} PickFirst(cs: seq<Block>, at: set<nat>, least: nat)
    requires least in at && least < |cs| && forall k :: k in at ==> least <= k
    ensures PickAt(cs, at) != [] && PickAt(cs, at)[0] == cs[least]
  {
    var n := |cs| - 1;
    if least < n {
      PickFirst(cs[..n], at, least);
    } else {
      PickNone(cs[..n], at);
    }
  }

  lemma {:induction false} PickNone(cs: seq<Block>, at: set<nat>)
    requires forall k :: k in at ==> k >= |cs|
    ensures PickAt(cs, at) == []
  {
    if cs != [] {
      PickNone(cs[..|cs| - 1], at);
    }
  }

  /** A finished group, its first position, and the positions done when it was found. */
  ghost predicate GroupAt(cs: seq<Block>, group: seq<Block>, first: nat, done: set<nat>) {
    && GroupOk(cs, group) && first < |cs| && group[0] == cs[first]
    && Ids(group) <= IdsAt(cs, done) && forall i: nat :: i < first ==> i in done
  }

  ghost predicate Ascending(firsts: seq<nat>) {
    forall a, b :: 0 <= a < b < |firsts| ==> firsts[a] < firsts[b]
  }

  /** The groups found so far are the components of the positions done. */
  ghost predicate Grouping(cs: seq<Block>, groups: seq<seq<Block>>, firsts: seq<nat>, done: set<nat>) {
    && |firsts| == |groups|
    && (forall k :: 0 <= k < |groups| ==> GroupAt(cs, groups[k], firsts[k], done))
    && (forall i: nat :: i in done ==> i < |cs| && Placed(groups, cs[i]))
    && Separate(groups) && Ascending(firsts)
  }

  function Below(n: nat): (s: set<nat>)
    ensures forall k: nat :: k in s <==> k < n
  {
    if n == 0 then {} else Below(n - 1) + {n - 1}
  }

  method LeastOf(s: set<nat>, n: nat) returns (least: nat)
    requires s != {} && forall k :: k in s ==> k < n
    ensures least in s && forall k :: k in s ==> least <= k
  {
    least := 0;
    while least !in s
      invariant forall k :: k in s ==> least <= k
      invariant least < n
      decreases n - least
    {
      var some :| some in s;
      least := least + 1;
    }
  }

  lemma {:induction false} TakenGroup(cs: seq<Block>, done: set<nat>, first: nat, taken: set<nat>)
    requires Distinct(cs) && first < |cs| && first in taken && taken !! done
    requires (forall k :: k in taken ==> k < |cs|) && IdsAt(cs, taken) == Component(cs, cs[first].id)
    requires forall i: nat :: i < first ==> i in done
    ensures var group := PickAt(cs, taken);
      && GroupAt(cs, group, first, done + taken) && Ids(group) == IdsAt(cs, taken)
      && forall i: nat :: i in taken ==> cs[i] in group
  {
    var group := PickAt(cs, taken);
    PickComponent(cs, taken, Component(cs, cs[first].id));
    PickFirst(cs, taken, first);
    assert cs[first] in cs;
    GroupIds(cs, group);
    forall i: nat | i in taken ensures cs[i] in group {
      assert cs[i].id in IdsAt(cs, taken) && cs[i] in cs;
    }
  }

  lemma {:induction false} DoneApart(cs: seq<Block>, done: set<nat>, taken: set<nat>)
    requires Distinct(cs) && taken !! done
    ensures IdsAt(cs, done) !! IdsAt(cs, taken)
  {
    forall id | id in IdsAt(cs, done) ensures id !in IdsAt(cs, taken) {
      var k :| k in done && k < |cs| && cs[k].id == id;
    }
  }

  lemma {:induction false} GroupAtGrows(cs: seq<Block>, group: seq<Block>, first: nat, done: set<nat>, taken: set<nat>)
    requires GroupAt(cs, group, first, done)
    ensures GroupAt(cs, group, first, done + taken)
  {
  }

  lemma {:induction false} FirstsBelow(cs: seq<Block>, group: seq<Block>, a: nat, done: set<nat>, first: nat)
    requires Distinct(cs) && GroupAt(cs, group, a, done) && first < |cs| && first !in done
    ensures a < first
  {
    GroupIds(cs, group);
    assert group[0] in group;
    var k :| k in done && k < |cs| && cs[k].id == cs[a].id;
    assert k == a;
  }

  lemma {:induction false} PlacedMore(groups: seq<seq<Block>>, group: seq<Block>, b: Block)
    requires Placed(groups, b) || b in group
    ensures Placed(groups + [group], b)
  {
    if b in group {
      assert b in (groups + [group])[|groups|];
    } else {
      var k :| 0 <= k < |groups| && b in groups[k];
      assert b in (groups + [group])[k];
    }
  }

  lemma {:induction false} GroupFound(cs: seq<Block>, groups: seq<seq<Block>>, firsts: seq<nat>, done: set<nat>, first: nat, taken: set<nat>)
    requires Distinct(cs) && Grouping(cs, groups, firsts, done) && first < |cs| && first in taken && taken !! done
    requires (forall k :: k in taken ==> k < |cs|) && IdsAt(cs, taken) == Component(cs, cs[first].id)
    requires forall i: nat :: i < first ==> i in done
    ensures Grouping(cs, groups + [PickAt(cs, taken)], firsts + [first], done + taken)
  {
    hide PickAt, Ids, IdsAt, Component, Placed, Distinct;
    var group := PickAt(cs, taken);
    TakenGroup(cs, done, first, taken);
    DoneApart(cs, done, taken);
    forall k | 0 <= k < |groups| ensures GroupAt(cs, groups[k], firsts[k], done + taken) && firsts[k] < first && Ids(groups[k]) !! Ids(group) {
      assert GroupAt(cs, groups[k], firsts[k], done);
      GroupAtGrows(cs, groups[k], firsts[k], done, taken);
      FirstsBelow(cs, groups[k], firsts[k], done, first);
    }
    hide GroupAt;
    forall i: nat | i in done + taken ensures i < |cs| && Placed(groups + [group], cs[i]) {
      PlacedMore(groups, group, cs[i]);
    }
  }

  /** `dependency_groups`; None is the duplicate-block error. */
  method DependencyGroups(cs: seq<Block>) returns (r: Option<seq<seq<Block>>>)
    ensures r.Some? <==> Distinct(cs)
    ensures r.Some? ==> GroupsOf(cs, r.value)
  {
    hide Grouping, Component, DoneClosed, PickAt, GroupsOf, IdsAt, Distinct;
    if !Distinct(cs) {
      return None;
    }
    var groups: seq<seq<Block>> := [];
    var remaining: set<nat> := Below(|cs|);
    ghost var firsts: seq<nat>, done: set<nat> := [], {};
    NoGroups(cs);
    while remaining != {}
      invariant Grouping(cs, groups, firsts, done) && DoneClosed(cs, done)
      invariant forall k :: k in remaining ==> k < |cs|
      invariant forall k: nat :: k < |cs| ==> (k in remaining <==> k !in done)
      decreases |remaining|
    {
      var first := LeastOf(remaining, |cs|);
      var taken := Search(cs, first, remaining, done);
      GroupFound(cs, groups, firsts, done, first, taken);
      groups := groups + [PickAt(cs, taken)];
      firsts, done := firsts + [first], done + taken;
      assert remaining - taken < remaining by {
        assert first in remaining;
      }
      ProperSubset(remaining - taken, remaining);
      remaining := remaining - taken;
    }
    GroupingEnds(cs, groups, firsts, done);
    return Some(groups);
  }

  lemma {:induction false} ProperSubset(a: set<nat>, b: set<nat>)
    requires a < b
    ensures |a| < |b|
  {
    assert b == a + (b - a);
  }

  lemma {:induction false} NoGroups(cs: seq<Block>)
    ensures Grouping(cs, [], [], {}) && DoneClosed(cs, {})
  {
  }

  lemma {:induction false} GroupingEnds(cs: seq<Block>, groups: seq<seq<Block>>, firsts: seq<nat>, done: set<nat>)
    requires Grouping(cs, groups, firsts, done) && forall k: nat :: k < |cs| ==> k in done
    ensures GroupsOf(cs, groups)
  {
    hide GroupOk, Placed, Separate, IdsAt;
    forall k | 0 <= k < |groups| ensures GroupOk(cs, groups[k]) {
      assert GroupAt(cs, groups[k], firsts[k], done);
    }
    forall a, b | 0 <= a < b < |groups| ensures Earlier(cs, groups[a], groups[b]) {
      EarlierFirst(cs, groups[a], firsts[a], groups[b], firsts[b], done);
    }
  }

  lemma {:induction false} EarlierFirst(cs: seq<Block>, g: seq<Block>, a: nat, h: seq<Block>, b: nat, done: set<nat>)
    requires GroupAt(cs, g, a, done) && GroupAt(cs, h, b, done) && a < b
    ensures Earlier(cs, g, h)
  {
  }
}
