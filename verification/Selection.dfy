/** The running state of a selection: whole components are taken or refused, and every block is accounted for. */
module Selection {
  import opened Common
  import opened Blocks
  import opened Closure
  import opened ClosureLoop

  datatype Reason =
    | InsufficientBudget | OptionalOmitted | RequiredNotFit | RawPrefixOmitted | ComponentRemoved | DuplicateId

  /** A rejection of a block. The source keeps the block's id, slot, sources and score. */
  datatype Rejection = Rejection(block: Block, cost: nat, reason: Reason)

  function RejectedBlocks(rs: seq<Rejection>): (bs: seq<Block>)
    ensures |bs| == |rs| && forall k :: 0 <= k < |rs| ==> bs[k] == rs[k].block
  {
    seq(|rs|, k requires 0 <= k < |rs| => rs[k].block)
  }

  function RejectAll(bs: seq<Block>, counts: Counts, reason: Reason): (rs: seq<Rejection>)
    requires Counted(bs, counts)
    ensures RejectedBlocks(rs) == bs && |rs| == |bs| && forall k :: 0 <= k < |rs| ==> rs[k].reason == reason && rs[k].cost == counts[bs[k].id]
  {
    seq(|bs|, k requires 0 <= k < |bs| => Rejection(bs[k], counts[bs[k].id], reason))
  }

  lemma {:induction false} RejectMore(rs: seq<Rejection>, more: seq<Rejection>)
    ensures RejectedBlocks(rs + more) == RejectedBlocks(rs) + RejectedBlocks(more)
  {
  }

  /** Disjoint id sets pick disjoint parts of the list. */
  lemma {:induction false} MembersUnion(cs: seq<Block>, s: set<Id>, t: set<Id>)
    requires s !! t
    ensures multiset(Members(cs, s + t)) == multiset(Members(cs, s)) + multiset(Members(cs, t))
  {
    if cs != [] {
      MembersUnion(cs[..|cs| - 1], s, t);
    }
  }

  datatype Pick = Pick(handled: set<Id>, selected: set<Id>, cost: nat, count: nat, rejected: seq<Rejection>)

  const NOTHING := Pick({}, {}, 0, 0, [])

  /** Handled and selected are unions of components, the cost is that of the selection, and the handled blocks are
      exactly the selected and the rejected ones, each once. */
  ghost predicate PickOk(cs: seq<Block>, counts: Counts, separator: nat, p: Pick)
    requires Counted(cs, counts)
  {
    && p.selected <= p.handled <= Ids(cs) && Closed(cs, p.handled) && Closed(cs, p.selected)
    && p.cost == Cost(cs, counts, separator, p.selected) && p.count == |Members(cs, p.selected)|
    && multiset(Members(cs, p.selected)) + multiset(RejectedBlocks(p.rejected)) == multiset(Members(cs, p.handled))
    && ByChoice(p.rejected) && Priced(p.rejected, counts)
  }

  /** Rejections made while selecting, not by the exact step or for a repeated id. */
  ghost predicate ByChoice(rs: seq<Rejection>) {
    forall k :: 0 <= k < |rs| ==> Choice(rs[k].reason)
  }

  /** Each rejection carries the count of its block. */
  ghost predicate Priced(rs: seq<Rejection>, counts: Counts) {
    forall k :: 0 <= k < |rs| ==> rs[k].block.id in counts && rs[k].cost == counts[rs[k].block.id]
  }

  predicate Choice(reason: Reason) {
    !reason.ComponentRemoved? && !reason.DuplicateId?
  }

  lemma {:induction false} NoMembers(cs: seq<Block>)
    ensures Members(cs, {}) == []
  {
    if cs != [] {
      NoMembers(cs[..|cs| - 1]);
    }
  }

  lemma {:induction false} NothingOk(cs: seq<Block>, counts: Counts, separator: nat)
    requires Counted(cs, counts)
    ensures PickOk(cs, counts, separator, NOTHING)
  {
    NoMembers(cs);
  }

  /** What taking the group adds to the running cost. */
  function Added(p: Pick, group: seq<Block>, counts: Counts, separator: nat): (n: nat)
    requires group != [] && Counted(group, counts)
  {
    Sum(group, counts) + separator * (|group| - 1) + if p.count > 0 then separator else 0
  }

  function Take(p: Pick, group: seq<Block>, counts: Counts, separator: nat): (r: Pick)
    requires group != [] && Counted(group, counts)
  {
    Pick(p.handled + Ids(group), p.selected + Ids(group), p.cost + Added(p, group, counts, separator),
         p.count + |group|, p.rejected)
  }

  function Refuse(p: Pick, group: seq<Block>, counts: Counts, reason: Reason): (r: Pick)
    requires Counted(group, counts)
  {
    p.(handled := p.handled + Ids(group), rejected := p.rejected + RejectAll(group, counts, reason))
  }

  lemma {:induction false} GroupCounted(cs: seq<Block>, counts: Counts, group: seq<Block>)
    requires Counted(cs, counts) && GroupOk(cs, group)
    ensures Counted(group, counts) && group != [] && group == Members(cs, Ids(group))
  {
    GroupIds(cs, group);
    MembersCounted(cs, Component(cs, group[0].id), counts);
  }

  lemma {:induction false} TakeCost(cs: seq<Block>, counts: Counts, separator: nat, p: Pick, group: seq<Block>)
    requires Counted(cs, counts) && PickOk(cs, counts, separator, p) && GroupOk(cs, group) && Ids(group) !! p.handled
    ensures Counted(group, counts) && group != []
    ensures Cost(cs, counts, separator, p.selected + Ids(group)) == p.cost + Added(p, group, counts, separator)
    ensures |Members(cs, p.selected + Ids(group))| == p.count + |group|
  {
    hide Members, Sum, Closed, Ids, GroupOk;
    GroupCounted(cs, counts, group);
    CostUnion(cs, counts, separator, p.selected, Ids(group));
    SumUnion(cs, p.selected, Ids(group), counts);
  }

  lemma {:induction false} TakeAccounts(cs: seq<Block>, counts: Counts, separator: nat, p: Pick, group: seq<Block>)
    requires Counted(cs, counts) && PickOk(cs, counts, separator, p) && GroupOk(cs, group) && Ids(group) !! p.handled
    ensures multiset(Members(cs, p.selected + Ids(group))) + multiset(RejectedBlocks(p.rejected))
      == multiset(Members(cs, p.handled + Ids(group)))
  {
    hide Members, Sum, Closed, Ids, GroupOk, Cost;
    MembersUnion(cs, p.selected, Ids(group));
    MembersUnion(cs, p.handled, Ids(group));
  }

  lemma {:induction false} TakeKeeps(cs: seq<Block>, counts: Counts, separator: nat, p: Pick, group: seq<Block>)
    requires Counted(cs, counts) && PickOk(cs, counts, separator, p) && GroupOk(cs, group) && Ids(group) !! p.handled
    ensures Counted(group, counts) && group != [] && PickOk(cs, counts, separator, Take(p, group, counts, separator))
  {
    hide Members, Sum, Closed, Ids, GroupOk, Cost;
    GroupIds(cs, group);
    TakeCost(cs, counts, separator, p, group);
    TakeAccounts(cs, counts, separator, p, group);
    UnionClosed(cs, p.handled, Ids(group));
    UnionClosed(cs, p.selected, Ids(group));
  }

  lemma {:induction false} RefuseKeeps(cs: seq<Block>, counts: Counts, separator: nat, p: Pick, group: seq<Block>, reason: Reason)
    requires Choice(reason) && Counted(cs, counts) && PickOk(cs, counts, separator, p) && GroupOk(cs, group) && Ids(group) !! p.handled
    ensures Counted(group, counts) && group != [] && PickOk(cs, counts, separator, Refuse(p, group, counts, reason))
  {
    hide Members, Sum, Closed, Ids, GroupOk, Cost, RejectAll, Choice;
    GroupIds(cs, group);
    GroupCounted(cs, counts, group);
    UnionClosed(cs, p.handled, Ids(group));
    MembersUnion(cs, p.handled, Ids(group));
    RejectMore(p.rejected, RejectAll(group, counts, reason));
  }

  /** A group either lies inside the handled ids or is disjoint from them. */
  lemma {:induction false} GroupApart(cs: seq<Block>, handled: set<Id>, group: seq<Block>, b: Block)
    requires Closed(cs, handled) && handled <= Ids(cs) && GroupOk(cs, group) && b in group && b.id !in handled
    ensures Ids(group) !! handled
  {
    GroupIds(cs, group);
    forall id | id in Ids(group) ensures id !in handled {
      var k :| 0 <= k < |group| && group[k].id == id;
      assert group[k] in group;
      if id in handled {
        ClosedHoldsComponent(cs, handled, id);
      }
    }
  }

  lemma {:induction false} ComponentOf(cs: seq<Block>, counts: Counts, b: Block)
    requires Counted(cs, counts) && b in cs
    ensures var group := Members(cs, Component(cs, b.id)); group != [] && b in group && Counted(group, counts)
  {
    var k :| 0 <= k < |cs| && cs[k] == b;
    assert b.id in Ids(cs) && b.id in {b.id};
    ClosureIsLeast(cs, {b.id});
    assert b.id in Component(cs, b.id);
    assert b in Members(cs, Component(cs, b.id));
    MembersCounted(cs, Component(cs, b.id), counts);
  }

  lemma {:induction false} GroupIsComponent(cs: seq<Block>, group: seq<Block>, b: Block)
    requires GroupOk(cs, group) && b in group
    ensures group == Members(cs, Component(cs, b.id))
  {
    GroupIds(cs, group);
  }

  // ----- required blocks -----

  /** Some handled required block was not selected. */
  ghost predicate Missing(cs: seq<Block>, p: Pick) {
    exists id :: id in RequiredIds(cs) && id in p.handled && id !in p.selected
  }

  lemma {:induction false} TakenNotMissing(cs: seq<Block>, p: Pick, ids: set<Id>, q: Pick)
    requires q.handled == p.handled + ids && q.selected == p.selected + ids && ids !! p.handled && p.selected <= p.handled
    ensures Missing(cs, q) <==> Missing(cs, p)
  {
  }

  lemma {:induction false} RefusedMissing(cs: seq<Block>, p: Pick, group: seq<Block>, q: Pick)
    requires Distinct(cs) && GroupOk(cs, group) && Ids(group) !! p.handled && p.selected <= p.handled
    requires q.handled == p.handled + Ids(group) && q.selected == p.selected
    ensures Missing(cs, q) <==> Missing(cs, p) || HoldsRequired(group)
  {
    hide GroupOk, RequiredIds, Ids, HoldsRequired;
    GroupIds(cs, group);
    RequiredInGroup(cs, group);
    if HoldsRequired(group) {
      var id :| id in RequiredIds(cs) && id in Ids(group);
      assert id in q.handled && id !in q.selected;
    }
  }

  // ----- the group of a block -----

  /** `group_by_id`. */
  function GroupOf(groups: seq<seq<Block>>, b: Block): (g: seq<Block>)
    ensures Placed(groups, b) ==> g in groups && b in g
  {
    if groups == [] then [b]
    else if b in groups[|groups| - 1] then groups[|groups| - 1]
    else GroupOf(groups[..|groups| - 1], b)
  }

  lemma {:induction false} GroupOfOk(cs: seq<Block>, groups: seq<seq<Block>>, b: Block)
    requires GroupsOf(cs, groups) && b in cs
    ensures GroupOk(cs, GroupOf(groups, b)) && b in GroupOf(groups, b)
  {
    hide GroupOk, Ordered, Separate, Placed;
    var i: nat :| i < |cs| && cs[i] == b;
    assert Placed(groups, cs[i]);
    var group := GroupOf(groups, b);
    assert group in groups;
    var k :| 0 <= k < |groups| && groups[k] == group;
  }
}
