/** The emergency mode: slot by slot, only components that hold a required block, and the longest raw tail. */
module EmergencySelection {
  import opened Common
  import opened Blocks
  import opened Closure
  import opened ClosureLoop
  import opened Selection

  // ----- sums over concatenations -----

  lemma {:induction false} CountedConcat(a: seq<Block>, b: seq<Block>, counts: Counts)
    requires Counted(a, counts) && Counted(b, counts)
    ensures Counted(a + b, counts)
  {
  }

  lemma {:induction false} SumConcat(a: seq<Block>, b: seq<Block>, counts: Counts)
    requires Counted(a, counts) && Counted(b, counts)
    ensures Counted(a + b, counts) && Sum(a + b, counts) == Sum(a, counts) + Sum(b, counts)
    decreases |b|
  {
    CountedConcat(a, b, counts);
    if b == [] {
      assert a + b == a;
    } else {
      hide Sum;
      var n := |b| - 1;
      SumConcat(a, b[..n], counts);
      assert a + b == (a + b[..n]) + [b[n]] && b == b[..n] + [b[n]];
      SumLast(a + b[..n], b[n], counts);
      SumLast(b[..n], b[n], counts);
    }
  }

  lemma {:induction false} SumSingle(b: Block, counts: Counts)
    requires b.id in counts
    ensures Counted([b], counts) && Sum([b], counts) == counts[b.id]
  {
    assert [b][..0] == [];
  }

  lemma {:induction false} EstimateLast(bs: seq<Block>, b: Block, counts: Counts, separator: nat)
    requires Counted(bs, counts) && b.id in counts
    ensures Counted(bs + [b], counts)
    ensures Estimate(bs + [b], counts, separator)
      == Estimate(bs, counts, separator) + counts[b.id] + if bs != [] then separator else 0
  {
    SumLast(bs, b, counts);
  }

  // ----- the raw tail -----

  predicate Adjacent(a: Block, b: Block) {
    a.sequence.Some? && b.sequence.Some? && a.sequence.value + |a.sources| == b.sequence.value
  }

  predicate Contiguous(bs: seq<Block>) {
    (forall k :: 0 <= k < |bs| ==> bs[k].sequence.Some?) && forall k :: 0 < k < |bs| ==> Adjacent(bs[k - 1], bs[k])
  }

  function Sequenced(bs: seq<Block>): (r: seq<Block>)
    ensures forall k :: 0 <= k < |r| ==> r[k] in bs && r[k].sequence.Some?
  {
    if bs == [] then []
    else Sequenced(bs[..|bs| - 1]) + if bs[|bs| - 1].sequence.Some? then [bs[|bs| - 1]] else []
  }

  lemma {:induction false} SequencedAll(bs: seq<Block>)
    requires forall k :: 0 <= k < |bs| ==> bs[k].sequence.Some?
    ensures Sequenced(bs) == bs
  {
    if bs != [] {
      SequencedAll(bs[..|bs| - 1]);
      assert bs == bs[..|bs| - 1] + [bs[|bs| - 1]];
    }
  }

  function TailStart(ordered: seq<Block>, at: nat): (start: nat)
    requires at < |ordered|
    ensures start <= at
  {
    if at > 0 && Adjacent(ordered[at - 1], ordered[at]) then TailStart(ordered, at - 1) else at
  }

  /** The sequenced blocks from the last gap on. */
  function RawTail(bs: seq<Block>): (tail: seq<Block>)
    ensures forall k :: 0 <= k < |tail| ==> tail[k] in bs
  {
    var ordered := Sequenced(bs);
    if ordered == [] then [] else ordered[TailStart(ordered, |ordered| - 1)..]
  }

  /** `b` begins as many sequences after `a` as `a` has sources. */
  ghost predicate RunsOn(a: Block, b: Block) {
    a.sequence.Some? && b.sequence.Some? && b.sequence.value - a.sequence.value == |a.sources|
  }

  lemma {:induction false} AdjacentMeans(a: Block, b: Block)
    ensures Adjacent(a, b) <==> RunsOn(a, b)
  {
  }

  lemma {:induction false} TailRunsOn(ordered: seq<Block>, at: nat)
    requires at < |ordered| && Contiguous(ordered[at..]) && (at > 0 ==> !Adjacent(ordered[at - 1], ordered[at]))
    ensures forall k :: 0 < k < |ordered[at..]| ==> RunsOn(ordered[at..][k - 1], ordered[at..][k])
    ensures at > 0 ==> !RunsOn(ordered[at - 1], ordered[at])
  {
    hide Adjacent, RunsOn;
    forall k | 0 < k < |ordered[at..]| ensures RunsOn(ordered[at..][k - 1], ordered[at..][k]) {
      AdjacentMeans(ordered[at..][k - 1], ordered[at..][k]);
    }
    if at > 0 {
      AdjacentMeans(ordered[at - 1], ordered[at]);
    }
  }

  /** `_contiguous_raw_tail`: the longest contiguous suffix of the sequenced blocks. */
  method ContiguousTail(bs: seq<Block>) returns (tail: seq<Block>, ghost start: nat)
    ensures tail == RawTail(bs)
    ensures start <= |Sequenced(bs)| && tail == Sequenced(bs)[start..] && Contiguous(tail)
    ensures 0 < start < |Sequenced(bs)| ==> !Adjacent(Sequenced(bs)[start - 1], Sequenced(bs)[start])
    ensures Sequenced(bs) != [] ==> tail != []
    ensures forall k :: 0 < k < |tail| ==> RunsOn(tail[k - 1], tail[k])
    ensures 0 < start < |Sequenced(bs)| ==> !RunsOn(Sequenced(bs)[start - 1], Sequenced(bs)[start])
  {
    hide Adjacent, Sequenced, Contiguous, RunsOn;
    var ordered := Sequenced(bs);
    if ordered == [] {
      NothingContiguous();
      return [], 0;
    }
    var at := |ordered| - 1;
    while at > 0 && Adjacent(ordered[at - 1], ordered[at])
      invariant 0 <= at < |ordered| && TailStart(ordered, |ordered| - 1) == TailStart(ordered, at)
      decreases at
    {
      at := at - 1;
    }
    TailRun(ordered, |ordered| - 1);
    RunContiguous(ordered, at);
    TailRunsOn(ordered, at);
    return ordered[at..], at;
  }

  lemma {:induction false} NothingContiguous()
    ensures Contiguous([])
  {
  }

  /** From its start to the end of the list the tail has no gap, and there is one just before it. */
  lemma {:induction false} TailRun(ordered: seq<Block>, at: nat)
    requires at < |ordered|
    ensures var start := TailStart(ordered, at);
      && (forall k :: start < k <= at ==> Adjacent(ordered[k - 1], ordered[k]))
      && (start > 0 ==> !Adjacent(ordered[start - 1], ordered[start]))
  {
    hide Adjacent;
    if at > 0 && Adjacent(ordered[at - 1], ordered[at]) {
      TailRun(ordered, at - 1);
    }
  }

  lemma {:induction false} RunContiguous(ordered: seq<Block>, start: nat)
    requires start < |ordered| && forall k :: 0 <= k < |ordered| ==> ordered[k].sequence.Some?
    requires forall k :: start < k < |ordered| ==> Adjacent(ordered[k - 1], ordered[k])
    ensures Contiguous(ordered[start..])
  {
    hide Adjacent;
    var tail := ordered[start..];
    forall k | 0 < k < |tail| ensures Adjacent(tail[k - 1], tail[k]) {
      assert tail[k - 1] == ordered[start + k - 1] && tail[k] == ordered[start + k];
    }
  }

  lemma {:induction false} TailOfContiguous(bs: seq<Block>, start: nat)
    requires Contiguous(bs) && start <= |Sequenced(bs)|
    requires 0 < start < |Sequenced(bs)| ==> !Adjacent(Sequenced(bs)[start - 1], Sequenced(bs)[start])
    requires Sequenced(bs) != [] ==> Sequenced(bs)[start..] != []
    ensures Sequenced(bs)[start..] == bs
  {
    SequencedAll(bs);
  }

  method SuffixSums(tail: seq<Block>, counts: Counts) returns (suffixCosts: seq<nat>)
    requires Counted(tail, counts)
    ensures |suffixCosts| == |tail| + 1
    ensures forall i :: 0 <= i <= |tail| ==> Counted(tail[i..], counts) && suffixCosts[i] == Sum(tail[i..], counts)
  {
    suffixCosts := seq(|tail| + 1, _ => 0);
    for k := |tail| downto 0
      invariant |suffixCosts| == |tail| + 1
      invariant forall i :: k <= i <= |tail| ==> suffixCosts[i] == Sum(tail[i..], counts)
    {
      assert tail[k..] == [tail[k]] + tail[k + 1..];
      SumSingle(tail[k], counts);
      SumConcat([tail[k]], tail[k + 1..], counts);
      suffixCosts := suffixCosts[k := suffixCosts[k + 1] + counts[tail[k].id]];
    }
  }

  /** The first start from which the tail fits beside the critical blocks, or the end. */
  ghost function FirstFit(critical: seq<Block>, tail: seq<Block>, counts: Counts, separator: nat, budget: nat, at: nat): (start: nat)
    requires Counted(critical, counts) && Counted(tail, counts) && at <= |tail|
    ensures at <= start <= |tail|
    decreases |tail| - at
  {
    SuffixCost(critical, tail, counts, separator, at);
    if at == |tail| || Estimate(critical + tail[at..], counts, separator) <= budget then at
    else FirstFit(critical, tail, counts, separator, budget, at + 1)
  }

  /** `_longest_raw_suffix`: the longest suffix of the tail that still fits beside the critical blocks. */
  method LongestSuffix(critical: seq<Block>, tail: seq<Block>, counts: Counts, separator: nat, budget: nat)
    returns (r: seq<Block>, ghost start: nat)
    requires Counted(critical, counts) && Counted(tail, counts) && Estimate(critical, counts, separator) <= budget
    ensures start <= |tail| && r == tail[start..] && Counted(critical + r, counts)
    ensures start == FirstFit(critical, tail, counts, separator, budget, 0)
    ensures Estimate(critical + r, counts, separator) <= budget
    ensures forall s :: 0 <= s < start ==> Counted(critical + tail[s..], counts) && Estimate(critical + tail[s..], counts, separator) > budget
  {
    hide Sum, Estimate, SuffixEstimate;
    var suffixCosts := SuffixSums(tail, counts);
    var criticalCost, at := Sum(critical, counts), 0;
    SuffixCost(critical, tail, counts, separator, 0);
    while at < |tail| && SuffixEstimate(criticalCost + suffixCosts[at], |critical| + |tail| - at, separator) > budget
      invariant at <= |tail| && FirstFit(critical, tail, counts, separator, budget, 0) == FirstFit(critical, tail, counts, separator, budget, at)
      invariant forall i :: 0 <= i < at ==> Counted(critical + tail[i..], counts) && Estimate(critical + tail[i..], counts, separator) > budget
      invariant Counted(critical + tail[at..], counts)
      invariant SuffixEstimate(criticalCost + suffixCosts[at], |critical| + |tail| - at, separator) == Estimate(critical + tail[at..], counts, separator)
    {
      at := at + 1;
      SuffixCost(critical, tail, counts, separator, at);
    }
    assert at == |tail| ==> critical + tail[at..] == critical;
    return tail[at..], at;
  }

  function SuffixEstimate(sum: nat, count: nat, separator: nat): (n: nat) {
    sum + if count > 0 then separator * (count - 1) else 0
  }

  lemma {:induction false} SuffixCost(critical: seq<Block>, tail: seq<Block>, counts: Counts, separator: nat, at: nat)
    requires Counted(critical, counts) && Counted(tail, counts) && at <= |tail|
    ensures Counted(tail[at..], counts) && Counted(critical + tail[at..], counts)
    ensures SuffixEstimate(Sum(critical, counts) + Sum(tail[at..], counts), |critical| + |tail| - at, separator)
      == Estimate(critical + tail[at..], counts, separator)
  {
    SumConcat(critical, tail[at..], counts);
  }

  // ----- singles -----

  /** Takes single-block components one after another. */
  function TakeAll(p: Pick, bs: seq<Block>, counts: Counts, separator: nat): (r: Pick)
    requires Counted(bs, counts)
  {
    if bs == [] then p
    else Take(TakeAll(p, bs[..|bs| - 1], counts, separator), [bs[|bs| - 1]], counts, separator)
  }

  function RefuseSome(p: Pick, bs: seq<Block>, taken: set<Id>, counts: Counts, reason: Reason): (r: Pick)
    requires Counted(bs, counts)
  {
    if bs == [] then p
    else
      var rest, last := RefuseSome(p, bs[..|bs| - 1], taken, counts, reason), bs[|bs| - 1];
      if last.id in taken then rest else Refuse(rest, [last], counts, reason)
  }

  /** Blocks that are components by themselves and not handled yet. */
  ghost predicate Singles(cs: seq<Block>, bs: seq<Block>, handled: set<Id>) {
    Distinct(bs) && forall k :: 0 <= k < |bs| ==> GroupOk(cs, [bs[k]]) && bs[k].id !in handled
  }

  lemma {:induction false} IdsOfSingle(b: Block)
    ensures Ids([b]) == {b.id}
  {
    assert [b][0] == b;
  }

  lemma {:induction false} SinglesCounted(cs: seq<Block>, bs: seq<Block>, counts: Counts)
    requires Counted(cs, counts) && forall k :: 0 <= k < |bs| ==> GroupOk(cs, [bs[k]])
    ensures Counted(bs, counts)
  {
    forall k | 0 <= k < |bs| ensures bs[k].id in counts {
      GroupCounted(cs, counts, [bs[k]]);
      assert [bs[k]][0] == bs[k];
    }
  }

  /** The state after taking singles: their ids are added, and the cost is that of the longer list. */
  ghost predicate TookAll(cs: seq<Block>, counts: Counts, separator: nat, p: Pick, bs: seq<Block>, q: Pick)
    requires Counted(cs, counts) && Counted(Members(cs, p.selected) + bs, counts)
  {
    && PickOk(cs, counts, separator, q) && q.handled == p.handled + Ids(bs) && q.selected == p.selected + Ids(bs)
    && q.rejected == p.rejected && q.cost == Estimate(Members(cs, p.selected) + bs, counts, separator)
    && q.count == |Members(cs, p.selected) + bs|
  }

  lemma {:induction false} TookOneMore(cs: seq<Block>, counts: Counts, separator: nat, p: Pick, bs: seq<Block>, b: Block, q: Pick)
    requires Counted(cs, counts) && Counted(Members(cs, p.selected) + bs, counts) && TookAll(cs, counts, separator, p, bs, q)
    requires GroupOk(cs, [b]) && b.id !in q.handled && b.id in counts
    ensures Counted([b], counts) && Counted(Members(cs, p.selected) + (bs + [b]), counts)
    ensures TookAll(cs, counts, separator, p, bs + [b], Take(q, [b], counts, separator))
  {
    hide Members, PickOk, GroupOk, Sum, Ids, Estimate;
    var critical := Members(cs, p.selected);
    assert critical + (bs + [b]) == (critical + bs) + [b];
    IdsAppend(bs, b);
    IdsOfSingle(b);
    TakeKeeps(cs, counts, separator, q, [b]);
    EstimateLast(critical + bs, b, counts, separator);
    SumSingle(b, counts);
  }

  lemma {:induction false} TookHandled(cs: seq<Block>, counts: Counts, separator: nat, p: Pick, bs: seq<Block>, q: Pick)
    requires Counted(cs, counts) && Counted(Members(cs, p.selected) + bs, counts) && TookAll(cs, counts, separator, p, bs, q)
    ensures q.handled == p.handled + Ids(bs)
  {
  }

  lemma {:induction false} TookNone(cs: seq<Block>, counts: Counts, separator: nat, p: Pick)
    requires Counted(cs, counts) && PickOk(cs, counts, separator, p)
    ensures Counted(Members(cs, p.selected) + [], counts) && TookAll(cs, counts, separator, p, [], p)
  {
    MembersCounted(cs, p.selected, counts);
    assert Members(cs, p.selected) + [] == Members(cs, p.selected);
  }

  lemma {:induction false} TakeAllKeeps(cs: seq<Block>, counts: Counts, separator: nat, p: Pick, bs: seq<Block>)
    requires Counted(cs, counts) && PickOk(cs, counts, separator, p) && Singles(cs, bs, p.handled)
    ensures Counted(bs, counts) && Counted(Members(cs, p.selected) + bs, counts)
    ensures TookAll(cs, counts, separator, p, bs, TakeAll(p, bs, counts, separator))
  {
    hide Members, PickOk, GroupOk, Sum, Ids, Estimate, TookAll;
    SinglesCounted(cs, bs, counts);
    MembersCounted(cs, p.selected, counts);
    if bs == [] {
      TookNone(cs, counts, separator, p);
    } else {
      var n := |bs| - 1;
      assert bs == bs[..n] + [bs[n]];
      TakeAllKeeps(cs, counts, separator, p, bs[..n]);
      NotAmong(bs, n);
      TookHandled(cs, counts, separator, p, bs[..n], TakeAll(p, bs[..n], counts, separator));
      TookOneMore(cs, counts, separator, p, bs[..n], bs[n], TakeAll(p, bs[..n], counts, separator));
    }
  }

  lemma {:induction false} NotAmong(bs: seq<Block>, n: nat)
    requires Distinct(bs) && n < |bs|
    ensures bs[n].id !in Ids(bs[..n])
  {
    forall k | 0 <= k < n ensures bs[..n][k].id != bs[n].id {
      assert bs[k].id != bs[n].id;
    }
  }

  /** Refusing the singles that were not taken handles the rest of the list. */
  lemma {:induction false} RefuseSomeKeeps(
    cs: seq<Block>, counts: Counts, separator: nat, p: Pick, bs: seq<Block>, taken: set<Id>, reason: Reason)
    requires Choice(reason) && Counted(cs, counts) && PickOk(cs, counts, separator, p) && Distinct(bs)
    requires forall k :: 0 <= k < |bs| ==> GroupOk(cs, [bs[k]]) && (bs[k].id in taken <==> bs[k].id in p.handled)
    ensures Counted(bs, counts)
    ensures var q := RefuseSome(p, bs, taken, counts, reason);
      && PickOk(cs, counts, separator, q) && q.handled == p.handled + Ids(bs) && q.selected == p.selected && q.cost == p.cost
  {
    hide Members, PickOk, GroupOk, Sum, Estimate, Cost;
    SinglesCounted(cs, bs, counts);
    if bs != [] {
      hide Ids;
      var n := |bs| - 1;
      RefuseSomeKeeps(cs, counts, separator, p, bs[..n], taken, reason);
      assert bs == bs[..n] + [bs[n]];
      IdsAppend(bs[..n], bs[n]);
      IdsOfSingle(bs[n]);
      NotAmong(bs, n);
      if bs[n].id !in taken {
        RefuseKeeps(cs, counts, separator, RefuseSome(p, bs[..n], taken, counts, reason), [bs[n]], reason);
      }
    }
  }

  // ----- slots -----

  /** Candidates of a slot that are not handled, in order. */
  function Waiting(cs: seq<Block>, slot: Slot, handled: set<Id>): (r: seq<Block>)
    ensures forall k :: 0 <= k < |r| ==> r[k] in cs && r[k].slot == slot && r[k].id !in handled
    ensures forall b {:trigger b in r} :: b in cs && b.slot == slot && b.id !in handled ==> b in r
  {
    if cs == [] then []
    else
      var rest, last := Waiting(cs[..|cs| - 1], slot, handled), cs[|cs| - 1];
      if last.slot == slot && last.id !in handled then rest + [last] else rest
  }

  lemma {:induction false} WaitingDistinct(cs: seq<Block>, slot: Slot, handled: set<Id>)
    requires Distinct(cs)
    ensures Distinct(Waiting(cs, slot, handled))
  {
    if cs != [] {
      var n := |cs| - 1;
      WaitingDistinct(cs[..n], slot, handled);
      var rest := Waiting(cs[..n], slot, handled);
      forall k | 0 <= k < |rest| ensures rest[k].id != cs[n].id {
        assert rest[k] in cs[..n];
      }
    }
  }

  lemma {:induction false} WaitingSame(cs: seq<Block>, slot: Slot, handled: set<Id>)
    requires forall b :: b in cs && b.slot == slot ==> b.id !in handled
    ensures Waiting(cs, slot, handled) == Waiting(cs, slot, {})
  {
    if cs != [] {
      assert cs[|cs| - 1] in cs;
      WaitingSame(cs[..|cs| - 1], slot, handled);
    }
  }

  // ----- completeness -----

  /** The components that hold a required block. */
  ghost function Need(cs: seq<Block>): (s: set<Id>) {
    ClosureOf(cs, RequiredIds(cs))
  }

  lemma {:induction false} GroupNeed(cs: seq<Block>, group: seq<Block>)
    requires Distinct(cs) && GroupOk(cs, group)
    ensures if HoldsRequired(group) then Ids(group) <= Need(cs) else Ids(group) !! Need(cs)
  {
    hide Members, Component, ClosureOf, HoldsRequired;
    assert RequiredIds(cs) <= Ids(cs);
    GroupIds(cs, group);
    RequiredInGroup(cs, group);
    ClosureIsLeast(cs, RequiredIds(cs));
    if HoldsRequired(group) {
      var a :| a in RequiredIds(cs) && a in Ids(group);
      ClosedHoldsComponent(cs, Need(cs), a);
      InGroup(cs, group, a);
    } else {
      forall id | id in Ids(group) ensures id !in Need(cs) {
        ClosureIsUnion(cs, RequiredIds(cs), id);
        forall a | a in RequiredIds(cs) ensures id !in Component(cs, a) {
          InGroup(cs, group, id);
          SharesComponent(cs, a, id);
        }
      }
    }
  }

  lemma {:induction false} SharesComponent(cs: seq<Block>, a: Id, id: Id)
    requires a in Ids(cs)
    ensures id in Component(cs, a) ==> a in Component(cs, id)
  {
    if id in Component(cs, a) {
      ComponentSymmetric(cs, a, id);
      ClosureIsLeast(cs, {a});
      assert a in {a};
    }
  }

  lemma {:induction false} InGroup(cs: seq<Block>, group: seq<Block>, id: Id)
    requires GroupOk(cs, group) && id in Ids(group)
    ensures Component(cs, id) == Ids(group)
  {
    var k :| 0 <= k < |group| && group[k].id == id;
    assert group[k] in group;
    GroupIds(cs, group);
  }

  /** Raw blocks are required and components of their own. */
  ghost predicate RawSolo(cs: seq<Block>) {
    forall b :: b in cs && b.slot.Raw() ==> b.required && GroupOk(cs, [b])
  }

  /** The blocks of each raw slot of rank below `k` are contiguous. */
  ghost predicate GapFree(cs: seq<Block>, k: nat) {
    forall slot: Slot :: slot.Raw() && slot.Rank() < k ==> Contiguous(Waiting(cs, slot, {}))
  }

  ghost predicate RawContiguous(cs: seq<Block>) {
    GapFree(cs, |PRIORITY|)
  }

  /** The case in which the emergency mode promises to succeed. */
  ghost predicate Affordable(cs: seq<Block>, counts: Counts, separator: nat, budget: nat)
    requires Counted(cs, counts)
  {
    RawSolo(cs) && RawContiguous(cs) && Cost(cs, counts, separator, Need(cs)) <= budget
  }

  /** In that case exactly the needed ones of the handled blocks are selected. */
  ghost predicate Thorough(cs: seq<Block>, counts: Counts, separator: nat, budget: nat, p: Pick)
    requires Counted(cs, counts)
  {
    Affordable(cs, counts, separator, budget) ==> p.selected == p.handled * Need(cs)
  }

  /** Takes or refuses one component. */
  function Consider(p: Pick, group: seq<Block>, counts: Counts, separator: nat, budget: nat): (r: Pick)
    requires group != [] && Counted(group, counts)
  {
    if !HoldsRequired(group) then Refuse(p, group, counts, OptionalOmitted)
    else if p.cost + Added(p, group, counts, separator) <= budget then Take(p, group, counts, separator)
    else Refuse(p, group, counts, RequiredNotFit)
  }

  ghost predicate StateOk(cs: seq<Block>, counts: Counts, separator: nat, budget: nat, p: Pick)
    requires Counted(cs, counts)
  {
    PickOk(cs, counts, separator, p) && p.cost <= budget && Thorough(cs, counts, separator, budget, p)
  }

  lemma {:induction false} NeededFits(cs: seq<Block>, counts: Counts, separator: nat, budget: nat, p: Pick, group: seq<Block>)
    requires Counted(cs, counts) && StateOk(cs, counts, separator, budget, p)
    requires GroupOk(cs, group) && Ids(group) !! p.handled && Ids(group) <= Need(cs) && Affordable(cs, counts, separator, budget)
    ensures Counted(group, counts) && group != [] && p.cost + Added(p, group, counts, separator) <= budget
  {
    hide Members, Sum, Closed, GroupOk, Cost, RawSolo, RawContiguous, Need;
    TakeCost(cs, counts, separator, p, group);
    CostGrows(cs, counts, separator, p.selected + Ids(group), Need(cs));
  }

  lemma {:induction false} ConsiderKeeps(cs: seq<Block>, counts: Counts, separator: nat, budget: nat, p: Pick, group: seq<Block>)
    requires Distinct(cs) && Counted(cs, counts) && StateOk(cs, counts, separator, budget, p)
    requires GroupOk(cs, group) && Ids(group) !! p.handled
    ensures Counted(group, counts) && group != []
    ensures var q := Consider(p, group, counts, separator, budget);
      StateOk(cs, counts, separator, budget, q) && q.handled == p.handled + Ids(group) && Extends(p, q)
  {
    hide Members, Sum, Closed, Ids, GroupOk, Cost, Affordable, Need, PickOk, Added, HoldsRequired;
    PickShape(cs, counts, separator, p);
    GroupNeed(cs, group);
    TakeKeeps(cs, counts, separator, p, group);
    RefuseKeeps(cs, counts, separator, p, group, OptionalOmitted);
    RefuseKeeps(cs, counts, separator, p, group, RequiredNotFit);
    if Affordable(cs, counts, separator, budget) && HoldsRequired(group) {
      NeededFits(cs, counts, separator, budget, p, group);
    }
  }

  lemma {:induction false} PickShape(cs: seq<Block>, counts: Counts, separator: nat, p: Pick)
    requires Counted(cs, counts) && PickOk(cs, counts, separator, p)
    ensures p.selected <= p.handled <= Ids(cs) && Closed(cs, p.handled) && Counted(Members(cs, p.selected), counts)
    ensures p.cost == Estimate(Members(cs, p.selected), counts, separator)
  {
    MembersCounted(cs, p.selected, counts);
  }

  // ----- what the mode must come to -----

  lemma {:induction false} AmongCounted(cs: seq<Block>, bs: seq<Block>, counts: Counts)
    requires Counted(cs, counts) && forall k :: 0 <= k < |bs| ==> bs[k] in cs
    ensures Counted(bs, counts)
  {
    forall k | 0 <= k < |bs| ensures bs[k].id in counts {
      var i :| 0 <= i < |cs| && cs[i] == bs[k];
    }
  }

  /** One block of a slot: its component is considered, unless it was handled, or is a single block and only shared
      components are wanted. */
  ghost function BlockStep(cs: seq<Block>, counts: Counts, separator: nat, budget: nat, p: Pick, b: Block, onlyShared: bool): (q: Pick)
    requires Counted(cs, counts) && b in cs
  {
    ComponentOf(cs, counts, b);
    var group := Members(cs, Component(cs, b.id));
    if b.id in p.handled || (onlyShared && |group| == 1) then p
    else if forall x <- group :: !x.required then Refuse(p, group, counts, OptionalOmitted)
    else if p.cost + Added(p, group, counts, separator) <= budget then Take(p, group, counts, separator)
    else Refuse(p, group, counts, RequiredNotFit)
  }

  ghost function EachStep(
    cs: seq<Block>, counts: Counts, separator: nat, budget: nat, p: Pick, waiting: seq<Block>, onlyShared: bool, k: nat): (q: Pick)
    requires Counted(cs, counts) && k <= |waiting| && forall i :: 0 <= i < |waiting| ==> waiting[i] in cs
  {
    if k == 0 then p
    else BlockStep(cs, counts, separator, budget, EachStep(cs, counts, separator, budget, p, waiting, onlyShared, k - 1), waiting[k - 1], onlyShared)
  }

  /** The single blocks of a raw slot: of the tail behind the last gap, the longest suffix that fits; the rest is refused. */
  ghost function TailStep(cs: seq<Block>, counts: Counts, separator: nat, budget: nat, p: Pick, slot: Slot): (q: Pick)
    requires Counted(cs, counts)
  {
    var critical, rest := Members(cs, p.selected), Waiting(cs, slot, p.handled);
    MembersCounted(cs, p.selected, counts);
    AmongCounted(cs, rest, counts);
    AmongCounted(rest, RawTail(rest), counts);
    var raw := RawTail(rest)[FirstFit(critical, RawTail(rest), counts, separator, budget, 0)..];
    AmongCounted(RawTail(rest), raw, counts);
    RefuseSome(TakeAll(p, raw, counts, separator), rest, Ids(raw), counts, RawPrefixOmitted)
  }

  ghost function SlotStep(cs: seq<Block>, counts: Counts, separator: nat, budget: nat, p: Pick, slot: Slot): (q: Pick)
    requires Counted(cs, counts)
  {
    var waiting := Waiting(cs, slot, p.handled);
    var c := EachStep(cs, counts, separator, budget, p, waiting, slot.Raw(), |waiting|);
    if slot.Raw() then TailStep(cs, counts, separator, budget, c, slot) else c
  }

  /** The emergency mode over the first `k` slots. */
  ghost function EmergencyPick(cs: seq<Block>, counts: Counts, separator: nat, budget: nat, k: nat): (p: Pick)
    requires Counted(cs, counts) && k <= |PRIORITY|
  {
    if k == 0 then NOTHING
    else SlotStep(cs, counts, separator, budget, EmergencyPick(cs, counts, separator, budget, k - 1), PRIORITY[k - 1])
  }

  // ----- the slots in turn -----

  /** What was decided stays decided. */
  ghost predicate Extends(p: Pick, q: Pick) {
    p.handled <= q.handled && p.selected <= q.selected && forall id :: id in p.handled && id in q.selected ==> id in p.selected
  }

  lemma {:induction false} StillMissing(cs: seq<Block>, p: Pick, q: Pick)
    requires Missing(cs, p) && Extends(p, q)
    ensures Missing(cs, q)
  {
  }

  /** Slots below `k` are done. If raw blocks are solitary and required, no raw block of a later slot was touched, and
      a gap in a finished slot has cost a required block. */
  ghost predicate Swept(cs: seq<Block>, p: Pick, k: nat) {
    && (forall b :: b in cs && b.slot.Rank() < k ==> b.id in p.handled)
    && (RawSolo(cs) ==> forall b :: b in cs && b.slot.Raw() && b.slot.Rank() >= k ==> b.id !in p.handled)
    && (RawSolo(cs) && !GapFree(cs, k) ==> Missing(cs, p))
  }

  /** A solitary raw block shares its component with nothing. */
  lemma {:induction false} RawAlone(cs: seq<Block>, group: seq<Block>, b: Block)
    requires Distinct(cs) && RawSolo(cs) && GroupOk(cs, group) && b in cs && b.slot.Raw() && b.id in Ids(group)
    ensures group == [b]
  {
    hide Members, Component, Contiguous, Waiting;
    assert GroupOk(cs, [b]);
    assert [b][0] == b;
    IdsOfSingle(b);
    InGroup(cs, [b], b.id);
    InGroup(cs, group, b.id);
    GroupIds(cs, group);
    GroupIds(cs, [b]);
  }

  lemma {:induction false} SweepGroup(cs: seq<Block>, p: Pick, group: seq<Block>, c: Block, q: Pick, k: nat)
    requires Distinct(cs) && Swept(cs, p, k) && GroupOk(cs, group) && c in group && c in cs
    requires q.handled == p.handled + Ids(group) && (!c.slot.Raw() || |group| > 1) && Extends(p, q)
    ensures Swept(cs, q, k)
  {
    hide GroupOk, Ids, GapFree, Extends, Missing;
    if RawSolo(cs) {
      if !GapFree(cs, k) {
        StillMissing(cs, p, q);
      }
      forall b | b in cs && b.slot.Raw() && b.slot.Rank() >= k ensures b.id !in q.handled {
        if b.id in Ids(group) {
          RawAlone(cs, group, b);
          assert false;
        }
      }
    }
  }

  method SweepSlot(
    cs: seq<Block>, groups: seq<seq<Block>>, slot: Slot, counts: Counts, separator: nat, budget: nat, p: Pick)
    returns (q: Pick)
    requires Distinct(cs) && GroupsOf(cs, groups) && Counted(cs, counts) && !slot.Raw()
    requires StateOk(cs, counts, separator, budget, p) && Swept(cs, p, slot.Rank())
    ensures StateOk(cs, counts, separator, budget, q) && Swept(cs, q, slot.Rank() + 1)
    ensures q == SlotStep(cs, counts, separator, budget, p, slot)
  {
    hide StateOk, Swept, GroupOk, GroupsOf, Distinct, Slot.Rank, Counted, EachStep, TailStep;
    var waiting := Waiting(cs, slot, p.handled);
    q := ConsiderEach(cs, groups, waiting, slot.Rank(), false, counts, separator, budget, p);
    SlotDone(cs, p, slot, q);
  }

  lemma {:induction false} SlotDone(cs: seq<Block>, p: Pick, slot: Slot, q: Pick)
    requires p.handled <= q.handled && Swept(cs, q, slot.Rank()) && !slot.Raw()
    requires forall b :: b in Waiting(cs, slot, p.handled) ==> b.id in q.handled
    ensures Swept(cs, q, slot.Rank() + 1)
  {
    hide Missing, Contiguous;
    assert GapFree(cs, slot.Rank()) ==> GapFree(cs, slot.Rank() + 1) by {
      forall other: Slot | other.Raw() && other.Rank() < slot.Rank() + 1 ensures other.Rank() < slot.Rank() {
        if other.Rank() == slot.Rank() {
          SameSlot(other, slot);
        }
      }
    }
    forall b | b in cs && b.slot.Rank() < slot.Rank() + 1 ensures b.id in q.handled {
      if b.slot.Rank() == slot.Rank() && b.id !in p.handled {
        SameSlot(b.slot, slot);
        assert b in Waiting(cs, slot, p.handled);
      }
    }
  }

  lemma {:induction false} SameSlot(a: Slot, b: Slot)
    requires a.Rank() == b.Rank()
    ensures a == b
  {
  }

  /** The blocks are candidates, and raw ones are considered only for components of several blocks. */
  ghost predicate MayConsider(cs: seq<Block>, waiting: seq<Block>, onlyShared: bool) {
    forall i :: 0 <= i < |waiting| ==> waiting[i] in cs && (waiting[i].slot.Raw() ==> onlyShared)
  }

  /** Every block is handled, or is a component by itself and was passed over. */
  ghost predicate Considered(cs: seq<Block>, waiting: seq<Block>, onlyShared: bool, handled: set<Id>) {
    forall i :: 0 <= i < |waiting| ==> waiting[i].id in handled || (onlyShared && GroupOk(cs, [waiting[i]]))
  }

  /** Considers the components of the listed blocks in turn: all of them, or only those of several blocks. */
  method ConsiderEach(
    cs: seq<Block>, groups: seq<seq<Block>>, waiting: seq<Block>, ghost k: nat, onlyShared: bool,
    counts: Counts, separator: nat, budget: nat, p: Pick)
    returns (q: Pick)
    requires Distinct(cs) && GroupsOf(cs, groups) && Counted(cs, counts)
    requires StateOk(cs, counts, separator, budget, p) && Swept(cs, p, k)
    requires MayConsider(cs, waiting, onlyShared)
    ensures StateOk(cs, counts, separator, budget, q) && Swept(cs, q, k) && p.handled <= q.handled
    ensures Considered(cs, waiting, onlyShared, q.handled)
    ensures q == EachStep(cs, counts, separator, budget, p, waiting, onlyShared, |waiting|)
  {
    hide StateOk, Swept, GroupOk, GroupsOf, Members, Component, BlockStep, Consider;
    q := p;
    for i := 0 to |waiting|
      invariant StateOk(cs, counts, separator, budget, q) && Swept(cs, q, k) && p.handled <= q.handled
      invariant forall j :: 0 <= j < i ==> waiting[j].id in q.handled || (onlyShared && GroupOk(cs, [waiting[j]]))
      invariant q == EachStep(cs, counts, separator, budget, p, waiting, onlyShared, i)
    {
      var b := waiting[i];
      if b.id in q.handled {
        PassedOver(cs, counts, separator, budget, q, [b], b, onlyShared);
      } else {
        var group := GroupOf(groups, b);
        GroupOfOk(cs, groups, b);
        if onlyShared && |group| == 1 {
          PassedOver(cs, counts, separator, budget, q, group, b, onlyShared);
          assert group == [b];
        } else {
          BlockConsidered(cs, counts, separator, budget, q, group, b, onlyShared, k);
          q := Consider(q, group, counts, separator, budget);
        }
      }
    }
  }

  lemma {:induction false} PassedOver(
    cs: seq<Block>, counts: Counts, separator: nat, budget: nat, p: Pick, group: seq<Block>, b: Block, onlyShared: bool)
    requires Counted(cs, counts) && b in cs
    requires b.id in p.handled || (onlyShared && |group| == 1 && GroupOk(cs, group) && b in group)
    ensures BlockStep(cs, counts, separator, budget, p, b, onlyShared) == p
  {
    if b.id !in p.handled {
      GroupIsComponent(cs, group, b);
    }
  }

  lemma {:induction false} StepConsiders(
    cs: seq<Block>, counts: Counts, separator: nat, budget: nat, p: Pick, group: seq<Block>, b: Block, onlyShared: bool)
    requires Counted(cs, counts) && b in cs && b.id !in p.handled && !(onlyShared && |group| == 1)
    requires group == Members(cs, Component(cs, b.id)) && group != [] && Counted(group, counts)
    ensures BlockStep(cs, counts, separator, budget, p, b, onlyShared) == Consider(p, group, counts, separator, budget)
  {
    hide Members, Component, Added, Take, Refuse;
    assert HoldsRequired(group) <==> !(forall x <- group :: !x.required);
  }

  lemma {:induction false} BlockConsidered(
    cs: seq<Block>, counts: Counts, separator: nat, budget: nat, p: Pick, group: seq<Block>, b: Block, onlyShared: bool, k: nat)
    requires Distinct(cs) && Counted(cs, counts) && StateOk(cs, counts, separator, budget, p) && Swept(cs, p, k)
    requires GroupOk(cs, group) && b in group && b in cs && b.id !in p.handled
    requires (b.slot.Raw() ==> onlyShared) && !(onlyShared && |group| == 1)
    ensures Counted(group, counts) && group != []
    ensures var q := Consider(p, group, counts, separator, budget);
      && q == BlockStep(cs, counts, separator, budget, p, b, onlyShared)
      && StateOk(cs, counts, separator, budget, q) && Swept(cs, q, k) && p.handled <= q.handled && b.id in q.handled
  {
    hide StateOk, Swept, GroupOk, Members, Component, Consider, BlockStep;
    GroupIsComponent(cs, group, b);
    StateShape(cs, counts, separator, budget, p);
    GroupApart(cs, p.handled, group, b);
    ConsiderKeeps(cs, counts, separator, budget, p, group);
    StepConsiders(cs, counts, separator, budget, p, group, b, onlyShared);
    InIds(group, b);
    SweepGroup(cs, p, group, b, Consider(p, group, counts, separator, budget), k);
  }

  lemma {:induction false} StateShape(cs: seq<Block>, counts: Counts, separator: nat, budget: nat, p: Pick)
    requires Counted(cs, counts) && StateOk(cs, counts, separator, budget, p)
    ensures PickOk(cs, counts, separator, p) && p.cost <= budget && Thorough(cs, counts, separator, budget, p)
    ensures p.selected <= p.handled <= Ids(cs) && Closed(cs, p.handled)
  {
  }

  // ----- raw slots -----

  lemma {:induction false} SequencedDistinct(bs: seq<Block>)
    requires Distinct(bs)
    ensures Distinct(Sequenced(bs))
  {
    if bs != [] {
      var n := |bs| - 1;
      SequencedDistinct(bs[..n]);
      var rest := Sequenced(bs[..n]);
      forall k | 0 <= k < |rest| ensures rest[k].id != bs[n].id {
        assert rest[k] in bs[..n];
      }
    }
  }

  lemma {:induction false} SubSingles(cs: seq<Block>, rest: seq<Block>, from: nat, handled: set<Id>)
    requires Singles(cs, rest, handled) && from <= |Sequenced(rest)|
    ensures Singles(cs, Sequenced(rest)[from..], handled) && Ids(Sequenced(rest)[from..]) <= Ids(rest)
  {
    hide GroupOk;
    SequencedDistinct(rest);
    var raw := Sequenced(rest)[from..];
    forall k | 0 <= k < |raw| ensures GroupOk(cs, [raw[k]]) && raw[k].id !in handled && raw[k].id in Ids(rest) {
      assert raw[k] == Sequenced(rest)[from + k];
    }
  }

  /** In the affordable case the whole rest of a raw slot fits, so it is the suffix that is taken. */
  lemma {:induction false} WholeRestTaken(
    cs: seq<Block>, counts: Counts, separator: nat, budget: nat, p: Pick, slot: Slot, rest: seq<Block>, from: nat, start: nat)
    requires Distinct(cs) && Counted(cs, counts) && StateOk(cs, counts, separator, budget, p) && Affordable(cs, counts, separator, budget)
    requires slot.Raw() && Swept(cs, p, slot.Rank()) && rest == Waiting(cs, slot, p.handled) && Singles(cs, rest, p.handled)
    requires from <= |Sequenced(rest)| && (Sequenced(rest) != [] ==> Sequenced(rest)[from..] != [])
    requires 0 < from < |Sequenced(rest)| ==> !Adjacent(Sequenced(rest)[from - 1], Sequenced(rest)[from])
    requires start <= |Sequenced(rest)[from..]|
    requires forall s :: 0 <= s < start ==>
      var longer := Members(cs, p.selected) + Sequenced(rest)[from..][s..];
      Counted(longer, counts) && Estimate(longer, counts, separator) > budget
    ensures Sequenced(rest)[from..][start..] == rest && Ids(rest) <= Need(cs)
  {
    hide Members, Sum, Estimate, Cost, PickOk, Need, GroupOk;
    forall b | b in cs && b.slot == slot ensures b.id !in p.handled {
    }
    WaitingSame(cs, slot, p.handled);
    TailOfContiguous(rest, from);
    RestNeeded(cs, slot, p.handled);
    TakeAllKeeps(cs, counts, separator, p, rest);
    RestFits(cs, counts, separator, budget, p, rest);
    assert rest[0..] == rest;
  }

  lemma {:induction false} RestNeeded(cs: seq<Block>, slot: Slot, handled: set<Id>)
    requires RawSolo(cs) && slot.Raw() && Distinct(cs)
    ensures Ids(Waiting(cs, slot, handled)) <= Need(cs)
  {
    hide Members, Component, ClosureOf, GroupOk;
    assert RequiredIds(cs) <= Ids(cs);
    ClosureIsLeast(cs, RequiredIds(cs));
    var rest := Waiting(cs, slot, handled);
    forall id | id in Ids(rest) ensures id in Need(cs) {
      var k :| 0 <= k < |rest| && rest[k].id == id;
      var i :| 0 <= i < |cs| && cs[i] == rest[k];
      assert cs[i].required;
    }
  }

  lemma {:induction false} RestFits(cs: seq<Block>, counts: Counts, separator: nat, budget: nat, p: Pick, rest: seq<Block>)
    requires Counted(cs, counts) && StateOk(cs, counts, separator, budget, p) && Affordable(cs, counts, separator, budget)
    requires Ids(rest) <= Need(cs) && Counted(rest, counts) && Counted(Members(cs, p.selected) + rest, counts)
    requires TookAll(cs, counts, separator, p, rest, TakeAll(p, rest, counts, separator))
    ensures Estimate(Members(cs, p.selected) + rest, counts, separator) <= budget
  {
    hide Members, Sum, Closed, Need, RawSolo, RawContiguous, Estimate, Ids;
    TookCost(cs, counts, separator, p, rest, TakeAll(p, rest, counts, separator));
    CostGrows(cs, counts, separator, p.selected + Ids(rest), Need(cs));
  }

  lemma {:induction false} TookCost(cs: seq<Block>, counts: Counts, separator: nat, p: Pick, bs: seq<Block>, q: Pick)
    requires Counted(cs, counts) && Counted(Members(cs, p.selected) + bs, counts) && TookAll(cs, counts, separator, p, bs, q)
    ensures Estimate(Members(cs, p.selected) + bs, counts, separator) == Cost(cs, counts, separator, p.selected + Ids(bs))
  {
    hide Members, Sum, Closed, Estimate, Ids;
  }

  method TakeSingles(p: Pick, raw: seq<Block>, counts: Counts, separator: nat) returns (q: Pick)
    requires Counted(raw, counts)
    ensures q == TakeAll(p, raw, counts, separator)
  {
    q := p;
    for k := 0 to |raw|
      invariant q == TakeAll(p, raw[..k], counts, separator)
    {
      assert raw[..k + 1][..k] == raw[..k];
      q := Take(q, [raw[k]], counts, separator);
    }
    assert raw[..|raw|] == raw;
  }

  method RefuseSingles(p: Pick, rest: seq<Block>, taken: set<Id>, counts: Counts) returns (q: Pick)
    requires Counted(rest, counts)
    ensures q == RefuseSome(p, rest, taken, counts, RawPrefixOmitted)
  {
    q := p;
    for k := 0 to |rest|
      invariant q == RefuseSome(p, rest[..k], taken, counts, RawPrefixOmitted)
    {
      assert rest[..k + 1][..k] == rest[..k];
      if rest[k].id !in taken {
        q := Refuse(q, [rest[k]], counts, RawPrefixOmitted);
      }
    }
    assert rest[..|rest|] == rest;
  }

  /** The state after a raw slot, from its taken suffix. */
  lemma {:induction false} RawHandled(
    cs: seq<Block>, counts: Counts, separator: nat, budget: nat, p: Pick, rest: seq<Block>, raw: seq<Block>)
    requires Counted(cs, counts) && StateOk(cs, counts, separator, budget, p)
    requires Singles(cs, rest, p.handled) && Singles(cs, raw, p.handled) && Ids(raw) <= Ids(rest)
    requires Counted(Members(cs, p.selected) + raw, counts) && Estimate(Members(cs, p.selected) + raw, counts, separator) <= budget
    requires Affordable(cs, counts, separator, budget) ==> raw == rest && Ids(rest) <= Need(cs)
    ensures Counted(raw, counts) && Counted(rest, counts)
    ensures var q := RefuseSome(TakeAll(p, raw, counts, separator), rest, Ids(raw), counts, RawPrefixOmitted);
      StateOk(cs, counts, separator, budget, q) && q.handled == p.handled + Ids(rest) && q.selected == p.selected + Ids(raw)
  {
    hide Members, Sum, Estimate, Cost, PickOk, Need, GroupOk, Affordable;
    TakeAllKeeps(cs, counts, separator, p, raw);
    StateShape(cs, counts, separator, budget, p);
    var taken := TakeAll(p, raw, counts, separator);
    forall k | 0 <= k < |rest| ensures rest[k].id in Ids(raw) <==> rest[k].id in taken.handled {
    }
    hide Ids;
    RefuseSomeKeeps(cs, counts, separator, taken, rest, Ids(raw), RawPrefixOmitted);
    assert p.handled + Ids(raw) + Ids(rest) == p.handled + Ids(rest);
  }

  method SweepRaw(
    cs: seq<Block>, groups: seq<seq<Block>>, slot: Slot, counts: Counts, separator: nat, budget: nat, p: Pick)
    returns (q: Pick)
    requires Distinct(cs) && GroupsOf(cs, groups) && Counted(cs, counts) && slot.Raw()
    requires StateOk(cs, counts, separator, budget, p) && Swept(cs, p, slot.Rank())
    ensures StateOk(cs, counts, separator, budget, q) && Swept(cs, q, slot.Rank() + 1)
    ensures q == SlotStep(cs, counts, separator, budget, p, slot)
  {
    hide EachStep, RawTail, FirstFit, TakeAll, RefuseSome, Members, Estimate, StateOk, Swept, GroupOk, GroupsOf, Affordable, Need, Ids, Sequenced, Waiting, Distinct, Adjacent, Contiguous;
    var waiting := Waiting(cs, slot, p.handled);
    var c := ConsiderEach(cs, groups, waiting, slot.Rank(), true, counts, separator, budget, p);
    var rest := Waiting(cs, slot, c.handled);
    RestSingles(cs, slot, p.handled, c.handled, waiting, rest);
    StateShape(cs, counts, separator, budget, c);
    PickShape(cs, counts, separator, c);
    var tail, from := ContiguousTail(rest);
    SubSingles(cs, rest, from, c.handled);
    SinglesCounted(cs, tail, counts);
    var raw, start := LongestSuffix(Members(cs, c.selected), tail, counts, separator, budget);
    SuffixSingles(cs, tail, start, c.handled);
    SinglesCounted(cs, rest, counts);
    if Affordable(cs, counts, separator, budget) {
      WholeRestTaken(cs, counts, separator, budget, c, slot, rest, from, start);
    }
    RawHandled(cs, counts, separator, budget, c, rest, raw);
    var t := TakeSingles(c, raw, counts, separator);
    q := RefuseSingles(t, rest, Ids(raw), counts);
    SinglesExtend(cs, c, raw, rest, q);
    GapsCost(cs, slot, c, q, rest, tail, from, start);
    RawSlotDone(cs, p, slot, c, q, rest);
  }

  lemma {:induction false} SinglesExtend(cs: seq<Block>, c: Pick, raw: seq<Block>, rest: seq<Block>, q: Pick)
    requires Singles(cs, raw, c.handled) && q.handled == c.handled + Ids(rest) && q.selected == c.selected + Ids(raw)
    ensures Extends(c, q)
  {
    hide GroupOk;
  }

  lemma {:induction false} SuffixSingles(cs: seq<Block>, tail: seq<Block>, start: nat, handled: set<Id>)
    requires Singles(cs, tail, handled) && start <= |tail|
    ensures Singles(cs, tail[start..], handled) && Ids(tail[start..]) <= Ids(tail)
  {
    hide GroupOk;
    forall k | 0 <= k < |tail[start..]| ensures tail[start..][k].id in Ids(tail) {
      assert tail[start..][k] == tail[start + k];
    }
  }

  lemma {:induction false} RestSingles(cs: seq<Block>, slot: Slot, before: set<Id>, handled: set<Id>, waiting: seq<Block>, rest: seq<Block>)
    requires Distinct(cs) && before <= handled && waiting == Waiting(cs, slot, before) && rest == Waiting(cs, slot, handled)
    requires forall i :: 0 <= i < |waiting| ==> waiting[i].id in handled || GroupOk(cs, [waiting[i]])
    ensures Singles(cs, rest, handled)
  {
    hide GroupOk;
    WaitingDistinct(cs, slot, handled);
    forall k | 0 <= k < |rest| ensures GroupOk(cs, [rest[k]]) {
      assert rest[k] in waiting;
      var i :| 0 <= i < |waiting| && waiting[i] == rest[k];
    }
  }

  lemma {:induction false} RawSlotDone(cs: seq<Block>, p: Pick, slot: Slot, c: Pick, q: Pick, rest: seq<Block>)
    requires Distinct(cs) && p.handled <= c.handled && Swept(cs, c, slot.Rank()) && rest == Waiting(cs, slot, c.handled)
    requires q.handled == c.handled + Ids(rest) && slot.Raw() && (GapFree(cs, slot.Rank() + 1) || !RawSolo(cs) || Missing(cs, q))
    ensures Swept(cs, q, slot.Rank() + 1)
  {
    hide RawSolo, GapFree, Missing;
    forall b | b in cs && b.slot.Rank() < slot.Rank() + 1 ensures b.id in q.handled {
      if b.slot.Rank() == slot.Rank() && b.id !in c.handled {
        SameSlot(b.slot, slot);
        assert b in rest;
        var k :| 0 <= k < |rest| && rest[k] == b;
      }
    }
    if RawSolo(cs) {
      forall b | b in cs && b.slot.Raw() && b.slot.Rank() >= slot.Rank() + 1 ensures b.id !in q.handled {
        forall k | 0 <= k < |rest| ensures rest[k].id != b.id {
          assert rest[k] in cs && rest[k].slot == slot;
        }
      }
    }
  }

  /** A list whose ids all lie in a contiguous suffix of its sequenced blocks is contiguous. */
  lemma {:induction false} SuffixOfAll(cs: seq<Block>, rest: seq<Block>, at: nat)
    requires Distinct(cs) && Distinct(rest) && (forall k :: 0 <= k < |rest| ==> rest[k] in cs)
    requires at <= |Sequenced(rest)| && Ids(rest) <= Ids(Sequenced(rest)[at..]) && Contiguous(Sequenced(rest)[at..])
    ensures Contiguous(rest)
  {
    hide Contiguous;
    var raw := Sequenced(rest)[at..];
    forall k | 0 <= k < |rest| ensures rest[k] in raw && rest[k].sequence.Some? {
      assert rest[k].id in Ids(rest);
      var i :| 0 <= i < |raw| && raw[i].id == rest[k].id;
      assert raw[i] == Sequenced(rest)[at + i];
      SameBlock(cs, raw[i], rest[k]);
    }
    SequencedAll(rest);
    if rest != [] {
      FirstInSuffix(rest, at);
    }
    assert rest[0..] == rest;
    assert rest == [] ==> rest == raw;
  }

  lemma {:induction false} FirstInSuffix(bs: seq<Block>, at: nat)
    requires Distinct(bs) && bs != [] && at <= |bs| && bs[0] in bs[at..]
    ensures at == 0
  {
    var i :| 0 <= i < |bs[at..]| && bs[at..][i] == bs[0];
    assert bs[at + i] == bs[0];
  }

  /** In a slot of solitary raw blocks with a gap, some required block is handled but not selected. */
  lemma {:induction false} GapMisses(cs: seq<Block>, slot: Slot, c: Pick, q: Pick, rest: seq<Block>, at: nat)
    requires Distinct(cs) && RawSolo(cs) && slot.Raw() && Swept(cs, c, slot.Rank()) && rest == Waiting(cs, slot, c.handled)
    requires at <= |Sequenced(rest)| && Contiguous(Sequenced(rest)[at..]) && !Contiguous(Waiting(cs, slot, {}))
    requires q.handled == c.handled + Ids(rest) && q.selected == c.selected + Ids(Sequenced(rest)[at..]) && c.selected <= c.handled
    ensures Missing(cs, q)
  {
    hide Contiguous, GroupOk, Ids;
    forall b | b in cs && b.slot == slot ensures b.id !in c.handled {
    }
    WaitingSame(cs, slot, c.handled);
    WaitingDistinct(cs, slot, c.handled);
    if Ids(rest) <= Ids(Sequenced(rest)[at..]) {
      SuffixOfAll(cs, rest, at);
    } else {
      var id :| id in Ids(rest) && id !in Ids(Sequenced(rest)[at..]);
      IdOfRequired(cs, c, rest, id);
    }
  }

  lemma {:induction false} IdOfRequired(cs: seq<Block>, c: Pick, rest: seq<Block>, id: Id)
    requires id in Ids(rest) && forall k :: 0 <= k < |rest| ==> rest[k] in cs && rest[k].required && rest[k].id !in c.handled
    ensures id in RequiredIds(cs) && id !in c.handled
  {
    var k :| 0 <= k < |rest| && rest[k].id == id;
    var i :| 0 <= i < |cs| && cs[i] == rest[k];
  }

  lemma {:induction false} SweptGap(cs: seq<Block>, p: Pick, k: nat)
    requires Swept(cs, p, k) && RawSolo(cs) && !GapFree(cs, k)
    ensures Missing(cs, p)
  {
  }

  lemma {:induction false} GapsCost(
    cs: seq<Block>, slot: Slot, c: Pick, q: Pick, rest: seq<Block>, tail: seq<Block>, from: nat, start: nat)
    requires Distinct(cs) && slot.Raw() && Swept(cs, c, slot.Rank()) && rest == Waiting(cs, slot, c.handled)
    requires from <= |Sequenced(rest)| && tail == Sequenced(rest)[from..] && Contiguous(tail) && start <= |tail|
    requires q.handled == c.handled + Ids(rest) && q.selected == c.selected + Ids(tail[start..]) && c.selected <= c.handled
    requires Extends(c, q)
    ensures GapFree(cs, slot.Rank() + 1) || !RawSolo(cs) || Missing(cs, q)
  {
    hide Ids, Missing, GroupOk, Extends, Swept, Contiguous, RawSolo, Sequenced, Distinct;
    if RawSolo(cs) && !GapFree(cs, slot.Rank() + 1) {
      if !GapFree(cs, slot.Rank()) {
        SweptGap(cs, c, slot.Rank());
        StillMissing(cs, c, q);
      } else {
        var other: Slot :| other.Raw() && other.Rank() < slot.Rank() + 1 && !Contiguous(Waiting(cs, other, {}));
        assert other.Rank() == slot.Rank();
        SameSlot(other, slot);
        assert tail[start..] == Sequenced(rest)[from + start..];
        SuffixContiguous(tail, start);
        GapMisses(cs, slot, c, q, rest, from + start);
      }
    }
  }

  lemma {:induction false} SuffixContiguous(bs: seq<Block>, start: nat)
    requires Contiguous(bs) && start <= |bs|
    ensures Contiguous(bs[start..])
  {
    forall k | 0 < k < |bs[start..]| ensures Adjacent(bs[start..][k - 1], bs[start..][k]) {
      assert Adjacent(bs[start + k - 1], bs[start + k]);
    }
  }

  // ----- the whole -----

  /** `_emergency_selection`. */
  method SelectEmergency(cs: seq<Block>, counts: Counts, separator: nat, budget: nat) returns (p: Pick)
    requires Distinct(cs) && Counted(cs, counts)
    ensures PickOk(cs, counts, separator, p) && p.handled == Ids(cs) && p.cost <= budget
    ensures p == EmergencyPick(cs, counts, separator, budget, |PRIORITY|)
    ensures Affordable(cs, counts, separator, budget) ==> p.selected == Need(cs)
    ensures RawSolo(cs) ==> (RequiredIds(cs) <= p.selected <==> Affordable(cs, counts, separator, budget))
  {
    hide StateOk, Swept, GroupOk, GroupsOf, Affordable, Need, PickOk, RawSolo, SlotStep;
    var groups := DependencyGroups(cs);
    p := NOTHING;
    StartOk(cs, counts, separator, budget);
    for k := 0 to |PRIORITY|
      invariant StateOk(cs, counts, separator, budget, p) && Swept(cs, p, k)
      invariant p == EmergencyPick(cs, counts, separator, budget, k)
    {
      SlotRank(k);
      if PRIORITY[k].Raw() {
        p := SweepRaw(cs, groups.value, PRIORITY[k], counts, separator, budget, p);
      } else {
        p := SweepSlot(cs, groups.value, PRIORITY[k], counts, separator, budget, p);
      }
    }
    AllSwept(cs, counts, separator, budget, p);
    RequiredIff(cs, counts, separator, budget, p);
  }

  lemma {:induction false} SlotRank(k: nat)
    requires k < |PRIORITY|
    ensures PRIORITY[k].Rank() == k
  {
  }

  lemma {:induction false} StartOk(cs: seq<Block>, counts: Counts, separator: nat, budget: nat)
    requires Counted(cs, counts)
    ensures StateOk(cs, counts, separator, budget, NOTHING) && Swept(cs, NOTHING, 0)
  {
    NothingOk(cs, counts, separator);
  }

  lemma {:induction false} AllSwept(cs: seq<Block>, counts: Counts, separator: nat, budget: nat, p: Pick)
    requires Counted(cs, counts) && StateOk(cs, counts, separator, budget, p) && Swept(cs, p, 9)
    ensures PickOk(cs, counts, separator, p) && p.handled == Ids(cs) && p.cost <= budget
    ensures Affordable(cs, counts, separator, budget) ==> p.selected == Need(cs)
  {
    hide PickOk, Affordable, RawSolo, Slot.Rank;
    StateShape(cs, counts, separator, budget, p);
    forall id | id in Ids(cs) ensures id in p.handled {
      var k :| 0 <= k < |cs| && cs[k].id == id;
      assert cs[k].slot.Rank() < 9;
    }
    assert Ids(cs) * Need(cs) == Need(cs);
  }

  lemma {:induction false} RequiredIff(cs: seq<Block>, counts: Counts, separator: nat, budget: nat, p: Pick)
    requires Counted(cs, counts) && PickOk(cs, counts, separator, p) && p.handled == Ids(cs) && p.cost <= budget && Swept(cs, p, 9)
    requires Affordable(cs, counts, separator, budget) ==> p.selected == Need(cs)
    ensures RawSolo(cs) ==> (RequiredIds(cs) <= p.selected <==> Affordable(cs, counts, separator, budget))
  {
    hide Members, Cost, RawSolo, GapFree, Slot.Rank;
    assert RequiredIds(cs) <= Ids(cs);
    ClosureIsLeast(cs, RequiredIds(cs));
    if RequiredIds(cs) <= p.selected {
      CostGrows(cs, counts, separator, Need(cs), p.selected);
    }
  }
}
