/** A request whose required blocks would fit together, and which fails because of a gap between two raw blocks. */
module RawGaps {
  import opened Common
  import opened Blocks
  import opened Closure
  import opened ClosureLoop
  import opened BlockOrder
  import opened Selection
  import opened NormalSelection
  import opened EmergencySelection
  import opened Budget
  import opened SolitaryLists

  /** When the first candidate takes the whole budget, the normal mode takes nothing else. */
  lemma {:induction false} OnlyFirst(cs: seq<Block>, counts: Counts, separator: nat, budget: nat, k: nat)
    requires Solitary(cs) && Counted(cs, counts) && 0 < k <= |cs| && counts[cs[0].id] == budget && separator > 0
    ensures var p := NormalPick(cs, counts, separator, budget, k);
      p.cost == budget && p.count == 1 && p.selected == {cs[0].id} && p.handled == Ids(cs[..k])
  {
    hide Members, Component;
    var p := NormalPick(cs, counts, separator, budget, k - 1);
    SolitaryGroup(cs, k - 1);
    SumSingle(cs[k - 1], counts);
    IdsOfSingle(cs[k - 1]);
    IdsAppend(cs[..k - 1], cs[k - 1]);
    assert cs[..k] == cs[..k - 1] + [cs[k - 1]];
    if k > 1 {
      OnlyFirst(cs, counts, separator, budget, k - 1);
      NotAmong(cs, k - 1);
      assert NormalStep(cs, counts, separator, budget, p, cs[k - 1]) == Refuse(p, [cs[k - 1]], counts, InsufficientBudget);
    } else {
      assert NormalStep(cs, counts, separator, budget, p, cs[k - 1]) == Take(p, [cs[k - 1]], counts, separator);
    }
  }

  lemma {:induction false} FirstTakesAll(cs: seq<Block>, counts: Counts, separator: nat, budget: nat, k: nat)
    requires Solitary(cs) && Counted(cs, counts) && 0 < k < |cs| && counts[cs[0].id] == budget && separator > 0 && cs[k].required
    ensures NormalMisses(cs, counts, separator, budget)
  {
    hide NormalPick;
    OnlyFirst(cs, counts, separator, budget, |cs|);
    assert cs[..|cs|] == cs;
    assert cs[0].id != cs[k].id;
    assert cs[k].id in RequiredIds(cs);
  }

  lemma {:induction false} WaitingLast(bs: seq<Block>, b: Block, slot: Slot)
    ensures Waiting(bs + [b], slot, {}) == if b.slot == slot then Waiting(bs, slot, {}) + [b] else Waiting(bs, slot, {})
  {
    assert (bs + [b])[..|bs|] == bs;
  }

  lemma {:induction false} LastTwoWait(a: Block, b: Block, c: Block, slot: Slot)
    requires a.slot != slot && b.slot == c.slot == slot
    ensures Waiting([a, b, c], slot, {}) == [b, c]
  {
    assert Waiting([], slot, {}) == [];
    hide Waiting;
    WaitingLast([], a, slot);
    WaitingLast([a], b, slot);
    WaitingLast([a, b], c, slot);
    Appended(a, b, c);
  }

  lemma {:induction false} GapBetween(cs: seq<Block>, slot: Slot, a: Block, b: Block)
    requires slot.Raw() && Waiting(cs, slot, {}) == [a, b] && !Adjacent(a, b)
    ensures !RawContiguous(cs)
  {
    assert !Adjacent([a, b][0], [a, b][1]);
    assert slot.Rank() < |PRIORITY|;
  }

  lemma {:induction false} LastTwoMembers(a: Block, b: Block, c: Block, s: set<Id>)
    requires a.id !in s && b.id in s && c.id in s
    ensures Members([a, b, c], s) == [b, c]
  {
    assert Members([], s) == [];
    hide Members;
    MembersLast([], a, s);
    MembersLast([a], b, s);
    MembersLast([a, b], c, s);
    Appended(a, b, c);
  }

  // ----- the request -----

  const GOAL := Block("a", ActiveGoal, Goal, "0123456789", ["e0"], 1.0, "goal", false, None, None, true)
  const FIRST := Block("b", RawDelta, RawEvent, "x", ["e1"], 1.0, "raw", true, None, Some(1), true)
  const THIRD := Block("c", RawDelta, RawEvent, "y", ["e3"], 1.0, "raw", true, None, Some(3), true)

  const CANDIDATES := [GOAL, FIRST, THIRD]

  /** One token per character, and ten of them for everything. */
  const REQUEST := Request("", 0, 0, t => Tokens(|t|), Config(10, 10, 10, 0, 0), None)

  const COUNTS: Counts := map["a" := 10, "b" := 1, "c" := 1]

  lemma {:induction false} CandidatesOrder()
    ensures Distinct(CANDIDATES) && Sorted(CANDIDATES)
  {
    assert GOAL.slot.Rank() == 0 && FIRST.slot.Rank() == 2 && THIRD.slot.Rank() == 2;
    assert RawOrder(FIRST) == 1 && RawOrder(THIRD) == 3;
    hide Slot.Rank, RawOrder;
    assert !Before(FIRST, GOAL) && !Before(THIRD, FIRST);
  }

  lemma {:induction false} CandidatesSolitary()
    ensures Solitary(CANDIDATES)
  {
    CandidatesOrder();
    hide Sorted;
    assert !GOAL.kind.DependencyKind? && !FIRST.kind.DependencyKind? && !THIRD.kind.DependencyKind?;
  }

  lemma {:induction false} CandidatesSolo()
    ensures RawSolo(CANDIDATES)
  {
    CandidatesSolitary();
    SolitaryGroup(CANDIDATES, 1);
    SolitaryGroup(CANDIDATES, 2);
    hide Solitary, GroupOk;
  }

  lemma {:induction false} CandidatesGap()
    ensures !RawContiguous(CANDIDATES)
  {
    hide RawContiguous;
    LastTwoWait(GOAL, FIRST, THIRD, RawDelta);
    GapBetween(CANDIDATES, RawDelta, FIRST, THIRD);
  }

  lemma {:induction false} CandidatesRequired()
    ensures RequiredIds(CANDIDATES) == {"b", "c"} && Need(CANDIDATES) == {"b", "c"}
  {
    CandidatesSolitary();
    assert CANDIDATES[1].required && CANDIDATES[2].required;
    assert RequiredIds(CANDIDATES) <= Ids(CANDIDATES);
    ClosureOfSolitary(CANDIDATES, RequiredIds(CANDIDATES));
  }

  lemma {:induction false} CandidatesCounts()
    ensures CountsFor(CANDIDATES, REQUEST.count, None) == COUNTS && Counted(CANDIDATES, COUNTS)
  {
    CountsForThree(GOAL, FIRST, THIRD, REQUEST.count);
  }

  lemma {:induction false} CandidatesCost()
    requires Counted(CANDIDATES, COUNTS)
    ensures Cost(CANDIDATES, COUNTS, 2, {"b", "c"}) == 4
  {
    LastTwoMembers(GOAL, FIRST, THIRD, {"b", "c"});
    assert [FIRST] + [THIRD] == [FIRST, THIRD];
    SumSingle(FIRST, COUNTS);
    SumLast([FIRST], THIRD, COUNTS);
  }

  /** The required blocks cost 4 of 10 tokens, and yet the request is not feasible: the goal, which is optional, comes
      first and takes all 10, and the emergency mode keeps only the raw block behind the gap. */
  lemma {:induction false} GapDefeatsRequest()
    ensures Configured(REQUEST.config) && forall b <- CANDIDATES :: Constructed(b)
    ensures Favourable(CANDIDATES, REQUEST) && RequestBudget(REQUEST) == 10 && JointCost(CANDIDATES, REQUEST) == 4
    ensures !Feasible(CANDIDATES, REQUEST)
  {
    hide CountsFor, Cost, Need, NormalMisses, RawSolo, RawContiguous, Sorted, Solitary, OrderedBlocks, Firsts;
    CandidatesOrder();
    CanonicalStays(CANDIDATES);
    CandidatesSolitary();
    CandidatesSolo();
    CandidatesGap();
    CandidatesRequired();
    CandidatesCounts();
    CandidatesCost();
    FirstTakesAll(CANDIDATES, COUNTS, 2, 10, 1);
  }

  /** The failing call. */
  method AssembleAcrossGap() returns (r: Outcome<Assembly>)
    ensures r.Err? && JointCost(CANDIDATES, REQUEST) <= RequestBudget(REQUEST)
  {
    GapDefeatsRequest();
    hide Favourable, Feasible, JointCost, RequestBudget;
    r := Assemble(CANDIDATES, REQUEST);
  }
}
