/** A request that the plain assembly serves and that fails once a certified engine has chosen, because the tokenizer
    refuses the text of its choice. */
module RefusedChoice {
  import opened Common
  import opened Blocks
  import opened ClosureLoop
  import opened BlockOrder
  import opened Budget
  import opened EmergencySelection
  import opened SolitaryLists
  import opened Live

  const GOAL := Block("r", ActiveGoal, Goal, "r", ["e1"], 1.0, "goal", true, None, None, true)
  const PLAN := Block("a", ActiveTask, TaskContext, "a", ["e2"], 1.0, "plan", false, None, None, true)
  const DETAIL := Block("b", EpisodeBackground, EpisodeKind, "b", ["e3"], 1.0, "detail", false, None, None, true)

  const CANDIDATES := [GOAL, PLAN, DETAIL]

  /** One token per character, and a TokenizerError for the goal joined with the plan. */
  const REFUSING: Counter := t => if t == "r\n\na" then Refusal else Tokens(|t|)

  /** Counts characters, with nothing said about the goal joined with the plan. */
  ghost predicate CountsCharacters(count: Counter) {
    forall t :: t != "r\n\na" ==> count(t) == Tokens(|t|)
  }

  function Asking(count: Counter): (q: Request) {
    Request("", 0, 0, count, Config(100, 100, 100, 0, 0), None)
  }

  const BUILT := Built({"a", "b", "r"}, {}, {"e1", "e2", "e3"}, map[])

  /** The engine certifies the goal and the plan. */
  const CHOICE := EngineResult(OutcomeActive, [GOAL, PLAN], Some(Certificate(true, true, true)), false, map[])

  const ENGINE: Engine := (n, retained) => Returned(CHOICE)

  const COUNTS: Counts := map["r" := 1, "a" := 1, "b" := 1]

  // ----- the plain assembly -----

  lemma {:induction false} CandidatesShape()
    ensures Sorted(CANDIDATES) && Solitary(CANDIDATES) && (forall b <- CANDIDATES :: Constructed(b) && b.complete)
  {
    assert GOAL.slot.Rank() == 0 && PLAN.slot.Rank() == 5 && DETAIL.slot.Rank() == 7;
    hide Slot.Rank;
    assert !Before(PLAN, GOAL) && !Before(DETAIL, PLAN);
    assert !GOAL.kind.DependencyKind? && !PLAN.kind.DependencyKind? && !DETAIL.kind.DependencyKind?;
  }

  lemma {:induction false} Texts(count: Counter)
    requires CountsCharacters(count)
    ensures CountText(count, "") == Ok(0) && CountText(count, SEPARATOR) == Ok(2)
    ensures CountText(count, "r") == CountText(count, "a") == CountText(count, "b") == Ok(1)
    ensures CountText(count, Joined(CANDIDATES)) == Ok(7)
  {
    assert CANDIDATES[..2] == [GOAL, PLAN] && [GOAL, PLAN][..1] == [GOAL];
    assert Joined([GOAL, PLAN]) == "r" + SEPARATOR + "a";
    assert |Joined(CANDIDATES)| == 7;
  }

  lemma {:induction false} CandidatesCounts(count: Counter)
    requires CountsCharacters(count)
    ensures CountsFor(CANDIDATES, count, None) == COUNTS && Counted(CANDIDATES, COUNTS)
  {
    Texts(count);
    hide CountText;
    CountsForThree(GOAL, PLAN, DETAIL, count);
  }

  lemma {:induction false} CandidatesEstimate()
    requires Counted(CANDIDATES, COUNTS)
    ensures Estimate(CANDIDATES, COUNTS, 2) == 7
  {
    Appended(GOAL, PLAN, DETAIL);
    SumSingle(GOAL, COUNTS);
    EstimateLast([GOAL], PLAN, COUNTS, 2);
    EstimateLast([GOAL, PLAN], DETAIL, COUNTS, 2);
  }

  /** All three candidates fit, so the request succeeds without the engine. */
  lemma {:induction false} PlainSucceeds(count: Counter)
    requires CountsCharacters(count)
    ensures Assembles(CANDIDATES, Asking(count))
  {
    hide CountText, CountsFor, Estimate, Sorted, Solitary, Joined, Trim, RequestError, CountsCharacters;
    CandidatesShape();
    Texts(count);
    CandidatesCounts(count);
    CandidatesEstimate();
    AmpleError(CANDIDATES, Asking(count));
    TrimNow(count, CANDIDATES, 100);
  }

  // ----- the engine's choice -----

  lemma {:induction false} ChoiceForces()
    ensures Ids(CHOICE.selected) == {"a", "r"} <= Ids(CANDIDATES)
    ensures ForcedIds(CANDIDATES, CHOICE) == {"a", "r"} && Members(CANDIDATES, {"a", "r"}) == [GOAL, PLAN]
  {
    CandidatesShape();
    assert CHOICE.selected[0] == GOAL && CHOICE.selected[1] == PLAN;
    assert CANDIDATES[0] == GOAL && CANDIDATES[1] == PLAN && CANDIDATES[2] == DETAIL;
    assert RequiredIds(CANDIDATES) == {"r"};
    ClosureOfSolitary(CANDIDATES, {"a", "r"});
    FirstTwoMembers(GOAL, PLAN, DETAIL, {"a", "r"});
  }

  lemma {:induction false} FirstTwoMembers(a: Block, b: Block, c: Block, s: set<Id>)
    requires a.id in s && b.id in s && c.id !in s
    ensures Members([a, b, c], s) == [a, b]
  {
    assert Members([], s) == [];
    hide Members;
    MembersLast([], a, s);
    MembersLast([a], b, s);
    MembersLast([a, b], c, s);
    Appended(a, b, c);
  }

  /** The pair that reaches the final assembly: the plan has a new score, and nothing else has changed. */
  ghost function Pair(): (bs: seq<Block>) {
    [GOAL, Scored(PLAN, map[], 1)]
  }

  lemma {:induction false} CountsResolved(count: Counter)
    requires CountsCharacters(count)
    ensures ResolvedCounts(CANDIDATES, Asking(count)) == COUNTS
  {
    hide CountsFor;
    CandidatesCounts(count);
  }

  lemma {:induction false} PairProvided()
    ensures Provided([GOAL, PLAN], BUILT.provenance)
  {
  }

  lemma {:induction false} PairScored(counts: map<Id, int>)
    requires counts == COUNTS
    ensures Countable([GOAL, PLAN], counts) && ScoredPack([GOAL, PLAN], map[], counts) == Pair()
  {
    hide Scored;
    assert counts["r"] == 1 && counts["a"] == 1;
    assert ScoredPack([GOAL, PLAN], map[], counts)[0] == GOAL;
  }

  lemma {:induction false} ReachedBy(
    cs: seq<Block>, counts: map<Id, int>, built: Built, result: EngineResult, maxBlocks: int, forced: set<Id>, closure: seq<Block>)
    requires ForcedIds(cs, result) == forced && Members(cs, forced) == closure && |forced| <= maxBlocks && maxBlocks >= 1
    requires Ids(result.selected) <= Ids(cs) && Provided(closure, built.provenance) && Countable(closure, counts)
    ensures Reaches(cs, counts, built, result, maxBlocks)
    ensures FinalCandidates(cs, counts, built, result) == ScoredPack(closure, ScoresOf(built, result), counts)
  {
    hide ForcedIds, Members, Ids, Provided, Countable, ScoredPack;
  }

  lemma {:induction false} PairReached(counts: map<Id, int>)
    requires counts == COUNTS
    ensures Reaches(CANDIDATES, counts, BUILT, CHOICE, 10) && FinalCandidates(CANDIDATES, counts, BUILT, CHOICE) == Pair()
  {
    hide ForcedIds, Members, Scored, Ids, Provided, Countable, ScoredPack, Pair, Reaches, FinalCandidates;
    ChoiceForces();
    PairProvided();
    PairScored(counts);
    ReachedBy(CANDIDATES, counts, BUILT, CHOICE, 10, {"a", "r"}, [GOAL, PLAN]);
  }

  lemma {:induction false} PairShape()
    ensures Sorted(Pair()) && Solitary(Pair()) && Joined(Pair()) == "r\n\na"
  {
    var plan := Scored(PLAN, map[], 1);
    assert plan.id == "a" && plan.slot == ActiveTask && plan.kind == TaskContext && plan.text == "a";
    assert GOAL.slot.Rank() == 0 && plan.slot.Rank() == 5;
    hide Slot.Rank, Scored;
    assert !Before(plan, GOAL);
    assert Pair()[..1] == [GOAL];
    assert "r" + SEPARATOR + "a" == "r\n\na";
  }

  lemma {:induction false} FinalTexts()
    ensures CountText(REFUSING, "") == Ok(0) && CountText(REFUSING, SEPARATOR) == Ok(2)
    ensures CountText(REFUSING, "r\n\na") == Err(TokenizerRefused)
  {
    assert SEPARATOR != "r\n\na";
  }

  lemma {:induction false} EstimateOfTwo(a: Block, b: Block, count: Counter, provided: Option<map<Id, int>>)
    requires a.id != b.id && CountOf(a, count, provided) == CountOf(b, count, provided) == Ok(1)
    ensures var counts := CountsFor([a, b], count, provided);
      counts == map[a.id := 1, b.id := 1] && Counted([a, b], counts) && Estimate([a, b], counts, 2) == 4
  {
    var counts: Counts := map[a.id := 1, b.id := 1];
    assert [a, b][..1] == [a] && [a][..0] == [];
    assert CountsFor([a], count, provided) == map[a.id := 1];
    assert CountsFor([a, b], count, provided) == counts;
    assert [a] + [b] == [a, b];
    SumSingle(a, counts);
    EstimateLast([a], b, counts, 2);
  }

  lemma {:induction false} PairCounted(q: Request)
    requires q.provided == Some(COUNTS)
    ensures CountOf(Pair()[0], q.count, q.provided) == CountOf(Pair()[1], q.count, q.provided) == Ok(1)
    ensures Estimate(Pair(), CountsFor(Pair(), q.count, q.provided), 2) == 4
  {
    hide Scored, CountsFor, Estimate;
    assert Pair()[0].id == "r" && Pair()[1].id == "a";
    EstimateOfTwo(Pair()[0], Pair()[1], q.count, q.provided);
    assert Pair() == [Pair()[0], Pair()[1]];
  }

  /** The tokenizer refuses the text of the pair. */
  lemma {:induction false} PairRefused(q: Request)
    requires q == Asking(REFUSING).(provided := Some(COUNTS))
    ensures RequestError(Pair(), q) == Some(TokenizerRefused)
  {
    PairShape();
    FinalTexts();
    PairCounted(q);
    hide CountText, CountsFor, Estimate, Sorted, Solitary, Joined, Trim, RequestError, Pair, CountOf;
    AmpleError(Pair(), q);
    TrimNow(REFUSING, Pair(), 100);
  }

  /** Whether the tokenizer refuses throughout or only after the engine was asked: the plain assembly succeeds, and the
      engine's choice is refused. */
  lemma {:induction false} ChoiceRefused(count: Counter)
    requires CountsCharacters(count)
    ensures Assembles(CANDIDATES, Asking(count))
    ensures TokenizerStops(CANDIDATES, Asking(count), Active, true, Some(BUILT), ENGINE, REFUSING, 10)
    ensures CountsCharacters(REFUSING)
  {
    hide Reaches, FinalCandidates, RequestError, ResolvedCounts, Assembles, EngineDecides, LastReply, Pair, CountsCharacters;
    RefusingCounts();
    PlainSucceeds(count);
    ChoiceDecides();
    CountsResolved(count);
    PairReached(COUNTS);
    PairRefused(FinalRequest(CANDIDATES, Asking(count), REFUSING));
  }

  lemma {:induction false} ChoiceDecides()
    ensures EngineDecides(CANDIDATES, Active, true, Some(BUILT), ENGINE) && LastReply(ENGINE, BUILT) == Returned(CHOICE)
  {
    CandidatesShape();
    hide Sorted, Solitary;
  }

  /** The failing request. */
  method SelectRefused(count: Counter) returns (r: Outcome<LiveResult>)
    requires CountsCharacters(count)
    ensures Assembles(CANDIDATES, Asking(count)) && r == Err(TokenizerRefused)
  {
    hide CountsCharacters, Assembles, TokenizerStops, PlainError, Sorted, Solitary, OrderedBlocks, Firsts;
    ChoiceRefused(count);
    CandidatesShape();
    SolitaryDistinct(CANDIDATES);
    CanonicalStays(CANDIDATES);
    PlainIff(CANDIDATES, Asking(count));
    r := SelectLive(CANDIDATES, Asking(count), Active, true, Some(BUILT), ENGINE, REFUSING, 10);
  }

  lemma {:induction false} RefusingCounts()
    ensures CountsCharacters(REFUSING)
  {
  }
}
