/** Candidate lists that are already canonical and in which no two blocks are companions. */
module SolitaryLists {
  import opened Common
  import opened Blocks
  import opened Closure
  import opened ClosureLoop
  import opened BlockOrder
  import opened Selection
  import opened NormalSelection
  import opened EmergencySelection
  import opened Budget

  lemma {:induction false} SortedStays(bs: seq<Block>)
    requires Sorted(bs)
    ensures OrderedBlocks(bs) == bs
  {
    if bs != [] {
      var n := |bs| - 1;
      SortedStays(bs[..n]);
      assert bs == bs[..n] + [bs[n]];
    }
  }

  lemma {:induction false} CanonicalStays(bs: seq<Block>)
    requires Sorted(bs) && Distinct(bs)
    ensures Canonical(bs) == bs
  {
    SortedStays(bs);
    FirstsOfDistinct(bs);
  }

  ghost predicate Solitary(cs: seq<Block>) {
    Distinct(cs) && forall i, j :: 0 <= i < |cs| && 0 <= j < |cs| && i != j ==> !Companions(cs[i], cs[j])
  }

  lemma {:induction false} ClosureOfSolitary(cs: seq<Block>, seed: set<Id>)
    requires Solitary(cs) && seed <= Ids(cs)
    ensures ClosureOf(cs, seed) == seed
  {
    assert Closed(cs, seed);
    ClosureIsLeast(cs, seed);
  }

  lemma {:induction false} MemberAlone(cs: seq<Block>, k: nat)
    requires Distinct(cs) && k < |cs|
    ensures Members(cs, {cs[k].id}) == [cs[k]]
  {
    var n := |cs| - 1;
    if k == n {
      NotAmong(cs, n);
      MembersSame(cs[..n], {cs[n].id}, {});
      NoMembers(cs[..n]);
    } else {
      MemberAlone(cs[..n], k);
      assert cs[k].id != cs[n].id;
    }
  }

  lemma {:induction false} SolitaryGroup(cs: seq<Block>, k: nat)
    requires Solitary(cs) && k < |cs|
    ensures Members(cs, Component(cs, cs[k].id)) == [cs[k]] && GroupOk(cs, [cs[k]])
  {
    ClosureOfSolitary(cs, {cs[k].id});
    MemberAlone(cs, k);
  }

  lemma {:induction false} Appended(a: Block, b: Block, c: Block)
    ensures [] + [a] == [a] && [] + [b] == [b] && [a] + [b] == [a, b] && [b] + [c] == [b, c] && [a, b] + [c] == [a, b, c]
  {
  }

  lemma {:induction false} MembersLast(bs: seq<Block>, b: Block, s: set<Id>)
    ensures Members(bs + [b], s) == if b.id in s then Members(bs, s) + [b] else Members(bs, s)
  {
    assert (bs + [b])[..|bs|] == bs;
  }

  lemma {:induction false} CountsForLast(bs: seq<Block>, b: Block, count: Counter)
    requires CountText(count, b.text).Ok?
    ensures CountsFor(bs + [b], count, None) == CountsFor(bs, count, None)[b.id := CountText(count, b.text).value]
  {
    hide CountText;
    assert (bs + [b])[..|bs|] == bs;
  }

  lemma {:induction false} CountsForThree(a: Block, b: Block, c: Block, count: Counter)
    requires CountText(count, a.text).Ok? && CountText(count, b.text).Ok? && CountText(count, c.text).Ok?
    ensures CountsFor([a, b, c], count, None)
      == map[][a.id := CountText(count, a.text).value][b.id := CountText(count, b.text).value][c.id := CountText(count, c.text).value]
  {
    assert CountsFor([], count, None) == map[];
    hide CountText, CountsFor;
    CountsForLast([], a, count);
    CountsForLast([a], b, count);
    CountsForLast([a, b], c, count);
    Appended(a, b, c);
  }

  /** What the constructors of a block and of a configuration demand. */
  predicate Constructed(b: Block) {
    && b.id != "" && b.sources != [] && (forall i, j :: 0 <= i < j < |b.sources| ==> b.sources[i] != b.sources[j])
    && b.score >= 0.0 && b.reason != "" && b.sequence != Some(0)
  }

  predicate Configured(c: Config) {
    c.target >= 1 && c.ceiling >= 1 && c.contextLimit >= 1 && c.reserved <= c.contextLimit
  }

  // ----- an ample budget -----

  lemma {:induction false} RepeatsOfDistinct(bs: seq<Block>)
    requires Distinct(bs)
    ensures Repeats(bs) == []
  {
    if bs != [] {
      var n := |bs| - 1;
      RepeatsOfDistinct(bs[..n]);
      FirstsOfDistinct(bs[..n]);
      NotAmong(bs, n);
    }
  }

  lemma {:induction false} EstimateGrows(bs: seq<Block>, k: nat, counts: Counts, separator: nat)
    requires Counted(bs, counts) && k <= |bs|
    ensures Counted(bs[..k], counts) && Estimate(bs[..k], counts, separator) <= Estimate(bs, counts, separator)
    decreases |bs|
  {
    if k < |bs| {
      var n := |bs| - 1;
      EstimateGrows(bs[..n], k, counts, separator);
      assert bs[..n][..k] == bs[..k] && bs == bs[..n] + [bs[n]];
      EstimateLast(bs[..n], bs[n], counts, separator);
    } else {
      assert bs[..k] == bs;
    }
  }

  lemma {:induction false} TakeOne(cs: seq<Block>, counts: Counts, separator: nat, budget: nat, p: Pick, k: nat)
    requires Solitary(cs) && Counted(cs, counts) && k < |cs| && cs[k].id !in p.handled
    requires p.cost + counts[cs[k].id] + (if p.count > 0 then separator else 0) <= budget
    ensures var q := NormalStep(cs, counts, separator, budget, p, cs[k]);
      && q.handled == p.handled + {cs[k].id} && q.selected == p.selected + {cs[k].id} && q.count == p.count + 1
      && q.cost == p.cost + counts[cs[k].id] + if p.count > 0 then separator else 0
  {
    hide Members, Component, Solitary, Sum;
    SolitaryGroup(cs, k);
    SumSingle(cs[k], counts);
    IdsOfSingle(cs[k]);
    assert separator * 0 == 0;
  }

  /** When all candidates fit together, the normal mode takes them all. */
  lemma {:induction false} AllTaken(cs: seq<Block>, counts: Counts, separator: nat, budget: nat, k: nat)
    requires Solitary(cs) && Counted(cs, counts) && k <= |cs| && Estimate(cs, counts, separator) <= budget
    ensures Counted(cs[..k], counts)
    ensures var p := NormalPick(cs, counts, separator, budget, k);
      p.handled == p.selected == Ids(cs[..k]) && p.count == k && p.cost == Estimate(cs[..k], counts, separator)
  {
    hide Estimate, Solitary, NormalStep, Ids;
    EstimateGrows(cs, k, counts, separator);
    if k == 0 {
      NoneTaken(cs, counts, separator, budget);
    } else {
      AllTaken(cs, counts, separator, budget, k - 1);
      SolitaryDistinct(cs);
      IdsAppend(cs[..k - 1], cs[k - 1]);
      NotAmong(cs, k - 1);
      assert cs[..k] == cs[..k - 1] + [cs[k - 1]];
      EstimateLast(cs[..k - 1], cs[k - 1], counts, separator);
      TakeOne(cs, counts, separator, budget, NormalPick(cs, counts, separator, budget, k - 1), k - 1);
    }
  }

  lemma {:induction false} SolitaryDistinct(cs: seq<Block>)
    requires Solitary(cs)
    ensures Distinct(cs)
  {
  }

  lemma {:induction false} NoneTaken(cs: seq<Block>, counts: Counts, separator: nat, budget: nat)
    requires Counted(cs, counts)
    ensures NormalPick(cs, counts, separator, budget, 0) == NOTHING && Estimate(cs[..0], counts, separator) == 0 && Ids(cs[..0]) == {}
  {
  }

  lemma {:induction false} AllChosen(cs: seq<Block>, counts: Counts, separator: nat, budget: nat)
    requires Solitary(cs) && Counted(cs, counts) && Estimate(cs, counts, separator) <= budget
    ensures ChosenIds(cs, counts, separator, budget) == Ids(cs)
  {
    hide Solitary, Estimate, NormalPick, EmergencyPick, Ids;
    AllTaken(cs, counts, separator, budget, |cs|);
    assert cs[..|cs|] == cs;
  }

  /** A canonical list without companions that fits its estimate: the request comes to the exact step on all of it. */
  lemma {:induction false} AmplePacking(cs: seq<Block>, q: Request, budget: nat)
    requires Sorted(cs) && Solitary(cs) && CountText(q.count, SEPARATOR).Ok?
    requires Estimate(cs, CountsFor(cs, q.count, q.provided), CountText(q.count, SEPARATOR).value) <= budget
    ensures Packing(cs, q, budget) == Trim(q.count, cs, budget)
  {
    hide CountText, CountsFor, Trim, ChosenIds, Estimate, Sorted, Canonical;
    SolitaryDistinct(cs);
    CanonicalStays(cs);
    AllChosen(cs, CountsFor(cs, q.count, q.provided), CountText(q.count, SEPARATOR).value, budget);
    MembersOfAll(cs, Ids(cs));
    assert RequiredIds(cs) <= Ids(cs);
  }

  /** Such a request fails exactly as the exact step on the whole list does. */
  lemma {:induction false} AmpleError(cs: seq<Block>, q: Request)
    requires Sorted(cs) && Solitary(cs) && FixedError(q).None? && CountText(q.count, SEPARATOR).Ok?
    requires forall k :: 0 <= k < |cs| ==> CountOf(cs[k], q.count, q.provided).Ok?
    requires Estimate(cs, CountsFor(cs, q.count, q.provided), CountText(q.count, SEPARATOR).value) <= RequestBudget(q)
    ensures var r := Trim(q.count, cs, RequestBudget(q)); RequestError(cs, q) == if r.Ok? then None else Some(r.error)
  {
    hide CountText, CountsFor, Trim, Estimate, Packing, CountOf, CountsError, Sorted, Firsts, Repeats, OrderedBlocks, Ids, TextsError;
    SolitaryDistinct(cs);
    SortedStays(cs);
    CanonicalStays(cs);
    RepeatsOfDistinct(cs);
    CountsErrorMeans(cs, q.count, q.provided);
    NoTexts(q.count);
    AmplePacking(cs, q, RequestBudget(q));
  }

  lemma {:induction false} NoTexts(count: Counter)
    ensures TextsError([], count) == None
  {
  }
}
