/** Budgeted assembly: exact costs, the trimming loop, and the whole of `assemble`. */
module Budget {
  import opened Common
  import opened Blocks
  import opened Closure
  import opened ClosureLoop
  import opened BlockOrder
  import opened Selection
  import opened NormalSelection
  import opened EmergencySelection

  /** What a counter does with a text: a number of any sign, a TokenizerError, or another exception. */
  datatype Tally = Tokens(n: int) | Refusal | Crash
  type Counter = string -> Tally

  datatype BudgetError =
    | OpaqueCostInvalid | FixedCostInvalid | CounterFailure | CounterInvalid | RequiredExceedsBudget | InternalInvariant
    | TokenizerRefused

  datatype Outcome<+T> = Ok(value: T) | Err(error: BudgetError)

  /** `_count_text`: a TokenizerError passes through, any other exception becomes a counter failure. */
  function CountText(count: Counter, text: string): (r: Outcome<nat>) {
    match count(text)
    case Refusal => Err(TokenizerRefused)
    case Crash => Err(CounterFailure)
    case Tokens(n) => if n < 0 then Err(CounterInvalid) else Ok(n)
  }

  const SEPARATOR := "\n\n"

  /** `_projection_text`. */
  function Joined(bs: seq<Block>): (s: string) {
    if bs == [] then ""
    else if |bs| == 1 then bs[0].text
    else Joined(bs[..|bs| - 1]) + SEPARATOR + bs[|bs| - 1].text
  }

  // ----- additive counters -----

  ghost predicate Total(count: Counter) {
    forall t :: CountText(count, t).Ok?
  }

  /** Joining with the separator costs the two parts and the separator. */
  ghost predicate Additive(count: Counter) {
    && Total(count)
    && forall a, b :: CountText(count, a + SEPARATOR + b).value
         == CountText(count, a).value + CountText(count, SEPARATOR).value + CountText(count, b).value
  }

  ghost predicate Matches(bs: seq<Block>, counts: Counts, count: Counter)
    requires Counted(bs, counts)
  {
    forall k :: 0 <= k < |bs| ==> CountText(count, bs[k].text) == Ok(counts[bs[k].id])
  }

  lemma {:induction false} EmptyTextIsFree(count: Counter)
    requires Additive(count)
    ensures CountText(count, "") == Ok(0)
  {
    assert "" + SEPARATOR + "" == SEPARATOR;
    assert CountText(count, "" + SEPARATOR + "").value
      == CountText(count, "").value + CountText(count, SEPARATOR).value + CountText(count, "").value;
  }

  /** The exact cost of a projection is its estimate. */
  lemma {:induction false} JoinedCost(bs: seq<Block>, counts: Counts, count: Counter)
    requires Additive(count) && Counted(bs, counts) && Matches(bs, counts, count)
    ensures CountText(count, Joined(bs)) == Ok(Estimate(bs, counts, CountText(count, SEPARATOR).value))
  {
    if bs == [] {
      EmptyTextIsFree(count);
    } else if |bs| == 1 {
      SumSingle(bs[0], counts);
      assert bs == [bs[0]];
    } else {
      hide CountText;
      var n := |bs| - 1;
      JoinedCost(bs[..n], counts, count);
      EstimateLast(bs[..n], bs[n], counts, CountText(count, SEPARATOR).value);
      assert bs == bs[..n] + [bs[n]];
    }
  }

  // ----- the exact step -----

  /** A list that holds whole components of `cs` and all its required blocks. */
  ghost predicate Sound(cs: seq<Block>, selected: seq<Block>) {
    selected == Members(cs, Ids(selected)) && Closed(cs, Ids(selected)) && RequiredIds(cs) <= Ids(selected)
  }

  /** A component of the selection is closed in it, so taking it out leaves whole components of the list. */
  lemma {:induction false} RemovalClosed(cs: seq<Block>, selected: seq<Block>, gone: set<Id>)
    requires Distinct(cs) && Sound(cs, selected) && Closed(selected, gone)
    ensures Closed(cs, Ids(selected) - gone)
  {
    hide Members, Companions;
    var kept := Ids(selected) - gone;
    forall i, j | 0 <= i < |cs| && 0 <= j < |cs| && cs[i].id in kept && Companions(cs[i], cs[j]) ensures cs[j].id in kept {
      assert cs[j].id in Ids(selected);
      var a :| 0 <= a < |selected| && selected[a].id == cs[i].id;
      var b :| 0 <= b < |selected| && selected[b].id == cs[j].id;
      InList(cs, selected, a, i);
      InList(cs, selected, b, j);
      CompanionsSymmetric(cs[i], cs[j]);
    }
  }

  lemma {:induction false} InList(cs: seq<Block>, selected: seq<Block>, a: nat, i: nat)
    requires Distinct(cs) && Sound(cs, selected) && a < |selected| && i < |cs| && selected[a].id == cs[i].id
    ensures selected[a] == cs[i]
  {
    assert selected[a] in cs;
    SameBlock(cs, selected[a], cs[i]);
  }

  lemma {:induction false} RemovalKeepsRequired(cs: seq<Block>, selected: seq<Block>, group: seq<Block>)
    requires Distinct(cs) && Sound(cs, selected) && GroupOk(selected, group) && !HoldsRequired(group)
    ensures RequiredIds(cs) <= Ids(selected) - Ids(group)
  {
    hide Component, Closed;
    forall b | b in group ensures b in cs {
      var k :| 0 <= k < |group| && group[k] == b;
      assert b in selected;
      var i :| 0 <= i < |selected| && selected[i] == b;
    }
    RequiredInGroup(cs, group);
  }

  lemma {:induction false} RemovalKeeps(cs: seq<Block>, selected: seq<Block>, group: seq<Block>)
    requires Distinct(cs) && Sound(cs, selected) && GroupOk(selected, group) && !HoldsRequired(group)
    ensures var kept := Members(selected, Ids(selected) - Ids(group));
      Sound(cs, kept) && multiset(kept) + multiset(group) == multiset(selected) && |kept| < |selected|
  {
    hide Members, Closed, GroupOk, RequiredIds;
    var ids := Ids(selected) - Ids(group);
    var kept := Members(selected, ids);
    GroupIds(selected, group);
    RemovalClosed(cs, selected, Ids(group));
    RemovalKeepsRequired(cs, selected, group);
    MembersIds(selected, ids);
    assert Ids(selected) * ids == ids;
    MembersTwice(cs, Ids(selected), ids);
    MembersUnion(selected, ids, Ids(group));
    assert ids + Ids(group) == Ids(selected);
    MembersOfAll(selected, Ids(selected));
    GroupIsPicked(selected, group);
    assert |multiset(selected)| == |multiset(kept)| + |multiset(group)|;
  }

  lemma {:induction false} GroupIsPicked(cs: seq<Block>, group: seq<Block>)
    requires GroupOk(cs, group)
    ensures group == Members(cs, Ids(group)) && group != []
  {
    GroupIds(cs, group);
  }

  function PositionOf(bs: seq<Block>, id: Id): (n: nat)
    ensures n <= |bs| && (n < |bs| ==> bs[n].id == id)
  {
    if bs == [] then 0 else if bs[0].id == id then 0 else 1 + PositionOf(bs[1..], id)
  }

  /** `_lowest_priority_optional_group`: the group whose first block comes last. */
  method LowestPriority(groups: seq<seq<Block>>, selected: seq<Block>) returns (g: seq<Block>)
    requires groups != [] && forall k :: 0 <= k < |groups| ==> groups[k] != []
    ensures g in groups
    ensures forall k :: 0 <= k < |groups| ==> PositionOf(selected, groups[k][0].id) <= PositionOf(selected, g[0].id)
  {
    g := groups[0];
    for i := 1 to |groups|
      invariant g in groups
      invariant forall k :: 0 <= k < i ==> PositionOf(selected, groups[k][0].id) <= PositionOf(selected, g[0].id)
    {
      if PositionOf(selected, groups[i][0].id) > PositionOf(selected, g[0].id) {
        g := groups[i];
      }
    }
  }

  datatype Trimmed = Trimmed(selected: seq<Block>, text: string, cost: nat, removed: seq<Rejection>)

  predicate FitsAtOnce(count: Counter, bs: seq<Block>, budget: nat) {
    CountText(count, Joined(bs)).Ok? && CountText(count, Joined(bs)).value <= budget
  }

  /** The component to go next: of those without a required block, the one whose first block comes last. */
  ghost predicate GoesNext(bs: seq<Block>, group: seq<Block>) {
    Removable(bs, group)
    && forall other: seq<Block> :: Removable(bs, other) ==> PositionOf(bs, other[0].id) <= PositionOf(bs, group[0].id)
  }

  function WithoutGroup(bs: seq<Block>, group: seq<Block>): (r: seq<Block>) {
    Members(bs, Ids(bs) - Ids(group))
  }

  lemma {:induction false} PositionFound(bs: seq<Block>, id: Id)
    requires id in Ids(bs)
    ensures PositionOf(bs, id) < |bs|
  {
    var k :| 0 <= k < |bs| && bs[k].id == id;
    if bs[0].id != id {
      assert bs[1..][k - 1].id == id;
      PositionFound(bs[1..], id);
    }
  }

  /** There is never a choice. */
  lemma {:induction false} NextIsUnique(bs: seq<Block>, a: seq<Block>, b: seq<Block>)
    requires GoesNext(bs, a) && GoesNext(bs, b)
    ensures a == b
  {
    hide Members, Component;
    GroupIds(bs, a);
    GroupIds(bs, b);
    assert a[0] in a && b[0] in b;
    PositionFound(bs, a[0].id);
    PositionFound(bs, b[0].id);
  }

  lemma {:induction false} ShorterWithout(bs: seq<Block>, group: seq<Block>)
    requires GroupOk(bs, group)
    ensures |WithoutGroup(bs, group)| < |bs|
  {
    hide Members;
    var ids := Ids(bs) - Ids(group);
    GroupIds(bs, group);
    assert group[0] in group;
    MembersUnion(bs, ids, Ids(group));
    assert ids + Ids(group) == Ids(bs);
    MembersOfAll(bs, Ids(bs));
    GroupIsPicked(bs, group);
    assert |multiset(bs)| == |multiset(WithoutGroup(bs, group))| + |multiset(group)|;
  }

  /** What the exact step must come to: components go one by one, lowest priority first, until the exact count fits;
      it fails when a count fails or when only required components are left and still do not fit. */
  ghost function Trim(count: Counter, bs: seq<Block>, budget: nat): (r: Outcome<seq<Block>>)
    decreases |bs|
  {
    var cost := CountText(count, Joined(bs));
    if cost.Err? then Err(cost.error)
    else if cost.value <= budget then Ok(bs)
    else if !exists group :: GoesNext(bs, group) then Err(RequiredExceedsBudget)
    else
      var group :| GoesNext(bs, group);
      ShorterWithout(bs, group);
      Trim(count, WithoutGroup(bs, group), budget)
  }

  lemma {:induction false} TrimNext(count: Counter, bs: seq<Block>, budget: nat, group: seq<Block>)
    requires CountText(count, Joined(bs)).Ok? && CountText(count, Joined(bs)).value > budget && GoesNext(bs, group)
    ensures Trim(count, bs, budget) == Trim(count, WithoutGroup(bs, group), budget)
  {
    hide GoesNext, CountText, Joined, WithoutGroup;
    assert exists g :: GoesNext(bs, g);
    forall g | GoesNext(bs, g) ensures g == group {
      NextIsUnique(bs, g, group);
    }
  }

  lemma {:induction false} TrimStops(count: Counter, bs: seq<Block>, budget: nat)
    requires CountText(count, Joined(bs)).Ok? && CountText(count, Joined(bs)).value > budget
    requires forall group :: !Removable(bs, group)
    ensures Trim(count, bs, budget) == Err(RequiredExceedsBudget)
  {
    hide CountText, Joined;
  }

  lemma {:induction false} TrimNow(count: Counter, bs: seq<Block>, budget: nat)
    ensures var cost := CountText(count, Joined(bs));
      && (cost.Err? ==> Trim(count, bs, budget) == Err(cost.error))
      && (cost.Ok? && cost.value <= budget ==> Trim(count, bs, budget) == Ok(bs))
  {
    hide CountText, Joined;
  }

  lemma {:induction false} PickedNext(bs: seq<Block>, groups: seq<seq<Block>>, group: seq<Block>)
    requires (forall g :: g in groups <==> Removable(bs, g)) && group in groups && forall k :: 0 <= k < |groups| ==> groups[k] != []
    requires forall k :: 0 <= k < |groups| ==> PositionOf(bs, groups[k][0].id) <= PositionOf(bs, group[0].id)
    ensures GoesNext(bs, group) && GroupOk(bs, group) && !HoldsRequired(group)
  {
    forall other: seq<Block> | Removable(bs, other) ensures PositionOf(bs, other[0].id) <= PositionOf(bs, group[0].id) {
      var k :| 0 <= k < |groups| && groups[k] == other;
    }
  }

  /** Rejections of the exact step, each with the count of its block. */
  ghost predicate Removals(rs: seq<Rejection>, counts: Counts) {
    Priced(rs, counts) && forall k :: 0 <= k < |rs| ==> rs[k].reason == ComponentRemoved
  }

  lemma {:induction false} NoRemovals(counts: Counts)
    ensures Removals([], counts)
  {
  }

  lemma {:induction false} RemoveMore(rs: seq<Rejection>, group: seq<Block>, counts: Counts)
    requires Removals(rs, counts) && Counted(group, counts)
    ensures Removals(rs + RejectAll(group, counts, ComponentRemoved), counts)
  {
  }

  /** `_exact_final_selection`: removes optional components until the exact count fits. */
  method TrimExactly(cs: seq<Block>, start: seq<Block>, count: Counter, counts: Counts, budget: nat) returns (r: Outcome<Trimmed>)
    requires Distinct(cs) && Counted(cs, counts) && Sound(cs, start)
    ensures r.Ok? ==>
      && Sound(cs, r.value.selected) && r.value.text == Joined(r.value.selected)
      && CountText(count, r.value.text) == Ok(r.value.cost) && r.value.cost <= budget
      && multiset(r.value.selected) + multiset(RejectedBlocks(r.value.removed)) == multiset(start)
      && Removals(r.value.removed, counts)
    ensures Trim(count, start, budget) == if r.Ok? then Ok(r.value.selected) else Err(r.error)
    ensures FitsAtOnce(count, start, budget) ==>
      r == Ok(Trimmed(start, Joined(start), CountText(count, Joined(start)).value, []))
  {
    hide Sound, GroupOk, Joined, Members, CountText, Trim, Removable, HoldsRequired, Removals;
    NoRemovals(counts);
    var selected, removed := start, [];
    while true
      invariant Sound(cs, selected) && Trim(count, start, budget) == Trim(count, selected, budget)
      invariant multiset(selected) + multiset(RejectedBlocks(removed)) == multiset(start)
      invariant Removals(removed, counts)
      invariant (selected == start && removed == []) || !FitsAtOnce(count, start, budget)
      decreases |selected|
    {
      var text := Joined(selected);
      var cost := CountText(count, text);
      TrimNow(count, selected, budget);
      if cost.Err? {
        return Err(cost.error);
      }
      if cost.value <= budget {
        return Ok(Trimmed(selected, text, cost.value, removed));
      }
      SoundDistinct(cs, selected);
      var groups := RemovableGroups(selected);
      if groups.value == [] {
        TrimStops(count, selected, budget);
        return Err(RequiredExceedsBudget);
      }
      AllNonempty(selected, groups.value);
      var group := LowestPriority(groups.value, selected);
      PickedNext(selected, groups.value, group);
      TrimNext(count, selected, budget, group);
      RemovalKeeps(cs, selected, group);
      GroupCountedIn(cs, selected, counts, group);
      var more := RejectAll(group, counts, ComponentRemoved);
      RejectMore(removed, more);
      RemoveMore(removed, group, counts);
      removed := removed + more;
      selected := Members(selected, Ids(selected) - Ids(group));
    }
  }

  lemma {:induction false} SoundDistinct(cs: seq<Block>, selected: seq<Block>)
    requires Distinct(cs) && Sound(cs, selected)
    ensures Distinct(selected)
  {
    MembersDistinct(cs, Ids(selected));
  }

  lemma {:induction false} AllNonempty(cs: seq<Block>, groups: seq<seq<Block>>)
    requires forall g :: g in groups ==> Removable(cs, g)
    ensures forall k :: 0 <= k < |groups| ==> groups[k] != []
  {
    forall k | 0 <= k < |groups| ensures groups[k] != [] {
      assert groups[k] in groups;
    }
  }

  lemma {:induction false} GroupCountedIn(cs: seq<Block>, selected: seq<Block>, counts: Counts, group: seq<Block>)
    requires Counted(cs, counts) && Sound(cs, selected) && GroupOk(selected, group)
    ensures Counted(group, counts)
  {
    hide Component;
    MembersCounted(cs, Ids(selected), counts);
    GroupCounted(selected, counts, group);
  }

  // ----- counts -----

  /** `_validated_block_token_counts`: provided counts are looked up, otherwise each text is counted. */
  function CountOf(b: Block, count: Counter, provided: Option<map<Id, int>>): (r: Outcome<nat>) {
    if provided.None? then CountText(count, b.text)
    else if b.id !in provided.value || provided.value[b.id] < 0 then Err(CounterInvalid)
    else Ok(provided.value[b.id])
  }

  function CountsFor(cs: seq<Block>, count: Counter, provided: Option<map<Id, int>>): (r: Counts)
    ensures Counted(cs, r)
  {
    if cs == [] then map[]
    else
      var n := |cs| - 1;
      var rest, last := CountsFor(cs[..n], count, provided), CountOf(cs[n], count, provided);
      var r := rest[cs[n].id := if last.Ok? then last.value else 0];
      assert forall k :: 0 <= k < n ==> cs[k] == cs[..n][k];
      r
  }

  lemma {:induction false} CountsForAt(cs: seq<Block>, count: Counter, provided: Option<map<Id, int>>, k: nat)
    requires Distinct(cs) && k < |cs| && CountOf(cs[k], count, provided).Ok?
    ensures CountsFor(cs, count, provided)[cs[k].id] == CountOf(cs[k], count, provided).value
  {
    var n := |cs| - 1;
    if k < n {
      CountsForAt(cs[..n], count, provided, k);
    }
  }

  /** The first error of counting the blocks in order. Counting refuses a repeated id; looking up does not. */
  function CountsError(cs: seq<Block>, count: Counter, provided: Option<map<Id, int>>): (e: Option<BudgetError>) {
    if cs == [] then None
    else
      var n := |cs| - 1;
      var before, last := CountsError(cs[..n], count, provided), CountOf(cs[n], count, provided);
      if before.Some? then before
      else if provided.None? && cs[n].id in Ids(cs[..n]) then Some(InternalInvariant)
      else if last.Err? then Some(last.error)
      else None
  }

  /** Distinct blocks are counted exactly when each of them is. */
  lemma {:induction false} CountsErrorMeans(cs: seq<Block>, count: Counter, provided: Option<map<Id, int>>)
    requires Distinct(cs)
    ensures CountsError(cs, count, provided).None? <==> forall k :: 0 <= k < |cs| ==> CountOf(cs[k], count, provided).Ok?
  {
    if cs != [] {
      var n := |cs| - 1;
      CountsErrorMeans(cs[..n], count, provided);
      NotAmong(cs, n);
      assert forall k :: 0 <= k < n ==> cs[..n][k] == cs[k];
    }
  }

  /** The first error of a prefix is the first error. */
  lemma {:induction false} CountsErrorOnwards(cs: seq<Block>, count: Counter, provided: Option<map<Id, int>>, i: nat)
    requires i <= |cs| && CountsError(cs[..i], count, provided).Some?
    ensures CountsError(cs, count, provided) == CountsError(cs[..i], count, provided)
    decreases |cs|
  {
    if i < |cs| {
      var n := |cs| - 1;
      assert cs[..n][..i] == cs[..i];
      CountsErrorOnwards(cs[..n], count, provided, i);
    } else {
      assert cs[..i] == cs;
    }
  }

  lemma {:induction false} CountsErrorNext(cs: seq<Block>, count: Counter, provided: Option<map<Id, int>>, i: nat)
    requires i < |cs| && CountsError(cs[..i], count, provided).None?
    ensures CountsError(cs[..i + 1], count, provided)
      == if provided.None? && cs[i].id in Ids(cs[..i]) then Some(InternalInvariant)
         else if CountOf(cs[i], count, provided).Err? then Some(CountOf(cs[i], count, provided).error)
         else None
    ensures CountsError(cs[..i + 1], count, provided).Some? ==>
      CountsError(cs, count, provided) == CountsError(cs[..i + 1], count, provided)
  {
    hide CountOf, Ids;
    assert cs[..i + 1][..i] == cs[..i];
    if CountsError(cs[..i + 1], count, provided).Some? {
      CountsErrorOnwards(cs, count, provided, i + 1);
    }
  }

  lemma {:induction false} IdsNext(cs: seq<Block>, i: nat)
    requires i < |cs|
    ensures Ids(cs[..i + 1]) == Ids(cs[..i]) + {cs[i].id} && Ids(cs[..0]) == {}
  {
    IdsAppend(cs[..i], cs[i]);
    assert cs[..i + 1] == cs[..i] + [cs[i]];
  }

  /** `_validated_block_token_counts`, with `count_candidate_blocks` when no counts are given. */
  method ResolveCounts(cs: seq<Block>, count: Counter, provided: Option<map<Id, int>>) returns (r: Outcome<Counts>)
    ensures r.Ok? ==> r.value == CountsFor(cs, count, provided)
    ensures CountsError(cs, count, provided) == if r.Ok? then None else Some(r.error)
  {
    hide CountOf, Ids;
    var counts: Counts := map[];
    NoFirsts();
    assert CountsError([], count, provided).None? && cs[..0] == [];
    for i := 0 to |cs|
      invariant counts == CountsFor(cs[..i], count, provided) && counts.Keys == Ids(cs[..i])
      invariant CountsError(cs[..i], count, provided).None?
    {
      CountsErrorNext(cs, count, provided, i);
      IdsNext(cs, i);
      if provided.None? && cs[i].id in counts {
        return Err(InternalInvariant);
      }
      var n := CountOf(cs[i], count, provided);
      if n.Err? {
        return Err(n.error);
      }
      assert cs[..i + 1][..i] == cs[..i];
      counts := counts[cs[i].id := n.value];
    }
    assert cs[..|cs|] == cs;
    return Ok(counts);
  }

  /** The first error of counting the texts in order. */
  function TextsError(bs: seq<Block>, count: Counter): (e: Option<BudgetError>) {
    if bs == [] then None
    else
      var n := |bs| - 1;
      var before, last := TextsError(bs[..n], count), CountText(count, bs[n].text);
      if before.Some? then before else if last.Err? then Some(last.error) else None
  }

  lemma {:induction false} TextsErrorOnwards(bs: seq<Block>, count: Counter, i: nat)
    requires i <= |bs|
    ensures TextsError(bs[..i], count).Some? ==> TextsError(bs, count) == TextsError(bs[..i], count)
    decreases |bs|
  {
    hide CountText;
    if i < |bs| {
      var n := |bs| - 1;
      assert bs[..n][..i] == bs[..i];
      TextsErrorOnwards(bs[..n], count, i);
    } else {
      assert bs[..i] == bs;
    }
  }

  /** Rejections of repeated blocks, each with the count of its text. */
  ghost predicate AllRepeats(rs: seq<Rejection>, count: Counter) {
    forall k :: 0 <= k < |rs| ==> rs[k].reason == DuplicateId && CountText(count, rs[k].block.text) == Ok(rs[k].cost)
  }

  method RejectDuplicates(duplicates: seq<Block>, count: Counter) returns (r: Outcome<seq<Rejection>>)
    ensures r.Ok? ==> RejectedBlocks(r.value) == duplicates && AllRepeats(r.value, count)
    ensures TextsError(duplicates, count) == if r.Ok? then None else Some(r.error)
  {
    hide CountText;
    var rs: seq<Rejection> := [];
    assert TextsError([], count).None?;
    for i := 0 to |duplicates|
      invariant |rs| == i && AllRepeats(rs, count) && forall k :: 0 <= k < i ==> rs[k].block == duplicates[k]
      invariant TextsError(duplicates[..i], count).None?
    {
      assert duplicates[..i + 1][..i] == duplicates[..i];
      TextsErrorOnwards(duplicates, count, i + 1);
      var n := CountText(count, duplicates[i].text);
      if n.Err? {
        return Err(n.error);
      }
      rs := rs + [Rejection(duplicates[i], n.value, DuplicateId)];
    }
    assert duplicates[..|duplicates|] == duplicates;
    return Ok(rs);
  }

  // ----- assembly -----

  /** The constructor of the configuration guarantees the signs. */
  datatype Config = Config(target: nat, ceiling: nat, contextLimit: nat, reserved: nat, safety: nat)

  function InputBudget(c: Config): (n: int) {
    var context := c.contextLimit - c.reserved;
    var least := if c.target < c.ceiling then c.target else c.ceiling;
    if context < least then context else least
  }

  /** `n` is the greatest number within the target, the ceiling, and what the context leaves beside the reserved output. */
  ghost predicate InputLimit(c: Config, n: int) {
    && n <= c.target && n <= c.ceiling && n + c.reserved <= c.contextLimit
    && (n == c.target || n == c.ceiling || n + c.reserved == c.contextLimit)
  }

  lemma {:induction false} InputBudgetIs(c: Config)
    ensures InputLimit(c, InputBudget(c)) && forall n :: InputLimit(c, n) ==> n == InputBudget(c)
  {
  }

  /** An input of this size respects the configuration. */
  ghost predicate Admits(c: Config, n: int) {
    n <= c.target && n <= c.ceiling && n + c.reserved <= c.contextLimit
  }

  lemma {:induction false} AdmitsIff(c: Config, n: int)
    ensures Admits(c, n) <==> n <= InputBudget(c)
  {
  }

  datatype Mode = NormalMode | EmergencyMode

  datatype Trace = Trace(
    mode: Mode, inputBudget: int, currentCost: nat, fixedCost: nat, required: nat, opaqueCost: nat, acBudget: nat,
    selectedCost: nat, total: nat, rejections: seq<Rejection>)

  datatype Assembly = Assembly(text: string, selected: seq<Block>, trace: Trace)

  datatype Request = Request(
    current: string, opaqueCost: int, fixedCost: int, count: Counter, config: Config, provided: Option<map<Id, int>>)

  /** What every returned assembly satisfies. */
  ghost predicate Safe(cs: seq<Block>, q: Request, a: Assembly) {
    var t := a.trace;
    && InputLimit(q.config, t.inputBudget) && Admits(q.config, t.total)
    && t.opaqueCost == q.opaqueCost && t.fixedCost == q.fixedCost
    && CountText(q.count, q.current) == Ok(t.currentCost) && t.required == t.currentCost + q.fixedCost + q.config.safety
    && a.text == Joined(a.selected) && CountText(q.count, a.text) == Ok(t.selectedCost)
    && t.total == t.opaqueCost + t.required + t.selectedCost <= t.inputBudget
    && t.acBudget == t.inputBudget - t.opaqueCost - t.required
    && Sound(Canonical(cs), a.selected)
    && multiset(a.selected) + multiset(RejectedBlocks(t.rejections)) == multiset(cs)
  }

  datatype Chosen = Chosen(mode: Mode, selected: seq<Block>, rejections: seq<Rejection>)

  /** The normal mode, unless it leaves a required block out. */
  ghost function ChosenMode(cs: seq<Block>, counts: Counts, separator: nat, budget: nat): (m: Mode)
    requires Counted(cs, counts)
  {
    if NormalMisses(cs, counts, separator, budget) then EmergencyMode else NormalMode
  }

  ghost function ChosenIds(cs: seq<Block>, counts: Counts, separator: nat, budget: nat): (s: set<Id>)
    requires Counted(cs, counts)
  {
    if NormalMisses(cs, counts, separator, budget) then EmergencyPick(cs, counts, separator, budget, |PRIORITY|).selected
    else NormalPick(cs, counts, separator, budget, |cs|).selected
  }

  ghost function ChosenRejections(cs: seq<Block>, counts: Counts, separator: nat, budget: nat): (rs: seq<Rejection>)
    requires Counted(cs, counts)
  {
    if NormalMisses(cs, counts, separator, budget) then EmergencyPick(cs, counts, separator, budget, |PRIORITY|).rejected
    else NormalPick(cs, counts, separator, budget, |cs|).rejected
  }

  /** Both selection modes and the check that no required block is missing. */
  method Choose(cs: seq<Block>, counts: Counts, separator: nat, budget: nat) returns (r: Outcome<Chosen>)
    requires Distinct(cs) && Counted(cs, counts)
    ensures r.Err? ==> r.error == RequiredExceedsBudget
    ensures r.Ok? ==>
      && Sound(cs, r.value.selected) && Estimated(r.value.selected, counts, separator, budget)
      && multiset(r.value.selected) + multiset(RejectedBlocks(r.value.rejections)) == multiset(cs)
    ensures r.Ok? ==> ByChoice(r.value.rejections) && Priced(r.value.rejections, counts)
    ensures r.Ok? ==> r.value.rejections == ChosenRejections(cs, counts, separator, budget)
    ensures r.Ok? <==> RequiredIds(cs) <= ChosenIds(cs, counts, separator, budget)
    ensures r.Ok? ==>
      && r.value.mode == ChosenMode(cs, counts, separator, budget)
      && r.value.selected == Members(cs, ChosenIds(cs, counts, separator, budget))
    ensures RawSolo(cs) ==> (r.Ok? <==> !NormalMisses(cs, counts, separator, budget) || Affordable(cs, counts, separator, budget))
  {
    hide Affordable, PickOk, Members, Estimate, Closed, ByChoice, NormalPick, EmergencyPick, RawSolo;
    var normal, missing := SelectNormal(cs, counts, separator, budget);
    var mode, p := NormalMode, normal;
    if missing {
      mode := EmergencyMode;
      p := SelectEmergency(cs, counts, separator, budget);
      NeedHoldsRequired(cs);
    }
    var selected := Members(cs, p.selected);
    Picked(cs, counts, separator, p);
    if !(RequiredIds(cs) <= Ids(selected)) {
      return Err(RequiredExceedsBudget);
    }
    return Ok(Chosen(mode, selected, p.rejected));
  }

  ghost predicate Estimated(bs: seq<Block>, counts: Counts, separator: nat, budget: nat) {
    Counted(bs, counts) && Estimate(bs, counts, separator) <= budget
  }

  lemma {:induction false} NeedHoldsRequired(cs: seq<Block>)
    ensures RequiredIds(cs) <= Need(cs)
  {
    assert RequiredIds(cs) <= Ids(cs);
    ClosureIsLeast(cs, RequiredIds(cs));
  }

  /** The blocks picked by a finished state. */
  lemma {:induction false} Picked(cs: seq<Block>, counts: Counts, separator: nat, p: Pick)
    requires Counted(cs, counts) && PickOk(cs, counts, separator, p) && p.handled == Ids(cs)
    ensures ByChoice(p.rejected) && Priced(p.rejected, counts)
    ensures var selected := Members(cs, p.selected);
      && Ids(selected) == p.selected && selected == Members(cs, Ids(selected)) && Closed(cs, Ids(selected))
      && Counted(selected, counts) && Estimate(selected, counts, separator) == p.cost
      && multiset(selected) + multiset(RejectedBlocks(p.rejected)) == multiset(cs)
  {
    MembersIds(cs, p.selected);
    assert Ids(cs) * p.selected == p.selected;
    MembersOfAll(cs, Ids(cs));
    MembersCounted(cs, p.selected, counts);
  }

  /** The counter is additive, block counts agree with it, raw blocks are solitary and required, and the fixed part of
      the request fits the input budget. */
  ghost predicate Favourable(cs: seq<Block>, q: Request) {
    var u := Canonical(cs);
    && Additive(q.count) && RawSolo(u)
    && (forall k :: 0 <= k < |u| ==> CountOf(u[k], q.count, q.provided) == CountText(q.count, u[k].text))
    && q.opaqueCost >= 0 && q.fixedCost >= 0 && RequestBudget(q) >= 0
  }

  /** What is left for blocks. */
  ghost function RequestBudget(q: Request): (n: int)
    requires CountText(q.count, q.current).Ok?
  {
    InputBudget(q.config) - q.opaqueCost - (CountText(q.count, q.current).value + q.fixedCost + q.config.safety)
  }

  /** The joint cost of all components that hold a required block. */
  ghost function JointCost(cs: seq<Block>, q: Request): (n: nat)
    requires Total(q.count)
  {
    var u := Canonical(cs);
    Cost(u, CountsFor(u, q.count, q.provided), CountText(q.count, SEPARATOR).value, Need(u))
  }

  /** The normal mode leaves a required block of the request out. */
  ghost predicate RequestMisses(cs: seq<Block>, q: Request)
    requires Total(q.count)
  {
    var u := Canonical(cs);
    RequestBudget(q) >= 0
    && NormalMisses(u, CountsFor(u, q.count, q.provided), CountText(q.count, SEPARATOR).value, RequestBudget(q))
  }

  /** What is required fits jointly, and a gap in a raw slot does no harm because the normal mode serves the request. */
  ghost predicate Feasible(cs: seq<Block>, q: Request)
    requires Total(q.count)
  {
    JointCost(cs, q) <= RequestBudget(q) && (RawContiguous(Canonical(cs)) || !RequestMisses(cs, q))
  }

  ghost predicate Untrimmed(a: Assembly) {
    forall k :: 0 <= k < |a.trace.rejections| ==> !a.trace.rejections[k].reason.ComponentRemoved?
  }

  lemma {:induction false} CountsMatch(u: seq<Block>, count: Counter, provided: Option<map<Id, int>>)
    requires Distinct(u) && Total(count)
    requires forall k :: 0 <= k < |u| ==> CountOf(u[k], count, provided) == CountText(count, u[k].text)
    ensures Matches(u, CountsFor(u, count, provided), count)
  {
    hide CountText;
    forall k | 0 <= k < |u| ensures CountText(count, u[k].text) == Ok(CountsFor(u, count, provided)[u[k].id]) {
      CountsForAt(u, count, provided, k);
    }
  }

  lemma {:induction false} MembersMatch(cs: seq<Block>, s: set<Id>, counts: Counts, count: Counter)
    requires Counted(cs, counts) && Matches(cs, counts, count)
    ensures Counted(Members(cs, s), counts) && Matches(Members(cs, s), counts, count)
  {
    MembersCounted(cs, s, counts);
    var r := Members(cs, s);
    forall k | 0 <= k < |r| ensures CountText(count, r[k].text) == Ok(counts[r[k].id]) {
      var i :| 0 <= i < |cs| && cs[i] == r[k];
    }
  }

  /** An estimate within the budget is exact for an additive counter. */
  lemma {:induction false} EstimateIsExact(u: seq<Block>, selected: seq<Block>, counts: Counts, count: Counter, budget: nat)
    requires Counted(u, counts) && Matches(u, counts, count) && Additive(count) && selected == Members(u, Ids(selected))
    ensures Counted(selected, counts)
    ensures CountText(count, Joined(selected)) == Ok(Cost(u, counts, CountText(count, SEPARATOR).value, Ids(selected)))
  {
    MembersMatch(u, Ids(selected), counts, count);
    JoinedCost(selected, counts, count);
  }

  /** A sound selection costs at least the needed components. */
  lemma {:induction false} NeedIsInside(u: seq<Block>, selected: seq<Block>, counts: Counts, separator: nat)
    requires Counted(u, counts) && Sound(u, selected)
    ensures Cost(u, counts, separator, Need(u)) <= Cost(u, counts, separator, Ids(selected))
  {
    hide Members, Cost;
    assert RequiredIds(u) <= Ids(u);
    ClosureIsLeast(u, RequiredIds(u));
    CostGrows(u, counts, separator, Need(u), Ids(selected));
  }

  datatype Prepared = Prepared(u: seq<Block>, counts: Counts, separator: nat, repeated: seq<Rejection>)

  ghost predicate PreparedFor(cs: seq<Block>, q: Request, p: Prepared) {
    && p.u == Canonical(cs) && Distinct(p.u) && p.counts == CountsFor(p.u, q.count, q.provided) && Counted(p.u, p.counts)
    && CountText(q.count, SEPARATOR) == Ok(p.separator)
    && multiset(p.u) + multiset(RejectedBlocks(p.repeated)) == multiset(cs)
    && RejectedBlocks(p.repeated) == Repeats(OrderedBlocks(cs)) && AllRepeats(p.repeated, q.count)
  }

  /** The first error of the counting before the selection: canonical blocks, the separator, repeats. */
  ghost function PrepareError(cs: seq<Block>, q: Request): (e: Option<BudgetError>) {
    var counts, separator := CountsError(Canonical(cs), q.count, q.provided), CountText(q.count, SEPARATOR);
    if counts.Some? then counts
    else if separator.Err? then Some(separator.error)
    else TextsError(Repeats(OrderedBlocks(cs)), q.count)
  }

  /** Deduplication and all counting before the selection. */
  method Prepare(cs: seq<Block>, q: Request) returns (r: Outcome<Prepared>)
    ensures r.Ok? ==> PreparedFor(cs, q, r.value)
    ensures PrepareError(cs, q) == if r.Ok? then None else Some(r.error)
    ensures Favourable(cs, q) ==> r.Ok?
  {
    hide CountText, Canonical, Favourable, CountsError, TextsError, CountsFor, OrderedBlocks, Repeats, Distinct, Ids;
    var u, duplicates := Deduplicate(cs);
    CanonicalMeans(cs);
    if Favourable(cs, q) {
      FavourablePrepares(cs, q);
    }
    var counts := ResolveCounts(u, q.count, q.provided);
    if counts.Err? {
      return Err(counts.error);
    }
    var separator := CountText(q.count, SEPARATOR);
    if separator.Err? {
      return Err(separator.error);
    }
    var repeated := RejectDuplicates(duplicates, q.count);
    if repeated.Err? {
      return Err(repeated.error);
    }
    return Ok(Prepared(u, counts.value, separator.value, repeated.value));
  }

  lemma {:induction false} TextsCounted(bs: seq<Block>, count: Counter)
    requires Total(count)
    ensures TextsError(bs, count).None?
  {
    hide CountText;
    if bs != [] {
      TextsCounted(bs[..|bs| - 1], count);
    }
  }

  lemma {:induction false} FavourablePrepares(cs: seq<Block>, q: Request)
    requires Favourable(cs, q)
    ensures PrepareError(cs, q).None?
  {
    hide CountText, Canonical, RawSolo, CountsError, TextsError;
    CanonicalMeans(cs);
    CountsErrorMeans(Canonical(cs), q.count, q.provided);
    TextsCounted(Repeats(OrderedBlocks(cs)), q.count);
  }

  datatype Packed = Packed(mode: Mode, trimmed: Trimmed, rejections: seq<Rejection>)

  /** What the request comes to within a block budget: the chosen blocks, trimmed exactly. */
  ghost function Packing(cs: seq<Block>, q: Request, budget: nat): (r: Outcome<seq<Block>>)
    requires CountText(q.count, SEPARATOR).Ok?
  {
    var u := Canonical(cs);
    var counts, separator := CountsFor(u, q.count, q.provided), CountText(q.count, SEPARATOR).value;
    var chosen := ChosenIds(u, counts, separator, budget);
    if RequiredIds(u) <= chosen then Trim(q.count, Members(u, chosen), budget) else Err(RequiredExceedsBudget)
  }

  /** The report: repeated blocks, then what the selection refused, then what the exact step removed, each with its count. */
  ghost predicate Reported(cs: seq<Block>, q: Request, budget: nat, rs: seq<Rejection>)
    requires CountText(q.count, SEPARATOR).Ok?
  {
    var u := Canonical(cs);
    var counts := CountsFor(u, q.count, q.provided);
    exists repeated: seq<Rejection>, removed: seq<Rejection> ::
      && rs == repeated + ChosenRejections(u, counts, CountText(q.count, SEPARATOR).value, budget) + removed
      && RejectedBlocks(repeated) == Repeats(OrderedBlocks(cs)) && AllRepeats(repeated, q.count)
      && Removals(removed, counts)
  }

  ghost function PackingMode(cs: seq<Block>, q: Request, budget: nat): (m: Mode)
    requires CountText(q.count, SEPARATOR).Ok?
  {
    var u := Canonical(cs);
    ChosenMode(u, CountsFor(u, q.count, q.provided), CountText(q.count, SEPARATOR).value, budget)
  }

  /** The error of the fixed part of the request, if any. */
  ghost function FixedError(q: Request): (e: Option<BudgetError>)
    ensures e.None? ==> CountText(q.count, q.current).Ok? && RequestBudget(q) >= 0
  {
    var current := CountText(q.count, q.current);
    if q.opaqueCost < 0 then Some(OpaqueCostInvalid)
    else if q.fixedCost < 0 then Some(FixedCostInvalid)
    else if current.Err? then Some(current.error)
    else
      AdmitsIff(q.config, q.opaqueCost + (current.value + q.fixedCost + q.config.safety));
      if !Admits(q.config, q.opaqueCost + current.value + q.fixedCost + q.config.safety) then Some(RequiredExceedsBudget)
      else None
  }

  /** The error with which the request fails, or none: the first of the fixed part, the counting and the packing. */
  ghost function RequestError(cs: seq<Block>, q: Request): (e: Option<BudgetError>) {
    if FixedError(q).Some? then FixedError(q)
    else if PrepareError(cs, q).Some? then PrepareError(cs, q)
    else
      var packing := Packing(cs, q, RequestBudget(q));
      if packing.Err? then Some(packing.error) else None
  }

  /** The request succeeds. */
  ghost predicate Assembles(cs: seq<Block>, q: Request) {
    RequestError(cs, q).None?
  }

  /** The exact outcome of `assemble`: whether it succeeds, with which error, in which mode and with which blocks. */
  ghost predicate OutcomeIs(cs: seq<Block>, q: Request, r: Outcome<Assembly>) {
    && RequestError(cs, q) == (if r.Ok? then None else Some(r.error))
    && (r.Ok? ==>
          && r.value.selected == Packing(cs, q, RequestBudget(q)).value
          && r.value.trace.mode == PackingMode(cs, q, RequestBudget(q))
          && r.value.trace.acBudget == RequestBudget(q)
          && Reported(cs, q, RequestBudget(q), r.value.trace.rejections))
  }

  // ----- where errors come from -----

  /** Some text makes the counter raise this error. */
  ghost predicate Raises(count: Counter, e: BudgetError) {
    exists t :: CountText(count, t) == Err(e)
  }

  lemma {:induction false} NextIsRemovable(bs: seq<Block>, group: seq<Block>)
    requires GoesNext(bs, group)
    ensures GroupOk(bs, group)
  {
  }

  lemma {:induction false} TrimRaises(count: Counter, bs: seq<Block>, budget: nat)
    ensures var r := Trim(count, bs, budget); r.Err? ==> r.error == RequiredExceedsBudget || Raises(count, r.error)
    decreases |bs|
  {
    hide Joined, GoesNext, WithoutGroup, CountText;
    var cost := CountText(count, Joined(bs));
    TrimNow(count, bs, budget);
    if cost.Ok? && cost.value > budget && exists g :: GoesNext(bs, g) {
      var group :| GoesNext(bs, group);
      NextIsRemovable(bs, group);
      ShorterWithout(bs, group);
      TrimNext(count, bs, budget, group);
      TrimRaises(count, WithoutGroup(bs, group), budget);
    }
  }

  lemma {:induction false} TextsRaise(bs: seq<Block>, count: Counter)
    ensures var e := TextsError(bs, count); e.Some? ==> Raises(count, e.value)
  {
    hide CountText;
    if bs != [] {
      TextsRaise(bs[..|bs| - 1], count);
    }
  }

  lemma {:induction false} CountsRaise(cs: seq<Block>, count: Counter, provided: Option<map<Id, int>>)
    requires Distinct(cs)
    ensures var e := CountsError(cs, count, provided); e.Some? ==> e.value == CounterInvalid || Raises(count, e.value)
  {
    hide CountText;
    if cs != [] {
      var n := |cs| - 1;
      CountsRaise(cs[..n], count, provided);
      NotAmong(cs, n);
    }
  }

  lemma {:induction false} PackingRaises(cs: seq<Block>, q: Request, budget: nat)
    requires CountText(q.count, SEPARATOR).Ok?
    ensures var r := Packing(cs, q, budget); r.Err? ==> r.error == RequiredExceedsBudget || Raises(q.count, r.error)
  {
    hide Canonical, Trim, ChosenIds, Raises;
    var u := Canonical(cs);
    var chosen := ChosenIds(u, CountsFor(u, q.count, q.provided), CountText(q.count, SEPARATOR).value, budget);
    TrimRaises(q.count, Members(u, chosen), budget);
  }

  /** A failure is a bad cost, a bad given count, too small a budget, or what the counter did with some text. */
  lemma {:induction false} ErrorRaised(cs: seq<Block>, q: Request)
    ensures var e := RequestError(cs, q);
      e.Some? ==> e.value in {OpaqueCostInvalid, FixedCostInvalid, CounterInvalid, RequiredExceedsBudget} || Raises(q.count, e.value)
  {
    hide Canonical, CountsError, TextsError, Packing, OrderedBlocks, Repeats, CountText;
    CanonicalMeans(cs);
    CountsRaise(Canonical(cs), q.count, q.provided);
    TextsRaise(Repeats(OrderedBlocks(cs)), q.count);
    if FixedError(q).None? && PrepareError(cs, q).None? {
      PackingRaises(cs, q, RequestBudget(q));
    }
  }

  /** The internal checks of the code never fire: canonical candidates have each id once, and the exact count fits what
      the request leaves. */
  lemma {:induction false} NeverInternal(cs: seq<Block>, q: Request)
    ensures RequestError(cs, q) != Some(InternalInvariant)
  {
    hide RequestError;
    ErrorRaised(cs, q);
  }

  /** The counter raises no TokenizerError. */
  ghost predicate NeverRefuses(count: Counter) {
    forall t :: count(t) != Refusal
  }

  /** Only a refusing tokenizer makes a request fail as refused. */
  lemma {:induction false} NeverRefused(cs: seq<Block>, q: Request)
    requires NeverRefuses(q.count)
    ensures RequestError(cs, q) != Some(TokenizerRefused)
  {
    hide RequestError;
    ErrorRaised(cs, q);
  }

  /** Selection and exact trimming within a block budget. */
  method Pack(cs: seq<Block>, q: Request, p: Prepared, budget: nat) returns (r: Outcome<Packed>)
    requires PreparedFor(cs, q, p)
    ensures r.Ok? ==>
      && var t := r.value.trimmed;
      && Sound(p.u, t.selected) && t.text == Joined(t.selected) && CountText(q.count, t.text) == Ok(t.cost) && t.cost <= budget
      && multiset(t.selected) + multiset(RejectedBlocks(r.value.rejections)) == multiset(cs)
    ensures CountText(q.count, SEPARATOR).Ok?
    ensures Packing(cs, q, budget) == if r.Ok? then Ok(r.value.trimmed.selected) else Err(r.error)
    ensures r.Ok? ==> r.value.mode == PackingMode(cs, q, budget) && Reported(cs, q, budget, r.value.rejections)
    ensures Favourable(cs, q) && budget == RequestBudget(q) ==> (r.Ok? <==> Feasible(cs, q))
    ensures Favourable(cs, q) && budget == RequestBudget(q) && r.Ok? ==>
      forall k :: 0 <= k < |r.value.rejections| ==> !r.value.rejections[k].reason.ComponentRemoved?
  {
    hide CountText, Sound, Canonical, Joined, Members, Need, Cost, Estimate, ByChoice, RawSolo, RawContiguous, NormalMisses, NormalPick, Trim,
      ChosenIds, ChosenMode, ChosenRejections, Priced, AllRepeats, OrderedBlocks, Repeats;
    var chosen := Choose(p.u, p.counts, p.separator, budget);
    if chosen.Err? {
      return Err(chosen.error);
    }
    hide Affordable, NormalMisses;
    var trimmed := TrimExactly(p.u, chosen.value.selected, q.count, p.counts, budget);
    if Favourable(cs, q) && budget == RequestBudget(q) {
      FavourablePack(cs, q, p.u, p.counts, p.separator, chosen.value.selected, budget);
    }
    if trimmed.Err? {
      return Err(trimmed.error);
    }
    var rejections := p.repeated + chosen.value.rejections + trimmed.value.removed;
    RejectMore(p.repeated, chosen.value.rejections);
    RejectMore(p.repeated + chosen.value.rejections, trimmed.value.removed);
    Accounted(cs, p.u, RejectedBlocks(p.repeated), chosen.value.selected, trimmed.value.selected,
              RejectedBlocks(chosen.value.rejections), RejectedBlocks(trimmed.value.removed), RejectedBlocks(rejections));
    ReasonsOf(p.repeated, chosen.value.rejections, q.count);
    return Ok(Packed(chosen.value.mode, trimmed.value, rejections));
  }

  lemma {:induction false} FavourableFits(cs: seq<Block>, q: Request)
    requires Favourable(cs, q)
    ensures FixedError(q).None?
  {
    hide CountText, RawSolo, Canonical, InputBudget;
    AdmitsIff(q.config, q.opaqueCost + (CountText(q.count, q.current).value + q.fixedCost + q.config.safety));
  }

  /** `assemble`. */
  method Assemble(cs: seq<Block>, q: Request) returns (r: Outcome<Assembly>)
    ensures r.Ok? ==> Safe(cs, q, r.value)
    ensures OutcomeIs(cs, q, r)
    ensures Favourable(cs, q) ==> (r.Ok? <==> Feasible(cs, q))
    ensures Favourable(cs, q) && r.Ok? ==> Untrimmed(r.value)
  {
    hide CountText, Sound, Canonical, Joined, Feasible, Favourable, PrepareError, Packing, PackingMode, InputBudget, Reported;
    if Favourable(cs, q) {
      FavourableFits(cs, q);
    }
    if q.opaqueCost < 0 {
      return Err(OpaqueCostInvalid);
    }
    if q.fixedCost < 0 {
      return Err(FixedCostInvalid);
    }
    var current := CountText(q.count, q.current);
    if current.Err? {
      return Err(current.error);
    }
    var inputBudget := InputBudget(q.config);
    var required := current.value + q.fixedCost + q.config.safety;
    InputBudgetIs(q.config);
    AdmitsIff(q.config, q.opaqueCost + required);
    if q.opaqueCost + required > inputBudget {
      return Err(RequiredExceedsBudget);
    }
    var acBudget := inputBudget - q.opaqueCost - required;
    var prepared := Prepare(cs, q);
    if prepared.Err? {
      return Err(prepared.error);
    }
    var packed := Pack(cs, q, prepared.value, acBudget);
    if packed.Err? {
      return Err(packed.error);
    }
    var t := packed.value.trimmed;
    var total := q.opaqueCost + required + t.cost;
    var trace := Trace(packed.value.mode, inputBudget, current.value, q.fixedCost, required, q.opaqueCost, acBudget,
                       t.cost, total, packed.value.rejections);
    AdmitsIff(q.config, total);
    return if total > inputBudget then Err(InternalInvariant) else Ok(Assembly(t.text, t.selected, trace));
  }

  lemma {:induction false} ReasonsOf(duplicates: seq<Rejection>, chosen: seq<Rejection>, count: Counter)
    requires ByChoice(chosen) && AllRepeats(duplicates, count)
    ensures forall k :: 0 <= k < |duplicates + chosen| ==> !(duplicates + chosen)[k].reason.ComponentRemoved?
  {
    forall k | 0 <= k < |chosen| ensures !chosen[k].reason.ComponentRemoved? {
      assert Choice(chosen[k].reason);
    }
  }

  lemma {:induction false} Accounted(
    cs: seq<Block>, u: seq<Block>, duplicates: seq<Block>, chosen: seq<Block>, final: seq<Block>, refused: seq<Block>,
    removed: seq<Block>, all: seq<Block>)
    requires multiset(u) + multiset(duplicates) == multiset(cs)
    requires multiset(chosen) + multiset(refused) == multiset(u)
    requires multiset(final) + multiset(removed) == multiset(chosen)
    requires all == duplicates + refused + removed
    ensures multiset(final) + multiset(all) == multiset(cs)
  {
  }

  /** In the favourable case the selection fits exactly, and it exists exactly when the joint cost fits. */
  lemma {:induction false} FavourablePack(
    cs: seq<Block>, q: Request, u: seq<Block>, counts: Counts, separator: nat, selected: seq<Block>, budget: nat)
    requires Favourable(cs, q) && u == Canonical(cs) && Distinct(u) && counts == CountsFor(u, q.count, q.provided)
    requires CountText(q.count, SEPARATOR) == Ok(separator) && budget == RequestBudget(q)
    requires Sound(u, selected) && Estimated(selected, counts, separator, budget)
    ensures FitsAtOnce(q.count, selected, budget) && JointCost(cs, q) <= budget
  {
    hide CountText, Members, RawSolo, Need, Cost, Estimate, Canonical, Joined;
    CountsMatch(u, q.count, q.provided);
    EstimateIsExact(u, selected, counts, q.count, budget);
    CostIs(u, selected, counts, separator);
    NeedIsInside(u, selected, counts, separator);
  }

  lemma {:induction false} CostIs(u: seq<Block>, selected: seq<Block>, counts: Counts, separator: nat)
    requires Counted(u, counts) && Counted(selected, counts) && selected == Members(u, Ids(selected))
    ensures Cost(u, counts, separator, Ids(selected)) == Estimate(selected, counts, separator)
  {
  }
}
