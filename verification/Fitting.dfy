/** The passes that fit segments to a provider: normalisation to unit boundaries, and splitting at units. */
module Fitting {
  import opened Common
  import opened Domain
  import opened ToolLoop
  import opened Segmenter

  /** The serialized cost of a segment's prompt, a function of its events alone. */
  type PromptCost = seq<Event> -> nat

  datatype FitError = MetricsMissing | LoopInvalid | InputTooLarge
  datatype Fit = Fitted(segments: seq<Segment>) | Deferred(error: FitError)

  // ----- sequences of units -----

  function LastSequence(u: Unit): (n: nat)
    requires u != []
  {
    u[|u| - 1].sequence
  }

  /** Along contiguous events the last sequence of unit `k` is determined by the number of events up to it. */
  lemma {:induction false} LastSequenceIs(us: seq<Unit>, counts: Tokens, k: nat)
    requires AllMetered(us, counts) && Contiguous(Slice(us, 0, |us|)) && k < |us|
    ensures |Slice(us, 0, k + 1)| > 0 && Slice(us, 0, |us|) != []
    ensures LastSequence(us[k]) == Slice(us, 0, |us|)[0].sequence + |Slice(us, 0, k + 1)| - 1
  {
    hide Slice;
    var es, at := Slice(us, 0, |us|), |Slice(us, 0, k + 1)| - 1;
    AddUnit(us, counts, 0, k);
    SliceSplit(us, 0, k + 1, |us|);
    assert es[at] == us[k][|us[k]| - 1];
    SequenceAt(es, at);
  }

  /** Later units end later. */
  lemma {:induction false} LastSequenceGrows(us: seq<Unit>, counts: Tokens, a: nat, b: nat)
    requires AllMetered(us, counts) && Contiguous(Slice(us, 0, |us|)) && a < |us| && b < |us|
    ensures LastSequence(us[a]) <= LastSequence(us[b]) <==> a <= b
  {
    hide Slice;
    LastSequenceIs(us, counts, a);
    LastSequenceIs(us, counts, b);
    if a < b {
      RunSizes(us, counts, 0, a + 1, b + 1);
      SliceNonempty(us, counts, a + 1, b + 1);
    } else if b < a {
      RunSizes(us, counts, 0, b + 1, a + 1);
      SliceNonempty(us, counts, b + 1, a + 1);
    }
  }

  /** A segment at cuts ends with the last unit before its cut. */
  lemma {:induction false} SegmentEnd(segs: seq<Segment>, us: seq<Unit>, counts: Tokens, cuts: seq<nat>, i: nat)
    requires AllMetered(us, counts) && SegmentsAt(segs, us, counts, cuts) && i < |segs|
    ensures segs[i].end == LastSequence(us[cuts[i + 1] - 1])
  {
    hide Slice, RunTokens;
    AddUnit(us, counts, cuts[i], cuts[i + 1] - 1);
  }

  // ----- normalisation -----

  /** The first `n` segments end by `last`, and the next one does not. */
  ghost predicate Passed(segs: seq<Segment>, last: nat, n: nat) {
    n <= |segs| && (forall i :: 0 <= i < n ==> segs[i].end <= last) && (n < |segs| ==> segs[n].end > last)
  }

  /** How many given segments end within the first `k` units. */
  ghost predicate PassedBy(segs: seq<Segment>, us: seq<Unit>, k: nat, n: nat) {
    k <= |us| && if k == 0 then n == 0 else us[k - 1] != [] && Passed(segs, LastSequence(us[k - 1]), n)
  }

  /** The run `a .. b` passes no end of a given segment before its last unit. With that unit it passes some and takes the
      reason of the last of them, or it is the rest of the input. */
  ghost predicate Snapped(segs: seq<Segment>, us: seq<Unit>, a: nat, b: nat, reason: BoundaryReason) {
    exists n: nat, m: nat ::
      && PassedBy(segs, us, a, n) && PassedBy(segs, us, b, m) && n <= m <= |segs|
      && (forall k :: a < k < b ==> PassedBy(segs, us, k, n))
      && if n < m then reason == segs[m - 1].reason else b == |us| && reason == EndOfInput
  }

  ghost predicate AllSnapped(segs: seq<Segment>, us: seq<Unit>, out: seq<Segment>, cuts: seq<nat>) {
    |cuts| == |out| + 1 && forall i :: 0 <= i < |out| ==> Snapped(segs, us, cuts[i], cuts[i + 1], out[i].reason)
  }

  /** Boundaries crossed by a unit that ends at `last`. */
  method CrossBoundaries(segs: seq<Segment>, from: nat, last: nat) returns (next: nat, reason: Option<BoundaryReason>)
    requires from <= |segs|
    ensures from <= next <= |segs| && (forall i :: from <= i < next ==> segs[i].end <= last)
    ensures next < |segs| ==> segs[next].end > last
    ensures if next == from then reason.None? else reason == Some(segs[next - 1].reason)
  {
    next, reason := from, None;
    while next < |segs| && segs[next].end <= last
      invariant from <= next <= |segs| && (forall i :: from <= i < next ==> segs[i].end <= last)
      invariant if next == from then reason.None? else reason == Some(segs[next - 1].reason)
    {
      reason := Some(segs[next].reason);
      next := next + 1;
    }
  }

  /** The given segments lie at the cuts `given`, and the loop has emitted exactly those whose units are done. */
  ghost predicate Aligned(
    segs: seq<Segment>, us: seq<Unit>, counts: Tokens, given: seq<nat>, out: seq<Segment>, next: nat, k: nat, at: seq<nat>)
    requires AllMetered(us, counts)
  {
    Cuts(given, |us|) && SegmentsAt(segs, us, counts, given) ==>
      && next <= |segs| && out == segs[..next] && at == given[..next + 1] && given[next] <= k
      && (next < |segs| ==> k < given[next + 1])
  }

  /** `_normalize_atomic_segments`: whatever the segments, the result cuts only between units; segments that already
      do are returned unchanged. */
  method Normalise(segs: seq<Segment>, us: seq<Unit>, counts: Tokens, ghost given: seq<nat>)
    returns (out: seq<Segment>, ghost cuts: seq<nat>)
    requires AllMetered(us, counts) && Contiguous(Slice(us, 0, |us|))
    ensures Cuts(cuts, |us|) && SegmentsAt(out, us, counts, cuts) && AllSnapped(segs, us, out, cuts)
    ensures Cuts(given, |us|) && SegmentsAt(segs, us, counts, given) ==> out == segs
  {
    hide Slice, RunTokens, SegmentsAt, TokenSum, Contiguous, Aligned, PassedBy, Snapped;
    var current: seq<Event>, next := [], 0;
    out, cuts := [], [0];
    NoSegments(us, counts);
    AlignedStart(segs, us, counts, given);
    ghost var before := 0;
    NonePassed(segs, us);
    for k := 0 to |us|
      invariant next <= |segs| && SegmentsAt(out, us, counts, cuts) && cuts != [] && cuts[0] == 0 && cuts[|cuts| - 1] <= k
      invariant current == Slice(us, cuts[|cuts| - 1], k)
      invariant Aligned(segs, us, counts, given, out, next, k, cuts)
      invariant AllSnapped(segs, us, out, cuts) && OpenSince(segs, us, cuts[|cuts| - 1], k, before, next)
    {
      var from := cuts[|cuts| - 1];
      AddUnit(us, counts, from, k);
      current := current + us[k];
      var crossed, reason := CrossBoundaries(segs, next, LastSequence(us[k]));
      SliceNonempty(us, counts, from, k + 1);
      AlignedStep(segs, us, counts, given, out, next, k, cuts, crossed);
      PassedMore(segs, us, counts, k, next, crossed);
      OpenEnds(segs, us, from, k, before, next, crossed, reason);
      if reason.Some? {
        SliceMetered(us, counts, from, k + 1);
        var s := SegmentOf(current, TokenSum(current, counts), reason.value);
        RunTokensIs(us, counts, from, k + 1);
        SegmentsAppend(us, counts, out, cuts, s, k + 1);
        AlignedEmit(segs, us, counts, given, out, next, k, cuts, crossed, s);
        out, cuts, current, before := out + [s], cuts + [k + 1], [], crossed;
        EmptyRun(us, counts, k + 1);
      } else {
        AlignedSkip(segs, us, counts, given, out, next, k, cuts);
      }
      next := crossed;
    }
    AlignedEnd(segs, us, counts, given, out, next, cuts);
    if current != [] {
      var from := cuts[|cuts| - 1];
      CurrentNonempty(us, counts, from, |us|);
      RestIsSnapped(segs, us, from, before, next);
      SliceMetered(us, counts, from, |us|);
      var s := SegmentOf(current, TokenSum(current, counts), EndOfInput);
      RunTokensIs(us, counts, from, |us|);
      SegmentsAppend(us, counts, out, cuts, s, |us|);
      out, cuts := out + [s], cuts + [|us|];
    } else {
      EmptyMeansEqual(us, counts, cuts[|cuts| - 1]);
    }
    CutsFromSegments(out, us, counts, cuts);
  }

  /** The open run from `a` began after `before` passed segments, and up to unit `k` passes no further end. */
  ghost predicate OpenSince(segs: seq<Segment>, us: seq<Unit>, a: nat, k: nat, before: nat, next: nat) {
    a <= k && next == before && next <= |segs| && forall j :: a <= j <= k ==> PassedBy(segs, us, j, before)
  }

  lemma {:induction false} NonePassed(segs: seq<Segment>, us: seq<Unit>)
    ensures PassedBy(segs, us, 0, 0)
  {
  }

  /** One more unit passes at least the segments passed before. */
  lemma {:induction false} PassedMore(segs: seq<Segment>, us: seq<Unit>, counts: Tokens, k: nat, next: nat, crossed: nat)
    requires AllMetered(us, counts) && Contiguous(Slice(us, 0, |us|)) && k < |us|
    requires PassedBy(segs, us, k, next) && next <= crossed <= |segs|
    requires forall i :: next <= i < crossed ==> segs[i].end <= LastSequence(us[k])
    requires crossed < |segs| ==> segs[crossed].end > LastSequence(us[k])
    ensures PassedBy(segs, us, k + 1, crossed)
  {
    hide Slice, Contiguous;
    if k > 0 {
      LastSequenceGrows(us, counts, k - 1, k);
    }
  }

  lemma {:induction false} OpenEnds(
    segs: seq<Segment>, us: seq<Unit>, a: nat, k: nat, before: nat, next: nat, crossed: nat, reason: Option<BoundaryReason>)
    requires OpenSince(segs, us, a, k, before, next) && PassedBy(segs, us, k + 1, crossed) && next <= crossed <= |segs|
    requires if crossed == next then reason.None? else reason == Some(segs[crossed - 1].reason)
    ensures if reason.Some? then Snapped(segs, us, a, k + 1, reason.value) && OpenSince(segs, us, k + 1, k + 1, crossed, crossed)
            else OpenSince(segs, us, a, k + 1, before, crossed)
  {
    hide PassedBy;
    assert PassedBy(segs, us, a, before);
  }

  lemma {:induction false} RestIsSnapped(segs: seq<Segment>, us: seq<Unit>, a: nat, before: nat, next: nat)
    requires OpenSince(segs, us, a, |us|, before, next) && a < |us|
    ensures Snapped(segs, us, a, |us|, EndOfInput)
  {
    hide PassedBy;
    assert PassedBy(segs, us, a, before) && PassedBy(segs, us, |us|, before);
  }

  lemma {:induction false} NoSegments(us: seq<Unit>, counts: Tokens)
    requires AllMetered(us, counts)
    ensures SegmentsAt([], us, counts, [0]) && Slice(us, 0, 0) == []
  {
    assert us[0..0] == [];
  }

  lemma {:induction false} RunTokensIs(us: seq<Unit>, counts: Tokens, a: nat, b: nat)
    requires AllMetered(us, counts) && a <= b <= |us| && Metered(Slice(us, a, b), counts)
    ensures RunTokens(us, counts, a, b) == TokenSum(Slice(us, a, b), counts)
  {
  }

  lemma {:induction false} EmptyMeansEqual(us: seq<Unit>, counts: Tokens, a: nat)
    requires AllMetered(us, counts) && a <= |us|
    ensures Slice(us, a, |us|) == [] ==> a == |us|
  {
    if a < |us| {
      SliceNonempty(us, counts, a, |us|);
    }
  }

  lemma {:induction false} CutsFromSegments(segs: seq<Segment>, us: seq<Unit>, counts: Tokens, cuts: seq<nat>)
    requires AllMetered(us, counts) && SegmentsAt(segs, us, counts, cuts) && cuts[0] == 0 && cuts[|cuts| - 1] == |us|
    ensures Cuts(cuts, |us|)
  {
    hide Slice, RunTokens;
    forall i, j | 0 <= i < j < |cuts| ensures cuts[i] < cuts[j] {
      Rising(cuts, i, j);
    }
  }

  // ----- alignment with segments that are already at unit boundaries -----

  lemma {:induction false} AlignedStart(segs: seq<Segment>, us: seq<Unit>, counts: Tokens, given: seq<nat>)
    requires AllMetered(us, counts)
    ensures Aligned(segs, us, counts, given, [], 0, 0, [0])
  {
    hide Slice, RunTokens;
    if Cuts(given, |us|) && SegmentsAt(segs, us, counts, given) {
      assert given[..1] == [0] && segs[..0] == [];
    }
  }

  /** Unit `k` crosses the next boundary exactly when it is the last unit of the next segment, and never two. */
  lemma {:induction false} AlignedStep(
    segs: seq<Segment>, us: seq<Unit>, counts: Tokens, given: seq<nat>, out: seq<Segment>, next: nat, k: nat, at: seq<nat>, crossed: nat)
    requires AllMetered(us, counts) && Contiguous(Slice(us, 0, |us|)) && k < |us| && next <= crossed <= |segs|
    requires Aligned(segs, us, counts, given, out, next, k, at)
    requires forall i :: next <= i < crossed ==> segs[i].end <= LastSequence(us[k])
    requires crossed < |segs| ==> segs[crossed].end > LastSequence(us[k])
    ensures Cuts(given, |us|) && SegmentsAt(segs, us, counts, given) ==>
      next < |segs| && crossed == if k + 1 == given[next + 1] then next + 1 else next
  {
    hide Slice, RunTokens, Contiguous;
    if Cuts(given, |us|) && SegmentsAt(segs, us, counts, given) {
      assert next < |segs|;
      SegmentEnd(segs, us, counts, given, next);
      LastSequenceGrows(us, counts, given[next + 1] - 1, k);
      if next + 1 < |segs| {
        SegmentEnd(segs, us, counts, given, next + 1);
        LastSequenceGrows(us, counts, given[next + 2] - 1, k);
      }
    }
  }

  lemma {:induction false} AlignedEmit(
    segs: seq<Segment>, us: seq<Unit>, counts: Tokens, given: seq<nat>, out: seq<Segment>, next: nat, k: nat, at: seq<nat>,
    crossed: nat, s: Segment)
    requires AllMetered(us, counts) && k < |us| && at != [] && at[|at| - 1] <= k && next < crossed <= |segs|
    requires Aligned(segs, us, counts, given, out, next, k, at)
    requires Cuts(given, |us|) && SegmentsAt(segs, us, counts, given) ==> crossed == next + 1 && k + 1 == given[next + 1]
    requires s.events != [] && s.events == Slice(us, at[|at| - 1], k + 1) && s.reason == segs[crossed - 1].reason
    requires s == SegmentOf(s.events, RunTokens(us, counts, at[|at| - 1], k + 1), s.reason)
    ensures Aligned(segs, us, counts, given, out + [s], crossed, k + 1, at + [k + 1])
  {
    hide Slice, RunTokens;
    if Cuts(given, |us|) && SegmentsAt(segs, us, counts, given) {
      assert at[|at| - 1] == given[next];
      assert segs[next].events == s.events;
      assert segs[..crossed] == segs[..next] + [segs[next]];
      assert given[..crossed + 1] == given[..next + 1] + [given[crossed]];
    }
  }

  lemma {:induction false} AlignedSkip(
    segs: seq<Segment>, us: seq<Unit>, counts: Tokens, given: seq<nat>, out: seq<Segment>, next: nat, k: nat, at: seq<nat>)
    requires AllMetered(us, counts) && Aligned(segs, us, counts, given, out, next, k, at)
    requires Cuts(given, |us|) && SegmentsAt(segs, us, counts, given) ==> next < |segs| && k + 1 != given[next + 1]
    ensures Aligned(segs, us, counts, given, out, next, k + 1, at)
  {
    hide Slice, RunTokens, SegmentsAt;
  }

  lemma {:induction false} AlignedEnd(
    segs: seq<Segment>, us: seq<Unit>, counts: Tokens, given: seq<nat>, out: seq<Segment>, next: nat, at: seq<nat>)
    requires AllMetered(us, counts) && Aligned(segs, us, counts, given, out, next, |us|, at)
    ensures Cuts(given, |us|) && SegmentsAt(segs, us, counts, given) ==> out == segs && at == given && given[|given| - 1] == |us|
  {
    hide Slice, RunTokens;
    if Cuts(given, |us|) && SegmentsAt(segs, us, counts, given) {
      assert next == |segs|;
      assert segs[..next] == segs && given[..next + 1] == given;
    }
  }

  // ----- splitting -----

  /** A run of units parses to exactly those units. */
  lemma {:induction false} RunParses(es: seq<Event>, mark: Marker, us: seq<Unit>, counts: Tokens, a: nat, b: nat)
    requires Units(es, mark) == Some(us) && AllMetered(us, counts) && a <= b <= |us|
    ensures Units(Slice(us, a, b), mark) == Some(us[a..b])
  {
    hide Units, IsUnit, Contiguous;
    UnitsIff(es, mark, us);
    AllEvents(es, mark, us);
    SliceSplit(us, 0, a, |us|);
    SliceSplit(us, a, b, |us|);
    ContiguousParts(Slice(us, 0, a), Slice(us, a, |us|));
    ContiguousParts(Slice(us, a, b), Slice(us, b, |us|));
    UnitsIff(Slice(us, a, b), mark, us[a..b]);
  }

  /** Every piece is within the provider limit. */
  ghost predicate AllWithin(segs: seq<Segment>, cost: PromptCost, limit: nat) {
    forall i :: 0 <= i < |segs| ==> cost(segs[i].events) <= limit
  }

  /** Pieces that end at cut `b` and continue earlier ones. */
  ghost predicate Extends(
    out: seq<Segment>, cuts: seq<nat>, us: seq<Unit>, counts: Tokens, cost: PromptCost, limit: nat, b: nat)
    requires AllMetered(us, counts)
  {
    SegmentsAt(out, us, counts, cuts) && cuts[0] == 0 && cuts[|cuts| - 1] == b && AllWithin(out, cost, limit)
  }

  lemma {:induction false} ExtendsMore(
    out: seq<Segment>, cuts: seq<nat>, us: seq<Unit>, counts: Tokens, cost: PromptCost, limit: nat, a: nat, b: nat, s: Segment)
    requires AllMetered(us, counts) && Extends(out, cuts, us, counts, cost, limit, a) && a < b <= |us|
    requires s.events != [] && s.events == Slice(us, a, b) && cost(s.events) <= limit
    requires s == SegmentOf(s.events, RunTokens(us, counts, a, b), s.reason)
    ensures Extends(out + [s], cuts + [b], us, counts, cost, limit, b)
  {
    hide Slice, RunTokens, SegmentsAt;
    SegmentsShape(out, us, counts, cuts);
    SegmentsAppend(us, counts, out, cuts, s, b);
  }

  lemma {:induction false} SegmentsShape(segs: seq<Segment>, us: seq<Unit>, counts: Tokens, cuts: seq<nat>)
    requires AllMetered(us, counts) && SegmentsAt(segs, us, counts, cuts)
    ensures |cuts| == |segs| + 1 && forall i :: 0 <= i < |cuts| ==> cuts[i] <= |us|
    ensures forall i :: 0 <= i < |segs| ==> cuts[i] < cuts[i + 1]
  {
  }

  /** The piece `c .. d` of a run that ends at `b` grew unit by unit within the limit, and could not take the next one. */
  ghost predicate Packed(us: seq<Unit>, cost: PromptCost, limit: nat, c: nat, d: nat, b: nat) {
    && c < d <= b <= |us| && (forall e :: c < e <= d ==> cost(Slice(us, c, e)) <= limit)
    && (d < b ==> cost(Slice(us, c, d + 1)) > limit)
  }

  /** The pieces from the `n`-th on are packed; the one that ends the run has its reason, the others hit the token limit. */
  ghost predicate PackedFrom(
    out: seq<Segment>, cuts: seq<nat>, n: nat, us: seq<Unit>, cost: PromptCost, limit: nat, b: nat, reason: BoundaryReason)
  {
    |cuts| == |out| + 1 && forall i :: n <= i < |out| ==>
      Packed(us, cost, limit, cuts[i], cuts[i + 1], b) && out[i].reason == if cuts[i + 1] == b then reason else MaxTokens
  }

  lemma {:induction false} PackedMore(
    out: seq<Segment>, cuts: seq<nat>, n: nat, us: seq<Unit>, cost: PromptCost, limit: nat, b: nat, reason: BoundaryReason,
    s: Segment, d: nat)
    requires PackedFrom(out, cuts, n, us, cost, limit, b, reason) && n <= |out|
    requires Packed(us, cost, limit, cuts[|out|], d, b) && s.reason == if d == b then reason else MaxTokens
    ensures PackedFrom(out + [s], cuts + [d], n, us, cost, limit, b, reason)
  {
    hide Packed;
  }

  /** `_fitted_segment` for the units `a .. b`. */
  method Piece(ghost us: seq<Unit>, counts: Tokens, ghost a: nat, ghost b: nat, es: seq<Event>, reason: BoundaryReason) returns (s: Segment)
    requires AllMetered(us, counts) && a < b <= |us| && es == Slice(us, a, b)
    ensures s.events == es != [] && s == SegmentOf(es, RunTokens(us, counts, a, b), reason)
  {
    hide Slice, RunTokens;
    SliceNonempty(us, counts, a, b);
    SliceMetered(us, counts, a, b);
    RunTokensIs(us, counts, a, b);
    return SegmentOf(es, TokenSum(es, counts), reason);
  }

  /** `_split_segment`: the groups, which are the units `a .. b`, regrouped so that every piece fits; None when one
      unit alone does not. */
  method SplitRun(
    out: seq<Segment>, ghost cuts: seq<nat>, groups: seq<Unit>, ghost us: seq<Unit>, counts: Tokens, ghost a: nat, ghost b: nat,
    reason: BoundaryReason, cost: PromptCost, limit: nat)
    returns (r: Option<seq<Segment>>, ghost cuts': seq<nat>)
    requires AllMetered(us, counts) && a < b <= |us| && Extends(out, cuts, us, counts, cost, limit, a) && groups == us[a..b]
    ensures r.Some? ==> Extends(r.value, cuts', us, counts, cost, limit, b) && out <= r.value && cuts <= cuts'
    ensures r.Some? ==> PackedFrom(r.value, cuts', |out|, us, cost, limit, b, reason)
    ensures r.None? ==> exists k :: a <= k < b && cost(us[k]) > limit
  {
    hide Slice, RunTokens, TokenSum, SegmentsAt, Packed;
    SegmentsShape(out, us, counts, cuts);
    var pieces: seq<Segment>, current: seq<Event> := out, [];
    ghost var from := a;
    cuts' := cuts;
    EmptyRun(us, counts, a);
    for j := 0 to |groups|
      invariant a <= from <= a + j && (j > 0 ==> from < a + j) && Extends(pieces, cuts', us, counts, cost, limit, from)
      invariant current == Slice(us, from, a + j) && (forall e :: from < e <= a + j ==> cost(Slice(us, from, e)) <= limit)
      invariant out <= pieces && cuts <= cuts' && PackedFrom(pieces, cuts', |out|, us, cost, limit, b, reason)
    {
      ghost var k := a + j;
      assert groups[j] == us[k];
      AddUnit(us, counts, from, k);
      var proposed := current + groups[j];
      if cost(proposed) <= limit {
        current := proposed;
      } else {
        if current != [] {
          CurrentNonempty(us, counts, from, k);
          var s := Piece(us, counts, from, k, current, MaxTokens);
          ExtendsMore(pieces, cuts', us, counts, cost, limit, from, k, s);
          PieceIsPacked(us, cost, limit, from, k, b);
          PackedMore(pieces, cuts', |out|, us, cost, limit, b, reason, s, k);
          pieces := pieces + [s];
          cuts', from := cuts' + [k], k;
        } else {
          OnlyEmpty(us, counts, from, k);
        }
        SliceOne(us, k);
        current := groups[j];
        if cost(current) > limit {
          return None, cuts;
        }
      }
    }
    var s := Piece(us, counts, from, b, current, reason);
    ExtendsMore(pieces, cuts', us, counts, cost, limit, from, b, s);
    PieceIsPacked(us, cost, limit, from, b, b);
    PackedMore(pieces, cuts', |out|, us, cost, limit, b, reason, s, b);
    return Some(pieces + [s]), cuts' + [b];
  }

  lemma {:induction false} PieceIsPacked(us: seq<Unit>, cost: PromptCost, limit: nat, c: nat, d: nat, b: nat)
    requires c < d <= b <= |us| && (forall e :: c < e <= d ==> cost(Slice(us, c, e)) <= limit)
    requires d < b ==> cost(Slice(us, c, d + 1)) > limit
    ensures Packed(us, cost, limit, c, d, b)
  {
  }

  lemma {:induction false} OnlyEmpty(us: seq<Unit>, counts: Tokens, a: nat, k: nat)
    requires AllMetered(us, counts) && a <= k <= |us| && Slice(us, a, k) == []
    ensures a == k
  {
    if a < k {
      SliceNonempty(us, counts, a, k);
    }
  }

  /** More events never cost less. */
  ghost predicate Monotone(cost: PromptCost) {
    forall a: seq<Event>, b: seq<Event>, c: seq<Event> :: cost(b) <= cost(a + b + c)
  }

  /** Some unit does not fit even alone. */
  ghost predicate Oversized(us: seq<Unit>, cost: PromptCost, limit: nat) {
    exists k :: 0 <= k < |us| && cost(us[k]) > limit
  }

  lemma {:induction false} UnitInRun(us: seq<Unit>, counts: Tokens, cost: PromptCost, a: nat, k: nat, b: nat)
    requires AllMetered(us, counts) && a <= k < b <= |us| && Monotone(cost)
    ensures cost(us[k]) <= cost(Slice(us, a, b))
  {
    hide Slice;
    SliceSplit(us, a, k, b);
    SliceSplit(us, k, k + 1, b);
    SliceOne(us, k);
    assert Slice(us, a, b) == Slice(us, a, k) + us[k] + Slice(us, k + 1, b);
  }

  lemma {:induction false} PieceOf(cuts: seq<nat>, n: nat, k: nat, i: nat) returns (j: nat)
    requires Cuts(cuts, n) && k < n && i < |cuts| && cuts[i] <= k
    ensures j + 1 < |cuts| && cuts[j] <= k < cuts[j + 1]
    decreases |cuts| - i
  {
    if k < cuts[i + 1] {
      j := i;
    } else {
      j := PieceOf(cuts, n, k, i + 1);
    }
  }

  /** With a monotone cost, pieces within the limit leave no unit that does not fit alone. */
  lemma {:induction false} FittedUnitsFit(segs: seq<Segment>, us: seq<Unit>, counts: Tokens, cuts: seq<nat>, cost: PromptCost, limit: nat)
    requires AllMetered(us, counts) && Cuts(cuts, |us|) && SegmentsAt(segs, us, counts, cuts)
    requires AllWithin(segs, cost, limit) && Monotone(cost)
    ensures !Oversized(us, cost, limit)
  {
    hide Slice, RunTokens, SegmentsAt, Monotone;
    SegmentsShape(segs, us, counts, cuts);
    forall k | 0 <= k < |us| ensures cost(us[k]) <= limit {
      var j := PieceOf(cuts, |us|, k, 0);
      SegmentHere(segs, us, counts, cuts, j);
      UnitInRun(us, counts, cost, cuts[j], k, cuts[j + 1]);
    }
  }

  // ----- the whole -----

  /** Segment `i` of the result is a normalised segment that is within the limit, or a packed piece of one that is not. */
  ghost predicate FittedFrom(
    atomic: seq<Segment>, at: seq<nat>, us: seq<Unit>, cost: PromptCost, limit: nat, s: Segment, c: nat, d: nat)
    requires |at| == |atomic| + 1
  {
    exists j: nat :: j < |atomic| && at[j] <= c < d <= at[j + 1] && FittedIn(atomic[j], us, cost, limit, s, at[j], at[j + 1], c, d)
  }

  ghost predicate FittedIn(
    whole: Segment, us: seq<Unit>, cost: PromptCost, limit: nat, s: Segment, a: nat, b: nat, c: nat, d: nat)
  {
    if cost(whole.events) <= limit then s == whole && c == a && d == b
    else Packed(us, cost, limit, c, d, b) && s.reason == if d == b then whole.reason else MaxTokens
  }

  ghost predicate AllFitted(
    atomic: seq<Segment>, at: seq<nat>, us: seq<Unit>, cost: PromptCost, limit: nat, out: seq<Segment>, cuts: seq<nat>)
  {
    && |at| == |atomic| + 1 && |cuts| == |out| + 1
    && forall i :: 0 <= i < |out| ==> FittedFrom(atomic, at, us, cost, limit, out[i], cuts[i], cuts[i + 1])
  }

  lemma {:induction false} FittedWhole(
    atomic: seq<Segment>, at: seq<nat>, us: seq<Unit>, cost: PromptCost, limit: nat, out: seq<Segment>, cuts: seq<nat>, j: nat)
    requires AllFitted(atomic, at, us, cost, limit, out, cuts) && j < |atomic| && at[j] < at[j + 1]
    requires cuts[|out|] == at[j] && cost(atomic[j].events) <= limit
    ensures AllFitted(atomic, at, us, cost, limit, out + [atomic[j]], cuts + [at[j + 1]])
  {
    assert FittedIn(atomic[j], us, cost, limit, atomic[j], at[j], at[j + 1], at[j], at[j + 1]);
    hide FittedIn;
    assert FittedFrom(atomic, at, us, cost, limit, atomic[j], at[j], at[j + 1]);
    hide FittedFrom;
  }

  lemma {:induction false} FittedPieces(
    atomic: seq<Segment>, at: seq<nat>, us: seq<Unit>, counts: Tokens, cost: PromptCost, limit: nat, out: seq<Segment>, cuts: seq<nat>,
    more: seq<Segment>, cuts': seq<nat>, j: nat)
    requires AllMetered(us, counts) && AllFitted(atomic, at, us, cost, limit, out, cuts) && j < |atomic|
    requires cuts[|out|] == at[j] && cost(atomic[j].events) > limit && out <= more && cuts <= cuts'
    requires SegmentsAt(more, us, counts, cuts') && PackedFrom(more, cuts', |out|, us, cost, limit, at[j + 1], atomic[j].reason)
    ensures AllFitted(atomic, at, us, cost, limit, more, cuts')
  {
    hide SegmentsAt, Packed;
    SegmentsShape(more, us, counts, cuts');
    forall i | 0 <= i < |more| ensures FittedFrom(atomic, at, us, cost, limit, more[i], cuts'[i], cuts'[i + 1]) {
      if i < |out| {
        assert FittedFrom(atomic, at, us, cost, limit, out[i], cuts[i], cuts[i + 1]);
      } else {
        FromCut(cuts', |out|, i);
        PackedShape(us, cost, limit, cuts'[i], cuts'[i + 1], at[j + 1]);
        assert FittedIn(atomic[j], us, cost, limit, more[i], at[j], at[j + 1], cuts'[i], cuts'[i + 1]);
      }
    }
  }

  lemma {:induction false} FromCut(cuts: seq<nat>, n: nat, i: nat)
    requires n <= i < |cuts| && forall k :: 0 <= k < |cuts| - 1 ==> cuts[k] < cuts[k + 1]
    ensures cuts[n] <= cuts[i]
  {
    if n < i {
      Rising(cuts, n, i);
    }
  }

  lemma {:induction false} PackedShape(us: seq<Unit>, cost: PromptCost, limit: nat, c: nat, d: nat, b: nat)
    requires Packed(us, cost, limit, c, d, b)
    ensures c < d <= b
  {
  }

  /** `_fit_segments`: the segments snapped to units, `atomic` at the cuts `at`, and each fitted. */
  method FitSegments(
    segs: seq<Segment>, es: seq<Event>, counts: Tokens, cost: PromptCost, limit: nat, mark: Marker, ghost given: seq<nat>)
    returns (r: Fit, ghost cuts: seq<nat>, ghost atomic: seq<Segment>, ghost at: seq<nat>)
    ensures r == Deferred(MetricsMissing) <==> counts.Keys != EventIdSet(es)
    ensures r == Deferred(LoopInvalid) <==> counts.Keys == EventIdSet(es) && Units(es, mark).None?
    ensures r == Deferred(InputTooLarge) ==> Units(es, mark).Some? && Oversized(Units(es, mark).value, cost, limit)
    ensures Monotone(cost) && counts.Keys == EventIdSet(es) && Units(es, mark).Some? ==>
      (r == Deferred(InputTooLarge) <==> Oversized(Units(es, mark).value, cost, limit))
    ensures r.Fitted? ==>
      && var us := Units(es, mark).value;
      && AllMetered(us, counts) && Cuts(cuts, |us|) && SegmentsAt(r.segments, us, counts, cuts)
      && AllWithin(r.segments, cost, limit) && EventsOf(r.segments) == es
      && Cuts(at, |us|) && SegmentsAt(atomic, us, counts, at) && AllSnapped(segs, us, atomic, at)
      && (Cuts(given, |us|) && SegmentsAt(segs, us, counts, given) ==> atomic == segs)
      && AllFitted(atomic, at, us, cost, limit, r.segments, cuts)
  {
    hide Units, Slice, RunTokens, SegmentsAt, Contiguous, EventIdSet, Cuts, Monotone, AllSnapped, FittedFrom, PackedFrom;
    cuts, atomic, at := [], [], [];
    if counts.Keys != EventIdSet(es) {
      return Deferred(MetricsMissing), [], [], [];
    }
    var parsed := ParseEvents(es, mark);
    UnitsOf(es, mark);
    if parsed.units.None? {
      return Deferred(LoopInvalid), [], [], [];
    }
    var us := parsed.units.value;
    AllInKeys(es, counts);
    UnitsMetered(es, mark, us, counts);
    AllEvents(es, mark, us);
    UnitsContiguous(es, mark);
    var whole, points := Normalise(segs, us, counts, given);
    atomic, at := whole, points;
    CutsShape(at, |us|);
    SegmentsShape(atomic, us, counts, at);
    var fitted: seq<Segment>;
    fitted, cuts := [], [0];
    NoSegments(us, counts);
    for i := 0 to |whole|
      invariant Extends(fitted, cuts, us, counts, cost, limit, at[i]) && AllFitted(atomic, at, us, cost, limit, fitted, cuts)
    {
      var s := whole[i];
      SegmentsShape(fitted, us, counts, cuts);
      SegmentHere(atomic, us, counts, at, i);
      if cost(s.events) <= limit {
        ExtendsMore(fitted, cuts, us, counts, cost, limit, at[i], at[i + 1], s);
        FittedWhole(atomic, at, us, cost, limit, fitted, cuts, i);
        fitted, cuts := fitted + [s], cuts + [at[i + 1]];
      } else {
        RunParses(es, mark, us, counts, at[i], at[i + 1]);
        var groups := ParseEvents(s.events, mark);
        UnitsOf(s.events, mark);
        var more, cuts' := SplitRun(fitted, cuts, groups.units.value, us, counts, at[i], at[i + 1], s.reason, cost, limit);
        if more.None? {
          return Deferred(InputTooLarge), [], [], [];
        }
        FittedPieces(atomic, at, us, counts, cost, limit, fitted, cuts, more.value, cuts', i);
        fitted, cuts := more.value, cuts';
      }
    }
    CutsFromSegments(fitted, us, counts, cuts);
    if Monotone(cost) {
      FittedUnitsFit(fitted, us, counts, cuts, cost, limit);
    }
    SegmentsRejoin(fitted, us, counts, cuts);
    return Fitted(fitted), cuts, atomic, at;
  }

  lemma {:induction false} UnitsOf(es: seq<Event>, mark: Marker)
    ensures Units(es, mark) == Parse(es, mark).units
  {
  }

  lemma {:induction false} UnitsContiguous(es: seq<Event>, mark: Marker)
    requires Units(es, mark).Some?
    ensures Contiguous(es)
  {
    UnitsIff(es, mark, Units(es, mark).value);
  }

  lemma {:induction false} CutsShape(cuts: seq<nat>, n: nat)
    requires Cuts(cuts, n)
    ensures cuts != [] && cuts[0] == 0 && cuts[|cuts| - 1] == n && forall i :: 0 <= i < |cuts| ==> cuts[i] <= n
  {
  }

  lemma {:induction false} SegmentHere(segs: seq<Segment>, us: seq<Unit>, counts: Tokens, cuts: seq<nat>, i: nat)
    requires AllMetered(us, counts) && SegmentsAt(segs, us, counts, cuts) && i < |segs|
    ensures cuts[i] < cuts[i + 1] <= |us| && segs[i].events == Slice(us, cuts[i], cuts[i + 1]) && segs[i].events != []
    ensures segs[i] == SegmentOf(segs[i].events, RunTokens(us, counts, cuts[i], cuts[i + 1]), segs[i].reason)
  {
  }

  /** Fitting the segmenter's own output starts from that output unchanged. */
  method SegmentThenNormalise(es: seq<Event>, counts: Tokens, config: Config, ends: seq<int>, mark: Marker)
    returns (segments: Option<seq<Segment>>, normalised: seq<Segment>)
    requires config.Valid()
    ensures segments.Some? <==> es != [] && Contiguous(es) && counts.Keys == EventIdSet(es) && Units(es, mark).Some?
    ensures segments.Some? ==> normalised == segments.value && EventsOf(normalised) == es
  {
    hide Units, Contiguous, Grown, Slice, RunTokens, Cuts, SegmentsAt, BrokenAt, AllSnapped, EventIdSet, EventsOf;
    var r, cuts := SegmentJournal(es, counts, config, ends, mark);
    if r.NotSegmented? {
      return None, [];
    }
    var parsed := ParseEvents(es, mark);
    UnitsOf(es, mark);
    var us := parsed.units.value;
    AllEvents(es, mark, us);
    GrownSegments(us, counts, config, PreferredEnds(es, ends, config.maxPreferred), r.segments, cuts);
    CutsShape(cuts, |us|);
    SegmentsRejoin(r.segments, us, counts, cuts);
    var out, _ := Normalise(r.segments, us, counts, cuts);
    return Some(r.segments), out;
  }

  lemma {:induction false} GrownSegments(
    us: seq<Unit>, counts: Tokens, config: Config, preferred: set<nat>, segs: seq<Segment>, cuts: seq<nat>)
    requires AllMetered(us, counts) && Grown(us, counts, config, preferred, segs, cuts)
    ensures SegmentsAt(segs, us, counts, cuts)
  {
    hide SegmentsAt, Closed;
  }
}
