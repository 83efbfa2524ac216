/** Greedy segmentation of durable units: no unit is cut, limits hold, and the number of segments is least. */
module Segmenter {
  import opened Common
  import opened Domain
  import opened ToolLoop

  type Tokens = map<Id, nat>

  datatype BoundaryReason = Preferred | MaxEvents | MaxTokens | OversizedEvent | EndOfInput

  datatype Segment = Segment(start: nat, end: nat, events: seq<Event>, tokenCost: nat, reason: BoundaryReason)

  /** Both limits are positive by construction. */
  datatype Config = Config(maxEvents: nat, maxTokens: nat, maxPreferred: nat)
  {
    predicate Valid() { maxEvents > 0 && maxTokens > 0 }
  }

  ghost predicate Metered(es: seq<Event>, counts: Tokens) {
    forall k :: 0 <= k < |es| ==> es[k].eventId in counts
  }

  function TokenSum(es: seq<Event>, counts: Tokens): (n: nat)
    requires Metered(es, counts)
  {
    if es == [] then 0 else TokenSum(es[..|es| - 1], counts) + counts[es[|es| - 1].eventId]
  }

  lemma {:induction false} TokenSumConcat(xs: seq<Event>, ys: seq<Event>, counts: Tokens)
    requires Metered(xs, counts) && Metered(ys, counts)
    ensures Metered(xs + ys, counts) && TokenSum(xs + ys, counts) == TokenSum(xs, counts) + TokenSum(ys, counts)
    decreases |ys|
  {
    if ys == [] {
      assert xs + ys == xs;
    } else {
      var n := |ys| - 1;
      TokenSumConcat(xs, ys[..n], counts);
      assert (xs + ys)[..|xs + ys| - 1] == xs + ys[..n];
    }
  }

  // ----- runs of units -----

  /** The events of the units `a .. b`. */
  function Slice(us: seq<Unit>, a: nat, b: nat): (es: seq<Event>)
    requires a <= b <= |us|
  {
    Concat(us[a..b])
  }

  lemma {:induction false} SliceSplit(us: seq<Unit>, a: nat, b: nat, c: nat)
    requires a <= b <= c <= |us|
    ensures Slice(us, a, c) == Slice(us, a, b) + Slice(us, b, c)
  {
    assert us[a..c] == us[a..b] + us[b..c];
    ConcatAppend(us[a..b], us[b..c]);
  }

  lemma {:induction false} SliceOne(us: seq<Unit>, a: nat)
    requires a < |us|
    ensures Slice(us, a, a) == [] && Slice(us, a, a + 1) == us[a]
  {
    assert us[a..a] == [] && us[a..a + 1] == [us[a]] && [us[a]][..0] == [];
    assert [] + us[a] == us[a];
  }

  ghost predicate AllMetered(us: seq<Unit>, counts: Tokens) {
    forall k :: 0 <= k < |us| ==> us[k] != [] && Metered(us[k], counts)
  }

  lemma {:induction false} SliceMetered(us: seq<Unit>, counts: Tokens, a: nat, b: nat)
    requires AllMetered(us, counts) && a <= b <= |us|
    ensures Metered(Slice(us, a, b), counts)
    decreases b
  {
    if a < b {
      SliceMetered(us, counts, a, b - 1);
      SliceSplit(us, a, b - 1, b);
      SliceOne(us, b - 1);
    }
  }

  /** The token cost of a run. */
  function RunTokens(us: seq<Unit>, counts: Tokens, a: nat, b: nat): (n: nat)
    requires AllMetered(us, counts) && a <= b <= |us|
  {
    SliceMetered(us, counts, a, b);
    TokenSum(Slice(us, a, b), counts)
  }

  /** Sizes of runs add up, and a unit has at least one event. */
  lemma {:induction false} RunSizes(us: seq<Unit>, counts: Tokens, a: nat, b: nat, c: nat)
    requires AllMetered(us, counts) && a <= b <= c <= |us|
    ensures |Slice(us, a, c)| == |Slice(us, a, b)| + |Slice(us, b, c)|
    ensures RunTokens(us, counts, a, c) == RunTokens(us, counts, a, b) + RunTokens(us, counts, b, c)
  {
    hide Slice;
    SliceSplit(us, a, b, c);
    SliceMetered(us, counts, a, b);
    SliceMetered(us, counts, b, c);
    TokenSumConcat(Slice(us, a, b), Slice(us, b, c), counts);
  }

  predicate Fits(us: seq<Unit>, counts: Tokens, config: Config, a: nat, b: nat)
    requires AllMetered(us, counts) && a <= b <= |us|
  {
    |Slice(us, a, b)| <= config.maxEvents && RunTokens(us, counts, a, b) <= config.maxTokens
  }

  /** A run inside one that fits also fits. */
  lemma {:induction false} FitsInside(us: seq<Unit>, counts: Tokens, config: Config, a: nat, b: nat, c: nat, d: nat)
    requires AllMetered(us, counts) && a <= b <= c <= d <= |us| && Fits(us, counts, config, a, d)
    ensures Fits(us, counts, config, b, c)
  {
    hide Slice, RunTokens;
    RunSizes(us, counts, a, b, d);
    RunSizes(us, counts, b, c, d);
  }

  // ----- cuts -----

  /** Cut points of a partition of `n` units into nonempty runs. */
  ghost predicate Cuts(cuts: seq<nat>, n: nat) {
    && cuts != [] && cuts[0] == 0 && cuts[|cuts| - 1] == n
    && forall i, j :: 0 <= i < j < |cuts| ==> cuts[i] < cuts[j]
  }

  /** A run is admissible when it fits the limits or is one unit alone. */
  ghost predicate Legal(us: seq<Unit>, counts: Tokens, config: Config, a: nat, b: nat)
    requires AllMetered(us, counts) && a <= b <= |us|
  {
    Fits(us, counts, config, a, b) || b == a + 1
  }

  ghost predicate LegalCuts(us: seq<Unit>, counts: Tokens, config: Config, cuts: seq<nat>)
    requires AllMetered(us, counts)
  {
    && (forall i :: 0 <= i < |cuts| ==> cuts[i] <= |us|)
    && (forall i :: 0 <= i < |cuts| - 1 ==> cuts[i] < cuts[i + 1] && Legal(us, counts, config, cuts[i], cuts[i + 1]))
  }

  /** No run could have taken the next unit. */
  ghost predicate Maximal(us: seq<Unit>, counts: Tokens, config: Config, cuts: seq<nat>)
    requires AllMetered(us, counts)
  {
    && (forall i :: 0 <= i < |cuts| ==> cuts[i] <= |us|)
    && (forall i :: 0 <= i < |cuts| - 1 && cuts[i] < cuts[i + 1] < |us| ==> !Fits(us, counts, config, cuts[i], cuts[i + 1] + 1))
  }

  /** Greedy stays ahead: after the same number of runs it has covered at least as many units. */
  lemma {:induction false} StaysAhead(us: seq<Unit>, counts: Tokens, config: Config, g: seq<nat>, h: seq<nat>, i: nat)
    requires AllMetered(us, counts) && Cuts(g, |us|) && Cuts(h, |us|)
    requires Maximal(us, counts, config, g) && LegalCuts(us, counts, config, h) && i < |g| && i < |h|
    ensures g[i] >= h[i]
  {
    hide Fits;
    if i > 0 {
      StaysAhead(us, counts, config, g, h, i - 1);
      var a, b, c, e := g[i - 1], h[i - 1], h[i], g[i];
      assert b <= a < e && b < c;
      if e < c {
        assert Legal(us, counts, config, b, c);
        assert !Fits(us, counts, config, a, e + 1);
        FitsUnless(us, counts, config, b, a, e + 1, c);
      }
    }
  }

  lemma {:induction false} FitsUnless(us: seq<Unit>, counts: Tokens, config: Config, a: nat, b: nat, c: nat, d: nat)
    requires AllMetered(us, counts) && a <= b <= c <= d <= |us|
    ensures Fits(us, counts, config, a, d) ==> Fits(us, counts, config, b, c)
  {
    if Fits(us, counts, config, a, d) {
      FitsInside(us, counts, config, a, b, c, d);
    }
  }

  /** A maximal partition has the fewest runs of all admissible ones. */
  lemma {:induction false} MaximalIsLeast(us: seq<Unit>, counts: Tokens, config: Config, g: seq<nat>, h: seq<nat>)
    requires AllMetered(us, counts) && Cuts(g, |us|) && Cuts(h, |us|)
    requires Maximal(us, counts, config, g) && LegalCuts(us, counts, config, h)
    ensures |g| <= |h|
  {
    if |g| > |h| {
      StaysAhead(us, counts, config, g, h, |h| - 1);
    }
  }

  // ----- the loop -----

  function SegmentOf(es: seq<Event>, cost: nat, reason: BoundaryReason): (s: Segment)
    requires es != []
  {
    Segment(es[0].sequence, es[|es| - 1].sequence, es, cost, reason)
  }

  /** Segment `i` holds exactly the units between two cuts, with their cost. */
  ghost predicate SegmentsAt(segs: seq<Segment>, us: seq<Unit>, counts: Tokens, cuts: seq<nat>)
    requires AllMetered(us, counts)
  {
    && |cuts| == |segs| + 1
    && (forall i :: 0 <= i < |cuts| ==> cuts[i] <= |us|)
    && (forall i :: 0 <= i < |segs| ==>
          && cuts[i] < cuts[i + 1] && segs[i].events == Slice(us, cuts[i], cuts[i + 1]) && segs[i].events != []
          && segs[i] == SegmentOf(segs[i].events, RunTokens(us, counts, cuts[i], cuts[i + 1]), segs[i].reason))
  }

  /** Every unit costs something and no boundary is preferred: the case in which greedy is optimal. */
  ghost predicate Plain(us: seq<Unit>, counts: Tokens, preferred: set<nat>)
    requires AllMetered(us, counts)
  {
    preferred == {} && forall k :: 0 <= k < |us| ==> TokenSum(us[k], counts) >= 1
  }

  /** The unit exceeds a limit even alone. */
  ghost predicate Oversized(us: seq<Unit>, counts: Tokens, config: Config, k: nat)
    requires AllMetered(us, counts) && k < |us|
  {
    |us[k]| > config.maxEvents || TokenSum(us[k], counts) > config.maxTokens
  }

  ghost predicate EndsPreferred(us: seq<Unit>, preferred: set<nat>, k: nat)
    requires k < |us|
  {
    exists e <- us[k] :: e.sequence in preferred
  }

  /** The run may not go on after unit `b - 1`, whatever comes next. */
  ghost predicate Complete(us: seq<Unit>, counts: Tokens, config: Config, preferred: set<nat>, a: nat, b: nat)
    requires AllMetered(us, counts) && a < b <= |us|
  {
    || Oversized(us, counts, config, b - 1) || b == |us|
    || |Slice(us, a, b)| >= config.maxEvents || RunTokens(us, counts, a, b) >= config.maxTokens
    || EndsPreferred(us, preferred, b - 1)
  }

  /** The run has to end at `b`: it may not go on, or cannot take the next unit. */
  ghost predicate MustStop(us: seq<Unit>, counts: Tokens, config: Config, preferred: set<nat>, a: nat, b: nat)
    requires AllMetered(us, counts) && a < b <= |us|
  {
    Complete(us, counts, config, preferred, a, b) || !Fits(us, counts, config, a, b + 1)
  }

  /** The reason given for ending the run at `b`: an oversized unit before the end of the input, that before a limit that
      is reached, that before a preferred end, and that before a limit that the next unit would exceed. */
  ghost predicate StopsFor(us: seq<Unit>, counts: Tokens, config: Config, preferred: set<nat>, a: nat, b: nat, reason: BoundaryReason)
    requires AllMetered(us, counts) && a < b <= |us|
  {
    if Oversized(us, counts, config, b - 1) then reason == OversizedEvent
    else if b == |us| then reason == EndOfInput
    else if |Slice(us, a, b)| >= config.maxEvents then reason == MaxEvents
    else if RunTokens(us, counts, a, b) >= config.maxTokens then reason == MaxTokens
    else if EndsPreferred(us, preferred, b - 1) then reason == Preferred
    else if |Slice(us, a, b + 1)| > config.maxEvents then reason == MaxEvents
    else RunTokens(us, counts, a, b + 1) > config.maxTokens && reason == MaxTokens
  }

  /** The run ends as soon as it has to, for the reason given. */
  ghost predicate Closed(us: seq<Unit>, counts: Tokens, config: Config, preferred: set<nat>, a: nat, b: nat, reason: BoundaryReason)
    requires AllMetered(us, counts) && a < b <= |us|
  {
    && (forall c :: a < c < b ==> !MustStop(us, counts, config, preferred, a, c))
    && StopsFor(us, counts, config, preferred, a, b, reason)
  }

  /** Every segment is such a run. */
  ghost predicate Grown(us: seq<Unit>, counts: Tokens, config: Config, preferred: set<nat>, segs: seq<Segment>, cuts: seq<nat>)
    requires AllMetered(us, counts)
  {
    && cuts != [] && cuts[0] == 0 && SegmentsAt(segs, us, counts, cuts)
    && forall i :: 0 <= i < |segs| ==> Closed(us, counts, config, preferred, cuts[i], cuts[i + 1], segs[i].reason)
  }

  lemma {:induction false} StopsForStops(
    us: seq<Unit>, counts: Tokens, config: Config, preferred: set<nat>, a: nat, b: nat, reason: BoundaryReason)
    requires AllMetered(us, counts) && a < b <= |us| && StopsFor(us, counts, config, preferred, a, b, reason)
    ensures MustStop(us, counts, config, preferred, a, b)
  {
    hide Slice, RunTokens, TokenSum;
  }

  /** The runs and their reasons are determined by the input. */
  lemma {:induction false} RunsAreUnique(
    us: seq<Unit>, counts: Tokens, config: Config, preferred: set<nat>, segs: seq<Segment>, cuts: seq<nat>,
    others: seq<Segment>, points: seq<nat>)
    requires AllMetered(us, counts)
    requires Grown(us, counts, config, preferred, segs, cuts) && Grown(us, counts, config, preferred, others, points)
    requires cuts[|cuts| - 1] == |us| == points[|points| - 1]
    ensures segs == others && cuts == points
  {
    hide Slice, RunTokens, MustStop, StopsFor;
    var n := if |segs| <= |others| then |segs| else |others|;
    SameRuns(us, counts, config, preferred, segs, cuts, others, points, n);
    if n < |segs| {
      InnerCut(us, counts, segs, cuts, n);
    } else if n < |others| {
      InnerCut(us, counts, others, points, n);
    }
  }

  lemma {:induction false} InnerCut(us: seq<Unit>, counts: Tokens, segs: seq<Segment>, cuts: seq<nat>, n: nat)
    requires AllMetered(us, counts) && SegmentsAt(segs, us, counts, cuts) && n < |segs|
    ensures cuts[n] < |us|
  {
    assert cuts[n + 1] <= |us|;
  }

  lemma {:induction false} SameRuns(
    us: seq<Unit>, counts: Tokens, config: Config, preferred: set<nat>, segs: seq<Segment>, cuts: seq<nat>,
    others: seq<Segment>, points: seq<nat>, n: nat)
    requires AllMetered(us, counts) && n <= |segs| && n <= |others|
    requires Grown(us, counts, config, preferred, segs, cuts) && Grown(us, counts, config, preferred, others, points)
    ensures segs[..n] == others[..n] && cuts[..n + 1] == points[..n + 1]
  {
    hide Slice, RunTokens, MustStop, StopsFor;
    if n > 0 {
      SameRuns(us, counts, config, preferred, segs, cuts, others, points, n - 1);
      var a := cuts[n - 1];
      assert a == cuts[..n][n - 1] == points[..n][n - 1];
      SameEnd(us, counts, config, preferred, a, cuts[n], segs[n - 1].reason, points[n], others[n - 1].reason);
      assert segs[..n] == segs[..n - 1] + [segs[n - 1]] && others[..n] == others[..n - 1] + [others[n - 1]];
      assert cuts[..n + 1] == cuts[..n] + [cuts[n]] && points[..n + 1] == points[..n] + [points[n]];
    }
  }

  lemma {:induction false} SameEnd(
    us: seq<Unit>, counts: Tokens, config: Config, preferred: set<nat>, a: nat, b: nat, reason: BoundaryReason, c: nat, other: BoundaryReason)
    requires AllMetered(us, counts) && a < b <= |us| && a < c <= |us|
    requires Closed(us, counts, config, preferred, a, b, reason) && Closed(us, counts, config, preferred, a, c, other)
    ensures b == c && reason == other
  {
    StopsForStops(us, counts, config, preferred, a, b, reason);
    StopsForStops(us, counts, config, preferred, a, c, other);
    hide Slice, RunTokens, TokenSum, MustStop;
    SameReason(us, counts, config, preferred, a, b, reason, other);
  }

  lemma {:induction false} SameReason(
    us: seq<Unit>, counts: Tokens, config: Config, preferred: set<nat>, a: nat, b: nat, reason: BoundaryReason, other: BoundaryReason)
    requires AllMetered(us, counts) && a < b <= |us|
    ensures StopsFor(us, counts, config, preferred, a, b, reason) && StopsFor(us, counts, config, preferred, a, b, other) ==> reason == other
  {
    hide Slice, RunTokens, TokenSum;
  }

  lemma {:induction false} SegmentsAppend(us: seq<Unit>, counts: Tokens, segs: seq<Segment>, cuts: seq<nat>, s: Segment, b: nat)
    requires AllMetered(us, counts) && SegmentsAt(segs, us, counts, cuts) && cuts[|cuts| - 1] < b <= |us|
    requires s.events != [] && s.events == Slice(us, cuts[|cuts| - 1], b)
    requires s == SegmentOf(s.events, RunTokens(us, counts, cuts[|cuts| - 1], b), s.reason)
    ensures SegmentsAt(segs + [s], us, counts, cuts + [b])
  {
    hide Slice, RunTokens;
    var segs', cuts' := segs + [s], cuts + [b];
    forall i | 0 <= i < |segs'|
      ensures cuts'[i] < cuts'[i + 1] && segs'[i].events == Slice(us, cuts'[i], cuts'[i + 1]) && segs'[i].events != []
      ensures segs'[i] == SegmentOf(segs'[i].events, RunTokens(us, counts, cuts'[i], cuts'[i + 1]), segs'[i].reason)
    {
      if i < |segs| {
        assert segs'[i] == segs[i] && cuts'[i] == cuts[i] && cuts'[i + 1] == cuts[i + 1];
      }
    }
  }

  /** Closing a run adds one segment and one cut. */
  lemma {:induction false} CloseKeeps(
    us: seq<Unit>, counts: Tokens, config: Config, preferred: set<nat>, segs: seq<Segment>, cuts: seq<nat>, b: nat, s: Segment)
    requires AllMetered(us, counts) && Grown(us, counts, config, preferred, segs, cuts)
    requires cuts[|cuts| - 1] < b <= |us| && Closed(us, counts, config, preferred, cuts[|cuts| - 1], b, s.reason)
    requires s.events != [] && s.events == Slice(us, cuts[|cuts| - 1], b)
    requires s == SegmentOf(s.events, RunTokens(us, counts, cuts[|cuts| - 1], b), s.reason)
    ensures Grown(us, counts, config, preferred, segs + [s], cuts + [b])
  {
    hide Slice, RunTokens, Closed;
    SegmentsAppend(us, counts, segs, cuts, s, b);
  }

  lemma {:induction false} SliceNonempty(us: seq<Unit>, counts: Tokens, a: nat, b: nat)
    requires AllMetered(us, counts) && a < b <= |us|
    ensures Slice(us, a, b) != []
  {
    SliceSplit(us, a, a + 1, b);
    SliceOne(us, a);
  }

  /** Sizes after adding unit `k` to the run from `a`. */
  lemma {:induction false} AddUnit(us: seq<Unit>, counts: Tokens, a: nat, k: nat)
    requires AllMetered(us, counts) && a <= k < |us|
    ensures Slice(us, a, k + 1) == Slice(us, a, k) + us[k]
    ensures RunTokens(us, counts, a, k + 1) == RunTokens(us, counts, a, k) + TokenSum(us[k], counts)
  {
    hide Slice;
    SliceSplit(us, a, k, k + 1);
    SliceOne(us, k);
    RunSizes(us, counts, a, k, k + 1);
  }

  /** What the loop knows before unit `k`: the open run did not have to end anywhere, except that it may not be able to
      take the next unit. */
  ghost predicate Growing(
    us: seq<Unit>, counts: Tokens, config: Config, preferred: set<nat>, segs: seq<Segment>, cuts: seq<nat>,
    current: seq<Event>, cost: nat, k: nat)
    requires AllMetered(us, counts)
  {
    && k <= |us| && Grown(us, counts, config, preferred, segs, cuts) && cuts[|cuts| - 1] <= k
    && var a := cuts[|cuts| - 1];
    && current == Slice(us, a, k) && cost == RunTokens(us, counts, a, k)
    && (forall c :: a < c < k ==> !MustStop(us, counts, config, preferred, a, c))
    && (a < k ==> !Complete(us, counts, config, preferred, a, k))
  }

  method SegmentUnits(us: seq<Unit>, counts: Tokens, config: Config, preferred: set<nat>)
    returns (segs: seq<Segment>, ghost cuts: seq<nat>)
    requires config.Valid() && AllMetered(us, counts) && us != []
    ensures EventsOf(segs) == Concat(us)
    ensures Cuts(cuts, |us|) && Grown(us, counts, config, preferred, segs, cuts)
  {
    hide Slice, RunTokens, Grown, TokenSum, EventsOf, Concat, MustStop, Complete;
    var current: seq<Event>, cost: nat := [], 0;
    segs, cuts := [], [0];
    StartGrown(us, counts, config, preferred);
    for k := 0 to |us|
      invariant Growing(us, counts, config, preferred, segs, cuts, current, cost, k)
    {
      var unitCost := TokenSum(us[k], counts);
      GrownShape(us, counts, config, preferred, segs, cuts);
      AddUnit(us, counts, cuts[|cuts| - 1], k);
      if cuts[|cuts| - 1] < k {
        SliceNonempty(us, counts, cuts[|cuts| - 1], k);
      }
      if current != [] && (|current| + |us[k]| > config.maxEvents || cost + unitCost > config.maxTokens) {
        var reason := if |current| + |us[k]| > config.maxEvents then MaxEvents else MaxTokens;
        CurrentNonempty(us, counts, cuts[|cuts| - 1], k);
        NoRoom(us, counts, config, preferred, cuts[|cuts| - 1], k, reason);
        CloseKeeps(us, counts, config, preferred, segs, cuts, k, SegmentOf(current, cost, reason));
        segs, cuts := segs + [SegmentOf(current, cost, reason)], cuts + [k];
        EmptyRun(us, counts, k);
        current, cost := [], 0;
        AddUnit(us, counts, k, k);
      } else if current != [] {
        CurrentNonempty(us, counts, cuts[|cuts| - 1], k);
        GoesOn(us, counts, config, preferred, cuts[|cuts| - 1], k);
      }
      current, cost := current + us[k], cost + unitCost;
      var oversized := |us[k]| > config.maxEvents || unitCost > config.maxTokens;
      var reason :=
        if oversized then Some(OversizedEvent)
        else if k == |us| - 1 then Some(EndOfInput)
        else if |current| >= config.maxEvents then Some(MaxEvents)
        else if cost >= config.maxTokens then Some(MaxTokens)
        else if exists e <- us[k] :: e.sequence in preferred then Some(Preferred)
        else None;
      AfterUnit(us, counts, config, preferred, cuts[|cuts| - 1], k, reason);
      if reason.Some? {
        CloseKeeps(us, counts, config, preferred, segs, cuts, k + 1, SegmentOf(current, cost, reason.value));
        segs, cuts := segs + [SegmentOf(current, cost, reason.value)], cuts + [k + 1];
        EmptyRun(us, counts, k + 1);
        current, cost := [], 0;
      }
    }
    AllClosed(us, counts, config, preferred, segs, cuts, current, cost);
    GrownCuts(us, counts, config, preferred, segs, cuts);
    GrownRejoins(us, counts, config, preferred, segs, cuts);
  }

  lemma {:induction false} GrownRejoins(
    us: seq<Unit>, counts: Tokens, config: Config, preferred: set<nat>, segs: seq<Segment>, cuts: seq<nat>)
    requires AllMetered(us, counts) && Grown(us, counts, config, preferred, segs, cuts) && cuts[|cuts| - 1] == |us|
    ensures EventsOf(segs) == Concat(us)
  {
    SegmentsRejoin(segs, us, counts, cuts);
    assert us[0..|us|] == us;
  }

  lemma {:induction false} StartGrown(us: seq<Unit>, counts: Tokens, config: Config, preferred: set<nat>)
    requires AllMetered(us, counts)
    ensures Grown(us, counts, config, preferred, [], [0]) && Slice(us, 0, 0) == [] && RunTokens(us, counts, 0, 0) == 0
  {
    assert us[0..0] == [];
  }

  lemma {:induction false} EmptyRun(us: seq<Unit>, counts: Tokens, k: nat)
    requires AllMetered(us, counts) && k <= |us|
    ensures Slice(us, k, k) == [] && RunTokens(us, counts, k, k) == 0
  {
    assert us[k..k] == [];
  }

  lemma {:induction false} CurrentNonempty(us: seq<Unit>, counts: Tokens, a: nat, k: nat)
    requires AllMetered(us, counts) && a <= k <= |us| && Slice(us, a, k) != []
    ensures a < k
  {
    if a == k {
      EmptyRun(us, counts, k);
    }
  }

  lemma {:induction false} GrownShape(us: seq<Unit>, counts: Tokens, config: Config, preferred: set<nat>, segs: seq<Segment>, cuts: seq<nat>)
    requires AllMetered(us, counts) && Grown(us, counts, config, preferred, segs, cuts)
    ensures cuts != [] && |cuts| == |segs| + 1 && forall i :: 0 <= i < |cuts| ==> cuts[i] <= |us|
  {
  }

  lemma {:induction false} Rising(cuts: seq<nat>, i: nat, j: nat)
    requires i < j < |cuts| && forall k :: 0 <= k < |cuts| - 1 ==> cuts[k] < cuts[k + 1]
    ensures cuts[i] < cuts[j]
    decreases j
  {
    if i < j - 1 {
      Rising(cuts, i, j - 1);
    }
  }

  lemma {:induction false} GrownCuts(us: seq<Unit>, counts: Tokens, config: Config, preferred: set<nat>, segs: seq<Segment>, cuts: seq<nat>)
    requires AllMetered(us, counts) && Grown(us, counts, config, preferred, segs, cuts) && cuts[|cuts| - 1] == |us|
    ensures Cuts(cuts, |us|)
  {
    forall i, j | 0 <= i < j < |cuts| ensures cuts[i] < cuts[j] {
      Rising(cuts, i, j);
    }
  }

  /** A run that cannot take the next unit has to end, by the limit that the unit would exceed. */
  lemma {:induction false} NoRoom(us: seq<Unit>, counts: Tokens, config: Config, preferred: set<nat>, a: nat, k: nat, reason: BoundaryReason)
    requires AllMetered(us, counts) && a < k < |us| && !Complete(us, counts, config, preferred, a, k)
    requires forall c :: a < c < k ==> !MustStop(us, counts, config, preferred, a, c)
    requires |Slice(us, a, k)| + |us[k]| > config.maxEvents || RunTokens(us, counts, a, k) + TokenSum(us[k], counts) > config.maxTokens
    requires reason == if |Slice(us, a, k)| + |us[k]| > config.maxEvents then MaxEvents else MaxTokens
    ensures Closed(us, counts, config, preferred, a, k, reason)
  {
    hide Slice, RunTokens, TokenSum, MustStop;
    AddUnit(us, counts, a, k);
  }

  /** A run that can take the next unit does not have to end. */
  lemma {:induction false} GoesOn(us: seq<Unit>, counts: Tokens, config: Config, preferred: set<nat>, a: nat, k: nat)
    requires AllMetered(us, counts) && a < k < |us| && !Complete(us, counts, config, preferred, a, k)
    requires |Slice(us, a, k)| + |us[k]| <= config.maxEvents && RunTokens(us, counts, a, k) + TokenSum(us[k], counts) <= config.maxTokens
    ensures !MustStop(us, counts, config, preferred, a, k)
  {
    hide Slice, RunTokens, TokenSum;
    AddUnit(us, counts, a, k);
  }

  /** After unit `k` the run ends for the reason found, or is not complete. */
  lemma {:induction false} AfterUnit(us: seq<Unit>, counts: Tokens, config: Config, preferred: set<nat>, a: nat, k: nat, reason: Option<BoundaryReason>)
    requires AllMetered(us, counts) && a <= k < |us|
    requires forall c :: a < c < k + 1 ==> !MustStop(us, counts, config, preferred, a, c)
    requires reason == (
      if |us[k]| > config.maxEvents || TokenSum(us[k], counts) > config.maxTokens then Some(OversizedEvent)
      else if k == |us| - 1 then Some(EndOfInput)
      else if |Slice(us, a, k + 1)| >= config.maxEvents then Some(MaxEvents)
      else if RunTokens(us, counts, a, k + 1) >= config.maxTokens then Some(MaxTokens)
      else if EndsPreferred(us, preferred, k) then Some(Preferred)
      else None)
    ensures if reason.Some? then Closed(us, counts, config, preferred, a, k + 1, reason.value)
            else !Complete(us, counts, config, preferred, a, k + 1)
  {
    hide Slice, RunTokens, TokenSum, MustStop;
  }

  /** At the end of the input no run is open. */
  lemma {:induction false} AllClosed(
    us: seq<Unit>, counts: Tokens, config: Config, preferred: set<nat>, segs: seq<Segment>, cuts: seq<nat>, current: seq<Event>, cost: nat)
    requires AllMetered(us, counts) && Growing(us, counts, config, preferred, segs, cuts, current, cost, |us|)
    ensures cuts[|cuts| - 1] == |us|
  {
    hide Slice, RunTokens, Grown, MustStop, TokenSum;
  }

  // ----- the whole -----

  datatype SegmentError = EmptyEvents | SessionMismatch | NoncontiguousEvents | MetricMissing | ToolLoopInvalid
  datatype Segmentation = Segmented(segments: seq<Segment>) | NotSegmented(error: SegmentError)

  function EventIdSet(es: seq<Event>): (s: set<Id>) {
    set k | 0 <= k < |es| :: es[k].eventId
  }

  /** Event `k` is of the first event's session and as many sequences after it as it is events. */
  ghost predicate InLine(es: seq<Event>, k: nat)
    requires k < |es|
  {
    es[k].session == es[0].session && es[k].sequence == es[0].sequence + k
  }

  /** Event `k` is the first one out of line. */
  ghost predicate BrokenAt(es: seq<Event>, k: nat) {
    k < |es| && !InLine(es, k) && forall i :: 0 <= i < k ==> InLine(es, i)
  }

  /** `_validate_events`. */
  method ValidateEvents(es: seq<Event>) returns (e: Option<SegmentError>)
    ensures e.None? <==> es != [] && Contiguous(es)
    ensures e == Some(EmptyEvents) <==> es == []
    ensures e == Some(SessionMismatch) <==> exists k: nat :: BrokenAt(es, k) && es[k].session != es[0].session
    ensures e == Some(NoncontiguousEvents) <==> exists k: nat :: BrokenAt(es, k) && es[k].session == es[0].session
    ensures e != Some(MetricMissing) && e != Some(ToolLoopInvalid)
  {
    if es == [] {
      return Some(EmptyEvents);
    }
    for k := 0 to |es|
      invariant forall i :: 0 <= i < k ==> InLine(es, i)
    {
      if es[k].session != es[0].session {
        NotContiguousAt(es, k);
        BrokenOnce(es, k);
        return Some(SessionMismatch);
      }
      if es[k].sequence != es[0].sequence + k {
        NotContiguousAt(es, k);
        BrokenOnce(es, k);
        return Some(NoncontiguousEvents);
      }
    }
    AllInLine(es);
    return None;
  }

  lemma {:induction false} BrokenOnce(es: seq<Event>, k: nat)
    requires k < |es| && !InLine(es, k) && forall i :: 0 <= i < k ==> InLine(es, i)
    ensures BrokenAt(es, k) && forall j: nat :: BrokenAt(es, j) ==> j == k
  {
    hide InLine;
  }

  lemma {:induction false} AllInLine(es: seq<Event>)
    requires es != [] && forall i :: 0 <= i < |es| ==> InLine(es, i)
    ensures Contiguous(es) && forall j: nat :: !BrokenAt(es, j)
  {
    forall i | 0 < i < |es| ensures es[i].session == es[0].session && es[i].sequence == es[i - 1].sequence + 1 {
      assert InLine(es, i) && InLine(es, i - 1);
    }
  }

  lemma {:induction false} NotContiguousAt(es: seq<Event>, k: nat)
    requires k < |es| && !InLine(es, k)
    ensures !Contiguous(es)
  {
    if Contiguous(es) {
      SequenceAt(es, k);
    }
  }

  lemma {:induction false} SequenceAt(es: seq<Event>, k: nat)
    requires Contiguous(es) && k < |es|
    ensures InLine(es, k)
  {
    if k > 0 {
      SequenceAt(es, k - 1);
    }
  }

  /** `_normalize_preferred_boundaries`. */
  function PreferredEnds(es: seq<Event>, ends: seq<int>, limit: nat): (s: set<nat>)
    requires es != []
  {
    var kept := if |ends| <= limit then ends else ends[..limit];
    set k | 0 <= k < |kept| && es[0].sequence <= kept[k] < es[|es| - 1].sequence :: kept[k]
  }

  /** The preferred ends are those of the first `limit` given ones that lie within the events and before the last. */
  lemma {:induction false} PreferredEndsMean(es: seq<Event>, ends: seq<int>, limit: nat, n: nat)
    requires es != []
    ensures n in PreferredEnds(es, ends, limit)
      <==> es[0].sequence <= n < es[|es| - 1].sequence && exists k :: 0 <= k < |ends| && k < limit && ends[k] == n
  {
  }

  lemma {:induction false} UnitsMetered(es: seq<Event>, mark: Marker, us: seq<Unit>, counts: Tokens)
    requires Units(es, mark) == Some(us) && Metered(es, counts)
    ensures AllMetered(us, counts)
  {
    UnitsIff(es, mark, us);
    ConcatMetered(us, counts, mark);
  }

  lemma {:induction false} ConcatMetered(us: seq<Unit>, counts: Tokens, mark: Marker)
    requires AllUnits(us, mark) && Metered(Concat(us), counts)
    ensures AllMetered(us, counts)
  {
    hide OpenRound;
    if us != [] {
      var n := |us| - 1;
      var rest, last := Concat(us[..n]), us[n];
      assert Concat(us) == rest + last;
      forall k | 0 <= k < |rest| ensures rest[k].eventId in counts {
        assert (rest + last)[k] == rest[k];
      }
      forall k | 0 <= k < |last| ensures last[k].eventId in counts {
        assert (rest + last)[|rest| + k] == last[k];
      }
      ConcatMetered(us[..n], counts, mark);
      assert IsUnit(us[n], mark);
    }
  }

  /** `segment`. */
  method SegmentJournal(es: seq<Event>, counts: Tokens, config: Config, ends: seq<int>, mark: Marker)
    returns (r: Segmentation, ghost cuts: seq<nat>)
    requires config.Valid()
    ensures r.Segmented? <==> es != [] && Contiguous(es) && counts.Keys == EventIdSet(es) && Units(es, mark).Some?
    ensures r == NotSegmented(EmptyEvents) <==> es == []
    ensures r == NotSegmented(SessionMismatch) <==> exists k: nat :: BrokenAt(es, k) && es[k].session != es[0].session
    ensures r == NotSegmented(NoncontiguousEvents) <==> exists k: nat :: BrokenAt(es, k) && es[k].session == es[0].session
    ensures r == NotSegmented(MetricMissing) <==> es != [] && Contiguous(es) && counts.Keys != EventIdSet(es)
    ensures r == NotSegmented(ToolLoopInvalid) <==> es != [] && Contiguous(es) && counts.Keys == EventIdSet(es) && Units(es, mark).None?
    ensures r.Segmented? ==>
      && var us := Units(es, mark).value;
      && AllMetered(us, counts) && Cuts(cuts, |us|)
      && Grown(us, counts, config, PreferredEnds(es, ends, config.maxPreferred), r.segments, cuts)
  {
    hide Parse, Contiguous, Grown, Cuts, AllMetered, PreferredEnds, BrokenAt, InLine;
    cuts := [];
    var invalid := ValidateEvents(es);
    if invalid.Some? {
      return NotSegmented(invalid.value), [];
    }
    if counts.Keys != EventIdSet(es) {
      return NotSegmented(MetricMissing), [];
    }
    var preferred := PreferredEnds(es, ends, config.maxPreferred);
    var parsed := ParseEvents(es, mark);
    if parsed.units.None? {
      return NotSegmented(ToolLoopInvalid), [];
    }
    var us := parsed.units.value;
    AllInKeys(es, counts);
    UnitsMetered(es, mark, us, counts);
    UnitsNonempty(es, mark, us);
    var segs, at := SegmentUnits(us, counts, config, preferred);
    return Segmented(segs), at;
  }

  lemma {:induction false} AllInKeys(es: seq<Event>, counts: Tokens)
    requires counts.Keys == EventIdSet(es)
    ensures Metered(es, counts)
  {
    forall k | 0 <= k < |es| ensures es[k].eventId in counts {
      assert es[k].eventId in EventIdSet(es);
    }
  }

  lemma {:induction false} UnitsNonempty(es: seq<Event>, mark: Marker, us: seq<Unit>)
    requires Units(es, mark) == Some(us) && es != []
    ensures us != []
  {
    UnitsIff(es, mark, us);
  }

  // ----- what a segmentation promises -----

  function EventsOf(segs: seq<Segment>): (es: seq<Event>) {
    if segs == [] then [] else EventsOf(segs[..|segs| - 1]) + segs[|segs| - 1].events
  }

  /** Segments at cuts concatenate to the events up to the last cut. */
  lemma {:induction false} SegmentsRejoin(segs: seq<Segment>, us: seq<Unit>, counts: Tokens, cuts: seq<nat>)
    requires AllMetered(us, counts) && SegmentsAt(segs, us, counts, cuts) && cuts[0] == 0
    ensures EventsOf(segs) == Slice(us, 0, cuts[|cuts| - 1])
  {
    hide Slice, RunTokens;
    if segs == [] {
      EmptyRun(us, counts, 0);
    } else {
      var n := |segs| - 1;
      assert SegmentsAt(segs[..n], us, counts, cuts[..n + 1]);
      SegmentsRejoin(segs[..n], us, counts, cuts[..n + 1]);
      RisingFromZero(cuts, n);
      SliceSplit(us, 0, cuts[n], cuts[n + 1]);
    }
  }

  lemma {:induction false} RisingFromZero(cuts: seq<nat>, n: nat)
    requires n + 1 < |cuts| && cuts[n] < cuts[n + 1]
    ensures 0 <= cuts[n] <= cuts[n + 1]
  {
  }

  lemma {:induction false} AllEvents(es: seq<Event>, mark: Marker, us: seq<Unit>)
    requires Units(es, mark) == Some(us)
    ensures Slice(us, 0, |us|) == es
  {
    UnitsIff(es, mark, us);
    assert us[0..|us|] == us;
  }

  /** The segment is the whole units `a .. b` with their cost, within both limits unless it is one unit. */
  ghost predicate Whole(s: Segment, us: seq<Unit>, counts: Tokens, config: Config, a: nat, b: nat)
    requires AllMetered(us, counts)
  {
    && a < b <= |us| && s.events == Slice(us, a, b) && s.tokenCost == RunTokens(us, counts, a, b)
    && |s.events| > 0 && s.start == s.events[0].sequence && s.end == s.events[|s.events| - 1].sequence
    && ((|s.events| <= config.maxEvents && s.tokenCost <= config.maxTokens) || b == a + 1)
  }

  /** Every run is admissible, and in the plain case no run could have taken the next unit. */
  lemma {:induction false} GrownIsLegal(
    us: seq<Unit>, counts: Tokens, config: Config, preferred: set<nat>, segs: seq<Segment>, cuts: seq<nat>)
    requires AllMetered(us, counts) && Grown(us, counts, config, preferred, segs, cuts)
    ensures LegalCuts(us, counts, config, cuts)
    ensures Plain(us, counts, preferred) ==> Maximal(us, counts, config, cuts)
  {
    hide Slice, RunTokens, TokenSum, Closed, Legal, Fits, Plain;
    forall i | 0 <= i < |segs|
      ensures Legal(us, counts, config, cuts[i], cuts[i + 1])
      ensures Plain(us, counts, preferred) && cuts[i + 1] < |us| ==> !Fits(us, counts, config, cuts[i], cuts[i + 1] + 1)
    {
      ClosedIsLegal(us, counts, config, preferred, cuts[i], cuts[i + 1], segs[i].reason);
    }
  }

  lemma {:induction false} ClosedIsLegal(
    us: seq<Unit>, counts: Tokens, config: Config, preferred: set<nat>, a: nat, b: nat, reason: BoundaryReason)
    requires AllMetered(us, counts) && a < b <= |us| && Closed(us, counts, config, preferred, a, b, reason)
    ensures Legal(us, counts, config, a, b)
    ensures Plain(us, counts, preferred) && b < |us| ==> !Fits(us, counts, config, a, b + 1)
  {
    hide Slice, RunTokens, TokenSum, Fits;
    if a < b - 1 {
      assert !MustStop(us, counts, config, preferred, a, b - 1);
    }
    StopsForStops(us, counts, config, preferred, a, b, reason);
    if Plain(us, counts, preferred) && b < |us| && Fits(us, counts, config, a, b + 1) {
      FullRun(us, counts, config, preferred, a, b);
    }
  }

  /** In the plain case a complete run cannot take the next unit. */
  lemma {:induction false} FullRun(us: seq<Unit>, counts: Tokens, config: Config, preferred: set<nat>, a: nat, b: nat)
    requires AllMetered(us, counts) && a < b < |us| && Plain(us, counts, preferred) && Complete(us, counts, config, preferred, a, b)
    ensures !Fits(us, counts, config, a, b + 1)
  {
    hide Slice, RunTokens, TokenSum;
    AddUnit(us, counts, a, b - 1);
    AddUnit(us, counts, a, b);
  }

  /** The segments rejoin to the source; each obeys both limits or is one oversized unit; and without preferred
      boundaries, when every unit costs a token, no other admissible partition has fewer segments. */
  lemma {:induction false} SegmentationPromises(
    es: seq<Event>, mark: Marker, us: seq<Unit>, counts: Tokens, config: Config, preferred: set<nat>,
    segs: seq<Segment>, cuts: seq<nat>)
    requires Units(es, mark) == Some(us) && AllMetered(us, counts) && Cuts(cuts, |us|)
    requires Grown(us, counts, config, preferred, segs, cuts)
    ensures EventsOf(segs) == es
    ensures |cuts| == |segs| + 1 && forall i :: 0 <= i < |segs| ==> Whole(segs[i], us, counts, config, cuts[i], cuts[i + 1])
    ensures Plain(us, counts, preferred) ==>
      forall h :: Cuts(h, |us|) && LegalCuts(us, counts, config, h) ==> |segs| <= |h| - 1
  {
    hide RunTokens, Plain, Units, Splits, Slice, Closed;
    GrownIsLegal(us, counts, config, preferred, segs, cuts);
    AllEvents(es, mark, us);
    SegmentsRejoin(segs, us, counts, cuts);
    forall i | 0 <= i < |segs| ensures Whole(segs[i], us, counts, config, cuts[i], cuts[i + 1]) {
      assert Legal(us, counts, config, cuts[i], cuts[i + 1]);
    }
    if Plain(us, counts, preferred) {
      forall h | Cuts(h, |us|) && LegalCuts(us, counts, config, h) ensures |segs| <= |h| - 1 {
        MaximalIsLeast(us, counts, config, cuts, h);
      }
    }
  }
}
