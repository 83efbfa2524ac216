/** Fail-open live selection: the deterministic assembly comes first and is replaced only after every gate. */
module Live {
  import opened Common
  import opened Blocks
  import opened Closure
  import opened ClosureLoop
  import opened BlockOrder
  import opened Budget
  import opened NormalSelection
  import opened EmergencySelection

  datatype EngineMode = Off | Shadow | Active
  datatype EngineOutcome = OutcomeOff | OutcomeShadow | OutcomeActive | OutcomeDegraded

  datatype Certificate = Certificate(passed: bool, requiredPassed: bool, provenancePassed: bool)

  /** Whatever the engine returns: nothing here is trusted. `retryable` says that the error code begins with
      REDUCTION_ or SOLVE_. */
  datatype EngineResult = EngineResult(
    outcome: EngineOutcome, selected: seq<Block>, certificate: Option<Certificate>, retryable: bool, scores: map<Id, real>)

  datatype EngineReply = Raised | Returned(result: EngineResult)

  /** An engine may answer each call differently: the call number is an argument. */
  type Engine = (nat, set<Id>) -> EngineReply

  datatype Built = Built(coordinates: set<Id>, retained: set<Id>, provenance: set<Id>, scores: map<Id, real>)

  datatype LiveError =
    | NoError | RequiredTruncated | BuildFailure | EngineFailure | EngineRejected | FinalValidationFailed

  datatype LiveTrace = LiveTrace(outcome: EngineOutcome, error: LiveError, retries: nat)
  datatype LiveResult = LiveResult(assembly: Assembly, trace: LiveTrace)

  // ----- structure of blocks -----

  /** Same block up to the fields that scoring replaces. */
  predicate SameStructure(a: Block, b: Block) {
    a == b.(score := a.score, reason := a.reason)
  }

  ghost predicate SameBlocks(a: seq<Block>, b: seq<Block>) {
    forall x :: x in a <==> x in b
  }

  lemma {:induction false} ClosedReordered(a: seq<Block>, b: seq<Block>, s: set<Id>)
    requires SameBlocks(a, b) && Closed(a, s)
    ensures Closed(b, s)
  {
    forall i, j | 0 <= i < |b| && 0 <= j < |b| && b[i].id in s && Companions(b[i], b[j]) ensures b[j].id in s {
      assert b[i] in a && b[j] in a;
      var k, l :| 0 <= k < |a| && a[k] == b[i] && 0 <= l < |a| && a[l] == b[j];
    }
  }

  lemma {:induction false} RequiredReordered(a: seq<Block>, b: seq<Block>)
    requires SameBlocks(a, b)
    ensures RequiredIds(a) == RequiredIds(b)
  {
    RequiredInto(a, b);
    RequiredInto(b, a);
  }

  lemma {:induction false} RequiredInto(a: seq<Block>, b: seq<Block>)
    requires SameBlocks(a, b)
    ensures RequiredIds(a) <= RequiredIds(b)
  {
    forall id | id in RequiredIds(a) ensures id in RequiredIds(b) {
      var k :| 0 <= k < |a| && a[k].required && a[k].id == id;
      assert a[k] in b;
      var l :| 0 <= l < |b| && b[l] == a[k];
    }
  }

  lemma {:induction false} CanonicalReorders(cs: seq<Block>)
    requires Distinct(cs)
    ensures SameBlocks(Canonical(cs), cs)
  {
    CanonicalMeans(cs);
    assert forall x :: x in Canonical(cs) <==> x in multiset(Canonical(cs));
    assert forall x :: x in cs <==> x in multiset(cs);
  }

  // ----- scoring -----

  /** `max(0.0, scores.get(block_id, 0.0))` */
  function Activation(b: Block, scores: map<Id, real>): (v: real)
    ensures v >= 0.0
  {
    if b.id in scores && scores[b.id] > 0.0 then scores[b.id] else 0.0
  }

  /** `max(1, cost)` */
  function Divisor(cost: nat): (v: real)
    ensures v >= 1.0
  {
    if cost > 1 then cost as real else 1.0
  }

  /** The activation per token: the score times the divisor is the activation. */
  function Scored(b: Block, scores: map<Id, real>, cost: nat): (r: Block)
    ensures SameStructure(r, b) && r.score >= 0.0 && r.reason == "verified_activation_per_token"
    ensures Scaled(r.score, cost) == Activation(b, scores)
  {
    ScoreNonnegative(Activation(b, scores), Divisor(cost), Activation(b, scores) / Divisor(cost));
    b.(score := Activation(b, scores) / Divisor(cost), reason := "verified_activation_per_token")
  }

  function Scaled(score: real, cost: nat): (v: real) {
    score * Divisor(cost)
  }

  lemma {:induction false} ScoreNonnegative(p: real, q: real, r: real)
    requires p >= 0.0 && q >= 1.0 && r == p / q
    ensures r >= 0.0 && r * q == p
  {
  }

  /** Not negative, and per token of the block (at least one) the block's activation, if that is positive. */
  ghost predicate PerToken(score: real, id: Id, cost: int, scores: map<Id, real>) {
    var total := if cost >= 1 then score * cost as real else score;
    score >= 0.0 && if id in scores && scores[id] >= 0.0 then total == scores[id] else total == 0.0
  }

  lemma {:induction false} ScoredPerToken(b: Block, scores: map<Id, real>, cost: nat)
    ensures PerToken(Scored(b, scores, cost).score, b.id, cost, scores)
  {
  }

  /** Every optional block has a usable count. */
  predicate Countable(bs: seq<Block>, counts: map<Id, int>) {
    forall k :: 0 <= k < |bs| && !bs[k].required ==> bs[k].id in counts && counts[bs[k].id] >= 0
  }

  /** Optional blocks scored, required ones as they are. */
  function ScoredPack(bs: seq<Block>, scores: map<Id, real>, counts: map<Id, int>): (r: seq<Block>)
    requires Countable(bs, counts)
    ensures |r| == |bs| && forall k :: 0 <= k < |bs| ==>
      SameStructure(r[k], bs[k]) && r[k] == if bs[k].required then bs[k] else Scored(bs[k], scores, counts[bs[k].id])
  {
    seq(|bs|, k requires 0 <= k < |bs| => if bs[k].required then bs[k] else Scored(bs[k], scores, counts[bs[k].id]))
  }

  /** `_score_for_pack`; None is its TypeError. */
  method ScoreForPack(bs: seq<Block>, scores: map<Id, real>, counts: map<Id, int>) returns (r: Option<seq<Block>>)
    ensures r.Some? <==> Countable(bs, counts)
    ensures r.Some? ==> r.value == ScoredPack(bs, scores, counts)
    ensures r.Some? ==> |r.value| == |bs| && forall k :: 0 <= k < |bs| ==>
      SameStructure(r.value[k], bs[k]) && (bs[k].required ==> r.value[k] == bs[k])
    ensures r.Some? ==> forall k :: 0 <= k < |bs| && !bs[k].required ==>
      PerToken(r.value[k].score, bs[k].id, counts[bs[k].id], scores) && r.value[k].reason == "verified_activation_per_token"
  {
    hide Scaled, Activation, PerToken, Scored;
    var packed: seq<Block> := [];
    for k := 0 to |bs|
      invariant |packed| == k && Countable(bs[..k], counts)
      invariant forall i :: 0 <= i < k ==>
        && (!bs[i].required ==> bs[i].id in counts && counts[bs[i].id] >= 0)
        && packed[i] == if bs[i].required then bs[i] else Scored(bs[i], scores, counts[bs[i].id])
    {
      var b := bs[k];
      if b.required {
        packed := packed + [b];
      } else if b.id !in counts || counts[b.id] < 0 {
        return None;
      } else {
        packed := packed + [Scored(b, scores, counts[b.id])];
      }
    }
    forall k | 0 <= k < |bs| && !bs[k].required ensures PerToken(packed[k].score, bs[k].id, counts[bs[k].id], scores) {
      ScoredPerToken(bs[k], scores, counts[bs[k].id]);
    }
    return Some(packed);
  }

  // ----- the engine -----

  predicate ShouldRetry(result: EngineResult, retained: set<Id>) {
    result.outcome.OutcomeDegraded? && result.retryable && retained != {}
  }

  /** How often the engine is asked again: once, if its first answer calls for it and something was not retained. */
  ghost function Retries(engine: Engine, built: Built): (n: nat)
    ensures n <= 1
  {
    var first := engine(0, built.retained);
    if first.Returned? && first.result.outcome == OutcomeDegraded && first.result.retryable
       && built.retained != {} && built.retained <= built.coordinates && built.retained != built.coordinates then 1
    else 0
  }

  /** The reply to the last call the request makes. */
  ghost function LastReply(engine: Engine, built: Built): (r: EngineReply) {
    if Retries(engine, built) == 0 then engine(0, built.retained) else engine(1, built.coordinates)
  }

  /** At most two calls, the second with every coordinate retained. */
  method Consult(engine: Engine, built: Built) returns (r: Option<EngineResult>, retries: nat)
    ensures retries == Retries(engine, built) <= 1
    ensures var reply := LastReply(engine, built);
      r == if reply.Raised? then None else Some(reply.result)
  {
    var first := engine(0, built.retained);
    if first.Raised? {
      return None, 0;
    }
    if ShouldRetry(first.result, built.retained) && built.retained < built.coordinates {
      var second := engine(1, built.coordinates);
      return if second.Raised? then None else Some(second.result), 1;
    }
    return Some(first.result), 0;
  }

  /** An ACTIVE result with a certificate in which everything passed. */
  ghost predicate Certain(result: EngineResult) {
    result.outcome == OutcomeActive && result.certificate == Some(Certificate(true, true, true))
  }

  predicate Certified(result: EngineResult) {
    && result.outcome.OutcomeActive? && result.certificate.Some?
    && result.certificate.value.passed && result.certificate.value.requiredPassed && result.certificate.value.provenancePassed
  }

  // ----- the result -----

  /** Fits the budget, holds every required candidate and whole dependency components; the blocks are candidates up
      to score and reason. */
  ghost predicate LiveSafe(cs: seq<Block>, a: Assembly) {
    && a.trace.total <= a.trace.inputBudget
    && RequiredIds(cs) <= Ids(a.selected) <= Ids(cs) && Closed(cs, Ids(a.selected)) && Distinct(a.selected)
    && AmongCandidates(cs, a.selected)
  }

  /** The last reply was certified, and the selected ids are exactly those it forces. */
  ghost predicate ExactlyForced(cs: seq<Block>, reply: EngineReply, a: Assembly) {
    && reply.Returned? && Certain(reply.result)
    && Ids(a.selected) == ClosureOf(cs, Ids(reply.result.selected) + RequiredIds(cs))
  }

  /** A fallback assembled from the canonical candidates is safe for them. */
  lemma {:induction false} FallbackSafe(cs: seq<Block>, q: Request, a: Assembly)
    requires Distinct(cs) && Safe(cs, q, a)
    ensures LiveSafe(cs, a)
  {
    hide Closed, Joined, CountText, Canonical, Members, RequiredIds, Ids;
    var u := Canonical(cs);
    CanonicalMeans(cs);
    CanonicalReorders(cs);
    ClosedReordered(u, cs, Ids(a.selected));
    RequiredReordered(u, cs);
    SoundDistinct(u, a.selected);
    MembersIds(u, Ids(a.selected));
    CandidatesThemselves(cs, u, a.selected);
  }

  /** Every selected block is a candidate, up to score and reason. */
  ghost predicate AmongCandidates(cs: seq<Block>, selected: seq<Block>) {
    forall k :: 0 <= k < |selected| ==> HasOrigin(cs, selected[k])
  }

  ghost predicate HasOrigin(cs: seq<Block>, x: Block) {
    exists b :: b in cs && SameStructure(x, b)
  }

  lemma {:induction false} CandidatesThemselves(cs: seq<Block>, u: seq<Block>, selected: seq<Block>)
    requires SameBlocks(u, cs) && Sound(u, selected)
    ensures AmongCandidates(cs, selected)
  {
    forall k | 0 <= k < |selected| ensures HasOrigin(cs, selected[k]) {
      PickedFrom(u, selected, k);
      assert selected[k] in cs && SameStructure(selected[k], selected[k]);
    }
  }

  /** The final pack after its gates. */
  lemma {:induction false} FinalSafe(cs: seq<Block>, q: Request, closure: seq<Block>, seed: set<Id>, scored: seq<Block>, a: Assembly)
    requires Distinct(cs) && seed <= Ids(cs) && RequiredIds(cs) <= seed && closure == Members(cs, ClosureOf(cs, seed))
    requires |scored| == |closure| && forall k :: 0 <= k < |closure| ==> SameStructure(scored[k], closure[k])
    requires Safe(scored, q, a) && Ids(closure) <= Ids(a.selected)
    ensures LiveSafe(cs, a) && Ids(a.selected) == ClosureOf(cs, seed)
  {
    hide Members, Closed, Joined, CountText, ClosureOf, RequiredIds, Ids, Canonical, SameStructure, AmongCandidates;
    var u := Canonical(scored);
    CanonicalMeans(scored);
    ClosureIsLeast(cs, seed);
    MembersIds(cs, ClosureOf(cs, seed));
    SameStructureIds(scored, closure);
    SoundDistinct(u, a.selected);
    MembersIds(u, Ids(a.selected));
    FinalIds(cs, seed, closure, u, a);
    ScoredCandidates(cs, seed, closure, scored, u, a.selected);
  }

  lemma {:induction false} ScoredCandidates(
    cs: seq<Block>, seed: set<Id>, closure: seq<Block>, scored: seq<Block>, u: seq<Block>, selected: seq<Block>)
    requires closure == Members(cs, ClosureOf(cs, seed)) && Sound(u, selected) && (forall b :: b in u ==> b in scored)
    requires |scored| == |closure| && forall k :: 0 <= k < |closure| ==> SameStructure(scored[k], closure[k])
    ensures AmongCandidates(cs, selected)
  {
    hide Members, ClosureOf, SameStructure, Sound;
    forall k | 0 <= k < |selected| ensures HasOrigin(cs, selected[k]) {
      PickedFrom(u, selected, k);
      assert selected[k] in scored;
      var i :| 0 <= i < |scored| && scored[i] == selected[k];
      InClosure(cs, seed, closure, i);
    }
  }

  lemma {:induction false} FinalIds(cs: seq<Block>, seed: set<Id>, closure: seq<Block>, u: seq<Block>, a: Assembly)
    requires Ids(closure) == Ids(cs) * ClosureOf(cs, seed) && Ids(u) == Ids(closure)
    requires Ids(a.selected) == Ids(u) * Ids(a.selected) && Ids(closure) <= Ids(a.selected)
    ensures Ids(a.selected) == ClosureOf(cs, seed)
  {
    hide Ids;
    assert Ids(cs) * ClosureOf(cs, seed) == ClosureOf(cs, seed);
  }

  lemma {:induction false} InClosure(cs: seq<Block>, seed: set<Id>, closure: seq<Block>, i: nat)
    requires closure == Members(cs, ClosureOf(cs, seed)) && i < |closure|
    ensures closure[i] in cs
  {
  }

  lemma {:induction false} PickedFrom(u: seq<Block>, selected: seq<Block>, k: nat)
    requires Sound(u, selected) && k < |selected|
    ensures selected[k] in u
  {
  }

  lemma {:induction false} SameStructureIds(a: seq<Block>, b: seq<Block>)
    requires |a| == |b| && forall k :: 0 <= k < |a| ==> SameStructure(a[k], b[k])
    ensures Ids(a) == Ids(b)
  {
    assert forall k :: 0 <= k < |a| ==> a[k].id == b[k].id;
  }

  // ----- resolved counts -----

  /** The request with its block counts resolved once. */
  ghost predicate SameCounts(u: seq<Block>, q: Request, q': Request) {
    && q' == q.(provided := q'.provided)
    && forall k :: 0 <= k < |u| ==> CountOf(u[k], q'.count, q'.provided) == CountOf(u[k], q.count, q.provided)
  }

  lemma {:induction false} CountsForSame(u: seq<Block>, q: Request, q': Request)
    requires SameCounts(u, q, q')
    ensures CountsFor(u, q'.count, q'.provided) == CountsFor(u, q.count, q.provided)
  {
    if u != [] {
      CountsForSame(u[..|u| - 1], q, q');
    }
  }

  lemma {:induction false} SameRequest(cs: seq<Block>, q: Request, q': Request)
    requires SameCounts(Canonical(cs), q, q')
    ensures Assembles(cs, q') <==> Assembles(cs, q)
    ensures Favourable(cs, q) ==> Favourable(cs, q') && (Feasible(cs, q') <==> Feasible(cs, q))
  {
    hide Assembles, Favourable, Feasible, SameCounts;
    SameAssembles(cs, q, q');
    SameFavourable(cs, q, q');
  }

  lemma {:induction false} SameAssembles(cs: seq<Block>, q: Request, q': Request)
    requires SameCounts(Canonical(cs), q, q')
    ensures Assembles(cs, q') <==> Assembles(cs, q)
  {
    hide FixedError, PrepareError, Packing, SameCounts;
    SameFixed(cs, q, q');
    SamePrepared(cs, q, q');
    if PrepareError(cs, q).None? {
      SamePacking(cs, q, q');
    }
  }

  lemma {:induction false} SameFixed(cs: seq<Block>, q: Request, q': Request)
    requires SameCounts(Canonical(cs), q, q')
    ensures FixedError(q') == FixedError(q) && (FixedError(q).None? ==> RequestBudget(q') == RequestBudget(q))
  {
    hide CountText, Canonical, CountOf;
  }

  lemma {:induction false} SamePrepared(cs: seq<Block>, q: Request, q': Request)
    requires SameCounts(Canonical(cs), q, q')
    ensures PrepareError(cs, q').None? <==> PrepareError(cs, q).None?
    ensures PrepareError(cs, q).None? ==> CountText(q.count, SEPARATOR).Ok? && q'.count == q.count
  {
    hide CountText, Canonical, CountsError, TextsError, CountOf;
    CanonicalMeans(cs);
    CountsErrorMeans(Canonical(cs), q.count, q.provided);
    CountsErrorMeans(Canonical(cs), q'.count, q'.provided);
  }

  lemma {:induction false} SamePacking(cs: seq<Block>, q: Request, q': Request)
    requires SameCounts(Canonical(cs), q, q') && CountText(q.count, SEPARATOR).Ok? && q'.count == q.count
    ensures forall budget: nat :: Packing(cs, q', budget) == Packing(cs, q, budget)
  {
    hide CountText, Canonical, Trim, ChosenIds, RequiredIds, Members;
    CountsForSame(Canonical(cs), q, q');
    hide CountsFor, SameCounts;
  }

  lemma {:induction false} SameFavourable(cs: seq<Block>, q: Request, q': Request)
    requires SameCounts(Canonical(cs), q, q')
    ensures Favourable(cs, q) ==> Favourable(cs, q') && (Feasible(cs, q') <==> Feasible(cs, q))
  {
    hide RawSolo, RawContiguous, NormalMisses, CountText, Need, Cost, Canonical;
    CountsForSame(Canonical(cs), q, q');
  }

  /** The counts that both assemblies of a request use. */
  ghost function ResolvedCounts(cs: seq<Block>, q: Request): (counts: map<Id, int>) {
    if q.provided.Some? then q.provided.value else CountsFor(cs, q.count, None)
  }

  ghost function Resolved(cs: seq<Block>, q: Request): (r: Request) {
    q.(provided := Some(ResolvedCounts(cs, q)))
  }

  /** The error of counting the candidates once, when no counts are given. */
  ghost function ResolveError(cs: seq<Block>, q: Request): (e: Option<BudgetError>) {
    if q.provided.Some? then None else CountsError(cs, q.count, None)
  }

  lemma {:induction false} ResolvedSame(cs: seq<Block>, q: Request)
    requires Distinct(cs) && ResolveError(cs, q).None?
    ensures SameCounts(cs, q, Resolved(cs, q))
  {
    hide CountText;
    CountsErrorMeans(cs, q.count, None);
    forall k | 0 <= k < |cs| ensures CountOf(cs[k], q.count, Some(ResolvedCounts(cs, q))) == CountOf(cs[k], q.count, q.provided) {
      if q.provided.None? {
        CountsForAt(cs, q.count, None, k);
      }
    }
  }

  /** `count_candidate_blocks` unless counts were passed in. */
  method ResolveOnce(cs: seq<Block>, q: Request) returns (r: Outcome<map<Id, int>>)
    ensures ResolveError(cs, q) == if r.Ok? then None else Some(r.error)
    ensures r.Ok? ==> r.value == ResolvedCounts(cs, q)
  {
    if q.provided.Some? {
      return Ok(q.provided.value);
    }
    var counts := ResolveCounts(cs, q.count, None);
    return if counts.Ok? then Ok(counts.value) else Err(counts.error);
  }

  /** The error of the request without an engine, if any. */
  ghost function PlainError(cs: seq<Block>, q: Request): (e: Option<BudgetError>) {
    if ResolveError(cs, q).Some? then ResolveError(cs, q) else RequestError(cs, Resolved(cs, q))
  }

  /** Counting the candidates beforehand changes which error comes first, but not whether there is one. */
  lemma {:induction false} PlainIff(cs: seq<Block>, q: Request)
    requires Distinct(cs)
    ensures PlainError(cs, q).None? <==> Assembles(cs, q)
    ensures Favourable(cs, q) ==>
      ResolveError(cs, q).None? && Favourable(cs, Resolved(cs, q)) && (Feasible(cs, Resolved(cs, q)) <==> Feasible(cs, q))
  {
    hide Canonical, Favourable, Feasible, CountsError, CountOf, CountText;
    CanonicalReorders(cs);
    CanonicalMeans(cs);
    if Favourable(cs, q) {
      FavourableResolves(cs, q);
    }
    if ResolveError(cs, q).None? {
      ResolvedSame(cs, q);
      SameCountsReordered(cs, Canonical(cs), q, Resolved(cs, q));
      SameRequest(cs, q, Resolved(cs, q));
    } else {
      CountsErrorMeans(cs, q.count, None);
      Uncountable(cs, q);
    }
  }

  lemma {:induction false} FavourableResolves(cs: seq<Block>, q: Request)
    requires Distinct(cs) && Favourable(cs, q)
    ensures ResolveError(cs, q).None?
  {
    hide CountText, RawSolo, CountsError, Canonical;
    CanonicalReorders(cs);
    CountsErrorMeans(cs, q.count, None);
    forall k | 0 <= k < |cs| && q.provided.None? ensures CountOf(cs[k], q.count, None).Ok? {
      assert cs[k] in Canonical(cs);
      var i :| 0 <= i < |Canonical(cs)| && Canonical(cs)[i] == cs[k];
    }
  }

  lemma {:induction false} Uncountable(cs: seq<Block>, q: Request)
    requires Distinct(cs) && exists k :: 0 <= k < |cs| && CountOf(cs[k], q.count, q.provided).Err?
    ensures !Assembles(cs, q)
  {
    hide CountOf, CountText, Canonical, Packing, CountsError, TextsError;
    var k :| 0 <= k < |cs| && CountOf(cs[k], q.count, q.provided).Err?;
    CanonicalReorders(cs);
    CanonicalMeans(cs);
    CountsErrorMeans(Canonical(cs), q.count, q.provided);
    assert cs[k] in Canonical(cs);
    var i :| 0 <= i < |Canonical(cs)| && Canonical(cs)[i] == cs[k];
  }

  lemma {:induction false} SameCountsReordered(a: seq<Block>, b: seq<Block>, q: Request, q': Request)
    requires SameBlocks(a, b) && SameCounts(a, q, q')
    ensures SameCounts(b, q, q')
  {
    hide CountOf;
    forall k | 0 <= k < |b| ensures CountOf(b[k], q'.count, q'.provided) == CountOf(b[k], q.count, q.provided) {
      assert b[k] in a;
      var i :| 0 <= i < |a| && a[i] == b[k];
    }
  }

  // ----- the whole -----

  // ----- the final pack -----

  ghost function ForcedIds(cs: seq<Block>, result: EngineResult): (s: set<Id>) {
    ClosureOf(cs, Ids(result.selected) + RequiredIds(cs))
  }

  function ScoresOf(built: Built, result: EngineResult): (scores: map<Id, real>) {
    if result.scores != map[] then result.scores else built.scores
  }

  ghost predicate Provided(bs: seq<Block>, provenance: set<Id>) {
    forall b <- bs :: forall e <- b.sources :: e in provenance
  }

  /** The engine's selection passes the gates before the final assembly: it names candidates, its closure is within
      the bound and the provenance, and the blocks of the closure have counts. */
  ghost predicate Reaches(cs: seq<Block>, counts: map<Id, int>, built: Built, result: EngineResult, maxBlocks: int) {
    var closure := Members(cs, ForcedIds(cs, result));
    && maxBlocks >= 1 && Ids(result.selected) <= Ids(cs) && |ForcedIds(cs, result)| <= maxBlocks
    && Provided(closure, built.provenance) && Countable(closure, counts)
  }

  /** What the final assembly is asked to pack. */
  ghost function FinalCandidates(cs: seq<Block>, counts: map<Id, int>, built: Built, result: EngineResult): (bs: seq<Block>)
    requires Countable(Members(cs, ForcedIds(cs, result)), counts)
  {
    ScoredPack(Members(cs, ForcedIds(cs, result)), if |result.scores| > 0 then result.scores else built.scores, counts)
  }

  /** The final assembly is reached and the tokenizer refuses it. */
  ghost predicate Stops(cs: seq<Block>, q: Request, counts: map<Id, int>, built: Built, result: EngineResult, maxBlocks: int) {
    && Reaches(cs, counts, built, result, maxBlocks)
    && RequestError(FinalCandidates(cs, counts, built, result), q) == Some(TokenizerRefused)
  }

  /** The final assembly is reached and packs the whole closure. */
  ghost predicate Packs(cs: seq<Block>, q: Request, counts: map<Id, int>, built: Built, result: EngineResult, maxBlocks: int) {
    && Reaches(cs, counts, built, result, maxBlocks)
    && var final := FinalCandidates(cs, counts, built, result);
    && Assembles(final, q) && Ids(Packing(final, q, RequestBudget(q)).value) == ForcedIds(cs, result)
  }

  datatype Final = Accepted(assembly: Assembly) | Rejected | Refused

  lemma {:induction false} ForcedShape(cs: seq<Block>, result: EngineResult)
    requires Ids(result.selected) <= Ids(cs)
    ensures Ids(result.selected) + RequiredIds(cs) <= Ids(cs)
    ensures Ids(Members(cs, ForcedIds(cs, result))) == ForcedIds(cs, result) && RequiredIds(cs) <= ForcedIds(cs, result) <= Ids(cs)
    ensures Closed(cs, ForcedIds(cs, result))
  {
    assert RequiredIds(cs) <= Ids(cs);
    ClosureIsLeast(cs, Ids(result.selected) + RequiredIds(cs));
    MembersIds(cs, ForcedIds(cs, result));
    assert Ids(cs) * ForcedIds(cs, result) == ForcedIds(cs, result);
  }

  lemma {:induction false} OwnClosure(cs: seq<Block>, ids: set<Id>, maxBlocks: int)
    requires maxBlocks >= 1 && Distinct(cs) && RequiredIds(cs) <= ids <= Ids(cs) && Closed(cs, ids) && |ids| <= maxBlocks
    ensures IsOwnClosure(Members(cs, ids), cs, maxBlocks)
  {
    hide Members, Closed, RequiredIds, Ids, Distinct;
    MembersIds(cs, ids);
    assert Ids(cs) * ids == ids;
  }

  /** The gates after the final assembly let a pack through exactly when it is the whole closure. */
  lemma {:induction false} GatesMean(
    cs: seq<Block>, q: Request, counts: map<Id, int>, built: Built, result: EngineResult, maxBlocks: int, a: Assembly)
    requires Distinct(cs) && Reaches(cs, counts, built, result, maxBlocks)
    requires Safe(FinalCandidates(cs, counts, built, result), q, a)
    ensures var ids, forced := Ids(a.selected), ForcedIds(cs, result);
      && (RequiredIds(cs) <= ids && forced <= ids && IsOwnClosure(Members(cs, ids), cs, maxBlocks) <==> ids == forced)
      && (ids == forced ==> LiveSafe(cs, a)) && a.trace.total <= a.trace.inputBudget
  {
    ForcedShape(cs, result);
    assert a.trace.total <= a.trace.inputBudget;
    hide Safe, LiveSafe, Closed, Members, Ids, RequiredIds, Scored, ClosureOf, IsOwnClosure, Provided, Distinct;
    var seed, forced := Ids(result.selected) + RequiredIds(cs), ForcedIds(cs, result);
    if forced <= Ids(a.selected) {
      FinalSafe(cs, q, Members(cs, forced), seed, FinalCandidates(cs, counts, built, result), a);
      OwnClosure(cs, forced, maxBlocks);
    }
  }

  /** Everything after the engine's certificate: closure, provenance, scoring, assembly and the final gates. A
      TokenizerError of the assembly passes through; every other failure rejects the pack. */
  method FinalPack(cs: seq<Block>, q: Request, counts: map<Id, int>, built: Built, result: EngineResult, maxBlocks: int)
    returns (r: Final)
    requires Distinct(cs)
    ensures r.Refused? <==> Stops(cs, q, counts, built, result, maxBlocks)
    ensures r.Accepted? <==> Packs(cs, q, counts, built, result, maxBlocks)
    ensures r.Accepted? ==>
      && LiveSafe(cs, r.assembly) && Ids(r.assembly.selected) == ForcedIds(cs, result)
      && r.assembly.selected == Packing(FinalCandidates(cs, counts, built, result), q, RequestBudget(q)).value
  {
    hide Members, Safe, LiveSafe, Closed, Packing, RequestError, Scored, ClosureOf, IsOwnClosure, Ids, RequiredIds, Distinct;
    var closure := CloseDependencies(result.selected, cs, maxBlocks);
    if closure.ClosureFailed? {
      return Rejected;
    }
    if exists b <- closure.blocks :: exists e <- b.sources :: e !in built.provenance {
      return Rejected;
    }
    var scored := ScoreForPack(closure.blocks, ScoresOf(built, result), counts);
    if scored.None? {
      return Rejected;
    }
    assert Reaches(cs, counts, built, result, maxBlocks);
    assert scored.value == FinalCandidates(cs, counts, built, result);
    var final := Assemble(scored.value, q);
    if final.Err? {
      return if final.error == TokenizerRefused then Refused else Rejected;
    }
    var a := final.value;
    ForcedShape(cs, result);
    GatesMean(cs, q, counts, built, result, maxBlocks, a);
    if !(RequiredIds(cs) <= Ids(a.selected)) || !(Ids(closure.blocks) <= Ids(a.selected)) || a.trace.total > a.trace.inputBudget {
      return Rejected;
    }
    var valid := ValidateClosure(Members(cs, Ids(a.selected)), cs, maxBlocks);
    return if valid then Accepted(a) else Rejected;
  }

  // ----- the whole -----

  /** What the request of the final assembly counts with: the same counts, and the counter as it is by then. */
  ghost function FinalRequest(cs: seq<Block>, q: Request, later: Counter): (r: Request) {
    Resolved(cs, q).(count := later)
  }

  /** The engine is asked, and its last answer is certified. */
  ghost predicate EngineDecides(cs: seq<Block>, mode: EngineMode, complete: bool, built: Option<Built>, engine: Engine) {
    && mode.Active? && complete && (forall b <- cs :: b.complete) && built.Some?
    && LastReply(engine, built.value).Returned? && Certain(LastReply(engine, built.value).result)
  }

  /** The engine's certified choice leads to a final assembly that the tokenizer refuses. */
  ghost predicate TokenizerStops(
    cs: seq<Block>, q: Request, mode: EngineMode, complete: bool, built: Option<Built>, engine: Engine, later: Counter, maxBlocks: int)
  {
    && EngineDecides(cs, mode, complete, built, engine)
    && Stops(cs, FinalRequest(cs, q, later), ResolvedCounts(cs, q), built.value, LastReply(engine, built.value).result, maxBlocks)
  }

  /** The engine's certified choice passes every gate. */
  ghost predicate EngineReplaces(
    cs: seq<Block>, q: Request, mode: EngineMode, complete: bool, built: Option<Built>, engine: Engine, later: Counter, maxBlocks: int)
  {
    && EngineDecides(cs, mode, complete, built, engine)
    && Packs(cs, FinalRequest(cs, q, later), ResolvedCounts(cs, q), built.value, LastReply(engine, built.value).result, maxBlocks)
  }

  /** The blocks of the plain assembly. */
  ghost predicate FellBack(cs: seq<Block>, q: Request, a: Assembly) {
    && PlainError(cs, q).None?
    && a.selected == Packing(cs, Resolved(cs, q), RequestBudget(Resolved(cs, q))).value
  }

  /** What the trace says: why the plain assembly was kept, or that the engine's was taken, and how often it was asked
      again. */
  ghost predicate Traced(
    cs: seq<Block>, mode: EngineMode, complete: bool, built: Option<Built>, engine: Engine, replaced: bool, t: LiveTrace)
  {
    if !complete || exists b <- cs :: !b.complete then t == LiveTrace(OutcomeDegraded, RequiredTruncated, 0)
    else if mode == Off then t == LiveTrace(OutcomeOff, NoError, 0)
    else if built.None? then t == LiveTrace(OutcomeDegraded, BuildFailure, 0)
    else
      && t.retries == Retries(engine, built.value)
      && match LastReply(engine, built.value)
         case Raised => t.outcome == OutcomeDegraded && t.error == EngineFailure
         case Returned(result) =>
           if mode == Shadow then t.error == NoError && t.outcome == if result.outcome == OutcomeShadow then OutcomeShadow else OutcomeDegraded
           else if !Certain(result) then t.outcome == OutcomeDegraded && t.error == EngineRejected
           else if replaced then t.outcome == OutcomeActive && t.error == NoError
           else t.outcome == OutcomeDegraded && t.error == FinalValidationFailed
  }

  lemma {:induction false} CertifiedIff(result: EngineResult)
    ensures Certified(result) <==> Certain(result)
  {
  }

  /** What the engine's part comes to: the plain assembly is kept or replaced, or the tokenizer stops the request. */
  datatype Decision = Keep(trace: LiveTrace) | Replace(assembly: Assembly, trace: LiveTrace) | Stop

  /** Everything after the plain assembly. */
  method AskEngine(
    m: seq<Block>, resolved: Request, counts: map<Id, int>, mode: EngineMode, complete: bool, built: Option<Built>, engine: Engine,
    later: Counter, maxBlocks: int)
    returns (d: Decision)
    requires Distinct(m)
    ensures d.Stop? <==>
      && EngineDecides(m, mode, complete, built, engine)
      && Stops(m, resolved.(count := later), counts, built.value, LastReply(engine, built.value).result, maxBlocks)
    ensures d.Replace? <==>
      && EngineDecides(m, mode, complete, built, engine)
      && Packs(m, resolved.(count := later), counts, built.value, LastReply(engine, built.value).result, maxBlocks)
    ensures !d.Stop? ==> (d.trace.outcome.OutcomeActive? <==> d.Replace?) && Traced(m, mode, complete, built, engine, d.Replace?, d.trace)
    ensures d.Replace? ==> LiveSafe(m, d.assembly) && ExactlyForced(m, LastReply(engine, built.value), d.assembly)
  {
    hide LiveSafe, Stops, Packs, Distinct, Retries, Certified, Certain, ClosureOf, Ids, RequiredIds;
    if (exists b <- m :: !b.complete) || !complete {
      return Keep(LiveTrace(OutcomeDegraded, RequiredTruncated, 0));
    }
    if mode.Off? {
      return Keep(LiveTrace(OutcomeOff, NoError, 0));
    }
    if built.None? {
      return Keep(LiveTrace(OutcomeDegraded, BuildFailure, 0));
    }
    var answer, retries := Consult(engine, built.value);
    if answer.None? {
      return Keep(LiveTrace(OutcomeDegraded, EngineFailure, retries));
    }
    var result := answer.value;
    if mode.Shadow? {
      return Keep(LiveTrace(if result.outcome.OutcomeShadow? then OutcomeShadow else OutcomeDegraded, NoError, retries));
    }
    CertifiedIff(result);
    if !Certified(result) {
      return Keep(LiveTrace(OutcomeDegraded, EngineRejected, retries));
    }
    var final := FinalPack(m, resolved.(count := later), counts, built.value, result, maxBlocks);
    match final
    case Refused => return Stop;
    case Rejected => return Keep(LiveTrace(OutcomeDegraded, FinalValidationFailed, retries));
    case Accepted(assembly) => return Replace(assembly, LiveTrace(OutcomeActive, NoError, retries));
  }

  /** `select_live_context`. `complete` stands for the check that every required source of the view has a candidate,
      `built` for the graph, or None when building it raised, and `later` for the counter as it is after the engine was
      asked. */
  method SelectLive(
    cs: seq<Block>, q: Request, mode: EngineMode, complete: bool, built: Option<Built>, engine: Engine, later: Counter, maxBlocks: int)
    returns (r: Outcome<LiveResult>)
    ensures var m := Canonical(cs);
      && (r.Ok? <==> Assembles(m, q) && !TokenizerStops(m, q, mode, complete, built, engine, later, maxBlocks))
      && (r.Err? ==> r.error == if PlainError(m, q).Some? then PlainError(m, q).value else TokenizerRefused)
    ensures r.Ok? ==> LiveSafe(Canonical(cs), r.value.assembly)
    ensures r.Ok? ==>
      var replaced := EngineReplaces(Canonical(cs), q, mode, complete, built, engine, later, maxBlocks);
      && (r.value.trace.outcome.OutcomeActive? <==> replaced)
      && Traced(Canonical(cs), mode, complete, built, engine, replaced, r.value.trace)
      && (if replaced then
            ExactlyForced(Canonical(cs), LastReply(engine, built.value), r.value.assembly)
          else FellBack(Canonical(cs), q, r.value.assembly))
    ensures NeverRefuses(later) ==> (r.Ok? <==> Assembles(Canonical(cs), q))
    ensures NeverRefuses(later) && Favourable(Canonical(cs), q) ==> (r.Ok? <==> Feasible(Canonical(cs), q))
  {
    hide LiveSafe, Safe, Favourable, Feasible, Assembles, Packing, PackingMode, Canonical, CountText, ClosureOf, Ids, RequiredIds,
      RequestError, ResolvedCounts, Stops, Packs, Distinct, NeverRefuses, Retries, Certified, Certain, ResolveError, OutcomeIs,
      Traced, ExactlyForced, EngineDecides, LastReply;
    var m, duplicates := Deduplicate(cs);
    CanonicalMeans(cs);
    PlainIff(m, q);
    if NeverRefuses(later) {
      EngineCannotStop(m, q, mode, complete, built, engine, later, maxBlocks);
    }
    var counts := ResolveOnce(m, q);
    if counts.Err? {
      return Err(counts.error);
    }
    var resolved := q.(provided := Some(counts.value));
    var first := Assemble(m, resolved);
    OutcomeShape(m, resolved, first);
    if first.Err? {
      return Err(first.error);
    }
    var fallback := first.value;
    FallbackSafe(m, resolved, fallback);
    var decision := AskEngine(m, resolved, counts.value, mode, complete, built, engine, later, maxBlocks);
    match decision
    case Keep(trace) => return Ok(LiveResult(fallback, trace));
    case Replace(assembly, trace) => return Ok(LiveResult(assembly, trace));
    case Stop => return Err(TokenizerRefused);
  }

  lemma {:induction false} OutcomeShape(cs: seq<Block>, q: Request, r: Outcome<Assembly>)
    requires OutcomeIs(cs, q, r)
    ensures RequestError(cs, q) == if r.Ok? then None else Some(r.error)
    ensures r.Ok? ==> r.value.selected == Packing(cs, q, RequestBudget(q)).value
  {
    hide RequestError, Packing, PackingMode, Reported;
  }

  /** With a tokenizer that never refuses no engine can make a request fail. */
  lemma {:induction false} EngineCannotStop(
    cs: seq<Block>, q: Request, mode: EngineMode, complete: bool, built: Option<Built>, engine: Engine, later: Counter, maxBlocks: int)
    requires NeverRefuses(later)
    ensures !TokenizerStops(cs, q, mode, complete, built, engine, later, maxBlocks)
  {
    hide Reaches, FinalCandidates, RequestError, Resolved, ResolvedCounts;
    if EngineDecides(cs, mode, complete, built, engine) {
      var result := LastReply(engine, built.value).result;
      NeverStops(cs, FinalRequest(cs, q, later), ResolvedCounts(cs, q), built.value, result, maxBlocks);
    }
  }

  lemma {:induction false} NeverStops(
    cs: seq<Block>, q: Request, counts: map<Id, int>, built: Built, result: EngineResult, maxBlocks: int)
    requires NeverRefuses(q.count)
    ensures !Stops(cs, q, counts, built, result, maxBlocks)
  {
    hide RequestError, ForcedIds, Members, ScoredPack;
    if Reaches(cs, counts, built, result, maxBlocks) {
      NeverRefused(FinalCandidates(cs, counts, built, result), q);
    }
  }
}
