/** The mechanical publication gate of `domain/validation.py`. */
module PublicationGate {
  import opened Common
  import opened Domain

  datatype FailureCode =
    | EmptyCompilerOutput | SessionKeyMismatch | BaseSnapshotMismatch | TargetMismatch | CoverageGap
    | CapsuleMembershipMismatch | SnapshotAnchorMismatch | InvalidCapsuleCoverage | UnsupportedActiveSemantic
    | MissingPriorSemantic | MissingRequiredAnchor | MechanicalNotPassed | SourceCoverageNotFull
    | AnchorRecallNotFull | UnsupportedCriticalClaims | QualityCoverageGap | TokenCeilingExceeded

  datatype Report = Report(
    failures: set<FailureCode>, sourceCoverage: real, anchorRecall: real,
    coverageGap: nat, unsupportedCriticalClaims: nat)
  {
    predicate Passed() { failures == {} }
  }

  /** What the gate is asked to compare. */
  datatype Submission = Submission(
    previous: Option<Snapshot>,
    previousCapsules: seq<Capsule>,
    candidate: Snapshot,
    capsules: seq<Capsule>,
    events: seq<Event>,
    target: nat,
    tokenCeiling: int)

  datatype SemanticRecord = SemanticRecord(
    stableId: Id, sources: seq<Id>, status: SemanticStatus, supportsTransition: bool)

  function ClaimRecords(claims: seq<Claim>): (r: seq<SemanticRecord>) {
    seq(|claims|, i requires 0 <= i < |claims| =>
      SemanticRecord(claims[i].claimId, claims[i].sources, claims[i].status, true))
  }

  function DecisionRecords(items: seq<Decision>): (r: seq<SemanticRecord>) {
    seq(|items|, i requires 0 <= i < |items| =>
      SemanticRecord(items[i].decisionId, items[i].sources, items[i].status, true))
  }

  function EntityRecords(items: seq<Entity>): (r: seq<SemanticRecord>) {
    seq(|items|, i requires 0 <= i < |items| =>
      SemanticRecord(items[i].entityId, items[i].sources, Active, false))
  }

  function DependencyRecords(items: seq<Dependency>): (r: seq<SemanticRecord>) {
    seq(|items|, i requires 0 <= i < |items| =>
      SemanticRecord(items[i].dependencyId, items[i].sources, Active, false))
  }

  function SemanticRecords(capsules: seq<Capsule>): (r: seq<SemanticRecord>) {
    if capsules == [] then []
    else
      var c := capsules[0];
      ClaimRecords(c.goals) + ClaimRecords(c.constraints) + ClaimRecords(c.progress)
      + ClaimRecords(c.openLoops) + ClaimRecords(c.preferences) + ClaimRecords(c.emotionalContext)
      + DecisionRecords(c.decisions) + EntityRecords(c.entities) + DependencyRecords(c.dependencies)
      + SemanticRecords(capsules[1..])
  }

  function ActiveRecords(records: seq<SemanticRecord>): (r: seq<SemanticRecord>)
    ensures forall x :: x in r <==> x in records && x.status.Active?
  {
    if records == [] then []
    else (if records[0].status.Active? then [records[0]] else []) + ActiveRecords(records[1..])
  }

  function StableIds(records: seq<SemanticRecord>): (ids: set<Id>) {
    set r <- records :: r.stableId
  }

  /** Ids of the active semantic items of a capsule list. */
  function ActiveIds(capsules: seq<Capsule>): (ids: set<Id>) {
    StableIds(ActiveRecords(SemanticRecords(capsules)))
  }

  function TransitionableIds(capsules: seq<Capsule>): (ids: set<Id>) {
    set r <- SemanticRecords(capsules) | r.status.Active? && r.supportsTransition :: r.stableId
  }

  predicate IsTransition(r: SemanticRecord, transitionable: set<Id>) {
    r.supportsTransition && r.stableId in transitionable && (r.status.Superseded? || r.status.Retracted?)
  }

  function TransitionRecords(records: seq<SemanticRecord>, transitionable: set<Id>): (r: seq<SemanticRecord>)
    ensures forall x :: x in r <==> x in records && IsTransition(x, transitionable)
  {
    if records == [] then []
    else (if IsTransition(records[0], transitionable) then [records[0]] else [])
         + TransitionRecords(records[1..], transitionable)
  }

  function SourceIds(capsules: seq<Capsule>): (ids: set<Id>) {
    set c <- capsules, id <- c.sources :: id
  }

  function EventIds(events: seq<Event>): (ids: set<Id>) {
    set e <- events :: e.eventId
  }

  function Sequences(events: seq<Event>): (r: seq<nat>)
    ensures |r| == |events|
    ensures forall i :: 0 <= i < |r| ==> r[i] == events[i].sequence
  {
    seq(|events|, i requires 0 <= i < |events| => events[i].sequence)
  }

  /** The sequences `lo + 1 .. hi`. */
  function Range(lo: nat, hi: nat): (r: seq<nat>)
    ensures |r| == if lo < hi then hi - lo else 0
    ensures forall i :: 0 <= i < |r| ==> r[i] == lo + 1 + i
  {
    seq(if lo < hi then hi - lo else 0, i => lo + 1 + i)
  }

  predicate Supported(sources: seq<Id>, valid: set<Id>) {
    sources != [] && forall id <- sources :: id in valid
  }

  /** Number of provenance source lists the gate finds unsupported. */
  function UnsupportedCount(lists: seq<seq<Id>>, valid: set<Id>): (n: nat)
    ensures n <= |lists|
    ensures n == 0 <==> forall l <- lists :: Supported(l, valid)
  {
    if lists == [] then 0
    else (if Supported(lists[0], valid) then 0 else 1) + UnsupportedCount(lists[1..], valid)
  }

  function SourceLists(records: seq<SemanticRecord>, anchors: seq<Anchor>): (r: seq<seq<Id>>)
    ensures forall x :: x in records ==> x.sources in r
    ensures forall a :: a in anchors ==> a.sources in r
    ensures forall l :: l in r ==> (exists x :: x in records && x.sources == l) || (exists a :: a in anchors && a.sources == l)
  {
    var left := seq(|records|, i requires 0 <= i < |records| => records[i].sources);
    var right := seq(|anchors|, i requires 0 <= i < |anchors| => anchors[i].sources);
    assert forall i :: 0 <= i < |records| ==> left[i] == records[i].sources;
    assert forall i :: 0 <= i < |anchors| ==> right[i] == anchors[i].sources;
    left + right
  }

  function PreservedCount(previous: seq<Anchor>, candidate: seq<Anchor>): (n: nat)
    ensures n <= |previous|
    ensures n == |previous| <==> forall a <- previous :: a in candidate
  {
    if previous == [] then 0
    else (if previous[0] in candidate then 1 else 0) + PreservedCount(previous[1..], candidate)
  }

  function Min(a: real, b: real): (m: real) { if a <= b then a else b }

  lemma {:induction false} BelowOne(r: real, part: real, whole: real)
    requires whole > 0.0 && r * whole == part
    ensures r < 1.0 <==> part < whole
  {
    if r < 1.0 {
      assert (1.0 - r) * whole > 0.0;
    } else {
      assert (r - 1.0) * whole >= 0.0;
    }
  }

  function Ratio(part: nat, whole: nat): (r: real)
    requires part <= whole
    ensures r < 1.0 <==> part < whole
  {
    if whole == 0 then 1.0
    else
      BelowOne(part as real / whole as real, part as real, whole as real);
      part as real / whole as real
  }

  /** Smallest declared value; the default 0.0 for no capsule at all. */
  function DeclaredMin(values: seq<real>): (m: real)
    ensures values != [] ==> (m >= 1.0 <==> forall i :: 0 <= i < |values| ==> values[i] >= 1.0)
    ensures values == [] ==> m == 0.0
  {
    if values == [] then 0.0
    else if |values| == 1 then values[0]
    else Min(values[0], DeclaredMin(values[1..]))
  }

  function Total(values: seq<nat>): (t: nat)
    ensures t == 0 <==> forall i :: 0 <= i < |values| ==> values[i] == 0
  {
    if values == [] then 0 else values[0] + Total(values[1..])
  }

  function DeclaredCoverage(capsules: seq<Capsule>): (r: seq<real>) {
    seq(|capsules|, i requires 0 <= i < |capsules| => capsules[i].quality.sourceCoverage)
  }

  function DeclaredRecall(capsules: seq<Capsule>): (r: seq<real>) {
    seq(|capsules|, i requires 0 <= i < |capsules| => capsules[i].quality.anchorRecall)
  }

  function DeclaredUnsupported(capsules: seq<Capsule>): (r: seq<nat>) {
    seq(|capsules|, i requires 0 <= i < |capsules| => capsules[i].quality.unsupportedCriticalClaims)
  }

  function DeclaredGaps(capsules: seq<Capsule>): (r: seq<nat>) {
    seq(|capsules|, i requires 0 <= i < |capsules| => capsules[i].quality.coverageGap)
  }

  function TokenCosts(capsules: seq<Capsule>): (r: seq<nat>) {
    seq(|capsules|, i requires 0 <= i < |capsules| => capsules[i].tokenCost)
  }

  function BaseCoverage(previous: Option<Snapshot>): (n: nat) {
    if previous.Some? then previous.value.coverage else 0
  }

  function If(c: bool, code: FailureCode): (r: set<FailureCode>)
    ensures r == {} <==> !c
  {
    if c then {code} else {}
  }

  function MaxNat(a: nat, b: nat): (m: nat) { if a < b then b else a }

  predicate SessionMismatch(q: Submission) {
    var key := q.candidate.session;
    || (exists c <- q.capsules :: c.session != key)
    || (exists e <- q.events :: e.session != key)
    || (q.previous.Some? && q.previous.value.session != key)
    || (exists c <- q.previousCapsules :: c.session != key)
  }

  function ValidSources(q: Submission): (ids: set<Id>) {
    SourceIds(q.previousCapsules) + EventIds(q.events)
  }

  function CandidateTransitions(q: Submission): (r: seq<SemanticRecord>) {
    TransitionRecords(SemanticRecords(q.capsules), TransitionableIds(q.previousCapsules))
  }

  function ProvenanceLists(q: Submission): (r: seq<seq<Id>>) {
    SourceLists(ActiveRecords(SemanticRecords(q.capsules)) + CandidateTransitions(q), ActiveAnchors(q.capsules))
  }

  predicate CapsuleSourceMismatch(q: Submission) {
    exists c <- q.capsules :: exists id <- c.sources :: id !in ValidSources(q)
  }

  /** Transitions whose evidence is valid and touches the newly covered events. */
  function ApprovedTransitionIds(q: Submission): (ids: set<Id>) {
    set r <- CandidateTransitions(q) |
      (forall id <- r.sources :: id in ValidSources(q)) && (exists id <- r.sources :: id in EventIds(q.events)) :: r.stableId
  }

  function RangeFailures(q: Submission): (r: set<FailureCode>) {
    var baseCoverage := BaseCoverage(q.previous);
    If(q.capsules == [], EmptyCompilerOutput)
    + If(q.candidate.base != (if q.previous.Some? then Some(q.previous.value.snapshotId) else None), BaseSnapshotMismatch)
    + If(q.candidate.coverage != q.target || q.candidate.sourceHighWater != q.target, TargetMismatch)
    + If(q.target <= baseCoverage || Sequences(q.events) != Range(baseCoverage, q.target)
         || |EventIds(q.events)| != |q.events|, CoverageGap)
  }

  function MemberFailures(q: Submission): (r: set<FailureCode>) {
    If(q.candidate.capsuleIds != CapsuleIds(q.capsules), CapsuleMembershipMismatch)
    + If(q.candidate.anchorIds != AnchorIds(ActiveAnchors(q.capsules)), SnapshotAnchorMismatch)
    + If(SessionMismatch(q), SessionKeyMismatch)
    + If(exists c <- q.capsules :: c.coveredEnd > q.target || c.coveredStart > c.coveredEnd, InvalidCapsuleCoverage)
  }

  function ShapeFailures(q: Submission): (r: set<FailureCode>) {
    RangeFailures(q) + MemberFailures(q)
  }

  function Unsupported(q: Submission): (n: nat) {
    UnsupportedCount(ProvenanceLists(q), ValidSources(q))
  }

  function AnchorRecall(q: Submission): (r: real)
    ensures r < 1.0 <==> !AnchorsContinue(q)
  {
    var previous := ActiveAnchors(q.previousCapsules);
    Ratio(PreservedCount(previous, ActiveAnchors(q.capsules)), |previous|)
  }

  function SemanticFailures(q: Submission): (r: set<FailureCode>) {
    If(Unsupported(q) > 0 || CapsuleSourceMismatch(q), UnsupportedActiveSemantic)
    + If(!(ActiveIds(q.previousCapsules) <= ActiveIds(q.capsules) + ApprovedTransitionIds(q)), MissingPriorSemantic)
    + If(AnchorRecall(q) < 1.0, MissingRequiredAnchor)
  }

  function SourceCoverage(q: Submission): (r: real)
    ensures r < 1.0 <==> Unsupported(q) > 0 || DeclaredMin(DeclaredCoverage(q.capsules)) < 1.0
  {
    var total := |ProvenanceLists(q)|;
    Min(Ratio(total - Unsupported(q), total), DeclaredMin(DeclaredCoverage(q.capsules)))
  }

  function EffectiveRecall(q: Submission): (r: real) {
    Min(AnchorRecall(q), DeclaredMin(DeclaredRecall(q.capsules)))
  }

  function UnsupportedClaims(q: Submission): (n: nat) {
    MaxNat(Unsupported(q), Total(DeclaredUnsupported(q.capsules)))
  }

  function CoverageFailures(q: Submission): (r: set<FailureCode>) {
    If(!q.candidate.audit.mechanicalPassed || exists c <- q.capsules :: !c.quality.mechanicalPassed, MechanicalNotPassed)
    + If(SourceCoverage(q) < 1.0, SourceCoverageNotFull)
    + If(EffectiveRecall(q) < 1.0, AnchorRecallNotFull)
  }

  function CountFailures(q: Submission): (r: set<FailureCode>) {
    If(UnsupportedClaims(q) > 0, UnsupportedCriticalClaims)
    + If(Total(DeclaredGaps(q.capsules)) > 0, QualityCoverageGap)
    + If(q.tokenCeiling < 0 || q.candidate.tokenCost > q.tokenCeiling
         || Total(TokenCosts(q.capsules)) > q.tokenCeiling, TokenCeilingExceeded)
  }

  function QualityFailures(q: Submission): (r: set<FailureCode>) {
    CoverageFailures(q) + CountFailures(q)
  }

  /** `validate_permanent`. */
  function Validate(q: Submission): (report: Report) {
    var missing := (set n <- Range(BaseCoverage(q.previous), q.target)) - (set n <- Sequences(q.events));
    Report(
      ShapeFailures(q) + SemanticFailures(q) + QualityFailures(q),
      SourceCoverage(q), EffectiveRecall(q),
      MaxNat(|missing|, Total(DeclaredGaps(q.capsules))), UnsupportedClaims(q))
  }

  /** Every active record, transition and anchor of the candidate cites only valid sources, and so does every capsule. */
  ghost predicate Grounded(q: Submission) {
    && (forall r <- SemanticRecords(q.capsules) ::
          r.status.Active? || IsTransition(r, TransitionableIds(q.previousCapsules)) ==> Supported(r.sources, ValidSources(q)))
    && (forall a <- ActiveAnchors(q.capsules) :: Supported(a.sources, ValidSources(q)))
    && (forall c <- q.capsules :: forall id <- c.sources :: id in ValidSources(q))
  }

  /** No active item disappears without a superseded or retracted record that cites a newly covered event. */
  ghost predicate SemanticsContinue(q: Submission) {
    forall id <- ActiveIds(q.previousCapsules) ::
      id in ActiveIds(q.capsules) ||
      exists r <- SemanticRecords(q.capsules) ::
        r.stableId == id && IsTransition(r, TransitionableIds(q.previousCapsules))
        && (exists source <- r.sources :: source in EventIds(q.events))
  }

  ghost predicate AnchorsContinue(q: Submission) {
    forall a <- ActiveAnchors(q.previousCapsules) :: a in ActiveAnchors(q.capsules)
  }

  ghost predicate QualityDeclared(q: Submission) {
    && q.candidate.audit.mechanicalPassed
    && forall c <- q.capsules ::
         && c.quality.mechanicalPassed && c.quality.sourceCoverage >= 1.0 && c.quality.anchorRecall >= 1.0
         && c.quality.unsupportedCriticalClaims == 0 && c.quality.coverageGap == 0
  }

  ghost predicate Shape(q: Submission) {
    && q.capsules != []
    && q.candidate.base == (if q.previous.Some? then Some(q.previous.value.snapshotId) else None)
    && q.candidate.coverage == q.target && q.candidate.sourceHighWater == q.target
    && BaseCoverage(q.previous) < q.target
    && Sequences(q.events) == Range(BaseCoverage(q.previous), q.target)
    && |EventIds(q.events)| == |q.events|
    && q.candidate.capsuleIds == CapsuleIds(q.capsules)
    && q.candidate.anchorIds == AnchorIds(ActiveAnchors(q.capsules))
    && !SessionMismatch(q)
    && (forall c <- q.capsules :: c.coveredStart <= c.coveredEnd <= q.target)
  }

  ghost predicate Affordable(q: Submission) {
    0 <= q.tokenCeiling && q.candidate.tokenCost <= q.tokenCeiling && Total(TokenCosts(q.capsules)) <= q.tokenCeiling
  }

  lemma {:induction false} ShapeIff(q: Submission)
    ensures ShapeFailures(q) == {} <==> Shape(q)
  {
  }

  lemma {:induction false} GroundedIff(q: Submission)
    ensures (Unsupported(q) == 0 && !CapsuleSourceMismatch(q)) <==> Grounded(q)
  {
    var records := SemanticRecords(q.capsules);
    var cited := ActiveRecords(records) + CandidateTransitions(q);
    assert forall r :: r in cited <==>
      r in records && (r.status.Active? || IsTransition(r, TransitionableIds(q.previousCapsules)));
  }

  lemma {:induction false} ContinueIff(q: Submission)
    requires Grounded(q)
    ensures ActiveIds(q.previousCapsules) <= ActiveIds(q.capsules) + ApprovedTransitionIds(q) <==> SemanticsContinue(q)
  {
  }

  lemma {:induction false} SemanticIff(q: Submission)
    ensures SemanticFailures(q) == {} <==> Grounded(q) && SemanticsContinue(q) && AnchorsContinue(q)
  {
    GroundedIff(q);
    if Grounded(q) {
      ContinueIff(q);
    }
  }

  lemma {:induction false} DeclaredIff(capsules: seq<Capsule>)
    requires capsules != []
    ensures DeclaredMin(DeclaredCoverage(capsules)) >= 1.0 <==> forall c <- capsules :: c.quality.sourceCoverage >= 1.0
    ensures DeclaredMin(DeclaredRecall(capsules)) >= 1.0 <==> forall c <- capsules :: c.quality.anchorRecall >= 1.0
    ensures Total(DeclaredUnsupported(capsules)) == 0 <==> forall c <- capsules :: c.quality.unsupportedCriticalClaims == 0
    ensures Total(DeclaredGaps(capsules)) == 0 <==> forall c <- capsules :: c.quality.coverageGap == 0
  {
    assert forall i :: 0 <= i < |capsules| ==>
      && DeclaredCoverage(capsules)[i] == capsules[i].quality.sourceCoverage
      && DeclaredRecall(capsules)[i] == capsules[i].quality.anchorRecall
      && DeclaredUnsupported(capsules)[i] == capsules[i].quality.unsupportedCriticalClaims
      && DeclaredGaps(capsules)[i] == capsules[i].quality.coverageGap;
  }

  lemma {:induction false} QualityIff(q: Submission)
    requires Grounded(q) && AnchorsContinue(q) && q.capsules != []
    ensures QualityFailures(q) == {} <==> QualityDeclared(q) && Affordable(q)
  {
    GroundedIff(q);
    DeclaredIff(q.capsules);
  }

  /** The gate passes exactly the submissions with the six properties above. */
  lemma {:induction false} PassedIff(q: Submission)
    ensures Validate(q).Passed() <==>
      Shape(q) && Grounded(q) && SemanticsContinue(q) && AnchorsContinue(q) && QualityDeclared(q) && Affordable(q)
  {
    ShapeIff(q);
    SemanticIff(q);
    if Grounded(q) && AnchorsContinue(q) && q.capsules != [] {
      QualityIff(q);
    }
  }
}
