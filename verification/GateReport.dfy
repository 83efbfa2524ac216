/** What each failure code of the publication gate stands for, and what the figures of its report are. */
module GateReport {
  import opened Common
  import opened Domain
  import opened PublicationGate

  // ----- items, anchors and sources, field by field -----

  ghost predicate HasClaim(c: Capsule, x: Claim) {
    x in c.goals || x in c.constraints || x in c.progress || x in c.openLoops || x in c.preferences || x in c.emotionalContext
  }

  /** A semantic item of a capsule: claims and decisions have a status and may be retired, entities and dependencies are
      always active. */
  ghost predicate HasItem(c: Capsule, id: Id, sources: seq<Id>, status: SemanticStatus, retirable: bool) {
    if retirable then
      || (exists x :: HasClaim(c, x) && x.claimId == id && x.sources == sources && x.status == status)
      || (exists x <- c.decisions :: x.decisionId == id && x.sources == sources && x.status == status)
    else
      && status.Active?
      && ((exists x <- c.entities :: x.entityId == id && x.sources == sources)
          || (exists x <- c.dependencies :: x.dependencyId == id && x.sources == sources))
  }

  ghost predicate Holds(capsules: seq<Capsule>, id: Id, sources: seq<Id>, status: SemanticStatus, retirable: bool) {
    exists c <- capsules :: HasItem(c, id, sources, status, retirable)
  }

  ghost predicate HoldsActive(capsules: seq<Capsule>, id: Id, sources: seq<Id>) {
    Holds(capsules, id, sources, Active, true) || Holds(capsules, id, sources, Active, false)
  }

  /** The candidate retires, with these sources, an item that was active before. */
  ghost predicate Retires(q: Submission, id: Id, sources: seq<Id>) {
    && (exists older :: Holds(q.previousCapsules, id, older, Active, true))
    && (Holds(q.capsules, id, sources, Superseded, true) || Holds(q.capsules, id, sources, Retracted, true))
  }

  ghost predicate HasAnchor(capsules: seq<Capsule>, a: Anchor) {
    a.status.AnchorActive? && exists c <- capsules :: a in c.anchors
  }

  /** A newly covered event. */
  ghost predicate Fresh(q: Submission, source: Id) {
    exists e <- q.events :: e.eventId == source
  }

  /** An event that is newly covered or was cited before. */
  ghost predicate Known(q: Submission, source: Id) {
    Fresh(q, source) || exists c <- q.previousCapsules :: source in c.sources
  }

  ghost predicate Evidenced(q: Submission, sources: seq<Id>) {
    sources != [] && forall source <- sources :: Known(q, source)
  }

  /** Something the candidate asserts or retires lacks evidence. */
  ghost predicate Baseless(q: Submission) {
    || (exists id, sources :: HoldsActive(q.capsules, id, sources) && !Evidenced(q, sources))
    || (exists id, sources :: Retires(q, id, sources) && !Evidenced(q, sources))
    || (exists a :: HasAnchor(q.capsules, a) && !Evidenced(q, a.sources))
  }

  /** The retirement cites known events only, and a newly covered one among them. */
  ghost predicate RetiresByNews(q: Submission, id: Id, sources: seq<Id>) {
    Retires(q, id, sources) && (forall source <- sources :: Known(q, source)) && exists source <- sources :: Fresh(q, source)
  }

  /** An item that was active before is neither active now nor retired by the news. */
  ghost predicate LosesItem(q: Submission, id: Id) {
    && (exists sources :: HoldsActive(q.previousCapsules, id, sources))
    && (forall sources :: !HoldsActive(q.capsules, id, sources))
    && (forall sources :: !RetiresByNews(q, id, sources))
  }

  ghost predicate LosesAnchor(q: Submission) {
    exists a :: HasAnchor(q.previousCapsules, a) && !HasAnchor(q.capsules, a)
  }

  ghost predicate ForeignSession(q: Submission) {
    var key := q.candidate.session;
    || (exists c <- q.capsules :: c.session != key)
    || (exists c <- q.previousCapsules :: c.session != key)
    || (exists e <- q.events :: e.session != key)
    || (q.previous.Some? && q.previous.value.session != key)
  }

  /** The events are not exactly those after `base` up to the target, in order, each with its own id. */
  ghost predicate Gapped(q: Submission, base: nat) {
    || q.target <= base || |q.events| != q.target - base
    || (exists i :: 0 <= i < |q.events| && q.events[i].sequence != base + 1 + i)
    || (exists i, j :: 0 <= i < j < |q.events| && q.events[i].eventId == q.events[j].eventId)
  }

  ghost predicate OtherMembers(q: Submission) {
    || |q.candidate.capsuleIds| != |q.capsules|
    || exists i :: 0 <= i < |q.capsules| && q.candidate.capsuleIds[i] != q.capsules[i].capsuleId
  }

  ghost predicate Stated(q: Submission, code: FailureCode) {
    var base := if q.previous.Some? then q.previous.value.coverage else 0;
    match code
    case EmptyCompilerOutput => |q.capsules| == 0
    case SessionKeyMismatch => ForeignSession(q)
    case BaseSnapshotMismatch =>
      if q.previous.None? then q.candidate.base.Some? else q.candidate.base != Some(q.previous.value.snapshotId)
    case TargetMismatch => q.candidate.coverage != q.target || q.candidate.sourceHighWater != q.target
    case CoverageGap => Gapped(q, base)
    case CapsuleMembershipMismatch => OtherMembers(q)
    case SnapshotAnchorMismatch => q.candidate.anchorIds != AnchorIds(ActiveAnchors(q.capsules))
    case InvalidCapsuleCoverage => exists c <- q.capsules :: c.coveredEnd > q.target || c.coveredStart > c.coveredEnd
    case UnsupportedActiveSemantic => Baseless(q) || exists c <- q.capsules :: exists source <- c.sources :: !Known(q, source)
    case MissingPriorSemantic => exists id :: LosesItem(q, id)
    case MissingRequiredAnchor => LosesAnchor(q)
    case MechanicalNotPassed => !q.candidate.audit.mechanicalPassed || exists c <- q.capsules :: !c.quality.mechanicalPassed
    case SourceCoverageNotFull => |q.capsules| == 0 || Baseless(q) || exists c <- q.capsules :: c.quality.sourceCoverage < 1.0
    case AnchorRecallNotFull => |q.capsules| == 0 || LosesAnchor(q) || exists c <- q.capsules :: c.quality.anchorRecall < 1.0
    case UnsupportedCriticalClaims => Baseless(q) || exists c <- q.capsules :: c.quality.unsupportedCriticalClaims > 0
    case QualityCoverageGap => exists c <- q.capsules :: c.quality.coverageGap > 0
    case TokenCeilingExceeded =>
      q.tokenCeiling < 0 || q.candidate.tokenCost > q.tokenCeiling || Total(TokenCosts(q.capsules)) > q.tokenCeiling
  }

  // ----- the helpers of the gate mean the same -----

  lemma {:induction false} RecordsOfOne(c: Capsule, r: SemanticRecord)
    ensures r in SemanticRecords([c]) <==> HasItem(c, r.stableId, r.sources, r.status, r.supportsTransition)
  {
    var groups := [c.goals, c.constraints, c.progress, c.openLoops, c.preferences, c.emotionalContext];
    forall g | g in groups
      ensures r in ClaimRecords(g) <==>
        r.supportsTransition && exists x <- g :: x.claimId == r.stableId && x.sources == r.sources && x.status == r.status
    {
      ClaimsMean(g, r);
    }
    DecisionsMean(c.decisions, r);
    PermanentMean(c, r);
    hide ClaimRecords, DecisionRecords, EntityRecords, DependencyRecords;
    assert [c][1..] == [];
    assert forall x :: HasClaim(c, x) <==> exists g <- groups :: x in g;
  }

  lemma {:induction false} ClaimsMean(claims: seq<Claim>, r: SemanticRecord)
    ensures r in ClaimRecords(claims) <==>
      r.supportsTransition && exists x <- claims :: x.claimId == r.stableId && x.sources == r.sources && x.status == r.status
  {
    assert |ClaimRecords(claims)| == |claims|;
    forall x | x in claims ensures SemanticRecord(x.claimId, x.sources, x.status, true) in ClaimRecords(claims) {
      var i :| 0 <= i < |claims| && claims[i] == x;
      assert ClaimRecords(claims)[i] == SemanticRecord(x.claimId, x.sources, x.status, true);
    }
  }

  lemma {:induction false} DecisionsMean(items: seq<Decision>, r: SemanticRecord)
    ensures r in DecisionRecords(items) <==>
      r.supportsTransition && exists x <- items :: x.decisionId == r.stableId && x.sources == r.sources && x.status == r.status
  {
    assert |DecisionRecords(items)| == |items|;
    forall x | x in items ensures SemanticRecord(x.decisionId, x.sources, x.status, true) in DecisionRecords(items) {
      var i :| 0 <= i < |items| && items[i] == x;
      assert DecisionRecords(items)[i] == SemanticRecord(x.decisionId, x.sources, x.status, true);
    }
  }

  lemma {:induction false} PermanentMean(c: Capsule, r: SemanticRecord)
    ensures r in EntityRecords(c.entities) <==>
      r.status.Active? && !r.supportsTransition && exists x <- c.entities :: x.entityId == r.stableId && x.sources == r.sources
    ensures r in DependencyRecords(c.dependencies) <==>
      r.status.Active? && !r.supportsTransition && exists x <- c.dependencies :: x.dependencyId == r.stableId && x.sources == r.sources
  {
    forall x | x in c.entities ensures SemanticRecord(x.entityId, x.sources, Active, false) in EntityRecords(c.entities) {
      var i :| 0 <= i < |c.entities| && c.entities[i] == x;
      assert EntityRecords(c.entities)[i] == SemanticRecord(x.entityId, x.sources, Active, false);
    }
    forall x | x in c.dependencies ensures SemanticRecord(x.dependencyId, x.sources, Active, false) in DependencyRecords(c.dependencies) {
      var i :| 0 <= i < |c.dependencies| && c.dependencies[i] == x;
      assert DependencyRecords(c.dependencies)[i] == SemanticRecord(x.dependencyId, x.sources, Active, false);
    }
  }

  lemma {:induction false} RecordsMean(capsules: seq<Capsule>, r: SemanticRecord)
    ensures r in SemanticRecords(capsules) <==> Holds(capsules, r.stableId, r.sources, r.status, r.supportsTransition)
  {
    hide HasItem;
    if capsules != [] {
      RecordsOfOne(capsules[0], r);
      RecordsMean(capsules[1..], r);
      assert [capsules[0]][1..] == [];
      assert r in SemanticRecords(capsules) <==> r in SemanticRecords([capsules[0]]) || r in SemanticRecords(capsules[1..]);
      hide SemanticRecords;
      assert forall c :: c in capsules <==> c == capsules[0] || c in capsules[1..];
    }
  }

  lemma {:induction false} ActiveIdsMean(capsules: seq<Capsule>, id: Id)
    ensures id in ActiveIds(capsules) <==> exists sources :: HoldsActive(capsules, id, sources)
  {
    hide Holds, SemanticRecords;
    var records := ActiveRecords(SemanticRecords(capsules));
    if id in ActiveIds(capsules) {
      var r :| r in records && r.stableId == id;
      RecordsMean(capsules, r);
      assert HoldsActive(capsules, id, r.sources);
    }
    if sources :| HoldsActive(capsules, id, sources) {
      RecordsMean(capsules, SemanticRecord(id, sources, Active, true));
      RecordsMean(capsules, SemanticRecord(id, sources, Active, false));
      assert SemanticRecord(id, sources, Active, true) in records || SemanticRecord(id, sources, Active, false) in records;
    }
  }

  lemma {:induction false} TransitionableMean(capsules: seq<Capsule>, id: Id)
    ensures id in TransitionableIds(capsules) <==> exists sources :: Holds(capsules, id, sources, Active, true)
  {
    hide Holds, SemanticRecords;
    if id in TransitionableIds(capsules) {
      var r :| r in SemanticRecords(capsules) && r.status.Active? && r.supportsTransition && r.stableId == id;
      RecordsMean(capsules, r);
    }
    if sources :| Holds(capsules, id, sources, Active, true) {
      RecordsMean(capsules, SemanticRecord(id, sources, Active, true));
    }
  }

  lemma {:induction false} TransitionsMean(q: Submission, id: Id, sources: seq<Id>)
    ensures Retires(q, id, sources) <==>
      exists r <- CandidateTransitions(q) :: r.stableId == id && r.sources == sources
  {
    TransitionableMean(q.previousCapsules, id);
    RecordsMean(q.capsules, SemanticRecord(id, sources, Superseded, true));
    RecordsMean(q.capsules, SemanticRecord(id, sources, Retracted, true));
    hide Holds, SemanticRecords, TransitionableIds;
    if Holds(q.capsules, id, sources, Superseded, true) {
      assert SemanticRecord(id, sources, Superseded, true) in SemanticRecords(q.capsules);
    }
  }

  lemma {:induction false} KnownMeans(q: Submission, source: Id)
    ensures source in EventIds(q.events) <==> Fresh(q, source)
    ensures source in ValidSources(q) <==> Known(q, source)
  {
  }

  lemma {:induction false} AnchorMeans(capsules: seq<Capsule>, a: Anchor)
    ensures a in ActiveAnchors(capsules) <==> HasAnchor(capsules, a)
  {
  }

  /** The active anchors of one capsule keep its order. */
  lemma {:induction false} ActiveInOrder(anchors: seq<Anchor>, a: Anchor)
    ensures ActiveOnly(anchors + [a]) == ActiveOnly(anchors) + (if a.status.AnchorActive? then [a] else [])
  {
    if anchors != [] {
      ActiveInOrder(anchors[1..], a);
      assert (anchors + [a])[1..] == anchors[1..] + [a];
    } else {
      assert [a][1..] == [];
    }
  }

  /** The active anchors of a capsule list are those of its capsules, one capsule after the other. */
  lemma {:induction false} AnchorsInOrder(capsules: seq<Capsule>, c: Capsule)
    ensures ActiveAnchors(capsules + [c]) == ActiveAnchors(capsules) + ActiveOnly(c.anchors)
  {
    if capsules != [] {
      AnchorsInOrder(capsules[1..], c);
      assert (capsules + [c])[1..] == capsules[1..] + [c];
      assert (capsules + [c])[0] == capsules[0];
      hide ActiveOnly;
    } else {
      assert [c][1..] == [];
    }
  }

  ghost predicate DistinctIds(events: seq<Event>) {
    forall i, j :: 0 <= i < j < |events| ==> events[i].eventId != events[j].eventId
  }

  lemma {:induction false} DistinctNext(events: seq<Event>, e: Event)
    ensures DistinctIds(events + [e]) <==> DistinctIds(events) && e.eventId !in EventIds(events)
    ensures EventIds(events + [e]) == EventIds(events) + {e.eventId}
  {
    if DistinctIds(events + [e]) {
      forall i | 0 <= i < |events| ensures events[i].eventId != e.eventId {
        assert (events + [e])[i] == events[i] && (events + [e])[|events|] == e;
      }
      forall i, j | 0 <= i < j < |events| ensures events[i].eventId != events[j].eventId {
        assert (events + [e])[i] == events[i] && (events + [e])[j] == events[j];
      }
    } else {
      var i, j :| 0 <= i < j < |events + [e]| && (events + [e])[i].eventId == (events + [e])[j].eventId;
      assert (events + [e])[i] == events[i] && events[i] in events;
    }
  }

  /** The distinct ids are as many as the events exactly when no two events share one. */
  lemma {:induction false} DistinctCount(events: seq<Event>)
    ensures |EventIds(events)| <= |events|
    ensures |EventIds(events)| == |events| <==> DistinctIds(events)
  {
    if events != [] {
      var last := |events| - 1;
      assert events == events[..last] + [events[last]];
      hide EventIds, DistinctIds;
      DistinctCount(events[..last]);
      DistinctNext(events[..last], events[last]);
    }
  }

  // ----- the codes -----

  lemma {:induction false} EvidencedMeans(q: Submission, sources: seq<Id>)
    ensures Supported(sources, ValidSources(q)) <==> Evidenced(q, sources)
  {
    forall source ensures source in ValidSources(q) <==> Known(q, source) {
      KnownMeans(q, source);
    }
  }

  /** Every provenance list is that of an active item, of a retirement or of an active anchor. */
  ghost predicate Provenance(q: Submission, sources: seq<Id>) {
    || (exists id :: HoldsActive(q.capsules, id, sources))
    || (exists id :: Retires(q, id, sources))
    || (exists a :: HasAnchor(q.capsules, a) && a.sources == sources)
  }

  lemma {:induction false} ListsMean(q: Submission, sources: seq<Id>)
    ensures sources in ProvenanceLists(q) <==> Provenance(q, sources)
  {
    hide HoldsActive, Retires, HasAnchor, SemanticRecords, ActiveAnchors, ActiveRecords, CandidateTransitions;
    var active, retired := ActiveRecords(SemanticRecords(q.capsules)), CandidateTransitions(q);
    var anchors := ActiveAnchors(q.capsules);
    if sources in ProvenanceLists(q) {
      if r :| r in active && r.sources == sources {
        ActiveListed(q.capsules, r.stableId, sources);
      } else if r :| r in retired && r.sources == sources {
        TransitionsMean(q, r.stableId, sources);
      } else {
        var a :| a in anchors && a.sources == sources;
        AnchorMeans(q.capsules, a);
      }
    }
    if id :| HoldsActive(q.capsules, id, sources) {
      ActiveListed(q.capsules, id, sources);
      var r :| r in active && r.sources == sources;
      assert r in active + retired;
    } else if id :| Retires(q, id, sources) {
      TransitionsMean(q, id, sources);
      var r :| r in retired && r.sources == sources;
      assert r in active + retired;
    } else if a :| HasAnchor(q.capsules, a) && a.sources == sources {
      AnchorMeans(q.capsules, a);
    }
  }

  lemma {:induction false} ActiveListed(capsules: seq<Capsule>, id: Id, sources: seq<Id>)
    ensures HoldsActive(capsules, id, sources)
      <==> exists r <- ActiveRecords(SemanticRecords(capsules)) :: r.stableId == id && r.sources == sources
  {
    hide Holds, SemanticRecords;
    var records := ActiveRecords(SemanticRecords(capsules));
    if r :| r in records && r.stableId == id && r.sources == sources {
      RecordsMean(capsules, r);
    }
    RecordsMean(capsules, SemanticRecord(id, sources, Active, true));
    RecordsMean(capsules, SemanticRecord(id, sources, Active, false));
    assert HoldsActive(capsules, id, sources) ==>
      SemanticRecord(id, sources, Active, true) in records || SemanticRecord(id, sources, Active, false) in records;
  }

  lemma {:induction false} BaselessMeans(q: Submission)
    ensures Unsupported(q) > 0 <==> Baseless(q)
  {
    hide HoldsActive, Retires, HasAnchor, Evidenced, Supported, ValidSources, ProvenanceLists;
    if Unsupported(q) > 0 {
      var l :| l in ProvenanceLists(q) && !Supported(l, ValidSources(q));
      EvidencedMeans(q, l);
      ListsMean(q, l);
    }
    if Baseless(q) {
      BaselessListed(q);
    }
  }

  lemma {:induction false} BaselessListed(q: Submission)
    requires Baseless(q)
    ensures exists l <- ProvenanceLists(q) :: !Supported(l, ValidSources(q))
  {
    hide HoldsActive, Retires, HasAnchor, Evidenced, Supported, ValidSources, ProvenanceLists;
    var l :| Provenance(q, l) && !Evidenced(q, l);
    EvidencedMeans(q, l);
    ListsMean(q, l);
  }

  lemma {:induction false} ApprovedMeans(q: Submission, id: Id)
    ensures id in ApprovedTransitionIds(q) <==> exists sources :: RetiresByNews(q, id, sources)
  {
    forall source ensures (source in EventIds(q.events) <==> Fresh(q, source)) && (source in ValidSources(q) <==> Known(q, source)) {
      KnownMeans(q, source);
    }
    hide Retires, Fresh, Known, EventIds, ValidSources, CandidateTransitions;
    if id in ApprovedTransitionIds(q) {
      var r :| r in CandidateTransitions(q) && r.stableId == id
        && (forall source <- r.sources :: source in ValidSources(q)) && exists source <- r.sources :: source in EventIds(q.events);
      TransitionsMean(q, id, r.sources);
      assert RetiresByNews(q, id, r.sources);
    }
    if sources :| RetiresByNews(q, id, sources) {
      TransitionsMean(q, id, sources);
    }
  }

  lemma {:induction false} LossMeans(q: Submission, id: Id)
    ensures id in ActiveIds(q.previousCapsules) && id !in ActiveIds(q.capsules) + ApprovedTransitionIds(q) <==> LosesItem(q, id)
  {
    ActiveIdsMean(q.previousCapsules, id);
    ActiveIdsMean(q.capsules, id);
    ApprovedMeans(q, id);
    hide HoldsActive, RetiresByNews, ActiveIds, ApprovedTransitionIds;
  }

  lemma {:induction false} AnchorLossMeans(q: Submission)
    ensures AnchorRecall(q) < 1.0 <==> LosesAnchor(q)
  {
    forall a ensures a in ActiveAnchors(q.previousCapsules) <==> HasAnchor(q.previousCapsules, a) {
      AnchorMeans(q.previousCapsules, a);
    }
    forall a ensures a in ActiveAnchors(q.capsules) <==> HasAnchor(q.capsules, a) {
      AnchorMeans(q.capsules, a);
    }
    hide HasAnchor, ActiveAnchors, AnchorRecall;
  }

  lemma {:induction false} SessionMeans(q: Submission)
    ensures SessionMismatch(q) <==> ForeignSession(q)
    ensures q.candidate.capsuleIds != CapsuleIds(q.capsules) <==> OtherMembers(q)
  {
    if !OtherMembers(q) {
      assert q.candidate.capsuleIds == CapsuleIds(q.capsules);
    }
  }

  lemma {:induction false} GapMeans(q: Submission, base: nat)
    ensures Gapped(q, base)
      <==> (q.target <= base || Sequences(q.events) != Range(base, q.target) || |EventIds(q.events)| != |q.events|)
  {
    DistinctCount(q.events);
    if base < q.target && |q.events| == q.target - base && (forall i :: 0 <= i < |q.events| ==> q.events[i].sequence == base + 1 + i) {
      assert Sequences(q.events) == Range(base, q.target);
    } else if base < q.target && |q.events| == q.target - base {
      var i :| 0 <= i < |q.events| && q.events[i].sequence != base + 1 + i;
      assert Sequences(q.events)[i] != Range(base, q.target)[i];
    }
  }

  ghost predicate ShapeCode(code: FailureCode) {
    || code.EmptyCompilerOutput? || code.SessionKeyMismatch? || code.BaseSnapshotMismatch? || code.TargetMismatch?
    || code.CoverageGap? || code.CapsuleMembershipMismatch? || code.SnapshotAnchorMismatch? || code.InvalidCapsuleCoverage?
  }

  ghost predicate SemanticCode(code: FailureCode) {
    code.UnsupportedActiveSemantic? || code.MissingPriorSemantic? || code.MissingRequiredAnchor?
  }

  lemma {:induction false} RangeCodes(q: Submission, code: FailureCode)
    ensures code in RangeFailures(q) <==>
      (code.EmptyCompilerOutput? || code.BaseSnapshotMismatch? || code.TargetMismatch? || code.CoverageGap?) && Stated(q, code)
  {
    hide Gapped, EventIds, Sequences, Range;
    GapMeans(q, BaseCoverage(q.previous));
  }

  lemma {:induction false} MemberCodes(q: Submission, code: FailureCode)
    ensures code in MemberFailures(q) <==>
      (code.CapsuleMembershipMismatch? || code.SnapshotAnchorMismatch? || code.SessionKeyMismatch? || code.InvalidCapsuleCoverage?)
      && Stated(q, code)
  {
    hide ActiveAnchors, AnchorIds, SessionMismatch, ForeignSession, OtherMembers, CapsuleIds;
    SessionMeans(q);
  }

  lemma {:induction false} ShapeCodes(q: Submission, code: FailureCode)
    ensures code in ShapeFailures(q) <==> ShapeCode(code) && Stated(q, code)
  {
    hide RangeFailures, MemberFailures, Stated;
    RangeCodes(q, code);
    MemberCodes(q, code);
  }

  lemma {:induction false} SourcesMean(q: Submission)
    ensures CapsuleSourceMismatch(q) <==> exists c <- q.capsules :: exists source <- c.sources :: !Known(q, source)
  {
    forall source ensures source in ValidSources(q) <==> Known(q, source) {
      KnownMeans(q, source);
    }
    hide Known, ValidSources;
  }

  lemma {:induction false} SomeLoss(q: Submission)
    ensures ActiveIds(q.previousCapsules) <= ActiveIds(q.capsules) + ApprovedTransitionIds(q) <==> !(exists id :: LosesItem(q, id))
  {
    forall id
      ensures id in ActiveIds(q.previousCapsules) && id !in ActiveIds(q.capsules) + ApprovedTransitionIds(q) <==> LosesItem(q, id)
    {
      LossMeans(q, id);
    }
    hide LosesItem, ActiveIds, ApprovedTransitionIds;
  }

  lemma {:induction false} SemanticCodes(q: Submission, code: FailureCode)
    ensures code in SemanticFailures(q) <==> SemanticCode(code) && Stated(q, code)
  {
    BaselessMeans(q);
    AnchorLossMeans(q);
    SourcesMean(q);
    SomeLoss(q);
    hide Baseless, LosesAnchor, LosesItem, Known, CapsuleSourceMismatch, ActiveIds,
      ApprovedTransitionIds, Unsupported, AnchorRecall;
  }

  lemma {:induction false} CoverageBelow(q: Submission)
    ensures SourceCoverage(q) < 1.0 <==> |q.capsules| == 0 || Baseless(q) || exists c <- q.capsules :: c.quality.sourceCoverage < 1.0
  {
    hide Baseless, Unsupported, DeclaredCoverage, DeclaredRecall, DeclaredUnsupported, DeclaredGaps, Total;
    BaselessMeans(q);
    if q.capsules != [] {
      DeclaredIff(q.capsules);
    } else {
      NothingDeclared();
    }
    hide SourceCoverage, DeclaredMin;
  }

  lemma {:induction false} NothingDeclared()
    ensures DeclaredCoverage([]) == [] && DeclaredRecall([]) == []
  {
  }

  lemma {:induction false} RecallBelow(q: Submission)
    ensures EffectiveRecall(q) < 1.0 <==> |q.capsules| == 0 || LosesAnchor(q) || exists c <- q.capsules :: c.quality.anchorRecall < 1.0
  {
    hide LosesAnchor, AnchorRecall, DeclaredCoverage, DeclaredRecall, DeclaredUnsupported, DeclaredGaps, Total;
    AnchorLossMeans(q);
    if q.capsules != [] {
      DeclaredIff(q.capsules);
    } else {
      NothingDeclared();
    }
    hide DeclaredMin;
  }

  lemma {:induction false} DeclaredCounts(q: Submission)
    ensures UnsupportedClaims(q) > 0 <==> Baseless(q) || exists c <- q.capsules :: c.quality.unsupportedCriticalClaims > 0
    ensures Total(DeclaredGaps(q.capsules)) > 0 <==> exists c <- q.capsules :: c.quality.coverageGap > 0
  {
    hide Baseless, Unsupported;
    BaselessMeans(q);
    if q.capsules != [] {
      DeclaredIff(q.capsules);
      hide DeclaredCoverage, DeclaredRecall, DeclaredUnsupported, DeclaredGaps, Total;
    }
  }

  lemma {:induction false} CoverageCodes(q: Submission, code: FailureCode)
    ensures code in CoverageFailures(q) <==>
      (code.MechanicalNotPassed? || code.SourceCoverageNotFull? || code.AnchorRecallNotFull?) && Stated(q, code)
  {
    hide Baseless, LosesAnchor, SourceCoverage, EffectiveRecall;
    CoverageBelow(q);
    RecallBelow(q);
  }

  lemma {:induction false} CountCodes(q: Submission, code: FailureCode)
    ensures code in CountFailures(q) <==>
      (code.UnsupportedCriticalClaims? || code.QualityCoverageGap? || code.TokenCeilingExceeded?) && Stated(q, code)
  {
    hide Baseless, UnsupportedClaims, Total, TokenCosts;
    DeclaredCounts(q);
  }

  lemma {:induction false} QualityCodes(q: Submission, code: FailureCode)
    ensures code in QualityFailures(q) <==> !ShapeCode(code) && !SemanticCode(code) && Stated(q, code)
  {
    hide CoverageFailures, CountFailures, Stated;
    CoverageCodes(q, code);
    CountCodes(q, code);
  }

  /** Each code is reported exactly when what it stands for is the case. */
  lemma {:induction false} CodesMean(q: Submission, code: FailureCode)
    ensures code in Validate(q).failures <==> Stated(q, code)
  {
    ShapeCodes(q, code);
    SemanticCodes(q, code);
    QualityCodes(q, code);
    hide ShapeFailures, SemanticFailures, QualityFailures, Stated, ShapeCode, SemanticCode;
  }

  // ----- the figures -----

  lemma {:induction false} TotalIsSum(values: seq<nat>, v: nat)
    ensures Total([]) == 0 && Total(values + [v]) == Total(values) + v
  {
    if values != [] {
      TotalIsSum(values[1..], v);
      assert (values + [v])[1..] == values[1..] + [v];
    } else {
      assert [v][1..] == [];
    }
  }

  function BaselessPositions(lists: seq<seq<Id>>, valid: set<Id>): (r: set<nat>) {
    set i | 0 <= i < |lists| && !Supported(lists[i], valid)
  }

  lemma {:induction false} CountNext(lists: seq<seq<Id>>, l: seq<Id>, valid: set<Id>)
    ensures UnsupportedCount(lists + [l], valid) == UnsupportedCount(lists, valid) + (if Supported(l, valid) then 0 else 1)
  {
    hide Supported;
    if lists != [] {
      CountNext(lists[1..], l, valid);
      assert (lists + [l])[1..] == lists[1..] + [l];
    } else {
      assert [l][1..] == [];
    }
  }

  lemma {:induction false} UnsupportedIsCount(lists: seq<seq<Id>>, valid: set<Id>)
    ensures UnsupportedCount(lists, valid) == |BaselessPositions(lists, valid)|
  {
    hide Supported;
    if lists != [] {
      var last := |lists| - 1;
      UnsupportedIsCount(lists[..last], valid);
      CountNext(lists[..last], lists[last], valid);
      assert lists == lists[..last] + [lists[last]];
      assert BaselessPositions(lists, valid)
        == BaselessPositions(lists[..last], valid) + (if Supported(lists[last], valid) then {} else {last});
    } else {
      assert BaselessPositions(lists, valid) == {};
    }
  }

  function KeptPositions(previous: seq<Anchor>, candidate: seq<Anchor>): (r: set<nat>) {
    set i | 0 <= i < |previous| && previous[i] in candidate
  }

  lemma {:induction false} PreservedNext(previous: seq<Anchor>, a: Anchor, candidate: seq<Anchor>)
    ensures PreservedCount(previous + [a], candidate) == PreservedCount(previous, candidate) + (if a in candidate then 1 else 0)
  {
    if previous != [] {
      PreservedNext(previous[1..], a, candidate);
      assert (previous + [a])[1..] == previous[1..] + [a];
    } else {
      assert [a][1..] == [];
    }
  }

  lemma {:induction false} PreservedIsCount(previous: seq<Anchor>, candidate: seq<Anchor>)
    ensures PreservedCount(previous, candidate) == |KeptPositions(previous, candidate)|
  {
    if previous != [] {
      var last := |previous| - 1;
      PreservedIsCount(previous[..last], candidate);
      PreservedNext(previous[..last], previous[last], candidate);
      assert previous == previous[..last] + [previous[last]];
      assert KeptPositions(previous, candidate)
        == KeptPositions(previous[..last], candidate) + (if previous[last] in candidate then {last} else {});
    } else {
      assert KeptPositions(previous, candidate) == {};
    }
  }

  /** `r` is `part` of `whole`, and everything of nothing. */
  ghost predicate Share(r: real, part: int, whole: nat) {
    if whole == 0 then r == 1.0 else r * whole as real == part as real
  }

  /** `m` is the least of `share` and the declared values; a capsule list without capsules declares zero. */
  ghost predicate LeastOf(m: real, share: real, declared: seq<real>) {
    if declared == [] then m == if share <= 0.0 then share else 0.0
    else m <= share && (forall d <- declared :: m <= d) && (m == share || m in declared)
  }

  ghost predicate Larger(n: nat, a: nat, b: nat) {
    a <= n && b <= n && (n == a || n == b)
  }

  lemma {:induction false} RatioMeans(part: nat, whole: nat)
    requires part <= whole
    ensures Share(Ratio(part, whole), part, whole)
  {
  }

  lemma {:induction false} LeastMeans(share: real, declared: seq<real>)
    ensures LeastOf(Min(share, DeclaredMin(declared)), share, declared)
    decreases |declared|
  {
    if |declared| > 1 {
      LeastMeans(declared[0], declared[1..]);
      assert forall d :: d in declared <==> d == declared[0] || d in declared[1..];
    }
  }

  ghost predicate Absent(q: Submission, n: nat) {
    forall e <- q.events :: e.sequence != n
  }

  ghost function MissingSequences(q: Submission, base: nat): (r: set<nat>) {
    set n | base < n <= q.target && Absent(q, n)
  }

  /** `m` is the least of `part` of `whole` and the declared values. */
  ghost predicate Lowered(m: real, part: int, whole: nat, declared: seq<real>) {
    exists share :: Share(share, part, whole) && LeastOf(m, share, declared)
  }

  /** The share of provenance lists with evidence, lowered to the least declared coverage. */
  ghost predicate CoverageFigure(q: Submission, figure: real) {
    var lists := ProvenanceLists(q);
    Lowered(figure, |lists| - |BaselessPositions(lists, ValidSources(q))|, |lists|,
            seq(|q.capsules|, i requires 0 <= i < |q.capsules| => q.capsules[i].quality.sourceCoverage))
  }

  /** The share of the previous active anchors that are kept, lowered to the least declared recall. */
  ghost predicate RecallFigure(q: Submission, figure: real) {
    var previous := ActiveAnchors(q.previousCapsules);
    Lowered(figure, |KeptPositions(previous, ActiveAnchors(q.capsules))|, |previous|,
            seq(|q.capsules|, i requires 0 <= i < |q.capsules| => q.capsules[i].quality.anchorRecall))
  }

  /** The provenance lists without evidence, raised to the sum of the declared unsupported claims. */
  ghost predicate UnsupportedFigure(q: Submission, figure: nat) {
    Larger(figure, |BaselessPositions(ProvenanceLists(q), ValidSources(q))|, Total(DeclaredUnsupported(q.capsules)))
  }

  /** The missing events, raised to the sum of the declared gaps. */
  ghost predicate GapFigure(q: Submission, figure: nat) {
    Larger(figure, |MissingSequences(q, if q.previous.Some? then q.previous.value.coverage else 0)|, Total(DeclaredGaps(q.capsules)))
  }

  lemma {:induction false} ReportMeans(q: Submission)
    ensures CoverageFigure(q, Validate(q).sourceCoverage) && UnsupportedFigure(q, Validate(q).unsupportedCriticalClaims)
    ensures RecallFigure(q, Validate(q).anchorRecall) && GapFigure(q, Validate(q).coverageGap)
  {
    hide ShapeFailures, SemanticFailures, QualityFailures;
    CoverageMeans(q);
    RecallMeans(q);
    MissingMeans(q);
    hide CoverageFigure, RecallFigure, MissingSequences, SourceCoverage, EffectiveRecall, Unsupported, Total;
  }

  lemma {:induction false} CoverageMeans(q: Submission)
    ensures CoverageFigure(q, SourceCoverage(q)) && Unsupported(q) == |BaselessPositions(ProvenanceLists(q), ValidSources(q))|
  {
    hide ProvenanceLists, ValidSources, BaselessPositions, Share, LeastOf, Ratio, Min;
    var lists := ProvenanceLists(q);
    UnsupportedIsCount(lists, ValidSources(q));
    RatioMeans(|lists| - Unsupported(q), |lists|);
    LeastMeans(Ratio(|lists| - Unsupported(q), |lists|), DeclaredCoverage(q.capsules));
    assert DeclaredCoverage(q.capsules) == seq(|q.capsules|, i requires 0 <= i < |q.capsules| => q.capsules[i].quality.sourceCoverage);
  }

  lemma {:induction false} RecallMeans(q: Submission)
    ensures RecallFigure(q, EffectiveRecall(q))
  {
    hide ActiveAnchors, KeptPositions, Share, LeastOf, Ratio, Min;
    var previous := ActiveAnchors(q.previousCapsules);
    PreservedIsCount(previous, ActiveAnchors(q.capsules));
    RatioMeans(PreservedCount(previous, ActiveAnchors(q.capsules)), |previous|);
    LeastMeans(AnchorRecall(q), DeclaredRecall(q.capsules));
    assert DeclaredRecall(q.capsules) == seq(|q.capsules|, i requires 0 <= i < |q.capsules| => q.capsules[i].quality.anchorRecall);
  }

  lemma {:induction false} MissingMeans(q: Submission)
    ensures var base := BaseCoverage(q.previous);
      (set n <- Range(base, q.target)) - (set n <- Sequences(q.events))
      == MissingSequences(q, base)
  {
    var base := BaseCoverage(q.previous);
    forall n: nat
      ensures n in Range(base, q.target) <==> base < n <= q.target
      ensures n in Sequences(q.events) <==> exists e <- q.events :: e.sequence == n
    {
      if base < n <= q.target {
        assert Range(base, q.target)[n - base - 1] == n;
      }
      if e :| e in q.events && e.sequence == n {
        var i :| 0 <= i < |q.events| && q.events[i] == e;
        assert Sequences(q.events)[i] == n;
      }
    }
  }
}
