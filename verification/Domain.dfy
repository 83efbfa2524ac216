/** The immutable envelopes that travel between the journal, the compiler and the store. */
module Domain {
  import opened Common

  /** A session's canonical identity together with the digest it is stored under.
      Two different identities may share a digest. */
  datatype SessionKey = SessionKey(canonical: string, hash: string)

  datatype EventType = UserMessage | AssistantMessage | ToolCall | ToolResult

  /** Role and source hook are functions of the event type, so only the type is kept. */
  datatype Event = Event(
    eventId: Id,
    session: SessionKey,
    sequence: nat,
    eventType: EventType,
    content: string,
    idempotencyKey: string,
    tokenCount: nat,
    createdAt: int)

  datatype SemanticStatus = Active | Superseded | Retracted | Uncertain

  datatype Claim = Claim(claimId: Id, text: string, status: SemanticStatus, confidence: real, sources: seq<Id>)

  datatype Decision = Decision(
    decisionId: Id, text: string, status: SemanticStatus, confidence: real, sources: seq<Id>,
    rationale: string, alternatives: seq<string>, supersedes: seq<string>, rejectedBecause: string)

  datatype Entity = Entity(entityId: Id, kind: string, name: string, aliases: seq<string>, sources: seq<Id>)

  datatype Dependency = Dependency(dependencyId: Id, kind: string, targetId: Id, sources: seq<Id>)

  datatype AnchorStatus = AnchorActive | AnchorSuperseded | AnchorRetracted

  datatype Anchor = Anchor(
    anchorId: Id, anchorType: string, exactText: string, sources: seq<Id>, status: AnchorStatus, importance: real)

  datatype Quality = Quality(
    mechanicalPassed: bool, sourceCoverage: real, anchorRecall: real,
    unsupportedCriticalClaims: nat, coverageGap: nat)

  datatype Capsule = Capsule(
    capsuleId: Id,
    session: SessionKey,
    level: string,
    coveredStart: nat,
    coveredEnd: nat,
    sources: seq<Id>,
    goals: seq<Claim>,
    constraints: seq<Claim>,
    decisions: seq<Decision>,
    progress: seq<Claim>,
    openLoops: seq<Claim>,
    preferences: seq<Claim>,
    entities: seq<Entity>,
    emotionalContext: seq<Claim>,
    anchors: seq<Anchor>,
    dependencies: seq<Dependency>,
    summary: string,
    tokenCost: nat,
    quality: Quality,
    createdAt: int)

  datatype SemanticAudit = NotRun | AuditPassed | AuditFailed

  datatype Audit = Audit(mechanicalPassed: bool, semantic: SemanticAudit, failureCodes: seq<string>)

  datatype SnapshotState = Candidate | Committed

  datatype Snapshot = Snapshot(
    snapshotId: Id,
    session: SessionKey,
    base: Option<Id>,
    coverage: nat,
    sourceHighWater: nat,
    capsuleIds: seq<Id>,
    anchorIds: seq<Id>,
    rendered: string,
    tokenCost: nat,
    audit: Audit,
    state: SnapshotState,
    createdAt: int,
    committedAt: Option<int>)

  datatype Membership = Membership(ordinal: nat, slot: string, capsule: Capsule)

  function CapsulesOf(memberships: seq<Membership>): (cs: seq<Capsule>)
    ensures |cs| == |memberships|
    ensures forall i :: 0 <= i < |cs| ==> cs[i] == memberships[i].capsule
  {
    seq(|memberships|, i requires 0 <= i < |memberships| => memberships[i].capsule)
  }

  function CapsuleIds(capsules: seq<Capsule>): (ids: seq<Id>)
    ensures |ids| == |capsules|
    ensures forall i :: 0 <= i < |ids| ==> ids[i] == capsules[i].capsuleId
  {
    seq(|capsules|, i requires 0 <= i < |capsules| => capsules[i].capsuleId)
  }

  function AnchorIds(anchors: seq<Anchor>): (ids: seq<Id>)
    ensures |ids| == |anchors|
    ensures forall i :: 0 <= i < |ids| ==> ids[i] == anchors[i].anchorId
  {
    seq(|anchors|, i requires 0 <= i < |anchors| => anchors[i].anchorId)
  }

  function ActiveOnly(anchors: seq<Anchor>): (r: seq<Anchor>)
    ensures forall a :: a in r <==> a in anchors && a.status.AnchorActive?
  {
    if anchors == [] then []
    else (if anchors[0].status.AnchorActive? then [anchors[0]] else []) + ActiveOnly(anchors[1..])
  }

  /** The active exact anchors of a capsule list, capsule by capsule. */
  function ActiveAnchors(capsules: seq<Capsule>): (r: seq<Anchor>)
    ensures forall a :: a in r <==> exists c :: c in capsules && a in c.anchors && a.status.AnchorActive?
  {
    if capsules == [] then []
    else ActiveOnly(capsules[0].anchors) + ActiveAnchors(capsules[1..])
  }
}
