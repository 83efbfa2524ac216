/** The durable tables and the transactions over them. Every transaction is a function from the store
    to either a committed store with a result or an abort, which leaves the store as it was. */
module Store {
  import opened Common
  import opened Domain
  import Gate = PublicationGate

  // ----- rows -----

  datatype JobState =
    | Pending | Leased | Compiling | Auditing | ReadyToCommit | RetryWait
    | CommittedJob | SupersededJob | FailedJob | CancelledJob
  {
    predicate Working() { Leased? || Compiling? || Auditing? || ReadyToCommit? }
    predicate Terminal() { CommittedJob? || SupersededJob? || FailedJob? || CancelledJob? }
    predicate HasCandidate() { ReadyToCommit? || CommittedJob? || SupersededJob? }
  }

  datatype Job = Job(
    jobId: Id,
    session: string,
    state: JobState,
    target: nat,
    intent: nat,
    base: Option<Id>,
    baseVersion: nat,
    candidate: Option<Id>,
    owner: Option<string>,
    epoch: nat,
    expires: Option<int>,
    attempts: nat,
    nextRetry: Option<int>,
    errorStage: Option<string>,
    errorCode: Option<string>,
    errorMessage: Option<string>,
    createdAt: int,
    updatedAt: int,
    committedAt: Option<int>)
  {
    /** `CompactionJobEnvelope.validate_conditionals` with the field constraints of the envelope. */
    predicate WellFormed() {
      && jobId != "" && 1 <= target && 1 <= intent
      && (base.Some? ==> base.value != "") && (candidate.Some? ==> candidate.value != "")
      && (owner.Some? ==> owner.value != "")
      && (errorStage.None? <==> errorCode.None?) && (errorCode.None? <==> errorMessage.None?)
      && (errorStage.Some? ==> errorStage.value != "" && errorCode.value != "" && errorMessage.value != "")
      && (base.None? <==> baseVersion == 0)
      && (state.Working() ==> owner.Some? && 1 <= epoch && expires.Some?)
      && (!state.Working() ==> owner.None? && expires.None?)
      && (state.HasCandidate() <==> candidate.Some?)
      && (state.RetryWait? || state.FailedJob? ==> errorStage.Some?)
      && (state.RetryWait? <==> nextRetry.Some?)
      && (state.CommittedJob? <==> committedAt.Some?)
    }

    /** The row carries this fencing token and its lease is still running. */
    predicate LiveFence(holder: string, held: nat, now: int) {
      state.Working() && owner == Some(holder) && epoch == held && expires.Some? && now < expires.value
    }

    predicate Eligible(now: int) {
      state.Pending? || (state.RetryWait? && nextRetry.Some? && nextRetry.value <= now)
    }

    predicate Expired(now: int) {
      state.Working() && expires.Some? && expires.value <= now
    }
  }

  datatype SessionRow = SessionRow(key: SessionKey, next: nat)
  datatype JournalKey = JournalKey(session: string, sequence: nat)
  datatype MemberRow = MemberRow(slot: string, capsuleId: Id)
  datatype SnapshotRow = SnapshotRow(envelope: Snapshot, members: seq<MemberRow>)
  datatype Pointer = Pointer(snapshotId: Id, version: nat)

  /** `journal` is keyed by the schema's UNIQUE (session, sequence); `snapshots` and `jobs` are in insertion order. */
  datatype Tables = Tables(
    sessions: map<string, SessionRow>,
    journal: map<JournalKey, Event>,
    capsules: map<Id, Capsule>,
    snapshots: seq<SnapshotRow>,
    active: map<string, Pointer>)

  datatype Store = Store(tables: Tables, jobs: seq<Job>)

  const EMPTY := Store(Tables(map[], map[], map[], [], map[]), [])

  datatype Error =
    | InvalidArgument | SessionConflict | IdempotencyConflict | EventConflict | JobConflict
    | UnknownSession | BeyondHighWater | StaleLease | BadTransition | InvalidCandidate
    | Rejected(failures: set<Gate.FailureCode>) | NoWinner | StoreCorrupt

  datatype Tx<+T> = Commit(store: Store, value: T) | Abort(error: Error)
  datatype Read<+T> = Ok(value: T) | Failed(error: Error)

  // ----- row lookups -----

  function FindJob(jobs: seq<Job>, id: Id): (r: Option<nat>)
    ensures r.Some? ==> r.value < |jobs| && jobs[r.value].jobId == id
    ensures r.None? ==> forall i :: 0 <= i < |jobs| ==> jobs[i].jobId != id
  {
    if jobs == [] then None
    else if jobs[|jobs| - 1].jobId == id then Some(|jobs| - 1)
    else FindJob(jobs[..|jobs| - 1], id)
  }

  /** The nonterminal Job of a session, if any. */
  function FindOpen(jobs: seq<Job>, session: string): (r: Option<nat>)
    ensures r.Some? ==> r.value < |jobs| && jobs[r.value].session == session && !jobs[r.value].state.Terminal()
    ensures r.None? ==> forall i :: 0 <= i < |jobs| && jobs[i].session == session ==> jobs[i].state.Terminal()
  {
    if jobs == [] then None
    else if jobs[|jobs| - 1].session == session && !jobs[|jobs| - 1].state.Terminal() then Some(|jobs| - 1)
    else FindOpen(jobs[..|jobs| - 1], session)
  }

  function FindSnapshot(snapshots: seq<SnapshotRow>, id: Id): (r: Option<SnapshotRow>)
    ensures r.Some? ==> r.value in snapshots && r.value.envelope.snapshotId == id
    ensures r.None? ==> forall row <- snapshots :: row.envelope.snapshotId != id
  {
    if snapshots == [] then None
    else if snapshots[|snapshots| - 1].envelope.snapshotId == id then Some(snapshots[|snapshots| - 1])
    else FindSnapshot(snapshots[..|snapshots| - 1], id)
  }

  /** The claim order: oldest first, ties by job id. */
  predicate Before(a: Job, b: Job) {
    a.createdAt < b.createdAt || (a.createdAt == b.createdAt && TextBefore(a.jobId, b.jobId))
  }

  /** The first eligible row in claim order. */
  function FirstEligible(jobs: seq<Job>, now: int): (r: Option<nat>)
    ensures r.Some? ==> r.value < |jobs| && jobs[r.value].Eligible(now)
    ensures r.None? ==> forall i :: 0 <= i < |jobs| ==> !jobs[i].Eligible(now)
  {
    if jobs == [] then None
    else
      var last := |jobs| - 1;
      var rest := FirstEligible(jobs[..last], now);
      if jobs[last].Eligible(now) && (rest.None? || Before(jobs[last], jobs[rest.value])) then Some(last) else rest
  }

  /** Journal rows with `lo < sequence <= hi` of one session, by sequence. */
  function EventsBetween(journal: map<JournalKey, Event>, session: string, lo: nat, hi: nat): (r: seq<Event>)
    decreases hi
  {
    if hi <= lo then []
    else
      EventsBetween(journal, session, lo, hi - 1)
      + (if JournalKey(session, hi) in journal then [journal[JournalKey(session, hi)]] else [])
  }

  /** `_active_base`: id, version and coverage of the active Snapshot, or nothing at version and coverage 0. */
  datatype Base = Base(id: Option<Id>, version: nat, coverage: nat)

  function ActiveBase(t: Tables, session: string): (r: Option<Base>)
  {
    if session !in t.active then Some(Base(None, 0, 0))
    else
      var row := FindSnapshot(t.snapshots, t.active[session].snapshotId);
      if row.None? then Some(Base(None, 0, 0))  // the join finds no row
      else if row.value.envelope.session.hash != session then None
      else Some(Base(Some(t.active[session].snapshotId), t.active[session].version, row.value.envelope.coverage))
  }

  /** `_job_by_id`: the joined session must exist and the row must form a canonical envelope. */
  predicate JobReadable(t: Tables, job: Job) {
    job.session in t.sessions && t.sessions[job.session].key.hash == job.session && job.WellFormed()
  }

  // ----- TX_CAPTURE_* -----

  datatype CaptureRequest = CaptureRequest(
    eventId: Id, session: SessionKey, eventType: EventType, content: string,
    idempotencyKey: string, tokenCount: nat, createdAt: int)

  function EventOf(q: CaptureRequest, sequence: nat): (e: Event) {
    Event(q.eventId, q.session, sequence, q.eventType, q.content, q.idempotencyKey, q.tokenCount, q.createdAt)
  }

  /** The stored event under the schema's UNIQUE (session, source hook, idempotency key), searched downwards. */
  function FindReplay(journal: map<JournalKey, Event>, q: CaptureRequest, below: nat): (r: Option<Event>)
    ensures r.Some? ==> r.value.eventType == q.eventType && r.value.idempotencyKey == q.idempotencyKey
    ensures r.None? ==> forall n :: 1 <= n < below && JournalKey(q.session.hash, n) in journal ==>
      journal[JournalKey(q.session.hash, n)].eventType != q.eventType
      || journal[JournalKey(q.session.hash, n)].idempotencyKey != q.idempotencyKey
  {
    if below <= 1 then None
    else
      var key := JournalKey(q.session.hash, below - 1);
      if key in journal && journal[key].eventType == q.eventType && journal[key].idempotencyKey == q.idempotencyKey
      then Some(journal[key])
      else FindReplay(journal, q, below - 1)
  }

  predicate EventIdTaken(journal: map<JournalKey, Event>, id: Id) {
    exists k <- journal.Keys :: journal[k].eventId == id
  }

  function CaptureEvent(s: Store, q: CaptureRequest): (r: Tx<Event>)
  {
    if q.eventId == "" || q.idempotencyKey == "" then Abort(InvalidArgument)
    else if q.session.hash in s.tables.sessions && s.tables.sessions[q.session.hash].key != q.session then Abort(SessionConflict)
    else
      var row := if q.session.hash in s.tables.sessions then s.tables.sessions[q.session.hash] else SessionRow(q.session, 1);
      var replay := FindReplay(s.tables.journal, q, row.next);
      if replay.Some? then
        if replay.value == EventOf(q, replay.value.sequence) then Commit(s, replay.value) else Abort(IdempotencyConflict)
      else if EventIdTaken(s.tables.journal, q.eventId) || SqlBlank(q.eventId) || SqlBlank(q.idempotencyKey)
           || JournalKey(q.session.hash, row.next) in s.tables.journal then
        Abort(EventConflict)
      else
        var event := EventOf(q, row.next);
        Commit(
          s.(tables := s.tables.(
            sessions := s.tables.sessions[q.session.hash := SessionRow(q.session, row.next + 1)],
            journal := s.tables.journal[JournalKey(q.session.hash, row.next) := event])),
          event)
  }

  // ----- TX_RAISE_COMPACTION_INTENT -----

  datatype IntentRequest = IntentRequest(jobId: Id, session: SessionKey, target: int, now: int)

  function NewJob(jobId: Id, session: string, target: nat, base: Option<Id>, version: nat, now: int): (j: Job) {
    Job(jobId, session, Pending, target, target, base, version, None, None, 0, None, 0, None, None, None, None, now, now, None)
  }

  function RaiseIntent(s: Store, q: IntentRequest): (r: Tx<Option<Job>>)
  {
    if Blank(q.jobId) || q.target < 1 then Abort(InvalidArgument)
    else
      var h := q.session.hash;
      if h !in s.tables.sessions then Abort(UnknownSession)
      else if s.tables.sessions[h].key != q.session then Abort(SessionConflict)
      else if q.target > s.tables.sessions[h].next - 1 then Abort(BeyondHighWater)
      else
        var base := ActiveBase(s.tables, h);
        if base.None? then Abort(StoreCorrupt)
        else if q.target <= base.value.coverage then Commit(s, None)
        else
          var open := FindOpen(s.jobs, h);
          if open.Some? then
            var job := s.jobs[open.value];
            var folded := if q.target > job.intent then job.(intent := q.target, updatedAt := q.now) else job;
            if JobReadable(s.tables, folded) then Commit(s.(jobs := s.jobs[open.value := folded]), Some(folded))
            else Abort(StoreCorrupt)
          else if FindJob(s.jobs, q.jobId).Some? then Abort(JobConflict)
          else
            var job := NewJob(q.jobId, h, q.target, base.value.id, base.value.version, q.now);
            if JobReadable(s.tables, job) then Commit(s.(jobs := s.jobs + [job]), Some(job)) else Abort(StoreCorrupt)
  }

  // ----- TX_CLAIM_JOB -----

  datatype ClaimRequest = ClaimRequest(worker: string, now: int, leaseExpires: int)

  function Cancel(job: Job, now: int): (j: Job) {
    job.(state := CancelledJob, nextRetry := None, updatedAt := now)
  }

  function Lease(job: Job, base: Base, q: ClaimRequest): (j: Job) {
    job.(state := Leased, target := job.intent, base := base.id, baseVersion := base.version, candidate := None,
         owner := Some(q.worker), epoch := job.epoch + 1, expires := Some(q.leaseExpires), attempts := job.attempts + 1,
         nextRetry := None, errorStage := None, errorCode := None, errorMessage := None,
         updatedAt := q.now, committedAt := None)
  }

  function EligibleCount(jobs: seq<Job>, now: int): (n: nat) {
    if jobs == [] then 0
    else EligibleCount(jobs[..|jobs| - 1], now) + (if jobs[|jobs| - 1].Eligible(now) then 1 else 0)
  }

  lemma {:induction false} EligibleCountUpdate(jobs: seq<Job>, now: int, i: nat, job: Job)
    requires i < |jobs| && jobs[i].Eligible(now) && !job.Eligible(now)
    ensures EligibleCount(jobs[i := job], now) == EligibleCount(jobs, now) - 1
  {
    var last := |jobs| - 1;
    if i < last {
      EligibleCountUpdate(jobs[..last], now, i, job);
      assert jobs[i := job][..last] == jobs[..last][i := job];
    } else {
      assert jobs[i := job][..last] == jobs[..last];
    }
  }

  /** The claim loop: jobs already covered are cancelled until one can be leased or none is eligible. */
  function ClaimLoop(s: Store, q: ClaimRequest): (r: Tx<Option<Job>>)
    decreases EligibleCount(s.jobs, q.now)
  {
    var first := FirstEligible(s.jobs, q.now);
    if first.None? then Commit(s, None)
    else
      var job := s.jobs[first.value];
      var base := ActiveBase(s.tables, job.session);
      if base.None? then Abort(StoreCorrupt)
      else if job.intent <= base.value.coverage then
        EligibleCountUpdate(s.jobs, q.now, first.value, Cancel(job, q.now));
        ClaimLoop(s.(jobs := s.jobs[first.value := Cancel(job, q.now)]), q)
      else
        var leased := Lease(job, base.value, q);
        if JobReadable(s.tables, leased) then Commit(s.(jobs := s.jobs[first.value := leased]), Some(leased))
        else Abort(StoreCorrupt)
  }

  function ClaimJob(s: Store, q: ClaimRequest): (r: Tx<Option<Job>>) {
    if Blank(q.worker) || q.leaseExpires <= q.now then Abort(InvalidArgument) else ClaimLoop(s, q)
  }

  // ----- fenced worker transactions -----

  datatype Token = Token(jobId: Id, owner: string, epoch: nat)

  /** `_require_live_fence`: position of the row the token still owns. */
  function Fence(s: Store, t: Token, now: int): (r: Option<nat>)
    ensures r.Some? ==> r.value < |s.jobs| && s.jobs[r.value].jobId == t.jobId && s.jobs[r.value].LiveFence(t.owner, t.epoch, now)
  {
    var found := FindJob(s.jobs, t.jobId);
    if found.Some? && s.jobs[found.value].LiveFence(t.owner, t.epoch, now) then found else None
  }

  predicate Allowed(from: JobState, to: JobState) {
    || (from.Leased? && to.Compiling?)
    || (from.Compiling? && (to.Auditing? || to.ReadyToCommit?))
    || (from.Auditing? && to.ReadyToCommit?)
  }

  function WriteJob(s: Store, i: nat, job: Job): (r: Tx<Job>)
    requires i < |s.jobs|
  {
    if JobReadable(s.tables, job) then Commit(s.(jobs := s.jobs[i := job]), job) else Abort(StoreCorrupt)
  }

  function TransitionJob(s: Store, t: Token, to: JobState, candidate: Option<Id>, now: int): (r: Tx<Job>)
  {
    var i := Fence(s, t, now);
    if i.None? then Abort(StaleLease)
    else if !Allowed(s.jobs[i.value].state, to) then Abort(BadTransition)
    else if to.ReadyToCommit? && (candidate.None? || Blank(candidate.value)) then Abort(BadTransition)
    else if !to.ReadyToCommit? && candidate.Some? then Abort(BadTransition)
    else WriteJob(s, i.value, s.jobs[i.value].(state := to, candidate := candidate, updatedAt := now))
  }

  function RenewLease(s: Store, t: Token, now: int, leaseExpires: int): (r: Tx<Job>)
  {
    if leaseExpires <= now then Abort(InvalidArgument)
    else
      var i := Fence(s, t, now);
      if i.None? then Abort(StaleLease)
      else if leaseExpires <= s.jobs[i.value].expires.value then Abort(BadTransition)
      else WriteJob(s, i.value, s.jobs[i.value].(expires := Some(leaseExpires), updatedAt := now))
  }

  datatype FailRequest = FailRequest(
    token: Token, now: int, stage: string, code: string, message: string, retryAt: Option<int>, preserveAttempt: bool)

  predicate FailArgumentsOk(q: FailRequest) {
    && !Blank(q.stage) && !Blank(q.code) && !Blank(q.message)
    && |q.message| <= 512 && '\r' !in q.message && '\n' !in q.message && '\0' !in q.message
    && (q.preserveAttempt ==>
          q.retryAt.Some? && q.stage == "COMPILING"
          && q.code in {"EXTRACTIVE_PROVIDER_UNAVAILABLE", "TOKEN_METRIC_MISSING", "TOKEN_METRIC_UNAVAILABLE"})
    && (q.retryAt.Some? ==> q.now < q.retryAt.value)
  }

  function FailedRow(job: Job, q: FailRequest): (j: Job) {
    job.(
      state := if q.retryAt.Some? then RetryWait else FailedJob,
      candidate := None, owner := None, expires := None,
      attempts := if q.preserveAttempt && job.attempts > 0 then job.attempts - 1 else job.attempts,
      nextRetry := q.retryAt, errorStage := Some(q.stage), errorCode := Some(q.code), errorMessage := Some(q.message),
      updatedAt := q.now, committedAt := None)
  }

  function FailJob(s: Store, q: FailRequest): (r: Tx<Job>)
  {
    if !FailArgumentsOk(q) then Abort(InvalidArgument)
    else
      var i := Fence(s, q.token, q.now);
      if i.None? then Abort(StaleLease) else WriteJob(s, i.value, FailedRow(s.jobs[i.value], q))
  }

  // ----- TX_RECOVER_EXPIRED_LEASES -----

  function Recovered(job: Job, now: int): (j: Job) {
    if job.Expired(now) then
      job.(state := Pending, candidate := None, owner := None, expires := None, nextRetry := None,
           updatedAt := now, committedAt := None)
    else job
  }

  function RecoveredRows(jobs: seq<Job>, now: int): (r: seq<Job>)
    ensures |r| == |jobs|
    ensures forall i :: 0 <= i < |jobs| ==> r[i] == Recovered(jobs[i], now)
  {
    seq(|jobs|, i requires 0 <= i < |jobs| => Recovered(jobs[i], now))
  }

  /** Puts a row at its place of the claim order. */
  function Placed(rows: seq<Job>, job: Job): (r: seq<Job>)
    ensures |r| == |rows| + 1 && multiset(r) == multiset(rows) + multiset{job}
  {
    if rows == [] || !Before(job, rows[|rows| - 1]) then rows + [job]
    else
      var last := |rows| - 1;
      assert rows == rows[..last] + [rows[last]];
      Placed(rows[..last], job) + [rows[last]]
  }

  /** The rows with an expired lease as they are after the sweep, in claim order. */
  function Swept(jobs: seq<Job>, now: int): (r: seq<Job>) {
    if jobs == [] then []
    else
      var last := |jobs| - 1;
      if jobs[last].Expired(now) then Placed(Swept(jobs[..last], now), Recovered(jobs[last], now)) else Swept(jobs[..last], now)
  }

  lemma {:induction false} NothingSwept(now: int)
    ensures Swept([], now) == []
  {
  }

  lemma {:induction false} SweptNext(jobs: seq<Job>, now: int, i: nat)
    requires i < |jobs|
    ensures Swept(jobs[..i + 1], now)
      == if jobs[i].Expired(now) then Placed(Swept(jobs[..i], now), Recovered(jobs[i], now)) else Swept(jobs[..i], now)
  {
    assert jobs[..i + 1][..i] == jobs[..i];
  }

  lemma {:induction false} RecoveredOnly(job: Job, now: int)
    ensures !job.Expired(now) ==> Recovered(job, now) == job
  {
  }

  function RecoverLeases(s: Store, now: int): (r: Tx<seq<Job>>)
  {
    if forall i :: 0 <= i < |s.jobs| && s.jobs[i].Expired(now) ==> JobReadable(s.tables, Recovered(s.jobs[i], now)) then
      Commit(s.(jobs := RecoveredRows(s.jobs, now)), Swept(s.jobs, now))
    else Abort(StoreCorrupt)
  }

  // ----- TX_PUBLISH_SNAPSHOT -----

  datatype RecordStatus = Retained | Approximate | Released
  datatype LedgerRecord = LedgerRecord(sourceCapsuleId: Id, kind: string, itemId: Id, status: RecordStatus, required: bool)

  /** `followUpId` stands for the digest the code derives; it may collide with any stored id. */
  datatype PublishRequest = PublishRequest(
    token: Token, candidate: Snapshot, memberships: seq<Membership>, records: seq<LedgerRecord>,
    tokenCeiling: int, now: int, followUpId: Id)

  datatype PublishOutcome = PublishedCommitted | PublishedSuperseded
  datatype PublishResult = PublishResult(outcome: PublishOutcome, job: Job, winner: Id, version: nat)

  predicate MembershipsOk(snapshot: Snapshot, ms: seq<Membership>) {
    && ms != []
    && (forall i :: 0 <= i < |ms| ==> ms[i].ordinal == i && !Blank(ms[i].slot))
    && (forall i, j :: 0 <= i < j < |ms| ==> ms[i].capsule.capsuleId != ms[j].capsule.capsuleId)
    && snapshot.capsuleIds == CapsuleIds(CapsulesOf(ms))
  }

  predicate RecordsOk(records: seq<LedgerRecord>) {
    && (forall r <- records :: !Blank(r.kind) && !Blank(r.itemId) && !Blank(r.sourceCapsuleId) && (r.required ==> r.status.Retained?))
    && (forall i, j :: 0 <= i < j < |records| ==>
          (records[i].sourceCapsuleId, records[i].kind, records[i].itemId)
          != (records[j].sourceCapsuleId, records[j].kind, records[j].itemId))
  }

  /** `_apply_reorganization_record_quality_floor`. */
  predicate ReleasesSource(records: seq<LedgerRecord>) {
    exists r <- records :: r.status.Released? && r.kind != "narrative_summary"
  }

  function GateFailures(q: Gate.Submission, records: seq<LedgerRecord>): (r: set<Gate.FailureCode>) {
    Gate.Validate(q).failures + (if ReleasesSource(records) then {Gate.QualityCoverageGap} else {})
  }

  /** The stored capsules of a snapshot row, in membership order; None if one is missing. */
  function Bundle(capsules: map<Id, Capsule>, members: seq<MemberRow>): (r: Option<seq<Capsule>>)
    ensures r.Some? <==> forall i :: 0 <= i < |members| ==> members[i].capsuleId in capsules
    ensures r.Some? ==> |r.value| == |members| && forall i :: 0 <= i < |members| ==> r.value[i] == capsules[members[i].capsuleId]
  {
    if forall i :: 0 <= i < |members| ==> members[i].capsuleId in capsules then
      Some(seq(|members|, i requires 0 <= i < |members| => capsules[members[i].capsuleId]))
    else None
  }

  /** `_memberships_for_snapshot`, `_snapshot_from_row` and `_validate_snapshot_memberships`: the row reads back. */
  predicate RowReadable(t: Tables, row: SnapshotRow, key: SessionKey) {
    var bundle := Bundle(t.capsules, row.members);
    && row.envelope.session == key && key.hash in t.sessions && t.sessions[key.hash].key == key
    && bundle.Some? && bundle.value != []
    && (forall i :: 0 <= i < |bundle.value| ==>
          bundle.value[i].capsuleId == row.members[i].capsuleId && bundle.value[i].session == key)
    && row.envelope.capsuleIds == CapsuleIds(bundle.value)
    && row.envelope.anchorIds == AnchorIds(ActiveAnchors(bundle.value))
    && row.envelope.state.Committed?
  }

  datatype Loaded = Loaded(row: SnapshotRow, capsules: seq<Capsule>)

  /** `_snapshot_bundle_by_id`. */
  function LoadBundle(t: Tables, id: Id, key: SessionKey): (r: Option<Loaded>)
  {
    var row := FindSnapshot(t.snapshots, id);
    if row.Some? && RowReadable(t, row.value, key) then Some(Loaded(row.value, Bundle(t.capsules, row.value.members).value))
    else None
  }

  /** `_insert_or_verify_capsule` over the memberships; None is an integrity conflict. */
  function InsertCapsules(capsules: map<Id, Capsule>, ms: seq<Membership>): (r: Option<map<Id, Capsule>>)
    decreases |ms|
  {
    if ms == [] then Some(capsules)
    else
      var c := ms[0].capsule;
      if c.capsuleId in capsules then
        if capsules[c.capsuleId] == c then InsertCapsules(capsules, ms[1..]) else None
      else if SqlBlank(c.capsuleId) then None
      else InsertCapsules(capsules[c.capsuleId := c], ms[1..])
  }

  function MemberRows(ms: seq<Membership>): (r: seq<MemberRow>)
    ensures |r| == |ms|
    ensures forall i :: 0 <= i < |ms| ==> r[i] == MemberRow(ms[i].slot, ms[i].capsule.capsuleId)
  {
    seq(|ms|, i requires 0 <= i < |ms| => MemberRow(ms[i].slot, ms[i].capsule.capsuleId))
  }

  predicate SnapshotRowRejected(snapshots: seq<SnapshotRow>, e: Snapshot) {
    || SqlBlank(e.snapshotId)
    || FindSnapshot(snapshots, e.snapshotId).Some?
    || exists row <- snapshots :: row.envelope.session.hash == e.session.hash && row.envelope.coverage == e.coverage
  }

  predicate CasWins(t: Tables, job: Job) {
    if job.base.None? then job.session !in t.active
    else job.session in t.active && t.active[job.session] == Pointer(job.base.value, job.baseVersion)
  }

  /** The savepoint: the store with the candidate inserted and the pointer moved, or None on any conflict. */
  function InsertCandidate(t: Tables, job: Job, committed: Snapshot, ms: seq<Membership>): (r: Option<Tables>)
  {
    var capsules := InsertCapsules(t.capsules, ms);
    if capsules.None? then None
    else if SnapshotRowRejected(t.snapshots, committed) then None
    else if exists m <- ms :: SqlBlank(m.slot) then None
    else if !CasWins(t, job) then None
    else
      Some(t.(
        capsules := capsules.value,
        snapshots := t.snapshots + [SnapshotRow(committed, MemberRows(ms))],
        active := t.active[job.session := Pointer(committed.snapshotId, job.baseVersion + 1)]))
  }

  function FinishedJob(job: Job, outcome: PublishOutcome, now: int): (j: Job) {
    job.(state := if outcome.PublishedCommitted? then CommittedJob else SupersededJob,
         owner := None, expires := None, nextRetry := None, updatedAt := now,
         committedAt := if outcome.PublishedCommitted? then Some(now) else None)
  }

  /** `_preserve_follow_up`; None is the uncaught integrity error of a colliding follow-up id. */
  function FollowUp(jobs: seq<Job>, job: Job, winner: Id, coverage: nat, version: nat, id: Id, now: int): (r: Option<seq<Job>>)
  {
    if job.intent <= coverage then Some(jobs)
    else
      var open := FindOpen(jobs, job.session);
      if open.Some? then
        if job.intent > jobs[open.value].intent then
          Some(jobs[open.value := jobs[open.value].(intent := job.intent, updatedAt := now)])
        else Some(jobs)
      else if FindJob(jobs, id).Some? || SqlBlank(id) then None
      else Some(jobs + [NewJob(id, job.session, job.intent, Some(winner), version, now)])
  }

  /** Terminal transition and follow-up of one publication branch. */
  function Finish(s: Store, i: nat, outcome: PublishOutcome, winner: Id, coverage: nat, version: nat, q: PublishRequest):
    (r: Tx<PublishResult>)
    requires i < |s.jobs|
  {
    var done := FinishedJob(s.jobs[i], outcome, q.now);
    if !JobReadable(s.tables, done) then Abort(StoreCorrupt)
    else
      var jobs := FollowUp(s.jobs[i := done], done, winner, coverage, version, q.followUpId, q.now);
      if jobs.None? then Abort(JobConflict)
      else Commit(s.(jobs := jobs.value), PublishResult(outcome, done, winner, version))
  }

  function CommittedEnvelope(candidate: Snapshot, now: int): (e: Snapshot) {
    candidate.(state := Committed, committedAt := Some(now))
  }

  predicate CommitEnvelopeOk(candidate: Snapshot) {
    candidate.audit.mechanicalPassed && !candidate.audit.semantic.AuditFailed? && candidate.audit.failureCodes == []
  }

  /** What the gate compares for the fenced job; None if the job's base does not load. */
  function SubmissionFor(t: Tables, job: Job, key: SessionKey, q: PublishRequest): (r: Option<Gate.Submission>)
  {
    if job.base.None? then
      Some(Gate.Submission(None, [], q.candidate, CapsulesOf(q.memberships),
                           EventsBetween(t.journal, job.session, 0, job.target), job.target, q.tokenCeiling))
    else
      var base := LoadBundle(t, job.base.value, key);
      if base.None? then None
      else
        Some(Gate.Submission(Some(base.value.row.envelope), base.value.capsules, q.candidate, CapsulesOf(q.memberships),
                             EventsBetween(t.journal, job.session, base.value.row.envelope.coverage, job.target),
                             job.target, q.tokenCeiling))
  }

  /** Everything `publish_snapshot` checks before its savepoint, in order. */
  function Admission(s: Store, q: PublishRequest): (r: Read<nat>)
    ensures r.Ok? ==> r.value < |s.jobs| && Fence(s, q.token, q.now) == Some(r.value)
  {
    if q.tokenCeiling < 0 then Failed(InvalidArgument)
    else
      var i := Fence(s, q.token, q.now);
      if i.None? then Failed(StaleLease)
      else
        var job := s.jobs[i.value];
        if !job.state.ReadyToCommit? || job.candidate != Some(q.candidate.snapshotId) || !q.candidate.state.Candidate? then
          Failed(BadTransition)
        else if !JobReadable(s.tables, job) then Failed(StoreCorrupt)
        else
          var key := s.tables.sessions[job.session].key;
          if q.candidate.session != key then Failed(BadTransition)
          else if !MembershipsOk(q.candidate, q.memberships) || !RecordsOk(q.records) then Failed(InvalidCandidate)
          else
            var submission := SubmissionFor(s.tables, job, key, q);
            if submission.None? then Failed(StoreCorrupt)
            else
              var failures := GateFailures(submission.value, q.records);
              if failures != {} then Failed(Rejected(failures))
              else if !CommitEnvelopeOk(q.candidate) then Failed(InvalidArgument)
              else Ok(i.value)
  }

  /** The branch taken after a rolled-back savepoint. */
  function Supersede(s: Store, i: nat, q: PublishRequest): (r: Tx<PublishResult>)
    requires i < |s.jobs|
  {
    var session := s.jobs[i].session;
    if session !in s.tables.active then Abort(NoWinner)
    else
      var pointer := s.tables.active[session];
      var winner := LoadBundle(s.tables, pointer.snapshotId, q.candidate.session);
      if winner.None? then Abort(StoreCorrupt)
      else Finish(s, i, PublishedSuperseded, pointer.snapshotId, winner.value.row.envelope.coverage, pointer.version, q)
  }

  /** Savepoint, terminal transition and follow-up of an admitted publication. */
  function Conclude(s: Store, i: nat, q: PublishRequest): (r: Tx<PublishResult>)
    requires i < |s.jobs|
  {
    var inserted := InsertCandidate(s.tables, s.jobs[i], CommittedEnvelope(q.candidate, q.now), q.memberships);
    if inserted.Some? then
      Finish(Store(inserted.value, s.jobs), i, PublishedCommitted, q.candidate.snapshotId, q.candidate.coverage,
             s.jobs[i].baseVersion + 1, q)
    else Supersede(s, i, q)
  }

  function PublishSnapshot(s: Store, q: PublishRequest): (r: Tx<PublishResult>)
  {
    var admitted := Admission(s, q);
    if admitted.Failed? then Abort(admitted.error) else Conclude(s, admitted.value, q)
  }

  // ----- reads -----

  datatype RequestView = RequestView(
    session: SessionKey, snapshot: Option<Snapshot>, memberships: seq<Membership>,
    version: nat, covered: nat, highWater: nat, delta: seq<Event>)

  function MembershipsFrom(members: seq<MemberRow>, capsules: seq<Capsule>): (ms: seq<Membership>)
    requires |members| == |capsules|
    ensures |ms| == |members|
    ensures forall i :: 0 <= i < |ms| ==> ms[i] == Membership(i, members[i].slot, capsules[i])
  {
    seq(|members|, i requires 0 <= i < |members| => Membership(i, members[i].slot, capsules[i]))
  }

  /** `_read_request_view`. */
  function ReadRequestView(t: Tables, key: SessionKey): (r: Read<RequestView>)
  {
    if key.hash !in t.sessions then Ok(RequestView(key, None, [], 0, 0, 0, []))
    else if t.sessions[key.hash].key != key then Failed(SessionConflict)
    else
      var highWater := t.sessions[key.hash].next - 1;
      if highWater < 0 then Failed(StoreCorrupt)
      else
        var row := if key.hash in t.active then FindSnapshot(t.snapshots, t.active[key.hash].snapshotId) else None;
        if row.Some? && !RowReadable(t, row.value, key) then Failed(StoreCorrupt)
        else
          var covered := if row.Some? then row.value.envelope.coverage else 0;
          var delta := EventsBetween(t.journal, key.hash, covered, highWater);
          if covered > highWater || Gate.Sequences(delta) != Gate.Range(covered, highWater) then Failed(StoreCorrupt)
          else if row.None? then Ok(RequestView(key, None, [], 0, 0, highWater, delta))
          else
            Ok(RequestView(
              key, Some(row.value.envelope), MembershipsFrom(row.value.members, Bundle(t.capsules, row.value.members).value),
              t.active[key.hash].version, covered, highWater, delta))
  }

  /** `read_compaction_view`: the base and delta frozen by one live lease. */
  function ReadCompactionView(s: Store, t: Token, now: int): (r: Read<RequestView>)
  {
    var i := Fence(s, t, now);
    if i.None? then Failed(StaleLease)
    else
      var job := s.jobs[i.value];
      if !job.state.Compiling? && !job.state.Auditing? then Failed(BadTransition)
      else if !JobReadable(s.tables, job) then Failed(StoreCorrupt)
      else
        var key := s.tables.sessions[job.session].key;
        var base := if job.base.Some? then LoadBundle(s.tables, job.base.value, key) else None;
        if job.base.Some? && base.None? then Failed(StoreCorrupt)
        else
          var covered := if base.Some? then base.value.row.envelope.coverage else 0;
          var delta := EventsBetween(s.tables.journal, job.session, covered, job.target);
          if covered > job.target || Gate.Sequences(delta) != Gate.Range(covered, job.target) then Failed(StoreCorrupt)
          else if base.None? then Ok(RequestView(key, None, [], job.baseVersion, 0, job.target, delta))
          else
            Ok(RequestView(key, Some(base.value.row.envelope), MembershipsFrom(base.value.row.members, base.value.capsules),
                           job.baseVersion, covered, job.target, delta))
  }

  /** The request side's own checks, `runtime/read_view.py`. */
  ghost predicate ReaderAccepts(v: RequestView, key: SessionKey) {
    && v.session == key
    && (v.snapshot.None? ==> v.version == 0 && v.covered == 0 && v.memberships == [])
    && (v.snapshot.Some? ==>
          && 1 <= v.version && v.snapshot.value.state.Committed? && v.snapshot.value.session == key
          && v.snapshot.value.coverage == v.covered && v.snapshot.value.sourceHighWater == v.covered
          && CapsuleIds(CapsulesOf(v.memberships)) == v.snapshot.value.capsuleIds
          && (forall i :: 0 <= i < |v.memberships| ==> v.memberships[i].ordinal == i && v.memberships[i].capsule.session == key))
    && v.covered <= v.highWater
    && (forall e <- v.delta :: e.session == key)
    && Gate.Sequences(v.delta) == Gate.Range(v.covered, v.highWater)
  }
}
