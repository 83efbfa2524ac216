/** What a publication does to a reachable store, row by row and field by field, and with which error it is refused. */
module StorePublished {
  import opened Common
  import opened Domain
  import opened Store
  import opened StoreCalls
  import opened StoreInvariant
  import opened StorePublication
  import opened StoreOutcome
  import opened StoreRuns
  import opened StoreFencing
  import Effects = StoreEffects
  import Gate = PublicationGate
  import Report = GateReport

  // ----- admission -----

  /** What the gate compares for a job: the end of the session's chain with its capsules, the candidate with its
      capsules, and the journal between the two coverages. */
  ghost function Compared(t: Tables, job: Job, q: PublishRequest): (sub: Gate.Submission) {
    var chain := Chain(t.snapshots, job.session);
    Gate.Submission(
      if chain == [] then None else Some(chain[|chain| - 1].envelope),
      if chain == [] then [] else CapsulesIn(t.capsules, chain[|chain| - 1]),
      q.candidate, CapsulesOf(q.memberships), EventsBetween(t.journal, job.session, Tip(chain).coverage, job.target),
      job.target, q.tokenCeiling)
  }

  /** The memberships are numbered, named and distinct, and are those of the candidate. */
  ghost predicate MembersListed(q: PublishRequest) {
    && |q.memberships| > 0 && |q.candidate.capsuleIds| == |q.memberships|
    && (forall i :: 0 <= i < |q.memberships| ==>
          && q.memberships[i].ordinal == i && !Blank(q.memberships[i].slot)
          && q.candidate.capsuleIds[i] == q.memberships[i].capsule.capsuleId)
    && (forall i, j :: 0 <= i < j < |q.memberships| ==> q.memberships[i].capsule.capsuleId != q.memberships[j].capsule.capsuleId)
  }

  ghost predicate SameRecord(a: LedgerRecord, b: LedgerRecord) {
    a.sourceCapsuleId == b.sourceCapsuleId && a.kind == b.kind && a.itemId == b.itemId
  }

  /** The ledger records are named and distinct, and what is required is retained. */
  ghost predicate RecordsListed(q: PublishRequest) {
    && (forall r <- q.records :: !Blank(r.kind) && !Blank(r.itemId) && !Blank(r.sourceCapsuleId) && (r.required ==> r.status == Retained))
    && (forall i, j :: 0 <= i < j < |q.records| ==> !SameRecord(q.records[i], q.records[j]))
  }

  /** The gate reports the code for the compared submission, or the ledger releases something that is not a summary. */
  ghost predicate Failing(t: Tables, job: Job, q: PublishRequest, code: Gate.FailureCode) {
    || Report.Stated(Compared(t, job, q), code)
    || (code == Gate.QualityCoverageGap && exists r <- q.records :: r.status == Released && r.kind != "narrative_summary")
  }

  /** What admission says to the worker that holds row `i`. */
  ghost predicate Judged(s: Store, i: nat, q: PublishRequest, r: Read<nat>)
    requires i < |s.jobs| && s.jobs[i].session in s.tables.sessions
  {
    var job := s.jobs[i];
    if !(job.state == ReadyToCommit && job.candidate == Some(q.candidate.snapshotId) && q.candidate.state == Candidate
         && q.candidate.session == s.tables.sessions[job.session].key) then
      r == Failed(BadTransition)
    else if !MembersListed(q) || !RecordsListed(q) then r == Failed(InvalidCandidate)
    else if exists code :: Failing(s.tables, job, q, code) then
      && r.Failed? && r.error.Rejected? && forall code :: code in r.error.failures <==> Failing(s.tables, job, q, code)
    else if !(q.candidate.audit.mechanicalPassed && q.candidate.audit.semantic != AuditFailed && |q.candidate.audit.failureCodes| == 0) then
      r == Failed(InvalidArgument)
    else r == Ok(i)
  }

  ghost predicate AdmissionEffect(s: Store, q: PublishRequest, r: Read<nat>) {
    if q.tokenCeiling < 0 then r == Failed(InvalidArgument)
    else
      && (forall i: nat :: Effects.Holds(s, q.token, q.now, i) ==> s.jobs[i].session in s.tables.sessions && Judged(s, i, q, r))
      && ((forall i: nat :: !Effects.Holds(s, q.token, q.now, i)) ==> r == Failed(StaleLease))
  }

  lemma {:induction false} ListedIff(q: PublishRequest)
    ensures MembershipsOk(q.candidate, q.memberships) <==> MembersListed(q)
    ensures RecordsOk(q.records) <==> RecordsListed(q)
  {
    if MembersListed(q) {
      assert q.candidate.capsuleIds == CapsuleIds(CapsulesOf(q.memberships));
    }
  }

  lemma {:induction false} SubmissionIsCompared(t: Tables, job: Job, q: PublishRequest)
    requires JournalOk(t) && ChainOk(t) && BundlesOk(t) && JobOk(t, job) && !job.state.Terminal()
    ensures SubmissionFor(t, job, t.sessions[job.session].key, q) == Some(Compared(t, job, q))
  {
    hide JournalOk, ChainOk, BundlesOk, JobOk, SubmissionFor, CapsulesIn, EventsBetween, Chain, Tip;
    SubmissionUnderInv(t, job, q);
  }

  lemma {:induction false} FailingIff(t: Tables, job: Job, q: PublishRequest, code: Gate.FailureCode)
    ensures code in GateFailures(Compared(t, job, q), q.records) <==> Failing(t, job, q, code)
  {
    Report.CodesMean(Compared(t, job, q), code);
    hide Compared, Report.Stated, Gate.Validate;
  }

  lemma {:induction false} JudgedHeld(s: Store, i: nat, q: PublishRequest)
    requires Fence(s, q.token, q.now) == Some(i) && q.tokenCeiling >= 0
    requires s.jobs[i].session in s.tables.sessions && JobReadable(s.tables, s.jobs[i])
    requires SubmissionFor(s.tables, s.jobs[i], s.tables.sessions[s.jobs[i].session].key, q) == Some(Compared(s.tables, s.jobs[i], q))
    ensures Judged(s, i, q, Admission(s, q))
  {
    hide Fence, JobReadable, SubmissionFor, Compared, GateFailures, Failing, MembersListed, RecordsListed, MembershipsOk, RecordsOk;
    ListedIff(q);
    forall code ensures code in GateFailures(Compared(s.tables, s.jobs[i], q), q.records) <==> Failing(s.tables, s.jobs[i], q, code) {
      FailingIff(s.tables, s.jobs[i], q, code);
    }
  }

  lemma {:induction false} HeldRow(s: Store, i: nat, q: PublishRequest)
    requires Inv(s) && Fence(s, q.token, q.now) == Some(i)
    ensures s.jobs[i].session in s.tables.sessions && JobReadable(s.tables, s.jobs[i])
    ensures SubmissionFor(s.tables, s.jobs[i], s.tables.sessions[s.jobs[i].session].key, q) == Some(Compared(s.tables, s.jobs[i], q))
  {
    hide JournalOk, ChainOk, BundlesOk, LinksOk, SubmissionFor, Compared;
    assert JobOk(s.tables, s.jobs[i]);
    OpenFence(s, q.token, q.now);
    BasesFromTables(s.tables);
    ReadableUnderInv(s.tables, s.jobs[i]);
    SubmissionIsCompared(s.tables, s.jobs[i], q);
  }

  lemma {:induction false} AdmissionIs(s: Store, q: PublishRequest)
    requires Inv(s)
    ensures AdmissionEffect(s, q, Admission(s, q))
  {
    ReachableUnique(s);
    hide Inv, Effects.Holds, Judged, Fence;
    if q.tokenCeiling >= 0 {
      forall i: nat | Effects.Holds(s, q.token, q.now, i) ensures s.jobs[i].session in s.tables.sessions && Judged(s, i, q, Admission(s, q)) {
        Effects.HolderIsFound(s, q.token, q.now, i);
        HeldRow(s, i, q);
        JudgedHeld(s, i, q);
      }
      if Fence(s, q.token, q.now).Some? {
        Effects.FoundHolds(s, q.token, q.now);
      }
    }
  }

  // ----- the published row and its follow-up -----

  /** The published job: only state, lease, retry and times change, and only a COMMITTED one has a commit time. */
  ghost predicate FinishedRow(a: Job, outcome: PublishOutcome, now: int, b: Job) {
    && Effects.SameWork(a, b) && Effects.SameErrors(a, b) && b.candidate == a.candidate && b.attempts == a.attempts
    && Effects.Released(b) && b.nextRetry.None? && b.updatedAt == now
    && (outcome == PublishedCommitted ==> b.state == CommittedJob && b.committedAt == Some(now))
    && (outcome == PublishedSuperseded ==> b.state == SupersededJob && b.committedAt.None?)
  }

  /** What becomes of the job rows when `tip` is the winner: row `i` is finished, the others stay, and an intent beyond
      the winner's coverage goes on in one fresh row based on the winner. */
  ghost predicate Left(s: Store, t': Tables, i: nat, outcome: PublishOutcome, tip: Base, q: PublishRequest, r: Tx<PublishResult>)
    requires i < |s.jobs| && tip.id.Some?
  {
    var a := s.jobs[i];
    if tip.coverage < a.intent && (Effects.IdUsed(s, q.followUpId) || SqlBlank(q.followUpId)) then r == Abort(JobConflict)
    else
      && r.Commit? && r.store.tables == t' && r.value.outcome == outcome
      && r.value.winner == tip.id.value && r.value.version == tip.version
      && |r.store.jobs| == |s.jobs| + (if tip.coverage < a.intent then 1 else 0)
      && r.store.jobs[i] == r.value.job && FinishedRow(a, outcome, q.now, r.value.job)
      && (forall k :: 0 <= k < |s.jobs| && k != i ==> r.store.jobs[k] == s.jobs[k])
      && (tip.coverage < a.intent ==>
            Effects.FreshRow(r.store.jobs[|s.jobs|], q.followUpId, a.session, a.intent, tip.id, tip.version, q.now))
  }

  lemma {:induction false} FinishedJobIs(a: Job, outcome: PublishOutcome, now: int)
    ensures FinishedRow(a, outcome, now, FinishedJob(a, outcome, now))
  {
  }

  lemma {:induction false} FinishLeaves(s: Store, t': Tables, i: nat, outcome: PublishOutcome, tip: Base, q: PublishRequest)
    requires i < |s.jobs| && tip.id.Some?
    requires var done := FinishedJob(s.jobs[i], outcome, q.now);
      JobReadable(t', done) && FindOpen(s.jobs[i := done], s.jobs[i].session).None?
    ensures Left(s, t', i, outcome, tip, q, Finish(Store(t', s.jobs), i, outcome, tip.id.value, tip.coverage, tip.version, q))
  {
    var done := FinishedJob(s.jobs[i], outcome, q.now);
    FinishedJobIs(s.jobs[i], outcome, q.now);
    FindJobUpdate(s.jobs, i, done, q.followUpId);
    hide JobReadable, FinishedRow, FindOpen;
  }

  lemma {:induction false} BranchLeaves(s: Store, t': Tables, i: nat, outcome: PublishOutcome, tip: Base, q: PublishRequest)
    requires JobsOk(s.tables, s.jobs) && BasesOk(t') && i < |s.jobs| && s.jobs[i].state.ReadyToCommit?
    requires t'.sessions == s.tables.sessions && tip == Tip(Chain(t'.snapshots, s.jobs[i].session)) && tip.id.Some?
    requires forall h :: h != s.jobs[i].session ==> Chain(t'.snapshots, h) == Chain(s.tables.snapshots, h)
    ensures Left(s, t', i, outcome, tip, q, Finish(Store(t', s.jobs), i, outcome, tip.id.value, tip.coverage, tip.version, q))
  {
    hide Chain, FinishedJob, Left;
    assert JobOk(s.tables, s.jobs[i]);
    FinishedOk(s.tables, t', s.jobs[i], outcome, q.now);
    ReadableUnderInv(t', FinishedJob(s.jobs[i], outcome, q.now));
    FinishKeeps(s.tables, t', s.jobs, i, outcome, q.now);
    FinishLeaves(s, t', i, outcome, tip, q);
  }

  // ----- the tables -----

  /** The snapshot row of a committed candidate: its envelope, marked committed now, and its capsules by slot. */
  ghost predicate CommittedRow(q: PublishRequest, row: SnapshotRow) {
    var c, e := q.candidate, row.envelope;
    && e.state == Committed && e.committedAt == Some(q.now)
    && e.snapshotId == c.snapshotId && e.session == c.session && e.base == c.base && e.coverage == c.coverage
    && e.sourceHighWater == c.sourceHighWater && e.capsuleIds == c.capsuleIds && e.anchorIds == c.anchorIds
    && e.rendered == c.rendered && e.tokenCost == c.tokenCost && e.audit == c.audit && e.createdAt == c.createdAt
    && |row.members| == |q.memberships|
    && forall k :: 0 <= k < |row.members| ==>
         row.members[k].slot == q.memberships[k].slot && row.members[k].capsuleId == q.memberships[k].capsule.capsuleId
  }

  /** One row more at the end of the snapshots, the pointer on it, and the capsules of the candidate beside the old. */
  ghost predicate TablesWith(t: Tables, job: Job, q: PublishRequest, t': Tables) {
    && t'.sessions == t.sessions && t'.journal == t.journal
    && |t'.snapshots| == |t.snapshots| + 1 && t'.snapshots[..|t.snapshots|] == t.snapshots
    && CommittedRow(q, t'.snapshots[|t.snapshots|])
    && job.session in t'.active && t'.active[job.session].snapshotId == q.candidate.snapshotId
    && t'.active[job.session].version == job.baseVersion + 1
    && (forall h :: h != job.session ==> (h in t'.active <==> h in t.active))
    && (forall h :: h != job.session && h in t.active ==> t'.active[h] == t.active[h])
    && Inserted(t.capsules, q.memberships, t'.capsules)
  }

  /** An id of the candidate is taken by something else, or cannot be stored. */
  ghost predicate IdentityTaken(t: Tables, q: PublishRequest) {
    || (exists row <- t.snapshots :: row.envelope.snapshotId == q.candidate.snapshotId)
    || (exists m <- q.memberships ::
          if m.capsule.capsuleId in t.capsules then t.capsules[m.capsule.capsuleId] != m.capsule else SqlBlank(m.capsule.capsuleId))
  }

  /** What becomes of an admitted publication: COMMITTED over new tables, or, when an identity is taken, SUPERSEDED by
      the active snapshot, if there is one. */
  ghost predicate Concluded(s: Store, i: nat, q: PublishRequest, r: Tx<PublishResult>)
    requires i < |s.jobs|
  {
    var job := s.jobs[i];
    var tip := Tip(Chain(s.tables.snapshots, job.session));
    if IdentityTaken(s.tables, q) then
      if tip.id.None? then r == Abort(NoWinner) else Left(s, s.tables, i, PublishedSuperseded, tip, q, r)
    else
      exists t' :: TablesWith(s.tables, job, q, t')
        && Left(s, t', i, PublishedCommitted, Base(Some(q.candidate.snapshotId), job.baseVersion + 1, job.target), q, r)
  }

  /** A publication is admitted, or refused with the error of the first check that fails. */
  ghost predicate PublishEffect(s: Store, q: PublishRequest, r: Tx<PublishResult>) {
    exists admitted: Read<nat> :: AdmissionEffect(s, q, admitted)
      && if admitted.Failed? then r == Abort(admitted.error) else admitted.value < |s.jobs| && Concluded(s, admitted.value, q, r)
  }

  lemma {:induction false} CollidesIff(t: Tables, q: PublishRequest)
    ensures Collides(t, q) <==> IdentityTaken(t, q)
  {
  }

  lemma {:induction false} InsertedTables(t: Tables, t': Tables, job: Job, q: PublishRequest)
    requires CandidateInserted(t, t', job, q) && DistinctCapsules(q.memberships)
    ensures TablesWith(t, job, q, t')
  {
    hide Inserted;
    InsertCapsulesMeaning(t.capsules, q.memberships);
  }

  lemma {:induction false} CommittedLeaves(s: Store, i: nat, q: PublishRequest, t': Tables)
    requires Inv(s) && i < |s.jobs| && s.jobs[i].state.ReadyToCommit?
    requires Publishable(s.tables, s.jobs[i], q) && CandidateInserted(s.tables, t', s.jobs[i], q)
    ensures var tip := Base(Some(q.candidate.snapshotId), s.jobs[i].baseVersion + 1, s.jobs[i].target);
      && TablesWith(s.tables, s.jobs[i], q, t')
      && Left(s, t', i, PublishedCommitted, tip, q,
              Finish(Store(t', s.jobs), i, PublishedCommitted, q.candidate.snapshotId, q.candidate.coverage, s.jobs[i].baseVersion + 1, q))
  {
    hide TablesOk, Finish, Chain, CandidateInserted, JobOk, BasesOk, TablesWith, Left;
    assert JobOk(s.tables, s.jobs[i]);
    PublishedTablesOk(s.tables, t', s.jobs[i], q);
    BasesFromTables(t');
    CommittedTip(s.tables, t', s.jobs[i], q);
    InsertedTables(s.tables, t', s.jobs[i], q);
    BranchLeaves(s, t', i, PublishedCommitted, Tip(Chain(t'.snapshots, s.jobs[i].session)), q);
  }

  lemma {:induction false} SupersededLeaves(s: Store, i: nat, q: PublishRequest)
    requires Inv(s) && i < |s.jobs| && s.jobs[i].state.ReadyToCommit? && Publishable(s.tables, s.jobs[i], q)
    ensures var tip := Tip(Chain(s.tables.snapshots, s.jobs[i].session));
      if tip.id.None? then Supersede(s, i, q) == Abort(NoWinner) else Left(s, s.tables, i, PublishedSuperseded, tip, q, Supersede(s, i, q))
  {
    hide JournalOk, BundlesOk, LinksOk, JobsOk, Chain, Left, Finish, LoadBundle;
    var t, job := s.tables, s.jobs[i];
    assert PointerOk(t.active, job.session, Chain(t.snapshots, job.session));
    if job.session in t.active {
      LoadTip(t, job.session, q.candidate.session);
      BasesFromTables(t);
      BranchLeaves(s, t, i, PublishedSuperseded, Tip(Chain(t.snapshots, job.session)), q);
    }
  }

  lemma {:induction false} ConcludeIs(s: Store, i: nat, q: PublishRequest)
    requires Inv(s) && i < |s.jobs| && s.jobs[i].state.ReadyToCommit? && Publishable(s.tables, s.jobs[i], q)
    requires var inserted := InsertCandidate(s.tables, s.jobs[i], CommittedEnvelope(q.candidate, q.now), q.memberships);
      && (inserted.None? <==> Collides(s.tables, q))
      && (inserted.Some? ==> CandidateInserted(s.tables, inserted.value, s.jobs[i], q))
    ensures Concluded(s, i, q, Conclude(s, i, q))
  {
    hide Inv, Publishable, CandidateInserted, InsertCandidate, Collides, IdentityTaken, Finish, Supersede, TablesWith, Left, Chain;
    CollidesIff(s.tables, q);
    var inserted := InsertCandidate(s.tables, s.jobs[i], CommittedEnvelope(q.candidate, q.now), q.memberships);
    if inserted.Some? {
      CommittedLeaves(s, i, q, inserted.value);
    } else {
      SupersededLeaves(s, i, q);
    }
  }

  lemma {:induction false} PublishIs(s: Store, q: PublishRequest)
    requires Inv(s)
    ensures PublishEffect(s, q, PublishSnapshot(s, q))
  {
    hide Inv, Concluded, Conclude, Publishable, CandidateInserted, InsertCandidate, Collides, Admission, AdmissionEffect, JobOk, ChainOk;
    AdmissionIs(s, q);
    var admitted := Admission(s, q);
    if admitted.Ok? {
      AdmissionMeans(s, q);
      AdmittedRow(s, admitted.value);
      SavepointIff(s.tables, s.jobs[admitted.value], q);
      ConcludeIs(s, admitted.value, q);
    }
  }

  lemma {:induction false} AdmittedRow(s: Store, i: nat)
    requires Inv(s) && i < |s.jobs|
    ensures ChainOk(s.tables) && JobOk(s.tables, s.jobs[i])
  {
    hide JournalOk, BundlesOk, LinksOk, ChainOk, JobOk;
  }

  /** In every reachable store a publication has exactly its effect or its error. */
  lemma {:induction false} PublicationsMean(calls: seq<Call>, q: PublishRequest)
    ensures var s := Execute(EMPTY, calls); PublishEffect(s, q, PublishSnapshot(s, q))
  {
    hide Inv, PublishEffect;
    ReachableInv(calls);
    PublishIs(Execute(EMPTY, calls), q);
  }
}
