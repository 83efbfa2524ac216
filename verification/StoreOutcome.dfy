/** The end of a publication: which branch it takes, and that either branch keeps the invariant. */
module StoreOutcome {
  import opened Common
  import opened Store
  import opened StoreInvariant
  import opened StorePublication

  // ----- job rows -----

  lemma {:induction false} FinishedOk(t: Tables, t': Tables, job: Job, outcome: PublishOutcome, now: int)
    requires JobOk(t, job) && job.state.ReadyToCommit? && t'.sessions == t.sessions
    ensures JobOk(t', FinishedJob(job, outcome, now)) && FinishedJob(job, outcome, now).state.Terminal()
  {
  }

  /** After the terminal transition the session has no open job, and every other row is still right. */
  lemma {:induction false} FinishKeeps(t: Tables, t': Tables, jobs: seq<Job>, i: nat, outcome: PublishOutcome, now: int)
    requires JobsOk(t, jobs) && i < |jobs| && jobs[i].state.ReadyToCommit? && t'.sessions == t.sessions
    requires forall h :: h != jobs[i].session ==> Chain(t'.snapshots, h) == Chain(t.snapshots, h)
    ensures var done := FinishedJob(jobs[i], outcome, now);
      JobsOk(t', jobs[i := done]) && FindOpen(jobs[i := done], jobs[i].session).None?
  {
    var done := FinishedJob(jobs[i], outcome, now);
    var rows := jobs[i := done];
    forall k | 0 <= k < |rows|
      ensures JobOk(t', rows[k]) && (rows[k].session == jobs[i].session ==> rows[k].state.Terminal())
    {
      assert JobOk(t, jobs[k]);
      if k == i {
        FinishedOk(t, t', jobs[i], outcome, now);
      } else {
        assert rows[k] == jobs[k];
      }
    }
  }

  lemma {:induction false} FollowUpKeeps(t: Tables, jobs: seq<Job>, job: Job, winner: Id, coverage: nat, version: nat, id: Id, now: int)
    requires JobsOk(t, jobs) && FindOpen(jobs, job.session).None?
    requires Tip(Chain(t.snapshots, job.session)) == Base(Some(winner), version, coverage) && winner != "" && version >= 1
    requires job.session in t.sessions && job.intent < t.sessions[job.session].next
    ensures var r := FollowUp(jobs, job, winner, coverage, version, id, now);
      && (r.Some? ==> JobsOk(t, r.value))
      && (r.None? <==> coverage < job.intent && (FindJob(jobs, id).Some? || SqlBlank(id)))
  {
    if coverage < job.intent && FindJob(jobs, id).None? && !SqlBlank(id) {
      NewRowKeeps(t, jobs, NewJob(id, job.session, job.intent, Some(winner), version, now));
    }
  }

  /** The digest of the follow-up cannot be used as a new job id. */
  predicate FollowUpBlocked(jobs: seq<Job>, id: Id) {
    FindJob(jobs, id).Some? || SqlBlank(id)
  }

  lemma {:induction false} FindJobUpdate(jobs: seq<Job>, i: nat, job: Job, id: Id)
    requires i < |jobs| && job.jobId == jobs[i].jobId
    ensures FindJob(jobs[i := job], id).Some? <==> FindJob(jobs, id).Some?
  {
    assert forall k :: 0 <= k < |jobs| ==> jobs[i := job][k].jobId == jobs[k].jobId;
  }

  /** One publication branch, over the tables `t'` it leaves. */
  lemma {:induction false} BranchKeeps(t: Tables, t': Tables, jobs: seq<Job>, i: nat, outcome: PublishOutcome, winner: Id, q: PublishRequest)
    requires JobsOk(t, jobs) && BasesOk(t') && i < |jobs| && jobs[i].state.ReadyToCommit? && t'.sessions == t.sessions
    requires forall h :: h != jobs[i].session ==> Chain(t'.snapshots, h) == Chain(t.snapshots, h)
    requires Tip(Chain(t'.snapshots, jobs[i].session)).id == Some(winner)
    ensures var tip := Tip(Chain(t'.snapshots, jobs[i].session));
      var r := Finish(Store(t', jobs), i, outcome, winner, tip.coverage, tip.version, q);
      && (r.Commit? ==>
            && r.store.tables == t' && JobsOk(t', r.store.jobs)
            && r.value == PublishResult(outcome, FinishedJob(jobs[i], outcome, q.now), winner, tip.version))
      && (r.Abort? ==> r.error == JobConflict && tip.coverage < jobs[i].intent && FollowUpBlocked(jobs, q.followUpId))
  {
    var tip := Tip(Chain(t'.snapshots, jobs[i].session));
    var done := FinishedJob(jobs[i], outcome, q.now);
    assert JobOk(t, jobs[i]);
    FinishedOk(t, t', jobs[i], outcome, q.now);
    ReadableUnderInv(t', done);
    FinishKeeps(t, t', jobs, i, outcome, q.now);
    FollowUpKeeps(t', jobs[i := done], done, winner, tip.coverage, tip.version, q.followUpId, q.now);
    FindJobUpdate(jobs, i, done, q.followUpId);
  }

  // ----- the savepoint -----

  /** Under the invariant the compare-and-swap of an open job always wins. */
  lemma {:induction false} CasAlwaysWins(t: Tables, job: Job)
    requires ChainOk(t) && JobOk(t, job) && !job.state.Terminal()
    ensures CasWins(t, job)
  {
    assert PointerOk(t.active, job.session, Chain(t.snapshots, job.session));
  }

  lemma {:induction false} CoverageUpToTip(chain: seq<SnapshotRow>, next: nat, i: nat)
    requires Linked(chain, next) && i < |chain|
    ensures chain[i].envelope.coverage <= Tip(chain).coverage
    decreases |chain|
  {
    var last := |chain| - 1;
    if i < last {
      assert Follows(chain[..last], chain[last], next);
      assert Linked(chain[..last], next) by {
        forall k | 0 <= k < last ensures Follows(chain[..last][..k], chain[..last][k], next) {
          assert chain[..last][..k] == chain[..k];
          assert Follows(chain[..k], chain[k], next);
        }
      }
      CoverageUpToTip(chain[..last], next, i);
    }
  }

  /** No stored row of the session has the candidate's coverage. */
  lemma {:induction false} CoverageIsNew(t: Tables, h: string, coverage: nat)
    requires ChainOk(t) && h in t.sessions && Tip(Chain(t.snapshots, h)).coverage < coverage
    ensures forall row <- t.snapshots :: row.envelope.session.hash == h ==> row.envelope.coverage != coverage
  {
    hide DistinctIds, PointerOk;
    var chain := Chain(t.snapshots, h);
    assert Linked(chain, t.sessions[h].next);
    hide Linked, ChainOk, Chain;
    forall row | row in t.snapshots && row.envelope.session.hash == h ensures row.envelope.coverage != coverage {
      assert row in chain;
      var i :| 0 <= i < |chain| && chain[i] == row;
      CoverageUpToTip(chain, t.sessions[h].next, i);
    }
  }

  /** The candidate's identity collides: its snapshot id is taken, or one of its capsule rows is refused. */
  predicate Collides(t: Tables, q: PublishRequest) {
    || FindSnapshot(t.snapshots, q.candidate.snapshotId).Some?
    || exists i :: 0 <= i < |q.memberships| && CapsuleRejected(t.capsules, q.memberships[i].capsule)
  }

  lemma {:induction false} SavepointCases(t: Tables, job: Job, q: PublishRequest)
    requires CasWins(t, job) && DistinctCapsules(q.memberships)
    requires !SqlBlank(q.candidate.snapshotId) && (forall m <- q.memberships :: !SqlBlank(m.slot))
    requires forall row <- t.snapshots ::
      row.envelope.session.hash == q.candidate.session.hash ==> row.envelope.coverage != q.candidate.coverage
    ensures var inserted := InsertCandidate(t, job, CommittedEnvelope(q.candidate, q.now), q.memberships);
      && (inserted.None? <==> Collides(t, q))
      && (inserted.Some? ==> CandidateInserted(t, inserted.value, job, q))
  {
    InsertCapsulesMeaning(t.capsules, q.memberships);
  }

  /** The savepoint rolls back exactly on an identity collision. */
  lemma {:induction false} SavepointIff(t: Tables, job: Job, q: PublishRequest)
    requires ChainOk(t) && JobOk(t, job) && job.state.ReadyToCommit? && job.candidate == Some(q.candidate.snapshotId)
    requires Publishable(t, job, q) && (forall m <- q.memberships :: !Blank(m.slot))
    ensures var inserted := InsertCandidate(t, job, CommittedEnvelope(q.candidate, q.now), q.memberships);
      && (inserted.None? <==> Collides(t, q))
      && (inserted.Some? ==> CandidateInserted(t, inserted.value, job, q))
  {
    CasAlwaysWins(t, job);
    CoverageIsNew(t, job.session, q.candidate.coverage);
    SavepointCases(t, job, q);
  }

  // ----- publication -----

  /** What the publication of job `i` may come to: superseded exactly on a collision, aborted only for want of a
      winner or of a fresh follow-up id. */
  ghost predicate OutcomeOk(s: Store, i: nat, q: PublishRequest, r: Tx<PublishResult>)
    requires i < |s.jobs|
  {
    && (r.Commit? ==>
          && Inv(r.store)
          && (r.value.outcome.PublishedSuperseded? <==> Collides(s.tables, q))
          && r.value.job == FinishedJob(s.jobs[i], r.value.outcome, q.now))
    && (r == Abort(NoWinner) <==> Collides(s.tables, q) && s.jobs[i].session !in s.tables.active)
    && (r.Abort? ==> r.error == NoWinner || (r.error == JobConflict && FollowUpBlocked(s.jobs, q.followUpId)))
  }

  /** Where the pointer stands after the candidate was inserted. */
  lemma {:induction false} CommittedTip(t: Tables, t': Tables, job: Job, q: PublishRequest)
    requires JobOk(t, job) && !job.state.Terminal() && Publishable(t, job, q) && CandidateInserted(t, t', job, q)
    ensures t'.sessions == t.sessions && forall h :: h != job.session ==> Chain(t'.snapshots, h) == Chain(t.snapshots, h)
    ensures Tip(Chain(t'.snapshots, job.session)) == Base(Some(q.candidate.snapshotId), job.baseVersion + 1, q.candidate.coverage)
  {
    InsertedTip(t, t', job, q);
  }

  /** The committed branch. */
  lemma {:induction false} CommitBranch(s: Store, i: nat, q: PublishRequest, t': Tables)
    requires Inv(s) && i < |s.jobs| && s.jobs[i].state.ReadyToCommit? && !Collides(s.tables, q)
    requires Publishable(s.tables, s.jobs[i], q) && CandidateInserted(s.tables, t', s.jobs[i], q)
    ensures OutcomeOk(s, i, q,
      Finish(Store(t', s.jobs), i, PublishedCommitted, q.candidate.snapshotId, q.candidate.coverage, s.jobs[i].baseVersion + 1, q))
  {
    hide TablesOk, Finish, Collides, Chain, Publishable, CandidateInserted, JobOk, BasesOk, FollowUpBlocked, FinishedJob;
    assert JobOk(s.tables, s.jobs[i]);
    PublishedTablesOk(s.tables, t', s.jobs[i], q);
    BasesFromTables(t');
    CommittedTip(s.tables, t', s.jobs[i], q);
    BranchKeeps(s.tables, t', s.jobs, i, PublishedCommitted, q.candidate.snapshotId, q);
  }

  /** The superseded branch needs a winner, which then loads and is the chain's tip. */
  lemma {:induction false} SupersedeBranch(s: Store, i: nat, q: PublishRequest)
    requires Inv(s) && i < |s.jobs| && s.jobs[i].state.ReadyToCommit? && Collides(s.tables, q)
    requires Publishable(s.tables, s.jobs[i], q)
    ensures OutcomeOk(s, i, q, Supersede(s, i, q))
  {
    var t, job := s.tables, s.jobs[i];
    if job.session in t.active {
      assert PointerOk(t.active, job.session, Chain(t.snapshots, job.session));
      LoadTip(t, job.session, q.candidate.session);
      BasesFromTables(t);
      BranchKeeps(t, t, s.jobs, i, PublishedSuperseded, t.active[job.session].snapshotId, q);
    }
  }

  lemma {:induction false} ConcludeOutcomes(s: Store, i: nat, q: PublishRequest)
    requires Inv(s) && i < |s.jobs| && s.jobs[i].state.ReadyToCommit? && Publishable(s.tables, s.jobs[i], q)
    requires var inserted := InsertCandidate(s.tables, s.jobs[i], CommittedEnvelope(q.candidate, q.now), q.memberships);
      && (inserted.None? <==> Collides(s.tables, q))
      && (inserted.Some? ==> CandidateInserted(s.tables, inserted.value, s.jobs[i], q))
    ensures OutcomeOk(s, i, q, Conclude(s, i, q))
  {
    hide Inv, OutcomeOk, Publishable, CandidateInserted, InsertCandidate, Collides;
    if Collides(s.tables, q) {
      SupersedeBranch(s, i, q);
    } else {
      CommitBranch(s, i, q, InsertCandidate(s.tables, s.jobs[i], CommittedEnvelope(q.candidate, q.now), q.memberships).value);
    }
  }

  /** An admitted publication, case by case. */
  lemma {:induction false} AdmittedOutcomes(s: Store, q: PublishRequest)
    requires Inv(s) && Admission(s, q).Ok?
    ensures OutcomeOk(s, Admission(s, q).value, q, PublishSnapshot(s, q))
  {
    hide OutcomeOk, Publishable, CandidateInserted, InsertCandidate, Collides;
    var i := Admission(s, q).value;
    AdmissionMeans(s, q);
    SavepointIff(s.tables, s.jobs[i], q);
    ConcludeOutcomes(s, i, q);
  }

  lemma {:induction false} PublishKeeps(s: Store, q: PublishRequest)
    requires Inv(s)
    ensures PublishSnapshot(s, q).Commit? ==> Inv(PublishSnapshot(s, q).store)
    ensures PublishSnapshot(s, q) != Abort(StoreCorrupt)
  {
    if Admission(s, q).Ok? {
      AdmittedOutcomes(s, q);
    } else {
      AdmissionNeverCorrupt(s, q);
    }
  }
}
