/** What holds in every state that a run can reach. */
module StoreRuns {
  import opened Common
  import opened Store
  import opened StoreCalls
  import opened StoreInvariant
  import opened StoreGrowth
  import opened StorePublication
  import opened StoreOutcome

  // ----- the invariant over runs -----

  lemma {:induction false} ApplyKeeps(s: Store, c: Call)
    requires Inv(s)
    ensures Inv(Apply(s, c))
  {
    hide TablesOk, JobsOk;
    assert BasesOk(s.tables) by {
      BasesFromTables(s.tables);
    }
    match c
    case Capture(q) => CaptureKeeps(s, q);
    case Raise(q) => RaiseIntentKeeps(s, q);
    case ClaimNext(q) => ClaimKeeps(s, q);
    case Move(t, to, candidate, now) => TransitionKeeps(s, t, to, candidate, now);
    case Extend(t, now, until) => RenewKeeps(s, t, now, until);
    case GiveUp(q) => FailKeeps(s, q);
    case Sweep(now) => RecoverKeeps(s, now);
    case Submit(q) => PublishKeeps(s, q);
  }

  lemma {:induction false} ExecuteKeeps(s: Store, calls: seq<Call>)
    requires Inv(s)
    ensures Inv(Execute(s, calls))
    decreases |calls|
  {
    if calls != [] {
      ExecuteKeeps(s, calls[..|calls| - 1]);
      ApplyKeeps(Execute(s, calls[..|calls| - 1]), calls[|calls| - 1]);
    }
  }

  /** Every state reachable from the empty store satisfies the invariant. */
  lemma {:induction false} ReachableInv(calls: seq<Call>)
    ensures Inv(Execute(EMPTY, calls))
  {
    InitHolds();
    ExecuteKeeps(EMPTY, calls);
  }

  /** In every reachable state each session has at most one open job; that job is based on the active pointer,
      its intent and target exceed the active coverage, and no job was ever cancelled. */
  lemma {:induction false} OpenJobs(calls: seq<Call>)
    ensures var s := Execute(EMPTY, calls);
      && (forall i, j :: 0 <= i < j < |s.jobs| && s.jobs[i].session == s.jobs[j].session ==>
            s.jobs[i].state.Terminal() || s.jobs[j].state.Terminal())
      && (forall i :: 0 <= i < |s.jobs| ==> s.jobs[i].WellFormed() && !s.jobs[i].state.CancelledJob?)
      && (forall i :: 0 <= i < |s.jobs| && !s.jobs[i].state.Terminal() ==>
            var base := ActiveBase(s.tables, s.jobs[i].session);
            && base.Some? && s.jobs[i].base == base.value.id && s.jobs[i].baseVersion == base.value.version
            && base.value.coverage < s.jobs[i].target <= s.jobs[i].intent
            && CasWins(s.tables, s.jobs[i]))
  {
    var s := Execute(EMPTY, calls);
    ReachableInv(calls);
    OpenJobsUnderInv(s);
  }

  lemma {:induction false} OpenJobUnderInv(t: Tables, job: Job)
    requires ChainOk(t) && JobOk(t, job) && !job.state.Terminal()
    ensures var base := ActiveBase(t, job.session);
      && base.Some? && job.base == base.value.id && job.baseVersion == base.value.version
      && base.value.coverage < job.target <= job.intent && CasWins(t, job)
  {
    ActiveIsTip(t, job.session);
    CasAlwaysWins(t, job);
  }

  lemma {:induction false} OpenJobsUnderInv(s: Store)
    requires Inv(s)
    ensures
      && (forall i, j :: 0 <= i < j < |s.jobs| && s.jobs[i].session == s.jobs[j].session ==>
            s.jobs[i].state.Terminal() || s.jobs[j].state.Terminal())
      && (forall i :: 0 <= i < |s.jobs| ==> s.jobs[i].WellFormed() && !s.jobs[i].state.CancelledJob?)
      && (forall i :: 0 <= i < |s.jobs| && !s.jobs[i].state.Terminal() ==>
            var base := ActiveBase(s.tables, s.jobs[i].session);
            && base.Some? && s.jobs[i].base == base.value.id && s.jobs[i].baseVersion == base.value.version
            && base.value.coverage < s.jobs[i].target <= s.jobs[i].intent
            && CasWins(s.tables, s.jobs[i]))
  {
    hide ActiveBase, CasWins, Job.WellFormed;
    forall i | 0 <= i < |s.jobs|
      ensures s.jobs[i].WellFormed() && !s.jobs[i].state.CancelledJob?
      ensures !s.jobs[i].state.Terminal() ==>
        var base := ActiveBase(s.tables, s.jobs[i].session);
        && base.Some? && s.jobs[i].base == base.value.id && s.jobs[i].baseVersion == base.value.version
        && base.value.coverage < s.jobs[i].target <= s.jobs[i].intent
        && CasWins(s.tables, s.jobs[i])
    {
      assert JobOk(s.tables, s.jobs[i]);
      if !s.jobs[i].state.Terminal() {
        OpenJobUnderInv(s.tables, s.jobs[i]);
      }
    }
  }

  /** A publication in a reachable state is superseded exactly when the candidate's identity collides. */
  lemma {:induction false} SupersededIff(calls: seq<Call>, q: PublishRequest)
    ensures var s := Execute(EMPTY, calls); var admitted := Admission(s, q);
      admitted.Ok? ==> OutcomeOk(s, admitted.value, q, PublishSnapshot(s, q))
  {
    ReachableInv(calls);
    var s := Execute(EMPTY, calls);
    if Admission(s, q).Ok? {
      AdmittedOutcomes(s, q);
    }
  }

  function ErrorOf<T>(r: Tx<T>): (e: Option<Error>) {
    if r.Abort? then Some(r.error) else None
  }

  /** What a call reports if it aborts. */
  function Complaint(s: Store, c: Call): (e: Option<Error>) {
    match c
    case Capture(q) => ErrorOf(CaptureEvent(s, q))
    case Raise(q) => ErrorOf(RaiseIntent(s, q))
    case ClaimNext(q) => ErrorOf(ClaimJob(s, q))
    case Move(t, to, candidate, now) => ErrorOf(TransitionJob(s, t, to, candidate, now))
    case Extend(t, now, until) => ErrorOf(RenewLease(s, t, now, until))
    case GiveUp(q) => ErrorOf(FailJob(s, q))
    case Sweep(now) => ErrorOf(RecoverLeases(s, now))
    case Submit(q) => ErrorOf(PublishSnapshot(s, q))
  }

  /** No call on a reachable store ever finds its rows inconsistent. */
  lemma {:induction false} NeverCorrupt(calls: seq<Call>, c: Call)
    ensures Complaint(Execute(EMPTY, calls), c) != Some(StoreCorrupt)
  {
    hide TablesOk, JobsOk;
    ReachableInv(calls);
    var s := Execute(EMPTY, calls);
    assert BasesOk(s.tables) by {
      BasesFromTables(s.tables);
    }
    match c
    case Capture(q) => CaptureKeeps(s, q);
    case Raise(q) => RaiseIntentKeeps(s, q);
    case ClaimNext(q) => ClaimKeeps(s, q);
    case Move(t, to, candidate, now) => TransitionKeeps(s, t, to, candidate, now);
    case Extend(t, now, until) => RenewKeeps(s, t, now, until);
    case GiveUp(q) => FailKeeps(s, q);
    case Sweep(now) => RecoverKeeps(s, now);
    case Submit(q) => PublishKeeps(s, q);
  }

  /** What a committed publication of job `i` does: the candidate becomes the active snapshot one version on, covering
      exactly the job's target. A superseded one leaves every table as it was. */
  ghost predicate Advances(s: Store, i: nat, q: PublishRequest, r: Tx<PublishResult>)
    requires i < |s.jobs|
  {
    r.Commit? ==>
      var job := s.jobs[i];
      && (r.value.outcome.PublishedSuperseded? ==> r.store.tables == s.tables)
      && (r.value.outcome.PublishedCommitted? ==>
            && ActiveBase(r.store.tables, job.session) == Some(Base(Some(q.candidate.snapshotId), job.baseVersion + 1, job.target))
            && r.store.tables.sessions == s.tables.sessions && r.store.tables.journal == s.tables.journal
            && forall h :: h != job.session ==> ActiveBase(r.store.tables, h) == ActiveBase(s.tables, h))
  }

  lemma {:induction false} FinishTables(s: Store, i: nat, outcome: PublishOutcome, winner: Id, coverage: nat, version: nat, q: PublishRequest)
    requires i < |s.jobs|
    ensures var r := Finish(s, i, outcome, winner, coverage, version, q);
      r.Commit? ==> r.store.tables == s.tables && r.value.outcome == outcome
  {
  }

  lemma {:induction false} InsertedActive(t: Tables, t': Tables, job: Job, q: PublishRequest)
    requires ChainOk(t) && ChainOk(t') && CandidateInserted(t, t', job, q) && Publishable(t, job, q)
    ensures ActiveBase(t', job.session) == Some(Base(Some(q.candidate.snapshotId), job.baseVersion + 1, job.target))
    ensures forall h :: h != job.session ==> ActiveBase(t', h) == ActiveBase(t, h)
  {
    hide ChainOk, ActiveBase, Chain;
    InsertedTip(t, t', job, q);
    ActiveIsTip(t', job.session);
    forall h | h != job.session ensures ActiveBase(t', h) == ActiveBase(t, h) {
      ActiveIsTip(t, h);
      ActiveIsTip(t', h);
    }
  }

  lemma {:induction false} ConcludeAdvances(s: Store, i: nat, q: PublishRequest)
    requires Inv(s) && i < |s.jobs| && s.jobs[i].state.ReadyToCommit? && Publishable(s.tables, s.jobs[i], q)
    requires var inserted := InsertCandidate(s.tables, s.jobs[i], CommittedEnvelope(q.candidate, q.now), q.memberships);
      inserted.Some? ==> CandidateInserted(s.tables, inserted.value, s.jobs[i], q)
    ensures Advances(s, i, q, Conclude(s, i, q))
  {
    hide JobsOk, Publishable, InsertCandidate, Finish, ActiveBase, JournalOk, ChainOk, BundlesOk, LinksOk, CandidateInserted;
    var inserted := InsertCandidate(s.tables, s.jobs[i], CommittedEnvelope(q.candidate, q.now), q.memberships);
    if inserted.Some? {
      PublishedTablesOk(s.tables, inserted.value, s.jobs[i], q);
      InsertedActive(s.tables, inserted.value, s.jobs[i], q);
      InsertedKeeps(s.tables, inserted.value, s.jobs[i], q);
      FinishTables(Store(inserted.value, s.jobs), i, PublishedCommitted, q.candidate.snapshotId, q.candidate.coverage,
                   s.jobs[i].baseVersion + 1, q);
    } else if s.jobs[i].session in s.tables.active {
      var pointer := s.tables.active[s.jobs[i].session];
      var winner := LoadBundle(s.tables, pointer.snapshotId, q.candidate.session);
      if winner.Some? {
        FinishTables(s, i, PublishedSuperseded, pointer.snapshotId, winner.value.row.envelope.coverage, pointer.version, q);
      }
    }
  }

  lemma {:induction false} InsertedKeeps(t: Tables, t': Tables, job: Job, q: PublishRequest)
    requires CandidateInserted(t, t', job, q)
    ensures t'.sessions == t.sessions && t'.journal == t.journal
  {
  }

  /** In every reachable state a committed publication moves the active snapshot to the frozen target and nothing else. */
  lemma {:induction false} CommitAdvances(calls: seq<Call>, q: PublishRequest)
    ensures var s := Execute(EMPTY, calls); var admitted := Admission(s, q);
      admitted.Ok? ==> Advances(s, admitted.value, q, PublishSnapshot(s, q))
  {
    hide Advances, Publishable, CandidateInserted, InsertCandidate, Collides;
    ReachableInv(calls);
    var s := Execute(EMPTY, calls);
    if Admission(s, q).Ok? {
      var i := Admission(s, q).value;
      AdmissionMeans(s, q);
      SavepointIff(s.tables, s.jobs[i], q);
      ConcludeAdvances(s, i, q);
    }
  }
}
