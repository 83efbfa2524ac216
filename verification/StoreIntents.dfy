/** No accepted compaction intent is ever lost. */
module StoreIntents {
  import opened Common
  import opened Store
  import opened StoreCalls
  import opened StoreInvariant
  import opened StorePublication
  import opened StoreOutcome
  import opened StoreRuns
  import opened StoreFencing

  function Covered(t: Tables, h: string): (n: nat) {
    Tip(Chain(t.snapshots, h)).coverage
  }

  ghost predicate CoverageGrows(t: Tables, t': Tables) {
    forall h :: Covered(t, h) <= Covered(t', h)
  }

  /** The open job of the session has at least this intent. */
  predicate OpenCarries(jobs: seq<Job>, h: string, target: nat) {
    var open := FindOpen(jobs, h);
    open.Some? && target <= jobs[open.value].intent
  }

  /** Row `k` belongs to the session, has at least this intent, and is open or failed. */
  predicate StandsFor(jobs: seq<Job>, h: string, target: nat, k: nat) {
    k < |jobs| && jobs[k].session == h && target <= jobs[k].intent && (!jobs[k].state.Terminal() || jobs[k].state.FailedJob?)
  }

  predicate Published(job: Job) {
    job.state.CommittedJob? || job.state.SupersededJob?
  }

  /** The row that answers for row `k` after one call: the session's open job if the call published `k`, else `k`. */
  function Heir(s: Store, c: Call, k: nat): (r: nat) {
    var jobs := Apply(s, c).jobs;
    if k < |s.jobs| && !s.jobs[k].state.Terminal() && k < |jobs| && Published(jobs[k]) && FindOpen(jobs, jobs[k].session).Some?
    then FindOpen(jobs, jobs[k].session).value
    else k
  }

  /** The row that answers for row `k` after a run. */
  function Lineage(s: Store, calls: seq<Call>, k: nat): (r: nat) {
    if calls == [] then k
    else
      var last := |calls| - 1;
      Heir(Execute(s, calls[..last]), calls[last], Lineage(s, calls[..last], k))
  }

  // ----- the open job -----

  /** An update that leaves session and openness alone does not change which job is open. */
  lemma {:induction false} SameOpen(jobs: seq<Job>, i: nat, job: Job, h: string)
    requires i < |jobs| && job.session == jobs[i].session && (job.state.Terminal() <==> jobs[i].state.Terminal())
    ensures FindOpen(jobs[i := job], h) == FindOpen(jobs, h)
  {
    var last := |jobs| - 1;
    if i < last {
      SameOpen(jobs[..last], i, job, h);
      assert jobs[i := job][..last] == jobs[..last][i := job];
    } else {
      assert jobs[i := job][..last] == jobs[..last];
    }
  }

  lemma {:induction false} NewOpen(jobs: seq<Job>, job: Job)
    requires !job.state.Terminal()
    ensures FindOpen(jobs + [job], job.session) == Some(|jobs|)
  {
  }

  /** An accepted intent is covered, or the open job of its session carries it. */
  lemma {:induction false} RaiseHonours(s: Store, q: IntentRequest)
    requires BasesOk(s.tables)
    ensures var r := RaiseIntent(s, q);
      r.Commit? ==> q.target >= 1 && (q.target <= Covered(r.store.tables, q.session.hash) || OpenCarries(r.store.jobs, q.session.hash, q.target))
  {
    hide Job.WellFormed, Chain;
    var r, h := RaiseIntent(s, q), q.session.hash;
    if r.Commit? && r.value.Some? {
      var open := FindOpen(s.jobs, h);
      if open.Some? {
        SameOpen(s.jobs, open.value, r.value.value, h);
      } else {
        NewOpen(s.jobs, r.value.value);
      }
    }
  }

  // ----- calls other than publication -----

  /** A row update that neither publishes nor cancels. */
  ghost predicate StillCarries(a: Job, b: Job) {
    b.session == a.session && a.intent <= b.intent
    && (!a.state.Terminal() || a.state.FailedJob? ==> !b.state.Terminal() || b.state.FailedJob?)
  }

  ghost predicate AllCarry(jobs: seq<Job>, jobs': seq<Job>) {
    |jobs| <= |jobs'| && forall k :: 0 <= k < |jobs| ==> StillCarries(jobs[k], jobs'[k])
  }

  /** A step that only rewrites job rows, none of them losing its intent. */
  ghost predicate Carrying(s: Store, s': Store) {
    s'.tables.snapshots == s.tables.snapshots && AllCarry(s.jobs, s'.jobs)
  }

  lemma {:induction false} RaiseCarries(s: Store, q: IntentRequest)
    ensures Carrying(s, StoreAfter(s, RaiseIntent(s, q)))
  {
  }

  lemma {:induction false} ClaimCarries(s: Store, q: ClaimRequest)
    requires BasesOk(s.tables) && JobsOk(s.tables, s.jobs)
    ensures Carrying(s, StoreAfter(s, ClaimJob(s, q)))
  {
    if !Blank(q.worker) && q.now < q.leaseExpires {
      ClaimLeasesFirst(s, q);
    }
  }

  lemma {:induction false} WriteCarries(s: Store, i: nat, job: Job)
    requires i < |s.jobs| && StillCarries(s.jobs[i], job)
    ensures Carrying(s, StoreAfter(s, WriteJob(s, i, job)))
  {
  }

  lemma {:induction false} MoveCarries(s: Store, t: Token, to: JobState, candidate: Option<Id>, now: int)
    ensures Carrying(s, StoreAfter(s, TransitionJob(s, t, to, candidate, now)))
  {
    var i := Fence(s, t, now);
    if i.Some? && Allowed(s.jobs[i.value].state, to) {
      WriteCarries(s, i.value, s.jobs[i.value].(state := to, candidate := candidate, updatedAt := now));
    }
  }

  lemma {:induction false} ExtendCarries(s: Store, t: Token, now: int, until: int)
    ensures Carrying(s, StoreAfter(s, RenewLease(s, t, now, until)))
  {
    var i := Fence(s, t, now);
    if i.Some? {
      WriteCarries(s, i.value, s.jobs[i.value].(expires := Some(until), updatedAt := now));
    }
  }

  lemma {:induction false} GiveUpCarries(s: Store, q: FailRequest)
    ensures Carrying(s, StoreAfter(s, FailJob(s, q)))
  {
    var i := Fence(s, q.token, q.now);
    if i.Some? {
      WriteCarries(s, i.value, FailedRow(s.jobs[i.value], q));
    }
  }

  lemma {:induction false} SweepCarries(s: Store, now: int)
    ensures Carrying(s, StoreAfter(s, RecoverLeases(s, now)))
  {
  }

  lemma {:induction false} CaptureCarries(s: Store, q: CaptureRequest)
    ensures Carrying(s, StoreAfter(s, CaptureEvent(s, q)))
  {
  }

  lemma {:induction false} OtherCallsCarry(s: Store, c: Call)
    requires BasesOk(s.tables) && JobsOk(s.tables, s.jobs) && !c.Submit?
    ensures Carrying(s, Apply(s, c))
  {
    hide BasesOk, JobsOk, Carrying, StoreAfter;
    match c
    case Capture(q) => CaptureCarries(s, q);
    case Raise(q) => RaiseCarries(s, q);
    case ClaimNext(q) => ClaimCarries(s, q);
    case Move(t, to, candidate, now) => MoveCarries(s, t, to, candidate, now);
    case Extend(t, now, until) => ExtendCarries(s, t, now, until);
    case GiveUp(q) => GiveUpCarries(s, q);
    case Sweep(now) => SweepCarries(s, now);
  }

  // ----- publication -----

  /** Row `i` was published, all other rows carry on, and what the winner does not cover of the published intent is
      in the open job of the session. */
  ghost predicate Handed(jobs: seq<Job>, i: nat, coverage: nat, jobs': seq<Job>)
    requires i < |jobs|
  {
    && |jobs| <= |jobs'|
    && (forall k :: 0 <= k < |jobs| && k != i ==> StillCarries(jobs[k], jobs'[k]))
    && Published(jobs'[i]) && jobs'[i].session == jobs[i].session
    && (jobs[i].intent <= coverage || OpenCarries(jobs', jobs[i].session, jobs[i].intent))
  }

  lemma {:induction false} FollowUpHands(jobs: seq<Job>, job: Job, winner: Id, coverage: nat, version: nat, id: Id, now: int)
    ensures var r := FollowUp(jobs, job, winner, coverage, version, id, now);
      r.Some? ==>
        && AllCarry(jobs, r.value) && (forall k :: 0 <= k < |jobs| && jobs[k].state.Terminal() ==> r.value[k] == jobs[k])
        && (job.intent <= coverage || OpenCarries(r.value, job.session, job.intent))
  {
    var r := FollowUp(jobs, job, winner, coverage, version, id, now);
    if r.Some? && coverage < job.intent {
      var open := FindOpen(jobs, job.session);
      if open.None? {
        NewOpen(jobs, NewJob(id, job.session, job.intent, Some(winner), version, now));
      } else {
        SameOpen(jobs, open.value, jobs[open.value].(intent := job.intent, updatedAt := now), job.session);
      }
    }
  }

  lemma {:induction false} FinishHands(s: Store, i: nat, outcome: PublishOutcome, winner: Id, coverage: nat, version: nat, q: PublishRequest)
    requires i < |s.jobs|
    ensures var r := Finish(s, i, outcome, winner, coverage, version, q);
      r.Commit? ==> r.store.tables == s.tables && Handed(s.jobs, i, coverage, r.store.jobs)
  {
    hide JobReadable, FindOpen;
    var done := FinishedJob(s.jobs[i], outcome, q.now);
    var rows := s.jobs[i := done];
    FollowUpHands(rows, done, winner, coverage, version, q.followUpId, q.now);
    hide FollowUp;
    assert forall k :: 0 <= k < |s.jobs| && k != i ==> rows[k] == s.jobs[k];
  }

  lemma {:induction false} PublishableCoversMore(t: Tables, job: Job, q: PublishRequest)
    requires Publishable(t, job, q)
    ensures Covered(t, job.session) < q.candidate.coverage
  {
  }

  /** What a publication does to the job rows and the coverages. */
  ghost predicate HandsOver(s: Store, i: nat, r: Tx<PublishResult>)
    requires i < |s.jobs|
  {
    r.Commit? ==>
      && Handed(s.jobs, i, Covered(r.store.tables, s.jobs[i].session), r.store.jobs)
      && CoverageGrows(s.tables, r.store.tables)
  }

  lemma {:induction false} CommitHands(s: Store, i: nat, q: PublishRequest, t': Tables)
    requires i < |s.jobs| && Publishable(s.tables, s.jobs[i], q) && CandidateInserted(s.tables, t', s.jobs[i], q)
    ensures HandsOver(s, i, Finish(Store(t', s.jobs), i, PublishedCommitted, q.candidate.snapshotId, q.candidate.coverage, s.jobs[i].baseVersion + 1, q))
  {
    InsertedTip(s.tables, t', s.jobs[i], q);
    FinishHands(Store(t', s.jobs), i, PublishedCommitted, q.candidate.snapshotId, q.candidate.coverage, s.jobs[i].baseVersion + 1, q);
    PublishableCoversMore(s.tables, s.jobs[i], q);
    hide Finish, Handed, Publishable, CandidateInserted, Chain;
    forall h ensures Covered(s.tables, h) <= Covered(t', h) {
    }
  }

  lemma {:induction false} SupersedeHands(s: Store, i: nat, q: PublishRequest)
    requires Inv(s) && i < |s.jobs| && Publishable(s.tables, s.jobs[i], q)
    ensures HandsOver(s, i, Supersede(s, i, q))
  {
    hide JournalOk, BundlesOk, LinksOk, JobsOk, LoadBundle, Finish, Handed;
    var t, session := s.tables, s.jobs[i].session;
    if session in t.active {
      assert PointerOk(t.active, session, Chain(t.snapshots, session));
      LoadTip(t, session, q.candidate.session);
      FinishHands(s, i, PublishedSuperseded, t.active[session].snapshotId, Covered(t, session), t.active[session].version, q);
    }
  }

  lemma {:induction false} ConcludeHands(s: Store, i: nat, q: PublishRequest)
    requires Inv(s) && i < |s.jobs| && Publishable(s.tables, s.jobs[i], q)
    requires var inserted := InsertCandidate(s.tables, s.jobs[i], CommittedEnvelope(q.candidate, q.now), q.memberships);
      inserted.Some? ==> CandidateInserted(s.tables, inserted.value, s.jobs[i], q)
    ensures HandsOver(s, i, Conclude(s, i, q))
  {
    hide Inv, Publishable, CandidateInserted, InsertCandidate, HandsOver, Finish, Supersede;
    var inserted := InsertCandidate(s.tables, s.jobs[i], CommittedEnvelope(q.candidate, q.now), q.memberships);
    if inserted.Some? {
      CommitHands(s, i, q, inserted.value);
    } else {
      SupersedeHands(s, i, q);
    }
  }

  lemma {:induction false} InvParts(s: Store, i: nat)
    requires Inv(s) && i < |s.jobs|
    ensures TablesOk(s.tables) && JobsOk(s.tables, s.jobs) && ChainOk(s.tables) && JobOk(s.tables, s.jobs[i])
  {
    hide JournalOk, BundlesOk, LinksOk, ChainOk, JobOk;
  }

  lemma {:induction false} SubmitHands(s: Store, q: PublishRequest) returns (i: nat)
    requires Inv(s) && PublishSnapshot(s, q).Commit?
    ensures i < |s.jobs| && HandsOver(s, i, PublishSnapshot(s, q)) && !s.jobs[i].state.Terminal()
  {
    hide Publishable, CandidateInserted, InsertCandidate, Collides, Conclude, HandsOver, Inv, Admission, PublishSnapshot, ChainOk, JobOk, CommittedEnvelope;
    PublicationIsAdmitted(s, q);
    i := Admission(s, q).value;
    InvParts(s, i);
    AdmissionMeans(s, q);
    SavepointIff(s.tables, s.jobs[i], q);
    ConcludeHands(s, i, q);
  }

  // ----- runs -----

  /** Rows that carry on keep standing for the intent. */
  lemma {:induction false} StandsOn(s: Store, c: Call, h: string, target: nat, k: nat)
    requires StandsFor(s.jobs, h, target, k) && k < |Apply(s, c).jobs| && StillCarries(s.jobs[k], Apply(s, c).jobs[k])
    ensures Heir(s, c, k) == k && StandsFor(Apply(s, c).jobs, h, target, k)
  {
    hide Apply;
  }

  /** The published row hands over to the open job, unless the coverage reached the intent. */
  lemma {:induction false} HandedOn(s: Store, c: Call, h: string, target: nat, k: nat)
    requires StandsFor(s.jobs, h, target, k) && !s.jobs[k].state.Terminal()
    requires Handed(s.jobs, k, Covered(Apply(s, c).tables, h), Apply(s, c).jobs)
    ensures target <= Covered(Apply(s, c).tables, h) || StandsFor(Apply(s, c).jobs, h, target, Heir(s, c, k))
  {
    hide Apply, Chain, FindOpen, Covered, StillCarries;
  }

  lemma {:induction false} ApplyStands(s: Store, c: Call, h: string, target: nat, k: nat)
    requires Inv(s) && StandsFor(s.jobs, h, target, k)
    ensures target <= Covered(Apply(s, c).tables, h) || StandsFor(Apply(s, c).jobs, h, target, Heir(s, c, k))
  {
    hide TablesOk, JobsOk, StandsFor, Covered, Handed, StillCarries, PublishSnapshot, Heir;
    StandsInRange(s.jobs, h, target, k);
    if !c.Submit? {
      BasesFromTables(s.tables);
      OtherCallsCarry(s, c);
      StandsOn(s, c, h, target, k);
    } else if PublishSnapshot(s, c.publication).Commit? {
      var i := SubmitHands(s, c.publication);
      if i == k {
        HandedOn(s, c, h, target, k);
      } else {
        HandedRest(s.jobs, i, Covered(Apply(s, c).tables, s.jobs[i].session), Apply(s, c).jobs, k);
        StandsOn(s, c, h, target, k);
      }
    } else {
      NothingChanged(s.jobs, k);
      StandsOn(s, c, h, target, k);
    }
  }

  lemma {:induction false} StandsInRange(jobs: seq<Job>, h: string, target: nat, k: nat)
    requires StandsFor(jobs, h, target, k)
    ensures k < |jobs| && jobs[k].session == h
  {
  }

  lemma {:induction false} NothingChanged(jobs: seq<Job>, k: nat)
    requires k < |jobs|
    ensures StillCarries(jobs[k], jobs[k])
  {
  }

  lemma {:induction false} HandedRest(jobs: seq<Job>, i: nat, coverage: nat, jobs': seq<Job>, k: nat)
    requires i < |jobs| && k < |jobs| && k != i && Handed(jobs, i, coverage, jobs')
    ensures k < |jobs'| && StillCarries(jobs[k], jobs'[k])
  {
  }

  lemma {:induction false} ApplyCovers(s: Store, c: Call)
    requires Inv(s)
    ensures CoverageGrows(s.tables, Apply(s, c).tables)
  {
    hide TablesOk, JobsOk, Covered, Handed, PublishSnapshot, AllCarry;
    if !c.Submit? {
      BasesFromTables(s.tables);
      OtherCallsCarry(s, c);
      SameCoverage(s.tables, Apply(s, c).tables);
    } else if PublishSnapshot(s, c.publication).Commit? {
      var i := SubmitHands(s, c.publication);
    }
  }

  lemma {:induction false} SameCoverage(t: Tables, t': Tables)
    requires t'.snapshots == t.snapshots
    ensures CoverageGrows(t, t')
  {
  }

  /** No call lowers the coverage of a session, so what is covered stays covered. */
  lemma {:induction false} ExecuteCovers(s: Store, calls: seq<Call>)
    requires Inv(s)
    ensures CoverageGrows(s.tables, Execute(s, calls).tables)
    decreases |calls|
  {
    hide Inv, Apply, Covered;
    if calls != [] {
      ExecuteCovers(s, calls[..|calls| - 1]);
      ExecuteKeeps(s, calls[..|calls| - 1]);
      ApplyCovers(Execute(s, calls[..|calls| - 1]), calls[|calls| - 1]);
    }
  }

  lemma {:induction false} ExecuteStands(s: Store, calls: seq<Call>, h: string, target: nat, k: nat)
    requires Inv(s) && StandsFor(s.jobs, h, target, k)
    ensures var s' := Execute(s, calls); target <= Covered(s'.tables, h) || StandsFor(s'.jobs, h, target, Lineage(s, calls, k))
    decreases |calls|
  {
    hide Inv, Apply, Covered, StandsFor, Heir;
    if calls != [] {
      var last := |calls| - 1;
      var before := Execute(s, calls[..last]);
      ExecuteStands(s, calls[..last], h, target, k);
      ExecuteKeeps(s, calls[..last]);
      ApplyCovers(before, calls[last]);
      if Covered(before.tables, h) < target {
        ApplyStands(before, calls[last], h, target, Lineage(s, calls[..last], k));
      }
    }
  }

  /** After an accepted `raise_compaction_intent` the intent is covered or carried by the open job of its session. At
      every later point of any run the coverage reaches the target, or the row descended from that very job has at
      least that intent and is open or failed; it can only have failed after the raise. */
  lemma {:induction false} IntentIsNeverLost(calls: seq<Call>, q: IntentRequest, after: seq<Call>)
    requires RaiseIntent(Execute(EMPTY, calls), q).Commit?
    ensures var s, h := Apply(Execute(EMPTY, calls), Raise(q)), q.session.hash;
      q.target >= 1 && (q.target <= Covered(s.tables, h) || OpenCarries(s.jobs, h, q.target))
    ensures var s, h := Apply(Execute(EMPTY, calls), Raise(q)), q.session.hash; var s', carrier := Execute(s, after), FindOpen(s.jobs, h);
      q.target <= Covered(s'.tables, h) || (carrier.Some? && StandsFor(s'.jobs, h, q.target, Lineage(s, after, carrier.value)))
  {
    hide TablesOk, JobsOk, RaiseIntent, Covered, Chain, Heir;
    var s0 := Execute(EMPTY, calls);
    var s, h := Apply(s0, Raise(q)), q.session.hash;
    ReachableInv(calls);
    BasesFromTables(s0.tables);
    RaiseHonours(s0, q);
    ApplyKeeps(s0, Raise(q));
    ExecuteCovers(s, after);
    if Covered(s.tables, h) < q.target {
      ExecuteStands(s, after, h, q.target, FindOpen(s.jobs, h).value);
    }
  }
}
