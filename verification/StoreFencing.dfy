/** Fencing: epochs are granted once, stale tokens are inert, and terminal jobs are final. */
module StoreFencing {
  import opened Common
  import opened Store
  import opened StoreCalls
  import opened StoreInvariant
  import opened StoreRuns

  /** How any call may change a job row. */
  ghost predicate RowKept(a: Job, b: Job) {
    && b.jobId == a.jobId && b.session == a.session && a.epoch <= b.epoch && a.intent <= b.intent
    && (a.state.Terminal() ==> b == a)
  }

  ghost predicate RowsKept(jobs: seq<Job>, jobs': seq<Job>) {
    |jobs| <= |jobs'| && forall k :: 0 <= k < |jobs| ==> RowKept(jobs[k], jobs'[k])
  }

  lemma {:induction false} ClaimLoopRows(s: Store, q: ClaimRequest)
    ensures RowsKept(s.jobs, StoreAfter(s, ClaimLoop(s, q)).jobs)
    decreases EligibleCount(s.jobs, q.now)
  {
    var first := FirstEligible(s.jobs, q.now);
    if first.Some? {
      var job := s.jobs[first.value];
      var base := ActiveBase(s.tables, job.session);
      if base.Some? && job.intent <= base.value.coverage {
        EligibleCountUpdate(s.jobs, q.now, first.value, Cancel(job, q.now));
        var cancelled := s.(jobs := s.jobs[first.value := Cancel(job, q.now)]);
        ClaimLoopRows(cancelled, q);
        assert forall k :: 0 <= k < |s.jobs| && k != first.value ==> cancelled.jobs[k] == s.jobs[k];
      }
    }
  }

  lemma {:induction false} FollowUpRows(jobs: seq<Job>, job: Job, winner: Id, coverage: nat, version: nat, id: Id, now: int)
    ensures var r := FollowUp(jobs, job, winner, coverage, version, id, now); r.Some? ==> RowsKept(jobs, r.value)
  {
  }

  lemma {:induction false} FinishRows(s: Store, i: nat, outcome: PublishOutcome, winner: Id, coverage: nat, version: nat, q: PublishRequest)
    requires i < |s.jobs| && !s.jobs[i].state.Terminal()
    ensures RowsKept(s.jobs, StoreAfter(s, Finish(s, i, outcome, winner, coverage, version, q)).jobs)
  {
    var done := FinishedJob(s.jobs[i], outcome, q.now);
    FollowUpRows(s.jobs[i := done], done, winner, coverage, version, q.followUpId, q.now);
  }

  lemma {:induction false} PublishRows(s: Store, q: PublishRequest)
    ensures RowsKept(s.jobs, StoreAfter(s, PublishSnapshot(s, q)).jobs)
  {
    var admitted := Admission(s, q);
    if admitted.Ok? {
      ConcludeRows(s, admitted.value, q);
    }
  }

  lemma {:induction false} ConcludeRows(s: Store, i: nat, q: PublishRequest)
    requires i < |s.jobs| && !s.jobs[i].state.Terminal()
    ensures RowsKept(s.jobs, StoreAfter(s, Conclude(s, i, q)).jobs)
  {
    var inserted := InsertCandidate(s.tables, s.jobs[i], CommittedEnvelope(q.candidate, q.now), q.memberships);
    if inserted.Some? {
      FinishRows(Store(inserted.value, s.jobs), i, PublishedCommitted, q.candidate.snapshotId, q.candidate.coverage, s.jobs[i].baseVersion + 1, q);
    } else if s.jobs[i].session in s.tables.active {
      var pointer := s.tables.active[s.jobs[i].session];
      var winner := LoadBundle(s.tables, pointer.snapshotId, q.candidate.session);
      if winner.Some? {
        FinishRows(s, i, PublishedSuperseded, pointer.snapshotId, winner.value.row.envelope.coverage, pointer.version, q);
      }
    }
  }

  lemma {:induction false} RaiseRows(s: Store, q: IntentRequest)
    ensures RowsKept(s.jobs, StoreAfter(s, RaiseIntent(s, q)).jobs)
  {
  }

  lemma {:induction false} WriteRows(s: Store, i: nat, job: Job)
    requires i < |s.jobs| && RowKept(s.jobs[i], job)
    ensures RowsKept(s.jobs, StoreAfter(s, WriteJob(s, i, job)).jobs)
  {
  }

  lemma {:induction false} MoveRows(s: Store, t: Token, to: JobState, candidate: Option<Id>, now: int)
    ensures RowsKept(s.jobs, StoreAfter(s, TransitionJob(s, t, to, candidate, now)).jobs)
  {
    var i := Fence(s, t, now);
    if i.Some? {
      WriteRows(s, i.value, s.jobs[i.value].(state := to, candidate := candidate, updatedAt := now));
    }
  }

  lemma {:induction false} ExtendRows(s: Store, t: Token, now: int, until: int)
    ensures RowsKept(s.jobs, StoreAfter(s, RenewLease(s, t, now, until)).jobs)
  {
    var i := Fence(s, t, now);
    if i.Some? {
      WriteRows(s, i.value, s.jobs[i.value].(expires := Some(until), updatedAt := now));
    }
  }

  lemma {:induction false} GiveUpRows(s: Store, q: FailRequest)
    ensures RowsKept(s.jobs, StoreAfter(s, FailJob(s, q)).jobs)
  {
    var i := Fence(s, q.token, q.now);
    if i.Some? {
      WriteRows(s, i.value, FailedRow(s.jobs[i.value], q));
    }
  }

  /** No call, whoever makes it and at whatever time, changes a row in any other way. */
  lemma {:induction false} ApplyRows(s: Store, c: Call)
    ensures RowsKept(s.jobs, Apply(s, c).jobs)
  {
    match c
    case Capture(q) =>
    case Raise(q) => RaiseRows(s, q);
    case ClaimNext(q) => ClaimLoopRows(s, q);
    case Sweep(now) =>
    case Submit(q) => PublishRows(s, q);
    case Move(t, to, candidate, now) => MoveRows(s, t, to, candidate, now);
    case Extend(t, now, until) => ExtendRows(s, t, now, until);
    case GiveUp(q) => GiveUpRows(s, q);
  }

  lemma {:induction false} ExecuteRows(s: Store, calls: seq<Call>)
    ensures RowsKept(s.jobs, Execute(s, calls).jobs)
    decreases |calls|
  {
    if calls != [] {
      var middle := Execute(s, calls[..|calls| - 1]);
      ExecuteRows(s, calls[..|calls| - 1]);
      ApplyRows(middle, calls[|calls| - 1]);
    }
  }

  /** A job that reached a terminal state is never changed again, by any continuation of the run. */
  lemma {:induction false} TerminalIsFinal(s: Store, calls: seq<Call>, k: nat)
    requires k < |s.jobs| && s.jobs[k].state.Terminal()
    ensures k < |Execute(s, calls).jobs| && Execute(s, calls).jobs[k] == s.jobs[k]
  {
    ExecuteRows(s, calls);
  }

  // ----- grants and tokens -----

  datatype Grant = Grant(jobId: Id, epoch: nat)

  function GrantOf(s: Store, c: Call): (g: Option<Grant>) {
    if c.ClaimNext? then
      var r := ClaimJob(s, c.claim);
      if r.Commit? && r.value.Some? then Some(Grant(r.value.value.jobId, r.value.value.epoch)) else None
    else None
  }

  /** The fencing token a worker call presents. */
  function TokenOf(c: Call): (t: Option<Token>) {
    match c
    case Move(t, _, _, _) => Some(t)
    case Extend(t, _, _) => Some(t)
    case GiveUp(q) => Some(q.token)
    case Submit(q) => Some(q.token)
    case _ => None
  }

  /** The job a call publishes, if it does. */
  function PublishedBy(s: Store, c: Call): (id: Option<Id>) {
    if c.Submit? then
      var r := PublishSnapshot(s, c.publication);
      if r.Commit? then Some(r.value.job.jobId) else None
    else None
  }

  /** Job ids are unique row keys. */
  ghost predicate UniqueJobs(jobs: seq<Job>) {
    forall i, j :: 0 <= i < j < |jobs| ==> jobs[i].jobId != jobs[j].jobId
  }

  /** A grant raises the epoch of its row by one and is what the row then holds. */
  lemma {:induction false} GrantRow(s: Store, c: Call) returns (k: nat)
    requires Inv(s) && GrantOf(s, c).Some?
    ensures k < |s.jobs| <= |Apply(s, c).jobs|
    ensures s.jobs[k].jobId == Apply(s, c).jobs[k].jobId == GrantOf(s, c).value.jobId
    ensures s.jobs[k].epoch + 1 == Apply(s, c).jobs[k].epoch == GrantOf(s, c).value.epoch
  {
    hide TablesOk;
    assert BasesOk(s.tables) by {
      BasesFromTables(s.tables);
    }
    ClaimLeasesFirst(s, c.claim);
    k := FirstEligible(s.jobs, c.claim.now).value;
  }

  lemma {:induction false} FindJobIs(jobs: seq<Job>, k: nat)
    requires k < |jobs| && UniqueJobs(jobs)
    ensures FindJob(jobs, jobs[k].jobId) == Some(k)
  {
  }

  lemma {:induction false} ReachableUnique(s: Store)
    requires Inv(s)
    ensures UniqueJobs(s.jobs)
  {
  }

  /** A call whose token's epoch is below the row's current epoch changes nothing. */
  lemma {:induction false} StaleTokenIsInert(s: Store, c: Call, k: nat)
    requires UniqueJobs(s.jobs) && k < |s.jobs| && TokenOf(c).Some? && TokenOf(c).value.jobId == s.jobs[k].jobId
    requires TokenOf(c).value.epoch < s.jobs[k].epoch
    ensures Apply(s, c) == s
  {
    FindJobIs(s.jobs, k);
  }

  /** A call on a terminal job changes nothing either. */
  lemma {:induction false} TerminalTokenIsInert(s: Store, c: Call, k: nat)
    requires UniqueJobs(s.jobs) && k < |s.jobs| && TokenOf(c).Some? && TokenOf(c).value.jobId == s.jobs[k].jobId
    requires s.jobs[k].state.Terminal()
    ensures Apply(s, c) == s && PublishedBy(s, c).None?
  {
    FindJobIs(s.jobs, k);
  }

  /** Along any run a (job, epoch) pair is granted at most once: a later grant of the job has a larger epoch. */
  lemma {:induction false} EpochGrantedOnce(calls: seq<Call>, first: Call, between: seq<Call>, second: Call)
    requires GrantOf(Execute(EMPTY, calls), first).Some?
    requires var later := Execute(Apply(Execute(EMPTY, calls), first), between);
      && GrantOf(later, second).Some?
      && GrantOf(later, second).value.jobId == GrantOf(Execute(EMPTY, calls), first).value.jobId
    ensures var later := Execute(Apply(Execute(EMPTY, calls), first), between);
      GrantOf(Execute(EMPTY, calls), first).value.epoch < GrantOf(later, second).value.epoch
  {
    hide Inv, GrantOf;
    var s := Execute(EMPTY, calls);
    var s1 := Apply(s, first);
    var later := Execute(s1, between);
    ReachableInv(calls);
    ApplyKeeps(s, first);
    ExecuteKeeps(s1, between);
    var k := GrantRow(s, first);
    var k' := GrantRow(later, second);
    ExecuteRows(s1, between);
    ReachableUnique(later);
    assert k == k';
  }

  /** Once a higher epoch of a job was granted, no later call with an older epoch changes any row. */
  lemma {:induction false} OldEpochsAreInert(calls: seq<Call>, claim: Call, after: seq<Call>, c: Call)
    requires GrantOf(Execute(EMPTY, calls), claim).Some?
    requires TokenOf(c).Some? && TokenOf(c).value.jobId == GrantOf(Execute(EMPTY, calls), claim).value.jobId
    requires TokenOf(c).value.epoch < GrantOf(Execute(EMPTY, calls), claim).value.epoch
    ensures var later := Execute(Apply(Execute(EMPTY, calls), claim), after); Apply(later, c) == later
  {
    hide Inv, GrantOf, Apply;
    var s := Execute(EMPTY, calls);
    var s1 := Apply(s, claim);
    ReachableInv(calls);
    ApplyKeeps(s, claim);
    ExecuteKeeps(s1, after);
    var k := GrantRow(s, claim);
    ExecuteRows(s1, after);
    ReachableUnique(Execute(s1, after));
    StaleTokenIsInert(Execute(s1, after), c, k);
  }

  /** A committed publication was admitted with a live fence. */
  lemma {:induction false} PublicationIsAdmitted(s: Store, q: PublishRequest)
    requires PublishSnapshot(s, q).Commit?
    ensures Admission(s, q).Ok? && PublishSnapshot(s, q) == Conclude(s, Admission(s, q).value, q)
    ensures var i := Admission(s, q).value; i < |s.jobs| && !s.jobs[i].state.Terminal() && s.jobs[i].jobId == q.token.jobId
  {
    hide Admission, Conclude;
  }

  lemma {:induction false} PublicationFinishes(s: Store, c: Call) returns (k: nat)
    requires Inv(s) && PublishedBy(s, c).Some?
    ensures k < |s.jobs| && s.jobs[k].jobId == PublishedBy(s, c).value == c.publication.token.jobId
    ensures !s.jobs[k].state.Terminal()
    ensures k < |Apply(s, c).jobs| && Apply(s, c).jobs[k].state.Terminal() && Apply(s, c).jobs[k].jobId == s.jobs[k].jobId
  {
    hide Inv, Conclude, Admission, PublishSnapshot, JobState.Terminal;
    PublicationIsAdmitted(s, c.publication);
    k := Admission(s, c.publication).value;
    PublicationRow(s, k, c.publication);
  }

  lemma {:induction false} PublicationRow(s: Store, i: nat, q: PublishRequest)
    requires i < |s.jobs| && Conclude(s, i, q).Commit?
    ensures var r := Conclude(s, i, q);
      r.value.job.jobId == s.jobs[i].jobId && i < |r.store.jobs| && r.store.jobs[i] == r.value.job && r.value.job.state.Terminal()
  {
  }

  /** A job publishes at most once: after its publication every call with its token is inert. */
  lemma {:induction false} PublishesOnce(calls: seq<Call>, first: Call, after: seq<Call>, c: Call)
    requires PublishedBy(Execute(EMPTY, calls), first).Some?
    requires TokenOf(c).Some? && Some(TokenOf(c).value.jobId) == PublishedBy(Execute(EMPTY, calls), first)
    ensures var later := Execute(Apply(Execute(EMPTY, calls), first), after);
      Apply(later, c) == later && PublishedBy(later, c).None?
  {
    hide Inv, Apply;
    var s := Execute(EMPTY, calls);
    var s1 := Apply(s, first);
    var later := Execute(s1, after);
    ReachableInv(calls);
    ApplyKeeps(s, first);
    ExecuteKeeps(s1, after);
    var k := PublicationFinishes(s, first);
    ExecuteRows(s1, after);
    ReachableUnique(later);
    TerminalTokenIsInert(later, c, k);
  }

  // ----- claims -----

  /** The claim scan picks the least eligible row of the claim order, so every other eligible row comes after it. */
  lemma {:induction false} FirstEligibleIsLeast(rows: seq<Job>, now: int, k: nat)
    requires k < |rows| && rows[k].Eligible(now)
    requires forall i, j :: 0 <= i < j < |rows| ==> rows[i].jobId != rows[j].jobId
    ensures var first := FirstEligible(rows, now); first.Some? && (first.value == k || Before(rows[first.value], rows[k]))
    decreases |rows|
  {
    var last := |rows| - 1;
    var rest := FirstEligible(rows[..last], now);
    if k < last {
      FirstEligibleIsLeast(rows[..last], now, k);
      if rows[last].Eligible(now) && Before(rows[last], rows[rest.value]) && rest.value != k {
        BeforeIsTransitive(rows[last], rows[rest.value], rows[k]);
      }
    } else if rest.Some? && !Before(rows[last], rows[rest.value]) {
      TextBeforeIsTotal(rows[last].jobId, rows[rest.value].jobId);
    }
  }

  lemma {:induction false} BeforeIsTransitive(a: Job, b: Job, c: Job)
    requires Before(a, b) && Before(b, c)
    ensures Before(a, c)
  {
    if a.createdAt == b.createdAt && b.createdAt == c.createdAt {
      TextBeforeIsTransitive(a.jobId, b.jobId, c.jobId);
    }
  }

  /** What a successful claim on row `i` returns: the oldest eligible job, leased to the worker under a new epoch, with
      its whole intent as target and the active snapshot as frozen base. */
  ghost predicate ClaimedFrom(s: Store, i: nat, q: ClaimRequest, job: Job)
    requires i < |s.jobs|
  {
    && s.jobs[i].Eligible(q.now) && job.jobId == s.jobs[i].jobId && job.session == s.jobs[i].session
    && (forall k :: 0 <= k < |s.jobs| && s.jobs[k].Eligible(q.now) ==> k == i || Before(s.jobs[i], s.jobs[k]))
    && job.state.Leased? && job.owner == Some(q.worker) && job.expires == Some(q.leaseExpires)
    && job.epoch == s.jobs[i].epoch + 1 && job.intent == s.jobs[i].intent && job.target == job.intent
    && ActiveBase(s.tables, job.session).Some?
    && var base := ActiveBase(s.tables, job.session).value;
    job.base == base.id && job.baseVersion == base.version && base.coverage < job.target
  }

  /** A claim leases the row it took and changes no other; it takes none only when no row is eligible. */
  ghost predicate ClaimOutcome(s: Store, q: ClaimRequest, r: Tx<Option<Job>>) {
    r.Commit? ==>
      if r.value.None? then r.store == s && forall k :: 0 <= k < |s.jobs| ==> !s.jobs[k].Eligible(q.now)
      else exists i :: 0 <= i < |s.jobs| && ClaimedFrom(s, i, q, r.value.value) && r.store == s.(jobs := s.jobs[i := r.value.value])
  }

  lemma {:induction false} ClaimTakesOldest(calls: seq<Call>, q: ClaimRequest)
    ensures var s := Execute(EMPTY, calls); ClaimOutcome(s, q, ClaimJob(s, q))
  {
    hide TablesOk;
    var s := Execute(EMPTY, calls);
    ReachableInv(calls);
    BasesFromTables(s.tables);
    ReachableUnique(s);
    ClaimUnderInv(s, q);
  }

  lemma {:induction false} ClaimUnderInv(s: Store, q: ClaimRequest)
    requires BasesOk(s.tables) && JobsOk(s.tables, s.jobs) && UniqueJobs(s.jobs)
    ensures ClaimOutcome(s, q, ClaimJob(s, q))
  {
    hide FirstEligible, ClaimLoop, Before;
    if !Blank(q.worker) && q.now < q.leaseExpires {
      ClaimLeasesFirst(s, q);
      var first := FirstEligible(s.jobs, q.now);
      if first.Some? {
        forall k | 0 <= k < |s.jobs| && s.jobs[k].Eligible(q.now) ensures k == first.value || Before(s.jobs[first.value], s.jobs[k]) {
          FirstEligibleIsLeast(s.jobs, q.now, k);
        }
        assert JobOk(s.tables, s.jobs[first.value]);
        assert ClaimedFrom(s, first.value, q, Lease(s.jobs[first.value], Tip(Chain(s.tables.snapshots, s.jobs[first.value].session)), q));
      }
    }
  }

  // ----- the sweep -----

  ghost predicate InClaimOrder(rows: seq<Job>) {
    forall i, j :: 0 <= i < j < |rows| ==> Before(rows[i], rows[j])
  }

  /** Rows of other ids than `id`. */
  ghost predicate Others(rows: seq<Job>, id: Id) {
    forall k :: 0 <= k < |rows| ==> rows[k].jobId != id
  }

  lemma {:induction false} PlacedInOrder(rows: seq<Job>, job: Job)
    requires InClaimOrder(rows) && Others(rows, job.jobId)
    ensures InClaimOrder(Placed(rows, job))
    ensures forall k :: 0 <= k <= |rows| ==> Placed(rows, job)[k] == job || Placed(rows, job)[k] in rows
  {
    if rows != [] {
      var last := |rows| - 1;
      if Before(job, rows[last]) {
        PlacedInOrder(rows[..last], job);
        forall k | 0 <= k < last + 1 ensures Before(Placed(rows[..last], job)[k], rows[last]) {
          assert Placed(rows[..last], job)[k] == job || Placed(rows[..last], job)[k] in rows[..last];
        }
      } else {
        TextBeforeIsTotal(job.jobId, rows[last].jobId);
        forall k | 0 <= k < last ensures Before(rows[k], job) {
          BeforeIsTransitive(rows[k], rows[last], job);
        }
      }
    }
  }

  /** Row `k` had an expired lease and `job` is what the sweep made of it. */
  ghost predicate SweptFrom(jobs: seq<Job>, now: int, job: Job, k: nat) {
    k < |jobs| && jobs[k].Expired(now) && job == Recovered(jobs[k], now)
  }

  lemma {:induction false} SweptOrigin(jobs: seq<Job>, now: int, job: Job)
    ensures job in multiset(Swept(jobs, now)) <==> exists k: nat :: SweptFrom(jobs, now, job, k)
  {
    if jobs != [] {
      var last := |jobs| - 1;
      SweptOrigin(jobs[..last], now, job);
      forall k: nat | k < last ensures SweptFrom(jobs, now, job, k) <==> SweptFrom(jobs[..last], now, job, k) {
      }
      assert SweptFrom(jobs, now, job, last) <==> jobs[last].Expired(now) && job == Recovered(jobs[last], now);
    }
  }

  /** The sweep returns exactly the rows whose lease had expired, oldest first, ties by job id. */
  lemma {:induction false} SweepReturnsInOrder(jobs: seq<Job>, now: int)
    requires UniqueJobs(jobs)
    ensures InClaimOrder(Swept(jobs, now))
    ensures forall job :: job in Swept(jobs, now) <==> exists k: nat :: SweptFrom(jobs, now, job, k)
  {
    hide Swept, SweptFrom;
    SweptOrdered(jobs, now);
    forall job ensures job in Swept(jobs, now) <==> exists k: nat :: SweptFrom(jobs, now, job, k) {
      SweptOrigin(jobs, now, job);
      assert job in Swept(jobs, now) <==> job in multiset(Swept(jobs, now));
    }
  }

  lemma {:induction false} SweptOrdered(jobs: seq<Job>, now: int)
    requires UniqueJobs(jobs)
    ensures InClaimOrder(Swept(jobs, now))
  {
    if jobs != [] {
      var last := |jobs| - 1;
      SweptOrdered(jobs[..last], now);
      var rest := Swept(jobs[..last], now);
      forall k | 0 <= k < |rest| ensures rest[k].jobId != jobs[last].jobId {
        SweptOrigin(jobs[..last], now, rest[k]);
        assert rest[k] in multiset(rest);
        var i: nat :| SweptFrom(jobs[..last], now, rest[k], i);
        assert jobs[i].jobId != jobs[last].jobId;
      }
      if jobs[last].Expired(now) {
        PlacedInOrder(rest, Recovered(jobs[last], now));
      }
    }
  }
}
