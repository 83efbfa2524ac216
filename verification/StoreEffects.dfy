/** What each call does to a reachable store, row by row and field by field, and with which error it is refused. */
module StoreEffects {
  import opened Common
  import opened Domain
  import opened Store
  import opened StoreCalls
  import opened StoreInvariant
  import opened StoreRuns
  import opened StoreFencing

  // ----- rows -----

  /** Only row `i` may differ. */
  ghost predicate OnlyRow(s: Store, i: nat, s': Store) {
    && i < |s.jobs| && s'.tables == s.tables && |s'.jobs| == |s.jobs|
    && forall k :: 0 <= k < |s.jobs| && k != i ==> s'.jobs[k] == s.jobs[k]
  }

  /** The call writes `job` into row `i`, changes nothing else, and returns what it wrote. */
  ghost predicate Writes(s: Store, i: nat, r: Tx<Job>) {
    r.Commit? && OnlyRow(s, i, r.store) && r.store.jobs[i] == r.value
  }

  /** Identity, range, base, epoch and creation time stay. */
  ghost predicate SameWork(a: Job, b: Job) {
    && b.jobId == a.jobId && b.session == a.session && b.target == a.target && b.intent == a.intent
    && b.base == a.base && b.baseVersion == a.baseVersion && b.epoch == a.epoch && b.createdAt == a.createdAt
  }

  ghost predicate SameErrors(a: Job, b: Job) {
    b.errorStage == a.errorStage && b.errorCode == a.errorCode && b.errorMessage == a.errorMessage
  }

  ghost predicate Released(b: Job) {
    b.owner.None? && b.expires.None?
  }

  /** The row waits for a worker at this time. */
  ghost predicate Ready(job: Job, now: int) {
    job.state == Pending || (job.state == RetryWait && job.nextRetry.Some? && job.nextRetry.value <= now)
  }

  ghost predicate Leasable(job: Job) {
    job.state == Leased || job.state == Compiling || job.state == Auditing || job.state == ReadyToCommit
  }

  /** The worker of the token holds row `i`, and its lease runs beyond `now`. */
  ghost predicate Holds(s: Store, t: Token, now: int, i: nat) {
    && i < |s.jobs|
    && s.jobs[i].jobId == t.jobId && s.jobs[i].owner == Some(t.owner) && s.jobs[i].epoch == t.epoch
    && Leasable(s.jobs[i]) && s.jobs[i].expires.Some? && now < s.jobs[i].expires.value
  }

  lemma {:induction false} HolderIsFound(s: Store, t: Token, now: int, i: nat)
    requires UniqueJobs(s.jobs) && Holds(s, t, now, i)
    ensures Fence(s, t, now) == Some(i)
  {
    FindJobIs(s.jobs, i);
  }

  lemma {:induction false} FoundHolds(s: Store, t: Token, now: int)
    requires Fence(s, t, now).Some?
    ensures Holds(s, t, now, Fence(s, t, now).value)
  {
  }

  /** At any time a leased row of a reachable store is either held under its own token or expired. */
  lemma {:induction false} HeldOrExpired(calls: seq<Call>, i: nat, now: int)
    requires i < |Execute(EMPTY, calls).jobs| && Leasable(Execute(EMPTY, calls).jobs[i])
    ensures var s := Execute(EMPTY, calls); var job := s.jobs[i];
      && job.owner.Some? && job.expires.Some?
      && (Holds(s, Token(job.jobId, job.owner.value, job.epoch), now, i) <==> now < job.expires.value)
  {
    ReachableInv(calls);
    assert JobOk(Execute(EMPTY, calls).tables, Execute(EMPTY, calls).jobs[i]);
  }

  /** What a row of each state has: a lease while it is worked on, a candidate from READY_TO_COMMIT on, an error when it
      failed or waits for its retry, and times for retry and commit. No reachable row is cancelled. */
  ghost predicate RowShape(job: Job) {
    var leased := job.owner.Some? && job.owner.value != "" && job.expires.Some? && job.epoch >= 1;
    var erred := job.errorStage.Some? && job.errorCode.Some? && job.errorMessage.Some?;
    && job.jobId != "" && 1 <= job.target <= job.intent && (job.base.None? <==> job.baseVersion == 0)
    && (erred || (job.errorStage.None? && job.errorCode.None? && job.errorMessage.None?))
    && match job.state
       case Pending => Released(job) && job.candidate.None? && job.nextRetry.None? && job.committedAt.None?
       case Leased => leased && job.candidate.None? && job.nextRetry.None? && job.committedAt.None?
       case Compiling => leased && job.candidate.None? && job.nextRetry.None? && job.committedAt.None?
       case Auditing => leased && job.candidate.None? && job.nextRetry.None? && job.committedAt.None?
       case ReadyToCommit => leased && job.candidate.Some? && job.nextRetry.None? && job.committedAt.None?
       case RetryWait => Released(job) && job.candidate.None? && job.nextRetry.Some? && job.committedAt.None? && erred
       case CommittedJob => Released(job) && job.candidate.Some? && job.nextRetry.None? && job.committedAt.Some?
       case SupersededJob => Released(job) && job.candidate.Some? && job.nextRetry.None? && job.committedAt.None?
       case FailedJob => Released(job) && job.candidate.None? && job.nextRetry.None? && job.committedAt.None? && erred
       case CancelledJob => false
  }

  lemma {:induction false} RowsAreShaped(calls: seq<Call>, i: nat)
    requires i < |Execute(EMPTY, calls).jobs|
    ensures RowShape(Execute(EMPTY, calls).jobs[i])
  {
    ReachableInv(calls);
    JobIsShaped(Execute(EMPTY, calls).tables, Execute(EMPTY, calls).jobs, i);
  }

  lemma {:induction false} JobIsShaped(t: Tables, jobs: seq<Job>, i: nat)
    requires JobsOk(t, jobs) && i < |jobs|
    ensures RowShape(jobs[i])
  {
    assert JobOk(t, jobs[i]);
  }

  /** A stored snapshot is committed and lists exactly the capsules of its members, each stored under its id and of the
      snapshot's session, and exactly their active anchors. */
  ghost predicate RowConsistent(t: Tables, row: SnapshotRow) {
    var e := row.envelope;
    && e.state == Committed && e.session.hash in t.sessions && t.sessions[e.session.hash].key == e.session
    && |row.members| > 0 && |e.capsuleIds| == |row.members|
    && (forall i :: 0 <= i < |row.members| ==>
          && e.capsuleIds[i] == row.members[i].capsuleId && e.capsuleIds[i] in t.capsules
          && t.capsules[e.capsuleIds[i]].capsuleId == e.capsuleIds[i] && t.capsules[e.capsuleIds[i]].session == e.session)
    && exists capsules: seq<Capsule> ::
         && |capsules| == |row.members| && (forall i :: 0 <= i < |capsules| ==> capsules[i] == t.capsules[row.members[i].capsuleId])
         && e.anchorIds == AnchorIds(ActiveAnchors(capsules))
  }

  lemma {:induction false} RowsReadBack(calls: seq<Call>, row: SnapshotRow)
    requires row in Execute(EMPTY, calls).tables.snapshots
    ensures RowConsistent(Execute(EMPTY, calls).tables, row)
  {
    hide JournalOk, ChainOk, LinksOk, JobsOk, RowConsistent, RowOk;
    ReachableInv(calls);
    RowIsConsistent(Execute(EMPTY, calls).tables, row);
  }

  lemma {:induction false} RowIsConsistent(t: Tables, row: SnapshotRow)
    requires RowOk(t, row)
    ensures RowConsistent(t, row)
  {
    hide ActiveAnchors, SourcesCovered;
    var capsules := Bundle(t.capsules, row.members).value;
    assert row.envelope.anchorIds == AnchorIds(ActiveAnchors(capsules));
  }

  // ----- fenced calls -----

  ghost predicate LegalMove(from: JobState, to: JobState) {
    || (from == Leased && to == Compiling) || (from == Compiling && to == Auditing)
    || (from == Compiling && to == ReadyToCommit) || (from == Auditing && to == ReadyToCommit)
  }

  /** A fenced move writes state and candidate of the held row, exactly when the move is legal and a candidate is named
      for READY_TO_COMMIT only. */
  ghost predicate Moved(s: Store, i: nat, to: JobState, candidate: Option<Id>, now: int, r: Tx<Job>)
    requires i < |s.jobs|
  {
    var a := s.jobs[i];
    var named := if to == ReadyToCommit then candidate.Some? && !Blank(candidate.value) else candidate.None?;
    if LegalMove(a.state, to) && named then
      && Writes(s, i, r) && SameWork(a, r.value) && SameErrors(a, r.value)
      && r.value.state == to && r.value.candidate == candidate && r.value.updatedAt == now
      && r.value.owner == a.owner && r.value.expires == a.expires && r.value.attempts == a.attempts
      && r.value.nextRetry == a.nextRetry && r.value.committedAt == a.committedAt
    else r == Abort(BadTransition)
  }

  /** A renewal writes the later expiry of the held row. */
  ghost predicate Renewed(s: Store, i: nat, now: int, until: int, r: Tx<Job>)
    requires i < |s.jobs| && s.jobs[i].expires.Some?
  {
    var a := s.jobs[i];
    if a.expires.value < until then
      && Writes(s, i, r) && SameWork(a, r.value) && SameErrors(a, r.value)
      && r.value.expires == Some(until) && r.value.updatedAt == now
      && r.value.state == a.state && r.value.candidate == a.candidate && r.value.owner == a.owner
      && r.value.attempts == a.attempts && r.value.nextRetry == a.nextRetry && r.value.committedAt == a.committedAt
    else r == Abort(BadTransition)
  }

  /** What may be given as a failure. */
  ghost predicate FailureNamed(q: FailRequest) {
    && !Blank(q.stage) && !Blank(q.code) && !Blank(q.message)
    && |q.message| <= 512 && (forall c <- q.message :: c != '\r' && c != '\n' && c != '\0')
    && (q.retryAt.Some? ==> q.retryAt.value > q.now)
    && (q.preserveAttempt ==>
          && q.retryAt.Some? && q.stage == "COMPILING"
          && (q.code == "EXTRACTIVE_PROVIDER_UNAVAILABLE" || q.code == "TOKEN_METRIC_MISSING" || q.code == "TOKEN_METRIC_UNAVAILABLE"))
  }

  /** A failure releases the held row: FAILED for good, or RETRY_WAIT until the given time, from when it can be claimed.
      A preserved attempt is taken back. */
  ghost predicate GivenUp(s: Store, i: nat, q: FailRequest, r: Tx<Job>)
    requires i < |s.jobs|
  {
    var a := s.jobs[i];
    && Writes(s, i, r) && SameWork(a, r.value) && Released(r.value)
    && (if q.retryAt.Some? then r.value.state == RetryWait && forall later :: Ready(r.value, later) <==> q.retryAt.value <= later
        else r.value.state == FailedJob && r.value.nextRetry.None?)
    && r.value.errorStage == Some(q.stage) && r.value.errorCode == Some(q.code) && r.value.errorMessage == Some(q.message)
    && r.value.candidate.None? && r.value.committedAt.None? && r.value.updatedAt == q.now
    && (if q.preserveAttempt && 0 < a.attempts then r.value.attempts + 1 == a.attempts else r.value.attempts == a.attempts)
  }

  ghost predicate MoveEffect(s: Store, t: Token, to: JobState, candidate: Option<Id>, now: int, r: Tx<Job>) {
    && (forall i: nat :: Holds(s, t, now, i) ==> Moved(s, i, to, candidate, now, r))
    && ((forall i: nat :: !Holds(s, t, now, i)) ==> r == Abort(StaleLease))
  }

  ghost predicate RenewEffect(s: Store, t: Token, now: int, until: int, r: Tx<Job>) {
    if until <= now then r == Abort(InvalidArgument)
    else
      && (forall i: nat :: Holds(s, t, now, i) ==> Renewed(s, i, now, until, r))
      && ((forall i: nat :: !Holds(s, t, now, i)) ==> r == Abort(StaleLease))
  }

  ghost predicate FailEffect(s: Store, q: FailRequest, r: Tx<Job>) {
    if !FailureNamed(q) then r == Abort(InvalidArgument)
    else
      && (forall i: nat :: Holds(s, q.token, q.now, i) ==> GivenUp(s, i, q, r))
      && ((forall i: nat :: !Holds(s, q.token, q.now, i)) ==> r == Abort(StaleLease))
  }

  lemma {:induction false} MoveHeld(s: Store, t: Token, to: JobState, candidate: Option<Id>, now: int, i: nat)
    requires Fence(s, t, now) == Some(i)
    requires TransitionJob(s, t, to, candidate, now) != Abort(StoreCorrupt)
    ensures Moved(s, i, to, candidate, now, TransitionJob(s, t, to, candidate, now))
  {
    hide JobReadable;
  }

  lemma {:induction false} RenewHeld(s: Store, t: Token, now: int, until: int, i: nat)
    requires Fence(s, t, now) == Some(i) && now < until && RenewLease(s, t, now, until) != Abort(StoreCorrupt)
    ensures Renewed(s, i, now, until, RenewLease(s, t, now, until))
  {
    hide JobReadable;
  }

  lemma {:induction false} FailureNamedIff(q: FailRequest)
    ensures FailArgumentsOk(q) <==> FailureNamed(q)
  {
  }

  lemma {:induction false} FailHeld(s: Store, q: FailRequest, i: nat)
    requires Fence(s, q.token, q.now) == Some(i) && FailArgumentsOk(q) && FailJob(s, q) != Abort(StoreCorrupt)
    ensures GivenUp(s, i, q, FailJob(s, q))
  {
    hide JobReadable;
  }

  lemma {:induction false} MoveMeans(s: Store, t: Token, to: JobState, candidate: Option<Id>, now: int)
    requires BasesOk(s.tables) && JobsOk(s.tables, s.jobs) && UniqueJobs(s.jobs)
    ensures MoveEffect(s, t, to, candidate, now, TransitionJob(s, t, to, candidate, now))
  {
    TransitionKeeps(s, t, to, candidate, now);
    hide BasesOk, JobsOk, Holds, Moved, WriteJob, Allowed;
    forall i: nat | Holds(s, t, now, i) ensures Moved(s, i, to, candidate, now, TransitionJob(s, t, to, candidate, now)) {
      HolderIsFound(s, t, now, i);
      MoveHeld(s, t, to, candidate, now, i);
    }
    if Fence(s, t, now).Some? {
      FoundHolds(s, t, now);
    }
  }

  lemma {:induction false} RenewMeans(s: Store, t: Token, now: int, until: int)
    requires BasesOk(s.tables) && JobsOk(s.tables, s.jobs) && UniqueJobs(s.jobs)
    ensures RenewEffect(s, t, now, until, RenewLease(s, t, now, until))
  {
    RenewKeeps(s, t, now, until);
    hide BasesOk, JobsOk, Holds, Renewed, WriteJob;
    if now < until {
      forall i: nat | Holds(s, t, now, i) ensures s.jobs[i].expires.Some? && Renewed(s, i, now, until, RenewLease(s, t, now, until)) {
        HolderIsFound(s, t, now, i);
        RenewHeld(s, t, now, until, i);
      }
    }
    if Fence(s, t, now).Some? {
      FoundHolds(s, t, now);
    }
  }

  lemma {:induction false} FailMeans(s: Store, q: FailRequest)
    requires BasesOk(s.tables) && JobsOk(s.tables, s.jobs) && UniqueJobs(s.jobs)
    ensures FailEffect(s, q, FailJob(s, q))
  {
    FailKeeps(s, q);
    FailureNamedIff(q);
    hide BasesOk, JobsOk, Holds, GivenUp, WriteJob, FailArgumentsOk, FailureNamed;
    if FailArgumentsOk(q) {
      forall i: nat | Holds(s, q.token, q.now, i) ensures GivenUp(s, i, q, FailJob(s, q)) {
        HolderIsFound(s, q.token, q.now, i);
        FailHeld(s, q, i);
      }
    }
    if Fence(s, q.token, q.now).Some? {
      FoundHolds(s, q.token, q.now);
    }
  }

  // ----- the sweep -----

  /** A row whose lease has run out goes back to PENDING, from where it can be claimed at once. */
  ghost predicate SweptRow(a: Job, now: int, b: Job) {
    if Leasable(a) && a.expires.Some? && a.expires.value <= now then
      && SameWork(a, b) && SameErrors(a, b) && b.attempts == a.attempts && Released(b)
      && b.state == Pending && b.candidate.None? && b.nextRetry.None? && b.committedAt.None? && b.updatedAt == now
      && forall later :: Ready(b, later)
    else b == a
  }

  ghost predicate SweepEffect(s: Store, now: int, r: Tx<seq<Job>>) {
    && r.Commit? && r.store.tables == s.tables && |r.store.jobs| == |s.jobs|
    && forall i :: 0 <= i < |s.jobs| ==> SweptRow(s.jobs[i], now, r.store.jobs[i])
  }

  lemma {:induction false} RecoveredIsSwept(a: Job, now: int)
    ensures SweptRow(a, now, Recovered(a, now))
  {
  }

  lemma {:induction false} SweepMeans(s: Store, now: int)
    requires BasesOk(s.tables) && JobsOk(s.tables, s.jobs)
    ensures SweepEffect(s, now, RecoverLeases(s, now))
  {
    RecoverKeeps(s, now);
    hide JobsOk, BasesOk, Recovered, JobReadable, SweptRow;
    forall i | 0 <= i < |s.jobs| ensures SweptRow(s.jobs[i], now, RecoveredRows(s.jobs, now)[i]) {
      RecoveredIsSwept(s.jobs[i], now);
    }
  }

  // ----- claims -----

  ghost predicate Older(a: Job, b: Job) {
    a.createdAt < b.createdAt || (a.createdAt == b.createdAt && exists k: nat :: SmallerAt(a.jobId, b.jobId, k))
  }

  /** The claimed row is leased to the worker under the next epoch and attempt, for its whole intent over the end of the
      chain, and forgets retry, error and candidate. */
  ghost predicate LeasedRow(s: Store, a: Job, q: ClaimRequest, b: Job) {
    var tip := Tip(Chain(s.tables.snapshots, a.session));
    && b.jobId == a.jobId && b.session == a.session && b.intent == a.intent && b.target == a.intent
    && b.base == tip.id && b.baseVersion == tip.version && b.createdAt == a.createdAt
    && b.state == Leased && b.owner == Some(q.worker) && b.expires == Some(q.leaseExpires)
    && b.epoch == a.epoch + 1 && b.attempts == a.attempts + 1 && b.updatedAt == q.now
    && b.candidate.None? && b.nextRetry.None? && b.committedAt.None?
    && b.errorStage.None? && b.errorCode.None? && b.errorMessage.None?
  }

  ghost predicate Oldest(s: Store, i: nat, now: int) {
    && i < |s.jobs| && Ready(s.jobs[i], now)
    && forall k :: 0 <= k < |s.jobs| && Ready(s.jobs[k], now) && k != i ==> Older(s.jobs[i], s.jobs[k])
  }

  ghost predicate ClaimEffect(s: Store, q: ClaimRequest, r: Tx<Option<Job>>) {
    if Blank(q.worker) || q.leaseExpires <= q.now then r == Abort(InvalidArgument)
    else if forall i :: 0 <= i < |s.jobs| ==> !Ready(s.jobs[i], q.now) then r == Commit(s, None)
    else
      exists i: nat :: Oldest(s, i, q.now) && r.Commit? && OnlyRow(s, i, r.store) && r.value == Some(r.store.jobs[i])
        && LeasedRow(s, s.jobs[i], q, r.store.jobs[i])
  }

  lemma {:induction false} LeaseIsLeased(s: Store, a: Job, q: ClaimRequest)
    ensures LeasedRow(s, a, q, Lease(a, Tip(Chain(s.tables.snapshots, a.session)), q))
  {
  }

  lemma {:induction false} BeforeIsOlder(a: Job, b: Job)
    ensures Before(a, b) <==> Older(a, b)
  {
    TextBeforeMeans(a.jobId, b.jobId);
  }

  lemma {:induction false} FirstIsOldest(s: Store, now: int)
    requires UniqueJobs(s.jobs)
    ensures var first := FirstEligible(s.jobs, now);
      if first.None? then forall i :: 0 <= i < |s.jobs| ==> !Ready(s.jobs[i], now) else Oldest(s, first.value, now)
  {
    hide FirstEligible, Before, Older;
    var first := FirstEligible(s.jobs, now);
    if first.Some? {
      forall k | 0 <= k < |s.jobs| && Ready(s.jobs[k], now) && k != first.value ensures Older(s.jobs[first.value], s.jobs[k]) {
        FirstEligibleIsLeast(s.jobs, now, k);
        BeforeIsOlder(s.jobs[first.value], s.jobs[k]);
      }
    }
  }

  lemma {:induction false} ClaimMeans(s: Store, q: ClaimRequest)
    requires BasesOk(s.tables) && JobsOk(s.tables, s.jobs) && UniqueJobs(s.jobs)
    ensures ClaimEffect(s, q, ClaimJob(s, q))
  {
    hide BasesOk, JobsOk, UniqueJobs, FirstEligible, ClaimLoop, Oldest, LeasedRow, Lease, Ready;
    if !Blank(q.worker) && q.now < q.leaseExpires {
      ClaimLeasesFirst(s, q);
      FirstIsOldest(s, q.now);
      var first := FirstEligible(s.jobs, q.now);
      if first.Some? {
        OldestIsReady(s, first.value, q.now);
        LeaseIsLeased(s, s.jobs[first.value], q);
      }
    }
  }

  lemma {:induction false} OldestIsReady(s: Store, i: nat, now: int)
    requires Oldest(s, i, now)
    ensures i < |s.jobs| && Ready(s.jobs[i], now)
  {
  }

  /** The row that a claim would cancel: nothing but its state, retry and time changes. No reachable store has one. */
  ghost predicate CancelledRow(a: Job, now: int, b: Job) {
    && SameWork(a, b) && SameErrors(a, b) && b.state == CancelledJob && b.nextRetry.None? && b.updatedAt == now
    && b.candidate == a.candidate && b.owner == a.owner && b.expires == a.expires && b.attempts == a.attempts
    && b.committedAt == a.committedAt
  }

  lemma {:induction false} CancelIs(a: Job, now: int)
    ensures CancelledRow(a, now, Cancel(a, now))
  {
  }

  // ----- intents -----

  /** A job that waits for its first worker. */
  ghost predicate FreshRow(job: Job, id: Id, session: string, intent: nat, base: Option<Id>, version: nat, now: int) {
    && job.jobId == id && job.session == session && job.state == Pending && job.target == intent && job.intent == intent
    && job.base == base && job.baseVersion == version && job.createdAt == now && job.updatedAt == now
    && job.candidate.None? && Released(job) && job.epoch == 0 && job.attempts == 0
    && job.nextRetry.None? && job.errorStage.None? && job.errorCode.None? && job.errorMessage.None? && job.committedAt.None?
  }

  ghost predicate OpenIn(s: Store, h: string, i: nat) {
    && i < |s.jobs| && s.jobs[i].session == h
    && s.jobs[i].state != CommittedJob && s.jobs[i].state != SupersededJob
    && s.jobs[i].state != FailedJob && s.jobs[i].state != CancelledJob
  }

  /** The intent goes into the open row: only a larger one changes it. */
  ghost predicate Folded(s: Store, i: nat, q: IntentRequest, r: Tx<Option<Job>>)
    requires i < |s.jobs|
  {
    var a := s.jobs[i];
    && r.Commit? && OnlyRow(s, i, r.store) && r.value == Some(r.store.jobs[i])
    && if q.target <= a.intent then r.store.jobs[i] == a
       else
         var b := r.store.jobs[i];
         && b.intent == q.target && b.updatedAt == q.now && SameErrors(a, b)
         && b.jobId == a.jobId && b.session == a.session && b.state == a.state && b.target == a.target
         && b.base == a.base && b.baseVersion == a.baseVersion && b.candidate == a.candidate && b.owner == a.owner
         && b.epoch == a.epoch && b.expires == a.expires && b.attempts == a.attempts && b.nextRetry == a.nextRetry
         && b.createdAt == a.createdAt && b.committedAt == a.committedAt
  }

  /** A row for the session is added at the end. */
  ghost predicate Opened(s: Store, q: IntentRequest, r: Tx<Option<Job>>) {
    var tip := Tip(Chain(s.tables.snapshots, q.session.hash));
    && r.Commit? && r.store.tables == s.tables && |r.store.jobs| == |s.jobs| + 1 && r.store.jobs[..|s.jobs|] == s.jobs
    && r.value == Some(r.store.jobs[|s.jobs|]) && q.target >= 0
    && FreshRow(r.store.jobs[|s.jobs|], q.jobId, q.session.hash, q.target, tip.id, tip.version, q.now)
  }

  ghost predicate IdUsed(s: Store, id: Id) {
    exists i :: 0 <= i < |s.jobs| && s.jobs[i].jobId == id
  }

  ghost predicate RaiseEffect(s: Store, q: IntentRequest, r: Tx<Option<Job>>) {
    var h := q.session.hash;
    if Blank(q.jobId) || q.target < 1 then r == Abort(InvalidArgument)
    else if h !in s.tables.sessions then r == Abort(UnknownSession)
    else if s.tables.sessions[h].key != q.session then r == Abort(SessionConflict)
    else if s.tables.sessions[h].next <= q.target then r == Abort(BeyondHighWater)
    else if q.target <= Tip(Chain(s.tables.snapshots, h)).coverage then r == Commit(s, None)
    else
      && (forall i: nat :: OpenIn(s, h, i) ==> Folded(s, i, q, r))
      && ((forall i: nat :: !OpenIn(s, h, i)) ==> if IdUsed(s, q.jobId) then r == Abort(JobConflict) else Opened(s, q, r))
  }

  /** A session has at most one open row, so the one that is found is the one there is. */
  lemma {:induction false} OpenIsFound(s: Store, h: string, i: nat)
    requires JobsOk(s.tables, s.jobs) && OpenIn(s, h, i)
    ensures FindOpen(s.jobs, h) == Some(i)
  {
    hide JobOk;
  }

  lemma {:induction false} FoundIsOpen(s: Store, h: string)
    ensures FindOpen(s.jobs, h).Some? ==> OpenIn(s, h, FindOpen(s.jobs, h).value)
  {
  }

  /** What a raise comes to once its arguments are in order. */
  lemma {:induction false} RaiseRow(s: Store, q: IntentRequest, tip: Base)
    requires RaiseIntent(s, q) != Abort(StoreCorrupt)
    requires !Blank(q.jobId) && q.target >= 1 && q.session.hash in s.tables.sessions && s.tables.sessions[q.session.hash].key == q.session
    requires ActiveBase(s.tables, q.session.hash) == Some(tip) && tip == Tip(Chain(s.tables.snapshots, q.session.hash))
    requires tip.coverage < q.target < s.tables.sessions[q.session.hash].next
    ensures var open, r := FindOpen(s.jobs, q.session.hash), RaiseIntent(s, q);
      if open.Some? then Folded(s, open.value, q, r) else if IdUsed(s, q.jobId) then r == Abort(JobConflict) else Opened(s, q, r)
  {
    hide JobReadable, ActiveBase, Chain, FindOpen;
  }

  lemma {:induction false} RaiseMeans(s: Store, q: IntentRequest)
    requires BasesOk(s.tables) && JobsOk(s.tables, s.jobs)
    ensures RaiseEffect(s, q, RaiseIntent(s, q))
  {
    hide JobsOk, JobReadable, Chain, FindOpen, OpenIn, Folded, Opened, IdUsed, NewJob;
    RaiseIntentKeeps(s, q);
    var h := q.session.hash;
    if !Blank(q.jobId) && q.target >= 1 && h in s.tables.sessions && s.tables.sessions[h].key == q.session
       && Tip(Chain(s.tables.snapshots, h)).coverage < q.target < s.tables.sessions[h].next {
      RaiseRow(s, q, Tip(Chain(s.tables.snapshots, h)));
      FoundIsOpen(s, h);
      forall i: nat | OpenIn(s, h, i) ensures FindOpen(s.jobs, h) == Some(i) {
        OpenIsFound(s, h, i);
      }
    }
  }

  // ----- capture -----

  /** Row `k` of the journal is in the session of the request, with its type and its idempotency key. */
  ghost predicate Keyed(t: Tables, q: CaptureRequest, k: JournalKey) {
    && k in t.journal && k.session == q.session.hash
    && t.journal[k].eventType == q.eventType && t.journal[k].idempotencyKey == q.idempotencyKey
  }

  /** The event carries everything the request says. */
  ghost predicate Carries(e: Event, q: CaptureRequest) {
    && e.eventId == q.eventId && e.session == q.session && e.eventType == q.eventType && e.content == q.content
    && e.idempotencyKey == q.idempotencyKey && e.tokenCount == q.tokenCount && e.createdAt == q.createdAt
  }

  ghost predicate EventIdUsed(t: Tables, id: Id) {
    exists k <- t.journal.Keys :: t.journal[k].eventId == id
  }

  function NextIn(t: Tables, h: string): (n: nat) {
    if h in t.sessions then t.sessions[h].next else 1
  }

  /** The journal has one more row, the request's event at the next sequence of its session, and nothing else changes. */
  ghost predicate Journaled(s: Store, q: CaptureRequest, r: Tx<Event>) {
    var h, next := q.session.hash, NextIn(s.tables, q.session.hash);
    && r.Commit? && Carries(r.value, q) && r.value.sequence == next
    && r.store.jobs == s.jobs && r.store.tables.capsules == s.tables.capsules
    && r.store.tables.snapshots == s.tables.snapshots && r.store.tables.active == s.tables.active
    && r.store.tables.journal == s.tables.journal[JournalKey(h, next) := r.value] && JournalKey(h, next) !in s.tables.journal
    && r.store.tables.sessions == s.tables.sessions[h := SessionRow(q.session, next + 1)]
  }

  /** A stored event answers a repeated request, and only an equal one; a new event needs a fresh id. */
  ghost predicate CaptureEffect(s: Store, q: CaptureRequest, r: Tx<Event>) {
    var t, h := s.tables, q.session.hash;
    if |q.eventId| == 0 || |q.idempotencyKey| == 0 then r == Abort(InvalidArgument)
    else if h in t.sessions && t.sessions[h].key != q.session then r == Abort(SessionConflict)
    else
      && (forall k :: Keyed(t, q, k) ==>
            if Carries(t.journal[k], q) then r == Commit(s, t.journal[k]) else r == Abort(IdempotencyConflict))
      && ((forall k :: !Keyed(t, q, k)) ==>
            if EventIdUsed(t, q.eventId) || SqlBlank(q.eventId) || SqlBlank(q.idempotencyKey) then r == Abort(EventConflict)
            else Journaled(s, q, r))
  }

  lemma {:induction false} ReplayIsKeyed(journal: map<JournalKey, Event>, q: CaptureRequest, below: nat)
    requires FindReplay(journal, q, below).Some?
    ensures exists k :: k in journal && k.session == q.session.hash && FindReplay(journal, q, below).value == journal[k]
  {
    if below > 1 {
      var key := JournalKey(q.session.hash, below - 1);
      if !(key in journal && journal[key].eventType == q.eventType && journal[key].idempotencyKey == q.idempotencyKey) {
        ReplayIsKeyed(journal, q, below - 1);
      }
    }
  }

  lemma {:induction false} KeyedIsReplayed(t: Tables, q: CaptureRequest, k: JournalKey)
    requires JournalOk(t) && Keyed(t, q, k)
    ensures FindReplay(t.journal, q, NextIn(t, q.session.hash)) == Some(t.journal[k])
  {
    var replay := FindReplay(t.journal, q, NextIn(t, q.session.hash));
    assert k == JournalKey(q.session.hash, k.sequence);
    ReplayIsKeyed(t.journal, q, NextIn(t, q.session.hash));
    var k' :| k' in t.journal && k'.session == q.session.hash && replay.value == t.journal[k'];
    assert SameTuple(t.journal, k, k');
  }

  lemma {:induction false} ReplayCarries(e: Event, q: CaptureRequest)
    ensures e == EventOf(q, e.sequence) <==> Carries(e, q)
  {
  }

  lemma {:induction false} CaptureMeans(s: Store, q: CaptureRequest)
    requires JournalOk(s.tables)
    ensures CaptureEffect(s, q, CaptureEvent(s, q))
  {
    var t, next := s.tables, NextIn(s.tables, q.session.hash);
    assert JournalKey(q.session.hash, next) !in t.journal;
    hide JournalOk, FindReplay, Keyed, Carries, EventIdTaken, EventIdUsed;
    var replay := FindReplay(t.journal, q, next);
    assert EventIdTaken(t.journal, q.eventId) <==> EventIdUsed(t, q.eventId) by {
      UsedIsTaken(t, q.eventId);
    }
    forall k | Keyed(t, q, k) ensures k in t.journal && replay == Some(t.journal[k]) {
      KeyedInJournal(t, q, k);
      KeyedIsReplayed(t, q, k);
    }
    if replay.Some? {
      ReplayIsKeyed(t.journal, q, next);
      ReplayCarries(replay.value, q);
      FoundIsKeyed(t, q, next);
    } else {
      ReplayCarries(EventOf(q, next), q);
    }
  }

  lemma {:induction false} KeyedInJournal(t: Tables, q: CaptureRequest, k: JournalKey)
    requires Keyed(t, q, k)
    ensures k in t.journal
  {
  }

  lemma {:induction false} FoundIsKeyed(t: Tables, q: CaptureRequest, below: nat)
    requires FindReplay(t.journal, q, below).Some?
    ensures exists k :: Keyed(t, q, k)
  {
    ReplayIsKeyed(t.journal, q, below);
    var k :| k in t.journal && k.session == q.session.hash && FindReplay(t.journal, q, below).value == t.journal[k];
    assert Keyed(t, q, k);
  }

  lemma {:induction false} UsedIsTaken(t: Tables, id: Id)
    ensures EventIdTaken(t.journal, id) <==> EventIdUsed(t, id)
  {
  }

  /** No two journal rows of a session share type and idempotency key, in any reachable store. */
  lemma {:induction false} TuplesAreUnique(calls: seq<Call>, k: JournalKey, k': JournalKey)
    requires var j := Execute(EMPTY, calls).tables.journal;
      && k in j && k' in j && k.session == k'.session
      && j[k].eventType == j[k'].eventType && j[k].idempotencyKey == j[k'].idempotencyKey
    ensures k == k'
  {
    ReachableInv(calls);
    assert SameTuple(Execute(EMPTY, calls).tables.journal, k, k');
  }

  // ----- runs -----

  /** What the call does, for every call but a publication. */
  ghost predicate Effect(s: Store, c: Call) {
    match c
    case Capture(q) => CaptureEffect(s, q, CaptureEvent(s, q))
    case Raise(q) => RaiseEffect(s, q, RaiseIntent(s, q))
    case ClaimNext(q) => ClaimEffect(s, q, ClaimJob(s, q))
    case Move(t, to, candidate, now) => MoveEffect(s, t, to, candidate, now, TransitionJob(s, t, to, candidate, now))
    case Extend(t, now, until) => RenewEffect(s, t, now, until, RenewLease(s, t, now, until))
    case GiveUp(q) => FailEffect(s, q, FailJob(s, q))
    case Sweep(now) => SweepEffect(s, now, RecoverLeases(s, now))
    case Submit(_) => true
  }

  /** In every reachable store each call has exactly its effect or its error. */
  lemma {:induction false} CallsMean(calls: seq<Call>, c: Call)
    ensures Effect(Execute(EMPTY, calls), c)
  {
    hide JournalOk, ChainOk, BundlesOk, LinksOk, JobsOk, CaptureEffect, RaiseEffect, ClaimEffect, MoveEffect, RenewEffect, FailEffect,
      SweepEffect, UniqueJobs, BasesOk;
    var s := Execute(EMPTY, calls);
    ReachableInv(calls);
    BasesFromTables(s.tables);
    ReachableUnique(s);
    match c
    case Capture(q) => CaptureMeans(s, q);
    case Raise(q) => RaiseMeans(s, q);
    case ClaimNext(q) => ClaimMeans(s, q);
    case Move(t, to, candidate, now) => MoveMeans(s, t, to, candidate, now);
    case Extend(t, now, until) => RenewMeans(s, t, now, until);
    case GiveUp(q) => FailMeans(s, q);
    case Sweep(now) => SweepMeans(s, now);
    case Submit(_) =>
  }
}
