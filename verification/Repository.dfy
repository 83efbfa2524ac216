/** The repository object: tables that each method rewrites in place, one transaction per call.
    Every method is proved against the transaction of the same call in `Store`. */
module Repository {
  import opened Common
  import opened Domain
  import opened Store
  import opened StoreCalls

  /** What the caller sees of a transaction: its value, or the error it was rolled back with. */
  function Reply<T>(r: Tx<T>): (a: Read<T>) {
    if r.Commit? then Ok(r.value) else Failed(r.error)
  }

  lemma {:induction false} FirstEligibleStep(rows: seq<Job>, now: int, i: nat)
    requires i < |rows|
    ensures var rest := FirstEligible(rows[..i], now);
      FirstEligible(rows[..i + 1], now)
        == if rows[i].Eligible(now) && (rest.None? || Before(rows[i], rows[rest.value])) then Some(i) else rest
  {
    assert rows[..i + 1][..i] == rows[..i];
  }

  class Repository {
    var sessions: map<string, SessionRow>
    var journal: map<JournalKey, Event>
    var capsules: map<Id, Capsule>
    var snapshots: seq<SnapshotRow>
    var active: map<string, Pointer>
    var jobs: seq<Job>

    function Contents(): (s: Store)
      reads this
    {
      Store(Tables(sessions, journal, capsules, snapshots, active), jobs)
    }

    constructor ()
      ensures Contents() == EMPTY
    {
      sessions, journal, capsules, snapshots, active, jobs := map[], map[], map[], [], map[], [];
    }

    method Capture(q: CaptureRequest) returns (r: Read<Event>)
      modifies this
      ensures Contents() == Apply(old(Contents()), StoreCalls.Capture(q))
      ensures r == Reply(CaptureEvent(old(Contents()), q))
    {
      if q.eventId == "" || q.idempotencyKey == "" {
        return Failed(InvalidArgument);
      }
      var h := q.session.hash;
      if h in sessions && sessions[h].key != q.session {
        return Failed(SessionConflict);
      }
      var next := if h in sessions then sessions[h].next else 1;
      var replay := FindReplay(journal, q, next);
      if replay.Some? {
        return if replay.value == EventOf(q, replay.value.sequence) then Ok(replay.value) else Failed(IdempotencyConflict);
      }
      var key := JournalKey(h, next);
      if EventIdTaken(journal, q.eventId) || SqlBlank(q.eventId) || SqlBlank(q.idempotencyKey) || key in journal {
        return Failed(EventConflict);
      }
      var event := EventOf(q, next);
      sessions := sessions[h := SessionRow(q.session, next + 1)];
      journal := journal[key := event];
      return Ok(event);
    }

    method Raise(q: IntentRequest) returns (r: Read<Option<Job>>)
      modifies this
      ensures Contents() == Apply(old(Contents()), StoreCalls.Raise(q))
      ensures r == Reply(RaiseIntent(old(Contents()), q))
    {
      if Blank(q.jobId) || q.target < 1 {
        return Failed(InvalidArgument);
      }
      var h := q.session.hash;
      if h !in sessions {
        return Failed(UnknownSession);
      } else if sessions[h].key != q.session {
        return Failed(SessionConflict);
      } else if q.target > sessions[h].next - 1 {
        return Failed(BeyondHighWater);
      }
      var base := ActiveBase(Contents().tables, h);
      if base.None? {
        return Failed(StoreCorrupt);
      } else if q.target <= base.value.coverage {
        return Ok(None);
      }
      var open := FindOpen(jobs, h);
      if open.None? && FindJob(jobs, q.jobId).Some? {
        return Failed(JobConflict);
      }
      var before := jobs;
      var k := |jobs|;
      if open.None? {
        jobs := jobs + [NewJob(q.jobId, h, q.target, base.value.id, base.value.version, q.now)];
      } else {
        k := open.value;
        if q.target > jobs[k].intent {
          jobs := jobs[k := jobs[k].(intent := q.target, updatedAt := q.now)];
        }
      }
      if !JobReadable(Contents().tables, jobs[k]) {
        jobs := before;
        return Failed(StoreCorrupt);
      }
      return Ok(Some(jobs[k]));
    }

    /** The `ORDER BY created_at, job_id LIMIT 1` scan. */
    method ScanEligible(now: int) returns (r: Option<nat>)
      ensures r == FirstEligible(jobs, now)
    {
      r := None;
      for i := 0 to |jobs|
        invariant r == FirstEligible(jobs[..i], now)
      {
        FirstEligibleStep(jobs, now, i);
        if jobs[i].Eligible(now) && (r.None? || Before(jobs[i], jobs[r.value])) {
          r := Some(i);
        }
      }
      assert jobs[..|jobs|] == jobs;
    }

    method Claim(q: ClaimRequest) returns (r: Read<Option<Job>>)
      modifies this
      ensures Contents() == Apply(old(Contents()), ClaimNext(q))
      ensures r == Reply(ClaimJob(old(Contents()), q))
    {
      if Blank(q.worker) || q.leaseExpires <= q.now {
        return Failed(InvalidArgument);
      }
      ghost var s0 := Contents();
      var before := jobs;
      while true
        invariant Contents().tables == s0.tables && before == s0.jobs
        invariant ClaimLoop(Contents(), q) == ClaimLoop(s0, q)
        decreases EligibleCount(jobs, q.now)
      {
        var first := ScanEligible(q.now);
        if first.None? {
          return Ok(None);
        }
        var job := jobs[first.value];
        var base := ActiveBase(Contents().tables, job.session);
        if base.None? {
          jobs := before;
          return Failed(StoreCorrupt);
        } else if base.value.coverage < job.intent {
          var leased := Lease(job, base.value, q);
          if !JobReadable(Contents().tables, leased) {
            jobs := before;
            return Failed(StoreCorrupt);
          }
          jobs := jobs[first.value := leased];
          return Ok(Some(leased));
        }
        EligibleCountUpdate(jobs, q.now, first.value, Cancel(job, q.now));
        jobs := jobs[first.value := Cancel(job, q.now)];
      }
    }

    method Transition(t: Token, to: JobState, candidate: Option<Id>, now: int) returns (r: Read<Job>)
      modifies this
      ensures Contents() == Apply(old(Contents()), Move(t, to, candidate, now))
      ensures r == Reply(TransitionJob(old(Contents()), t, to, candidate, now))
    {
      var i := Fence(Contents(), t, now);
      if i.None? {
        return Failed(StaleLease);
      } else if !Allowed(jobs[i.value].state, to) {
        return Failed(BadTransition);
      } else if to.ReadyToCommit? && (candidate.None? || Blank(candidate.value)) {
        return Failed(BadTransition);
      } else if !to.ReadyToCommit? && candidate.Some? {
        return Failed(BadTransition);
      }
      r := Rewrite(i.value, jobs[i.value].(state := to, candidate := candidate, updatedAt := now));
    }

    /** One `UPDATE` and the read back of the row; a row that is no canonical envelope is rolled back. */
    method Rewrite(i: nat, job: Job) returns (r: Read<Job>)
      requires i < |jobs|
      modifies this
      ensures Contents() == StoreAfter(old(Contents()), WriteJob(old(Contents()), i, job))
      ensures r == Reply(WriteJob(old(Contents()), i, job))
    {
      var before := jobs;
      jobs := jobs[i := job];
      if JobReadable(Contents().tables, job) {
        return Ok(job);
      }
      jobs := before;
      return Failed(StoreCorrupt);
    }

    method Renew(t: Token, now: int, until: int) returns (r: Read<Job>)
      modifies this
      ensures Contents() == Apply(old(Contents()), Extend(t, now, until))
      ensures r == Reply(RenewLease(old(Contents()), t, now, until))
    {
      if until <= now {
        return Failed(InvalidArgument);
      }
      var i := Fence(Contents(), t, now);
      if i.None? {
        return Failed(StaleLease);
      } else if until <= jobs[i.value].expires.value {
        return Failed(BadTransition);
      }
      r := Rewrite(i.value, jobs[i.value].(expires := Some(until), updatedAt := now));
    }

    method Fail(q: FailRequest) returns (r: Read<Job>)
      modifies this
      ensures Contents() == Apply(old(Contents()), GiveUp(q))
      ensures r == Reply(FailJob(old(Contents()), q))
    {
      if !FailArgumentsOk(q) {
        return Failed(InvalidArgument);
      }
      var i := Fence(Contents(), q.token, q.now);
      if i.None? {
        return Failed(StaleLease);
      }
      r := Rewrite(i.value, FailedRow(jobs[i.value], q));
    }

    method Recover(now: int) returns (r: Read<seq<Job>>)
      modifies this
      ensures Contents() == Apply(old(Contents()), Sweep(now))
      ensures r == Reply(RecoverLeases(old(Contents()), now))
    {
      hide Job.WellFormed, Before, JobReadable, Swept, Recovered, Job.Expired, Placed;
      NothingSwept(now);
      var before := jobs;
      var recovered: seq<Job> := [];
      for i := 0 to |before|
        invariant Contents().tables == old(Contents().tables)
        invariant |jobs| == |before| && recovered == Swept(before[..i], now)
        invariant forall k :: 0 <= k < i ==> jobs[k] == Recovered(before[k], now)
        invariant forall k :: i <= k < |before| ==> jobs[k] == before[k]
        invariant forall k :: 0 <= k < i && before[k].Expired(now) ==> JobReadable(Contents().tables, jobs[k])
      {
        SweptNext(before, now, i);
        RecoveredOnly(jobs[i], now);
        if jobs[i].Expired(now) {
          recovered := Placed(recovered, Recovered(jobs[i], now));
          jobs := jobs[i := Recovered(jobs[i], now)];
          if !JobReadable(Contents().tables, jobs[i]) {
            jobs := before;
            return Failed(StoreCorrupt);
          }
        }
      }
      assert before[..|before|] == before;
      assert jobs == RecoveredRows(before, now);
      return Ok(recovered);
    }

    /** `_insert_or_verify_capsule` for each membership; on a conflict the rows inserted so far stay, and the caller
        rolls them back. */
    method InsertCapsuleRows(ms: seq<Membership>) returns (ok: bool)
      modifies this`capsules
      ensures ok <==> InsertCapsules(old(capsules), ms).Some?
      ensures ok ==> capsules == InsertCapsules(old(capsules), ms).value
    {
      for i := 0 to |ms|
        invariant InsertCapsules(capsules, ms[i..]) == InsertCapsules(old(capsules), ms)
      {
        var c := ms[i].capsule;
        assert ms[i..][1..] == ms[i + 1..];
        if c.capsuleId in capsules {
          if capsules[c.capsuleId] != c {
            return false;
          }
        } else if SqlBlank(c.capsuleId) {
          return false;
        } else {
          capsules := capsules[c.capsuleId := c];
        }
      }
      return true;
    }

    /** The savepoint: insert the candidate and move the pointer, or roll everything back. */
    method TryInsert(i: nat, committed: Snapshot, ms: seq<Membership>) returns (ok: bool)
      requires i < |jobs|
      modifies this`capsules, this`snapshots, this`active
      ensures var inserted := InsertCandidate(old(Contents().tables), jobs[i], committed, ms);
        ok == inserted.Some? && Contents().tables == if ok then inserted.value else old(Contents().tables)
    {
      var savedCapsules, savedSnapshots := capsules, snapshots;
      ok := InsertCapsuleRows(ms);
      if ok && !SnapshotRowRejected(snapshots, committed) {
        snapshots := snapshots + [SnapshotRow(committed, MemberRows(ms))];
        ok := (forall m <- ms :: !SqlBlank(m.slot)) && CasWins(Contents().tables, jobs[i]);
        if ok {
          active := active[jobs[i].session := Pointer(committed.snapshotId, jobs[i].baseVersion + 1)];
          return;
        }
      }
      capsules, snapshots := savedCapsules, savedSnapshots;
      return false;
    }

    /** `_preserve_follow_up` in place. */
    method PreserveFollowUp(job: Job, winner: Id, coverage: nat, version: nat, id: Id, now: int) returns (ok: bool)
      modifies this`jobs
      ensures var rows := FollowUp(old(jobs), job, winner, coverage, version, id, now);
        ok == rows.Some? && jobs == if ok then rows.value else old(jobs)
    {
      if job.intent <= coverage {
        return true;
      }
      var open := FindOpen(jobs, job.session);
      if open.Some? {
        if job.intent > jobs[open.value].intent {
          jobs := jobs[open.value := jobs[open.value].(intent := job.intent, updatedAt := now)];
        }
        return true;
      }
      if FindJob(jobs, id).Some? || SqlBlank(id) {
        return false;
      }
      jobs := jobs + [NewJob(id, job.session, job.intent, Some(winner), version, now)];
      return true;
    }

    /** `_finish_publish_job` and the follow-up. */
    method FinishJob(i: nat, outcome: PublishOutcome, winner: Id, coverage: nat, version: nat, q: PublishRequest)
      returns (r: Read<PublishResult>)
      requires i < |jobs|
      modifies this`jobs
      ensures Contents() == StoreAfter(old(Contents()), Finish(old(Contents()), i, outcome, winner, coverage, version, q))
      ensures r == Reply(Finish(old(Contents()), i, outcome, winner, coverage, version, q))
    {
      var before, done := jobs, FinishedJob(jobs[i], outcome, q.now);
      jobs := jobs[i := done];
      if !JobReadable(Contents().tables, done) {
        jobs := before;
        return Failed(StoreCorrupt);
      }
      var ok := PreserveFollowUp(done, winner, coverage, version, q.followUpId, q.now);
      if !ok {
        jobs := before;
        return Failed(JobConflict);
      }
      return Ok(PublishResult(outcome, done, winner, version));
    }

    method Publish(q: PublishRequest) returns (r: Read<PublishResult>)
      modifies this
      ensures Contents() == Apply(old(Contents()), Submit(q))
      ensures r == Reply(PublishSnapshot(old(Contents()), q))
    {
      hide Admission, Conclude;
      var admitted := Admission(Contents(), q);
      if admitted.Failed? {
        return Failed(admitted.error);
      }
      r := Settle(admitted.value, q);
    }

    method Settle(i: nat, q: PublishRequest) returns (r: Read<PublishResult>)
      requires i < |jobs|
      modifies this
      ensures Contents() == StoreAfter(old(Contents()), Conclude(old(Contents()), i, q))
      ensures r == Reply(Conclude(old(Contents()), i, q))
    {
      var before := Contents().tables;
      var inserted := TryInsert(i, CommittedEnvelope(q.candidate, q.now), q.memberships);
      if inserted {
        r := FinishJob(i, PublishedCommitted, q.candidate.snapshotId, q.candidate.coverage, jobs[i].baseVersion + 1, q);
        if r.Failed? {
          capsules, snapshots, active := before.capsules, before.snapshots, before.active;
        }
        return;
      }
      if jobs[i].session !in active {
        return Failed(NoWinner);
      }
      var pointer := active[jobs[i].session];
      var winner := LoadBundle(Contents().tables, pointer.snapshotId, q.candidate.session);
      if winner.None? {
        return Failed(StoreCorrupt);
      }
      r := FinishJob(i, PublishedSuperseded, pointer.snapshotId, winner.value.row.envelope.coverage, pointer.version, q);
    }
  }
}
