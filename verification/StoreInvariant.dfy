/** What every transaction keeps. */
module StoreInvariant {
  import opened Common
  import opened Domain
  import opened Store
  import Gate = PublicationGate

  /** The committed snapshots of one session, oldest first. */
  function Chain(rows: seq<SnapshotRow>, session: string): (c: seq<SnapshotRow>)
    ensures forall row :: row in c <==> row in rows && row.envelope.session.hash == session
  {
    if rows == [] then []
    else
      var last := rows[|rows| - 1];
      Chain(rows[..|rows| - 1], session) + (if last.envelope.session.hash == session then [last] else [])
  }

  lemma {:induction false} ChainAppend(rows: seq<SnapshotRow>, row: SnapshotRow, session: string)
    ensures Chain(rows + [row], session)
      == Chain(rows, session) + (if row.envelope.session.hash == session then [row] else [])
  {
    assert (rows + [row])[..|rows|] == rows;
  }

  function CapsulesIn(capsules: map<Id, Capsule>, row: SnapshotRow): (r: seq<Capsule>) {
    var bundle := Bundle(capsules, row.members);
    if bundle.Some? then bundle.value else []
  }

  /** `id` is the id of a journal event of the session with `lo < sequence <= hi`. */
  ghost predicate Cites(journal: map<JournalKey, Event>, session: string, lo: nat, hi: nat, id: Id) {
    exists n :: lo < n <= hi && JournalKey(session, n) in journal && journal[JournalKey(session, n)].eventId == id
  }

  /** Every source cited by an active item, an active anchor or a capsule is covered by the row. */
  ghost predicate SourcesCovered(journal: map<JournalKey, Event>, capsules: seq<Capsule>, session: string, coverage: nat) {
    && (forall c <- capsules :: forall id <- c.sources :: Cites(journal, session, 0, coverage, id))
    && (forall r <- Gate.SemanticRecords(capsules) :: r.status.Active? ==>
          forall id <- r.sources :: Cites(journal, session, 0, coverage, id))
    && (forall a <- ActiveAnchors(capsules) :: forall id <- a.sources :: Cites(journal, session, 0, coverage, id))
  }

  /** A superseded or retracted record for `id` in the newer capsules that cites an event of the delta. */
  ghost predicate Retired(journal: map<JournalKey, Event>, newer: seq<Capsule>, session: string, lo: nat, hi: nat, id: Id) {
    exists r <- Gate.SemanticRecords(newer) ::
      r.stableId == id && (r.status.Superseded? || r.status.Retracted?)
      && exists source <- r.sources :: Cites(journal, session, lo, hi, source)
  }

  /** One publication step: anchors survive unchanged, and active items survive or are retired by the delta. */
  ghost predicate Continues(journal: map<JournalKey, Event>, older: seq<Capsule>, newer: seq<Capsule>, session: string, lo: nat, hi: nat) {
    && (forall a <- ActiveAnchors(older) :: a in ActiveAnchors(newer))
    && (forall id <- Gate.ActiveIds(older) :: id in Gate.ActiveIds(newer) || Retired(journal, newer, session, lo, hi, id))
  }

  ghost predicate JournalOk(t: Tables) {
    && (forall h <- t.sessions.Keys :: t.sessions[h].key.hash == h && 1 <= t.sessions[h].next)
    && (forall k :: k in t.journal <==> k.session in t.sessions && 1 <= k.sequence < t.sessions[k.session].next)
    && (forall k <- t.journal.Keys :: t.journal[k].session == t.sessions[k.session].key && t.journal[k].sequence == k.sequence)
    && (forall k <- t.journal.Keys, k' <- t.journal.Keys :: t.journal[k].eventId == t.journal[k'].eventId ==> k == k')
    && (forall k <- t.journal.Keys, k' <- t.journal.Keys :: SameTuple(t.journal, k, k') ==> k == k')
  }

  /** The rows share the idempotency tuple: session, type (which decides the source hook) and idempotency key. */
  ghost predicate SameTuple(journal: map<JournalKey, Event>, k: JournalKey, k': JournalKey)
    requires k in journal && k' in journal
  {
    && k.session == k'.session && journal[k].eventType == journal[k'].eventType
    && journal[k].idempotencyKey == journal[k'].idempotencyKey
  }

  /** The pointer a chain must have: its last snapshot, at a version equal to its length. */
  function Tip(chain: seq<SnapshotRow>): (b: Base) {
    if chain == [] then Base(None, 0, 0)
    else Base(Some(chain[|chain| - 1].envelope.snapshotId), |chain|, chain[|chain| - 1].envelope.coverage)
  }

  /** `row` is based on the end of `before` and covers more, within the journal. */
  ghost predicate Follows(before: seq<SnapshotRow>, row: SnapshotRow, next: nat) {
    row.envelope.base == Tip(before).id && Tip(before).coverage < row.envelope.coverage < next
  }

  ghost predicate Linked(chain: seq<SnapshotRow>, next: nat) {
    forall i :: 0 <= i < |chain| ==> Follows(chain[..i], chain[i], next)
  }

  /** The active pointer is the tip of the chain, and is there exactly when the chain is. */
  ghost predicate PointerOk(active: map<string, Pointer>, h: string, chain: seq<SnapshotRow>) {
    && (h in active <==> chain != [])
    && (h in active ==> Tip(chain).id == Some(active[h].snapshotId) && Tip(chain).version == active[h].version)
  }

  ghost predicate DistinctIds(rows: seq<SnapshotRow>) {
    forall i, j :: 0 <= i < j < |rows| ==> rows[i].envelope.snapshotId != rows[j].envelope.snapshotId
  }

  ghost predicate ChainOk(t: Tables) {
    && DistinctIds(t.snapshots)
    && (forall row <- t.snapshots :: row.envelope.session.hash in t.sessions)
    && (forall h <- t.sessions.Keys :: Linked(Chain(t.snapshots, h), t.sessions[h].next))
    && (forall h :: PointerOk(t.active, h, Chain(t.snapshots, h)))
  }

  ghost predicate RowOk(t: Tables, row: SnapshotRow) {
    && RowReadable(t, row, row.envelope.session)
    && row.envelope.snapshotId != ""
    && row.envelope.sourceHighWater == row.envelope.coverage
    && SourcesCovered(t.journal, CapsulesIn(t.capsules, row), row.envelope.session.hash, row.envelope.coverage)
  }

  ghost predicate BundlesOk(t: Tables) {
    && (forall id <- t.capsules.Keys :: t.capsules[id].capsuleId == id)
    && (forall row <- t.snapshots :: RowOk(t, row))
  }

  ghost predicate StepsContinue(t: Tables, chain: seq<SnapshotRow>, session: string) {
    forall i :: 0 < i < |chain| ==>
      Continues(t.journal, CapsulesIn(t.capsules, chain[i - 1]), CapsulesIn(t.capsules, chain[i]), session,
                chain[i - 1].envelope.coverage, chain[i].envelope.coverage)
  }

  ghost predicate LinksOk(t: Tables) {
    forall h <- t.sessions.Keys :: StepsContinue(t, Chain(t.snapshots, h), h)
  }

  ghost predicate TablesOk(t: Tables) {
    JournalOk(t) && ChainOk(t) && BundlesOk(t) && LinksOk(t)
  }

  /** One job row against the tables it refers to. */
  ghost predicate JobOk(t: Tables, job: Job) {
    && job.WellFormed() && !job.state.CancelledJob?
    && (job.candidate.Some? ==> !Blank(job.candidate.value))
    && job.session in t.sessions
    && 1 <= job.target <= job.intent < t.sessions[job.session].next
    && (!job.state.Terminal() ==>
          var tip := Tip(Chain(t.snapshots, job.session));
          job.base == tip.id && job.baseVersion == tip.version && tip.coverage < job.target)
  }

  ghost predicate JobsOk(t: Tables, jobs: seq<Job>) {
    && (forall i :: 0 <= i < |jobs| ==> JobOk(t, jobs[i]))
    && (forall i, j :: 0 <= i < j < |jobs| ==> jobs[i].jobId != jobs[j].jobId)
    && (forall i, j :: 0 <= i < j < |jobs| && jobs[i].session == jobs[j].session ==>
          jobs[i].state.Terminal() || jobs[j].state.Terminal())
  }

  ghost predicate Inv(s: Store) {
    TablesOk(s.tables) && JobsOk(s.tables, s.jobs)
  }

  lemma {:induction false} InitHolds()
    ensures Inv(EMPTY)
  {
  }

  // ----- lookups under the invariant -----

  lemma {:induction false} FindSnapshotUnique(rows: seq<SnapshotRow>, row: SnapshotRow)
    requires DistinctIds(rows) && row in rows
    ensures FindSnapshot(rows, row.envelope.snapshotId) == Some(row)
  {
  }

  /** All a job transaction needs to know of the other tables. */
  ghost predicate BasesOk(t: Tables) {
    forall h <- t.sessions.Keys ::
      && t.sessions[h].key.hash == h
      && ActiveBase(t, h) == Some(Tip(Chain(t.snapshots, h)))
      && var tip := Tip(Chain(t.snapshots, h));
         (tip.id.None? <==> tip.version == 0) && (tip.id.Some? ==> tip.id.value != "")
  }

  /** The active pointer always resolves to the end of the session's chain. */
  lemma {:induction false} ActiveIsTip(t: Tables, h: string)
    requires ChainOk(t)
    ensures ActiveBase(t, h) == Some(Tip(Chain(t.snapshots, h)))
  {
    var chain := Chain(t.snapshots, h);
    assert PointerOk(t.active, h, chain);
    if chain != [] {
      FindSnapshotUnique(t.snapshots, chain[|chain| - 1]);
    }
  }

  lemma {:induction false} TipNonEmpty(t: Tables, h: string)
    requires BundlesOk(t)
    ensures Chain(t.snapshots, h) != [] ==> Tip(Chain(t.snapshots, h)).id.value != ""
  {
    var chain := Chain(t.snapshots, h);
    if chain != [] {
      assert RowOk(t, chain[|chain| - 1]);
    }
  }

  lemma {:induction false} BasesFromTables(t: Tables)
    requires TablesOk(t)
    ensures BasesOk(t)
  {
    forall h | h in t.sessions
      ensures ActiveBase(t, h) == Some(Tip(Chain(t.snapshots, h)))
      ensures Chain(t.snapshots, h) != [] ==> Tip(Chain(t.snapshots, h)).id.value != ""
    {
      ActiveIsTip(t, h);
      TipNonEmpty(t, h);
    }
  }

  lemma {:induction false} ReadableUnderInv(t: Tables, job: Job)
    requires BasesOk(t) && JobOk(t, job)
    ensures JobReadable(t, job)
  {
  }

  /** The journal slice of a covered range: complete, of one session, and citing exactly that range. */
  lemma {:induction false} EventsBetweenComplete(t: Tables, h: string, lo: nat, hi: nat)
    requires JournalOk(t) && h in t.sessions && lo <= hi < t.sessions[h].next
    ensures Gate.Sequences(EventsBetween(t.journal, h, lo, hi)) == Gate.Range(lo, hi)
    ensures forall e <- EventsBetween(t.journal, h, lo, hi) :: e.session == t.sessions[h].key
    ensures forall id <- Gate.EventIds(EventsBetween(t.journal, h, lo, hi)) :: Cites(t.journal, h, lo, hi, id)
    decreases hi
  {
    if lo < hi {
      EventsBetweenComplete(t, h, lo, hi - 1);
      var shorter := EventsBetween(t.journal, h, lo, hi - 1);
      var events := EventsBetween(t.journal, h, lo, hi);
      assert JournalKey(h, hi) in t.journal;
      assert events == shorter + [t.journal[JournalKey(h, hi)]];
      assert Gate.Sequences(events) == Gate.Sequences(shorter) + [hi];
      assert Gate.Range(lo, hi) == Gate.Range(lo, hi - 1) + [hi];
      forall id | id in Gate.EventIds(events)
        ensures Cites(t.journal, h, lo, hi, id)
      {
        if id in Gate.EventIds(shorter) {
          assert Cites(t.journal, h, lo, hi - 1, id);
        } else {
          assert id == t.journal[JournalKey(h, hi)].eventId;
        }
      }
    }
  }

  // ----- transactions that touch only job rows -----

  /** A row update that keeps identity and session and does not reopen a terminal job. */
  lemma {:induction false} RowUpdateKeeps(t: Tables, jobs: seq<Job>, i: nat, job: Job)
    requires JobsOk(t, jobs) && i < |jobs|
    requires JobOk(t, job) && job.jobId == jobs[i].jobId && job.session == jobs[i].session
    requires jobs[i].state.Terminal() ==> job.state.Terminal()
    ensures JobsOk(t, jobs[i := job])
  {
  }

  lemma {:induction false} NewRowKeeps(t: Tables, jobs: seq<Job>, job: Job)
    requires JobsOk(t, jobs) && JobOk(t, job)
    requires FindJob(jobs, job.jobId).None? && FindOpen(jobs, job.session).None?
    ensures JobsOk(t, jobs + [job])
  {
  }

  lemma {:induction false} RaiseIntentKeeps(s: Store, q: IntentRequest)
    requires BasesOk(s.tables) && JobsOk(s.tables, s.jobs)
    ensures var r := RaiseIntent(s, q); r.Commit? ==> r.store.tables == s.tables && JobsOk(s.tables, r.store.jobs)
    ensures RaiseIntent(s, q) != Abort(StoreCorrupt)
  {
    var h := q.session.hash;
    if !Blank(q.jobId) && q.target >= 1 && h in s.tables.sessions && s.tables.sessions[h].key == q.session
       && Tip(Chain(s.tables.snapshots, h)).coverage < q.target < s.tables.sessions[h].next {
      var tip := Tip(Chain(s.tables.snapshots, h));
      var open := FindOpen(s.jobs, h);
      if open.Some? {
        var job := s.jobs[open.value];
        var folded := if q.target > job.intent then job.(intent := q.target, updatedAt := q.now) else job;
        assert JobOk(s.tables, job);
        ReadableUnderInv(s.tables, folded);
        RowUpdateKeeps(s.tables, s.jobs, open.value, folded);
      } else if FindJob(s.jobs, q.jobId).None? {
        var job := NewJob(q.jobId, h, q.target, tip.id, tip.version, q.now);
        ReadableUnderInv(s.tables, job);
        NewRowKeeps(s.tables, s.jobs, job);
      }
    }
  }

  lemma {:induction false} LeaseOk(t: Tables, job: Job, q: ClaimRequest)
    requires BasesOk(t) && JobOk(t, job) && !job.state.Terminal() && q.worker != ""
    ensures var leased := Lease(job, Tip(Chain(t.snapshots, job.session)), q); JobOk(t, leased) && JobReadable(t, leased)
  {
  }

  lemma {:induction false} ClaimFirstRow(s: Store, q: ClaimRequest, i: nat, tip: Base)
    requires FirstEligible(s.jobs, q.now) == Some(i) && ActiveBase(s.tables, s.jobs[i].session) == Some(tip)
    requires tip.coverage < s.jobs[i].intent && JobReadable(s.tables, Lease(s.jobs[i], tip, q))
    ensures ClaimLoop(s, q) == Commit(s.(jobs := s.jobs[i := Lease(s.jobs[i], tip, q)]), Some(Lease(s.jobs[i], tip, q)))
  {
  }

  /** Under the invariant the claim loop never cancels: its first eligible row is leased. */
  lemma {:induction false} ClaimLeasesFirst(s: Store, q: ClaimRequest)
    requires BasesOk(s.tables) && JobsOk(s.tables, s.jobs)
    requires !Blank(q.worker) && q.now < q.leaseExpires
    ensures var first := FirstEligible(s.jobs, q.now);
      ClaimJob(s, q) ==
        if first.None? then Commit(s, None)
        else
          var leased := Lease(s.jobs[first.value], Tip(Chain(s.tables.snapshots, s.jobs[first.value].session)), q);
          Commit(s.(jobs := s.jobs[first.value := leased]), Some(leased))
  {
    var first := FirstEligible(s.jobs, q.now);
    if first.Some? {
      var job := s.jobs[first.value];
      assert JobOk(s.tables, job);
      LeaseOk(s.tables, job, q);
      ClaimFirstRow(s, q, first.value, Tip(Chain(s.tables.snapshots, job.session)));
    }
  }

  lemma {:induction false} ClaimKeeps(s: Store, q: ClaimRequest)
    requires BasesOk(s.tables) && JobsOk(s.tables, s.jobs)
    ensures var r := ClaimJob(s, q); r.Commit? ==> r.store.tables == s.tables && JobsOk(s.tables, r.store.jobs)
    ensures ClaimJob(s, q) != Abort(StoreCorrupt)
  {
    if !Blank(q.worker) && q.now < q.leaseExpires {
      ClaimLeasesFirst(s, q);
      var first := FirstEligible(s.jobs, q.now);
      if first.Some? {
        var job := s.jobs[first.value];
        LeaseOk(s.tables, job, q);
        RowUpdateKeeps(s.tables, s.jobs, first.value, Lease(job, Tip(Chain(s.tables.snapshots, job.session)), q));
      }
    }
  }

  lemma {:induction false} WriteKeeps(s: Store, i: nat, job: Job)
    requires BasesOk(s.tables) && JobsOk(s.tables, s.jobs) && i < |s.jobs|
    requires JobOk(s.tables, job) && job.jobId == s.jobs[i].jobId && job.session == s.jobs[i].session
    requires !s.jobs[i].state.Terminal()
    ensures var r := WriteJob(s, i, job); r.Commit? && r.store.tables == s.tables && JobsOk(s.tables, r.store.jobs)
  {
    ReadableUnderInv(s.tables, job);
    RowUpdateKeeps(s.tables, s.jobs, i, job);
  }

  lemma {:induction false} TransitionKeeps(s: Store, t: Token, to: JobState, candidate: Option<Id>, now: int)
    requires BasesOk(s.tables) && JobsOk(s.tables, s.jobs)
    ensures var r := TransitionJob(s, t, to, candidate, now);
      r.Commit? ==> r.store.tables == s.tables && JobsOk(s.tables, r.store.jobs)
    ensures TransitionJob(s, t, to, candidate, now) != Abort(StoreCorrupt)
  {
    var i := Fence(s, t, now);
    if i.Some? && Allowed(s.jobs[i.value].state, to) && (to.ReadyToCommit? <==> candidate.Some?)
       && (candidate.Some? ==> !Blank(candidate.value)) {
      assert JobOk(s.tables, s.jobs[i.value]);
      WriteKeeps(s, i.value, s.jobs[i.value].(state := to, candidate := candidate, updatedAt := now));
    }
  }

  lemma {:induction false} RenewKeeps(s: Store, t: Token, now: int, leaseExpires: int)
    requires BasesOk(s.tables) && JobsOk(s.tables, s.jobs)
    ensures var r := RenewLease(s, t, now, leaseExpires);
      r.Commit? ==> r.store.tables == s.tables && JobsOk(s.tables, r.store.jobs)
    ensures RenewLease(s, t, now, leaseExpires) != Abort(StoreCorrupt)
  {
    hide BasesOk;
    var i := Fence(s, t, now);
    if i.Some? {
      assert JobOk(s.tables, s.jobs[i.value]);
      WriteKeeps(s, i.value, s.jobs[i.value].(expires := Some(leaseExpires), updatedAt := now));
    }
  }

  lemma {:induction false} FailKeeps(s: Store, q: FailRequest)
    requires BasesOk(s.tables) && JobsOk(s.tables, s.jobs)
    ensures var r := FailJob(s, q); r.Commit? ==> r.store.tables == s.tables && JobsOk(s.tables, r.store.jobs)
    ensures FailJob(s, q) != Abort(StoreCorrupt)
  {
    hide BasesOk;
    var i := Fence(s, q.token, q.now);
    if FailArgumentsOk(q) && i.Some? {
      assert JobOk(s.tables, s.jobs[i.value]);
      WriteKeeps(s, i.value, FailedRow(s.jobs[i.value], q));
    }
  }

  lemma {:induction false} RecoveredOk(t: Tables, job: Job, now: int)
    requires BasesOk(t) && JobOk(t, job)
    ensures JobOk(t, Recovered(job, now)) && JobReadable(t, Recovered(job, now))
    ensures Recovered(job, now).state.Terminal() <==> job.state.Terminal()
  {
  }

  lemma {:induction false} RecoveredRowsOk(t: Tables, jobs: seq<Job>, now: int)
    requires BasesOk(t) && JobsOk(t, jobs)
    ensures JobsOk(t, RecoveredRows(jobs, now))
    ensures forall i :: 0 <= i < |jobs| ==> JobReadable(t, Recovered(jobs[i], now))
  {
    var rows := RecoveredRows(jobs, now);
    forall i | 0 <= i < |jobs|
      ensures JobOk(t, rows[i]) && JobReadable(t, Recovered(jobs[i], now))
      ensures rows[i].jobId == jobs[i].jobId && rows[i].session == jobs[i].session
      ensures rows[i].state.Terminal() <==> jobs[i].state.Terminal()
    {
      RecoveredOk(t, jobs[i], now);
    }
  }

  lemma {:induction false} RecoverKeeps(s: Store, now: int)
    requires BasesOk(s.tables) && JobsOk(s.tables, s.jobs)
    ensures var r := RecoverLeases(s, now); r.Commit? && r.store.tables == s.tables && JobsOk(s.tables, r.store.jobs)
  {
    RecoveredRowsOk(s.tables, s.jobs, now);
  }
}
