/** What the committed history guarantees: the shape of the journal and the snapshot chain, the continuity of
    anchors and semantic items, and the views that readers get. */
module StoreHistory {
  import opened Common
  import opened Domain
  import opened Store
  import opened StoreCalls
  import opened StoreInvariant
  import opened StoreRuns
  import Gate = PublicationGate
  import StorePublication

  // ----- shape -----

  lemma {:induction false} CoverageGrows(chain: seq<SnapshotRow>, next: nat, a: nat, b: nat)
    requires Linked(chain, next) && a < b < |chain|
    ensures chain[a].envelope.coverage < chain[b].envelope.coverage
    decreases b
  {
    assert Follows(chain[..b], chain[b], next);
    if a < b - 1 {
      CoverageGrows(chain, next, a, b - 1);
    }
  }

  /** The session's journal sequences are exactly 1 .. next-1, each row under its own key. */
  ghost predicate JournalShape(t: Tables, h: string)
    requires h in t.sessions
  {
    && (forall n: nat :: JournalKey(h, n) in t.journal <==> 1 <= n < t.sessions[h].next)
    && (forall n: nat :: JournalKey(h, n) in t.journal ==>
          t.journal[JournalKey(h, n)].sequence == n && t.journal[JournalKey(h, n)].session == t.sessions[h].key)
  }

  /** One base-linked chain of strictly growing coverage inside the journal. */
  ghost predicate ChainShape(chain: seq<SnapshotRow>, next: nat) {
    && (forall b :: 0 <= b < |chain| ==>
          chain[b].envelope.base == (if b == 0 then None else Some(chain[b - 1].envelope.snapshotId))
          && 0 < chain[b].envelope.coverage < next)
    && (forall a, b :: 0 <= a < b < |chain| ==> chain[a].envelope.coverage < chain[b].envelope.coverage)
  }

  /** Journal, chain, and the active pointer at the chain's end with version |chain|. */
  ghost predicate ShapeOk(t: Tables, h: string)
    requires h in t.sessions
  {
    var chain := Chain(t.snapshots, h);
    && JournalShape(t, h)
    && ChainShape(chain, t.sessions[h].next)
    && (chain == [] <==> h !in t.active)
    && (chain != [] ==> t.active[h] == Pointer(chain[|chain| - 1].envelope.snapshotId, |chain|))
  }

  lemma {:induction false} ReachableShape(calls: seq<Call>, h: string)
    requires h in Execute(EMPTY, calls).tables.sessions
    ensures ShapeOk(Execute(EMPTY, calls).tables, h)
  {
    hide JournalOk, ChainOk, BundlesOk, LinksOk, JobsOk;
    var t := Execute(EMPTY, calls).tables;
    ReachableInv(calls);
    ShapeUnderInv(t, h);
  }

  lemma {:induction false} LinkedShape(chain: seq<SnapshotRow>, next: nat)
    requires Linked(chain, next)
    ensures ChainShape(chain, next)
  {
    forall b | 0 <= b < |chain|
      ensures chain[b].envelope.base == (if b == 0 then None else Some(chain[b - 1].envelope.snapshotId))
      ensures 0 < chain[b].envelope.coverage < next
    {
      assert Follows(chain[..b], chain[b], next);
    }
    forall a, b | 0 <= a < b < |chain| ensures chain[a].envelope.coverage < chain[b].envelope.coverage {
      CoverageGrows(chain, next, a, b);
    }
  }

  lemma {:induction false} JournalShapeUnderInv(t: Tables, h: string)
    requires JournalOk(t) && h in t.sessions
    ensures JournalShape(t, h)
  {
  }

  lemma {:induction false} ShapeUnderInv(t: Tables, h: string)
    requires JournalOk(t) && ChainOk(t) && h in t.sessions
    ensures ShapeOk(t, h)
  {
    hide JournalOk, JournalShape, ChainShape;
    JournalShapeUnderInv(t, h);
    LinkedShape(Chain(t.snapshots, h), t.sessions[h].next);
    assert PointerOk(t.active, h, Chain(t.snapshots, h));
  }

  // ----- continuity -----

  function CapsulesAt(t: Tables, h: string, i: nat): (r: seq<Capsule>)
    requires i < |Chain(t.snapshots, h)|
  {
    CapsulesIn(t.capsules, Chain(t.snapshots, h)[i])
  }

  lemma {:induction false} AnchorsSurvive(t: Tables, h: string, a: nat, b: nat, anchor: Anchor)
    requires StepsContinue(t, Chain(t.snapshots, h), h) && a <= b < |Chain(t.snapshots, h)|
    requires anchor in ActiveAnchors(CapsulesAt(t, h, a))
    ensures anchor in ActiveAnchors(CapsulesAt(t, h, b))
    decreases b
  {
    if a < b {
      AnchorsSurvive(t, h, a, b - 1, anchor);
      var chain := Chain(t.snapshots, h);
      assert Continues(t.journal, CapsulesIn(t.capsules, chain[b - 1]), CapsulesIn(t.capsules, chain[b]), h,
                       chain[b - 1].envelope.coverage, chain[b].envelope.coverage);
    }
  }

  /** Every anchor active in a committed snapshot is, field for field, active in every later one of the session. */
  lemma {:induction false} AnchorsAreForever(calls: seq<Call>, h: string, a: nat, b: nat, anchor: Anchor)
    requires var t := Execute(EMPTY, calls).tables;
      h in t.sessions && a <= b < |Chain(t.snapshots, h)| && anchor in ActiveAnchors(CapsulesAt(t, h, a))
    ensures anchor in ActiveAnchors(CapsulesAt(Execute(EMPTY, calls).tables, h, b))
  {
    ReachableInv(calls);
    AnchorsSurvive(Execute(EMPTY, calls).tables, h, a, b, anchor);
  }

  /** `id` left the active set at step `k`, which holds a superseded or retracted record citing an event of its delta. */
  ghost predicate RetiredAt(t: Tables, h: string, k: nat, id: Id)
    requires 0 < k < |Chain(t.snapshots, h)|
  {
    var chain := Chain(t.snapshots, h);
    && id in Gate.ActiveIds(CapsulesAt(t, h, k - 1)) && id !in Gate.ActiveIds(CapsulesAt(t, h, k))
    && Retired(t.journal, CapsulesAt(t, h, k), h, chain[k - 1].envelope.coverage, chain[k].envelope.coverage, id)
  }

  lemma {:induction false} LeavesByRecord(t: Tables, h: string, b: nat, id: Id)
    requires StepsContinue(t, Chain(t.snapshots, h), h) && 0 < b < |Chain(t.snapshots, h)|
    requires id in Gate.ActiveIds(CapsulesAt(t, h, b - 1)) && id !in Gate.ActiveIds(CapsulesAt(t, h, b))
    ensures RetiredAt(t, h, b, id)
  {
    hide Gate.ActiveIds, Retired, Chain, CapsulesIn;
    var chain := Chain(t.snapshots, h);
    assert Continues(t.journal, CapsulesIn(t.capsules, chain[b - 1]), CapsulesIn(t.capsules, chain[b]), h,
                     chain[b - 1].envelope.coverage, chain[b].envelope.coverage);
  }

  lemma {:induction false} SemanticsLeaveByRecord(t: Tables, h: string, a: nat, b: nat, id: Id) returns (k: nat)
    requires StepsContinue(t, Chain(t.snapshots, h), h) && a <= b < |Chain(t.snapshots, h)|
    requires id in Gate.ActiveIds(CapsulesAt(t, h, a)) && id !in Gate.ActiveIds(CapsulesAt(t, h, b))
    ensures a < k <= b && RetiredAt(t, h, k, id)
    decreases b
  {
    hide Gate.ActiveIds, Retired, Chain, CapsulesIn;
    if id in Gate.ActiveIds(CapsulesAt(t, h, b - 1)) {
      k := b;
      LeavesByRecord(t, h, b, id);
    } else {
      k := SemanticsLeaveByRecord(t, h, a, b - 1, id);
    }
  }

  /** An active semantic id leaves the active set only at a step that retires it with evidence from its own delta. */
  lemma {:induction false} SemanticsLeaveOnlyByDelta(calls: seq<Call>, h: string, a: nat, b: nat, id: Id)
    requires var t := Execute(EMPTY, calls).tables;
      && h in t.sessions && a <= b < |Chain(t.snapshots, h)|
      && id in Gate.ActiveIds(CapsulesAt(t, h, a)) && id !in Gate.ActiveIds(CapsulesAt(t, h, b))
    ensures var t := Execute(EMPTY, calls).tables; exists k :: a < k <= b && RetiredAt(t, h, k, id)
  {
    ReachableInv(calls);
    var k := SemanticsLeaveByRecord(Execute(EMPTY, calls).tables, h, a, b, id);
  }

  /** Every source cited by an active item, an active anchor or a capsule of a committed snapshot is the id of a
      journal event of the same session at or below the snapshot's coverage. */
  lemma {:induction false} SourcesAreCovered(calls: seq<Call>, row: SnapshotRow)
    requires row in Execute(EMPTY, calls).tables.snapshots
    ensures var t := Execute(EMPTY, calls).tables;
      SourcesCovered(t.journal, CapsulesIn(t.capsules, row), row.envelope.session.hash, row.envelope.coverage)
  {
    ReachableInv(calls);
    assert RowOk(Execute(EMPTY, calls).tables, row);
  }

  // ----- views -----

  lemma {:induction false} TipReadable(t: Tables, h: string)
    requires JournalOk(t) && ChainOk(t) && BundlesOk(t) && h in t.sessions && Chain(t.snapshots, h) != []
    ensures var chain := Chain(t.snapshots, h); var last := chain[|chain| - 1];
      && FindSnapshot(t.snapshots, last.envelope.snapshotId) == Some(last)
      && RowReadable(t, last, t.sessions[h].key) && last.envelope.sourceHighWater == last.envelope.coverage
      && last.envelope.coverage < t.sessions[h].next
  {
    var chain := Chain(t.snapshots, h);
    var last := chain[|chain| - 1];
    assert last in chain;
    FindSnapshotUnique(t.snapshots, last);
    assert RowOk(t, last);
    assert Follows(chain[..|chain| - 1], last, t.sessions[h].next);
  }

  /** Member `i` of the row is shown with the stored capsule it names. */
  ghost predicate ShowsMember(t: Tables, row: SnapshotRow, ms: seq<Membership>, i: nat)
    requires |ms| == |row.members| && i < |ms|
  {
    var id := row.members[i].capsuleId;
    id in t.capsules && ms[i] == Membership(i, row.members[i].slot, t.capsules[id])
  }

  /** The view shows the last row of the session's chain with its stored capsules, or nothing if there is none. */
  ghost predicate ShowsTip(t: Tables, h: string, v: RequestView) {
    var chain := Chain(t.snapshots, h);
    if chain == [] then v.snapshot == None && v.memberships == []
    else
      var last := chain[|chain| - 1];
      && v.snapshot == Some(last.envelope) && |v.memberships| == |last.members|
      && forall i :: 0 <= i < |last.members| ==> ShowsMember(t, last, v.memberships, i)
  }

  lemma {:induction false} ViewOfRow(t: Tables, row: SnapshotRow, key: SessionKey, version: nat, highWater: nat, delta: seq<Event>)
    requires RowReadable(t, row, key) && row.envelope.sourceHighWater == row.envelope.coverage && 1 <= version
    requires row.envelope.coverage <= highWater && (forall e <- delta :: e.session == key)
    requires Gate.Sequences(delta) == Gate.Range(row.envelope.coverage, highWater)
    ensures ReaderAccepts(
      RequestView(key, Some(row.envelope), MembershipsFrom(row.members, Bundle(t.capsules, row.members).value),
                  version, row.envelope.coverage, highWater, delta), key)
    ensures var ms := MembershipsFrom(row.members, Bundle(t.capsules, row.members).value);
      |ms| == |row.members| && forall i :: 0 <= i < |ms| ==> ShowsMember(t, row, ms, i)
  {
    var ms := MembershipsFrom(row.members, Bundle(t.capsules, row.members).value);
    assert CapsulesOf(ms) == Bundle(t.capsules, row.members).value;
  }

  /** The read, once its row and delta are known. */
  lemma {:induction false} ReadUnfolds(t: Tables, key: SessionKey, row: Option<SnapshotRow>, highWater: nat)
    requires key.hash in t.sessions && t.sessions[key.hash].key == key && t.sessions[key.hash].next == highWater + 1
    requires row == if key.hash in t.active then FindSnapshot(t.snapshots, t.active[key.hash].snapshotId) else None
    requires row.Some? ==> RowReadable(t, row.value, key)
    requires var covered := if row.Some? then row.value.envelope.coverage else 0;
      && covered <= highWater
      && Gate.Sequences(EventsBetween(t.journal, key.hash, covered, highWater)) == Gate.Range(covered, highWater)
    ensures ReadRequestView(t, key) == Ok(
      if row.None? then RequestView(key, None, [], 0, 0, highWater, EventsBetween(t.journal, key.hash, 0, highWater))
      else RequestView(
        key, Some(row.value.envelope), MembershipsFrom(row.value.members, Bundle(t.capsules, row.value.members).value),
        t.active[key.hash].version, row.value.envelope.coverage, highWater,
        EventsBetween(t.journal, key.hash, row.value.envelope.coverage, highWater)))
  {
  }

  /** What a request view of a session must be: the chain's end plus the gap-free delta to the high-water mark,
      accepted by the reader. */
  ghost predicate ViewIsTip(t: Tables, key: SessionKey, r: Read<RequestView>)
    requires key.hash in t.sessions && t.sessions[key.hash].next >= 1
  {
    var tip := Tip(Chain(t.snapshots, key.hash));
    && r.Ok? && ReaderAccepts(r.value, key)
    && r.value.version == tip.version && r.value.covered == tip.coverage && r.value.highWater == t.sessions[key.hash].next - 1
    && r.value.delta == EventsBetween(t.journal, key.hash, tip.coverage, t.sessions[key.hash].next - 1)
    && ShowsTip(t, key.hash, r.value)
  }

  lemma {:induction false} EmptyViewUnderInv(t: Tables, key: SessionKey)
    requires JournalOk(t) && ChainOk(t) && key.hash in t.sessions && t.sessions[key.hash].key == key
    requires Chain(t.snapshots, key.hash) == []
    ensures t.sessions[key.hash].next >= 1 && ViewIsTip(t, key, ReadRequestView(t, key))
  {
    hide JournalOk, ReadRequestView, RowReadable;
    var highWater := HighWater(t, key.hash);
    assert PointerOk(t.active, key.hash, []);
    EventsBetweenComplete(t, key.hash, 0, highWater);
    ReadUnfolds(t, key, None, highWater);
  }

  lemma {:induction false} PointerAtTip(t: Tables, h: string)
    requires ChainOk(t) && Chain(t.snapshots, h) != []
    ensures var chain := Chain(t.snapshots, h);
      h in t.active && t.active[h] == Pointer(chain[|chain| - 1].envelope.snapshotId, |chain|)
  {
    assert PointerOk(t.active, h, Chain(t.snapshots, h));
  }

  lemma {:induction false} TipViewUnderInv(t: Tables, key: SessionKey)
    requires JournalOk(t) && ChainOk(t) && BundlesOk(t)
    requires key.hash in t.sessions && t.sessions[key.hash].key == key && Chain(t.snapshots, key.hash) != []
    ensures t.sessions[key.hash].next >= 1 && ViewIsTip(t, key, ReadRequestView(t, key))
  {
    hide JournalOk, ChainOk, BundlesOk, ReadRequestView, RowReadable, ReaderAccepts, EventsBetween, FindSnapshot, Chain, ShowsMember;
    var h := key.hash;
    var chain := Chain(t.snapshots, h);
    var highWater := HighWater(t, h);
    PointerAtTip(t, h);
    TipReadable(t, h);
    var last := chain[|chain| - 1];
    var delta := EventsBetween(t.journal, h, last.envelope.coverage, highWater);
    EventsBetweenComplete(t, h, last.envelope.coverage, highWater);
    ReadUnfolds(t, key, Some(last), highWater);
    ViewOfRow(t, last, key, |chain|, highWater, delta);
  }

  function HighWater(t: Tables, h: string): (n: nat)
    requires JournalOk(t) && h in t.sessions
    ensures t.sessions[h].next == n + 1
  {
    t.sessions[h].next - 1
  }

  /** Reading any session of a reachable store succeeds with a view the reader accepts, or reports that the digest
      belongs to another identity. */
  lemma {:induction false} ViewsAreAccepted(calls: seq<Call>, key: SessionKey)
    ensures var t := Execute(EMPTY, calls).tables; var r := ReadRequestView(t, key);
      if key.hash in t.sessions && t.sessions[key.hash].key != key then r == Failed(SessionConflict)
      else if key.hash in t.sessions then t.sessions[key.hash].next >= 1 && ViewIsTip(t, key, r)
      else r.Ok? && ReaderAccepts(r.value, key) && r.value.highWater == 0
  {
    hide JournalOk, ChainOk, BundlesOk, LinksOk, JobsOk, ViewIsTip;
    ReachableInv(calls);
    var t := Execute(EMPTY, calls).tables;
    if key.hash in t.sessions && t.sessions[key.hash].key == key {
      if Chain(t.snapshots, key.hash) == [] {
        EmptyViewUnderInv(t, key);
      } else {
        TipViewUnderInv(t, key);
      }
    }
  }

  lemma {:induction false} CompactionReadUnfolds(s: Store, token: Token, now: int, i: nat, base: Option<Loaded>)
    requires Fence(s, token, now) == Some(i) && (s.jobs[i].state.Compiling? || s.jobs[i].state.Auditing?)
    requires JobReadable(s.tables, s.jobs[i])
    requires s.jobs[i].base.Some? <==> base.Some?
    requires base.Some? ==> LoadBundle(s.tables, s.jobs[i].base.value, s.tables.sessions[s.jobs[i].session].key) == base
    requires base.Some? ==> |base.value.row.members| == |base.value.capsules|
    requires var covered := if base.Some? then base.value.row.envelope.coverage else 0;
      && covered <= s.jobs[i].target
      && Gate.Sequences(EventsBetween(s.tables.journal, s.jobs[i].session, covered, s.jobs[i].target)) == Gate.Range(covered, s.jobs[i].target)
    ensures var key := s.tables.sessions[s.jobs[i].session].key;
      ReadCompactionView(s, token, now) == Ok(
        if base.None? then
          RequestView(key, None, [], s.jobs[i].baseVersion, 0, s.jobs[i].target, EventsBetween(s.tables.journal, s.jobs[i].session, 0, s.jobs[i].target))
        else
          RequestView(
            key, Some(base.value.row.envelope), MembershipsFrom(base.value.row.members, base.value.capsules), s.jobs[i].baseVersion,
            base.value.row.envelope.coverage, s.jobs[i].target,
            EventsBetween(s.tables.journal, s.jobs[i].session, base.value.row.envelope.coverage, s.jobs[i].target)))
  {
  }

  /** What a compaction view must be: the job's base, which is the end of the session's chain, plus the gap-free delta
      to the job's target, accepted by the reader. */
  ghost predicate ViewIsFrozen(t: Tables, job: Job, r: Read<RequestView>)
    requires job.session in t.sessions
  {
    && r.Ok? && ReaderAccepts(r.value, t.sessions[job.session].key) && r.value.session == t.sessions[job.session].key
    && r.value.highWater == job.target && r.value.version == job.baseVersion
    && job.base == Tip(Chain(t.snapshots, job.session)).id && ShowsTip(t, job.session, r.value)
    && r.value.covered == Tip(Chain(t.snapshots, job.session)).coverage
    && r.value.delta == EventsBetween(t.journal, job.session, r.value.covered, job.target)
  }

  lemma {:induction false} EmptyCompactionView(s: Store, token: Token, now: int, i: nat)
    requires JournalOk(s.tables) && BasesOk(s.tables)
    requires Fence(s, token, now) == Some(i) && (s.jobs[i].state.Compiling? || s.jobs[i].state.Auditing?)
    requires JobOk(s.tables, s.jobs[i]) && Chain(s.tables.snapshots, s.jobs[i].session) == []
    ensures ViewIsFrozen(s.tables, s.jobs[i], ReadCompactionView(s, token, now))
  {
    hide JournalOk, BasesOk, ReadCompactionView, LoadBundle, EventsBetween, FindSnapshot, Job.WellFormed;
    var t, job := s.tables, s.jobs[i];
    ReadableUnderInv(t, job);
    EventsBetweenComplete(t, job.session, 0, job.target);
    CompactionReadUnfolds(s, token, now, i, None);
  }

  lemma {:induction false} TipCompactionView(s: Store, token: Token, now: int, i: nat)
    requires JournalOk(s.tables) && ChainOk(s.tables) && BundlesOk(s.tables) && BasesOk(s.tables)
    requires Fence(s, token, now) == Some(i) && (s.jobs[i].state.Compiling? || s.jobs[i].state.Auditing?)
    requires JobOk(s.tables, s.jobs[i]) && Chain(s.tables.snapshots, s.jobs[i].session) != []
    ensures ViewIsFrozen(s.tables, s.jobs[i], ReadCompactionView(s, token, now))
  {
    hide JournalOk, ChainOk, BundlesOk, BasesOk, ReadCompactionView, RowReadable, LoadBundle, EventsBetween, FindSnapshot,
      ReaderAccepts, Job.WellFormed, Chain, ShowsMember;
    var t, job := s.tables, s.jobs[i];
    var key, chain := t.sessions[job.session].key, Chain(t.snapshots, job.session);
    var last := chain[|chain| - 1];
    ReadableUnderInv(t, job);
    EventsBetweenComplete(t, job.session, last.envelope.coverage, job.target);
    TipReadable(t, job.session);
    StorePublication.LoadTip(t, job.session, key);
    BundleComplete(t, last, key);
    CompactionReadUnfolds(s, token, now, i, Some(Loaded(last, CapsulesIn(t.capsules, last))));
    ViewOfRow(t, last, key, |chain|, job.target, EventsBetween(t.journal, job.session, last.envelope.coverage, job.target));
  }

  lemma {:induction false} BundleComplete(t: Tables, row: SnapshotRow, key: SessionKey)
    requires RowReadable(t, row, key)
    ensures Bundle(t.capsules, row.members) == Some(CapsulesIn(t.capsules, row))
  {
  }

  /** A worker holding a live lease in COMPILING or AUDITING always gets its frozen base and a gap-free delta. */
  lemma {:induction false} CompactionViewsAreAccepted(calls: seq<Call>, token: Token, now: int)
    ensures var s := Execute(EMPTY, calls); var i := Fence(s, token, now);
      i.Some? && (s.jobs[i.value].state.Compiling? || s.jobs[i.value].state.Auditing?) ==>
        s.jobs[i.value].session in s.tables.sessions && ViewIsFrozen(s.tables, s.jobs[i.value], ReadCompactionView(s, token, now))
  {
    hide JournalOk, ChainOk, BundlesOk, LinksOk, ReadCompactionView, ViewIsFrozen, Job.WellFormed;
    ReachableInv(calls);
    var s := Execute(EMPTY, calls);
    var i := Fence(s, token, now);
    if i.Some? && (s.jobs[i.value].state.Compiling? || s.jobs[i.value].state.Auditing?) {
      BasesFromTables(s.tables);
      assert JobOk(s.tables, s.jobs[i.value]);
      if Chain(s.tables.snapshots, s.jobs[i.value].session) == [] {
        EmptyCompactionView(s, token, now, i.value);
      } else {
        TipCompactionView(s, token, now, i.value);
      }
    }
  }
}
