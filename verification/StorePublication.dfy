/** Publication: what an admitted candidate adds to the chain, and when it is superseded. */
module StorePublication {
  import opened Common
  import opened Domain
  import opened Store
  import opened StoreInvariant
  import opened StoreGrowth
  import Gate = PublicationGate

  // ----- capsule rows -----

  ghost predicate DistinctCapsules(ms: seq<Membership>) {
    forall i, j :: 0 <= i < j < |ms| ==> ms[i].capsule.capsuleId != ms[j].capsule.capsuleId
  }

  /** The capsule's id is stored with other content, or cannot be stored at all. */
  predicate CapsuleRejected(capsules: map<Id, Capsule>, c: Capsule) {
    if c.capsuleId in capsules then capsules[c.capsuleId] != c else SqlBlank(c.capsuleId)
  }

  ghost predicate Holds(capsules: map<Id, Capsule>, c: Capsule) {
    c.capsuleId in capsules && capsules[c.capsuleId] == c
  }

  /** Some capsule of the list is refused. */
  ghost predicate SomeRejected(capsules: map<Id, Capsule>, ms: seq<Membership>) {
    exists i :: 0 <= i < |ms| && CapsuleRejected(capsules, ms[i].capsule)
  }

  /** `after` keeps the old capsules, holds those of the list, and has nothing else. */
  ghost predicate Inserted(capsules: map<Id, Capsule>, ms: seq<Membership>, after: map<Id, Capsule>) {
    && (forall id <- capsules.Keys :: id in after && after[id] == capsules[id])
    && (forall i :: 0 <= i < |ms| ==> Holds(after, ms[i].capsule))
    && (forall id <- after.Keys :: id in capsules || Listed(ms, id))
  }

  ghost predicate Listed(ms: seq<Membership>, id: Id) {
    exists i :: 0 <= i < |ms| && ms[i].capsule.capsuleId == id
  }

  lemma {:induction false} RejectedFirst(capsules: map<Id, Capsule>, ms: seq<Membership>, next: map<Id, Capsule>)
    requires ms != [] && DistinctCapsules(ms) && !CapsuleRejected(capsules, ms[0].capsule)
    requires next == if ms[0].capsule.capsuleId in capsules then capsules else capsules[ms[0].capsule.capsuleId := ms[0].capsule]
    ensures SomeRejected(next, ms[1..]) <==> SomeRejected(capsules, ms)
  {
    forall i | 1 <= i < |ms| ensures CapsuleRejected(next, ms[i].capsule) <==> CapsuleRejected(capsules, ms[i].capsule) {
      assert ms[i].capsule.capsuleId != ms[0].capsule.capsuleId;
    }
    if SomeRejected(next, ms[1..]) {
      var i :| 0 <= i < |ms[1..]| && CapsuleRejected(next, ms[1..][i].capsule);
      assert CapsuleRejected(capsules, ms[i + 1].capsule);
    }
    if SomeRejected(capsules, ms) {
      var i :| 0 <= i < |ms| && CapsuleRejected(capsules, ms[i].capsule);
      assert CapsuleRejected(next, ms[1..][i - 1].capsule);
    }
  }

  lemma {:induction false} InsertedFirst(capsules: map<Id, Capsule>, ms: seq<Membership>, next: map<Id, Capsule>, after: map<Id, Capsule>)
    requires ms != [] && !CapsuleRejected(capsules, ms[0].capsule) && Inserted(next, ms[1..], after)
    requires next == if ms[0].capsule.capsuleId in capsules then capsules else capsules[ms[0].capsule.capsuleId := ms[0].capsule]
    ensures Inserted(capsules, ms, after)
  {
    forall i | 0 <= i < |ms| ensures Holds(after, ms[i].capsule) {
      if i == 0 {
        assert Holds(next, ms[0].capsule);
      } else {
        assert ms[i] == ms[1..][i - 1];
      }
    }
    forall id | id in after && id !in capsules ensures Listed(ms, id) {
      if id != ms[0].capsule.capsuleId {
        var i :| 0 <= i < |ms[1..]| && ms[1..][i].capsule.capsuleId == id;
        assert ms[i + 1].capsule.capsuleId == id;
      }
    }
  }

  lemma {:induction false} InsertCapsulesMeaning(capsules: map<Id, Capsule>, ms: seq<Membership>)
    requires DistinctCapsules(ms)
    ensures var r := InsertCapsules(capsules, ms);
      (r.None? <==> SomeRejected(capsules, ms)) && (r.Some? ==> Inserted(capsules, ms, r.value))
    decreases |ms|
  {
    if ms != [] {
      var c := ms[0].capsule;
      if CapsuleRejected(capsules, c) {
        assert SomeRejected(capsules, ms);
      } else {
        hide SomeRejected, Inserted;
        var next := if c.capsuleId in capsules then capsules else capsules[c.capsuleId := c];
        InsertCapsulesMeaning(next, ms[1..]);
        RejectedFirst(capsules, ms, next);
        var r := InsertCapsules(next, ms[1..]);
        if r.Some? {
          InsertedFirst(capsules, ms, next, r.value);
        }
      }
    }
  }

  // ----- what admission establishes -----

  /** The base of the fenced job, as the gate saw it. */
  ghost predicate SubmissionSeen(t: Tables, job: Job, q: PublishRequest, sub: Gate.Submission) {
    var chain := Chain(t.snapshots, job.session);
    && sub.candidate == q.candidate && sub.capsules == CapsulesOf(q.memberships) && sub.target == job.target
    && sub.tokenCeiling == q.tokenCeiling
    && sub.events == EventsBetween(t.journal, job.session, Tip(chain).coverage, job.target)
    && (chain == [] ==> sub.previous.None? && sub.previousCapsules == [])
    && (chain != [] ==>
          && sub.previous == Some(chain[|chain| - 1].envelope)
          && sub.previousCapsules == CapsulesIn(t.capsules, chain[|chain| - 1]))
  }

  lemma {:induction false} LoadTip(t: Tables, h: string, key: SessionKey)
    requires JournalOk(t) && ChainOk(t) && BundlesOk(t)
    requires h in t.sessions && t.sessions[h].key == key && Chain(t.snapshots, h) != []
    ensures var chain := Chain(t.snapshots, h); var last := chain[|chain| - 1];
      LoadBundle(t, last.envelope.snapshotId, key) == Some(Loaded(last, CapsulesIn(t.capsules, last)))
  {
    var chain := Chain(t.snapshots, h);
    var last := chain[|chain| - 1];
    assert last in chain;
    FindSnapshotUnique(t.snapshots, last);
    assert RowOk(t, last);
  }

  lemma {:induction false} SubmissionIs(t: Tables, job: Job, key: SessionKey, q: PublishRequest)
    requires var chain := Chain(t.snapshots, job.session);
      && job.base == Tip(chain).id
      && (chain != [] ==> var last := chain[|chain| - 1];
            LoadBundle(t, last.envelope.snapshotId, key) == Some(Loaded(last, CapsulesIn(t.capsules, last))))
    ensures var sub := SubmissionFor(t, job, key, q); sub.Some? && SubmissionSeen(t, job, q, sub.value)
  {
  }

  lemma {:induction false} SubmissionUnderInv(t: Tables, job: Job, q: PublishRequest)
    requires JournalOk(t) && ChainOk(t) && BundlesOk(t) && JobOk(t, job) && !job.state.Terminal()
    ensures var sub := SubmissionFor(t, job, t.sessions[job.session].key, q);
      sub.Some? && SubmissionSeen(t, job, q, sub.value)
  {
    if Chain(t.snapshots, job.session) != [] {
      LoadTip(t, job.session, t.sessions[job.session].key);
    }
    SubmissionIs(t, job, t.sessions[job.session].key, q);
  }

  lemma {:induction false} AdmissionCorruptOnlyIf(s: Store, q: PublishRequest)
    requires Admission(s, q) == Failed(StoreCorrupt)
    ensures var i := Fence(s, q.token, q.now);
      i.Some? && (!JobReadable(s.tables, s.jobs[i.value])
                  || SubmissionFor(s.tables, s.jobs[i.value], s.tables.sessions[s.jobs[i.value].session].key, q).None?)
  {
  }

  lemma {:induction false} OpenFence(s: Store, t: Token, now: int)
    requires Fence(s, t, now).Some?
    ensures !s.jobs[Fence(s, t, now).value].state.Terminal()
  {
  }

  /** Admission never finds the store corrupt. */
  lemma {:induction false} AdmissionNeverCorrupt(s: Store, q: PublishRequest)
    requires Inv(s)
    ensures Admission(s, q) != Failed(StoreCorrupt)
  {
    hide Admission, SubmissionFor, SubmissionSeen, JournalOk, ChainOk, BundlesOk, LinksOk;
    var i := Fence(s, q.token, q.now);
    if i.Some? {
      assert JobOk(s.tables, s.jobs[i.value]);
      hide JobOk, JobsOk;
      BasesFromTables(s.tables);
      ReadableUnderInv(s.tables, s.jobs[i.value]);
      OpenFence(s, q.token, q.now);
      SubmissionUnderInv(s.tables, s.jobs[i.value], q);
    }
    if Admission(s, q) == Failed(StoreCorrupt) {
      AdmissionCorruptOnlyIf(s, q);
    }
  }

  // ----- the committed row -----

  function NewRow(q: PublishRequest): (row: SnapshotRow) {
    SnapshotRow(CommittedEnvelope(q.candidate, q.now), MemberRows(q.memberships))
  }

  lemma {:induction false} NewRowBundle(capsules: map<Id, Capsule>, q: PublishRequest)
    requires forall i :: 0 <= i < |q.memberships| ==> Holds(capsules, q.memberships[i].capsule)
    ensures Bundle(capsules, NewRow(q).members) == Some(CapsulesOf(q.memberships))
  {
    assert Bundle(capsules, NewRow(q).members).value == CapsulesOf(q.memberships);
  }

  /** The sources a passed candidate may cite are all covered by its target. */
  lemma {:induction false} ValidSourcesCovered(t: Tables, job: Job, q: PublishRequest, sub: Gate.Submission, id: Id)
    requires JournalOk(t) && ChainOk(t) && BundlesOk(t) && JobOk(t, job) && !job.state.Terminal()
    requires SubmissionSeen(t, job, q, sub) && id in Gate.ValidSources(sub)
    ensures Cites(t.journal, job.session, 0, job.target, id)
  {
    var chain := Chain(t.snapshots, job.session);
    if id in Gate.EventIds(sub.events) {
      EventsBetweenComplete(t, job.session, Tip(chain).coverage, job.target);
      CitesGrows(t.journal, t.journal, job.session, Tip(chain).coverage, job.target, 0, job.target, id);
    } else {
      var last := chain[|chain| - 1];
      assert last in chain;
      assert RowOk(t, last);
      CitesGrows(t.journal, t.journal, job.session, 0, last.envelope.coverage, 0, job.target, id);
    }
  }

  lemma {:induction false} NewRowCovered(t: Tables, job: Job, q: PublishRequest, sub: Gate.Submission)
    requires JournalOk(t) && ChainOk(t) && BundlesOk(t) && JobOk(t, job) && !job.state.Terminal()
    requires SubmissionSeen(t, job, q, sub) && Gate.Grounded(sub)
    ensures SourcesCovered(t.journal, CapsulesOf(q.memberships), job.session, job.target)
  {
    forall id | id in Gate.ValidSources(sub) ensures Cites(t.journal, job.session, 0, job.target, id) {
      ValidSourcesCovered(t, job, q, sub, id);
    }
  }

  lemma {:induction false} NewRowContinues(t: Tables, job: Job, q: PublishRequest, sub: Gate.Submission)
    requires JournalOk(t) && JobOk(t, job) && !job.state.Terminal()
    requires SubmissionSeen(t, job, q, sub) && Gate.SemanticsContinue(sub) && Gate.AnchorsContinue(sub)
    ensures Continues(t.journal, sub.previousCapsules, CapsulesOf(q.memberships), job.session,
                      Tip(Chain(t.snapshots, job.session)).coverage, job.target)
  {
    var lo := Tip(Chain(t.snapshots, job.session)).coverage;
    EventsBetweenComplete(t, job.session, lo, job.target);
    forall id | id in Gate.ActiveIds(sub.previousCapsules) && id !in Gate.ActiveIds(sub.capsules)
      ensures Retired(t.journal, sub.capsules, job.session, lo, job.target, id)
    {
      var r :| r in Gate.SemanticRecords(sub.capsules) && r.stableId == id
        && Gate.IsTransition(r, Gate.TransitionableIds(sub.previousCapsules))
        && exists source <- r.sources :: source in Gate.EventIds(sub.events);
      var source :| source in r.sources && source in Gate.EventIds(sub.events);
      assert Cites(t.journal, job.session, lo, job.target, source);
    }
  }

  /** What a candidate must be, against the end of its session's chain, to become the next snapshot. */
  ghost predicate Publishable(t: Tables, job: Job, q: PublishRequest) {
    var chain := Chain(t.snapshots, job.session);
    && job.session in t.sessions && q.candidate.session == t.sessions[job.session].key && q.candidate.session.hash == job.session
    && q.candidate.snapshotId != ""
    && q.candidate.base == Tip(chain).id && job.baseVersion == Tip(chain).version
    && Tip(chain).coverage < q.candidate.coverage == job.target < t.sessions[job.session].next
    && q.candidate.sourceHighWater == q.candidate.coverage
    && q.memberships != [] && DistinctCapsules(q.memberships)
    && q.candidate.capsuleIds == CapsuleIds(CapsulesOf(q.memberships))
    && q.candidate.anchorIds == AnchorIds(ActiveAnchors(CapsulesOf(q.memberships)))
    && (forall i :: 0 <= i < |q.memberships| ==> q.memberships[i].capsule.session == q.candidate.session)
    && SourcesCovered(t.journal, CapsulesOf(q.memberships), job.session, q.candidate.coverage)
    && (chain != [] ==>
          Continues(t.journal, CapsulesIn(t.capsules, chain[|chain| - 1]), CapsulesOf(q.memberships), job.session,
                    chain[|chain| - 1].envelope.coverage, q.candidate.coverage))
  }

  lemma {:induction false} ShapeMakesPublishable(t: Tables, job: Job, q: PublishRequest, sub: Gate.Submission)
    requires JournalOk(t) && JobOk(t, job) && !job.state.Terminal() && job.candidate == Some(q.candidate.snapshotId)
    requires q.candidate.session == t.sessions[job.session].key && MembershipsOk(q.candidate, q.memberships)
    requires SubmissionSeen(t, job, q, sub) && Gate.Shape(sub)
    requires SourcesCovered(t.journal, CapsulesOf(q.memberships), job.session, job.target)
    requires Continues(t.journal, sub.previousCapsules, CapsulesOf(q.memberships), job.session,
                       Tip(Chain(t.snapshots, job.session)).coverage, job.target)
    ensures Publishable(t, job, q)
  {
  }

  lemma {:induction false} GateMakesPublishable(t: Tables, job: Job, q: PublishRequest, sub: Gate.Submission)
    requires JournalOk(t) && ChainOk(t) && BundlesOk(t) && JobOk(t, job)
    requires !job.state.Terminal() && job.candidate == Some(q.candidate.snapshotId)
    requires q.candidate.session == t.sessions[job.session].key && MembershipsOk(q.candidate, q.memberships)
    requires SubmissionSeen(t, job, q, sub) && Gate.Validate(sub).Passed()
    ensures Publishable(t, job, q)
  {
    Gate.PassedIff(sub);
    NewRowCovered(t, job, q, sub);
    NewRowContinues(t, job, q, sub);
    ShapeMakesPublishable(t, job, q, sub);
  }

  /** Every admitted publication is by the open job of its session, and its candidate continues the chain. */
  lemma {:induction false} AdmissionMeans(s: Store, q: PublishRequest)
    requires Inv(s) && Admission(s, q).Ok?
    ensures var job := s.jobs[Admission(s, q).value];
      && job.state.ReadyToCommit? && job.jobId == q.token.jobId && job.candidate == Some(q.candidate.snapshotId)
      && Publishable(s.tables, job, q) && forall m <- q.memberships :: !Blank(m.slot)
  {
    var job := s.jobs[Admission(s, q).value];
    assert JobOk(s.tables, job);
    SubmissionUnderInv(s.tables, job, q);
    GateMakesPublishable(s.tables, job, q, SubmissionFor(s.tables, job, s.tables.sessions[job.session].key, q).value);
  }

  /** A successful savepoint: the tables with the candidate's row appended and the pointer moved onto it. */
  ghost predicate CandidateInserted(t: Tables, t': Tables, job: Job, q: PublishRequest) {
    && t'.sessions == t.sessions && t'.journal == t.journal
    && t'.snapshots == t.snapshots + [NewRow(q)]
    && t'.active == t.active[job.session := Pointer(q.candidate.snapshotId, job.baseVersion + 1)]
    && InsertCapsules(t.capsules, q.memberships) == Some(t'.capsules)
    && FindSnapshot(t.snapshots, q.candidate.snapshotId).None?
  }

  lemma {:induction false} InsertedGrows(t: Tables, t': Tables, job: Job, q: PublishRequest)
    requires CandidateInserted(t, t', job, q) && DistinctCapsules(q.memberships)
    requires forall id <- t.capsules.Keys :: t.capsules[id].capsuleId == id
    ensures Grows(t, t') && Bundle(t'.capsules, NewRow(q).members) == Some(CapsulesOf(q.memberships))
    ensures forall id <- t'.capsules.Keys :: t'.capsules[id].capsuleId == id
  {
    InsertCapsulesMeaning(t.capsules, q.memberships);
    NewRowBundle(t'.capsules, q);
  }

  lemma {:induction false} NewRowOk(t: Tables, t': Tables, job: Job, q: PublishRequest)
    requires Publishable(t, job, q) && t'.sessions == t.sessions && t'.journal == t.journal
    requires Bundle(t'.capsules, NewRow(q).members) == Some(CapsulesOf(q.memberships))
    ensures RowOk(t', NewRow(q))
  {
    assert CapsulesIn(t'.capsules, NewRow(q)) == CapsulesOf(q.memberships);
    assert RowReadable(t', NewRow(q), q.candidate.session);
  }

  /** Appending a base-linked row with larger coverage keeps a chain linked. */
  lemma {:induction false} LinkedAppend(chain: seq<SnapshotRow>, next: nat, row: SnapshotRow)
    requires Linked(chain, next)
    requires row.envelope.base == Tip(chain).id && Tip(chain).coverage < row.envelope.coverage < next
    ensures Linked(chain + [row], next)
  {
    var longer := chain + [row];
    forall i | 0 <= i < |longer| ensures Follows(longer[..i], longer[i], next) {
      assert longer[..i] == chain[..i];
      assert i < |chain| ==> longer[i] == chain[i];
      assert chain[..|chain|] == chain;
    }
  }

  lemma {:induction false} DistinctAppend(rows: seq<SnapshotRow>, row: SnapshotRow)
    requires DistinctIds(rows) && FindSnapshot(rows, row.envelope.snapshotId).None?
    ensures DistinctIds(rows + [row])
  {
  }

  lemma {:induction false} InsertedTip(t: Tables, t': Tables, job: Job, q: PublishRequest)
    requires CandidateInserted(t, t', job, q) && q.candidate.session.hash == job.session
    ensures Chain(t'.snapshots, job.session) == Chain(t.snapshots, job.session) + [NewRow(q)]
    ensures forall h :: h != job.session ==> Chain(t'.snapshots, h) == Chain(t.snapshots, h)
  {
    forall h ensures Chain(t'.snapshots, h) == Chain(t.snapshots, h) + (if h == job.session then [NewRow(q)] else []) {
      ChainAppend(t.snapshots, NewRow(q), h);
    }
  }

  lemma {:induction false} InsertedChainOk(t: Tables, t': Tables, job: Job, q: PublishRequest)
    requires ChainOk(t) && CandidateInserted(t, t', job, q)
    requires job.session in t.sessions && q.candidate.session.hash == job.session
    requires var tip := Tip(Chain(t.snapshots, job.session));
      && q.candidate.base == tip.id && job.baseVersion == tip.version
      && tip.coverage < q.candidate.coverage < t.sessions[job.session].next
    ensures ChainOk(t')
  {
    DistinctAppend(t.snapshots, NewRow(q));
    InsertedTip(t, t', job, q);
    forall h | h in t'.sessions ensures Linked(Chain(t'.snapshots, h), t'.sessions[h].next) {
      assert Linked(Chain(t.snapshots, h), t.sessions[h].next);
      if h == job.session {
        LinkedAppend(Chain(t.snapshots, h), t.sessions[h].next, NewRow(q));
      }
    }
    InsertedPointers(t, t', job, q);
  }

  lemma {:induction false} InsertedPointers(t: Tables, t': Tables, job: Job, q: PublishRequest)
    requires forall h :: PointerOk(t.active, h, Chain(t.snapshots, h))
    requires CandidateInserted(t, t', job, q) && q.candidate.session.hash == job.session
    requires job.baseVersion == Tip(Chain(t.snapshots, job.session)).version
    ensures forall h :: PointerOk(t'.active, h, Chain(t'.snapshots, h))
  {
    InsertedTip(t, t', job, q);
    forall h ensures PointerOk(t'.active, h, Chain(t'.snapshots, h)) {
      assert PointerOk(t.active, h, Chain(t.snapshots, h));
    }
  }

  lemma {:induction false} StepsContinueAppend(t: Tables, chain: seq<SnapshotRow>, session: string, row: SnapshotRow)
    requires StepsContinue(t, chain, session)
    requires chain != [] ==>
      Continues(t.journal, CapsulesIn(t.capsules, chain[|chain| - 1]), CapsulesIn(t.capsules, row), session,
                chain[|chain| - 1].envelope.coverage, row.envelope.coverage)
    ensures StepsContinue(t, chain + [row], session)
  {
    var longer := chain + [row];
    assert forall i :: 0 <= i < |chain| ==> longer[i] == chain[i];
  }

  lemma {:induction false} InsertedSteps(t: Tables, t': Tables, job: Job, q: PublishRequest, h: string)
    requires BundlesOk(t) && StepsContinue(t, Chain(t.snapshots, h), h) && CandidateInserted(t, t', job, q) && Grows(t, t')
    requires q.candidate.session.hash == job.session
    requires CapsulesIn(t'.capsules, NewRow(q)) == CapsulesOf(q.memberships)
    requires var chain := Chain(t.snapshots, job.session);
      chain != [] ==>
        Continues(t.journal, CapsulesIn(t.capsules, chain[|chain| - 1]), CapsulesOf(q.memberships), job.session,
                  chain[|chain| - 1].envelope.coverage, q.candidate.coverage)
    ensures StepsContinue(t', Chain(t'.snapshots, h), h)
  {
    var chain := Chain(t.snapshots, h);
    ChainAppend(t.snapshots, NewRow(q), h);
    StepsContinueGrows(t, t', chain, h);
    if h == job.session {
      if chain != [] {
        assert chain[|chain| - 1] in chain;
        RowOkGrows(t, t', chain[|chain| - 1]);
      }
      StepsContinueAppend(t', chain, h, NewRow(q));
    }
  }

  lemma {:induction false} InsertedLinksOk(t: Tables, t': Tables, job: Job, q: PublishRequest)
    requires BundlesOk(t) && LinksOk(t) && CandidateInserted(t, t', job, q) && Grows(t, t')
    requires q.candidate.session.hash == job.session
    requires CapsulesIn(t'.capsules, NewRow(q)) == CapsulesOf(q.memberships)
    requires var chain := Chain(t.snapshots, job.session);
      chain != [] ==>
        Continues(t.journal, CapsulesIn(t.capsules, chain[|chain| - 1]), CapsulesOf(q.memberships), job.session,
                  chain[|chain| - 1].envelope.coverage, q.candidate.coverage)
    ensures LinksOk(t')
  {
    forall h | h in t'.sessions ensures StepsContinue(t', Chain(t'.snapshots, h), h) {
      InsertedSteps(t, t', job, q, h);
    }
  }

  lemma {:induction false} InsertedBundlesOk(t: Tables, t': Tables, job: Job, q: PublishRequest)
    requires BundlesOk(t) && CandidateInserted(t, t', job, q) && Grows(t, t') && RowOk(t', NewRow(q))
    requires forall id <- t'.capsules.Keys :: t'.capsules[id].capsuleId == id
    ensures BundlesOk(t')
  {
    forall row | row in t'.snapshots ensures RowOk(t', row) {
      if row in t.snapshots {
        RowOkGrows(t, t', row);
      }
    }
  }

  lemma {:induction false} PublishedBundlesOk(t: Tables, t': Tables, job: Job, q: PublishRequest)
    requires BundlesOk(t) && Publishable(t, job, q) && CandidateInserted(t, t', job, q)
    ensures BundlesOk(t')
  {
    InsertedGrows(t, t', job, q);
    NewRowOk(t, t', job, q);
    InsertedBundlesOk(t, t', job, q);
  }

  lemma {:induction false} PublishedLinksOk(t: Tables, t': Tables, job: Job, q: PublishRequest)
    requires BundlesOk(t) && LinksOk(t) && Publishable(t, job, q) && CandidateInserted(t, t', job, q)
    ensures LinksOk(t')
  {
    hide RowOk, StepsContinue;
    InsertedGrows(t, t', job, q);
    InsertedLinksOk(t, t', job, q);
  }

  /** Inserting a publishable candidate keeps every table invariant. */
  lemma {:induction false} PublishedTablesOk(t: Tables, t': Tables, job: Job, q: PublishRequest)
    requires TablesOk(t) && Publishable(t, job, q) && CandidateInserted(t, t', job, q)
    ensures TablesOk(t')
  {
    PublishedBundlesOk(t, t', job, q);
    InsertedChainOk(t, t', job, q);
    PublishedLinksOk(t, t', job, q);
  }
}
