/** Capture and publication only add rows; what the invariant says of the old rows survives that. */
module StoreGrowth {
  import opened Common
  import opened Domain
  import opened Store
  import opened StoreInvariant
  import Gate = PublicationGate

  /** Sessions keep their identity and never shrink; journal and capsule rows are immutable. */
  ghost predicate Grows(t: Tables, t': Tables) {
    && (forall h <- t.sessions.Keys :: h in t'.sessions && t'.sessions[h].key == t.sessions[h].key && t.sessions[h].next <= t'.sessions[h].next)
    && (forall k <- t.journal.Keys :: k in t'.journal && t'.journal[k] == t.journal[k])
    && (forall id <- t.capsules.Keys :: id in t'.capsules && t'.capsules[id] == t.capsules[id])
  }

  lemma {:induction false} BundleGrows(capsules: map<Id, Capsule>, capsules': map<Id, Capsule>, row: SnapshotRow)
    requires forall id <- capsules.Keys :: id in capsules' && capsules'[id] == capsules[id]
    requires Bundle(capsules, row.members).Some?
    ensures Bundle(capsules', row.members) == Bundle(capsules, row.members)
    ensures CapsulesIn(capsules', row) == CapsulesIn(capsules, row)
  {
    assert Bundle(capsules', row.members).value == Bundle(capsules, row.members).value;
  }

  lemma {:induction false} CitesGrows(j: map<JournalKey, Event>, j': map<JournalKey, Event>, session: string, lo: nat, hi: nat, lo': nat, hi': nat, id: Id)
    requires forall k <- j.Keys :: k in j' && j'[k] == j[k]
    requires Cites(j, session, lo, hi, id) && lo' <= lo && hi <= hi'
    ensures Cites(j', session, lo', hi', id)
  {
  }

  lemma {:induction false} SourcesCoveredGrows(j: map<JournalKey, Event>, j': map<JournalKey, Event>, capsules: seq<Capsule>, session: string, coverage: nat)
    requires forall k <- j.Keys :: k in j' && j'[k] == j[k]
    requires SourcesCovered(j, capsules, session, coverage)
    ensures SourcesCovered(j', capsules, session, coverage)
  {
    forall id | Cites(j, session, 0, coverage, id) ensures Cites(j', session, 0, coverage, id) {
      CitesGrows(j, j', session, 0, coverage, 0, coverage, id);
    }
  }

  lemma {:induction false} RetiredGrows(j: map<JournalKey, Event>, j': map<JournalKey, Event>, newer: seq<Capsule>, session: string, lo: nat, hi: nat, id: Id)
    requires forall k <- j.Keys :: k in j' && j'[k] == j[k]
    requires Retired(j, newer, session, lo, hi, id)
    ensures Retired(j', newer, session, lo, hi, id)
  {
    var r :| r in Gate.SemanticRecords(newer) && r.stableId == id && (r.status.Superseded? || r.status.Retracted?)
      && exists source <- r.sources :: Cites(j, session, lo, hi, source);
    var source :| source in r.sources && Cites(j, session, lo, hi, source);
    CitesGrows(j, j', session, lo, hi, lo, hi, source);
  }

  lemma {:induction false} ContinuesGrows(j: map<JournalKey, Event>, j': map<JournalKey, Event>, older: seq<Capsule>, newer: seq<Capsule>, session: string, lo: nat, hi: nat)
    requires forall k <- j.Keys :: k in j' && j'[k] == j[k]
    requires Continues(j, older, newer, session, lo, hi)
    ensures Continues(j', older, newer, session, lo, hi)
  {
    forall id | id in Gate.ActiveIds(older) && id !in Gate.ActiveIds(newer)
      ensures Retired(j', newer, session, lo, hi, id)
    {
      RetiredGrows(j, j', newer, session, lo, hi, id);
    }
  }

  lemma {:induction false} RowOkGrows(t: Tables, t': Tables, row: SnapshotRow)
    requires Grows(t, t') && RowOk(t, row)
    ensures RowOk(t', row) && CapsulesIn(t'.capsules, row) == CapsulesIn(t.capsules, row)
  {
    BundleGrows(t.capsules, t'.capsules, row);
    SourcesCoveredGrows(t.journal, t'.journal, CapsulesIn(t.capsules, row), row.envelope.session.hash, row.envelope.coverage);
  }

  lemma {:induction false} StepsContinueGrows(t: Tables, t': Tables, chain: seq<SnapshotRow>, session: string)
    requires Grows(t, t') && StepsContinue(t, chain, session)
    requires forall row <- chain :: RowOk(t, row)
    ensures StepsContinue(t', chain, session)
  {
    forall i | 0 < i < |chain|
      ensures Continues(t'.journal, CapsulesIn(t'.capsules, chain[i - 1]), CapsulesIn(t'.capsules, chain[i]), session,
                        chain[i - 1].envelope.coverage, chain[i].envelope.coverage)
    {
      assert chain[i - 1] in chain && chain[i] in chain;
      RowOkGrows(t, t', chain[i - 1]);
      RowOkGrows(t, t', chain[i]);
      ContinuesGrows(t.journal, t'.journal, CapsulesIn(t.capsules, chain[i - 1]), CapsulesIn(t.capsules, chain[i]), session,
                     chain[i - 1].envelope.coverage, chain[i].envelope.coverage);
    }
  }

  // ----- capture -----

  /** The tables after one event of a session was appended. */
  function Appended(t: Tables, event: Event): (t': Tables) {
    var h := event.session.hash;
    t.(sessions := t.sessions[h := SessionRow(event.session, event.sequence + 1)],
       journal := t.journal[JournalKey(h, event.sequence) := event])
  }

  /** The event would repeat the idempotency tuple of row `k`. */
  ghost predicate Repeats(journal: map<JournalKey, Event>, k: JournalKey, event: Event)
    requires k in journal
  {
    && k.session == event.session.hash && journal[k].eventType == event.eventType
    && journal[k].idempotencyKey == event.idempotencyKey
  }

  ghost predicate NextEvent(t: Tables, event: Event) {
    var h := event.session.hash;
    && (forall k <- t.journal.Keys :: t.journal[k].eventId != event.eventId && !Repeats(t.journal, k, event))
    && (if h in t.sessions then t.sessions[h] == SessionRow(event.session, event.sequence) else event.sequence == 1)
  }

  lemma {:induction false} AppendGrows(t: Tables, event: Event)
    requires JournalOk(t) && NextEvent(t, event)
    ensures Grows(t, Appended(t, event))
  {
    assert JournalKey(event.session.hash, event.sequence) !in t.journal;
  }

  lemma {:induction false} AppendedKey(t: Tables, event: Event, k: JournalKey)
    requires JournalOk(t) && NextEvent(t, event)
    ensures var t' := Appended(t, event);
      && (k in t'.journal <==> k.session in t'.sessions && 1 <= k.sequence < t'.sessions[k.session].next)
      && (k in t'.journal ==> t'.journal[k].session == t'.sessions[k.session].key && t'.journal[k].sequence == k.sequence)
  {
    assert k in t.journal <==> k.session in t.sessions && 1 <= k.sequence < t.sessions[k.session].next;
  }

  lemma {:induction false} AppendKeepsJournal(t: Tables, event: Event)
    requires JournalOk(t) && NextEvent(t, event)
    ensures JournalOk(Appended(t, event))
  {
    var t' := Appended(t, event);
    forall k: JournalKey
      ensures k in t'.journal <==> k.session in t'.sessions && 1 <= k.sequence < t'.sessions[k.session].next
      ensures k in t'.journal ==> t'.journal[k].session == t'.sessions[k.session].key && t'.journal[k].sequence == k.sequence
    {
      AppendedKey(t, event, k);
    }
    var added := JournalKey(event.session.hash, event.sequence);
    forall k, k' | k in t'.journal && k' in t'.journal
      && (t'.journal[k].eventId == t'.journal[k'].eventId || SameTuple(t'.journal, k, k'))
      ensures k == k'
    {
      assert k != added ==> k in t.journal && t'.journal[k] == t.journal[k];
      assert k' != added ==> k' in t.journal && t'.journal[k'] == t.journal[k'];
      assert k != added ==> !Repeats(t.journal, k, event);
      assert k' != added ==> !Repeats(t.journal, k', event);
      assert k != added && k' != added && SameTuple(t'.journal, k, k') ==> SameTuple(t.journal, k, k');
    }
  }

  lemma {:induction false} ChainHasSession(t: Tables, h: string)
    requires ChainOk(t)
    ensures Chain(t.snapshots, h) != [] ==> h in t.sessions
  {
    var chain := Chain(t.snapshots, h);
    if chain != [] {
      assert chain[0] in chain;
    }
  }

  lemma {:induction false} AppendKeepsChain(t: Tables, event: Event)
    requires JournalOk(t) && ChainOk(t) && NextEvent(t, event)
    ensures ChainOk(Appended(t, event))
  {
    var t' := Appended(t, event);
    forall g | g in t'.sessions ensures Linked(Chain(t'.snapshots, g), t'.sessions[g].next) {
      if g in t.sessions {
        assert Linked(Chain(t.snapshots, g), t.sessions[g].next);
      } else {
        ChainHasSession(t, g);
      }
    }
  }

  lemma {:induction false} AppendKeepsRows(t: Tables, event: Event)
    requires TablesOk(t) && NextEvent(t, event) && Grows(t, Appended(t, event))
    ensures BundlesOk(Appended(t, event)) && LinksOk(Appended(t, event))
  {
    var t' := Appended(t, event);
    forall row | row in t.snapshots ensures RowOk(t', row) {
      RowOkGrows(t, t', row);
    }
    forall g | g in t'.sessions ensures StepsContinue(t', Chain(t'.snapshots, g), g) {
      if g in t.sessions {
        StepsContinueGrows(t, t', Chain(t.snapshots, g), g);
      } else {
        ChainHasSession(t, g);
      }
    }
  }

  /** A fresh event repeats no idempotency tuple. */
  lemma {:induction false} FreshIsNext(t: Tables, q: CaptureRequest)
    requires JournalOk(t)
    requires var next := if q.session.hash in t.sessions then t.sessions[q.session.hash].next else 1; FindReplay(t.journal, q, next).None?
    ensures forall k <- t.journal.Keys :: k.session == q.session.hash ==>
      t.journal[k].eventType != q.eventType || t.journal[k].idempotencyKey != q.idempotencyKey
  {
    forall k | k in t.journal && k.session == q.session.hash
      ensures t.journal[k].eventType != q.eventType || t.journal[k].idempotencyKey != q.idempotencyKey
    {
      assert k == JournalKey(q.session.hash, k.sequence);
    }
  }

  lemma {:induction false} CaptureKeeps(s: Store, q: CaptureRequest)
    requires Inv(s)
    ensures CaptureEvent(s, q).Commit? ==> Inv(CaptureEvent(s, q).store)
    ensures CaptureEvent(s, q) != Abort(StoreCorrupt)
    ensures var r := CaptureEvent(s, q); r.Commit? ==> r.store.jobs == s.jobs && Grows(s.tables, r.store.tables)
  {
    var r := CaptureEvent(s, q);
    if r.Commit? && r.store != s {
      FreshIsNext(s.tables, q);
      assert NextEvent(s.tables, r.value);
      assert r.store == Store(Appended(s.tables, r.value), s.jobs);
      AppendGrows(s.tables, r.value);
      AppendKeepsJournal(s.tables, r.value);
      AppendKeepsChain(s.tables, r.value);
      AppendKeepsRows(s.tables, r.value);
      AppendKeepsJobs(s.tables, s.jobs, r.value);
    }
  }

  lemma {:induction false} AppendKeepsJobs(t: Tables, jobs: seq<Job>, event: Event)
    requires JobsOk(t, jobs) && NextEvent(t, event)
    ensures JobsOk(Appended(t, event), jobs)
  {
    forall i | 0 <= i < |jobs| ensures JobOk(Appended(t, event), jobs[i]) {
      assert JobOk(t, jobs[i]);
    }
  }
}
