/** Whole runs: any callers, in any order, at any clock readings, each call one atomic transaction. */
module StoreCalls {
  import opened Common
  import opened Store

  datatype Call =
    | Capture(capture: CaptureRequest)
    | Raise(raised: IntentRequest)
    | ClaimNext(claim: ClaimRequest)
    | Move(mover: Token, to: JobState, candidate: Option<Id>, movedAt: int)
    | Extend(extender: Token, extendedAt: int, until: int)
    | GiveUp(failure: FailRequest)
    | Sweep(sweptAt: int)
    | Submit(publication: PublishRequest)

  function StoreAfter<T>(s: Store, r: Tx<T>): (s': Store) {
    if r.Commit? then r.store else s
  }

  /** The store after one call; an abort, or a crash before commit, leaves it unchanged. */
  function Apply(s: Store, c: Call): (s': Store) {
    match c
    case Capture(q) => StoreAfter(s, CaptureEvent(s, q))
    case Raise(q) => StoreAfter(s, RaiseIntent(s, q))
    case ClaimNext(q) => StoreAfter(s, ClaimJob(s, q))
    case Move(t, to, candidate, now) => StoreAfter(s, TransitionJob(s, t, to, candidate, now))
    case Extend(t, now, until) => StoreAfter(s, RenewLease(s, t, now, until))
    case GiveUp(q) => StoreAfter(s, FailJob(s, q))
    case Sweep(now) => StoreAfter(s, RecoverLeases(s, now))
    case Submit(q) => StoreAfter(s, PublishSnapshot(s, q))
  }

  function Execute(s: Store, calls: seq<Call>): (s': Store) {
    if calls == [] then s else Apply(Execute(s, calls[..|calls| - 1]), calls[|calls| - 1])
  }

  lemma {:induction false} ExecuteSplit(s: Store, before: seq<Call>, after: seq<Call>)
    ensures Execute(s, before + after) == Execute(Execute(s, before), after)
    decreases |after|
  {
    if after == [] {
      assert before + after == before;
    } else {
      var last := |after| - 1;
      ExecuteSplit(s, before, after[..last]);
      assert (before + after)[..|before + after| - 1] == before + after[..last];
    }
  }
}
