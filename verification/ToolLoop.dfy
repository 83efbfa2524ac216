/** The durable tool-loop parser: which event sequences split into indivisible units, and how. */
module ToolLoop {
  import opened Common
  import opened Domain

  datatype Fingerprint = Fingerprint(tool: string, arguments: string)

  /** The canonical fingerprint of a tool event, or None when its metadata is malformed. */
  type Marker = Event -> Option<Fingerprint>

  datatype LoopState = Stable | AwaitingResults | AwaitingAssistant | Invalid

  type Unit = seq<Event>

  function Concat(us: seq<Unit>): (es: seq<Event>) {
    if us == [] then [] else Concat(us[..|us| - 1]) + us[|us| - 1]
  }

  lemma {:induction false} ConcatAppend(us: seq<Unit>, vs: seq<Unit>)
    ensures Concat(us + vs) == Concat(us) + Concat(vs)
    decreases |vs|
  {
    if vs == [] {
      assert us + vs == us;
    } else {
      var n := |vs| - 1;
      ConcatAppend(us, vs[..n]);
      assert (us + vs)[..|us + vs| - 1] == us + vs[..n];
    }
  }

  // ----- units -----

  predicate IsTool(e: Event) {
    e.eventType.ToolCall? || e.eventType.ToolResult?
  }

  function Calls(es: seq<Event>, mark: Marker): (m: multiset<Fingerprint>) {
    if es == [] then multiset{}
    else
      var e := es[|es| - 1];
      Calls(es[..|es| - 1], mark)
      + if e.eventType.ToolCall? && mark(e).Some? then multiset{mark(e).value} else multiset{}
  }

  function Results(es: seq<Event>, mark: Marker): (m: multiset<Fingerprint>) {
    if es == [] then multiset{}
    else
      var e := es[|es| - 1];
      Results(es[..|es| - 1], mark)
      + if e.eventType.ToolResult? && mark(e).Some? then multiset{mark(e).value} else multiset{}
  }

  /** The tool events of a round that may still be open: it starts with a call, every event has a fingerprint, and on
      no prefix do the results exceed the calls. */
  ghost predicate OpenRound(body: seq<Event>, mark: Marker) {
    && body != [] && body[0].eventType.ToolCall?
    && (forall k :: 0 <= k < |body| ==> IsTool(body[k]) && mark(body[k]).Some?)
    && (forall n :: 0 <= n <= |body| ==> Results(body[..n], mark) <= Calls(body[..n], mark))
  }

  /** A closed round: equal calls and results, then the one closing assistant message. */
  ghost predicate Round(u: Unit, mark: Marker) {
    && |u| >= 2 && u[|u| - 1].eventType.AssistantMessage?
    && var body := u[..|u| - 1];
    OpenRound(body, mark) && Calls(body, mark) == Results(body, mark)
  }

  ghost predicate IsUnit(u: Unit, mark: Marker) {
    (|u| == 1 && !IsTool(u[0])) || Round(u, mark)
  }

  ghost predicate AllUnits(us: seq<Unit>, mark: Marker) {
    forall k :: 0 <= k < |us| ==> IsUnit(us[k], mark)
  }

  // ----- the machine -----

  datatype Machine = Machine(state: LoopState, pending: multiset<Fingerprint>, open: seq<Event>, units: seq<Unit>)

  const START := Machine(Stable, multiset{}, [], [])
  const BROKEN := Machine(Invalid, multiset{}, [], [])

  function Step(m: Machine, e: Event, mark: Marker): (r: Machine) {
    if m.state.Invalid? || (IsTool(e) && mark(e).None?) then BROKEN
    else if m.state.Stable? then
      if e.eventType.ToolCall? then Machine(AwaitingResults, multiset{mark(e).value}, [e], m.units)
      else if e.eventType.ToolResult? then BROKEN
      else m.(units := m.units + [[e]])
    else if e.eventType.ToolCall? then
      Machine(AwaitingResults, m.pending + multiset{mark(e).value}, m.open + [e], m.units)
    else if m.state.AwaitingResults? then
      if e.eventType.ToolResult? && mark(e).value in m.pending then
        var rest := m.pending - multiset{mark(e).value};
        Machine(if rest == multiset{} then AwaitingAssistant else AwaitingResults, rest, m.open + [e], m.units)
      else BROKEN
    else if e.eventType.AssistantMessage? then Machine(Stable, multiset{}, [], m.units + [m.open + [e]])
    else BROKEN
  }

  function Run(m: Machine, es: seq<Event>, mark: Marker): (r: Machine) {
    if es == [] then m else Step(Run(m, es[..|es| - 1], mark), es[|es| - 1], mark)
  }

  lemma {:induction false} RunSplit(m: Machine, xs: seq<Event>, ys: seq<Event>, mark: Marker)
    ensures Run(m, xs + ys, mark) == Run(Run(m, xs, mark), ys, mark)
    decreases |ys|
  {
    if ys == [] {
      assert xs + ys == xs;
    } else {
      var n := |ys| - 1;
      RunSplit(m, xs, ys[..n], mark);
      assert (xs + ys)[..|xs + ys| - 1] == xs + ys[..n];
    }
  }

  /** Nothing leaves the invalid state. */
  lemma {:induction false} InvalidAbsorbs(m: Machine, es: seq<Event>, mark: Marker)
    requires m == BROKEN
    ensures Run(m, es, mark) == BROKEN
  {
    if es != [] {
      InvalidAbsorbs(m, es[..|es| - 1], mark);
    }
  }

  // ----- soundness -----

  /** What a machine that has consumed `es` knows. */
  ghost predicate Tracks(m: Machine, es: seq<Event>, mark: Marker) {
    && Concat(m.units) + m.open == es && AllUnits(m.units, mark)
    && (m.state.Stable? ==> m.open == [] && m.pending == multiset{})
    && (m.state.AwaitingResults? || m.state.AwaitingAssistant? ==>
          OpenRound(m.open, mark) && Results(m.open, mark) + m.pending == Calls(m.open, mark))
    && (m.state.AwaitingResults? ==> m.pending != multiset{})
    && (m.state.AwaitingAssistant? ==> m.pending == multiset{})
  }

  lemma {:induction false} ConcatLast(us: seq<Unit>, u: Unit)
    ensures Concat(us + [u]) == Concat(us) + u
  {
    assert (us + [u])[..|us|] == us;
  }

  lemma {:induction false} CallsLast(body: seq<Event>, e: Event, mark: Marker)
    ensures Calls(body + [e], mark)
      == Calls(body, mark) + if e.eventType.ToolCall? && mark(e).Some? then multiset{mark(e).value} else multiset{}
    ensures Results(body + [e], mark)
      == Results(body, mark) + if e.eventType.ToolResult? && mark(e).Some? then multiset{mark(e).value} else multiset{}
  {
    assert (body + [e])[..|body|] == body;
  }

  /** One more tool event keeps a round open when the results still do not exceed the calls. */
  lemma {:induction false} OpenRoundGrows(body: seq<Event>, e: Event, mark: Marker)
    requires body == [] ==> e.eventType.ToolCall?
    requires body != [] ==> OpenRound(body, mark)
    requires IsTool(e) && mark(e).Some? && Results(body + [e], mark) <= Calls(body + [e], mark)
    ensures OpenRound(body + [e], mark)
  {
    var longer := body + [e];
    forall n | 0 <= n <= |longer| ensures Results(longer[..n], mark) <= Calls(longer[..n], mark) {
      if n <= |body| {
        assert longer[..n] == body[..n];
      } else {
        assert longer[..n] == longer;
      }
    }
  }

  lemma {:induction false} SingleTracks(m: Machine, es: seq<Event>, e: Event, mark: Marker)
    requires Tracks(m, es, mark) && m.state.Stable? && !IsTool(e)
    ensures Tracks(Step(m, e, mark), es + [e], mark)
  {
    hide IsUnit, OpenRound, Calls, Results, Concat;
    ConcatLast(m.units, [e]);
    SingleIsUnit(e, mark);
    assert Concat(m.units) + [e] + [] == es + [e];
  }

  lemma {:induction false} FirstCallTracks(m: Machine, es: seq<Event>, e: Event, mark: Marker)
    requires Tracks(m, es, mark) && m.state.Stable? && e.eventType.ToolCall? && mark(e).Some?
    ensures Tracks(Step(m, e, mark), es + [e], mark)
  {
    hide IsUnit, OpenRound, Calls, Results, Concat;
    CallsLast([], e, mark);
    NothingYet(mark);
    assert [] + [e] == [e];
    OpenRoundGrows([], e, mark);
  }

  lemma {:induction false} ToolTracks(m: Machine, es: seq<Event>, e: Event, mark: Marker)
    requires Tracks(m, es, mark) && !m.state.Stable? && IsTool(e) && mark(e).Some? && !Step(m, e, mark).state.Invalid?
    ensures Tracks(Step(m, e, mark), es + [e], mark)
  {
    hide IsUnit, OpenRound, Calls, Results, Concat, AllUnits;
    CallsLast(m.open, e, mark);
    RoundNonempty(m.open, mark);
    OpenRoundGrows(m.open, e, mark);
    assert Concat(m.units) + (m.open + [e]) == es + [e];
  }

  lemma {:induction false} CloseTracks(m: Machine, es: seq<Event>, e: Event, mark: Marker)
    requires Tracks(m, es, mark) && m.state.AwaitingAssistant? && e.eventType.AssistantMessage?
    ensures Tracks(Step(m, e, mark), es + [e], mark)
  {
    hide IsUnit, OpenRound, Calls, Results, Concat;
    ConcatLast(m.units, m.open + [e]);
    ClosedIsUnit(m.open, e, mark);
    assert Concat(m.units) + (m.open + [e]) + [] == es + [e];
  }

  lemma {:induction false} StepTracks(m: Machine, es: seq<Event>, e: Event, mark: Marker)
    requires Tracks(m, es, mark) && !Step(m, e, mark).state.Invalid?
    ensures Tracks(Step(m, e, mark), es + [e], mark)
  {
    hide Tracks;
    if m.state.Stable? && !IsTool(e) {
      SingleTracks(m, es, e, mark);
    } else if m.state.Stable? {
      FirstCallTracks(m, es, e, mark);
    } else if IsTool(e) {
      ToolTracks(m, es, e, mark);
    } else {
      CloseTracks(m, es, e, mark);
    }
  }

  lemma {:induction false} StartTracks(mark: Marker)
    ensures Tracks(START, [], mark)
  {
    hide OpenRound;
  }

  lemma {:induction false} RoundNonempty(body: seq<Event>, mark: Marker)
    requires OpenRound(body, mark)
    ensures body != []
  {
  }

  lemma {:induction false} NothingYet(mark: Marker)
    ensures Calls([], mark) == multiset{} == Results([], mark)
  {
  }

  lemma {:induction false} SingleIsUnit(e: Event, mark: Marker)
    requires !IsTool(e)
    ensures IsUnit([e], mark)
  {
  }

  lemma {:induction false} ClosedIsUnit(body: seq<Event>, e: Event, mark: Marker)
    requires OpenRound(body, mark) && Calls(body, mark) == Results(body, mark) && e.eventType.AssistantMessage?
    ensures IsUnit(body + [e], mark)
  {
    assert (body + [e])[..|body|] == body;
  }

  lemma {:induction false} InvalidStays(m: Machine, e: Event, mark: Marker)
    ensures m.state.Invalid? ==> Step(m, e, mark) == BROKEN
    ensures Step(m, e, mark).state.Invalid? ==> Step(m, e, mark) == BROKEN
  {
  }

  lemma {:induction false} RunTracks(es: seq<Event>, mark: Marker)
    requires !Run(START, es, mark).state.Invalid?
    ensures Tracks(Run(START, es, mark), es, mark)
  {
    hide Step, Tracks;
    if es == [] {
      StartTracks(mark);
    } else {
      var n := |es| - 1;
      InvalidStays(Run(START, es[..n], mark), es[n], mark);
      RunTracks(es[..n], mark);
      StepTracks(Run(START, es[..n], mark), es[..n], es[n], mark);
      assert es == es[..n] + [es[n]];
    }
  }

  // ----- completeness -----

  /** A machine inside a round that has consumed the tool events `body`. */
  ghost predicate Inside(m: Machine, before: Machine, body: seq<Event>, mark: Marker) {
    && m.units == before.units && m.open == body && Results(body, mark) + m.pending == Calls(body, mark)
    && (if m.pending == multiset{} then m.state.AwaitingAssistant? else m.state.AwaitingResults?)
  }

  lemma {:induction false} RoomFor(results: multiset<Fingerprint>, pending: multiset<Fingerprint>, f: Fingerprint)
    requires results + multiset{f} <= results + pending
    ensures f in pending && results + multiset{f} + (pending - multiset{f}) == results + pending
  {
    assert (results + multiset{f})[f] == results[f] + 1;
    assert (results + pending)[f] == results[f] + pending[f];
  }

  lemma {:induction false} InsideStep(m: Machine, before: Machine, body: seq<Event>, e: Event, mark: Marker)
    requires body != [] && Inside(m, before, body, mark) && IsTool(e) && mark(e).Some?
    requires Results(body + [e], mark) <= Calls(body + [e], mark)
    ensures Inside(Step(m, e, mark), before, body + [e], mark)
  {
    hide Calls, Results;
    CallsLast(body, e, mark);
    if e.eventType.ToolResult? {
      RoomFor(Results(body, mark), m.pending, mark(e).value);
    }
  }

  lemma {:induction false} FirstInside(m: Machine, e: Event, mark: Marker)
    requires m.state.Stable? && e.eventType.ToolCall? && mark(e).Some?
    ensures Inside(Run(m, [e], mark), m, [e], mark)
  {
    hide Calls, Results;
    assert [e][..0] == [] && [] + [e] == [e];
    CallsLast([], e, mark);
    NothingYet(mark);
  }

  lemma {:induction false} RoundPrefix(body: seq<Event>, n: nat, mark: Marker)
    requires OpenRound(body, mark) && 1 <= n <= |body|
    ensures IsTool(body[n - 1]) && mark(body[n - 1]).Some? && body[0].eventType.ToolCall?
    ensures body[..n] == body[..n - 1] + [body[n - 1]]
    ensures Results(body[..n - 1] + [body[n - 1]], mark) <= Calls(body[..n - 1] + [body[n - 1]], mark)
  {
    hide Calls, Results;
    assert body[..n] == body[..n - 1] + [body[n - 1]];
  }

  lemma {:induction false} RunInside(m: Machine, body: seq<Event>, n: nat, mark: Marker)
    requires m.state.Stable? && OpenRound(body, mark) && 1 <= n <= |body|
    ensures Inside(Run(m, body[..n], mark), m, body[..n], mark)
    decreases n
  {
    hide Calls, Results, OpenRound, Step, Inside;
    RoundPrefix(body, n, mark);
    if n == 1 {
      assert body[..1] == [body[0]];
      FirstInside(m, body[0], mark);
    } else {
      assert body[..n][..n - 1] == body[..n - 1];
      RunInside(m, body, n - 1, mark);
      InsideStep(Run(m, body[..n - 1], mark), m, body[..n - 1], body[n - 1], mark);
    }
  }

  lemma {:induction false} NothingLeft(results: multiset<Fingerprint>, pending: multiset<Fingerprint>)
    requires results + pending == results
    ensures pending == multiset{}
  {
    forall f ensures pending[f] == 0 {
      assert (results + pending)[f] == results[f] + pending[f];
    }
  }

  lemma {:induction false} RunRound(m: Machine, u: Unit, mark: Marker)
    requires m.state.Stable? && m.open == [] && m.pending == multiset{} && Round(u, mark)
    ensures Run(m, u, mark) == m.(units := m.units + [u])
  {
    hide Calls, Results, OpenRound, Step, Inside;
    var n := |u| - 1;
    var body := u[..n];
    RoundNonempty(body, mark);
    RunInside(m, body, |body|, mark);
    assert body[..|body|] == body && u == body + [u[n]];
    CloseInside(Run(m, body, mark), m, body, u[n], mark);
  }

  lemma {:induction false} CloseInside(m: Machine, before: Machine, body: seq<Event>, e: Event, mark: Marker)
    requires Inside(m, before, body, mark) && Calls(body, mark) == Results(body, mark) && e.eventType.AssistantMessage?
    ensures Step(m, e, mark) == Machine(Stable, multiset{}, [], before.units + [body + [e]])
  {
    hide Calls, Results;
    NothingLeft(Results(body, mark), m.pending);
  }

  /** Every unit takes a stable machine back to a stable one with that unit added. */
  lemma {:induction false} RunUnit(m: Machine, u: Unit, mark: Marker)
    requires m.state.Stable? && m.open == [] && m.pending == multiset{} && IsUnit(u, mark)
    ensures Run(m, u, mark) == m.(units := m.units + [u])
  {
    hide Round;
    if Round(u, mark) {
      RunRound(m, u, mark);
    } else {
      assert u[..0] == [] && u == [u[0]];
    }
  }

  lemma {:induction false} RunUnits(us: seq<Unit>, mark: Marker)
    requires AllUnits(us, mark)
    ensures Run(START, Concat(us), mark) == START.(units := us)
  {
    if us != [] {
      hide IsUnit, Step;
      var n := |us| - 1;
      RunUnits(us[..n], mark);
      RunSplit(START, Concat(us[..n]), us[n], mark);
      RunUnit(START.(units := us[..n]), us[n], mark);
      assert us[..n] + [us[n]] == us;
    }
  }

  // ----- the parser -----

  predicate Contiguous(es: seq<Event>) {
    forall k :: 0 < k < |es| ==> es[k].sequence == es[k - 1].sequence + 1 && es[k].session == es[0].session
  }

  datatype Parsed = Parsed(state: LoopState, pending: multiset<Fingerprint>, units: Option<seq<Unit>>)

  const REFUSED := Parsed(Invalid, multiset{}, None)

  function Parse(es: seq<Event>, mark: Marker): (r: Parsed) {
    var m := Run(START, es, mark);
    if !Contiguous(es) || m.state.Invalid? then REFUSED
    else Parsed(m.state, m.pending, if m.state.Stable? then Some(m.units) else None)
  }

  /** `durable_event_units`. */
  function Units(es: seq<Event>, mark: Marker): (r: Option<seq<Unit>>) {
    Parse(es, mark).units
  }

  /** `us` splits `es` into units. */
  ghost predicate Splits(us: seq<Unit>, es: seq<Event>, mark: Marker) {
    AllUnits(us, mark) && Concat(us) == es
  }

  /** The parser succeeds exactly on contiguous sequences that split into units, and returns the only such split. */
  lemma {:induction false} UnitsIff(es: seq<Event>, mark: Marker, us: seq<Unit>)
    ensures Units(es, mark) == Some(us) <==> Contiguous(es) && Splits(us, es, mark)
  {
    hide IsUnit, OpenRound;
    if Units(es, mark) == Some(us) {
      RunTracks(es, mark);
    }
    if Splits(us, es, mark) {
      RunUnits(us, mark);
    }
  }

  /** A stable prefix is parsed once and for all. */
  lemma {:induction false} UnitsAppend(xs: seq<Event>, ys: seq<Event>, mark: Marker)
    requires Contiguous(xs + ys) && Units(xs, mark).Some?
    ensures Contiguous(ys)
    ensures Units(xs + ys, mark)
      == if Units(ys, mark).Some? then Some(Units(xs, mark).value + Units(ys, mark).value) else None
  {
    ContiguousParts(xs, ys);
    RunTracks(xs, mark);
    RunSplit(START, xs, ys, mark);
    RunFrom(Units(xs, mark).value, ys, mark);
  }

  lemma {:induction false} ContiguousParts(xs: seq<Event>, ys: seq<Event>)
    requires Contiguous(xs + ys)
    ensures Contiguous(xs) && Contiguous(ys)
  {
    var es := xs + ys;
    forall k | 0 < k < |ys| ensures ys[k].sequence == ys[k - 1].sequence + 1 && ys[k].session == ys[0].session {
      assert es[|xs| + k] == ys[k] && es[|xs| + k - 1] == ys[k - 1] && es[|xs|] == ys[0];
    }
    forall k | 0 < k < |xs| ensures xs[k].sequence == xs[k - 1].sequence + 1 && xs[k].session == xs[0].session {
      assert es[k] == xs[k] && es[k - 1] == xs[k - 1] && es[0] == xs[0];
    }
  }

  lemma {:induction false} StepFrom(us: seq<Unit>, m: Machine, e: Event, mark: Marker)
    requires !m.state.Invalid?
    ensures var r := Step(m, e, mark);
      Step(m.(units := us + m.units), e, mark) == if r.state.Invalid? then BROKEN else r.(units := us + r.units)
  {
    assert us + (m.units + [[e]]) == us + m.units + [[e]];
    assert us + (m.units + [m.open + [e]]) == us + m.units + [m.open + [e]];
  }

  /** Earlier units only prefix the later ones. */
  lemma {:induction false} RunFrom(us: seq<Unit>, ys: seq<Event>, mark: Marker)
    ensures var m := Run(START, ys, mark);
      Run(START.(units := us), ys, mark) == if m.state.Invalid? then BROKEN else m.(units := us + m.units)
  {
    if ys != [] {
      hide Step;
      var n := |ys| - 1;
      RunFrom(us, ys[..n], mark);
      if !Run(START, ys[..n], mark).state.Invalid? {
        StepFrom(us, Run(START, ys[..n], mark), ys[n], mark);
      }
      InvalidStays(BROKEN, ys[n], mark);
      RunInvalidIsBroken(ys[..n], mark);
    }
  }

  lemma {:induction false} RunInvalidIsBroken(es: seq<Event>, mark: Marker)
    ensures Run(START, es, mark).state.Invalid? ==> Run(START, es, mark) == BROKEN
  {
  }

  /** An invalid prefix makes the whole sequence invalid. */
  lemma {:induction false} InvalidPrefix(xs: seq<Event>, ys: seq<Event>, mark: Marker)
    requires Parse(xs, mark).state.Invalid?
    ensures Parse(xs + ys, mark) == REFUSED
  {
    RunSplit(START, xs, ys, mark);
    if Contiguous(xs + ys) {
      ContiguousParts(xs, ys);
      RunInvalidIsBroken(xs, mark);
      InvalidAbsorbs(BROKEN, ys, mark);
    }
  }

  /** The loop's variables: the open round is a slice of the events from `start`. */
  datatype Cursor = Cursor(state: LoopState, pending: multiset<Fingerprint>, start: nat, units: seq<Unit>)

  ghost predicate CursorOk(c: Cursor, k: nat) {
    && !c.state.Invalid? && c.start <= k
    && (c.state.Stable? || c.state.AwaitingAssistant? ==> c.pending == multiset{})
  }

  ghost function MachineAt(c: Cursor, es: seq<Event>, k: nat): (m: Machine)
    requires c.start <= k <= |es|
  {
    Machine(c.state, c.pending, if c.state.Stable? then [] else es[c.start..k], c.units)
  }

  /** The transition taken on event `k`; None is a transition to the invalid state. */
  method Advance(c: Cursor, es: seq<Event>, k: nat, mark: Marker) returns (r: Option<Cursor>)
    requires k < |es| && CursorOk(c, k)
    ensures r.None? ==> Step(MachineAt(c, es, k), es[k], mark) == BROKEN
    ensures r.Some? ==> CursorOk(r.value, k + 1) && Step(MachineAt(c, es, k), es[k], mark) == MachineAt(r.value, es, k + 1)
  {
    var e := es[k];
    assert es[c.start..k + 1] == es[c.start..k] + [e] && es[k..k + 1] == [e];
    var f := if IsTool(e) then mark(e) else None;
    if IsTool(e) && f.None? {
      return None;
    }
    if c.state.Stable? {
      if e.eventType.ToolCall? {
        return Some(Cursor(AwaitingResults, c.pending + multiset{f.value}, k, c.units));
      } else if e.eventType.ToolResult? {
        return None;
      }
      return Some(c.(units := c.units + [[e]]));
    }
    if c.state.AwaitingResults? {
      if e.eventType.ToolCall? {
        return Some(c.(pending := c.pending + multiset{f.value}));
      } else if e.eventType.ToolResult? && f.value in c.pending {
        var rest := c.pending - multiset{f.value};
        return Some(c.(pending := rest, state := if rest == multiset{} then AwaitingAssistant else AwaitingResults));
      }
      return None;
    }
    if e.eventType.AssistantMessage? {
      return Some(c.(units := c.units + [es[c.start..k + 1]], state := Stable));
    } else if e.eventType.ToolCall? {
      return Some(c.(pending := c.pending + multiset{f.value}, state := AwaitingResults));
    }
    return None;
  }

  /** `_parse_events` as it runs: one pass with a pending multiset and the index at which the open round began. */
  method ParseEvents(es: seq<Event>, mark: Marker) returns (r: Parsed)
    ensures r == Parse(es, mark)
  {
    hide Contiguous, Run, Step;
    var c := Cursor(Stable, multiset{}, 0, []);
    NoEvents(mark);
    for k := 0 to |es|
      invariant Contiguous(es[..k]) && CursorOk(c, k) && Run(START, es[..k], mark) == MachineAt(c, es, k)
    {
      NextEvent(es, k, mark);
      if k > 0 && (es[k].sequence != es[k - 1].sequence + 1 || es[k].session != es[0].session) {
        BreaksContiguity(es, k);
        return REFUSED;
      }
      var next := Advance(c, es, k, mark);
      if next.None? {
        RefusedFrom(es, k + 1, mark);
        return REFUSED;
      }
      c := next.value;
    }
    assert es[..|es|] == es;
    return Parsed(c.state, c.pending, if c.state.Stable? then Some(c.units) else None);
  }

  lemma {:induction false} NoEvents(mark: Marker)
    ensures Contiguous([]) && Run(START, [], mark) == START
  {
  }

  lemma {:induction false} NextEvent(es: seq<Event>, k: nat, mark: Marker)
    requires k < |es| && Contiguous(es[..k])
    ensures Run(START, es[..k + 1], mark) == Step(Run(START, es[..k], mark), es[k], mark)
    ensures (k == 0 || (es[k].sequence == es[k - 1].sequence + 1 && es[k].session == es[0].session)) ==> Contiguous(es[..k + 1])
  {
    hide Step;
    assert es[..k + 1][..k] == es[..k];
    ContiguousNext(es, k);
  }

  lemma {:induction false} ContiguousNext(es: seq<Event>, k: nat)
    requires k < |es| && Contiguous(es[..k])
    ensures (k == 0 || (es[k].sequence == es[k - 1].sequence + 1 && es[k].session == es[0].session)) ==> Contiguous(es[..k + 1])
  {
    forall i | 0 < i < k ensures es[i].sequence == es[i - 1].sequence + 1 && es[i].session == es[0].session {
      assert es[..k][i] == es[i] && es[..k][i - 1] == es[i - 1] && es[..k][0] == es[0];
    }
  }

  lemma {:induction false} BreaksContiguity(es: seq<Event>, k: nat)
    requires 0 < k < |es| && (es[k].sequence != es[k - 1].sequence + 1 || es[k].session != es[0].session)
    ensures !Contiguous(es)
  {
  }

  lemma {:induction false} RefusedFrom(es: seq<Event>, k: nat, mark: Marker)
    requires k <= |es| && Run(START, es[..k], mark).state.Invalid?
    ensures Parse(es, mark) == REFUSED
  {
    assert es == es[..k] + es[k..];
    RunSplit(START, es[..k], es[k..], mark);
    RunInvalidIsBroken(es[..k], mark);
    InvalidAbsorbs(BROKEN, es[k..], mark);
  }
}
