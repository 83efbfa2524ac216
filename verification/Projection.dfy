/** Reversible projection: a message list is rewritten for a provider and put back, object by object. */
module Projection {

  /** Messages are told apart by identity only. */
  class Message {
    constructor () {
    }
  }

  type Messages = seq<Message>

  predicate Unique(ts: Messages) {
    forall i, j :: 0 <= i < j < |ts| ==> ts[i] != ts[j]
  }

  /** Indices of `target`, ascending. */
  function IndicesOf(ms: Messages, target: Message): (r: seq<nat>)
    ensures forall k :: 0 <= k < |r| ==> r[k] < |ms| && ms[r[k]] == target
    ensures forall i: nat :: i < |ms| && ms[i] == target ==> i in r
    ensures forall a, b :: 0 <= a < b < |r| ==> r[a] < r[b]
  {
    if ms == [] then []
    else
      var n := |ms| - 1;
      IndicesOf(ms[..n], target) + if ms[n] == target then [n] else []
  }

  /** `index for target in targets for index, message in enumerate(messages) if message is target`. */
  function Positions(ms: Messages, targets: Messages): (r: seq<nat>)
    ensures forall k :: 0 <= k < |r| ==> r[k] < |ms| && ms[r[k]] in targets
  {
    if targets == [] then []
    else
      var n := |targets| - 1;
      Positions(ms, targets[..n]) + IndicesOf(ms, targets[n])
  }

  predicate Ascending(ps: seq<nat>) {
    forall a, b :: 0 <= a < b < |ps| ==> ps[a] <= ps[b]
  }

  /** How often objects of `targets` occur. */
  function Count(ms: Messages, targets: Messages): (n: nat) {
    if ms == [] then 0 else Count(ms[..|ms| - 1], targets) + if ms[|ms| - 1] in targets then 1 else 0
  }

  function RankIn(targets: Messages, m: Message): (r: nat)
    ensures m in targets ==> r < |targets| && targets[r] == m
    ensures m !in targets ==> r == |targets|
  {
    if targets == [] then 0 else if targets[0] == m then 0 else 1 + RankIn(targets[1..], m)
  }

  /** Objects of `targets` appear in the order in which `targets` lists them. */
  ghost predicate InOrder(ms: Messages, targets: Messages) {
    forall i, j :: 0 <= i < j < |ms| && ms[i] in targets && ms[j] in targets ==> RankIn(targets, ms[i]) <= RankIn(targets, ms[j])
  }

  ghost predicate Free(ms: Messages, targets: Messages) {
    forall k :: 0 <= k < |ms| ==> ms[k] !in targets
  }

  // ----- the index computations of the code -----

  lemma {:induction false} PositionsHold(ms: Messages, targets: Messages, i: nat)
    requires i < |ms| && ms[i] in targets
    ensures i in Positions(ms, targets)
  {
    var n := |targets| - 1;
    if ms[i] == targets[n] {
      assert i in IndicesOf(ms, targets[n]);
    } else {
      assert ms[i] in targets[..n];
      PositionsHold(ms, targets[..n], i);
    }
  }

  lemma {:induction false} IndicesCount(ms: Messages, target: Message)
    ensures |IndicesOf(ms, target)| == Count(ms, [target])
  {
    if ms != [] {
      IndicesCount(ms[..|ms| - 1], target);
    }
  }

  lemma {:induction false} CountSplit(ms: Messages, targets: Messages, t: Message)
    requires t !in targets
    ensures Count(ms, targets + [t]) == Count(ms, targets) + Count(ms, [t])
  {
    if ms != [] {
      CountSplit(ms[..|ms| - 1], targets, t);
    }
  }

  lemma {:induction false} NoTargets(ms: Messages)
    ensures Count(ms, []) == 0
  {
    if ms != [] {
      NoTargets(ms[..|ms| - 1]);
    }
  }

  /** The number of positions is the number of occurrences. */
  lemma {:induction false} PositionsCount(ms: Messages, targets: Messages)
    requires Unique(targets)
    ensures |Positions(ms, targets)| == Count(ms, targets)
  {
    if targets == [] {
      NoTargets(ms);
    } else {
      var n := |targets| - 1;
      PositionsCount(ms, targets[..n]);
      IndicesCount(ms, targets[n]);
      CountSplit(ms, targets[..n], targets[n]);
      assert targets[..n] + [targets[n]] == targets;
    }
  }

  lemma {:induction false} RankAppend(targets: Messages, t: Message, m: Message)
    ensures RankIn(targets + [t], m) == if m in targets then RankIn(targets, m) else if m == t then |targets| else |targets| + 1
  {
    if targets != [] {
      assert (targets + [t])[1..] == targets[1..] + [t];
      RankAppend(targets[1..], t, m);
    }
  }

  /** The positions are ascending exactly when the objects appear in order. */
  lemma {:induction false} AscendingIffInOrder(ms: Messages, targets: Messages)
    requires Unique(targets)
    ensures Ascending(Positions(ms, targets)) <==> InOrder(ms, targets)
  {
    if targets != [] {
      var n := |targets| - 1;
      var rest, t := targets[..n], targets[n];
      assert targets == rest + [t] && t !in rest;
      AscendingIffInOrder(ms, rest);
      InOrderStep(ms, rest, t);
      AscendingStep(ms, rest, t);
    }
  }

  /** Every occurrence of `t` comes after every occurrence of an earlier target. */
  ghost predicate AllBefore(ms: Messages, rest: Messages, t: Message) {
    forall i, j :: 0 <= i < |ms| && 0 <= j < |ms| && ms[i] in rest && ms[j] == t ==> i < j
  }

  lemma {:induction false} InOrderStep(ms: Messages, rest: Messages, t: Message)
    requires t !in rest
    ensures InOrder(ms, rest + [t]) <==> InOrder(ms, rest) && AllBefore(ms, rest, t)
  {
    forall m ensures RankIn(rest + [t], m) == if m in rest then RankIn(rest, m) else if m == t then |rest| else |rest| + 1 {
      RankAppend(rest, t, m);
    }
    if InOrder(ms, rest + [t]) {
      forall i, j | 0 <= i < |ms| && 0 <= j < |ms| && ms[i] in rest && ms[j] == t ensures i < j {
      }
      forall i, j | 0 <= i < j < |ms| && ms[i] in rest && ms[j] in rest ensures RankIn(rest, ms[i]) <= RankIn(rest, ms[j]) {
        assert RankIn(rest + [t], ms[i]) <= RankIn(rest + [t], ms[j]);
      }
    }
  }

  lemma {:induction false} AscendingStep(ms: Messages, rest: Messages, t: Message)
    requires t !in rest
    ensures Positions(ms, rest + [t]) == Positions(ms, rest) + IndicesOf(ms, t)
    ensures Ascending(Positions(ms, rest + [t])) <==> Ascending(Positions(ms, rest)) && AllBefore(ms, rest, t)
  {
    assert (rest + [t])[..|rest|] == rest;
    AscendingConcat(Positions(ms, rest), IndicesOf(ms, t));
    BeforeIff(ms, rest, t);
  }

  /** Each position in `p` is at most each one in `q`. */
  ghost predicate AllUpTo(p: seq<nat>, q: seq<nat>) {
    forall a, b :: 0 <= a < |p| && 0 <= b < |q| ==> p[a] <= q[b]
  }

  lemma {:induction false} BeforeIff(ms: Messages, rest: Messages, t: Message)
    requires t !in rest
    ensures AllUpTo(Positions(ms, rest), IndicesOf(ms, t)) <==> AllBefore(ms, rest, t)
  {
    hide Positions, IndicesOf;
    var p, q := Positions(ms, rest), IndicesOf(ms, t);
    if AllUpTo(p, q) {
      forall i: nat, j: nat | i < |ms| && j < |ms| && ms[i] in rest && ms[j] == t ensures i < j {
        PositionsHold(ms, rest, i);
        var a :| 0 <= a < |p| && p[a] == i;
        var b :| 0 <= b < |q| && q[b] == j;
        assert p[a] <= q[b];
      }
    }
  }

  lemma {:induction false} AscendingConcat(p: seq<nat>, q: seq<nat>)
    requires Ascending(q)
    ensures Ascending(p + q) <==> Ascending(p) && AllUpTo(p, q)
  {
    var r := p + q;
    if Ascending(r) {
      forall a, b | 0 <= a < b < |p| ensures p[a] <= p[b] {
        assert r[a] == p[a] && r[b] == p[b];
      }
      forall a, b | 0 <= a < |p| && 0 <= b < |q| ensures p[a] <= q[b] {
        assert r[a] == p[a] && r[|p| + b] == q[b];
      }
    }
  }

  // ----- filtering and concatenation -----

  /** The messages that are not in `gone`. */
  function Without(ms: Messages, gone: Messages): (r: Messages)
    ensures forall k :: 0 <= k < |r| ==> r[k] in ms && r[k] !in gone
  {
    if ms == [] then []
    else
      var rest, last := Without(ms[..|ms| - 1], gone), ms[|ms| - 1];
      if last in gone then rest else rest + [last]
  }

  lemma {:induction false} WithoutConcat(a: Messages, b: Messages, gone: Messages)
    ensures Without(a + b, gone) == Without(a, gone) + Without(b, gone)
    decreases |b|
  {
    if b == [] {
      assert a + b == a;
    } else {
      var n := |b| - 1;
      WithoutConcat(a, b[..n], gone);
      assert (a + b)[..|a + b| - 1] == a + b[..n];
    }
  }

  /** Filtering keeps the order and the number of objects it does not remove. */
  lemma {:induction false} WithoutKeeps(ms: Messages, gone: Messages, targets: Messages)
    requires Free(targets, gone)
    ensures Count(Without(ms, gone), targets) == Count(ms, targets)
    ensures InOrder(ms, targets) ==> InOrder(Without(ms, gone), targets)
  {
    if ms != [] {
      var n := |ms| - 1;
      var rest := Without(ms[..n], gone);
      WithoutKeeps(ms[..n], gone, targets);
      CountLast(rest, ms[n], targets);
      if InOrder(ms, targets) {
        assert InOrder(ms[..n], targets);
        forall i | 0 <= i < |rest| && rest[i] in targets && ms[n] in targets ensures RankIn(targets, rest[i]) <= RankIn(targets, ms[n]) {
          var k :| 0 <= k < n && ms[..n][k] == rest[i];
          assert ms[k] == rest[i];
        }
      }
    }
  }

  lemma {:induction false} CountLast(ms: Messages, m: Message, targets: Messages)
    ensures Count(ms + [m], targets) == Count(ms, targets) + if m in targets then 1 else 0
  {
    assert (ms + [m])[..|ms|] == ms;
  }

  lemma {:induction false} CountConcat(a: Messages, b: Messages, targets: Messages)
    ensures Count(a + b, targets) == Count(a, targets) + Count(b, targets)
    decreases |b|
  {
    if b == [] {
      assert a + b == a;
    } else {
      var n := |b| - 1;
      CountConcat(a, b[..n], targets);
      assert (a + b)[..|a + b| - 1] == a + b[..n];
    }
  }

  lemma {:induction false} FreeCount(ms: Messages, targets: Messages)
    requires Free(ms, targets)
    ensures Count(ms, targets) == 0
  {
    if ms != [] {
      FreeCount(ms[..|ms| - 1], targets);
    }
  }

  /** Surrounding a list with foreign objects changes neither order nor number. */
  lemma {:induction false} Surrounded(x: Messages, r: Messages, d: Messages, targets: Messages)
    requires Free(x, targets) && Free(d, targets)
    ensures Count(x + r + d, targets) == Count(r, targets)
    ensures InOrder(r, targets) ==> InOrder(x + r + d, targets)
  {
    CountConcat(x + r, d, targets);
    CountConcat(x, r, targets);
    FreeCount(x, targets);
    FreeCount(d, targets);
    if InOrder(r, targets) {
      var ms := x + r + d;
      forall i, j | 0 <= i < j < |ms| && ms[i] in targets && ms[j] in targets
        ensures RankIn(targets, ms[i]) <= RankIn(targets, ms[j])
      {
        Inside(x, r, d, targets, i);
        Inside(x, r, d, targets, j);
      }
    }
  }

  lemma {:induction false} Inside(x: Messages, r: Messages, d: Messages, targets: Messages, i: nat)
    requires Free(x, targets) && Free(d, targets) && i < |x + r + d| && (x + r + d)[i] in targets
    ensures |x| <= i < |x| + |r| && (x + r + d)[i] == r[i - |x|]
  {
  }

  // ----- the last current object -----

  /** `ms` is cut just after its last object of `targets`. */
  ghost predicate CutAfterLast(ms: Messages, targets: Messages, cut: nat) {
    0 < cut <= |ms| && ms[cut - 1] in targets && Free(ms[cut..], targets)
  }

  /** The last of the ascending positions is where the list is cut. */
  lemma {:induction false} LastPosition(ms: Messages, targets: Messages)
    requires Ascending(Positions(ms, targets)) && Positions(ms, targets) != []
    ensures var ps := Positions(ms, targets); CutAfterLast(ms, targets, ps[|ps| - 1] + 1)
  {
    hide Positions, Ascending;
    var ps := Positions(ms, targets);
    var cut := ps[|ps| - 1] + 1;
    forall i: nat | i < |ms| && ms[i] in targets ensures i < cut {
      PositionsHold(ms, targets, i);
      UpToLast(ps, i);
    }
    forall k | 0 <= k < |ms[cut..]| ensures ms[cut..][k] !in targets {
      assert ms[cut..][k] == ms[cut + k];
    }
  }

  lemma {:induction false} UpToLast(ps: seq<nat>, i: nat)
    requires Ascending(ps) && i in ps
    ensures i <= ps[|ps| - 1]
  {
    var a :| 0 <= a < |ps| && ps[a] == i;
  }

  lemma {:induction false} NoneAfterCut(ms: Messages, targets: Messages, cut: nat)
    requires CutAfterLast(ms, targets, cut)
    ensures forall k :: cut <= k < |ms| ==> ms[k] !in targets
  {
    assert forall k :: cut <= k < |ms| ==> ms[k] == ms[cut..][k - cut];
  }

  lemma {:induction false} CutIsUnique(ms: Messages, targets: Messages, a: nat, b: nat)
    requires CutAfterLast(ms, targets, a) && CutAfterLast(ms, targets, b)
    ensures a == b
  {
    NoneAfterCut(ms, targets, a);
    NoneAfterCut(ms, targets, b);
  }

  lemma {:induction false} CutSurrounded(x: Messages, r: Messages, d: Messages, targets: Messages, cut: nat)
    requires CutAfterLast(r, targets, cut) && Free(d, targets)
    ensures CutAfterLast(x + r + d, targets, |x| + cut) && (x + r + d)[|x| + cut..] == r[cut..] + d
  {
    var ms := x + r + d;
    assert ms[|x| + cut..] == r[cut..] + d;
    assert ms[|x| + cut - 1] == r[cut - 1];
  }

  // ----- what the index computations mean -----

  /** The occurrences of each target, summed up over the targets. */
  ghost function Held(ms: Messages, targets: Messages): (n: nat) {
    if targets == [] then 0 else Held(ms, targets[..|targets| - 1]) + Count(ms, [targets[|targets| - 1]])
  }

  /** No occurrence of a target comes after one of a later target. */
  ghost predicate Listed(ms: Messages, targets: Messages) {
    forall a, b :: 0 <= a < b < |targets| ==> NotAfter(ms, targets[a], targets[b])
  }

  ghost predicate NotAfter(ms: Messages, s: Message, t: Message) {
    forall i, j :: 0 <= i < |ms| && 0 <= j < |ms| && ms[i] == s && ms[j] == t ==> i <= j
  }

  lemma {:induction false} HeldIs(ms: Messages, targets: Messages)
    ensures |Positions(ms, targets)| == Held(ms, targets)
  {
    if targets != [] {
      var n := |targets| - 1;
      HeldIs(ms, targets[..n]);
      IndicesCount(ms, targets[n]);
    }
  }

  lemma {:induction false} NotAfterIff(ms: Messages, s: Message, t: Message)
    ensures AllUpTo(IndicesOf(ms, s), IndicesOf(ms, t)) <==> NotAfter(ms, s, t)
  {
    var p, q := IndicesOf(ms, s), IndicesOf(ms, t);
    hide IndicesOf;
    if AllUpTo(p, q) {
      forall i: nat, j: nat | i < |ms| && j < |ms| && ms[i] == s && ms[j] == t ensures i <= j {
        var a :| 0 <= a < |p| && p[a] == i;
        var b :| 0 <= b < |q| && q[b] == j;
        assert p[a] <= q[b];
      }
    }
  }

  lemma {:induction false} AllUpToConcat(p: seq<nat>, p': seq<nat>, q: seq<nat>)
    ensures AllUpTo(p + p', q) <==> AllUpTo(p, q) && AllUpTo(p', q)
  {
    if AllUpTo(p + p', q) {
      forall a, b | 0 <= a < |p| && 0 <= b < |q| ensures p[a] <= q[b] {
        assert (p + p')[a] == p[a];
      }
      forall a, b | 0 <= a < |p'| && 0 <= b < |q| ensures p'[a] <= q[b] {
        assert (p + p')[|p| + a] == p'[a];
      }
    }
  }

  lemma {:induction false} AllNotAfter(ms: Messages, targets: Messages, t: Message)
    ensures AllUpTo(Positions(ms, targets), IndicesOf(ms, t)) <==> forall a :: 0 <= a < |targets| ==> NotAfter(ms, targets[a], t)
  {
    hide IndicesOf, NotAfter;
    if targets != [] {
      var n := |targets| - 1;
      AllNotAfter(ms, targets[..n], t);
      AllUpToConcat(Positions(ms, targets[..n]), IndicesOf(ms, targets[n]), IndicesOf(ms, t));
      NotAfterIff(ms, targets[n], t);
      assert forall a :: 0 <= a < n ==> targets[..n][a] == targets[a];
    }
  }

  lemma {:induction false} ListedIff(ms: Messages, targets: Messages)
    ensures Ascending(Positions(ms, targets)) <==> Listed(ms, targets)
  {
    hide NotAfter, IndicesOf, Ascending, Listed, AllUpTo;
    if targets == [] {
      NothingListed(ms);
    } else {
      var n := |targets| - 1;
      ListedIff(ms, targets[..n]);
      IndicesAscend(ms, targets[n]);
      AscendingConcat(Positions(ms, targets[..n]), IndicesOf(ms, targets[n]));
      AllNotAfter(ms, targets[..n], targets[n]);
      ListedNext(ms, targets);
    }
  }

  lemma {:induction false} NothingListed(ms: Messages)
    ensures Ascending(Positions(ms, [])) && Listed(ms, [])
  {
  }

  lemma {:induction false} ListedNext(ms: Messages, targets: Messages)
    requires targets != []
    ensures var n := |targets| - 1;
      Listed(ms, targets) <==> Listed(ms, targets[..n]) && forall a :: 0 <= a < n ==> NotAfter(ms, targets[..n][a], targets[n])
  {
    hide NotAfter;
    var n := |targets| - 1;
    if Listed(ms, targets[..n]) && forall a :: 0 <= a < n ==> NotAfter(ms, targets[..n][a], targets[n]) {
      forall a, b | 0 <= a < b < |targets| ensures NotAfter(ms, targets[a], targets[b]) {
        assert targets[..n][a] == targets[a];
        assert b < n ==> targets[..n][b] == targets[b];
      }
    }
    if Listed(ms, targets) {
      forall a, b | 0 <= a < b < n ensures NotAfter(ms, targets[..n][a], targets[..n][b]) {
        assert NotAfter(ms, targets[a], targets[b]);
      }
    }
  }

  lemma {:induction false} IndicesAscend(ms: Messages, t: Message)
    ensures Ascending(IndicesOf(ms, t))
  {
  }

  /** `r` is what is left of `ms`, in order, when the objects of `gone` are taken out. */
  ghost predicate Filtered(ms: Messages, gone: Messages, r: Messages) {
    exists at: seq<nat> :: Keeps(ms, gone, at) && r == Chosen(ms, at)
  }

  /** `at` are the positions of what is not in `gone`, rising. */
  ghost predicate Keeps(ms: Messages, gone: Messages, at: seq<nat>) {
    && (forall k :: 0 <= k < |at| ==> at[k] < |ms|) && (forall a, b :: 0 <= a < b < |at| ==> at[a] < at[b])
    && forall i: nat :: i in at <==> i < |ms| && ms[i] !in gone
  }

  ghost function Chosen(ms: Messages, at: seq<nat>): (r: Messages)
    requires forall k :: 0 <= k < |at| ==> at[k] < |ms|
    ensures |r| == |at| && forall k :: 0 <= k < |at| ==> r[k] == ms[at[k]]
  {
    seq(|at|, k requires 0 <= k < |at| => ms[at[k]])
  }

  lemma {:induction false} WithoutAt(ms: Messages, gone: Messages) returns (at: seq<nat>)
    ensures Keeps(ms, gone, at) && Without(ms, gone) == Chosen(ms, at)
  {
    if ms == [] {
      at := [];
    } else {
      hide Keeps;
      var n := |ms| - 1;
      var rest := WithoutAt(ms[..n], gone);
      KeepsNext(ms, gone, rest);
      at := if ms[n] in gone then rest else rest + [n];
    }
  }

  lemma {:induction false} KeepsNext(ms: Messages, gone: Messages, at: seq<nat>)
    requires ms != [] && Keeps(ms[..|ms| - 1], gone, at)
    ensures var n := |ms| - 1; var next := if ms[n] in gone then at else at + [n];
      Keeps(ms, gone, next) && Chosen(ms, next) == Chosen(ms[..n], at) + if ms[n] in gone then [] else [ms[n]]
  {
    var n := |ms| - 1;
    KeptPositions(ms, gone, at);
    hide Keeps;
    if ms[n] in gone {
      ChosenSame(ms, at);
    } else {
      ChosenNext(ms, at);
    }
  }

  lemma {:induction false} ChosenSame(ms: Messages, at: seq<nat>)
    requires ms != [] && forall k :: 0 <= k < |at| ==> at[k] < |ms| - 1
    ensures Chosen(ms, at) == Chosen(ms[..|ms| - 1], at)
  {
  }

  lemma {:induction false} ChosenNext(ms: Messages, at: seq<nat>)
    requires ms != [] && forall k :: 0 <= k < |at| ==> at[k] < |ms| - 1
    ensures var n := |ms| - 1;
      (forall k :: 0 <= k < |at + [n]| ==> (at + [n])[k] < |ms|) && Chosen(ms, at + [n]) == Chosen(ms[..n], at) + [ms[n]]
  {
    var n := |ms| - 1;
    var next := at + [n];
    assert next[|at|] == n;
    forall k | 0 <= k < |next| ensures next[k] < |ms| && ms[next[k]] == (Chosen(ms[..n], at) + [ms[n]])[k] {
      if k < |at| {
        assert next[k] == at[k];
      }
    }
  }

  lemma {:induction false} KeptPositions(ms: Messages, gone: Messages, at: seq<nat>)
    requires ms != [] && Keeps(ms[..|ms| - 1], gone, at)
    ensures var n := |ms| - 1; Keeps(ms, gone, if ms[n] in gone then at else at + [n])
    ensures forall k :: 0 <= k < |at| ==> at[k] < |ms| - 1
  {
    var n: nat := |ms| - 1;
    forall i: nat | i < n ensures ms[i] !in gone <==> i in at {
      assert ms[..n][i] !in gone <==> i in at;
    }
    forall i: nat ensures i in at + [n] <==> i in at || i == n {
    }
  }

  lemma {:induction false} WithoutFilters(ms: Messages, gone: Messages)
    ensures Filtered(ms, gone, Without(ms, gone))
  {
    var at := WithoutAt(ms, gone);
  }

  // ----- the operations -----

  class MessageList {
    var items: Messages

    constructor (items: Messages)
      ensures this.items == items
    {
      this.items := items;
    }
  }

  datatype ProjectionError =
    | ListIdentityMismatch | RequestIdentityMismatch | PreservedObjectInvalid | PreservedObjectMismatch
    | ProjectionObjectInvalid | ProjectedPrefixMismatch | CurrentObjectMissing

  datatype Result<+T> = Done(value: T) | Failed(error: ProjectionError)

  datatype Guard = Guard(request: int, list: MessageList, native: Messages, history: Messages, system: Messages, current: Messages)
  datatype View = View(guard: Guard, request: int, before: Messages, projection: Messages, projected: Messages)
  datatype Restored = Restored(view: View, delta: Messages, restored: Messages)

  /** The occurrences of the preserved objects, as the code counts them. */
  function Occurrences(ms: Messages, targets: Messages): (n: nat) {
    |Positions(ms, targets)|
  }

  predicate GuardAdmits(native: Messages, system: Messages, current: Messages) {
    current != [] && Unique(system + current) && Occurrences(native, system + current) == |system + current|
  }

  /** Some object is listed twice. */
  ghost predicate Repeats(ts: Messages) {
    exists i, j :: 0 <= i < j < |ts| && ts[i] == ts[j]
  }

  /** `guard_projection`: reads the list, changes nothing. */
  method GuardProjection(request: int, list: MessageList, system: Messages, current: Messages) returns (r: Result<Guard>)
    ensures r.Done? <==> GuardAdmits(list.items, system, current)
    ensures r.Done? ==>
      && r.value == Guard(request, list, list.items, Without(list.items, system + current), system, current)
      && Filtered(list.items, system + current, r.value.history)
    ensures r == Failed(PreservedObjectInvalid) <==> |current| == 0 || Repeats(system + current)
    ensures r == Failed(PreservedObjectMismatch) <==>
      |current| > 0 && !Repeats(system + current) && Held(list.items, system + current) != |system + current|
    ensures r.Done? <==> |current| > 0 && !Repeats(system + current) && Held(list.items, system + current) == |system + current|
  {
    var preserved := system + current;
    HeldIs(list.items, preserved);
    WithoutFilters(list.items, preserved);
    hide Positions, Held;
    if current == [] || !Unique(preserved) {
      return Failed(PreservedObjectInvalid);
    }
    if Occurrences(list.items, preserved) != |preserved| {
      return Failed(PreservedObjectMismatch);
    }
    return Done(Guard(request, list, list.items, Without(list.items, preserved), system, current));
  }

  predicate Preserves(ms: Messages, g: Guard) {
    && Occurrences(ms, g.system + g.current) == |g.system + g.current|
    && Ascending(Positions(ms, g.system)) && Ascending(Positions(ms, g.current))
  }

  predicate ProjectionAdmits(ms: Messages, g: Guard, projection: Messages) {
    Unique(projection) && forall k :: 0 <= k < |projection| ==> projection[k] !in ms
  }

  /** The preserved objects occur as often as there are of them, those of each group in the order of the group. */
  ghost predicate HoldsPreserved(ms: Messages, g: Guard) {
    Held(ms, g.system + g.current) == |g.system| + |g.current| && Listed(ms, g.system) && Listed(ms, g.current)
  }

  /** The projection objects are new and no two are the same. */
  ghost predicate NewObjects(ms: Messages, projection: Messages) {
    !Repeats(projection) && forall m <- projection :: m !in ms
  }

  lemma {:induction false} ProjectableIff(ms: Messages, g: Guard, projection: Messages)
    ensures Preserves(ms, g) <==> HoldsPreserved(ms, g)
    ensures ProjectionAdmits(ms, g, projection) <==> NewObjects(ms, projection)
  {
    hide Positions, Held, Listed, Ascending;
    HeldIs(ms, g.system + g.current);
    ListedIff(ms, g.system);
    ListedIff(ms, g.current);
  }

  /** Without its history the list is a head without the first current object and a tail that begins with it; the
      projection comes between them. */
  ghost predicate ProjectsTo(ms: Messages, g: Guard, projection: Messages, r: Messages) {
    exists at: seq<nat>, cut: nat :: Keeps(ms, g.history, at) && InsertedAt(Chosen(ms, at), g, projection, cut, r)
  }

  ghost predicate InsertedAt(kept: Messages, g: Guard, projection: Messages, cut: nat, r: Messages) {
    && cut < |kept| && |g.current| > 0 && kept[cut] == g.current[0] && g.current[0] !in kept[..cut]
    && r == kept[..cut] + projection + kept[cut..]
  }

  lemma {:induction false} ProjectedListMeans(ms: Messages, g: Guard, projection: Messages)
    requires g.current != [] && g.current[0] in Without(ms, g.history)
    ensures ProjectsTo(ms, g, projection, ProjectedList(ms, g, projection))
  {
    var retained := Without(ms, g.history);
    var kept := WithoutAt(ms, g.history);
    assert Chosen(ms, kept) == retained;
    FirstFound(retained, g.current[0]);
    var at := FirstOf(retained, g.current[0]);
    assert InsertedAt(retained, g, projection, at, ProjectedList(ms, g, projection));
  }

  lemma {:induction false} RetainedIff(ms: Messages, g: Guard)
    requires g.current != []
    ensures g.current[0] in Without(ms, g.history) <==> g.current[0] in ms && g.current[0] !in g.history
  {
    var at := WithoutAt(ms, g.history);
    if g.current[0] in ms && g.current[0] !in g.history {
      var i :| 0 <= i < |ms| && ms[i] == g.current[0];
      assert i in at;
    }
  }

  /** Position of the first occurrence, or the length. */
  function FirstOf(ms: Messages, m: Message): (n: nat)
    ensures n <= |ms| && (n < |ms| ==> ms[n] == m)
    ensures forall k :: 0 <= k < n ==> ms[k] != m
  {
    if ms == [] then 0 else if ms[0] == m then 0 else 1 + FirstOf(ms[1..], m)
  }

  /** The list with its history removed and the projection put before the first current object. */
  function ProjectedList(ms: Messages, g: Guard, projection: Messages): (r: Messages)
    requires g.current != []
  {
    var retained := Without(ms, g.history);
    var at := FirstOf(retained, g.current[0]);
    retained[..at] + projection + retained[at..]
  }

  /** `project`. */
  method Project(list: MessageList, g: Guard, projection: Messages) returns (r: Result<View>)
    requires g.current != []
    modifies list
    ensures r.Done? <==>
      && list == g.list && Preserves(old(list.items), g) && ProjectionAdmits(old(list.items), g, projection)
      && g.current[0] in Without(old(list.items), g.history)
    ensures r.Done? ==>
      && list.items == ProjectedList(old(list.items), g, projection) && ProjectsTo(old(list.items), g, projection, list.items)
      && r.value == View(g, g.request, old(list.items), projection, list.items)
    ensures r.Failed? ==> list.items == old(list.items)
    ensures r == Failed(ListIdentityMismatch) <==> list != g.list
    ensures r == Failed(PreservedObjectMismatch) <==> list == g.list && !HoldsPreserved(old(list.items), g)
    ensures r == Failed(ProjectionObjectInvalid) <==>
      list == g.list && HoldsPreserved(old(list.items), g) && !NewObjects(old(list.items), projection)
    ensures r == Failed(CurrentObjectMissing) <==>
      && list == g.list && HoldsPreserved(old(list.items), g) && NewObjects(old(list.items), projection)
      && !(g.current[0] in old(list.items) && g.current[0] !in g.history)
    ensures r.Failed? ==>
      r.error in {ListIdentityMismatch, PreservedObjectMismatch, ProjectionObjectInvalid, CurrentObjectMissing}
  {
    ProjectableIff(list.items, g, projection);
    RetainedIff(list.items, g);
    if g.current[0] in Without(list.items, g.history) {
      ProjectedListMeans(list.items, g, projection);
    }
    hide Preserves, HoldsPreserved, ProjectionAdmits, NewObjects, Without, ProjectsTo;
    if list != g.list {
      return Failed(ListIdentityMismatch);
    }
    if !Preserves(list.items, g) {
      return Failed(PreservedObjectMismatch);
    }
    if !ProjectionAdmits(list.items, g, projection) {
      return Failed(ProjectionObjectInvalid);
    }
    var before := list.items;
    var retained := Without(before, g.history);
    var at := FirstOf(retained, g.current[0]);
    if at == |retained| {
      return Failed(CurrentObjectMissing);
    }
    list.items := retained[..at] + projection + retained[at..];
    return Done(View(g, g.request, before, projection, list.items));
  }

  /** What follows the last current object. */
  function DeltaOf(ms: Messages, current: Messages): (d: Messages)
  {
    var ps := Positions(ms, current);
    if ps == [] then [] else ms[ps[|ps| - 1] + 1..]
  }

  predicate RestoreAdmits(ms: Messages, v: View) {
    && v.request == v.guard.request
    && Occurrences(ms, v.guard.current) == |v.guard.current| && Ascending(Positions(ms, v.guard.current))
    && forall k :: 0 <= k < |v.projection| ==> v.projection[k] !in DeltaOf(ms, v.guard.current)
  }

  /** `delta` is what follows the last current object. */
  ghost predicate FollowsLast(ms: Messages, current: Messages, delta: Messages) {
    exists cut: nat :: CutAfterLast(ms, current, cut) && delta == ms[cut..]
  }

  /** The current objects occur as often as there are of them, in their order. */
  ghost predicate HoldsCurrent(ms: Messages, g: Guard) {
    Held(ms, g.current) == |g.current| && Listed(ms, g.current)
  }

  /** No projection object follows the last current object. */
  ghost predicate ProjectionIsBefore(ms: Messages, v: View) {
    exists cut: nat :: CutAfterLast(ms, v.guard.current, cut) && forall m <- v.projection :: m !in ms[cut..]
  }

  lemma {:induction false} DeltaMeans(ms: Messages, g: Guard)
    requires g.current != [] && HoldsCurrent(ms, g)
    ensures FollowsLast(ms, g.current, DeltaOf(ms, g.current))
    ensures forall delta: Messages :: FollowsLast(ms, g.current, delta) ==> delta == DeltaOf(ms, g.current)
  {
    hide Held, Listed, Ascending, Positions;
    HeldIs(ms, g.current);
    ListedIff(ms, g.current);
    LastPosition(ms, g.current);
    var ps := Positions(ms, g.current);
    forall cut: nat | CutAfterLast(ms, g.current, cut) ensures cut == ps[|ps| - 1] + 1 {
      CutIsUnique(ms, g.current, cut, ps[|ps| - 1] + 1);
    }
  }

  lemma {:induction false} CutOf(ms: Messages, current: Messages, delta: Messages) returns (cut: nat)
    requires FollowsLast(ms, current, delta)
    ensures CutAfterLast(ms, current, cut) && cut <= |ms| && delta == ms[cut..]
  {
    cut :| CutAfterLast(ms, current, cut) && delta == ms[cut..];
  }

  lemma {:induction false} RestorableIff(ms: Messages, v: View)
    requires v.guard.current != []
    ensures RestoreAdmits(ms, v) <==> v.request == v.guard.request && HoldsCurrent(ms, v.guard) && ProjectionIsBefore(ms, v)
  {
    hide Held, Listed, Ascending, Positions, DeltaOf, CutAfterLast;
    HeldIs(ms, v.guard.current);
    ListedIff(ms, v.guard.current);
    if HoldsCurrent(ms, v.guard) {
      DeltaMeans(ms, v.guard);
      var cut := CutOf(ms, v.guard.current, DeltaOf(ms, v.guard.current));
      forall other: nat | CutAfterLast(ms, v.guard.current, other) ensures other == cut {
        CutIsUnique(ms, v.guard.current, cut, other);
      }
    }
  }

  /** `restore`: on the list it is given, whichever that is. */
  method Restore(list: MessageList, v: View) returns (r: Result<Restored>)
    requires v.guard.current != []
    modifies list
    ensures r.Done? <==> RestoreAdmits(old(list.items), v)
    ensures r.Done? ==>
      && list.items == v.before + DeltaOf(old(list.items), v.guard.current)
      && r.value == Restored(v, DeltaOf(old(list.items), v.guard.current), list.items)
      && FollowsLast(old(list.items), v.guard.current, r.value.delta)
    ensures r.Failed? ==> list.items == old(list.items)
    ensures r == Failed(RequestIdentityMismatch) <==> v.request != v.guard.request
    ensures r == Failed(ProjectedPrefixMismatch) <==>
      v.request == v.guard.request && !(HoldsCurrent(old(list.items), v.guard) && ProjectionIsBefore(old(list.items), v))
    ensures r.Failed? ==> r.error in {RequestIdentityMismatch, ProjectedPrefixMismatch}
  {
    RestorableIff(list.items, v);
    if HoldsCurrent(list.items, v.guard) {
      DeltaMeans(list.items, v.guard);
    }
    hide Positions, Ascending, HoldsCurrent, ProjectionIsBefore, FollowsLast;
    if v.request != v.guard.request {
      return Failed(RequestIdentityMismatch);
    }
    var positions := Positions(list.items, v.guard.current);
    if |positions| != |v.guard.current| || !Ascending(positions) {
      return Failed(ProjectedPrefixMismatch);
    }
    var delta := list.items[positions[|positions| - 1] + 1..];
    if exists k :: 0 <= k < |v.projection| && v.projection[k] in delta {
      return Failed(ProjectedPrefixMismatch);
    }
    list.items := v.before + delta;
    return Done(Restored(v, delta, list.items));
  }

  /** `verify_native`. */
  predicate VerifyNative(ms: Messages, r: Restored) {
    ms == r.view.guard.native + r.delta
  }

  // ----- the round trip -----

  /** The guard was taken on `native`, and nothing edited the list before the projection. */
  ghost predicate Projectable(native: Messages, g: Guard, projection: Messages) {
    && GuardAdmits(native, g.system, g.current) && g.native == native
    && g.history == Without(native, g.system + g.current)
    && Preserves(native, g) && ProjectionAdmits(native, g, projection)
    && g.current[0] in Without(native, g.history)
  }

  /** The retained list is the preserved objects of the native one. */
  lemma {:induction false} HistoryIsTheRest(native: Messages, preserved: Messages, k: nat)
    requires k < |native|
    ensures native[k] in Without(native, preserved) <==> native[k] !in preserved
  {
    if native[k] !in preserved {
      assert native == native[..k] + ([native[k]] + native[k + 1..]);
      WithoutConcat(native[..k], [native[k]] + native[k + 1..], preserved);
      WithoutConcat([native[k]], native[k + 1..], preserved);
      assert [native[k]][..0] == [];
      assert Without([native[k]], preserved) == [native[k]];
      assert Without(native, preserved)[|Without(native[..k], preserved)|] == native[k];
    }
  }

  /** No preserved object is history. */
  lemma {:induction false} PreservedNotHistory(native: Messages, g: Guard)
    requires g.history == Without(native, g.system + g.current)
    ensures Free(g.current, g.history)
  {
    forall k | 0 <= k < |g.current| ensures g.current[k] !in g.history {
      assert g.current[k] == (g.system + g.current)[|g.system| + k];
    }
  }

  /** Before the first occurrence of the first current object there is no current object at all. */
  lemma {:induction false} NothingBeforeFirst(ms: Messages, current: Messages)
    requires current != [] && InOrder(ms, current) && current[0] in ms
    ensures Free(ms[..FirstOf(ms, current[0])], current)
  {
    var at := FirstOf(ms, current[0]);
    var i :| 0 <= i < |ms| && ms[i] == current[0];
    assert at < |ms|;
    forall k | 0 <= k < at ensures ms[..at][k] !in current {
      assert ms[..at][k] == ms[k] && ms[k] != current[0];
      assert ms[k] in current ==> RankIn(current, ms[k]) <= RankIn(current, ms[at]);
    }
  }

  /** The native list cut after its last current object: what is retained after it are the system objects there. */
  ghost function Tail(native: Messages, g: Guard, cut: nat): (r: Messages)
    requires cut <= |native|
  {
    Without(native[cut..], g.history)
  }

  /** No system object follows the last current object of the native list. */
  ghost predicate EndsWithCurrent(native: Messages, g: Guard) {
    exists cut: nat :: CutAfterLast(native, g.current, cut) && Free(native[cut..], g.system)
  }

  /** What the projection keeps from the first current object on. */
  function KeptSuffix(native: Messages, g: Guard): (r: Messages)
    requires g.current != []
  {
    var retained := Without(native, g.history);
    retained[FirstOf(retained, g.current[0])..]
  }

  lemma {:induction false} UniqueCurrent(system: Messages, current: Messages)
    requires Unique(system + current)
    ensures Unique(current)
  {
    forall i, j | 0 <= i < j < |current| ensures current[i] != current[j] {
      assert (system + current)[|system| + i] == current[i] && (system + current)[|system| + j] == current[j];
    }
  }

  lemma {:induction false} InOrderSuffix(ms: Messages, targets: Messages, at: nat)
    requires InOrder(ms, targets) && at <= |ms|
    ensures InOrder(ms[at..], targets)
  {
    var r := ms[at..];
    forall i, j | 0 <= i < j < |r| && r[i] in targets && r[j] in targets ensures RankIn(targets, r[i]) <= RankIn(targets, r[j]) {
      assert r[i] == ms[at + i] && r[j] == ms[at + j];
    }
  }

  /** The kept suffix has all current objects of the native list, in order. */
  lemma {:induction false} SuffixHoldsCurrent(native: Messages, g: Guard, projection: Messages)
    requires Projectable(native, g, projection)
    ensures var r := KeptSuffix(native, g); Count(r, g.current) == Count(native, g.current) && InOrder(r, g.current)
  {
    hide Positions, Count, InOrder, Without, Ascending;
    var c, retained := g.current, Without(native, g.history);
    UniqueCurrent(g.system, c);
    AscendingIffInOrder(native, c);
    PreservedNotHistory(native, g);
    WithoutKeeps(native, g.history, c);
    NothingBeforeFirst(retained, c);
    var at := FirstOf(retained, c[0]);
    assert retained == retained[..at] + retained[at..];
    CountConcat(retained[..at], retained[at..], c);
    FreeCount(retained[..at], c);
    InOrderSuffix(retained, c, at);
  }

  lemma {:induction false} WithoutLast(a: Messages, gone: Messages)
    requires a != [] && a[|a| - 1] !in gone
    ensures Without(a, gone) != [] && Without(a, gone)[|Without(a, gone)| - 1] == a[|a| - 1]
  {
  }

  /** Where the retained list is cut after its last current object. */
  lemma {:induction false} RetainedCut(native: Messages, g: Guard, cut: nat)
    requires CutAfterLast(native, g.current, cut) && Free(g.current, g.history)
    ensures var retained, head := Without(native, g.history), Without(native[..cut], g.history);
      && CutAfterLast(retained, g.current, |head|) && retained[|head|..] == Tail(native, g, cut)
  {
    hide Without;
    var a, b := native[..cut], native[cut..];
    assert native == a + b;
    WithoutConcat(a, b, g.history);
    assert a[|a| - 1] in g.current;
    WithoutLast(a, g.history);
    var head, tail := Without(a, g.history), Without(b, g.history);
    assert (head + tail)[|head|..] == tail;
    forall k | 0 <= k < |tail| ensures tail[k] !in g.current {
      assert tail[k] in b;
    }
  }

  lemma {:induction false} CutInSuffix(ms: Messages, targets: Messages, cut: nat, at: nat)
    requires CutAfterLast(ms, targets, cut) && at < |ms| && ms[at] in targets
    ensures at < cut && CutAfterLast(ms[at..], targets, cut - at) && ms[at..][cut - at..] == ms[cut..]
  {
    NoneAfterCut(ms, targets, cut);
    assert ms[at..][cut - at..] == ms[cut..];
  }

  lemma {:induction false} CutInRange(ms: Messages, targets: Messages, cut: nat)
    requires CutAfterLast(ms, targets, cut)
    ensures 0 < cut <= |ms|
  {
  }

  /** Where the rewritten list ends its last current object, and what follows it. */
  lemma {:induction false} RewrittenCut(native: Messages, g: Guard, projection: Messages, x: Messages, d: Messages, cut: nat)
    returns (at: nat)
    requires Projectable(native, g, projection) && CutAfterLast(native, g.current, cut) && Free(d, g.current)
    ensures var list := x + KeptSuffix(native, g) + d; CutAfterLast(list, g.current, at) && list[at..] == Tail(native, g, cut) + d
  {
    hide Positions, Without, Ascending, Unique, GuardAdmits, Preserves, CutAfterLast, Tail, Free;
    CutInRange(native, g.current, cut);
    NonemptyCurrent(native, g, projection);
    var c, retained := g.current, Without(native, g.history);
    PreservedNotHistory(native, g);
    RetainedCut(native, g, cut);
    var first, head := FirstOf(retained, c[0]), |Without(native[..cut], g.history)|;
    FirstFound(retained, c[0]);
    CutInSuffix(retained, c, head, first);
    CutSurrounded(x, retained[first..], d, c, head - first);
    at := |x| + (head - first);
  }

  /** The delta found by the restore: the system objects that followed the last current object, then what was
      appended. */
  lemma {:induction false} DeltaIs(native: Messages, g: Guard, projection: Messages, x: Messages, d: Messages, cut: nat)
    requires Projectable(native, g, projection) && CutAfterLast(native, g.current, cut)
    requires Free(x, g.current) && Free(d, g.current)
    requires Ascending(Positions(x + KeptSuffix(native, g) + d, g.current)) && Positions(x + KeptSuffix(native, g) + d, g.current) != []
    ensures DeltaOf(x + KeptSuffix(native, g) + d, g.current) == Tail(native, g, cut) + d
  {
    hide Positions, Ascending, KeptSuffix, Tail, CutAfterLast;
    var list := x + KeptSuffix(native, g) + d;
    var at := RewrittenCut(native, g, projection, x, d, cut);
    LastPosition(list, g.current);
    var ps := Positions(list, g.current);
    CutIsUnique(list, g.current, ps[|ps| - 1] + 1, at);
  }

  lemma {:induction false} FirstFound(ms: Messages, m: Message)
    requires m in ms
    ensures FirstOf(ms, m) < |ms|
  {
  }

  /** A restore after any rewrite before the current objects and any appended delta is admitted exactly when the
      native list held each current object as often as the guard's total suggests. */
  lemma {:induction false} RestoreAdmitted(native: Messages, g: Guard, projection: Messages, v: View, x: Messages, d: Messages)
    requires Projectable(native, g, projection) && v == View(g, g.request, native, projection, ProjectedList(native, g, projection))
    requires Free(x, g.current) && Free(d, g.current) && Free(d, projection)
    ensures RestoreAdmits(x + KeptSuffix(native, g) + d, v) <==> Occurrences(native, g.current) == |g.current|
  {
    hide Positions, Count, InOrder, Without, Ascending, ProjectedList, DeltaOf, Preserves;
    var c, kept := g.current, KeptSuffix(native, g);
    var list := x + kept + d;
    UniqueCurrent(g.system, c);
    SuffixHoldsCurrent(native, g, projection);
    Surrounded(x, kept, d, c);
    PositionsCount(list, c);
    PositionsCount(native, c);
    AscendingIffInOrder(list, c);
    if Occurrences(native, c) == |c| {
      NativeCut(native, g, projection);
      var cut: nat :| CutAfterLast(native, c, cut);
      DeltaIs(native, g, projection, x, d, cut);
      forall k | 0 <= k < |projection| ensures projection[k] !in Tail(native, g, cut) + d {
        TailFromNative(native, g, cut);
        NotIn(d, projection, k);
      }
    }
  }

  lemma {:induction false} NotIn(d: Messages, projection: Messages, k: nat)
    requires Free(d, projection) && k < |projection|
    ensures projection[k] !in d
  {
  }

  lemma {:induction false} TailFromNative(native: Messages, g: Guard, cut: nat)
    requires cut <= |native|
    ensures forall m :: m in Tail(native, g, cut) ==> m in native
  {
    forall m | m in Tail(native, g, cut) ensures m in native {
      assert m in native[cut..];
    }
  }

  lemma {:induction false} NativeCut(native: Messages, g: Guard, projection: Messages)
    requires Projectable(native, g, projection) && Occurrences(native, g.current) == |g.current|
    ensures exists cut: nat :: CutAfterLast(native, g.current, cut)
  {
    hide Positions;
    LastPosition(native, g.current);
  }

  /** The tail is empty exactly when only history follows the last current object. */
  lemma {:induction false} EmptyTail(native: Messages, g: Guard, cut: nat)
    requires g.history == Without(native, g.system + g.current) && CutAfterLast(native, g.current, cut)
    ensures Tail(native, g, cut) == [] <==> Free(native[cut..], g.system)
  {
    NoneAfterCut(native, g.current, cut);
    forall k: nat | cut <= k < |native| ensures native[k] in g.history <==> native[k] !in g.system {
      HistoryIsTheRest(native, g.system + g.current, k);
    }
    AllGone(native[cut..], g.history);
    if Free(native[cut..], g.system) {
      forall k | 0 <= k < |native[cut..]| ensures native[cut..][k] in g.history {
        assert native[cut..][k] == native[cut + k];
      }
    } else {
      var k :| 0 <= k < |native[cut..]| && native[cut..][k] in g.system;
      assert native[cut..][k] == native[cut + k];
    }
  }

  lemma {:induction false} AllGone(ms: Messages, gone: Messages)
    ensures Without(ms, gone) == [] <==> forall k :: 0 <= k < |ms| ==> ms[k] in gone
  {
    if ms != [] {
      AllGone(ms[..|ms| - 1], gone);
      assert forall k :: 0 <= k < |ms| - 1 ==> ms[k] == ms[..|ms| - 1][k];
    }
  }

  /** Guard, project, any rewrite before the current objects with any appended delta, and restore: the list is the
      native one plus that delta exactly when no system object followed the last current object, and the native
      check holds. */
  lemma {:induction false} RoundTrip(native: Messages, g: Guard, projection: Messages, v: View, x: Messages, d: Messages)
    requires Projectable(native, g, projection) && v == View(g, g.request, native, projection, ProjectedList(native, g, projection))
    requires Free(x, g.current) && Free(d, g.current) && Free(d, projection) && Occurrences(native, g.current) == |g.current|
    ensures var list := x + KeptSuffix(native, g) + d; var delta := DeltaOf(list, g.current);
      && RestoreAdmits(list, v)
      && (v.before + delta == native + d <==> EndsWithCurrent(native, g))
      && (forall cut: nat :: CutAfterLast(native, g.current, cut) ==> delta == Tail(native, g, cut) + d)
      && VerifyNative(v.before + delta, Restored(v, delta, v.before + delta))
  {
    hide Positions, Without, ProjectedList, DeltaOf, GuardAdmits, Preserves, ProjectionAdmits;
    NonemptyCurrent(native, g, projection);
    RestoreAdmitted(native, g, projection, v, x, d);
    NativeCut(native, g, projection);
    var cut: nat :| CutAfterLast(native, g.current, cut);
    DeltaIs(native, g, projection, x, d, cut);
    EmptyTail(native, g, cut);
    SameAppended(native, Tail(native, g, cut), d);
    forall other: nat | CutAfterLast(native, g.current, other) ensures other == cut {
      CutIsUnique(native, g.current, cut, other);
    }
  }

  lemma {:induction false} NonemptyCurrent(native: Messages, g: Guard, projection: Messages)
    requires Projectable(native, g, projection)
    ensures g.current != []
  {
  }

  lemma {:induction false} SameAppended(native: Messages, tail: Messages, d: Messages)
    ensures native + (tail + d) == native + d <==> tail == []
  {
    if tail != [] {
      assert |native + (tail + d)| > |native + d|;
    } else {
      assert tail + d == d;
    }
  }

  /** The guard compares only the total number of occurrences: a repeated object can hide a missing one, and then the
      restore is refused. */
  lemma {:induction false} GuardCountsOnlyTheTotal(s: Message, a: Message, b: Message)
    requires s != a && s != b && a != b
    ensures GuardAdmits([s, s, a], [s], [a, b]) && Occurrences([s, s, a], [a, b]) != |[a, b]|
  {
    hide Count, Positions;
    var ms := [s, s, a];
    assert [s] + [a, b] == [s, a, b];
    PositionsCount(ms, [s, a, b]);
    PositionsCount(ms, [a, b]);
    CountOfThree(s, s, a, [s, a, b]);
    CountOfThree(s, s, a, [a, b]);
  }

  /** The guard of a list of one current object and one system object behind it. */
  ghost function TailGuard(request: int, list: MessageList, c: Message, s: Message): (g: Guard) {
    Guard(request, list, [c, s], [], [s], [c])
  }

  lemma {:induction false} IndicesLast(ms: Messages, m: Message, target: Message)
    ensures IndicesOf(ms + [m], target) == if m == target then IndicesOf(ms, target) + [|ms|] else IndicesOf(ms, target)
  {
    assert (ms + [m])[..|ms|] == ms;
  }

  lemma {:induction false} PositionsOfTwo(ms: Messages, s: Message, c: Message)
    ensures Positions(ms, [s]) == IndicesOf(ms, s) && Positions(ms, [s, c]) == IndicesOf(ms, s) + IndicesOf(ms, c)
  {
    hide IndicesOf;
    assert [s, c][..1] == [s] && [s][..0] == [];
    assert Positions(ms, []) == [];
    assert Positions(ms, [s]) == [] + IndicesOf(ms, s);
  }

  lemma {:induction false} IndicesOfPair(a: Message, b: Message, t: Message)
    ensures IndicesOf([a, b], t) == (if a == t then [0] else []) + (if b == t then [1] else [])
  {
    assert IndicesOf([], t) == [];
    hide IndicesOf;
    IndicesLast([], a, t);
    IndicesLast([a], b, t);
    assert [] + [a] == [a] && [a] + [b] == [a, b];
  }

  lemma {:induction false} PositionsOfPair(c: Message, s: Message)
    requires c != s
    ensures Positions([c, s], [c]) == [0] && Positions([c, s], [s]) == [1] && Positions([c, s], [s, c]) == [1, 0]
  {
    hide IndicesOf, Positions;
    IndicesOfPair(c, s, c);
    IndicesOfPair(c, s, s);
    PositionsOfTwo([c, s], s, c);
    PositionsOfTwo([c, s], c, s);
  }

  /** With a system object behind the last current object the projection is accepted, and yet it does not come back:
      the system object is doubled. */
  lemma {:induction false} TrailingSystemIsDoubled(
    request: int, list: MessageList, c: Message, s: Message, p: Message, v: View, x: Messages, d: Messages)
    requires c != s && c != p && s != p
    requires var g := TailGuard(request, list, c, s);
      v == View(g, request, [c, s], [p], ProjectedList([c, s], g, [p])) && Free(x, g.current) && Free(d, g.current) && Free(d, [p])
    ensures var g := TailGuard(request, list, c, s);
      && Projectable([c, s], g, [p]) && !EndsWithCurrent([c, s], g)
      && RestoreAdmits(x + KeptSuffix([c, s], g) + d, v)
      && v.before + DeltaOf(x + KeptSuffix([c, s], g) + d, g.current) == [c, s, s] + d != [c, s] + d
  {
    hide Positions, ProjectedList, DeltaOf, KeptSuffix, Projectable, EndsWithCurrent, CutAfterLast, Tail, RestoreAdmits, Without;
    var native, g := [c, s], TailGuard(request, list, c, s);
    PositionsOfPair(c, s);
    PairAdmitted(request, list, c, s, p);
    PairCut(request, list, c, s);
    RoundTrip(native, g, [p], v, x, d);
    assert [c, s] + ([s] + d) == [c, s, s] + d;
    assert |[c, s, s] + d| != |[c, s] + d|;
  }

  lemma {:induction false} PairPreserved(g: Guard, c: Message, s: Message)
    requires c != s && g.system == [s] && g.current == [c]
    ensures GuardAdmits([c, s], g.system, g.current) && Preserves([c, s], g)
  {
    PositionsOfPair(c, s);
    hide Positions;
    assert [s] + [c] == [s, c];
    assert |[1, 0]| == |[s, c]|;
  }

  lemma {:induction false} PairAdmitted(request: int, list: MessageList, c: Message, s: Message, p: Message)
    requires c != s && c != p && s != p
    ensures Projectable([c, s], TailGuard(request, list, c, s), [p])
  {
    hide GuardAdmits, Preserves, Without;
    PairPreserved(TailGuard(request, list, c, s), c, s);
    PairHistory(c, s);
    assert [s] + [c] == [s, c];
    assert c in [c, s];
  }

  lemma {:induction false} WithoutPair(a: Message, b: Message, gone: Messages)
    ensures Without([a, b], gone) == (if a in gone then [] else [a]) + (if b in gone then [] else [b])
    ensures Without([a], gone) == if a in gone then [] else [a]
  {
    assert [a, b][..1] == [a] && [a][..0] == [];
    assert Without([], gone) == [];
    assert Without([a], gone) == if a in gone then [] else [a];
  }

  lemma {:induction false} PairHistory(c: Message, s: Message)
    ensures Without([c, s], [s, c]) == [] && Without([c, s], []) == [c, s] && Without([s], []) == [s]
  {
    hide Without;
    WithoutPair(c, s, [s, c]);
    WithoutPair(c, s, []);
    WithoutPair(s, c, []);
  }

  lemma {:induction false} PairCut(request: int, list: MessageList, c: Message, s: Message)
    requires c != s
    ensures var g := TailGuard(request, list, c, s);
      CutAfterLast([c, s], g.current, 1) && !EndsWithCurrent([c, s], g) && Tail([c, s], g, 1) == [s]
  {
    var native, g := [c, s], TailGuard(request, list, c, s);
    assert native[1..] == [s];
    PairHistory(c, s);
    hide Without;
    forall cut: nat | CutAfterLast(native, g.current, cut) ensures cut == 1 {
      CutIsUnique(native, g.current, 1, cut);
    }
    assert [s][0] in g.system;
  }

  lemma {:induction false} CountOfThree(p: Message, q: Message, r: Message, targets: Messages)
    ensures Count([p, q, r], targets)
      == (if p in targets then 1 else 0) + (if q in targets then 1 else 0) + (if r in targets then 1 else 0)
  {
    CountLast([], p, targets);
    CountLast([p], q, targets);
    CountLast([p, q], r, targets);
    assert [] + [p] == [p] && [p] + [q] == [p, q] && [p, q] + [r] == [p, q, r];
  }
}
