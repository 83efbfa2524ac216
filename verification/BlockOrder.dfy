/** The deterministic candidate order and the removal of repeated ids. */
module BlockOrder {
  import opened Common
  import opened Blocks

  function RawOrder(b: Block): (n: nat) {
    if b.slot.Raw() && b.sequence.Some? then b.sequence.value else 0
  }

  function ScoreOrder(b: Block): (v: real) {
    if b.slot.Raw() then 0.0 else -b.score
  }

  function CapsuleText(b: Block): (s: string) {
    if b.capsule.Some? then b.capsule.value else ""
  }

  predicate ListBefore(a: seq<string>, b: seq<string>) {
    if |b| == 0 then false
    else if |a| == 0 then true
    else if a[0] != b[0] then TextBefore(a[0], b[0])
    else ListBefore(a[1..], b[1..])
  }

  lemma {:induction false} ListBeforeAsymmetric(a: seq<string>, b: seq<string>)
    requires ListBefore(a, b)
    ensures !ListBefore(b, a)
  {
    if |a| > 0 && a[0] == b[0] {
      ListBeforeAsymmetric(a[1..], b[1..]);
    } else if |a| > 0 {
      TextBeforeIsTotal(a[0], b[0]);
    }
  }

  /** `_candidate_sort_key`, compared component by component. */
  predicate Before(a: Block, b: Block) {
    if a.slot.Rank() != b.slot.Rank() then a.slot.Rank() < b.slot.Rank()
    else if RawOrder(a) != RawOrder(b) then RawOrder(a) < RawOrder(b)
    else if ScoreOrder(a) != ScoreOrder(b) then ScoreOrder(a) < ScoreOrder(b)
    else if a.id != b.id then TextBefore(a.id, b.id)
    else if a.kind.Name() != b.kind.Name() then TextBefore(a.kind.Name(), b.kind.Name())
    else if a.text != b.text then TextBefore(a.text, b.text)
    else if a.sources != b.sources then ListBefore(a.sources, b.sources)
    else if a.reason != b.reason then TextBefore(a.reason, b.reason)
    else if a.required != b.required then b.required
    else TextBefore(CapsuleText(a), CapsuleText(b))
  }

  lemma {:induction false} BeforeIsAsymmetric(a: Block, b: Block)
    requires Before(a, b)
    ensures !Before(b, a)
  {
    hide Kind.Name, RawOrder, ScoreOrder, CapsuleText, Slot.Rank;
    TextBeforeIsTotal(a.id, b.id);
    TextBeforeIsTotal(a.kind.Name(), b.kind.Name());
    TextBeforeIsTotal(a.text, b.text);
    TextBeforeIsTotal(a.reason, b.reason);
    TextBeforeIsTotal(CapsuleText(a), CapsuleText(b));
    if ListBefore(a.sources, b.sources) {
      ListBeforeAsymmetric(a.sources, b.sources);
    }
  }

  ghost predicate Sorted(bs: seq<Block>) {
    forall i :: 0 <= i < |bs| - 1 ==> !Before(bs[i + 1], bs[i])
  }

  function Insert(bs: seq<Block>, b: Block): (r: seq<Block>)
    ensures |r| == |bs| + 1 && multiset(r) == multiset(bs) + multiset{b}
  {
    if bs == [] || !Before(b, bs[|bs| - 1]) then bs + [b]
    else
      var n := |bs| - 1;
      assert bs == bs[..n] + [bs[n]];
      Insert(bs[..n], b) + [bs[n]]
  }

  /** Stable insertion: the last element is the inserted one or the old last one. */
  lemma {:induction false} InsertSorts(bs: seq<Block>, b: Block)
    requires Sorted(bs)
    ensures Sorted(Insert(bs, b))
    ensures Insert(bs, b)[|bs|] == b || (bs != [] && Insert(bs, b)[|bs|] == bs[|bs| - 1])
  {
    if bs != [] && Before(b, bs[|bs| - 1]) {
      var n := |bs| - 1;
      InsertSorts(bs[..n], b);
      BeforeIsAsymmetric(b, bs[n]);
      assert n > 0 ==> !Before(bs[n], bs[n - 1]);
    }
  }

  /** `_ordered`. */
  function OrderedBlocks(bs: seq<Block>): (r: seq<Block>)
    ensures |r| == |bs| && multiset(r) == multiset(bs)
  {
    if bs == [] then []
    else
      var n := |bs| - 1;
      assert bs == bs[..n] + [bs[n]];
      Insert(OrderedBlocks(bs[..n]), bs[n])
  }

  /** The order never puts a later key first, and nothing is lost or repeated. */
  lemma {:induction false} OrderedIsSorted(bs: seq<Block>)
    ensures Sorted(OrderedBlocks(bs)) && multiset(OrderedBlocks(bs)) == multiset(bs)
  {
    if bs != [] {
      OrderedIsSorted(bs[..|bs| - 1]);
      InsertSorts(OrderedBlocks(bs[..|bs| - 1]), bs[|bs| - 1]);
    }
  }

  // ----- what the order means -----

  /** `a` has the earlier slot in the priority list. */
  ghost predicate SlotFirst(a: Block, b: Block) {
    exists i, j :: 0 <= i < j < |PRIORITY| && PRIORITY[i] == a.slot && PRIORITY[j] == b.slot
  }

  ghost function SequenceOf(b: Block): (n: nat) {
    match b.sequence case None => 0 case Some(n) => n
  }

  /** In a slot of raw events the smaller sequence is first, in another the higher score. */
  ghost predicate ValueFirst(a: Block, b: Block) {
    if a.slot == RawDelta || a.slot == RecentRaw then SequenceOf(a) < SequenceOf(b) else a.score > b.score
  }

  ghost predicate TextFirst(a: string, b: string) {
    exists k: nat :: SmallerAt(a, b, k)
  }

  /** The first differing entry of the lists decides, or the shorter list is first. */
  ghost predicate ListFirst(a: seq<string>, b: seq<string>) {
    exists k: nat :: k <= |a| && k < |b| && a[..k] == b[..k] && (k == |a| || TextFirst(a[k], b[k]))
  }

  /** Ties in slot, value and id are broken by the remaining fields; an absent capsule counts as the empty text. */
  ghost predicate RestFirst(a: Block, b: Block) {
    if a.kind != b.kind then TextFirst(a.kind.Name(), b.kind.Name())
    else if a.text != b.text then TextFirst(a.text, b.text)
    else if a.sources != b.sources then ListFirst(a.sources, b.sources)
    else if a.reason != b.reason then TextFirst(a.reason, b.reason)
    else if a.required != b.required then b.required
    else b.capsule.Some? && b.capsule.value != "" && (a.capsule.None? || TextFirst(a.capsule.value, b.capsule.value))
  }

  /** The candidate order: slot, then sequence or score, then id, then the rest. */
  ghost predicate First(a: Block, b: Block) {
    if SlotFirst(a, b) || SlotFirst(b, a) then SlotFirst(a, b)
    else if ValueFirst(a, b) || ValueFirst(b, a) then ValueFirst(a, b)
    else if a.id != b.id then TextFirst(a.id, b.id)
    else RestFirst(a, b)
  }

  lemma {:induction false} SlotFirstIff(a: Block, b: Block)
    ensures SlotFirst(a, b) <==> a.slot.Rank() < b.slot.Rank()
  {
    assert PRIORITY[a.slot.Rank()] == a.slot && PRIORITY[b.slot.Rank()] == b.slot;
    forall i, j | 0 <= i < |PRIORITY| && 0 <= j < |PRIORITY| && PRIORITY[i] == a.slot && PRIORITY[j] == b.slot
      ensures i == a.slot.Rank() && j == b.slot.Rank()
    {
    }
  }

  lemma {:induction false} ListFirstIff(a: seq<string>, b: seq<string>)
    ensures ListBefore(a, b) <==> ListFirst(a, b)
  {
    if |a| > 0 && |b| > 0 && a[0] == b[0] {
      ListFirstIff(a[1..], b[1..]);
      if k: nat :| k <= |a[1..]| && k < |b[1..]| && a[1..][..k] == b[1..][..k] && (k == |a[1..]| || TextFirst(a[1..][k], b[1..][k])) {
        assert a[..k + 1] == [a[0]] + a[1..][..k] && b[..k + 1] == [b[0]] + b[1..][..k];
      }
      if k: nat :| k <= |a| && k < |b| && a[..k] == b[..k] && (k == |a| || TextFirst(a[k], b[k])) {
        FirstDiffers(a, b, k);
      }
    } else if |a| > 0 && |b| > 0 {
      TextBeforeMeans(a[0], b[0]);
      if TextFirst(a[0], b[0]) {
        assert a[..0] == b[..0];
      }
    } else if |b| > 0 {
      assert a[..0] == b[..0];
    }
  }

  lemma {:induction false} NotSmaller(a: string)
    ensures !TextFirst(a, a)
  {
    TextBeforeMeans(a, a);
    TextBeforeIsTotal(a, a);
  }

  lemma {:induction false} FirstDiffers(a: seq<string>, b: seq<string>, k: nat)
    requires |a| > 0 && |b| > 0 && a[0] == b[0]
    requires k <= |a| && k < |b| && a[..k] == b[..k] && (k == |a| || TextFirst(a[k], b[k]))
    ensures ListFirst(a[1..], b[1..])
  {
    if k == 0 {
      NotSmaller(a[0]);
    } else {
      assert a[1..][..k - 1] == a[..k][1..] && b[1..][..k - 1] == b[..k][1..];
    }
  }

  lemma {:induction false} NamesDiffer(a: Kind, b: Kind)
    ensures a.Name() == b.Name() <==> a == b
  {
  }

  lemma {:induction false} RestFirstIff(a: Block, b: Block)
    requires a.slot == b.slot && RawOrder(a) == RawOrder(b) && ScoreOrder(a) == ScoreOrder(b) && a.id == b.id
    ensures Before(a, b) <==> RestFirst(a, b)
  {
    hide Kind.Name, ListBefore, ListFirst, TextFirst, TextBefore;
    NamesDiffer(a.kind, b.kind);
    TextFirstIff(a.kind.Name(), b.kind.Name());
    TextFirstIff(a.text, b.text);
    TextFirstIff(a.reason, b.reason);
    ListFirstIff(a.sources, b.sources);
    TextFirstIff(CapsuleText(a), CapsuleText(b));
    EmptyFirst(CapsuleText(a), CapsuleText(b));
  }

  lemma {:induction false} TextFirstIff(a: string, b: string)
    ensures TextBefore(a, b) <==> TextFirst(a, b)
  {
    TextBeforeMeans(a, b);
  }

  lemma {:induction false} EmptyFirst(a: string, b: string)
    ensures b == "" ==> !TextBefore(a, b)
    ensures a == "" && b != "" ==> TextBefore(a, b)
  {
  }

  lemma {:induction false} FirstIff(a: Block, b: Block)
    ensures Before(a, b) <==> First(a, b)
  {
    hide Slot.Rank, SlotFirst, RestFirst, TextBefore, TextFirst;
    SlotFirstIff(a, b);
    SlotFirstIff(b, a);
    RankDecides(a.slot, b.slot);
    TextFirstIff(a.id, b.id);
    if a.slot == b.slot && RawOrder(a) == RawOrder(b) && ScoreOrder(a) == ScoreOrder(b) && a.id == b.id {
      RestFirstIff(a, b);
    }
  }

  lemma {:induction false} RankDecides(a: Slot, b: Slot)
    ensures a.Rank() == b.Rank() <==> a == b
  {
  }

  /** The ordered list never puts a block directly before one that should be first. */
  lemma {:induction false} OrderedMeans(bs: seq<Block>, i: nat)
    requires i + 1 < |bs|
    ensures !First(OrderedBlocks(bs)[i + 1], OrderedBlocks(bs)[i])
  {
    OrderedIsSorted(bs);
    FirstIff(OrderedBlocks(bs)[i + 1], OrderedBlocks(bs)[i]);
  }

  // ----- repeated ids -----

  /** First occurrences of each id. */
  function Firsts(bs: seq<Block>): (r: seq<Block>)
    ensures forall b :: b in r ==> b in bs
    ensures Ids(r) == Ids(bs)
  {
    if bs == [] then []
    else
      var n := |bs| - 1;
      var rest := Firsts(bs[..n]);
      IdsLast(bs);
      if bs[n].id in Ids(rest) then rest
      else
        IdsAppend(rest, bs[n]);
        rest + [bs[n]]
  }

  lemma {:induction false} IdsLast(bs: seq<Block>)
    requires bs != []
    ensures Ids(bs) == Ids(bs[..|bs| - 1]) + {bs[|bs| - 1].id}
  {
    IdsAppend(bs[..|bs| - 1], bs[|bs| - 1]);
    assert bs[..|bs| - 1] + [bs[|bs| - 1]] == bs;
  }

  lemma {:induction false} FirstsDistinct(bs: seq<Block>)
    ensures Distinct(Firsts(bs))
  {
    if bs != [] {
      FirstsDistinct(bs[..|bs| - 1]);
    }
  }

  lemma {:induction false} FirstsOfDistinct(bs: seq<Block>)
    requires Distinct(bs)
    ensures Firsts(bs) == bs
  {
    if bs != [] {
      var n := |bs| - 1;
      FirstsOfDistinct(bs[..n]);
      assert bs[n].id !in Ids(bs[..n]) by {
        forall k | 0 <= k < n ensures bs[..n][k].id != bs[n].id {
          assert bs[k].id != bs[n].id;
        }
      }
      assert bs == bs[..n] + [bs[n]];
    }
  }

  /** No earlier block has the id of block `i`. */
  ghost predicate IsFirst(bs: seq<Block>, i: nat) {
    i < |bs| && forall j :: 0 <= j < i ==> bs[j].id != bs[i].id
  }

  /** `at` lists, rising, the positions that satisfy `IsFirst`, and `r` the blocks there. */
  ghost predicate FirstsAt(bs: seq<Block>, r: seq<Block>, at: seq<nat>) {
    && |at| == |r| && (forall i, j :: 0 <= i < j < |at| ==> at[i] < at[j])
    && (forall k :: 0 <= k < |at| ==> at[k] < |bs| && r[k] == bs[at[k]]) && forall i: nat :: i in at <==> IsFirst(bs, i)
  }

  /** Of each id the first block is kept, in order. */
  lemma {:induction false} FirstsMean(bs: seq<Block>) returns (at: seq<nat>)
    ensures FirstsAt(bs, Firsts(bs), at)
  {
    if bs == [] {
      at := [];
    } else {
      var n := |bs| - 1;
      var rest := FirstsMean(bs[..n]);
      LastIsFirst(bs);
      at := if bs[n].id !in Ids(bs[..n]) then rest + [n] else rest;
      FirstsAtNext(bs, Firsts(bs[..n]), rest);
    }
  }

  lemma {:induction false} FirstsAtNext(bs: seq<Block>, r: seq<Block>, at: seq<nat>)
    requires bs != [] && FirstsAt(bs[..|bs| - 1], r, at)
    ensures var n := |bs| - 1;
      if IsFirst(bs, n) then FirstsAt(bs, r + [bs[n]], at + [n]) else FirstsAt(bs, r, at)
  {
    var n: nat := |bs| - 1;
    forall i: nat | i < n ensures IsFirst(bs, i) <==> i in at {
      assert IsFirst(bs[..n], i) <==> i in at;
    }
    forall i: nat ensures i in at + [n] <==> i in at || i == n {
    }
  }

  lemma {:induction false} LastIsFirst(bs: seq<Block>)
    requires bs != []
    ensures IsFirst(bs, |bs| - 1) <==> bs[|bs| - 1].id !in Ids(bs[..|bs| - 1])
  {
    var n := |bs| - 1;
    if j :| 0 <= j < n && bs[j].id == bs[n].id {
      assert bs[..n][j].id == bs[n].id;
    }
  }

  /** Every other occurrence. */
  function Repeats(bs: seq<Block>): (r: seq<Block>) {
    if bs == [] then []
    else
      var n := |bs| - 1;
      if bs[n].id in Ids(Firsts(bs[..n])) then Repeats(bs[..n]) + [bs[n]] else Repeats(bs[..n])
  }

  /** `canonical_candidates`. */
  function Canonical(cs: seq<Block>): (r: seq<Block>) {
    Firsts(OrderedBlocks(cs))
  }

  lemma {:induction false} CanonicalMeans(cs: seq<Block>)
    ensures Distinct(Canonical(cs)) && Ids(Canonical(cs)) == Ids(cs)
    ensures forall b :: b in Canonical(cs) ==> b in cs
    ensures Distinct(cs) ==> multiset(Canonical(cs)) == multiset(cs)
  {
    var ordered := OrderedBlocks(cs);
    FirstsDistinct(ordered);
    assert forall b :: b in ordered <==> b in multiset(ordered);
    assert forall b :: b in cs <==> b in multiset(cs);
    SameIdSet(ordered, cs);
    if Distinct(cs) {
      DistinctPermuted(cs, ordered);
      FirstsOfDistinct(ordered);
    }
  }

  lemma {:induction false} SameIdSet(a: seq<Block>, b: seq<Block>)
    requires forall x :: x in a <==> x in b
    ensures Ids(a) == Ids(b)
  {
    forall id | id in Ids(a) ensures id in Ids(b) {
      var k :| 0 <= k < |a| && a[k].id == id;
      assert a[k] in b;
    }
    forall id | id in Ids(b) ensures id in Ids(a) {
      var k :| 0 <= k < |b| && b[k].id == id;
      assert b[k] in a;
    }
  }

  lemma {:induction false} DistinctPermuted(a: seq<Block>, b: seq<Block>)
    requires Distinct(a) && multiset(a) == multiset(b)
    ensures Distinct(b)
  {
    forall i, j | 0 <= i < j < |b| ensures b[i].id != b[j].id {
      if b[i].id == b[j].id {
        assert b[i] in multiset(a) && b[j] in multiset(a);
        SameBlock(a, b[i], b[j]);
        TwiceIn(b, i, j);
        OnceIn(a, b[i]);
        assert false;
      }
    }
  }

  lemma {:induction false} TwiceIn(b: seq<Block>, i: nat, j: nat)
    requires i < j < |b| && b[i] == b[j]
    ensures multiset(b)[b[i]] >= 2
  {
    assert b == b[..i] + [b[i]] + b[i + 1..j] + [b[j]] + b[j + 1..];
  }

  lemma {:induction false} OnceIn(a: seq<Block>, x: Block)
    requires Distinct(a)
    ensures multiset(a)[x] <= 1
  {
    if a != [] {
      var n := |a| - 1;
      OnceIn(a[..n], x);
      assert a == a[..n] + [a[n]];
      if a[n] == x {
        assert x !in a[..n];
      }
    }
  }

  /** `_deduplicate`: the canonical blocks, and every other occurrence. */
  method Deduplicate(cs: seq<Block>) returns (unique: seq<Block>, duplicates: seq<Block>)
    ensures unique == Canonical(cs) && duplicates == Repeats(OrderedBlocks(cs))
    ensures multiset(unique) + multiset(duplicates) == multiset(cs)
  {
    hide Ids, Firsts, OrderedBlocks, Repeats;
    var ordered := OrderedBlocks(cs);
    var seen: set<Id>;
    unique, duplicates, seen := [], [], {};
    NoFirsts();
    for k := 0 to |ordered|
      invariant unique == Firsts(ordered[..k]) && seen == Ids(unique) && duplicates == Repeats(ordered[..k])
      invariant multiset(unique) + multiset(duplicates) == multiset(ordered[..k])
    {
      assert ordered[..k + 1] == ordered[..k] + [ordered[k]];
      FirstsNext(ordered, k);
      if ordered[k].id in seen {
        duplicates := duplicates + [ordered[k]];
      } else {
        IdsAppend(unique, ordered[k]);
        seen, unique := seen + {ordered[k].id}, unique + [ordered[k]];
      }
    }
    assert ordered[..|ordered|] == ordered;
  }

  lemma {:induction false} NoFirsts()
    ensures Firsts([]) == [] && Ids([]) == {} && Repeats([]) == []
  {
  }

  lemma {:induction false} FirstsNext(bs: seq<Block>, k: nat)
    requires k < |bs|
    ensures Firsts(bs[..k + 1])
      == if bs[k].id in Ids(Firsts(bs[..k])) then Firsts(bs[..k]) else Firsts(bs[..k]) + [bs[k]]
    ensures Repeats(bs[..k + 1])
      == if bs[k].id in Ids(Firsts(bs[..k])) then Repeats(bs[..k]) + [bs[k]] else Repeats(bs[..k])
  {
    assert bs[..k + 1][..k] == bs[..k];
  }
}
