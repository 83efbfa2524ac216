/** Candidate blocks and the sublists that id sets pick from them. */
module Blocks {
  import opened Common

  datatype Slot =
    | ActiveGoal | HardConstraint | RawDelta | ExactAnchor | RecentRaw
    | ActiveTask | RelevantEvidence | EpisodeBackground | GlobalBackground
  {
    predicate Raw() { RawDelta? || RecentRaw? }

    function Rank(): (r: nat)
      ensures r < 9
    {
      match this
      case ActiveGoal => 0 case HardConstraint => 1 case RawDelta => 2 case ExactAnchor => 3 case RecentRaw => 4
      case ActiveTask => 5 case RelevantEvidence => 6 case EpisodeBackground => 7 case GlobalBackground => 8
    }
  }

  const PRIORITY: seq<Slot> :=
    [ActiveGoal, HardConstraint, RawDelta, ExactAnchor, RecentRaw, ActiveTask, RelevantEvidence, EpisodeBackground, GlobalBackground]

  datatype Kind =
    | Goal | ConstraintKind | RawEvent | AnchorKind | TaskContext
    | DecisionKind | EntityKind | DependencyKind | EpisodeKind | GlobalKind
  {
    function Name(): (s: string) {
      match this
      case Goal => "goal" case ConstraintKind => "constraint" case RawEvent => "raw_event"
      case AnchorKind => "exact_anchor" case TaskContext => "task_context" case DecisionKind => "decision"
      case EntityKind => "entity" case DependencyKind => "dependency" case EpisodeKind => "episode_background"
      case GlobalKind => "global_background"
    }
  }

  datatype Block = Block(
    id: Id, slot: Slot, kind: Kind, text: string, sources: seq<Id>, score: real, reason: string,
    required: bool, capsule: Option<Id>, sequence: Option<nat>, complete: bool)

  function Ids(bs: seq<Block>): (s: set<Id>) {
    set k | 0 <= k < |bs| :: bs[k].id
  }

  lemma {:induction false} IdsAppend(bs: seq<Block>, b: Block)
    ensures Ids(bs + [b]) == Ids(bs) + {b.id}
  {
    forall id | id in Ids(bs) ensures id in Ids(bs + [b]) {
      var k :| 0 <= k < |bs| && bs[k].id == id;
      assert (bs + [b])[k].id == id;
    }
    assert (bs + [b])[|bs|] == b;
  }

  lemma {:induction false} InIds(bs: seq<Block>, b: Block)
    requires b in bs
    ensures b.id in Ids(bs) && |bs| >= 1
  {
  }

  predicate Distinct(bs: seq<Block>) {
    forall i, j :: 0 <= i < j < |bs| ==> bs[i].id != bs[j].id
  }

  /** The blocks whose id is in `s`, in list order. */
  function Members(cs: seq<Block>, s: set<Id>): (r: seq<Block>)
    ensures forall k :: 0 <= k < |r| ==> r[k] in cs && r[k].id in s
    ensures forall b {:trigger b in r} :: b in cs && b.id in s ==> b in r
  {
    if cs == [] then []
    else
      var rest, last := Members(cs[..|cs| - 1], s), cs[|cs| - 1];
      if last.id in s then rest + [last] else rest
  }

  lemma {:induction false} MembersIds(cs: seq<Block>, s: set<Id>)
    ensures Ids(Members(cs, s)) == Ids(cs) * s
  {
    forall id | id in Ids(cs) * s ensures id in Ids(Members(cs, s)) {
      var k :| 0 <= k < |cs| && cs[k].id == id;
      assert cs[k] in Members(cs, s);
    }
    forall id | id in Ids(Members(cs, s)) ensures id in Ids(cs) * s {
      var k :| 0 <= k < |Members(cs, s)| && Members(cs, s)[k].id == id;
      assert Members(cs, s)[k] in cs;
    }
  }

  lemma {:induction false} MembersDistinct(cs: seq<Block>, s: set<Id>)
    requires Distinct(cs)
    ensures Distinct(Members(cs, s))
  {
    if cs != [] {
      var n := |cs| - 1;
      MembersDistinct(cs[..n], s);
      var rest := Members(cs[..n], s);
      forall k | 0 <= k < |rest| ensures rest[k].id != cs[n].id {
        assert rest[k] in cs[..n];
      }
    }
  }

  lemma {:induction false} MembersOfAll(cs: seq<Block>, s: set<Id>)
    requires Ids(cs) <= s
    ensures Members(cs, s) == cs
  {
    if cs != [] {
      var n := |cs| - 1;
      assert cs[n].id in Ids(cs);
      assert Ids(cs[..n]) <= Ids(cs) by {
        forall id | id in Ids(cs[..n]) ensures id in Ids(cs) {
          var k :| 0 <= k < n && cs[..n][k].id == id;
          assert cs[k].id == id;
        }
      }
      MembersOfAll(cs[..n], s);
      assert cs == cs[..n] + [cs[n]];
    }
  }

  /** Picking twice is picking the intersection. */
  lemma {:induction false} MembersTwice(cs: seq<Block>, s: set<Id>, t: set<Id>)
    ensures Members(Members(cs, s), t) == Members(cs, s * t)
  {
    if cs != [] {
      var n := |cs| - 1;
      MembersTwice(cs[..n], s, t);
      if cs[n].id in s {
        var rest := Members(cs[..n], s);
        assert Members(cs, s) == rest + [cs[n]] && (rest + [cs[n]])[..|rest|] == rest;
      }
    }
  }

  lemma {:induction false} MembersSame(cs: seq<Block>, s: set<Id>, t: set<Id>)
    requires Ids(cs) * s == Ids(cs) * t
    ensures Members(cs, s) == Members(cs, t)
  {
    if cs != [] {
      var n := |cs| - 1;
      assert cs[n].id in Ids(cs);
      assert cs[n].id in Ids(cs) * s <==> cs[n].id in Ids(cs) * t;
      assert Ids(cs[..n]) * s == Ids(cs[..n]) * t by {
        forall id | id in Ids(cs[..n]) ensures id in s <==> id in t {
          var k :| 0 <= k < n && cs[..n][k].id == id;
          assert cs[k].id == id && id in Ids(cs);
          assert id in Ids(cs) * s <==> id in Ids(cs) * t;
        }
      }
      MembersSame(cs[..n], s, t);
    }
  }

  /** Distinct blocks with equal ids are one block. */
  lemma {:induction false} SameBlock(cs: seq<Block>, a: Block, b: Block)
    requires Distinct(cs) && a in cs && b in cs && a.id == b.id
    ensures a == b
  {
  }

  // ----- sums -----

  type Counts = map<Id, nat>

  ghost predicate Counted(cs: seq<Block>, counts: Counts) {
    forall k :: 0 <= k < |cs| ==> cs[k].id in counts
  }

  function Sum(bs: seq<Block>, counts: Counts): (n: nat)
    requires Counted(bs, counts)
  {
    if bs == [] then 0 else Sum(bs[..|bs| - 1], counts) + counts[bs[|bs| - 1].id]
  }

  lemma {:induction false} MembersCounted(cs: seq<Block>, s: set<Id>, counts: Counts)
    requires Counted(cs, counts)
    ensures Counted(Members(cs, s), counts)
  {
    forall k | 0 <= k < |Members(cs, s)| ensures Members(cs, s)[k].id in counts {
      assert Members(cs, s)[k] in cs;
    }
  }

  lemma {:induction false} SumLast(bs: seq<Block>, b: Block, counts: Counts)
    requires Counted(bs, counts) && b.id in counts
    ensures Counted(bs + [b], counts) && Sum(bs + [b], counts) == Sum(bs, counts) + counts[b.id]
  {
    assert (bs + [b])[..|bs|] == bs;
  }

  /** Disjoint id sets pick parts whose sizes and sums add up. */
  lemma {:induction false} SumUnion(cs: seq<Block>, s: set<Id>, t: set<Id>, counts: Counts)
    requires Counted(cs, counts) && s !! t
    ensures Counted(Members(cs, s), counts) && Counted(Members(cs, t), counts) && Counted(Members(cs, s + t), counts)
    ensures Sum(Members(cs, s + t), counts) == Sum(Members(cs, s), counts) + Sum(Members(cs, t), counts)
    ensures |Members(cs, s + t)| == |Members(cs, s)| + |Members(cs, t)|
  {
    MembersCounted(cs, s, counts);
    MembersCounted(cs, t, counts);
    MembersCounted(cs, s + t, counts);
    if cs != [] {
      var n := |cs| - 1;
      SumUnion(cs[..n], s, t, counts);
      if cs[n].id in s {
        SumLast(Members(cs[..n], s), cs[n], counts);
        SumLast(Members(cs[..n], s + t), cs[n], counts);
      } else if cs[n].id in t {
        SumLast(Members(cs[..n], t), cs[n], counts);
        SumLast(Members(cs[..n], s + t), cs[n], counts);
      }
    }
  }

  /** `_estimated_projection_cost`. */
  function Estimate(bs: seq<Block>, counts: Counts, separator: nat): (n: nat)
    requires Counted(bs, counts)
  {
    if bs == [] then 0 else Sum(bs, counts) + separator * (|bs| - 1)
  }

  /** The cost of the blocks with ids in `s`. */
  function Cost(cs: seq<Block>, counts: Counts, separator: nat, s: set<Id>): (n: nat)
    requires Counted(cs, counts)
  {
    MembersCounted(cs, s, counts);
    Estimate(Members(cs, s), counts, separator)
  }

  lemma {:induction false} SeparatorsAdd(separator: nat, a: nat, b: nat)
    requires a > 0 && b > 0
    ensures separator * (a + b - 1) == separator * (a - 1) + separator + separator * (b - 1)
  {
  }

  lemma {:induction false} CostUnion(cs: seq<Block>, counts: Counts, separator: nat, s: set<Id>, t: set<Id>)
    requires Counted(cs, counts) && s !! t
    ensures Cost(cs, counts, separator, s + t)
      == Cost(cs, counts, separator, s) + Cost(cs, counts, separator, t)
         + if Members(cs, s) != [] && Members(cs, t) != [] then separator else 0
  {
    hide Members;
    SumUnion(cs, s, t, counts);
    if Members(cs, s) != [] && Members(cs, t) != [] {
      SeparatorsAdd(separator, |Members(cs, s)|, |Members(cs, t)|);
    }
  }

  /** More ids never cost less. */
  lemma {:induction false} CostGrows(cs: seq<Block>, counts: Counts, separator: nat, s: set<Id>, t: set<Id>)
    requires Counted(cs, counts) && s <= t
    ensures Cost(cs, counts, separator, s) <= Cost(cs, counts, separator, t)
  {
    assert s + (t - s) == t;
    CostUnion(cs, counts, separator, s, t - s);
  }
}
