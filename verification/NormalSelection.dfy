/** The normal mode: components in candidate order, taken while they fit. */
module NormalSelection {
  import opened Blocks
  import opened Closure
  import opened ClosureLoop
  import opened Selection

  /** One candidate of the greedy pass: its component is taken if it still fits, unless it was handled before. */
  ghost function NormalStep(cs: seq<Block>, counts: Counts, separator: nat, budget: nat, p: Pick, b: Block): (q: Pick)
    requires Counted(cs, counts) && b in cs
  {
    ComponentOf(cs, counts, b);
    var group := Members(cs, Component(cs, b.id));
    if b.id in p.handled then p
    else if p.cost + Added(p, group, counts, separator) <= budget then Take(p, group, counts, separator)
    else Refuse(p, group, counts, InsufficientBudget)
  }

  /** The greedy pass over the first `k` candidates. */
  ghost function NormalPick(cs: seq<Block>, counts: Counts, separator: nat, budget: nat, k: nat): (p: Pick)
    requires Counted(cs, counts) && k <= |cs|
  {
    if k == 0 then NOTHING
    else NormalStep(cs, counts, separator, budget, NormalPick(cs, counts, separator, budget, k - 1), cs[k - 1])
  }

  /** The normal mode leaves a required block out. */
  ghost predicate NormalMisses(cs: seq<Block>, counts: Counts, separator: nat, budget: nat)
    requires Counted(cs, counts)
  {
    Missing(cs, NormalPick(cs, counts, separator, budget, |cs|))
  }

  lemma {:induction false} StepKeeps(
    cs: seq<Block>, counts: Counts, separator: nat, budget: nat, p: Pick, group: seq<Block>, b: Block)
    requires Distinct(cs) && Counted(cs, counts) && PickOk(cs, counts, separator, p) && p.cost <= budget
    requires GroupOk(cs, group) && b in group && b in cs && b.id !in p.handled
    ensures Counted(group, counts) && group != []
    ensures var q, fits := NormalStep(cs, counts, separator, budget, p, b), p.cost + Added(p, group, counts, separator) <= budget;
      && q == (if fits then Take(p, group, counts, separator) else Refuse(p, group, counts, InsufficientBudget))
      && PickOk(cs, counts, separator, q) && q.cost <= budget && p.handled <= q.handled && b.id in q.handled
      && (Missing(cs, q) <==> Missing(cs, p) || (!fits && HoldsRequired(group)))
  {
    hide GroupOk, Members, Sum, Closed, Cost, Missing, HoldsRequired, Added;
    GroupIsComponent(cs, group, b);
    GroupApart(cs, p.handled, group, b);
    InIds(group, b);
    TakeKeeps(cs, counts, separator, p, group);
    RefuseKeeps(cs, counts, separator, p, group, InsufficientBudget);
    TakenNotMissing(cs, p, Ids(group), Take(p, group, counts, separator));
    RefusedMissing(cs, p, group, Refuse(p, group, counts, InsufficientBudget));
  }

  /** `_normal_selection`. */
  method SelectNormal(cs: seq<Block>, counts: Counts, separator: nat, budget: nat) returns (p: Pick, missing: bool)
    requires Distinct(cs) && Counted(cs, counts)
    ensures PickOk(cs, counts, separator, p) && p.handled == Ids(cs) && p.cost <= budget
    ensures p == NormalPick(cs, counts, separator, budget, |cs|) && (missing <==> Missing(cs, p))
  {
    hide GroupOk, Members, GroupsOf, GroupOf, Missing, NormalStep, HoldsRequired, Added, PickOk;
    var groups := DependencyGroups(cs);
    p, missing := NOTHING, false;
    NothingOk(cs, counts, separator);
    NothingMissing(cs);
    for k := 0 to |cs|
      invariant PickOk(cs, counts, separator, p) && p.cost <= budget && (missing <==> Missing(cs, p))
      invariant p == NormalPick(cs, counts, separator, budget, k)
      invariant forall i :: 0 <= i < k ==> cs[i].id in p.handled
    {
      if cs[k].id in p.handled {
        StepOver(cs, counts, separator, budget, p, cs[k]);
      } else {
        var group := GroupOf(groups.value, cs[k]);
        GroupOfOk(cs, groups.value, cs[k]);
        StepKeeps(cs, counts, separator, budget, p, group, cs[k]);
        if p.cost + Added(p, group, counts, separator) <= budget {
          p := Take(p, group, counts, separator);
        } else {
          missing := missing || HoldsRequired(group);
          p := Refuse(p, group, counts, InsufficientBudget);
        }
      }
    }
    AllHandled(cs, counts, separator, p);
  }

  lemma {:induction false} NothingMissing(cs: seq<Block>)
    ensures !Missing(cs, NOTHING)
  {
  }

  lemma {:induction false} StepOver(cs: seq<Block>, counts: Counts, separator: nat, budget: nat, p: Pick, b: Block)
    requires Counted(cs, counts) && b in cs && b.id in p.handled
    ensures NormalStep(cs, counts, separator, budget, p, b) == p
  {
  }

  lemma {:induction false} AllHandled(cs: seq<Block>, counts: Counts, separator: nat, p: Pick)
    requires Counted(cs, counts) && PickOk(cs, counts, separator, p) && forall i :: 0 <= i < |cs| ==> cs[i].id in p.handled
    ensures p.handled == Ids(cs)
  {
  }
}
