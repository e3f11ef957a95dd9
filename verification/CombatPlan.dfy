/**
 * The combat planner's use of Dijkstra's search: walk the predecessor links back from the goal,
 * drop the do-nothing starting action, and reverse the list in place.
 */
module CombatPlans {
  import opened Wrappers
  import opened Searches
  import opened DijkstraSearch

  const MAX_EXPANSIONS := 4000

  /** The actions p[1..] lead from the starting action to a goal at the least cost of any goal. */
  ghost predicate BestPlan<A(!new)>(g: Problem<A>, p: seq<A>)
  {
    Walk(g, p) && BestGoal(g, p[0], p[|p| - 1], Cost(g, p))
  }

  /** The whole budget was spent, each time on another entry that is no goal and no dearer than any goal. */
  ghost predicate GaveUp<A(!new)>(g: Problem<A>, start: A)
  {
    exists cameFrom, cost, pops, pushes ::
      |pops| == MAX_EXPANSIONS && Outcome(g, start, cameFrom, cost, None, pops, pushes, MAX_EXPANSIONS)
  }

  /** The budget is four thousand expansions. */
  lemma GivesUpAfter<A(!new)>(g: Problem<A>, start: A)
    ensures GaveUp(g, start) <==>
      exists cameFrom, cost, pops, pushes ::
        |pops| == 4000 && Outcome(g, start, cameFrom, cost, None, pops, pushes, 4000)
  {
    hide Outcome;
  }

  /** With a goal in reach, the planner gives up only if that many edges lie no farther than the goal. */
  lemma PlanIsFound<A(!new)>(g: Problem<A>, start: A, goal: seq<A>, u: seq<A>)
    requires Walk(g, goal) && goal[0] == start && g.isGoal(goal[|goal| - 1])
    requires ListsUpTo(g, start, Cost(g, goal), u) && 1 + Edges(g, u) < 4000
    ensures !NoGoalReachable(g, start) && !GaveUp(g, start)
  {
    hide Outcome, ListsUpTo, Edges, Cost;
    if GaveUp(g, start) {
      var cameFrom, cost, pops, pushes :|
        |pops| == MAX_EXPANSIONS && Outcome(g, start, cameFrom, cost, None, pops, pushes, MAX_EXPANSIONS);
      BudgetSuffices(g, start, cameFrom, cost, None, pops, pushes, MAX_EXPANSIONS, goal, u);
    }
  }

  lemma {:induction false} ChainLink<A(!new)>(cameFrom: map<A, Option<A>>, start: A, p: seq<A>, k: nat)
    requires Chain(cameFrom, start, p) && k < |p|
    ensures p[0] == start && p[k] in cameFrom && (k > 0 ==> cameFrom[p[k]] == Some(p[k - 1]))
    decreases |p|
  {
    if k < |p| - 1 {
      ChainLink(cameFrom, start, p[..|p| - 1], k);
    } else if |p| > 1 {
      ChainLink(cameFrom, start, p[..|p| - 1], 0);
    }
  }

  ghost predicate LinkAt<A(!new)>(cameFrom: map<A, Option<A>>, p: seq<A>, k: nat)
    requires k < |p|
  {
    p[k] in cameFrom && cameFrom[p[k]] == if k > 0 then Some(p[k - 1]) else None
  }

  /** p, from its last action back to its first, is what the links lead along. */
  ghost predicate LinksAlong<A(!new)>(cameFrom: map<A, Option<A>>, p: seq<A>)
  {
    forall k: nat :: k < |p| ==> LinkAt(cameFrom, p, k)
  }

  /** The predecessor links of a found goal lead back along a best plan. */
  lemma PlanChain<A(!new)>(g: Problem<A>, start: A, cameFrom: map<A, Option<A>>, cost: map<A, real>,
      goal: A) returns (p: seq<A>)
    requires Solved(g, start, cameFrom, cost, Some(goal))
    ensures p != [] && p[0] == start && p[|p| - 1] == goal && LinksAlong(cameFrom, p) && BestPlan(g, p)
  {
    p :| ChainTo(cameFrom, start, goal, p);
    ChainLink(cameFrom, start, p, 0);
    forall k: nat | k < |p|
      ensures LinkAt(cameFrom, p, k)
    {
      ChainLink(cameFrom, start, p, k);
    }
  }

  /** Slot j is turned, if it is not one of the first or last i. */
  ghost predicate TurnedAt<A>(was: seq<A>, now: seq<A>, i: nat, j: int)
    requires |now| == |was| && 0 <= j < |was|
  {
    now[j] == if i <= j < |was| - i then was[|was| - 1 - j] else was[j]
  }

  /** All but the first and last i are in reverse order. */
  ghost predicate TurnedInside<A(!new)>(was: seq<A>, now: seq<A>, i: nat)
  {
    |now| == |was| && forall j :: 0 <= j < |was| ==> TurnedAt(was, now, i, j)
  }

  lemma NoneTurned<A(!new)>(s: seq<A>)
    ensures TurnedInside(s, s, |s| / 2)
  {
    forall j | 0 <= j < |s|
      ensures TurnedAt(s, s, |s| / 2, j)
    {
      assert |s| / 2 <= j < |s| - |s| / 2 ==> j == |s| - 1 - j;
    }
  }

  lemma OneMoreTurned<A(!new)>(was: seq<A>, now: seq<A>, i: nat)
    requires TurnedInside(was, now, i + 1) && 2 * i + 1 < |was|
    ensures var opp := |was| - 1 - i; TurnedInside(was, now[i := now[opp]][opp := now[i]], i)
  {
    var opp := |was| - 1 - i;
    var next := now[i := now[opp]][opp := now[i]];
    assert TurnedAt(was, now, i + 1, i) && TurnedAt(was, now, i + 1, opp);
    forall j | 0 <= j < |was|
      ensures TurnedAt(was, next, i, j)
    {
      assert TurnedAt(was, now, i + 1, j);
    }
  }

  lemma AllTurned<A(!new)>(was: seq<A>, now: seq<A>)
    requires TurnedInside(was, now, 0)
    ensures |now| == |was| && forall i :: 0 <= i < |now| ==> now[i] == was[|now| - 1 - i]
  {
    forall i | 0 <= i < |now|
      ensures now[i] == was[|now| - 1 - i]
    {
      assert TurnedAt(was, now, 0, i);
    }
  }

  class CombatPlan<A(!new, ==)> {
    var plannedActions: seq<A>

    /** Walk backwards to rebuild the full path. */
    method WalkBack(cameFrom: map<A, Option<A>>, finalAction: A, ghost p: seq<A>)
      requires plannedActions == [] && p != [] && p[|p| - 1] == finalAction && LinksAlong(cameFrom, p)
      modifies this
      ensures |plannedActions| == |p|
      ensures forall i :: 0 <= i < |p| ==> plannedActions[i] == p[|p| - 1 - i]
    {
      var currentAction := Some(finalAction);
      while currentAction != None
        invariant |plannedActions| <= |p|
        invariant forall i :: 0 <= i < |plannedActions| ==> plannedActions[i] == p[|p| - 1 - i]
        invariant currentAction == if |plannedActions| == |p| then None else Some(p[|p| - 1 - |plannedActions|])
        decreases |p| - |plannedActions|
      {
        assert LinkAt(cameFrom, p, |p| - 1 - |plannedActions|);
        plannedActions := plannedActions + [currentAction.value];
        currentAction := if currentAction.value in cameFrom then cameFrom[currentAction.value] else None;
      }
    }

    /** Reverse into execution order. */
    method Reverse()
      modifies this
      ensures |plannedActions| == old(|plannedActions|)
      ensures forall i :: 0 <= i < |plannedActions| ==>
        plannedActions[i] == old(plannedActions)[|plannedActions| - 1 - i]
    {
      hide TurnedInside;
      var n := |plannedActions|;
      NoneTurned(plannedActions);
      for i := n / 2 downto 0
        invariant |plannedActions| == n && TurnedInside(old(plannedActions), plannedActions, i)
      {
        var opp := n - 1 - i;
        OneMoreTurned(old(plannedActions), plannedActions, i);
        plannedActions := plannedActions[i := plannedActions[opp]][opp := plannedActions[i]];
      }
      AllTurned(old(plannedActions), plannedActions);
    }

    method Plan(startingAction: A, coster: (A, A) -> real, isGoaler: A -> bool, nGen: A -> seq<A>)
      requires NonNegative(Problem(nGen, coster, isGoaler))
      modifies this
      ensures var g := Problem(nGen, coster, isGoaler);
        || BestPlan(g, [startingAction] + plannedActions)
        || (plannedActions == [] && (NoGoalReachable(g, startingAction) || GaveUp(g, startingAction)))
    {
      hide NonNegative, Solved, BestPlan, BestGoal, NoGoalReachable, History, PoppedOnce, GoalLast, RestBeyond, Edges;
      hide Settled, Walk, Cost, LinksAlong;
      ghost var g := Problem(nGen, coster, isGoaler);
      plannedActions := [];
      var cameFrom, costSoFar, finalAction, pops, pushes :=
        DijkstraFindPath(startingAction, coster, isGoaler, nGen, MAX_EXPANSIONS, {});
      if finalAction == None {
        return;
      }
      ghost var p := PlanChain(g, startingAction, cameFrom, costSoFar, finalAction.value);
      WalkBack(cameFrom, finalAction.value, p);
      // discard the starting action, which does nothing
      plannedActions := plannedActions[..|plannedActions| - 1];
      Reverse();
      assert [startingAction] + plannedActions == p;
    }
  }
}
