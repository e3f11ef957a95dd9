/**
 * A*: lazy duplicates in the frontier, no closed set, nodes re-opened when a cheaper way to
 * them turns up. The estimator need only be admissible, not consistent.
 */
module AStarSearch {
  import opened Wrappers
  import opened NeighborQueues
  import opened Searches

  // ---------- why it terminates although nodes re-open ----------

  /** All sequences over u of length at most k. */
  ghost function SeqsUpTo<N(!new)>(u: set<N>, k: nat): set<seq<N>>
  {
    if k == 0 then {[]}
    else SeqsUpTo(u, k - 1) + set p, x | p in SeqsUpTo(u, k - 1) && x in u :: p + [x]
  }

  lemma {:induction false} SeqsUpToComplete<N(!new)>(u: set<N>, k: nat, p: seq<N>)
    requires |p| <= k && forall x :: x in p ==> x in u
    ensures p in SeqsUpTo(u, k)
  {
    if k > 0 {
      if |p| < k {
        SeqsUpToComplete(u, k - 1, p);
      } else {
        var q := p[..k - 1];
        SeqsUpToComplete(u, k - 1, q);
        assert p == q + [p[k - 1]];
      }
    }
  }

  /** The simple-sized walks that would still improve the label of their last node. */
  ghost function Better<N(!new)>(g: Problem<N>, start: N, u: set<N>, cost: map<N, real>): set<seq<N>>
  {
    set p | p in SeqsUpTo(u, |u|) && Walk(g, p) && p[0] == start &&
      (p[|p| - 1] in cost ==> Cost(g, p) < cost[p[|p| - 1]])
  }

  lemma WitnessIsCandidate<N(!new)>(g: Problem<N>, start: N, u: set<N>, cost: map<N, real>, n: N, p: seq<N>)
    requires Witness(g, start, cost, n, p) && cost.Keys <= u
    ensures p in SeqsUpTo(u, |u|)
  {
    DistinctIsShort(u, p);
    SeqsUpToComplete(u, |u|, p);
  }

  /** A cheaper label for m leaves fewer walks that would still improve on it. */
  lemma CheaperLabelShrinksBetter<N(!new)>(g: Problem<N>, start: N, u: set<N>, cost: map<N, real>, m: N, c: real,
      p: seq<N>)
    requires m in cost ==> c < cost[m]
    requires p in SeqsUpTo(u, |u|) && WalkFromTo(g, p, start, m) && Cost(g, p) == c
    ensures Better(g, start, u, cost[m := c]) < Better(g, start, u, cost)
  {
    hide SeqsUpTo, Walk, Cost;
    assert p in Better(g, start, u, cost) && p !in Better(g, start, u, cost[m := c]);
  }

  /** Every improvement uses up at least one such walk, so only finitely many can happen. */
  lemma ImproveShrinksBetter<N(!new)>(g: Problem<N>, h: N -> real, start: N, u: set<N>, st: State<N>, n: N, m: N)
    requires NonNegative(g) && Realized(g, start, st.costSoFar) && st.costSoFar.Keys <= u
    requires n in st.costSoFar && m in g.nGen(n) && m in u && Improves(g, st, n, m)
    ensures Better(g, start, u, Improve(g, h, st, n, m).costSoFar) < Better(g, start, u, st.costSoFar)
  {
    hide Better, SeqsUpTo, Walk, Cost;
    var c := CostThrough(g.coster, st.costSoFar, n, m);
    var w :| Witness(g, start, st.costSoFar, n, w);
    ExtendWitness(g, start, st, n, m, w);
    WitnessIsCandidate(g, start, u, st.costSoFar[m := c], m, w + [m]);
    CheaperLabelShrinksBetter(g, start, u, st.costSoFar, m, c, w + [m]);
  }

  // ---------- what the estimator saves ----------

  /** By what it costs and what the estimator says of it, the node may lie on the way to a nearest goal. */
  ghost predicate Promising<N(!new)>(g: Problem<N>, h: N -> real, start: N, cost: map<N, real>, n: N)
  {
    n in cost && forall p :: Walk(g, p) && p[0] == start && g.isGoal(p[|p| - 1]) ==> cost[n] + h(n) <= Cost(g, p)
  }

  /** Only through such nodes is anything reached. */
  ghost predicate Frugal<N(!new)>(g: Problem<N>, h: N -> real, start: N, st: State<N>)
  {
    forall n :: n in st.cameFrom && st.cameFrom[n].Some? ==>
      Promising(g, h, start, st.costSoFar, st.cameFrom[n].value)
  }

  lemma CheaperIsPromising<N(!new)>(g: Problem<N>, h: N -> real, start: N, cost: map<N, real>, n: N, m: N, c: real)
    requires Promising(g, h, start, cost, n) && (m in cost ==> c <= cost[m])
    ensures Promising(g, h, start, cost[m := c], n)
  {
    hide Walk, Cost;
  }

  /** A cheapest entry of the frontier names a promising node. */
  lemma PoppedIsPromising<N(!new)>(g: Problem<N>, h: N -> real, start: N, st: State<N>, e: (N, real))
    requires Admissible(g, h) && AtHead(g, h, start, st) && Cheapest(st, e)
    ensures Promising(g, h, start, st.costSoFar, e.0)
  {
    hide Covered, Rooted, Realized, Least;
    forall p | Walk(g, p) && p[0] == start && g.isGoal(p[|p| - 1])
      ensures e.0 in st.costSoFar && st.costSoFar[e.0] + h(e.0) <= Cost(g, p)
    {
      if st != Initial(start) {
        CheapestBoundsGoals(g, h, start, st, e, p);
      }
    }
    assert e.0 in st.costSoFar;
  }

  lemma RelaxKeepsFrugal<N(!new)>(g: Problem<N>, h: N -> real, start: N, st: State<N>, n: N, m: N)
    requires Frugal(g, h, start, st) && Promising(g, h, start, st.costSoFar, n)
    ensures Frugal(g, h, start, Relax(g, h, st, n, m))
    ensures Promising(g, h, start, Relax(g, h, st, n, m).costSoFar, n)
  {
    assert n in st.costSoFar;
    hide Promising;
    if Improves(g, st, n, m) {
      var c := CostThrough(g.coster, st.costSoFar, n, m);
      CheaperIsPromising(g, h, start, st.costSoFar, n, m, c);
      var new_ := Improve(g, h, st, n, m);
      forall x | x in new_.cameFrom && new_.cameFrom[x].Some?
        ensures Promising(g, h, start, new_.costSoFar, new_.cameFrom[x].value)
      {
        if x != m {
          CheaperIsPromising(g, h, start, st.costSoFar, st.cameFrom[x].value, m, c);
        }
      }
    }
  }

  ghost function Room<N(!new)>(g: Problem<N>, start: N, u: set<N>, cost: map<N, real>): nat
  {
    |Better(g, start, u, cost)|
  }

  ghost predicate Ready<N(!new)>(g: Problem<N>, h: N -> real, start: N, u: set<N>, st: State<N>)
  {
    AtHead(g, h, start, st) && st.costSoFar.Keys <= u && Frugal(g, h, start, st)
  }

  ghost predicate During<N(!new)>(g: Problem<N>, h: N -> real, start: N, u: set<N>, st: State<N>, n: N, k: nat)
  {
    Inv(g, h, start, st, Busy(n, k)) && st.costSoFar.Keys <= u
    && Frugal(g, h, start, st) && Promising(g, h, start, st.costSoFar, n)
  }

  lemma Begins<N(!new)>(g: Problem<N>, h: N -> real, start: N, u: set<N>)
    requires Encloses(g, u, start)
    ensures Ready(g, h, start, u, Initial(start))
  {
    Begin(g, h, start);
  }

  /** Looking at one neighbour: the invariant stays, and a push uses up room for improvement. */
  lemma Step<N(!new)>(g: Problem<N>, h: N -> real, start: N, u: set<N>, st: State<N>, n: N, k: nat)
    requires NonNegative(g) && Encloses(g, u, start) && During(g, h, start, u, st, n, k) && k < |g.nGen(n)|
    ensures n in st.costSoFar
    ensures var new_ := Relax(g, h, st, n, g.nGen(n)[k]);
      && During(g, h, start, u, new_, n, k + 1)
      && (new_ == st || Room(g, start, u, new_.costSoFar) < Room(g, start, u, st.costSoFar))
  {
    RelaxKeepsInv(g, h, start, st, n, k);
    RelaxKeepsFrugal(g, h, start, st, n, g.nGen(n)[k]);
    hide Frugal, Promising;
    if Improves(g, st, n, g.nGen(n)[k]) {
      ImproveShrinksBetter(g, h, start, u, st, n, g.nGen(n)[k]);
      FewerIsSmaller(Better(g, start, u, Improve(g, h, st, n, g.nGen(n)[k]).costSoFar),
        Better(g, start, u, st.costSoFar));
    }
  }

  lemma {:induction false} FewerIsSmaller<A>(a: set<A>, b: set<A>)
    requires a < b
    ensures |a| < |b|
  {
    var x :| x in b && x !in a;
    if y :| y in a {
      FewerIsSmaller(a - {y}, b - {y});
    }
  }

  /** The inner loop: every neighbour of the node popped, each improvement taking up room. */
  method Expand<N(!new, ==)>(
    ghost start: N, coster: (N, N) -> real, estimator: N -> real, ghost isGoal: N -> bool, nGen: N -> seq<N>,
    frontier: NeighborQueue<N>, current: N, cameFrom0: map<N, Option<N>>, costSoFar0: map<N, real>,
    ghost u: set<N>, ghost st0: State<N>)
    returns (cameFrom: map<N, Option<N>>, costSoFar: map<N, real>, ghost st: State<N>)
    requires var g := Problem(nGen, coster, isGoal);
      NonNegative(g) && Encloses(g, u, start) && During(g, estimator, start, u, st0, current, 0)
    requires frontier.Valid() && st0 == State(frontier.Entries(), cameFrom0, costSoFar0)
    modifies frontier.repr
    ensures frontier.Valid() && fresh(frontier.repr - old(frontier.repr))
    ensures st == State(frontier.Entries(), cameFrom, costSoFar)
    ensures var g := Problem(nGen, coster, isGoal);
      && During(g, estimator, start, u, st, current, |nGen(current)|)
      && (st == st0 || Room(g, start, u, costSoFar) < Room(g, start, u, costSoFar0))
  {
    hide During, NonNegative, Encloses, Room, Relax, CostThrough, Priority;
    hide NeighborQueue.Valid, NeighborQueue.Entries;
    ghost var g := Problem(nGen, coster, isGoal);
    cameFrom, costSoFar, st := cameFrom0, costSoFar0, st0;
    var neighbors := nGen(current);
    for i := 0 to |neighbors|
      invariant frontier.Valid() && fresh(frontier.repr - old(frontier.repr))
      invariant st == State(frontier.Entries(), cameFrom, costSoFar)
      invariant During(g, estimator, start, u, st, current, i)
      invariant st == st0 || Room(g, start, u, costSoFar) < Room(g, start, u, costSoFar0)
    {
      var node := neighbors[i];
      Step(g, estimator, start, u, st, current, i);
      RelaxAsCoded(g, estimator, st, current, node);
      st := Relax(g, estimator, st, current, node);
      var newCost := CostThrough(coster, costSoFar, current, node);
      if node !in costSoFar || newCost < costSoFar[node] {
        costSoFar := costSoFar[node := newCost];
        frontier.Enqueue(node, Priority(estimator, newCost, node));
        cameFrom := cameFrom[node := Some(current)];
      }
    }
  }

  // ---------- the search ----------
  method AStarFindPath<N(!new, ==)>(
    start: N, coster: (N, N) -> real, estimator: N -> real, isGoal: N -> bool, nGen: N -> seq<N>,
    ghost u: set<N>)
    returns (cameFrom: map<N, Option<N>>, costSoFar: map<N, real>, final: Option<N>)
    requires var g := Problem(nGen, coster, isGoal);
      NonNegative(g) && Admissible(g, estimator) && Encloses(g, u, start)
    ensures Solved(Problem(nGen, coster, isGoal), start, cameFrom, costSoFar, final)
    ensures var g := Problem(nGen, coster, isGoal);
      forall n, p :: n in cameFrom && n != start && Walk(g, p) && p[0] == start && isGoal(p[|p| - 1]) ==>
        && cameFrom[n].Some? && cameFrom[n].value in costSoFar
        && costSoFar[cameFrom[n].value] + estimator(cameFrom[n].value) <= Cost(g, p)
  {
    hide Ready, During, Solved, NonNegative, Admissible, Encloses, Room, Relax, CostThrough, Priority, Least;
    hide NeighborQueue.Valid, NeighborQueue.Entries;
    ghost var g := Problem(nGen, coster, isGoal);
    var frontier := new NeighborQueue<N>();
    frontier.Enqueue(start, 0.0);
    cameFrom := map[start := None];
    costSoFar := map[start := 0.0];
    final := None;
    ghost var st := Initial(start);
    Begins(g, estimator, start, u);

    while frontier.Len() > 0
      invariant fresh(frontier.repr) && frontier.Valid()
      invariant st == State(frontier.Entries(), cameFrom, costSoFar)
      invariant final == None && Ready(g, estimator, start, u, st)
      decreases Room(g, start, u, costSoFar), |st.frontier|
    {
      var current, priority := frontier.Dequeue();
      ghost var e := (current, priority);

      if isGoal(current) {
        final := Some(current);
        GoalFound(g, estimator, start, u, st, e);
        NothingWasted(g, estimator, start, u, st);
        return;
      }
      StartNode(g, estimator, start, u, st, e);
      st := Popped(st, e);
      cameFrom, costSoFar, st :=
        Expand(start, coster, estimator, isGoal, nGen, frontier, current, cameFrom, costSoFar, u, st);
      FinishNode(g, estimator, start, u, st, current);
    }
    NothingFound(g, estimator, start, u, st);
    NothingWasted(g, estimator, start, u, st);
  }

  /** Nothing was reached through a node that, by the estimator, cannot lie on the way to a nearest goal. */
  lemma NothingWasted<N(!new)>(g: Problem<N>, h: N -> real, start: N, u: set<N>, st: State<N>)
    requires NonNegative(g) && Ready(g, h, start, u, st)
    ensures forall n, p :: n in st.cameFrom && n != start && Walk(g, p) && p[0] == start && g.isGoal(p[|p| - 1]) ==>
      && st.cameFrom[n].Some? && st.cameFrom[n].value in st.costSoFar
      && st.costSoFar[st.cameFrom[n].value] + h(st.cameFrom[n].value) <= Cost(g, p)
  {
    hide Walk, Cost, Covered, Queued, Rooted, Realized, NonNegative;
  }

  lemma GoalFound<N(!new)>(g: Problem<N>, h: N -> real, start: N, u: set<N>, st: State<N>, e: (N, real))
    requires NonNegative(g) && Admissible(g, h) && Ready(g, h, start, u, st) && Cheapest(st, e) && g.isGoal(e.0)
    ensures Solved(g, start, st.cameFrom, st.costSoFar, Some(e.0))
  {
    GoalPopped(g, h, start, st, e);
  }

  lemma StartNode<N(!new)>(g: Problem<N>, h: N -> real, start: N, u: set<N>, st: State<N>, e: (N, real))
    requires NonNegative(g) && Admissible(g, h) && Ready(g, h, start, u, st) && Cheapest(st, e) && !g.isGoal(e.0)
    ensures During(g, h, start, u, Popped(st, e), e.0, 0)
  {
    NodePopped(g, h, start, st, e);
    PoppedIsPromising(g, h, start, st, e);
    hide Inv, Promising, NonNegative, Admissible;
  }

  lemma FinishNode<N(!new)>(g: Problem<N>, h: N -> real, start: N, u: set<N>, st: State<N>, n: N)
    requires During(g, h, start, u, st, n, |g.nGen(n)|)
    ensures Ready(g, h, start, u, st)
  {
    Expanded(g, h, start, st, n);
  }

  lemma NothingFound<N(!new)>(g: Problem<N>, h: N -> real, start: N, u: set<N>, st: State<N>)
    requires NonNegative(g) && Ready(g, h, start, u, st) && |st.frontier| == 0
    ensures Solved(g, start, st.cameFrom, st.costSoFar, None)
  {
    FrontierEmpty(g, h, start, st);
  }
}
