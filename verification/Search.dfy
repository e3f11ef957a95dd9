/**
 * What the two best-first searches compute, and the invariant they share.
 *
 * The graph is given by callbacks, as in the program; the frontier is a multiset of
 * (node, priority) entries that may hold stale duplicates; there is no closed set.
 * `h` is the estimator; Dijkstra's search is the case h = 0.
 */
module Searches {
  import opened Wrappers
  import opened NeighborQueues

  /** The pure callbacks a search is given. */
  datatype Problem<!N> = Problem(nGen: N -> seq<N>, coster: (N, N) -> real, isGoal: N -> bool)

  /** The cost of reaching m through n. */
  function CostThrough<N>(coster: (N, N) -> real, cost: map<N, real>, n: N, m: N): real
    requires n in cost
  {
    cost[n] + coster(n, m)
  }

  function Priority<N>(h: N -> real, cost: real, n: N): real {
    cost + h(n)
  }

  // ---------- walks and their costs ----------

  /** p starts anywhere and follows nGen. */
  ghost predicate Walk<N(!new)>(g: Problem<N>, p: seq<N>)
  {
    |p| > 0 && (|p| > 1 ==> Walk(g, p[..|p| - 1]) && p[|p| - 1] in g.nGen(p[|p| - 2]))
  }

  ghost function Cost<N(!new)>(g: Problem<N>, p: seq<N>): real
    requires |p| > 0
  {
    if |p| == 1 then 0.0 else Cost(g, p[..|p| - 1]) + g.coster(p[|p| - 2], p[|p| - 1])
  }

  ghost predicate WalkFromTo<N(!new)>(g: Problem<N>, p: seq<N>, a: N, b: N)
  {
    Walk(g, p) && p[0] == a && p[|p| - 1] == b
  }

  ghost predicate NonNegative<N(!new)>(g: Problem<N>)
  {
    forall a, b :: 0.0 <= g.coster(a, b)
  }

  /** h never overestimates the cost from a node to a goal, and is not negative at a goal. */
  ghost predicate Admissible<N(!new)>(g: Problem<N>, h: N -> real)
  {
    && (forall n :: g.isGoal(n) ==> 0.0 <= h(n))
    && forall p :: Walk(g, p) && g.isGoal(p[|p| - 1]) ==> h(p[0]) <= Cost(g, p)
  }

  /** c is the least cost of a walk from a to b. */
  ghost predicate LeastCost<N(!new)>(g: Problem<N>, a: N, b: N, c: real)
  {
    && (exists p :: WalkFromTo(g, p, a, b) && Cost(g, p) == c)
    && forall p :: WalkFromTo(g, p, a, b) ==> c <= Cost(g, p)
  }

  /** b is a goal, reached at cost c, and no walk from a to any goal is cheaper. */
  ghost predicate BestGoal<N(!new)>(g: Problem<N>, a: N, b: N, c: real)
  {
    && g.isGoal(b)
    && (exists p :: WalkFromTo(g, p, a, b) && Cost(g, p) == c)
    && forall p :: Walk(g, p) && p[0] == a && g.isGoal(p[|p| - 1]) ==> c <= Cost(g, p)
  }

  ghost predicate NoGoalReachable<N(!new)>(g: Problem<N>, a: N)
  {
    forall p :: Walk(g, p) && p[0] == a ==> !g.isGoal(p[|p| - 1])
  }

  /** Every node reachable from a lies in the finite set u. */
  ghost predicate Encloses<N(!new)>(g: Problem<N>, u: set<N>, a: N)
  {
    a in u && forall n, m :: n in u && m in g.nGen(n) ==> m in u
  }

  lemma {:induction false} PrefixWalk<N(!new)>(g: Problem<N>, p: seq<N>, k: nat)
    requires Walk(g, p) && 0 < k <= |p|
    ensures Walk(g, p[..k])
    decreases |p|
  {
    if k < |p| {
      PrefixWalk(g, p[..|p| - 1], k);
      assert p[..|p| - 1][..k] == p[..k];
    } else {
      assert p[..k] == p;
    }
  }

  /** A walk splits at any node into a prefix and a suffix whose costs add up. */
  lemma {:induction false} SplitWalk<N(!new)>(g: Problem<N>, p: seq<N>, j: nat)
    requires Walk(g, p) && j < |p|
    ensures Walk(g, p[..j + 1]) && Walk(g, p[j..])
    ensures Cost(g, p) == Cost(g, p[..j + 1]) + Cost(g, p[j..])
    decreases |p|
  {
    PrefixWalk(g, p, j + 1);
    if j == |p| - 1 {
      assert p[..j + 1] == p;
    } else {
      var q := p[..|p| - 1];
      SplitWalk(g, q, j);
      assert q[..j + 1] == p[..j + 1];
      assert p[j..][..|p[j..]| - 1] == q[j..];
    }
  }

  lemma {:induction false} CostNonNegative<N(!new)>(g: Problem<N>, p: seq<N>)
    requires NonNegative(g) && |p| > 0
    ensures 0.0 <= Cost(g, p)
  {
    if |p| > 1 {
      CostNonNegative(g, p[..|p| - 1]);
    }
  }

  lemma {:induction false} PrefixCheaper<N(!new)>(g: Problem<N>, p: seq<N>, k: nat)
    requires NonNegative(g) && 0 < k <= |p|
    ensures Cost(g, p[..k]) <= Cost(g, p)
    decreases |p|
  {
    if k < |p| {
      PrefixCheaper(g, p[..|p| - 1], k);
      assert p[..|p| - 1][..k] == p[..k];
    } else {
      assert p[..k] == p;
    }
  }

  lemma ExtendWalk<N(!new)>(g: Problem<N>, p: seq<N>, m: N)
    requires Walk(g, p) && m in g.nGen(p[|p| - 1])
    ensures Walk(g, p + [m])
    ensures Cost(g, p + [m]) == Cost(g, p) + g.coster(p[|p| - 1], m)
  {
    assert (p + [m])[..|p|] == p;
  }

  // ---------- the state of a search and its invariant ----------

  datatype State<!N> = State(
    frontier: multiset<(N, real)>,
    cameFrom: map<N, Option<N>>,
    costSoFar: map<N, real>)

  /** n still waits in the frontier at its current cost. */
  ghost predicate Open<N(!new)>(h: N -> real, st: State<N>, n: N)
  {
    n in st.costSoFar && (n, st.costSoFar[n] + h(n)) in st.frontier
  }

  /** The first k neighbours of n are known at no more than the cost through n. */
  ghost predicate Relaxed<N(!new)>(g: Problem<N>, cost: map<N, real>, n: N, k: nat)
    requires n in cost && k <= |g.nGen(n)|
  {
    forall j :: 0 <= j < k ==>
      g.nGen(n)[j] in cost && cost[g.nGen(n)[j]] <= cost[n] + g.coster(n, g.nGen(n)[j])
  }

  /**
   * The node being expanded, with k of its neighbours already looked at.
   */
  datatype Expanding<!N> = Idle | Busy(node: N, k: nat)

  /** Every known node waits, or was expanded at its current cost, or is being expanded. */
  ghost predicate Covered<N(!new)>(g: Problem<N>, h: N -> real, st: State<N>, x: Expanding<N>)
  {
    forall n :: n in st.costSoFar ==> CoveredAt(g, h, st, x, n)
  }

  ghost predicate CoveredAt<N(!new)>(g: Problem<N>, h: N -> real, st: State<N>, x: Expanding<N>, n: N)
    requires n in st.costSoFar
  {
    || Open(h, st, n)
    || (!g.isGoal(n) && Relaxed(g, st.costSoFar, n, |g.nGen(n)|))
    || (x.Busy? && x.node == n && !g.isGoal(n) && x.k <= |g.nGen(n)| && Relaxed(g, st.costSoFar, n, x.k))
  }

  /** Frontier entries name known nodes and may only be stale by being too dear. */
  ghost predicate Queued<N(!new)>(h: N -> real, st: State<N>)
  {
    forall e :: e in st.frontier ==> e.0 in st.costSoFar && st.costSoFar[e.0] + h(e.0) <= e.1
  }

  /** cameFrom and costSoFar agree: a node costs at least its predecessor plus the edge. */
  ghost predicate Linked<N(!new)>(g: Problem<N>, start: N, st: State<N>)
  {
    && st.cameFrom.Keys == st.costSoFar.Keys
    && start in st.cameFrom && st.cameFrom[start] == None && st.costSoFar[start] == 0.0
    && (forall n :: n in st.costSoFar ==> 0.0 <= st.costSoFar[n])
    && (forall n :: n in st.cameFrom && n != start ==>
          && st.cameFrom[n].Some?
          && st.cameFrom[n].value in st.costSoFar
          && n in g.nGen(st.cameFrom[n].value)
          && st.costSoFar[st.cameFrom[n].value] + g.coster(st.cameFrom[n].value, n) <= st.costSoFar[n])
  }

  /** p follows the predecessor links from start to its last node. */
  ghost predicate Chain<N(!new)>(cameFrom: map<N, Option<N>>, start: N, p: seq<N>)
  {
    && |p| > 0
    && p[|p| - 1] in cameFrom
    && if |p| == 1 then p[0] == start
       else cameFrom[p[|p| - 1]] == Some(p[|p| - 2]) && Chain(cameFrom, start, p[..|p| - 1])
  }

  ghost predicate ChainTo<N(!new)>(cameFrom: map<N, Option<N>>, start: N, n: N, p: seq<N>)
  {
    Chain(cameFrom, start, p) && p[|p| - 1] == n
  }

  /** The predecessor graph is a tree rooted at start. */
  ghost predicate Rooted<N(!new)>(cameFrom: map<N, Option<N>>, start: N)
  {
    forall n :: n in cameFrom ==> exists p :: ChainTo(cameFrom, start, n, p)
  }

  ghost predicate Distinct<N(!new)>(p: seq<N>)
  {
    forall i, j :: 0 <= i < j < |p| ==> p[i] != p[j]
  }

  lemma {:induction false} DistinctIsShort<N(!new)>(u: set<N>, p: seq<N>)
    requires Distinct(p) && forall x :: x in p ==> x in u
    ensures |p| <= |u|
  {
    if p != [] {
      var x := p[|p| - 1];
      var q := p[..|p| - 1];
      DistinctIsShort(u - {x}, q);
    }
  }

  /** A label is the cost of a simple walk from start, all of whose prefixes are known no dearer. */
  ghost predicate Witness<N(!new)>(g: Problem<N>, start: N, cost: map<N, real>, n: N, p: seq<N>)
  {
    && WalkFromTo(g, p, start, n) && Distinct(p) && n in cost && Cost(g, p) == cost[n]
    && forall i :: 0 <= i < |p| ==> p[i] in cost && cost[p[i]] <= Cost(g, p[..i + 1])
  }

  ghost predicate Realized<N(!new)>(g: Problem<N>, start: N, cost: map<N, real>)
  {
    forall n :: n in cost ==> exists p :: Witness(g, start, cost, n, p)
  }

  ghost predicate Inv<N(!new)>(g: Problem<N>, h: N -> real, start: N, st: State<N>, x: Expanding<N>)
  {
    && Covered(g, h, st, x) && Queued(h, st)
    && Linked(g, start, st) && Rooted(st.cameFrom, start) && Realized(g, start, st.costSoFar)
    && (x.Busy? ==> x.node in st.costSoFar)
  }

  ghost function Initial<N(!new)>(start: N): State<N>
  {
    State(multiset{(start, 0.0)}, map[start := None], map[start := 0.0])
  }

  ghost predicate Improves<N(!new)>(g: Problem<N>, st: State<N>, n: N, m: N)
    requires n in st.costSoFar
  {
    m !in st.costSoFar || CostThrough(g.coster, st.costSoFar, n, m) < st.costSoFar[m]
  }

  /** Record the cheaper way to m through n, and queue m again. */
  ghost function Improve<N(!new)>(g: Problem<N>, h: N -> real, st: State<N>, n: N, m: N): State<N>
    requires n in st.costSoFar
  {
    var newCost := CostThrough(g.coster, st.costSoFar, n, m);
    State(st.frontier + multiset{(m, Priority(h, newCost, m))}, st.cameFrom[m := Some(n)], st.costSoFar[m := newCost])
  }

  ghost function Relax<N(!new)>(g: Problem<N>, h: N -> real, st: State<N>, n: N, m: N): State<N>
    requires n in st.costSoFar
  {
    if Improves(g, st, n, m) then Improve(g, h, st, n, m) else st
  }

  /** Relax as the loop body writes it. */
  lemma RelaxAsCoded<N(!new)>(g: Problem<N>, h: N -> real, st: State<N>, n: N, m: N)
    requires n in st.costSoFar
    ensures var newCost := CostThrough(g.coster, st.costSoFar, n, m);
      Relax(g, h, st, n, m) ==
      if m !in st.costSoFar || newCost < st.costSoFar[m]
      then State(st.frontier + multiset{(m, Priority(h, newCost, m))}, st.cameFrom[m := Some(n)],
                 st.costSoFar[m := newCost])
      else st
  {
  }

  /** Taking an entry off the frontier. */
  ghost function Popped<N(!new)>(st: State<N>, e: (N, real)): State<N>
  {
    st.(frontier := st.frontier - multiset{e})
  }

  ghost predicate Cheapest<N(!new)>(st: State<N>, e: (N, real))
  {
    e in st.frontier && Least(st.frontier, e.1)
  }

  // ---------- the invariant holds at the start and through every step ----------

  /**
   * The search starts from one entry of priority 0, whatever the estimator says of start: the
   * invariant proper begins once that entry is popped.
   */
  lemma InitialPop<N(!new)>(g: Problem<N>, h: N -> real, start: N)
    requires NonNegative(g)
    ensures if g.isGoal(start) then BestGoal(g, start, start, 0.0)
            else Inv(g, h, start, Popped(Initial(start), (start, 0.0)), Busy(start, 0))
  {
    var st := Initial(start);
    assert ChainTo(st.cameFrom, start, start, [start]);
    assert Witness(g, start, st.costSoFar, start, [start]);
    forall p | Walk(g, p)
      ensures 0.0 <= Cost(g, p)
    {
      CostNonNegative(g, p);
    }
  }

  /** Costs never fall along a chain of predecessor links, and the chain is a walk. */
  lemma {:induction false} ChainIsWalk<N(!new)>(g: Problem<N>, start: N, st: State<N>, p: seq<N>)
    requires NonNegative(g) && Linked(g, start, st) && Chain(st.cameFrom, start, p)
    ensures Walk(g, p) && p[0] == start && Cost(g, p) <= st.costSoFar[p[|p| - 1]]
    ensures forall i :: 0 <= i < |p| ==> p[i] in st.costSoFar && st.costSoFar[p[i]] <= st.costSoFar[p[|p| - 1]]
  {
    if |p| > 1 {
      var q := p[..|p| - 1];
      ChainIsWalk(g, start, st, q);
      assert forall i :: 0 <= i < |q| ==> q[i] == p[i];
    }
  }

  /** A chain that avoids m survives relinking m. */
  lemma {:induction false} ChainKept<N(!new)>(cameFrom: map<N, Option<N>>, start: N, p: seq<N>, m: N, n: N)
    requires Chain(cameFrom, start, p) && m !in p
    ensures Chain(cameFrom[m := Some(n)], start, p)
  {
    if |p| > 1 {
      ChainKept(cameFrom, start, p[..|p| - 1], m, n);
    }
  }

  /** Any other chain is rerouted through the new chain to m. */
  lemma {:induction false} Reroute<N(!new)>(cameFrom: map<N, Option<N>>, start: N, p: seq<N>, m: N, n: N, toM: seq<N>)
    returns (q: seq<N>)
    requires Chain(cameFrom, start, p) && m != start
    requires ChainTo(cameFrom[m := Some(n)], start, m, toM)
    ensures ChainTo(cameFrom[m := Some(n)], start, p[|p| - 1], q)
  {
    var x := p[|p| - 1];
    if x == m {
      q := toM;
    } else if |p| == 1 {
      q := p;
    } else {
      var r := Reroute(cameFrom, start, p[..|p| - 1], m, n, toM);
      q := r + [x];
      assert q[..|q| - 1] == r;
    }
  }

  lemma ImproveKeepsRooted<N(!new)>(g: Problem<N>, h: N -> real, start: N, st: State<N>, n: N, m: N)
    requires NonNegative(g) && Linked(g, start, st) && Rooted(st.cameFrom, start)
    requires n in st.costSoFar && m in g.nGen(n) && Improves(g, st, n, m)
    ensures Rooted(st.cameFrom[m := Some(n)], start)
  {
    var links := st.cameFrom[m := Some(n)];
    var p :| ChainTo(st.cameFrom, start, n, p);
    ChainIsWalk(g, start, st, p);
    assert m !in p;
    ChainKept(st.cameFrom, start, p, m, n);
    var toM := p + [m];
    assert toM[..|p|] == p;
    assert ChainTo(links, start, m, toM);
    forall x | x in links
      ensures exists q :: ChainTo(links, start, x, q)
    {
      if x != m {
        var r :| ChainTo(st.cameFrom, start, x, r);
        var q := Reroute(st.cameFrom, start, r, m, n, toM);
      }
    }
  }

  /** The walk recorded for n, extended by m, is the walk recorded for m. */
  lemma ExtendWitness<N(!new)>(g: Problem<N>, start: N, st: State<N>, n: N, m: N, p: seq<N>)
    requires NonNegative(g) && n in st.costSoFar && m in g.nGen(n) && Improves(g, st, n, m)
    requires Witness(g, start, st.costSoFar, n, p)
    ensures Witness(g, start, st.costSoFar[m := st.costSoFar[n] + g.coster(n, m)], m, p + [m])
  {
    var cost := st.costSoFar[m := st.costSoFar[n] + g.coster(n, m)];
    var q := p + [m];
    ExtendWalk(g, p, m);
    forall i | 0 <= i < |p|
      ensures p[i] != m
    {
      PrefixCheaper(g, p, i + 1);
    }
    forall i | 0 <= i < |q|
      ensures q[i] in cost && cost[q[i]] <= Cost(g, q[..i + 1])
    {
      if i < |p| {
        assert q[..i + 1] == p[..i + 1];
      } else {
        assert q[..i + 1] == q;
      }
    }
  }

  lemma ImproveKeepsRealized<N(!new)>(g: Problem<N>, start: N, st: State<N>, n: N, m: N)
    requires NonNegative(g) && Realized(g, start, st.costSoFar)
    requires n in st.costSoFar && m in g.nGen(n) && Improves(g, st, n, m)
    ensures Realized(g, start, st.costSoFar[m := st.costSoFar[n] + g.coster(n, m)])
  {
    var cost := st.costSoFar[m := st.costSoFar[n] + g.coster(n, m)];
    forall x | x in cost
      ensures exists p :: Witness(g, start, cost, x, p)
    {
      if x == m {
        var p :| Witness(g, start, st.costSoFar, n, p);
        ExtendWitness(g, start, st, n, m, p);
      } else {
        SameWitness(g, start, st.costSoFar, cost, x);
      }
    }
  }

  lemma SameWitness<N(!new)>(g: Problem<N>, start: N, cost: map<N, real>, new_: map<N, real>, x: N)
    requires exists p :: Witness(g, start, cost, x, p)
    requires forall y :: y in cost ==> y in new_ && new_[y] <= cost[y]
    requires x in new_ && (x in cost ==> new_[x] == cost[x])
    ensures exists p :: Witness(g, start, new_, x, p)
  {
    var p :| Witness(g, start, cost, x, p);
    assert Witness(g, start, new_, x, p);
  }

  lemma RelaxedStays<N(!new)>(g: Problem<N>, cost: map<N, real>, n: N, k: nat, m: N, c: real)
    requires n in cost && k <= |g.nGen(n)| && Relaxed(g, cost, n, k)
    requires n != m && (m in cost ==> c <= cost[m])
    ensures Relaxed(g, cost[m := c], n, k)
  {
  }

  lemma RelaxKeepsCoveredAt<N(!new)>(g: Problem<N>, h: N -> real, start: N, st: State<N>, n: N, k: nat, x: N)
    requires NonNegative(g) && n in st.costSoFar && k < |g.nGen(n)|
    requires x in Relax(g, h, st, n, g.nGen(n)[k]).costSoFar
    requires x in st.costSoFar ==> CoveredAt(g, h, st, Busy(n, k), x)
    ensures CoveredAt(g, h, Relax(g, h, st, n, g.nGen(n)[k]), Busy(n, k + 1), x)
  {
    var m := g.nGen(n)[k];
    if Improves(g, st, n, m) && x != m {
      var c := st.costSoFar[n] + g.coster(n, m);
      if Open(h, st, x) {
      } else if Relaxed(g, st.costSoFar, x, |g.nGen(x)|) {
        RelaxedStays(g, st.costSoFar, x, |g.nGen(x)|, m, c);
      } else {
        RelaxedStays(g, st.costSoFar, n, k, m, c);
      }
    }
  }

  lemma RelaxKeepsCovered<N(!new)>(g: Problem<N>, h: N -> real, start: N, st: State<N>, n: N, k: nat)
    requires NonNegative(g) && n in st.costSoFar && Covered(g, h, st, Busy(n, k)) && k < |g.nGen(n)|
    ensures Covered(g, h, Relax(g, h, st, n, g.nGen(n)[k]), Busy(n, k + 1))
  {
    forall x | x in Relax(g, h, st, n, g.nGen(n)[k]).costSoFar
      ensures CoveredAt(g, h, Relax(g, h, st, n, g.nGen(n)[k]), Busy(n, k + 1), x)
    {
      RelaxKeepsCoveredAt(g, h, start, st, n, k, x);
    }
  }

  lemma RelaxKeepsQueued<N(!new)>(g: Problem<N>, h: N -> real, st: State<N>, n: N, m: N)
    requires Queued(h, st) && n in st.costSoFar
    ensures Queued(h, Relax(g, h, st, n, m))
  {
  }

  lemma RelaxKeepsLinked<N(!new)>(g: Problem<N>, h: N -> real, start: N, st: State<N>, n: N, m: N)
    requires NonNegative(g) && Linked(g, start, st) && n in st.costSoFar && m in g.nGen(n)
    ensures Linked(g, start, Relax(g, h, st, n, m))
  {
  }

  /** Looking at the next neighbour of the node being expanded keeps the invariant. */
  lemma RelaxKeepsInv<N(!new)>(g: Problem<N>, h: N -> real, start: N, st: State<N>, n: N, k: nat)
    requires NonNegative(g) && Inv(g, h, start, st, Busy(n, k)) && k < |g.nGen(n)|
    ensures Inv(g, h, start, Relax(g, h, st, n, g.nGen(n)[k]), Busy(n, k + 1))
  {
    hide Covered, Queued, Linked, Rooted, Realized;
    var m := g.nGen(n)[k];
    RelaxKeepsCovered(g, h, start, st, n, k);
    RelaxKeepsQueued(g, h, st, n, m);
    RelaxKeepsLinked(g, h, start, st, n, m);
    if Improves(g, st, n, m) {
      ImproveKeepsRooted(g, h, start, st, n, m);
      ImproveKeepsRealized(g, start, st, n, m);
    }
  }

  lemma PopKeepsCovered<N(!new)>(g: Problem<N>, h: N -> real, st: State<N>, e: (N, real))
    requires Covered(g, h, st, Idle) && e in st.frontier && !g.isGoal(e.0)
    ensures Covered(g, h, Popped(st, e), Busy(e.0, 0))
  {
    var new_ := Popped(st, e);
    forall x | x in new_.costSoFar
      ensures CoveredAt(g, h, new_, Busy(e.0, 0), x)
    {
      assert CoveredAt(g, h, st, Idle, x);
      if x != e.0 && Open(h, st, x) {
        assert (x, st.costSoFar[x] + h(x)) != e;
      }
    }
  }

  /** Starting to expand a popped node keeps the invariant, stale entry or not. */
  lemma PopKeepsInv<N(!new)>(g: Problem<N>, h: N -> real, start: N, st: State<N>, e: (N, real))
    requires Inv(g, h, start, st, Idle) && e in st.frontier && !g.isGoal(e.0)
    ensures Inv(g, h, start, Popped(st, e), Busy(e.0, 0))
  {
    PopKeepsCovered(g, h, st, e);
    assert Queued(h, Popped(st, e));
  }

  // ---------- what the invariant gives when a search stops ----------

  /**
   * Along any walk from start, either some node still waits at no more than the walk's cost so
   * far, or the whole walk is known at no more than its cost.
   */
  lemma {:induction false} WaitingOnWalk<N(!new)>(g: Problem<N>, h: N -> real, start: N, st: State<N>, p: seq<N>)
    returns (j: nat)
    requires Covered(g, h, st, Idle) && Linked(g, start, st) && Walk(g, p) && p[0] == start
    ensures j < |p| ==> Open(h, st, p[j]) && st.costSoFar[p[j]] <= Cost(g, p[..j + 1])
    ensures j >= |p| ==>
      p[|p| - 1] in st.costSoFar && st.costSoFar[p[|p| - 1]] <= Cost(g, p) && !g.isGoal(p[|p| - 1])
  {
    var n := p[|p| - 1];
    assert p[..|p|] == p;
    if |p| > 1 {
      var q := p[..|p| - 1];
      j := WaitingOnWalk(g, h, start, st, q);
      if j < |q| {
        assert p[..j + 1] == q[..j + 1];
        return;
      }
      var u := q[|q| - 1];
      if Open(h, st, u) {
        assert p[..|q|] == q;
        j := |q| - 1;
        return;
      }
      var i :| 0 <= i < |g.nGen(u)| && g.nGen(u)[i] == n;
    }
    j := if Open(h, st, n) then |p| - 1 else |p|;
  }

  /** No walk to a goal is cheaper than the cheapest priority in the frontier. */
  lemma CheapestBoundsGoals<N(!new)>(g: Problem<N>, h: N -> real, start: N, st: State<N>, e: (N, real), p: seq<N>)
    requires Inv(g, h, start, st, Idle) && Admissible(g, h) && Cheapest(st, e)
    requires Walk(g, p) && p[0] == start && g.isGoal(p[|p| - 1])
    ensures e.1 <= Cost(g, p)
  {
    hide Covered, Linked, Rooted;
    var j := WaitingOnWalk(g, h, start, st, p);
    SplitWalk(g, p, j);
    var rest := p[j..];
    assert h(rest[0]) <= Cost(g, rest) by {
      assert Walk(g, rest) && g.isGoal(rest[|rest| - 1]);
    }
    assert e.1 <= st.costSoFar[p[j]] + h(p[j]);
  }

  /** A goal popped as a cheapest entry is reached at the least cost of any goal. */
  lemma PoppedGoalIsBest<N(!new)>(g: Problem<N>, h: N -> real, start: N, st: State<N>, e: (N, real))
    requires Inv(g, h, start, st, Idle) && Admissible(g, h)
    requires Cheapest(st, e) && g.isGoal(e.0)
    ensures BestGoal(g, start, e.0, st.costSoFar[e.0])
  {
    var w :| Witness(g, start, st.costSoFar, e.0, w);
    assert st.costSoFar[e.0] <= e.1;
    forall p | Walk(g, p) && p[0] == start && g.isGoal(p[|p| - 1])
      ensures st.costSoFar[e.0] <= Cost(g, p)
    {
      CheapestBoundsGoals(g, h, start, st, e, p);
    }
  }

  lemma EmptyFrontierNoGoal<N(!new)>(g: Problem<N>, h: N -> real, start: N, st: State<N>)
    requires Inv(g, h, start, st, Idle) && st.frontier == multiset{}
    ensures NoGoalReachable(g, start)
  {
    forall p | Walk(g, p) && p[0] == start
      ensures !g.isGoal(p[|p| - 1])
    {
      var j := WaitingOnWalk(g, h, start, st, p);
    }
  }

  /**
   * The predecessor links form a tree rooted at start, and every branch is a walk costing no more
   * than the label at its tip.
   */
  ghost predicate PredecessorTree<N(!new)>(g: Problem<N>, start: N, cameFrom: map<N, Option<N>>, cost: map<N, real>)
  {
    && cameFrom.Keys == cost.Keys && start in cameFrom && cameFrom[start] == None && Rooted(cameFrom, start)
    && forall p :: Chain(cameFrom, start, p) ==> Walk(g, p) && p[0] == start && Cost(g, p) <= cost[p[|p| - 1]]
  }

  lemma LinksFormTree<N(!new)>(g: Problem<N>, start: N, st: State<N>)
    requires NonNegative(g) && Linked(g, start, st) && Rooted(st.cameFrom, start)
    ensures PredecessorTree(g, start, st.cameFrom, st.costSoFar)
  {
    forall p | Chain(st.cameFrom, start, p)
      ensures Walk(g, p) && p[0] == start && Cost(g, p) <= st.costSoFar[p[|p| - 1]]
    {
      ChainIsWalk(g, start, st, p);
    }
  }

  lemma HeadTree<N(!new)>(g: Problem<N>, h: N -> real, start: N, st: State<N>)
    requires NonNegative(g) && AtHead(g, h, start, st)
    ensures PredecessorTree(g, start, st.cameFrom, st.costSoFar)
  {
    if st == Initial(start) {
      assert ChainTo(st.cameFrom, start, start, [start]);
    }
    LinksFormTree(g, start, st);
  }

  /**
   * What a finished search answers: the goal of least cost, which the predecessor links spell out
   * as a walk of exactly that cost; or that no goal can be reached.
   */
  ghost predicate Solved<N(!new)>(g: Problem<N>, start: N, cameFrom: map<N, Option<N>>, cost: map<N, real>,
      final: Option<N>)
  {
    && PredecessorTree(g, start, cameFrom, cost)
    && match final
       case Some(goal) =>
         && goal in cost && BestGoal(g, start, goal, cost[goal])
         && forall p :: ChainTo(cameFrom, start, goal, p) ==> WalkFromTo(g, p, start, goal) && Cost(g, p) == cost[goal]
       case None => NoGoalReachable(g, start)
  }

  lemma BestGoalSolved<N(!new)>(g: Problem<N>, start: N, st: State<N>, goal: N)
    requires PredecessorTree(g, start, st.cameFrom, st.costSoFar) && goal in st.costSoFar
    requires BestGoal(g, start, goal, st.costSoFar[goal])
    ensures Solved(g, start, st.cameFrom, st.costSoFar, Some(goal))
  {
  }

  /** The loop head of a search: just begun, or in the invariant. */
  ghost predicate AtHead<N(!new)>(g: Problem<N>, h: N -> real, start: N, st: State<N>)
  {
    st == Initial(start) || Inv(g, h, start, st, Idle)
  }

  lemma Begin<N(!new)>(g: Problem<N>, h: N -> real, start: N)
    ensures AtHead(g, h, start, Initial(start))
  {
  }

  /** With all its neighbours looked at, the node has been expanded. */
  lemma Expanded<N(!new)>(g: Problem<N>, h: N -> real, start: N, st: State<N>, n: N)
    requires Inv(g, h, start, st, Busy(n, |g.nGen(n)|))
    ensures AtHead(g, h, start, st)
  {
    assert Covered(g, h, st, Idle);
  }

  lemma GoalPopped<N(!new)>(g: Problem<N>, h: N -> real, start: N, st: State<N>, e: (N, real))
    requires NonNegative(g) && Admissible(g, h) && AtHead(g, h, start, st) && Cheapest(st, e) && g.isGoal(e.0)
    ensures Solved(g, start, st.cameFrom, st.costSoFar, Some(e.0))
  {
    if st == Initial(start) {
      InitialPop(g, h, start);
      assert ChainTo(st.cameFrom, start, start, [start]);
    } else {
      PoppedGoalIsBest(g, h, start, st, e);
    }
    HeadTree(g, h, start, st);
    BestGoalSolved(g, start, st, e.0);
  }

  lemma NodePopped<N(!new)>(g: Problem<N>, h: N -> real, start: N, st: State<N>, e: (N, real))
    requires NonNegative(g) && AtHead(g, h, start, st) && e in st.frontier && !g.isGoal(e.0)
    ensures Inv(g, h, start, Popped(st, e), Busy(e.0, 0)) && e.0 in st.costSoFar
  {
    InitialPop(g, h, start);
    if st != Initial(start) {
      PopKeepsInv(g, h, start, st, e);
    }
  }

  lemma FrontierEmpty<N(!new)>(g: Problem<N>, h: N -> real, start: N, st: State<N>)
    requires NonNegative(g) && AtHead(g, h, start, st) && st.frontier == multiset{}
    ensures Solved(g, start, st.cameFrom, st.costSoFar, None)
  {
    assert (start, 0.0) in Initial(start).frontier;
    EmptyFrontierNoGoal(g, h, start, st);
    HeadTree(g, h, start, st);
  }
}
