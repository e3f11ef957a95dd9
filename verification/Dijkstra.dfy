/**
 * Dijkstra's search with lazy duplicates and an expansion budget. Beside the shared invariant it
 * keeps the history of pops: their priorities never fall, and a node's label is final, and the
 * least cost of any walk to it, from its first pop on. Stale entries are expanded again and
 * push nothing.
 */
module DijkstraSearch {
  import opened Wrappers
  import opened NeighborQueues
  import opened Searches

  type Pops<N> = seq<(N, real)>

  function Zero<N>(n: N): real { 0.0 }

  ghost predicate WasPopped<N(!new)>(pops: Pops<N>, n: N)
  {
    exists i :: 0 <= i < |pops| && pops[i].0 == n
  }

  ghost predicate FirstPop<N(!new)>(pops: Pops<N>, i: nat)
    requires i < |pops|
  {
    forall j :: 0 <= j < i ==> pops[j].0 != pops[i].0
  }

  ghost predicate Rising<N(!new)>(pops: Pops<N>)
  {
    forall i, j :: 0 <= i < j < |pops| ==> pops[i].1 <= pops[j].1
  }

  /** No node was popped below its label, and its first pop is at its final label, the least cost to it. */
  ghost predicate PopRight<N(!new)>(g: Problem<N>, start: N, cost: map<N, real>, pops: Pops<N>, i: nat)
    requires i < |pops|
  {
    && pops[i].0 in cost && cost[pops[i].0] <= pops[i].1 && LeastCost(g, start, pops[i].0, cost[pops[i].0])
    && (FirstPop(pops, i) ==> cost[pops[i].0] == pops[i].1)
  }

  /**
   * The history of a search: priorities never fall; no node was popped below its label; and a
   * node's first pop is at its final label, the least cost of any walk from start to it.
   */
  ghost predicate History<N(!new)>(g: Problem<N>, start: N, cost: map<N, real>, pops: Pops<N>)
  {
    Rising(pops) && forall i: nat :: i < |pops| ==> PopRight(g, start, cost, pops, i)
  }

  /** e is an edge out of n, at the cost through n. */
  ghost predicate Offers<N(!new)>(g: Problem<N>, cost: map<N, real>, n: N, e: (N, real))
  {
    n in cost && e.0 in g.nGen(n) && e.1 == CostThrough(g.coster, cost, n, e.0)
  }

  /** e is the starting entry, or an edge out of one of the first k popped nodes. */
  ghost predicate Offered<N(!new)>(g: Problem<N>, start: N, cost: map<N, real>, pops: Pops<N>, k: nat, e: (N, real))
    requires k <= |pops|
  {
    e == (start, 0.0) || exists i: nat :: i < k && Offers(g, cost, pops[i].0, e)
  }

  /** No entry was popped twice, and each was offered by a node popped before it. */
  ghost predicate PoppedOnce<N(!new)>(g: Problem<N>, start: N, cost: map<N, real>, pops: Pops<N>)
  {
    Distinct(pops) && forall i: nat :: i < |pops| ==> Offered(g, start, cost, pops, i, pops[i])
  }

  /** An entry in the frontier is there once, was not popped yet, and was offered by a popped node. */
  ghost predicate WaitsOnce<N(!new)>(g: Problem<N>, start: N, st: State<N>, pops: Pops<N>, e: (N, real))
  {
    st.frontier[e] == 1 && e !in pops && Offered(g, start, st.costSoFar, pops, |pops|, e)
  }

  ghost predicate QueuedOnce<N(!new)>(g: Problem<N>, start: N, st: State<N>, pops: Pops<N>)
  {
    PoppedOnce(g, start, st.costSoFar, pops) && forall e :: e in st.frontier ==> WaitsOnce(g, start, st, pops, e)
  }

  /** Nothing in the frontier is cheaper than what was popped. */
  ghost predicate Above<N(!new)>(st: State<N>, pops: Pops<N>)
  {
    pops != [] ==> Least(st.frontier, pops[|pops| - 1].1)
  }

  ghost predicate UnsettledOpen<N(!new)>(st: State<N>, pops: Pops<N>)
  {
    forall n :: n in st.costSoFar && !WasPopped(pops, n) ==> Open(Zero, st, n)
  }

  /** Every popped node other than the one being expanded has all its neighbours relaxed. */
  ghost predicate SettledDone<N(!new)>(g: Problem<N>, st: State<N>, pops: Pops<N>, but: Option<N>)
  {
    forall n :: WasPopped(pops, n) && but != Some(n) ==>
      n in st.costSoFar && !g.isGoal(n) && Relaxed(g, st.costSoFar, n, |g.nGen(n)|)
  }

  ghost predicate Head<N(!new)>(g: Problem<N>, start: N, st: State<N>, pops: Pops<N>)
  {
    && Inv(g, Zero, start, st, Idle)
    && History(g, start, st.costSoFar, pops) && Above(st, pops)
    && UnsettledOpen(st, pops) && SettledDone(g, st, pops, None) && QueuedOnce(g, start, st, pops)
  }

  /** The node being expanded was either just settled, or is a stale entry with nothing left to do. */
  ghost predicate Current<N(!new)>(g: Problem<N>, st: State<N>, pops: Pops<N>, n: N, k: nat)
  {
    && pops != [] && pops[|pops| - 1].0 == n && n in st.costSoFar && !g.isGoal(n)
    && k <= |g.nGen(n)| && Relaxed(g, st.costSoFar, n, k)
    && (Relaxed(g, st.costSoFar, n, |g.nGen(n)|) || st.costSoFar[n] == pops[|pops| - 1].1)
  }

  ghost predicate Body<N(!new)>(g: Problem<N>, start: N, st: State<N>, pops: Pops<N>, n: N, k: nat)
  {
    && Inv(g, Zero, start, st, Busy(n, k))
    && History(g, start, st.costSoFar, pops) && Above(st, pops)
    && UnsettledOpen(st, pops) && SettledDone(g, st, pops, Some(n)) && QueuedOnce(g, start, st, pops)
    && Current(g, st, pops, n, k)
  }

  lemma Start<N(!new)>(g: Problem<N>, start: N)
    ensures Head(g, start, Initial(start), [])
  {
    var st := Initial(start);
    assert ChainTo(st.cameFrom, start, start, [start]);
    assert Witness(g, start, st.costSoFar, start, [start]);
    assert QueuedOnce(g, start, st, []);
  }

  /** The cheapest entry of the frontier names a walk no dearer than any other to its node. */
  lemma FirstPopIsLeast<N(!new)>(g: Problem<N>, start: N, st: State<N>, e: (N, real))
    requires NonNegative(g) && Inv(g, Zero, start, st, Idle) && Cheapest(st, e) && Open(Zero, st, e.0)
    ensures e.1 == st.costSoFar[e.0] && LeastCost(g, start, e.0, e.1)
  {
    var w :| Witness(g, start, st.costSoFar, e.0, w);
    forall p | WalkFromTo(g, p, start, e.0)
      ensures e.1 <= Cost(g, p)
    {
      var j := WaitingOnWalk(g, Zero, start, st, p);
      if j < |p| {
        PrefixCheaper(g, p, j + 1);
      }
    }
  }

  lemma PopLabel<N(!new)>(g: Problem<N>, start: N, st: State<N>, pops: Pops<N>, e: (N, real))
    requires NonNegative(g) && Head(g, start, st, pops) && Cheapest(st, e)
    ensures e.0 in st.costSoFar && st.costSoFar[e.0] <= e.1 && LeastCost(g, start, e.0, st.costSoFar[e.0])
    ensures !WasPopped(pops, e.0) ==> st.costSoFar[e.0] == e.1
    ensures pops != [] ==> pops[|pops| - 1].1 <= e.1
  {
    hide LeastCost, Covered, Linked, Rooted, Realized;
    assert e.0 in st.costSoFar;
    if WasPopped(pops, e.0) {
      PoppedIsLeast(g, start, st.costSoFar, pops, e.0);
    } else {
      FirstPopIsLeast(g, start, st, e);
    }
  }

  lemma PoppedIsLeast<N(!new)>(g: Problem<N>, start: N, cost: map<N, real>, pops: Pops<N>, n: N)
    requires History(g, start, cost, pops) && WasPopped(pops, n)
    ensures n in cost && LeastCost(g, start, n, cost[n])
  {
    hide LeastCost, FirstPop;
    var i: nat :| i < |pops| && pops[i].0 == n;
    assert PopRight(g, start, cost, pops, i);
  }

  lemma FirstPopExtended<N(!new)>(pops: Pops<N>, e: (N, real), i: nat)
    requires i <= |pops| && FirstPop(pops + [e], i)
    ensures if i < |pops| then FirstPop(pops, i) else !WasPopped(pops, e.0)
  {
    assert forall j :: 0 <= j < |pops| ==> (pops + [e])[j] == pops[j];
  }

  lemma RisingExtended<N(!new)>(pops: Pops<N>, e: (N, real))
    requires Rising(pops) && (pops != [] ==> pops[|pops| - 1].1 <= e.1)
    ensures Rising(pops + [e])
  {
    forall i, j | 0 <= i < j < |pops| + 1
      ensures (pops + [e])[i].1 <= (pops + [e])[j].1
    {
      if j == |pops| {
        assert pops[i].1 <= pops[|pops| - 1].1;
      }
    }
  }

  /** A popped entry extends the history. */
  lemma PopExtendsHistory<N(!new)>(g: Problem<N>, start: N, cost: map<N, real>, pops: Pops<N>, e: (N, real))
    requires History(g, start, cost, pops)
    requires e.0 in cost && cost[e.0] <= e.1 && LeastCost(g, start, e.0, cost[e.0])
    requires !WasPopped(pops, e.0) ==> cost[e.0] == e.1
    requires pops != [] ==> pops[|pops| - 1].1 <= e.1
    ensures History(g, start, cost, pops + [e])
  {
    hide LeastCost, Rising, FirstPop, WasPopped;
    RisingExtended(pops, e);
    forall i: nat | i < |pops| + 1
      ensures PopRight(g, start, cost, pops + [e], i)
    {
      if FirstPop(pops + [e], i) {
        FirstPopExtended(pops, e, i);
      }
      assert i < |pops| ==> PopRight(g, start, cost, pops, i);
    }
  }

  lemma PopKeepsOpen<N(!new)>(st: State<N>, pops: Pops<N>, e: (N, real))
    requires UnsettledOpen(st, pops)
    ensures UnsettledOpen(Popped(st, e), pops + [e])
  {
    var new_, all := Popped(st, e), pops + [e];
    assert all[|pops|] == e;
    forall n | n in new_.costSoFar && !WasPopped(all, n)
      ensures Open(Zero, new_, n)
    {
      assert n != e.0;
      assert forall i :: 0 <= i < |pops| ==> all[i] == pops[i];
      assert Open(Zero, st, n);
    }
  }

  lemma PopKeepsSettled<N(!new)>(g: Problem<N>, st: State<N>, pops: Pops<N>, e: (N, real))
    requires SettledDone(g, st, pops, None)
    ensures SettledDone(g, Popped(st, e), pops + [e], Some(e.0))
  {
    var all := pops + [e];
    forall n | WasPopped(all, n) && n != e.0
      ensures n in st.costSoFar && !g.isGoal(n) && Relaxed(g, st.costSoFar, n, |g.nGen(n)|)
    {
      assert WasPopped(pops, n);
    }
  }

  lemma OfferedStill<N(!new)>(g: Problem<N>, start: N, cost: map<N, real>, pops: Pops<N>, k: nat, e: (N, real),
      last: (N, real))
    requires k <= |pops| && Offered(g, start, cost, pops, k, e)
    ensures Offered(g, start, cost, pops + [last], k, e) && Offered(g, start, cost, pops + [last], |pops| + 1, e)
  {
    hide Offers;
    if e != (start, 0.0) {
      var i: nat :| i < k && Offers(g, cost, pops[i].0, e);
      assert (pops + [last])[i] == pops[i];
    }
  }

  lemma PopKeepsOnce<N(!new)>(g: Problem<N>, start: N, st: State<N>, pops: Pops<N>, e: (N, real))
    requires QueuedOnce(g, start, st, pops) && e in st.frontier
    ensures QueuedOnce(g, start, Popped(st, e), pops + [e])
  {
    hide Offered;
    var all := pops + [e];
    assert WaitsOnce(g, start, st, pops, e);
    forall i: nat | i < |all|
      ensures Offered(g, start, st.costSoFar, all, i, all[i])
    {
      OfferedStill(g, start, st.costSoFar, pops, i, all[i], e);
    }
    forall x | x in Popped(st, e).frontier
      ensures WaitsOnce(g, start, Popped(st, e), all, x)
    {
      assert WaitsOnce(g, start, st, pops, x);
      OfferedStill(g, start, st.costSoFar, pops, |pops|, x, e);
    }
  }

  lemma PopStartsBody<N(!new)>(g: Problem<N>, start: N, st: State<N>, pops: Pops<N>, e: (N, real))
    requires NonNegative(g) && Head(g, start, st, pops) && Cheapest(st, e) && !g.isGoal(e.0)
    ensures Body(g, start, Popped(st, e), pops + [e], e.0, 0)
  {
    hide Inv, LeastCost, UnsettledOpen, History, QueuedOnce;
    PopLabel(g, start, st, pops, e);
    PopExtendsHistory(g, start, st.costSoFar, pops, e);
    PopKeepsInv(g, Zero, start, st, e);
    PopKeepsOpen(st, pops, e);
    PopKeepsSettled(g, st, pops, e);
    PopKeepsOnce(g, start, st, pops, e);
  }

  /** An improvement never touches a node that was popped. */
  lemma ImprovesUnsettled<N(!new)>(g: Problem<N>, start: N, st: State<N>, pops: Pops<N>, n: N, k: nat)
    requires NonNegative(g) && k < |g.nGen(n)|
    requires History(g, start, st.costSoFar, pops) && Current(g, st, pops, n, k)
    requires Improves(g, st, n, g.nGen(n)[k])
    ensures !WasPopped(pops, g.nGen(n)[k]) && st.costSoFar[n] == pops[|pops| - 1].1
  {
    hide LeastCost;
    assert PopRight(g, start, st.costSoFar, pops, |pops| - 1);
    forall i | 0 <= i < |pops|
      ensures pops[i].0 != g.nGen(n)[k]
    {
      assert PopRight(g, start, st.costSoFar, pops, i);
      assert st.costSoFar[pops[i].0] <= pops[i].1 <= pops[|pops| - 1].1;
    }
  }

  lemma HistoryStays<N(!new)>(g: Problem<N>, start: N, cost: map<N, real>, pops: Pops<N>, m: N, c: real)
    requires History(g, start, cost, pops) && !WasPopped(pops, m)
    ensures History(g, start, cost[m := c], pops)
  {
    hide LeastCost;
    var now := cost[m := c];
    forall i: nat | i < |pops|
      ensures PopRight(g, start, now, pops, i)
    {
      assert PopRight(g, start, cost, pops, i) && pops[i].0 != m;
    }
  }

  lemma ImproveKeepsSettled<N(!new)>(g: Problem<N>, st: State<N>, pops: Pops<N>, n: N, m: N)
    requires SettledDone(g, st, pops, Some(n)) && n in st.costSoFar && Improves(g, st, n, m) && !WasPopped(pops, m)
    ensures SettledDone(g, Improve(g, Zero, st, n, m), pops, Some(n))
  {
    var c := CostThrough(g.coster, st.costSoFar, n, m);
    forall x | WasPopped(pops, x) && x != n
      ensures Relaxed(g, st.costSoFar[m := c], x, |g.nGen(x)|)
    {
      RelaxedStays(g, st.costSoFar, x, |g.nGen(x)|, m, c);
    }
  }

  lemma ImproveKeepsOpen<N(!new)>(g: Problem<N>, st: State<N>, pops: Pops<N>, n: N, m: N)
    requires UnsettledOpen(st, pops) && n in st.costSoFar
    ensures UnsettledOpen(Improve(g, Zero, st, n, m), pops)
  {
    var new_ := Improve(g, Zero, st, n, m);
    forall x | x in new_.costSoFar && !WasPopped(pops, x)
      ensures Open(Zero, new_, x)
    {
      if x != m {
        assert Open(Zero, st, x);
      }
    }
  }

  lemma OfferStays<N(!new)>(
    g: Problem<N>, start: N, cost: map<N, real>, pops: Pops<N>, k: nat, e: (N, real), m: N, c: real)
    requires k <= |pops| && Offered(g, start, cost, pops, k, e) && !WasPopped(pops, m)
    ensures Offered(g, start, cost[m := c], pops, k, e)
  {
    if e != (start, 0.0) {
      var i: nat :| i < k && Offers(g, cost, pops[i].0, e);
      assert pops[i].0 != m;
      assert Offers(g, cost[m := c], pops[i].0, e);
    }
  }

  /** An improvement queues an entry cheaper than any queued before for its node. */
  lemma ImproveKeepsOnce<N(!new)>(g: Problem<N>, start: N, st: State<N>, pops: Pops<N>, n: N, m: N)
    requires QueuedOnce(g, start, st, pops) && Queued(Zero, st)
    requires pops != [] && pops[|pops| - 1].0 == n && n in st.costSoFar && m in g.nGen(n)
    requires Improves(g, st, n, m) && !WasPopped(pops, m)
    ensures QueuedOnce(g, start, Improve(g, Zero, st, n, m), pops)
  {
    hide Offered;
    var new_ := Improve(g, Zero, st, n, m);
    var c := CostThrough(g.coster, st.costSoFar, n, m);
    assert n != m;
    forall i: nat | i < |pops|
      ensures Offered(g, start, new_.costSoFar, pops, i, pops[i])
    {
      OfferStays(g, start, st.costSoFar, pops, i, pops[i], m, c);
    }
    forall e | e in new_.frontier
      ensures WaitsOnce(g, start, new_, pops, e)
    {
      if e == (m, c) {
        assert e !in st.frontier;
        NewlyOffered(g, start, new_.costSoFar, pops, e);
      } else {
        assert WaitsOnce(g, start, st, pops, e);
        OfferStays(g, start, st.costSoFar, pops, |pops|, e, m, c);
      }
    }
  }

  lemma NewlyOffered<N(!new)>(g: Problem<N>, start: N, cost: map<N, real>, pops: Pops<N>, e: (N, real))
    requires pops != [] && Offers(g, cost, pops[|pops| - 1].0, e)
    ensures Offered(g, start, cost, pops, |pops|, e)
  {
  }

  /** Looking at the next neighbour keeps every part of the invariant. */
  lemma StepKeepsBody<N(!new)>(g: Problem<N>, start: N, st: State<N>, pops: Pops<N>, n: N, k: nat)
    requires NonNegative(g) && Body(g, start, st, pops, n, k) && k < |g.nGen(n)|
    ensures Body(g, start, Relax(g, Zero, st, n, g.nGen(n)[k]), pops, n, k + 1)
  {
    hide Inv, LeastCost, QueuedOnce, Queued;
    var m := g.nGen(n)[k];
    RelaxKeepsInv(g, Zero, start, st, n, k);
    if Improves(g, st, n, m) {
      ImprovesUnsettled(g, start, st, pops, n, k);
      assert n != m by {
        assert pops[|pops| - 1].0 == n;
      }
      var c := CostThrough(g.coster, st.costSoFar, n, m);
      HistoryStays(g, start, st.costSoFar, pops, m, c);
      ImproveKeepsSettled(g, st, pops, n, m);
      ImproveKeepsOpen(g, st, pops, n, m);
      InvQueued(g, start, st, Busy(n, k));
      ImproveKeepsOnce(g, start, st, pops, n, m);
      RelaxedStays(g, st.costSoFar, n, k, m, c);
      assert Relaxed(g, st.costSoFar[m := c], n, k + 1);
      assert Least(Improve(g, Zero, st, n, m).frontier, pops[|pops| - 1].1);
    }
  }

  lemma InvQueued<N(!new)>(g: Problem<N>, start: N, st: State<N>, x: Expanding<N>)
    requires Inv(g, Zero, start, st, x)
    ensures Queued(Zero, st)
  {
  }

  lemma BodyDone<N(!new)>(g: Problem<N>, start: N, st: State<N>, pops: Pops<N>, n: N)
    requires Body(g, start, st, pops, n, |g.nGen(n)|)
    ensures Head(g, start, st, pops)
  {
    Expanded(g, Zero, start, st, n);
    assert Covered(g, Zero, st, Idle);
  }

  // ---------- how much work is done ----------

  /** The popped nodes in the order of their first pops. */
  ghost function Settled<N(!new)>(pops: Pops<N>): seq<N>
  {
    if pops == [] then []
    else
      var before, n := pops[..|pops| - 1], pops[|pops| - 1].0;
      if WasPopped(before, n) then Settled(before) else Settled(before) + [n]
  }

  ghost function Edges<N(!new)>(g: Problem<N>, nodes: seq<N>): nat
  {
    if nodes == [] then 0 else Edges(g, nodes[..|nodes| - 1]) + |g.nGen(nodes[|nodes| - 1])|
  }

  lemma {:induction false} SettledNodes<N(!new)>(pops: Pops<N>)
    ensures Distinct(Settled(pops)) && |Settled(pops)| <= |pops|
    ensures forall n :: n in Settled(pops) <==> WasPopped(pops, n)
  {
    if pops != [] {
      var before, n := pops[..|pops| - 1], pops[|pops| - 1].0;
      SettledNodes(before);
      forall m
        ensures WasPopped(pops, m) <==> WasPopped(before, m) || m == n
      {
        if WasPopped(before, m) {
          var i :| 0 <= i < |before| && before[i].0 == m;
          assert pops[i].0 == m;
        }
      }
    }
  }

  lemma SettledGrows<N(!new)>(g: Problem<N>, pops: Pops<N>, e: (N, real))
    ensures Settled(pops + [e]) == if WasPopped(pops, e.0) then Settled(pops) else Settled(pops) + [e.0]
    ensures Edges(g, Settled(pops + [e])) ==
            Edges(g, Settled(pops)) + if WasPopped(pops, e.0) then 0 else |g.nGen(e.0)|
  {
    assert (pops + [e])[..|pops|] == pops;
    assert (Settled(pops) + [e.0])[..|Settled(pops)|] == Settled(pops);
  }

  /** Without a budget the search needs a finite graph; with one it stops anyway. */
  ghost predicate Bounded<N(!new)>(g: Problem<N>, u: set<N>, start: N, maxExpansions: int)
  {
    maxExpansions >= 0 || Encloses(g, u, start)
  }

  ghost function Left<N(!new)>(u: set<N>, maxExpansions: int, pops: Pops<N>): int
  {
    if maxExpansions >= 0 then maxExpansions - |pops| else |u| - |Settled(pops)|
  }

  /** A stale entry's node has nothing left to improve. */
  ghost predicate Stale<N(!new)>(g: Problem<N>, st: State<N>, n: N)
  {
    n in st.costSoFar && Relaxed(g, st.costSoFar, n, |g.nGen(n)|)
  }

  /** The loop head, with every push accounted for by an edge out of a settled node. */
  ghost predicate Ready<N(!new)>(g: Problem<N>, start: N, u: set<N>, max: int, st: State<N>, pops: Pops<N>, pushes: nat)
  {
    && Head(g, start, st, pops) && (max < 0 ==> st.costSoFar.Keys <= u)
    && pushes == |pops| + |st.frontier| && pushes <= 1 + Edges(g, Settled(pops))
  }

  ghost predicate During<N(!new)>(
    g: Problem<N>, start: N, u: set<N>, max: int, st: State<N>, pops: Pops<N>, pushes: nat, n: N, k: nat)
  {
    && Body(g, start, st, pops, n, k) && (max < 0 ==> st.costSoFar.Keys <= u)
    && pushes == |pops| + |st.frontier|
    && if WasPopped(pops[..|pops| - 1], n)
       then Stale(g, st, n) && pushes <= 1 + Edges(g, Settled(pops))
       else pushes <= 1 + Edges(g, Settled(pops)) - |g.nGen(n)| + k
  }

  ghost function Pushed<N(!new)>(pushes: nat, st: State<N>, new_: State<N>): nat
  {
    if new_ == st then pushes else pushes + 1
  }

  lemma Begins<N(!new)>(g: Problem<N>, start: N, u: set<N>, max: int)
    requires Bounded(g, u, start, max)
    ensures Ready(g, start, u, max, Initial(start), [], 1)
  {
    Start(g, start);
  }

  lemma AlreadySettled<N(!new)>(g: Problem<N>, start: N, st: State<N>, pops: Pops<N>, n: N)
    requires Head(g, start, st, pops)
    ensures WasPopped(pops, n) ==> Stale(g, st, n)
  {
    hide Inv, History, Above, UnsettledOpen, QueuedOnce, WasPopped, Relaxed;
  }

  /** Taking an entry uses up budget, or an unsettled node, or the entry itself. */
  lemma Take<N(!new)>(g: Problem<N>, start: N, u: set<N>, max: int, st: State<N>, pops: Pops<N>, pushes: nat,
      e: (N, real))
    requires NonNegative(g) && Ready(g, start, u, max, st, pops, pushes) && Cheapest(st, e) && !g.isGoal(e.0)
    ensures During(g, start, u, max, Popped(st, e), pops + [e], pushes, e.0, 0)
    ensures Left(u, max, pops + [e]) < Left(u, max, pops) ||
            (Left(u, max, pops + [e]) == Left(u, max, pops) && Stale(g, Popped(st, e), e.0))
    ensures |Popped(st, e).frontier| < |st.frontier|
  {
    hide Body, Head, Edges, Settled, WasPopped, Relaxed;
    PopStartsBody(g, start, st, pops, e);
    AlreadySettled(g, start, st, pops, e.0);
    SettledGrows(g, pops, e);
    assert (pops + [e])[..|pops|] == pops;
  }

  lemma Step<N(!new)>(g: Problem<N>, start: N, u: set<N>, max: int, st: State<N>, pops: Pops<N>, pushes: nat, n: N,
      k: nat)
    requires NonNegative(g) && Bounded(g, u, start, max)
    requires During(g, start, u, max, st, pops, pushes, n, k) && k < |g.nGen(n)|
    ensures n in st.costSoFar
    ensures var new_ := Relax(g, Zero, st, n, g.nGen(n)[k]);
      && During(g, start, u, max, new_, pops, Pushed(pushes, st, new_), n, k + 1)
      && (Stale(g, st, n) ==> new_ == st)
  {
    hide Inv, History, Above, UnsettledOpen, SettledDone, Edges, Settled;
    StepKeepsBody(g, start, st, pops, n, k);
  }

  lemma Finish<N(!new)>(g: Problem<N>, start: N, u: set<N>, max: int, st: State<N>, pops: Pops<N>, pushes: nat, n: N)
    requires During(g, start, u, max, st, pops, pushes, n, |g.nGen(n)|)
    ensures Ready(g, start, u, max, st, pops, pushes)
  {
    BodyDone(g, start, st, pops, n);
  }

  lemma LeftOver<N(!new)>(g: Problem<N>, start: N, u: set<N>, max: int, st: State<N>, pops: Pops<N>, pushes: nat)
    requires Ready(g, start, u, max, st, pops, pushes) && (max >= 0 ==> |pops| < max)
    ensures 0 <= Left(u, max, pops)
  {
    SettledNodes(pops);
    if max < 0 {
      forall n | n in Settled(pops)
        ensures n in u
      {
        assert WasPopped(pops, n);
      }
      DistinctIsShort(u, Settled(pops));
    }
  }

  // ---------- the search ----------

  /** Whatever was not popped is no nearer than the last entry popped. */
  ghost predicate RestBeyond<N(!new)>(g: Problem<N>, start: N, pops: Pops<N>)
  {
    pops != [] ==>
      forall p :: Walk(g, p) && p[0] == start && !WasPopped(pops, p[|p| - 1]) ==> pops[|pops| - 1].1 <= Cost(g, p)
  }

  /** The only goal ever popped is the answer, and it was popped last. */
  ghost predicate GoalLast<N(!new)>(g: Problem<N>, pops: Pops<N>, final: Option<N>)
  {
    && (final.Some? ==> pops != [] && pops[|pops| - 1].0 == final.value)
    && forall i: nat :: i < |pops| && (final.Some? ==> i < |pops| - 1) ==> !g.isGoal(pops[i].0)
  }

  /**
   * What the search answers: the best goal, or that there is none, or that the budget ran out
   * before any goal came within reach. Always with its history: each entry was popped once and
   * was offered by a node popped before it, none but the answer is a goal, and there are no more
   * of them than the budget and than the edges out of the nodes settled.
   */
  ghost predicate Outcome<N(!new)>(
    g: Problem<N>, start: N, cameFrom: map<N, Option<N>>, cost: map<N, real>, final: Option<N>,
    pops: Pops<N>, pushes: nat, max: int)
  {
    && PredecessorTree(g, start, cameFrom, cost)
    && History(g, start, cost, pops) && PoppedOnce(g, start, cost, pops) && GoalLast(g, pops, final)
    && |pops| <= pushes <= 1 + Edges(g, Settled(pops)) && (max >= 0 ==> |pops| <= max)
    && if final.Some?
       then Solved(g, start, cameFrom, cost, final)
       else NoGoalReachable(g, start) || (max >= 0 && |pops| == max && RestBeyond(g, start, pops))
  }

  lemma FoundGoal<N(!new)>(g: Problem<N>, start: N, u: set<N>, max: int, st: State<N>, pops: Pops<N>, pushes: nat,
      e: (N, real))
    requires NonNegative(g) && Ready(g, start, u, max, st, pops, pushes) && Cheapest(st, e) && g.isGoal(e.0)
    requires max >= 0 ==> |pops| < max
    ensures Outcome(g, start, st.cameFrom, st.costSoFar, Some(e.0), pops + [e], pushes, max)
  {
    hide Inv, History, UnsettledOpen, SettledDone, Edges, Settled, LeastCost, QueuedOnce, PoppedOnce, GoalLast;
    assert Inv(g, Zero, start, st, Idle);
    PopKeepsOnce(g, start, st, pops, e);
    OncePopped(g, start, Popped(st, e), pops + [e]);
    GoalPoppedLast(g, st, pops, e);
    PopLabel(g, start, st, pops, e);
    PopExtendsHistory(g, start, st.costSoFar, pops, e);
    SettledGrows(g, pops, e);
    ZeroAdmissible(g);
    GoalPopped(g, Zero, start, st, e);
    assert st.frontier[e] > 0;
  }

  lemma OncePopped<N(!new)>(g: Problem<N>, start: N, st: State<N>, pops: Pops<N>)
    requires QueuedOnce(g, start, st, pops)
    ensures PoppedOnce(g, start, st.costSoFar, pops)
  {
  }

  lemma NoGoalPopped<N(!new)>(g: Problem<N>, st: State<N>, pops: Pops<N>)
    requires SettledDone(g, st, pops, None)
    ensures GoalLast(g, pops, None)
  {
    hide Relaxed;
    forall i: nat | i < |pops|
      ensures !g.isGoal(pops[i].0)
    {
      assert WasPopped(pops, pops[i].0);
    }
  }

  lemma GoalPoppedLast<N(!new)>(g: Problem<N>, st: State<N>, pops: Pops<N>, e: (N, real))
    requires SettledDone(g, st, pops, None)
    ensures GoalLast(g, pops + [e], Some(e.0))
  {
    NoGoalPopped(g, st, pops);
  }

  lemma ZeroAdmissible<N(!new)>(g: Problem<N>)
    requires NonNegative(g)
    ensures Admissible(g, Zero)
  {
    forall p | Walk(g, p)
      ensures 0.0 <= Cost(g, p)
    {
      CostNonNegative(g, p);
    }
  }

  lemma NoneLeft<N(!new)>(g: Problem<N>, start: N, u: set<N>, max: int, st: State<N>, pops: Pops<N>, pushes: nat)
    requires NonNegative(g) && Ready(g, start, u, max, st, pops, pushes) && |st.frontier| == 0
    requires (max >= 0 ==> |pops| <= max)
    ensures Outcome(g, start, st.cameFrom, st.costSoFar, None, pops, pushes, max)
  {
    hide History, UnsettledOpen, SettledDone, Edges, Settled, QueuedOnce, PoppedOnce, GoalLast;
    EmptyFrontierNoGoal(g, Zero, start, st);
    LinksFormTree(g, start, st);
    OncePopped(g, start, st, pops);
    NoGoalPopped(g, st, pops);
  }

  /** A node not yet popped is no nearer than the frontier, and that is no nearer than the last pop. */
  lemma RestIsBeyond<N(!new)>(g: Problem<N>, start: N, st: State<N>, pops: Pops<N>)
    requires NonNegative(g) && Inv(g, Zero, start, st, Idle) && Above(st, pops) && UnsettledOpen(st, pops)
    ensures RestBeyond(g, start, pops)
  {
    hide Queued, Linked, Rooted, Realized, Covered, WasPopped;
    if pops != [] {
      forall p | Walk(g, p) && p[0] == start && !WasPopped(pops, p[|p| - 1])
        ensures pops[|pops| - 1].1 <= Cost(g, p)
      {
        var j := WaitingOnWalk(g, Zero, start, st, p);
        if j < |p| {
          PrefixCheaper(g, p, j + 1);
        }
        hide Walk, Cost;
      }
    }
  }

  lemma OutOfBudget<N(!new)>(g: Problem<N>, start: N, u: set<N>, max: int, st: State<N>, pops: Pops<N>, pushes: nat)
    requires NonNegative(g) && Ready(g, start, u, max, st, pops, pushes) && |pops| == max
    ensures Outcome(g, start, st.cameFrom, st.costSoFar, None, pops, pushes, max)
  {
    hide History, UnsettledOpen, SettledDone, Edges, Settled, PredecessorTree, RestBeyond, Above, NonNegative;
    hide Queued, Linked, Rooted, Realized, Covered, QueuedOnce, PoppedOnce, GoalLast;
    LinksFormTree(g, start, st);
    RestIsBeyond(g, start, st, pops);
    OncePopped(g, start, st, pops);
    NoGoalPopped(g, st, pops);
  }

  /** The inner loop: look at every neighbor of the node just taken. */
  method Expand<N(!new, ==)>(
    ghost start: N, coster: (N, N) -> real, ghost isGoal: N -> bool, nGen: N -> seq<N>, ghost maxExpansions: int,
    frontier: NeighborQueue<N>, current: N, cameFrom0: map<N, Option<N>>, costSoFar0: map<N, real>,
    ghost u: set<N>, ghost st0: State<N>, ghost pops: Pops<N>, ghost pushes0: nat)
    returns (cameFrom: map<N, Option<N>>, costSoFar: map<N, real>, ghost st: State<N>, ghost pushes: nat)
    requires var g := Problem(nGen, coster, isGoal);
      && NonNegative(g) && Bounded(g, u, start, maxExpansions)
      && During(g, start, u, maxExpansions, st0, pops, pushes0, current, 0)
    requires frontier.Valid() && st0 == State(frontier.Entries(), cameFrom0, costSoFar0)
    modifies frontier.repr
    ensures frontier.Valid() && fresh(frontier.repr - old(frontier.repr))
    ensures st == State(frontier.Entries(), cameFrom, costSoFar)
    ensures During(Problem(nGen, coster, isGoal), start, u, maxExpansions, st, pops, pushes, current, |nGen(current)|)
    ensures Stale(Problem(nGen, coster, isGoal), st0, current) ==> st == st0
  {
    hide During, NonNegative, Bounded, Stale, Relax, Pushed, CostThrough;
    hide NeighborQueue.Valid, NeighborQueue.Entries;
    ghost var g := Problem(nGen, coster, isGoal);
    cameFrom, costSoFar, st, pushes := cameFrom0, costSoFar0, st0, pushes0;
    var neighbors := nGen(current);
    for i := 0 to |neighbors|
      invariant frontier.Valid() && fresh(frontier.repr - old(frontier.repr))
      invariant st == State(frontier.Entries(), cameFrom, costSoFar)
      invariant During(g, start, u, maxExpansions, st, pops, pushes, current, i)
      invariant Stale(g, st0, current) ==> st == st0
    {
      var node := neighbors[i];
      Step(g, start, u, maxExpansions, st, pops, pushes, current, i);
      ImproveAsCoded(g, st, current, node);
      pushes := Pushed(pushes, st, Relax(g, Zero, st, current, node));
      st := Relax(g, Zero, st, current, node);
      var newCost := CostThrough(coster, costSoFar, current, node);
      if node !in costSoFar || newCost < costSoFar[node] {
        costSoFar := costSoFar[node := newCost];
        frontier.Enqueue(node, newCost);
        cameFrom := cameFrom[node := Some(current)];
      }
    }
  }

  method DijkstraFindPath<N(!new, ==)>(
    start: N, coster: (N, N) -> real, isGoal: N -> bool, nGen: N -> seq<N>, maxExpansions: int,
    ghost u: set<N>)
    returns (cameFrom: map<N, Option<N>>, costSoFar: map<N, real>, final: Option<N>,
             ghost pops: Pops<N>, ghost pushes: nat)
    requires var g := Problem(nGen, coster, isGoal);
      NonNegative(g) && Bounded(g, u, start, maxExpansions)
    ensures PredecessorTree(Problem(nGen, coster, isGoal), start, cameFrom, costSoFar)
    ensures final.Some? || maxExpansions < 0 ==>
      Solved(Problem(nGen, coster, isGoal), start, cameFrom, costSoFar, final)
    ensures Outcome(Problem(nGen, coster, isGoal), start, cameFrom, costSoFar, final, pops, pushes, maxExpansions)
  {
    hide Ready, During, Outcome, NonNegative, Bounded, Left, Stale, Relax, Pushed, CostThrough, Least, PredecessorTree;
    hide Solved;
    hide NeighborQueue.Valid, NeighborQueue.Entries, NeighborQueue.IsHeap, NeighborQueue.Indexed;
    ghost var g := Problem(nGen, coster, isGoal);
    var frontier := new NeighborQueue<N>();
    frontier.Enqueue(start, 0.0);
    cameFrom := map[start := None];
    costSoFar := map[start := 0.0];
    final := None;
    pops, pushes := [], 1;
    ghost var st := Initial(start);
    Begins(g, start, u, maxExpansions);

    var expansionsSoFar := 0;
    while frontier.Len() > 0
      invariant fresh(frontier.repr) && frontier.Valid()
      invariant st == State(frontier.Entries(), cameFrom, costSoFar)
      invariant final == None && expansionsSoFar == |pops| && (maxExpansions >= 0 ==> |pops| <= maxExpansions)
      invariant Ready(g, start, u, maxExpansions, st, pops, pushes)
      decreases Left(u, maxExpansions, pops), |st.frontier|
    {
      if maxExpansions >= 0 && expansionsSoFar >= maxExpansions {
        OutOfBudget(g, start, u, maxExpansions, st, pops, pushes);
        Answers(g, start, cameFrom, costSoFar, final, pops, pushes, maxExpansions);
        return;
      }
      LeftOver(g, start, u, maxExpansions, st, pops, pushes);
      expansionsSoFar := expansionsSoFar + 1;

      ghost var head := st;
      var current, cost := frontier.Dequeue();
      ghost var e := (current, cost);

      if isGoal(current) {
        final := Some(current);
        FoundGoal(g, start, u, maxExpansions, st, pops, pushes, e);
        pops := pops + [e];
        Answers(g, start, cameFrom, costSoFar, final, pops, pushes, maxExpansions);
        return;
      }
      Take(g, start, u, maxExpansions, st, pops, pushes, e);
      pops, st := pops + [e], Popped(st, e);

      ghost var popped, stale := st, Stale(g, st, current);
      cameFrom, costSoFar, st, pushes :=
        Expand(start, coster, isGoal, nGen, maxExpansions, frontier, current, cameFrom, costSoFar, u, st, pops, pushes);
      Finish(g, start, u, maxExpansions, st, pops, pushes, current);
    }
    NoneLeft(g, start, u, maxExpansions, st, pops, pushes);
    Answers(g, start, cameFrom, costSoFar, final, pops, pushes, maxExpansions);
  }

  lemma Answers<N(!new)>(
    g: Problem<N>, start: N, cameFrom: map<N, Option<N>>, cost: map<N, real>, final: Option<N>,
    pops: Pops<N>, pushes: nat, max: int)
    requires Outcome(g, start, cameFrom, cost, final, pops, pushes, max)
    ensures PredecessorTree(g, start, cameFrom, cost)
    ensures final.Some? || max < 0 ==> Solved(g, start, cameFrom, cost, final)
  {
    hide PredecessorTree, History, PoppedOnce, GoalLast, BestGoal, NoGoalReachable, RestBeyond, Edges, Settled;
  }

  /** Relax as this loop body writes it: the priority is the cost itself. */
  lemma ImproveAsCoded<N(!new)>(g: Problem<N>, st: State<N>, n: N, m: N)
    requires n in st.costSoFar
    ensures var newCost := CostThrough(g.coster, st.costSoFar, n, m);
      var new_ := Relax(g, Zero, st, n, m);
      && new_ ==
         if m !in st.costSoFar || newCost < st.costSoFar[m]
         then State(st.frontier + multiset{(m, newCost)}, st.cameFrom[m := Some(n)], st.costSoFar[m := newCost])
         else st
  {
    RelaxAsCoded(g, Zero, st, n, m);
  }

  // ---------- when the budget is enough ----------

  lemma EdgesSnoc<N(!new)>(g: Problem<N>, s: seq<N>, n: N)
    ensures Edges(g, s + [n]) == Edges(g, s) + |g.nGen(n)|
  {
    assert (s + [n])[..|s|] == s;
  }

  lemma {:induction false} EdgesTaken<N(!new)>(g: Problem<N>, a: seq<N>, n: N, b: seq<N>)
    ensures Edges(g, a + [n] + b) == Edges(g, a + b) + |g.nGen(n)|
  {
    hide Edges;
    if b == [] {
      assert a + [n] + b == a + [n] && a + b == a;
      EdgesSnoc(g, a, n);
    } else {
      var b', m := b[..|b| - 1], b[|b| - 1];
      EdgesTaken(g, a, n, b');
      EdgesSnoc(g, a + [n] + b', m);
      EdgesSnoc(g, a + b', m);
      assert a + [n] + b == a + [n] + b' + [m] && a + b == a + b' + [m];
    }
  }

  lemma {:induction false} EdgesWithin<N(!new)>(g: Problem<N>, s: seq<N>, u: seq<N>)
    requires Distinct(s) && forall n :: n in s ==> n in u
    ensures Edges(g, s) <= Edges(g, u)
  {
    if s != [] {
      var s', n := s[..|s| - 1], s[|s| - 1];
      assert n in u;
      var i :| 0 <= i < |u| && u[i] == n;
      var rest := u[..i] + u[i + 1..];
      assert u == u[..i] + [n] + u[i + 1..];
      EdgesTaken(g, u[..i], n, u[i + 1..]);
      forall x | x in s'
        ensures x in rest
      {
        assert x in u && x != n;
      }
      EdgesWithin(g, s', rest);
    }
  }

  /** u lists every node that a walk no dearer than c leads to. */
  ghost predicate ListsUpTo<N(!new)>(g: Problem<N>, start: N, c: real, u: seq<N>)
  {
    forall p :: Walk(g, p) && p[0] == start && Cost(g, p) <= c ==> p[|p| - 1] in u
  }

  lemma PoppedWithin<N(!new)>(g: Problem<N>, start: N, cost: map<N, real>, pops: Pops<N>, c: real, u: seq<N>, i: nat)
    requires History(g, start, cost, pops) && ListsUpTo(g, start, c, u) && i < |pops| && pops[|pops| - 1].1 <= c
    ensures pops[i].0 in u
  {
    hide FirstPop;
    assert PopRight(g, start, cost, pops, i);
    assert pops[i].1 <= pops[|pops| - 1].1;
    var p :| WalkFromTo(g, p, start, pops[i].0) && Cost(g, p) == cost[pops[i].0];
  }

  /** A goal is found whenever the nodes no farther than it have fewer edges between them than the budget. */
  lemma BudgetSuffices<N(!new)>(
    g: Problem<N>, start: N, cameFrom: map<N, Option<N>>, cost: map<N, real>, final: Option<N>,
    pops: Pops<N>, pushes: nat, max: int, goal: seq<N>, u: seq<N>)
    requires Outcome(g, start, cameFrom, cost, final, pops, pushes, max)
    requires Walk(g, goal) && goal[0] == start && g.isGoal(goal[|goal| - 1])
    requires ListsUpTo(g, start, Cost(g, goal), u) && (max >= 0 ==> 1 + Edges(g, u) < max)
    ensures final.Some? && Solved(g, start, cameFrom, cost, final)
  {
    hide History, PoppedOnce, PredecessorTree, Solved, Edges, Settled, ListsUpTo;
    if final == None {
      assert !WasPopped(pops, goal[|goal| - 1]);
      SettledNodes(pops);
      forall n | n in Settled(pops)
        ensures n in u
      {
        var i: nat :| i < |pops| && pops[i].0 == n;
        PoppedWithin(g, start, cost, pops, Cost(g, goal), u, i);
      }
      EdgesWithin(g, Settled(pops), u);
      assert false;
    }
  }
}
