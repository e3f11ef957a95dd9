/**
 * The order of a snapshot: a depth-first walk over everything in the zone, in whatever order a map
 * yields it, that lists each thing once, after all it depends on.
 */
module SnapshotOrder {
  import opened Bytes
  import opened ZoneViews
  import opened ZoneInvariant

  /** Anything that can be snapshotted. */
  datatype Node = LocationNode(id: Id) | ActorNode(id: Id) | ExitNode(id: Id) | ObjectNode(id: Id)

  function NodeOf(c: Container): Node
  {
    match c case InLocation(l) => LocationNode(l) case InActor(a) => ActorNode(a) case InObject(o) => ObjectNode(o)
  }

  ghost predicate InZone(v: View, n: Node)
  {
    match n
    case LocationNode(l) => l in v.locations
    case ActorNode(a) => a in v.actors
    case ExitNode(x) => x in v.exits
    case ObjectNode(o) => o in v.objects
  }

  /** snapshotDependencies */
  function Dependencies(v: View, n: Node): seq<Node>
  {
    match n
    case LocationNode(_) => []
    case ActorNode(a) => if a in v.actors then [LocationNode(v.actors[a].location)] else []
    case ExitNode(x) =>
      if x !in v.exits then []
      else
        [LocationNode(v.exits[x].source)] +
        if v.exits[x].destination.Some? then [LocationNode(v.exits[x].destination.value)] else []
    case ObjectNode(o) => if o in v.objects then [NodeOf(v.objects[o].container)] else []
  }

  function DependenciesIn(v: View): Node -> seq<Node>
  {
    (n: Node) => Dependencies(v, n)
  }

  /** snapshotDependencies of n, through the interface. */
  function Ask(deps: Node -> seq<Node>, n: Node): seq<Node>
  {
    deps(n)
  }

  function Elements(s: seq<Node>): set<Node>
  {
    set n | n in s
  }

  /** Each node of s is new, and all it depends on comes before it. */
  ghost predicate Extends(deps: Node -> seq<Node>, before: set<Node>, s: seq<Node>)
  {
    s == [] ||
    var init, last := s[..|s| - 1], s[|s| - 1];
    && Extends(deps, before, init)
    && last !in before + Elements(init)
    && forall d :: d in Ask(deps, last) ==> d in before + Elements(init)
  }

  lemma {:induction false} ExtendsConcat(deps: Node -> seq<Node>, before: set<Node>, s: seq<Node>, t: seq<Node>)
    requires Extends(deps, before, s) && Extends(deps, before + Elements(s), t)
    ensures Extends(deps, before, s + t) && Elements(s + t) == Elements(s) + Elements(t)
  {
    if t == [] {
      assert s + t == s;
    } else {
      var init := t[..|t| - 1];
      ExtendsConcat(deps, before, s, init);
      assert (s + t)[..|s + t| - 1] == s + init;
    }
  }

  lemma NothingExtends(deps: Node -> seq<Node>, before: set<Node>)
    ensures Extends(deps, before, []) && Elements([]) == {} && before + Elements([]) == before
  {
  }

  lemma ExtendsOne(deps: Node -> seq<Node>, before: set<Node>, s: seq<Node>, n: Node)
    requires Extends(deps, before, s) && n !in before + Elements(s)
    requires forall d :: d in Ask(deps, n) ==> d in before + Elements(s)
    ensures Extends(deps, before, s + [n]) && Elements(s + [n]) == Elements(s) + {n}
  {
    assert (s + [n])[..|s|] == s;
  }

  /** What the order says of any two positions: nothing twice, dependencies first. */
  lemma {:induction false} ExtendsMeans(deps: Node -> seq<Node>, s: seq<Node>, i: nat)
    requires Extends(deps, {}, s) && i < |s|
    ensures s[i] !in s[..i] && forall d :: d in Ask(deps, s[i]) ==> d in s[..i]
  {
    var init := s[..|s| - 1];
    if i < |s| - 1 {
      ExtendsMeans(deps, init, i);
      assert init[..i] == s[..i];
    }
  }

  // ---------- the walk ----------

  ghost function Done(visited: map<Node, bool>): set<Node>
  {
    set n | n in visited && visited[n]
  }

  /** r ranks every node above all it depends on; the dependencies are all known. */
  ghost predicate Ranks(deps: Node -> seq<Node>, nodes: set<Node>, r: map<Node, nat>)
  {
    r.Keys == nodes && forall n, d :: n in nodes && d in Ask(deps, n) ==> d in nodes && r[d] < r[n]
  }

  ghost predicate DoneIsClosed(deps: Node -> seq<Node>, done: set<Node>)
  {
    forall n, d :: n in done && d in Ask(deps, n) ==> d in done
  }

  lemma IsDone(visited: map<Node, bool>, n: Node)
    requires n in visited
    ensures n in Done(visited) <==> visited[n]
  {
  }

  lemma MarkDone(deps: Node -> seq<Node>, visited: map<Node, bool>, n: Node)
    requires DoneIsClosed(deps, Done(visited)) && forall d :: d in Ask(deps, n) ==> d in Done(visited)
    ensures Done(visited[n := true]) == Done(visited) + {n}
    ensures DoneIsClosed(deps, Done(visited[n := true]))
  {
  }

  class SnapshotWalk {
    const deps: Node -> seq<Node>
    var visited: map<Node, bool>

    constructor (deps: Node -> seq<Node>, nodes: set<Node>)
      ensures this.deps == deps && visited.Keys == nodes && Done(visited) == {}
    {
      this.deps := deps;
      visited := map n | n in nodes :: false;
    }

    /**
     * What is below n and not yet visited, n last. A node is marked only after its dependencies
     * were walked, so it is the ranks that make the recursion end.
     */
    method Dfs(n: Node, ghost r: map<Node, nat>) returns (ret: seq<Node>)
      requires n in visited && Ranks(deps, visited.Keys, r) && DoneIsClosed(deps, Done(visited))
      modifies this
      ensures visited.Keys == old(visited.Keys)
      ensures Extends(deps, old(Done(visited)), ret)
      ensures Done(visited) == old(Done(visited)) + Elements(ret)
      ensures DoneIsClosed(deps, Done(visited)) && n in Done(visited)
      ensures forall m :: m in Elements(ret) ==> m in r && r[m] <= r[n]
      decreases r[n]
    {
      hide Extends, Elements, Ask, Done, DoneIsClosed;
      ret := [];
      NothingExtends(deps, Done(visited));
      IsDone(visited, n);
      if visited[n] {
        return;
      }
      var ds := Ask(deps, n);
      for i := 0 to |ds|
        invariant visited.Keys == old(visited.Keys)
        invariant Extends(deps, old(Done(visited)), ret)
        invariant Done(visited) == old(Done(visited)) + Elements(ret)
        invariant DoneIsClosed(deps, Done(visited))
        invariant forall j :: 0 <= j < i ==> ds[j] in Done(visited)
        invariant forall m :: m in Elements(ret) ==> m in r && r[m] < r[n]
        invariant n !in old(Done(visited)) && n !in Done(visited)
      {
        assert ds[i] in Ask(deps, n);
        var below := Dfs(ds[i], r);
        ExtendsConcat(deps, old(Done(visited)), ret, below);
        ret := ret + below;
      }
      ExtendsOne(deps, old(Done(visited)), ret, n);
      ret := ret + [n];
      MarkDone(deps, visited, n);
      visited := visited[n := true];
    }

    /** The whole order: a walk from each node in turn, the nodes taken in any order. */
    method Order(ghost r: map<Node, nat>) returns (ordered: seq<Node>)
      requires Ranks(deps, visited.Keys, r) && Done(visited) == {}
      modifies this
      ensures Extends(deps, {}, ordered) && Elements(ordered) == old(visited.Keys)
    {
      hide Extends, Ask;
      ordered := [];
      NothingExtends(deps, {});
      var rest := visited.Keys;
      while rest != {}
        invariant visited.Keys == old(visited.Keys) && rest <= visited.Keys
        invariant Extends(deps, {}, ordered) && Done(visited) == Elements(ordered)
        invariant DoneIsClosed(deps, Done(visited))
        invariant visited.Keys - rest <= Done(visited)
        decreases rest
      {
        var n :| n in rest;
        rest := rest - {n};
        var below := Dfs(n, r);
        assert {} + Elements(ordered) == Elements(ordered);
        ExtendsConcat(deps, {}, ordered, below);
        ordered := ordered + below;
      }
    }
  }

  // ---------- a consistent zone can be walked ----------

  /** Ranks for the objects of s: containers below contents. */
  lemma {:induction false} RankObjects(v: View, s: set<Id>) returns (r: map<Id, nat>)
    requires Acyclic(v) && s <= v.objects.Keys
    ensures r.Keys == s
    ensures forall x :: x in s ==> |v.objects| - |s| <= r[x] < |v.objects|
    ensures forall x, y :: x in s && y in s && ChildOf(v, x, y) ==> r[y] < r[x]
  {
    if s == {} {
      r := map[];
    } else {
      var x := FreeMember(v, s);
      var q := RankObjects(v, s - {x});
      SubsetSize(s, v.objects.Keys);
      r := q[x := |v.objects| - |s|];
    }
  }

  function AllNodes(v: View): set<Node>
  {
    (set l | l in v.locations :: LocationNode(l)) + (set a | a in v.actors :: ActorNode(a)) +
    (set x | x in v.exits :: ExitNode(x)) + (set o | o in v.objects :: ObjectNode(o))
  }

  ghost function RankOf(q: map<Id, nat>, n: Node): nat
  {
    match n
    case LocationNode(_) => 0
    case ActorNode(_) => 1
    case ExitNode(_) => 1
    case ObjectNode(o) => if o in q then 2 + q[o] else 2
  }

  lemma NodesInZone(v: View)
    ensures forall n :: n in AllNodes(v) <==> InZone(v, n)
  {
  }

  lemma RankNodes(v: View) returns (r: map<Node, nat>)
    requires Consistent(v)
    ensures Ranks(DependenciesIn(v), AllNodes(v), r)
  {
    hide AllNodes, Consistent, RankOf, InZone;
    var q := RankAllObjects(v);
    r := map n | n in AllNodes(v) :: RankOf(q, n);
    forall n, d | n in AllNodes(v) && d in Ask(DependenciesIn(v), n)
      ensures d in AllNodes(v) && r[d] < r[n]
    {
      AskIsDependencies(v, n);
      hide Ask, DependenciesIn, Dependencies;
      NodesInZone(v);
      DependencyRanked(v, q, n, d);
    }
  }

  lemma AskIsDependencies(v: View, n: Node)
    ensures Ask(DependenciesIn(v), n) == Dependencies(v, n)
  {
  }

  lemma RankAllObjects(v: View) returns (q: map<Id, nat>)
    requires Consistent(v)
    ensures q.Keys == v.objects.Keys && forall x, y :: x in q && y in q && ChildOf(v, x, y) ==> q[y] < q[x]
  {
    q := RankObjects(v, v.objects.Keys);
  }

  lemma DependencyRanked(v: View, q: map<Id, nat>, n: Node, d: Node)
    requires Consistent(v) && InZone(v, n) && d in Dependencies(v, n)
    requires q.Keys == v.objects.Keys && forall x, y :: x in q && y in q && ChildOf(v, x, y) ==> q[y] < q[x]
    ensures InZone(v, d) && RankOf(q, d) < RankOf(q, n)
  {
    hide ObjectsPlaced, WithinLimits, DirectionsUnique, Acyclic;
    if n.ObjectNode? && d.ObjectNode? {
      assert ChildOf(v, n.id, d.id);
    }
  }
}
