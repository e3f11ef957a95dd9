/**
 * The binary heap behind both searches: `NeighborQueue`, with the up/down/Push/Pop/Fix
 * algorithms of Go's container/heap written out over it.
 */
module NeighborQueues {

  class Neighbor<T> {
    const value: T
    var cost: real
    var index: int

    constructor (value: T, cost: real)
      ensures this.value == value && this.cost == cost
    {
      this.value := value;
      this.cost := cost;
      this.index := 0;
    }
  }

  // ---------- heap order over the costs alone ----------

  /** Parent of slot j, with Go's truncating division: slot 0 is its own parent. */
  function Parent(j: nat): (p: nat)
    ensures j > 0 ==> p < j && (j == 2 * p + 1 || j == 2 * p + 2)
    ensures j == 0 ==> p == 0
  {
    if j == 0 then 0 else (j - 1) / 2
  }

  /** Slot k does not undercut its parent. */
  ghost predicate Ordered(c: seq<real>, k: nat)
    requires k < |c|
  {
    c[Parent(k)] <= c[k]
  }

  ghost predicate Heap(c: seq<real>, n: nat)
    requires n <= |c|
  {
    forall k: nat :: k < n ==> Ordered(c, k)
  }

  /** No child of slot i undercuts i's own parent. */
  ghost predicate Bridged(c: seq<real>, i: nat, n: nat)
    requires i < n <= |c|
  {
    i > 0 ==> forall k: nat :: 0 < k < n && Parent(k) == i ==> c[Parent(i)] <= c[k]
  }

  /** Only slot j may undercut its parent. */
  ghost predicate UpInv(c: seq<real>, j: nat)
    requires j < |c|
  {
    Bridged(c, j, |c|) && forall k: nat :: k < |c| && k != j ==> Ordered(c, k)
  }

  /** Only the children of slot i may undercut it; slot i0, where sifting began, may be low too. */
  ghost predicate DownInv(c: seq<real>, i0: nat, i: nat, n: nat)
    requires i < n <= |c|
  {
    && i0 <= i && Bridged(c, i, n)
    && (forall k: nat :: k < n && k != i && Parent(k) != i ==> Ordered(c, k))
    && (i > i0 ==> Ordered(c, i))
  }

  function Swapped<A>(s: seq<A>, i: nat, j: nat): seq<A>
    requires i < |s| && j < |s|
  {
    s[i := s[j]][j := s[i]]
  }

  lemma UpStep(c: seq<real>, j: nat)
    requires j < |c| && UpInv(c, j) && Parent(j) != j && c[j] < c[Parent(j)]
    ensures UpInv(Swapped(c, Parent(j), j), Parent(j))
  {
    var i, d := Parent(j), Swapped(c, Parent(j), j);
    forall k: nat | k < |d| && k != i
      ensures Ordered(d, k)
    {
      assert Ordered(c, k) || k == j;
    }
    forall k: nat | 0 < k < |d| && Parent(k) == i
      ensures d[Parent(i)] <= d[k]
    {
      assert Ordered(c, i);
      assert k == j || Ordered(c, k);
    }
  }

  lemma DownStep(c: seq<real>, i0: nat, i: nat, j: nat, n: nat)
    requires i < n <= |c| && DownInv(c, i0, i, n)
    requires 0 < j < n && Parent(j) == i && c[j] < c[i]
    requires forall k: nat :: 0 < k < n && Parent(k) == i ==> c[j] <= c[k]
    ensures DownInv(Swapped(c, i, j), i0, j, n)
    ensures Swapped(c, i, j)[n..] == c[n..]
  {
    var d := Swapped(c, i, j);
    forall k: nat | k < n && k != j && Parent(k) != j
      ensures Ordered(d, k)
    {
      if k != i && Parent(k) != i {
        assert Ordered(c, k);
      }
    }
    forall k: nat | 0 < k < n && Parent(k) == j
      ensures d[Parent(j)] <= d[k]
    {
      assert Ordered(c, k);
    }
  }

  /** Slot i has settled when neither of its children is cheaper. */
  lemma DownDone(c: seq<real>, i0: nat, i: nat, n: nat)
    requires i < n <= |c| && DownInv(c, i0, i, n)
    requires forall k: nat :: 0 < k < n && Parent(k) == i ==> c[i] <= c[k]
    ensures forall k: nat :: k < n && (i > i0 || k != i0) ==> Ordered(c, k)
  {
  }

  /** The root of a heap is a cheapest slot. */
  lemma {:induction false} RootIsMinimum(c: seq<real>, k: nat)
    requires k < |c| && Heap(c, |c|)
    ensures c[0] <= c[k]
  {
    if k > 0 {
      assert Ordered(c, k);
      RootIsMinimum(c, Parent(k));
    }
  }

  /** A heap stays one up to its new last slot. */
  lemma AppendUp(c: seq<real>, x: real)
    requires Heap(c, |c|)
    ensures UpInv(c + [x], |c|)
  {
    forall k: nat | k < |c|
      ensures Ordered(c + [x], k)
    {
      assert Ordered(c, k);
    }
  }

  /** After exchanging root and last slot, only the root is out of place among the others. */
  lemma SwapRoot(c: seq<real>)
    requires |c| > 1 && Heap(c, |c|)
    ensures DownInv(Swapped(c, 0, |c| - 1), 0, 0, |c| - 1)
  {
    var d := Swapped(c, 0, |c| - 1);
    forall k: nat | k < |c| - 1 && k != 0 && Parent(k) != 0
      ensures Ordered(d, k)
    {
      assert Ordered(c, k);
    }
  }

  /** The root is never out of place. */
  lemma HeapButRoot(c: seq<real>, n: nat)
    requires n <= |c| && ((forall k: nat :: k < n && k != 0 ==> Ordered(c, k)) || Heap(c, n))
    ensures Heap(c, n)
  {
  }

  /** Changing one cost leaves only that slot out of place. */
  lemma RecostDown(c: seq<real>, i: nat, x: real)
    requires i < |c| && Heap(c, |c|)
    ensures DownInv(c[i := x], i, i, |c|)
  {
    var d := c[i := x];
    forall k: nat | k < |c| && k != i && Parent(k) != i
      ensures Ordered(d, k)
    {
      assert Ordered(c, k);
    }
    forall k: nat | 0 < k < |c| && Parent(k) == i && i > 0
      ensures d[Parent(i)] <= d[k]
    {
      assert Ordered(c, k) && Ordered(c, i);
    }
  }

  lemma HeapPrefix(c: seq<real>, n: nat)
    requires n <= |c| && Heap(c, n)
    ensures Heap(c[..n], n)
  {
    forall k: nat | k < n
      ensures Ordered(c[..n], k)
    {
      assert Ordered(c, k);
    }
  }

  lemma DropLast<A>(s: seq<A>)
    requires s != []
    ensures multiset(s) == multiset(s[..|s| - 1]) + multiset{s[|s| - 1]}
  {
    assert s == s[..|s| - 1] + [s[|s| - 1]];
  }

  lemma SwappedMultiset<A>(s: seq<A>, i: nat, j: nat)
    requires i < |s| && j < |s|
    ensures multiset(Swapped(s, i, j)) == multiset(s)
  {
  }

  /** No entry is cheaper than c. */
  ghost predicate Least<T(!new)>(m: multiset<(T, real)>, c: real)
  {
    forall e :: e in m ==> c <= e.1
  }

  // ---------- the queue ----------

  class NeighborQueue<T(!new, ==)> {
    var items: seq<Neighbor<T>>
    ghost var repr: set<object>  // the queue and all it ever held

    constructor ()
      ensures items == [] && Valid() && Entries() == multiset{} && fresh(repr)
    {
      items := [];
      repr := {this};
    }

    /** Every queued item knows its own position; hence no item is queued twice. */
    ghost predicate Indexed()
      reads `items, items
    {
      forall i :: 0 <= i < |items| ==> items[i].index == i
    }

    ghost function Costs(): (c: seq<real>)
      reads `items, items
      ensures |c| == |items|
      ensures forall i :: 0 <= i < |c| ==> c[i] == items[i].cost
    {
      var s := items; seq(|s|, i requires 0 <= i < |s| reads s => s[i].cost)
    }

    ghost predicate IsHeap()
      reads `items, items
    {
      Indexed() && Heap(Costs(), |items|)
    }

    /** The (value, cost) pair in each slot. */
    ghost function Keys(): (k: seq<(T, real)>)
      reads `items, items
      ensures |k| == |items|
      ensures forall i :: 0 <= i < |k| ==> k[i] == (items[i].value, items[i].cost)
    {
      var s := items; seq(|s|, i requires 0 <= i < |s| reads s => (s[i].value, s[i].cost))
    }

    /** What the queue holds, in whatever slots. */
    ghost function Entries(): multiset<(T, real)>
      reads `items, items
    {
      multiset(Keys())
    }

    predicate Less(i: nat, j: nat)
      requires i < |items| && j < |items|
      reads `items, items
    {
      items[i].cost < items[j].cost
    }

    /** The cheaper child of slot i, the left one when they tie. */
    function CheaperChild(i: nat, n: nat): (j: nat)
      requires 2 * i + 1 < n <= |items|
      reads `items, items
      ensures 0 < j < n && Parent(j) == i
      ensures forall k: nat :: 0 < k < n && Parent(k) == i ==> Costs()[j] <= Costs()[k]
    {
      var j1, j2 := 2 * i + 1, 2 * i + 2;
      if j2 < n && Less(j2, j1) then j2 else j1
    }

    method Swap(i: nat, j: nat)
      requires i < |items| && j < |items| && Indexed()
      modifies `items, {items[i], items[j]}`index
      ensures items == old(Swapped(items, i, j)) && Indexed()
      ensures Keys() == old(Swapped(Keys(), i, j))
      ensures Costs() == old(Swapped(Costs(), i, j))
      ensures multiset(items) == old(multiset(items)) && Entries() == old(Entries())
    {
      SwappedMultiset(items, i, j);
      SwappedMultiset(Keys(), i, j);
      items := items[i := items[j]][j := items[i]];
      items[i].index := i;
      items[j].index := j;
    }

    /** The sift-up loop of container/heap. */
    method Up(j0: nat)
      requires j0 < |items| && Indexed() && UpInv(Costs(), j0)
      modifies `items, (set n | n in items)`index
      ensures IsHeap()
      ensures multiset(items) == old(multiset(items)) && Entries() == old(Entries())
    {
      var j: nat := j0;
      while true
        invariant j < |items| && Indexed() && UpInv(Costs(), j)
        invariant multiset(items) == old(multiset(items)) && Entries() == old(Entries())
        decreases j
      {
        var i := Parent(j);
        if i == j || !Less(j, i) {
          break;
        }
        UpStep(Costs(), j);
        assert items[i] in multiset(items) && items[j] in multiset(items);
        Swap(i, j);
        j := i;
      }
      assert Ordered(Costs(), j);
    }

    /**
     * The sift-down loop of container/heap over the first n slots; the result says whether
     * anything moved.
     */
    method Down(i0: nat, n: nat) returns (moved: bool)
      requires i0 < n <= |items| && Indexed() && DownInv(Costs(), i0, i0, n)
      modifies `items, (set n | n in items)`index
      ensures Indexed() && |items| == old(|items|) && items[n..] == old(items[n..])
      ensures if moved then Heap(Costs(), n)
              else items == old(items) && forall k: nat :: k < n && k != i0 ==> Ordered(Costs(), k)
      ensures multiset(items) == old(multiset(items)) && Entries() == old(Entries())
    {
      hide Bridged, Ordered, Entries;
      var i: nat := i0;
      while true
        invariant i < n <= |items| == old(|items|) && Indexed() && DownInv(Costs(), i0, i, n)
        invariant i == i0 ==> items == old(items)
        invariant items[n..] == old(items[n..])
        invariant multiset(items) == old(multiset(items)) && Entries() == old(Entries())
        decreases n - i
      {
        ghost var c := Costs();
        var j1 := 2 * i + 1;
        if j1 >= n {
          DownDone(c, i0, i, n);
          break;
        }
        var j := CheaperChild(i, n);
        if !Less(j, i) {
          DownDone(c, i0, i, n);
          break;
        }
        DownStep(c, i0, i, j, n);
        assert items[i] in multiset(items) && items[j] in multiset(items);
        Swap(i, j);
        i := j;
      }
      moved := i > i0;
    }

    /** NeighborQueue.Push: append, without restoring the order. */
    method Push(item: Neighbor<T>)
      requires item !in items && Indexed()
      modifies `items, item`index
      ensures items == old(items) + [item] && Indexed() && repr == old(repr)
    {
      item.index := |items|;
      items := items + [item];
    }

    /** NeighborQueue.Pop: drop the last slot and mark the item as no longer queued. */
    method Pop() returns (item: Neighbor<T>)
      requires items != [] && Indexed()
      modifies `items, {items[|items| - 1]}`index
      ensures item == old(items[|items| - 1]) && item.index == -1
      ensures items == old(items[..|items| - 1]) && item !in items && Indexed()
      ensures Costs() == old(Costs()[..|items| - 1]) && Keys() == old(Keys()[..|items| - 1])
    {
      item := items[|items| - 1];
      item.index := -1;
      items := items[..|items| - 1];
    }

    /** heap.Push */
    method HeapPush(item: Neighbor<T>)
      requires item !in items && IsHeap()
      modifies `items, item`index, (set n | n in items)`index
      ensures IsHeap()
      ensures multiset(items) == old(multiset(items)) + multiset{item}
      ensures Entries() == old(Entries()) + multiset{(item.value, item.cost)}
    {
      ghost var c := Costs();
      ghost var keys := Keys();
      Push(item);
      assert Keys() == keys + [(item.value, item.cost)];
      assert Costs() == c + [item.cost];
      AppendUp(c, item.cost);
      Up(|items| - 1);
    }

    /** The first two steps of heap.Pop: root to the last slot, then sift the rest. */
    method RootToEnd()
      requires items != [] && IsHeap()
      modifies `items, (set n | n in items)`index
      ensures Indexed() && items != [] && items[|items| - 1] == old(items[0])
      ensures Heap(Costs(), |items| - 1)
      ensures multiset(items) == old(multiset(items)) && Entries() == old(Entries())
    {
      hide Ordered, Heap, DownInv, Entries;
      var n := |items| - 1;
      ghost var c := Costs();
      Swap(0, n);
      if n > 0 {
        SwapRoot(c);
        var _ := Down(0, n);
      }
      HeapButRoot(Costs(), n);
    }

    /** The last step of heap.Pop: the last slot goes, the rest is a heap already. */
    method PopLast() returns (item: Neighbor<T>)
      requires items != [] && Indexed() && Heap(Costs(), |items| - 1)
      modifies `items, {items[|items| - 1]}`index
      ensures IsHeap() && item == old(items[|items| - 1]) && item !in items && item.index == -1
      ensures multiset(items) == old(multiset(items)) - multiset{item}
      ensures old(Entries()) == Entries() + multiset{(item.value, item.cost)}
    {
      hide Ordered, Heap;
      DropLast(Keys());
      DropLast(items);
      HeapPrefix(Costs(), |items| - 1);
      item := Pop();
    }

    /** heap.Pop: the removed item is a cheapest one, and its index says it has left. */
    method HeapPop() returns (item: Neighbor<T>)
      requires items != [] && IsHeap()
      modifies `items, (set n | n in items)`index
      ensures IsHeap() && item in old(items) && item !in items && item.index == -1
      ensures multiset(items) == old(multiset(items)) - multiset{item}
      ensures old(Entries()) == Entries() + multiset{(item.value, item.cost)}
      ensures Least(old(Entries()), item.cost)
    {
      hide Least, Indexed, Heap, Entries;
      CheapestFirst();
      RootToEnd();
      item := PopLast();
    }

    /** heap.Fix: restore the order after the cost in slot i changed. */
    method Fix(i: nat)
      requires i < |items| && Indexed() && DownInv(Costs(), i, i, |items|)
      modifies `items, (set n | n in items)`index
      ensures IsHeap()
      ensures multiset(items) == old(multiset(items)) && Entries() == old(Entries())
    {
      var moved := Down(i, |items|);
      if !moved {
        Up(i);
      }
    }

    /** Change the cost of a queued item in place. */
    method Update(item: Neighbor<T>, cost: real)
      requires item in items && IsHeap()
      modifies `items, item, (set n | n in items)`index
      ensures IsHeap() && item.cost == cost
      ensures multiset(items) == old(multiset(items))
      ensures Entries() == old(Entries()) - multiset{(item.value, old(item.cost))} + multiset{(item.value, cost)}
    {
      ghost var i: nat := item.index;
      ghost var c, keys := Costs(), Keys();
      item.cost := cost;
      assert Costs() == c[i := cost];
      assert Keys() == keys[i := (item.value, cost)];
      RecostDown(c, i, cost);
      Fix(item.index);
    }

    lemma CheapestFirst()
      requires items != [] && IsHeap()
      ensures Least(Entries(), items[0].cost)
    {
      forall e | e in Entries()
        ensures items[0].cost <= e.1
      {
        var k :| 0 <= k < |Keys()| && Keys()[k] == e;
        RootIsMinimum(Costs(), k);
      }
    }

    // ---------- the operations a search needs ----------

    ghost predicate Valid()
      reads this, repr, items
    {
      this in repr && IsHeap() && forall n :: n in items ==> n in repr
    }

    /** Queue a new neighbour. */
    method Enqueue(value: T, cost: real)
      requires Valid()
      modifies repr
      ensures Valid() && fresh(repr - old(repr))
      ensures Entries() == old(Entries()) + multiset{(value, cost)}
    {
      hide IsHeap, Entries;
      var item := new Neighbor(value, cost);
      HeapPush(item);
      repr := repr + {item};
      assert forall n :: n in items ==> n in multiset(items);
    }

    /** Take a cheapest neighbour. */
    method Dequeue() returns (value: T, ghost cost: real)
      requires items != [] && Valid()
      modifies repr
      ensures Valid() && repr == old(repr)
      ensures old(Entries()) == Entries() + multiset{(value, cost)}
      ensures Least(old(Entries()), cost)
    {
      hide IsHeap, Entries, Least;
      var item := HeapPop();
      value, cost := item.value, item.cost;
      assert forall n :: n in items ==> n in multiset(items);
    }

    function Len(): (n: nat)
      reads `items, items
      ensures n == |items| == |Entries()|
    {
      |items|
    }
  }
}
