/**
 * An actor's inventory: four lists of items with limits on their number and total size. `Inv` is
 * its value; the class updates its four lists in place and is proved to compute the functions on
 * that value.
 */
module Inventories {
  import opened Wrappers
  import opened Bytes
  import opened UUIDLists
  import opened ZoneViews

  datatype Inv = Inv(constraints: Constraints, back: seq<Id>, belt: seq<Id>, body: seq<Id>, hands: seq<Id>)
  {
    function List(p: Place): seq<Id> {
      match p case Back => back case Belt => belt case Body => body case Hands => hands
    }

    function WithList(p: Place, s: seq<Id>): (r: Inv)
      ensures r.List(p) == s && r.constraints == constraints
      ensures forall q :: q != p ==> r.List(q) == List(q)
    {
      match p
      case Back => this.(back := s)
      case Belt => this.(belt := s)
      case Body => this.(body := s)
      case Hands => this.(hands := s)
    }

    function Objects(): seq<Id> {
      back + belt + body + hands
    }
  }

  function EmptyInv(c: Constraints): Inv {
    Inv(c, [], [], [], [])
  }

  ghost predicate NoDup(s: seq<Id>)
  {
    forall i, j :: 0 <= i < j < |s| ==> s[i] != s[j]
  }

  lemma HasMember<T>(s: seq<T>)
    ensures s != [] ==> exists x :: x in s
  {
    if s != [] {
      assert s[0] in s;
    }
  }

  lemma NoDupTail(s: seq<Id>)
    requires NoDup(s) && s != []
    ensures NoDup(s[1..]) && s[0] !in s[1..]
  {
  }

  lemma NoDupCons(x: Id, s: seq<Id>)
    requires NoDup(s) && x !in s
    ensures NoDup([x] + s)
  {
  }

  lemma {:induction false} RemoveMembers(s: seq<Id>, x: Id)
    requires NoDup(s)
    ensures NoDup(Remove(s, x))
    ensures forall y :: y in Remove(s, x) <==> y in s && y != x
    ensures |Remove(s, x)| == |s| - (if x in s then 1 else 0)
  {
    hide NoDup;
    if s != [] {
      NoDupTail(s);
      RemoveMembers(s[1..], x);
      if s[0] != x {
        NoDupCons(s[0], Remove(s[1..], x));
      }
    }
  }

  lemma {:induction false} RemoveAbsent(s: seq<Id>, x: Id)
    requires x !in s
    ensures Remove(s, x) == s
  {
    if s != [] {
      RemoveAbsent(s[1..], x);
    }
  }

  /** InventorySlots of an item. */
  function Size(slots: Id -> int, x: Id): int
  {
    slots(x)
  }

  function Total(slots: Id -> int, s: seq<Id>): int
  {
    if s == [] then 0 else Total(slots, s[..|s| - 1]) + Size(slots, s[|s| - 1])
  }

  // ---------- the operations on values ----------

  /** There is room for one more item of that size at p. */
  predicate Fits(inv: Inv, slots: Id -> int, x: Id, p: Place)
  {
    |inv.List(p)| < inv.constraints.MaxItems(p)
      && Total(slots, inv.List(p)) + Size(slots, x) <= inv.constraints.Slots(p)
  }

  function Added(inv: Inv, x: Id, p: Place): Inv
  {
    inv.WithList(p, inv.List(p) + [x])
  }

  function Removed(inv: Inv, x: Id): Inv
  {
    Inv(inv.constraints, Remove(inv.back, x), Remove(inv.belt, x), Remove(inv.body, x), Remove(inv.hands, x))
  }

  function MovedTo(inv: Inv, x: Id, src: Place, dst: Place): Inv
  {
    Added(inv.WithList(src, Remove(inv.List(src), x)), x, dst)
  }

  /** The first list, in the order back, belt, body, hands, that has the item. */
  function PlaceFor(inv: Inv, x: Id): Option<Place>
  {
    if x in inv.back then Some(Back)
    else if x in inv.belt then Some(Belt)
    else if x in inv.body then Some(Body)
    else if x in inv.hands then Some(Hands)
    else None
  }

  // ---------- the invariant ----------

  /** No item is listed twice, in one list or in two. */
  ghost predicate Separate(inv: Inv)
  {
    && (forall p: Place :: NoDup(inv.List(p)))
    && forall p, q, x :: p != q && x in inv.List(p) ==> x !in inv.List(q)
  }

  /** The total size is the sum over the list, one item after the other. */
  lemma TotalOneMore(slots: Id -> int, s: seq<Id>, x: Id)
    ensures Total(slots, []) == 0 && Total(slots, s + [x]) == Total(slots, s) + slots(x)
  {
    assert (s + [x])[..|s|] == s;
  }

  /** Every list that holds anything is within its limits. */
  ghost predicate Limited(inv: Inv, slots: Id -> int)
  {
    forall p: Place :: inv.List(p) != [] ==>
      |inv.List(p)| <= inv.constraints.MaxItems(p) && Total(slots, inv.List(p)) <= inv.constraints.Slots(p)
  }

  ghost predicate Ok(inv: Inv, slots: Id -> int)
  {
    Separate(inv) && Limited(inv, slots)
  }

  /** Each of the four lists has its own two limits. */
  lemma LimitedExactly(inv: Inv, slots: Id -> int)
    ensures Limited(inv, slots) <==> (
      && (inv.back != [] ==>
            |inv.back| <= inv.constraints.backMaxItems && Total(slots, inv.back) <= inv.constraints.backSlots)
      && (inv.belt != [] ==>
            |inv.belt| <= inv.constraints.beltMaxItems && Total(slots, inv.belt) <= inv.constraints.beltSlots)
      && (inv.body != [] ==>
            |inv.body| <= inv.constraints.bodyMaxItems && Total(slots, inv.body) <= inv.constraints.bodySlots)
      && (inv.hands != [] ==>
            |inv.hands| <= inv.constraints.handMaxItems && Total(slots, inv.hands) <= inv.constraints.handSlots))
  {
    assert inv.List(Back) == inv.back && inv.List(Belt) == inv.belt && inv.List(Body) == inv.body;
    assert inv.List(Hands) == inv.hands;
  }

  /** An item is at p exactly when p is its place. */
  lemma PlaceForExactly(inv: Inv, x: Id, p: Place)
    requires Separate(inv)
    ensures x in inv.List(p) <==> PlaceFor(inv, x) == Some(p)
  {
    assert inv.List(Back) == inv.back && inv.List(Belt) == inv.belt && inv.List(Body) == inv.body;
    assert inv.List(Hands) == inv.hands;
  }

  lemma ObjectsMembers(inv: Inv, x: Id)
    ensures x in inv.Objects() <==> PlaceFor(inv, x).Some?
  {
  }

  lemma NoDupSnoc(s: seq<Id>, x: Id)
    requires NoDup(s) && x !in s
    ensures NoDup(s + [x])
  {
  }

  /** The lists say exactly which place is an item's. */
  lemma ListsArePlaces(inv: Inv)
    requires Separate(inv)
    ensures forall p, x :: x in inv.List(p) <==> PlaceFor(inv, x) == Some(p)
  {
    forall p, x
      ensures x in inv.List(p) <==> PlaceFor(inv, x) == Some(p)
    {
      PlaceForExactly(inv, x, p);
    }
  }

  lemma AddedSeparate(inv: Inv, x: Id, p: Place)
    requires Separate(inv) && x !in inv.Objects()
    ensures Separate(Added(inv, x, p))
    ensures forall y :: PlaceFor(Added(inv, x, p), y) == if y == x then Some(p) else PlaceFor(inv, y)
  {
    var r := Added(inv, x, p);
    ObjectsMembers(inv, x);
    ListsArePlaces(inv);
    NoDupSnoc(inv.List(p), x);
    assert forall q :: r.List(q) == if q == p then inv.List(p) + [x] else inv.List(q);
    forall q
      ensures NoDup(r.List(q)) && forall y :: y in r.List(q) <==>
        (if y == x then q == p else PlaceFor(inv, y) == Some(q))
    {
    }
    hide NoDup, Added;
    assert Separate(r);
    ListsArePlaces(r);
    hide PlaceFor, Separate;
    forall y
      ensures PlaceFor(r, y) == if y == x then Some(p) else PlaceFor(inv, y)
    {
      var a, b := PlaceFor(r, y), PlaceFor(inv, y);
      assert a.Some? ==> y in r.List(a.value);
      assert b.Some? ==> y in inv.List(b.value);
    }
  }

  /** Adding an absent item where it fits keeps the invariant and adds just that item, there. */
  lemma AddedKeepsOk(inv: Inv, slots: Id -> int, x: Id, p: Place)
    requires Ok(inv, slots) && x !in inv.Objects() && Fits(inv, slots, x, p)
    ensures Ok(Added(inv, x, p), slots)
    ensures multiset(Added(inv, x, p).Objects()) == multiset(inv.Objects()) + multiset{x}
  {
    AddedSeparate(inv, x, p);
    AddedContents(inv, x, p);
    hide Separate;
    assert (inv.List(p) + [x])[..|inv.List(p)|] == inv.List(p);
  }

  lemma AddedContents(inv: Inv, x: Id, p: Place)
    ensures multiset(Added(inv, x, p).Objects()) == multiset(inv.Objects()) + multiset{x}
  {
  }

  /** What is in neither list cannot fit more: exactly when an item does not fit, adding breaks a limit. */
  lemma FitsExactly(inv: Inv, slots: Id -> int, x: Id, p: Place)
    requires Ok(inv, slots) && x !in inv.Objects()
    ensures Ok(Added(inv, x, p), slots) <==> Fits(inv, slots, x, p)
    ensures var k := inv.constraints;
      && (Ok(inv.(back := inv.back + [x]), slots) <==>
            |inv.back| < k.backMaxItems && Total(slots, inv.back) + slots(x) <= k.backSlots)
      && (Ok(inv.(belt := inv.belt + [x]), slots) <==>
            |inv.belt| < k.beltMaxItems && Total(slots, inv.belt) + slots(x) <= k.beltSlots)
      && (Ok(inv.(body := inv.body + [x]), slots) <==>
            |inv.body| < k.bodyMaxItems && Total(slots, inv.body) + slots(x) <= k.bodySlots)
      && (Ok(inv.(hands := inv.hands + [x]), slots) <==>
            |inv.hands| < k.handMaxItems && Total(slots, inv.hands) + slots(x) <= k.handSlots)
  {
    FitsAt(inv, slots, x, p);
    FitsAt(inv, slots, x, Back);
    FitsAt(inv, slots, x, Belt);
    FitsAt(inv, slots, x, Body);
    FitsAt(inv, slots, x, Hands);
    hide Ok;
  }

  lemma FitsAt(inv: Inv, slots: Id -> int, x: Id, p: Place)
    requires Ok(inv, slots) && x !in inv.Objects()
    ensures Ok(Added(inv, x, p), slots) <==> Fits(inv, slots, x, p)
  {
    if Fits(inv, slots, x, p) {
      AddedKeepsOk(inv, slots, x, p);
    }
    assert (inv.List(p) + [x])[..|inv.List(p)|] == inv.List(p);
    assert Added(inv, x, p).List(p) != [];
  }

  lemma {:induction false} TotalRemove(slots: Id -> int, s: seq<Id>, x: Id)
    requires NoDup(s)
    ensures Total(slots, Remove(s, x)) == Total(slots, s) - (if x in s then Size(slots, x) else 0)
  {
    if s != [] {
      var t := s[1..];
      TotalRemove(slots, t, x);
      TotalCons(slots, s[0], t);
      assert s == [s[0]] + t;
      TotalCons(slots, s[0], Remove(t, x));
    }
  }

  lemma {:induction false} TotalCons(slots: Id -> int, x: Id, s: seq<Id>)
    ensures Total(slots, [x] + s) == Size(slots, x) + Total(slots, s)
  {
    if s == [] {
      assert [x] + s == [x] && [x][..0] == [];
    } else {
      TotalCons(slots, x, s[..|s| - 1]);
      assert ([x] + s)[..|s|] == [x] + s[..|s| - 1];
    }
  }

  lemma RemovedList(inv: Inv, x: Id, p: Place)
    ensures Removed(inv, x).List(p) == Remove(inv.List(p), x)
  {
  }

  lemma RemovedMembers(inv: Inv, x: Id)
    requires Separate(inv)
    ensures Separate(Removed(inv, x))
    ensures forall y :: PlaceFor(Removed(inv, x), y) == if y == x then None else PlaceFor(inv, y)
  {
    hide NoDup, Remove;
    var r := Removed(inv, x);
    forall p
      ensures NoDup(r.List(p)) && forall y :: y in r.List(p) <==> y in inv.List(p) && y != x
    {
      RemoveMembers(inv.List(p), x);
      RemovedList(inv, x, p);
    }
    forall y
      ensures PlaceFor(r, y) == if y == x then None else PlaceFor(inv, y)
    {
      assert y in r.List(Back) <==> y in inv.List(Back) && y != x;
      assert y in r.List(Belt) <==> y in inv.List(Belt) && y != x;
      assert y in r.List(Body) <==> y in inv.List(Body) && y != x;
      assert y in r.List(Hands) <==> y in inv.List(Hands) && y != x;
    }
  }

  /** Items do not have negative sizes. */
  ghost predicate Sized(slots: Id -> int)
  {
    forall x :: 0 <= Size(slots, x)
  }

  lemma RemovedKeepsOk(inv: Inv, slots: Id -> int, x: Id)
    requires Ok(inv, slots) && Sized(slots)
    ensures Ok(Removed(inv, x), slots)
  {
    RemovedMembers(inv, x);
    forall p
      ensures Removed(inv, x).List(p) == Remove(inv.List(p), x)
      ensures |Remove(inv.List(p), x)| <= |inv.List(p)|
      ensures Total(slots, Remove(inv.List(p), x)) <= Total(slots, inv.List(p))
    {
      RemoveMembers(inv.List(p), x);
      TotalRemove(slots, inv.List(p), x);
    }
  }

  lemma RemovedAbsent(inv: Inv, x: Id)
    requires x !in inv.Objects()
    ensures Removed(inv, x) == inv
  {
    ObjectsMembers(inv, x);
    RemoveAbsent(inv.back, x);
    RemoveAbsent(inv.belt, x);
    RemoveAbsent(inv.body, x);
    RemoveAbsent(inv.hands, x);
  }

  /** Taking out the item just added gives the inventory back. */
  lemma AddThenRemove(inv: Inv, x: Id, p: Place)
    requires x !in inv.Objects()
    ensures Removed(Added(inv, x, p), x) == inv
  {
    ObjectsMembers(inv, x);
    RemoveAbsent(inv.back, x);
    RemoveAbsent(inv.belt, x);
    RemoveAbsent(inv.body, x);
    RemoveAbsent(inv.hands, x);
    RemoveLast(inv.List(p), x);
  }

  lemma {:induction false} RemoveLast(s: seq<Id>, x: Id)
    requires x !in s
    ensures Remove(s + [x], x) == s
  {
    if s != [] {
      assert (s + [x])[1..] == s[1..] + [x];
      RemoveLast(s[1..], x);
    }
  }

  /** checkMoveObjectToSubcontainer: the item is at src, and dst, as it is, can take one more. */
  predicate CanMove(inv: Inv, slots: Id -> int, x: Id, src: Place, dst: Place)
  {
    && x in inv.List(src)
    && Total(slots, inv.List(dst)) + Size(slots, x) <= inv.constraints.Slots(dst)
    && |inv.List(dst)| + 1 <= inv.constraints.MaxItems(dst)
  }

  /** With the item out, there is room for it at dst. */
  lemma MoveFits(inv: Inv, slots: Id -> int, x: Id, src: Place, dst: Place)
    requires Ok(inv, slots) && Sized(slots) && CanMove(inv, slots, x, src, dst)
    ensures Fits(Removed(inv, x), slots, x, dst)
  {
    RemovedList(inv, x, dst);
    RemoveMembers(inv.List(dst), x);
    TotalRemove(slots, inv.List(dst), x);
  }

  /** A checked move keeps the invariant and the contents, and changes the place of that item only. */
  lemma MovedKeepsOk(inv: Inv, slots: Id -> int, x: Id, src: Place, dst: Place)
    requires Ok(inv, slots) && Sized(slots) && CanMove(inv, slots, x, src, dst)
    ensures Ok(MovedTo(inv, x, src, dst), slots)
    ensures forall y :: PlaceFor(MovedTo(inv, x, src, dst), y) == if y == x then Some(dst) else PlaceFor(inv, y)
    ensures multiset(MovedTo(inv, x, src, dst).Objects()) == multiset(inv.Objects())
  {
    MovedAsRemoved(inv, x, src, dst);
    RemovedKeepsOk(inv, slots, x);
    RemovedMembers(inv, x);
    MoveFits(inv, slots, x, src, dst);
    RemovedContents(inv, x, src);
    hide Separate, Limited, Removed, Fits, MovedTo, Added;
    var out := Removed(inv, x);
    ObjectsMembers(out, x);
    AddedKeepsOk(out, slots, x, dst);
    AddedSeparate(out, x, dst);
  }

  lemma MovedAsRemoved(inv: Inv, x: Id, src: Place, dst: Place)
    requires Separate(inv) && x in inv.List(src)
    ensures MovedTo(inv, x, src, dst) == Added(Removed(inv, x), x, dst)
  {
    forall q | q != src
      ensures Remove(inv.List(q), x) == inv.List(q)
    {
      RemoveAbsent(inv.List(q), x);
    }
    assert inv.back == inv.List(Back) && inv.belt == inv.List(Belt) && inv.body == inv.List(Body);
    assert inv.hands == inv.List(Hands);
  }

  lemma {:induction false} RemoveMultiset(s: seq<Id>, x: Id)
    ensures multiset(Remove(s, x)) == if x in s then multiset(s) - multiset{x} else multiset(s)
  {
    if s != [] {
      assert s == [s[0]] + s[1..];
      RemoveMultiset(s[1..], x);
    }
  }

  ghost function Bag(back: multiset<Id>, belt: multiset<Id>, body: multiset<Id>, hands: multiset<Id>): multiset<Id>
  {
    back + belt + body + hands
  }

  lemma ObjectsBag(inv: Inv)
    ensures multiset(inv.Objects()) ==
      Bag(multiset(inv.back), multiset(inv.belt), multiset(inv.body), multiset(inv.hands))
  {
  }

  lemma BagTakeOne(a: multiset<Id>, b: multiset<Id>, c: multiset<Id>, d: multiset<Id>, x: Id)
    ensures x in a ==> Bag(a - multiset{x}, b, c, d) + multiset{x} == Bag(a, b, c, d)
    ensures x in b ==> Bag(a, b - multiset{x}, c, d) + multiset{x} == Bag(a, b, c, d)
    ensures x in c ==> Bag(a, b, c - multiset{x}, d) + multiset{x} == Bag(a, b, c, d)
    ensures x in d ==> Bag(a, b, c, d - multiset{x}) + multiset{x} == Bag(a, b, c, d)
  {
  }

  lemma RemovedContents(inv: Inv, x: Id, src: Place)
    requires Separate(inv) && x in inv.List(src)
    ensures multiset(Removed(inv, x).Objects()) + multiset{x} == multiset(inv.Objects())
  {
    assert inv.List(Back) == inv.back && inv.List(Belt) == inv.belt && inv.List(Body) == inv.body;
    assert inv.List(Hands) == inv.hands;
    assert forall q :: x in inv.List(q) <==> q == src;
    hide Separate, NoDup, Remove, Bag;
    ObjectsBag(Removed(inv, x));
    ObjectsBag(inv);
    RemoveMultiset(inv.back, x);
    RemoveMultiset(inv.belt, x);
    RemoveMultiset(inv.body, x);
    RemoveMultiset(inv.hands, x);
    BagTakeOne(multiset(inv.back), multiset(inv.belt), multiset(inv.body), multiset(inv.hands), x);
  }

  // ---------- runs ----------

  /** SubcontainerFor */
  function LabelFor(inv: Inv, x: Id): string
  {
    match PlaceFor(inv, x) case Some(p) => LabelOf(p) case None => ""
  }

  /** addObject changes the inventory only if the name is known and the item fits there. */
  function AfterAdd(inv: Inv, slots: Id -> int, x: Id, sub: string): Option<Inv>
  {
    match AddPlace(sub)
    case Some(p) => if Fits(inv, slots, x, p) then Some(Added(inv, x, p)) else None
    case None => None
  }

  /** What an add comes to, for each of the names there are. */
  lemma AfterAddExactly(inv: Inv, slots: Id -> int, x: Id, sub: string)
    ensures AfterAdd(inv, slots, x, sub) ==
      if sub == "back" && |inv.back| < inv.constraints.backMaxItems
         && Total(slots, inv.back) + slots(x) <= inv.constraints.backSlots
      then Some(inv.(back := inv.back + [x]))
      else if sub == "belt" && |inv.belt| < inv.constraints.beltMaxItems
              && Total(slots, inv.belt) + slots(x) <= inv.constraints.beltSlots
      then Some(inv.(belt := inv.belt + [x]))
      else if sub == "body" && |inv.body| < inv.constraints.bodyMaxItems
              && Total(slots, inv.body) + slots(x) <= inv.constraints.bodySlots
      then Some(inv.(body := inv.body + [x]))
      else if (sub == "hands" || sub == "any") && |inv.hands| < inv.constraints.handMaxItems
              && Total(slots, inv.hands) + slots(x) <= inv.constraints.handSlots
      then Some(inv.(hands := inv.hands + [x]))
      else None
  {
  }

  datatype Operation = Add(x: Id, sub: string) | Take(x: Id) | Move(x: Id, src: Place, dst: Place)

  /** What the operations do; a move is done only if checked. */
  function Step(inv: Inv, slots: Id -> int, op: Operation): Inv
  {
    match op
    case Add(x, sub) =>
      (match AfterAdd(inv, slots, x, sub) case Some(r) => r case None => inv)
    case Take(x) => Removed(inv, x)
    case Move(x, src, dst) => if CanMove(inv, slots, x, src, dst) then MovedTo(inv, x, src, dst) else inv
  }

  function Run(inv: Inv, slots: Id -> int, ops: seq<Operation>): Inv
    decreases |ops|
  {
    if ops == [] then inv else Run(Step(inv, slots, ops[0]), slots, ops[1..])
  }

  /** addObject does not look whether the item is there already: its callers must not add one twice. */
  predicate AddsAbsent(inv: Inv, op: Operation)
  {
    op.Add? ==> op.x !in inv.Objects()
  }

  predicate AllAddsAbsent(inv: Inv, slots: Id -> int, ops: seq<Operation>)
    decreases |ops|
  {
    ops == [] || (AddsAbsent(inv, ops[0]) && AllAddsAbsent(Step(inv, slots, ops[0]), slots, ops[1..]))
  }

  /** An add that goes through keeps the invariant exactly when the item was not there. */
  lemma AddKeepsOkExactly(inv: Inv, slots: Id -> int, x: Id, sub: string)
    requires Ok(inv, slots) && AfterAdd(inv, slots, x, sub).Some?
    ensures Ok(AfterAdd(inv, slots, x, sub).value, slots) <==> AddsAbsent(inv, Add(x, sub))
  {
    var p := AddPlace(sub).value;
    if x !in inv.Objects() {
      AddedKeepsOk(inv, slots, x, p);
    } else {
      var r := Added(inv, x, p);
      ObjectsMembers(inv, x);
      var q := PlaceFor(inv, x).value;
      PlaceForExactly(inv, x, q);
      if q == p {
        var i :| 0 <= i < |inv.List(p)| && inv.List(p)[i] == x;
        assert r.List(p)[i] == r.List(p)[|inv.List(p)|];
      } else {
        assert x in r.List(q) && x in r.List(p);
      }
    }
  }

  lemma StepKeepsOk(inv: Inv, slots: Id -> int, op: Operation)
    requires Ok(inv, slots) && Sized(slots) && AddsAbsent(inv, op)
    ensures Ok(Step(inv, slots, op), slots)
  {
    hide Ok, Fits, CanMove, Added, Removed, MovedTo, Sized;
    match op
    case Add(x, sub) =>
      if AfterAdd(inv, slots, x, sub).Some? {
        AddedKeepsOk(inv, slots, x, AddPlace(sub).value);
      }
    case Take(x) => RemovedKeepsOk(inv, slots, x);
    case Move(x, src, dst) =>
      if CanMove(inv, slots, x, src, dst) {
        MovedKeepsOk(inv, slots, x, src, dst);
      }
  }

  /** Whatever is added, taken and moved about, no list exceeds its limits and no item is in two. */
  lemma {:induction false} RunKeepsOk(inv: Inv, slots: Id -> int, ops: seq<Operation>)
    requires Ok(inv, slots) && Sized(slots) && AllAddsAbsent(inv, slots, ops)
    ensures Ok(Run(inv, slots, ops), slots)
    ensures var r, k := Run(inv, slots, ops), inv.constraints;
      && r.constraints == k
      && (r.back != [] ==> |r.back| <= k.backMaxItems && Total(slots, r.back) <= k.backSlots)
      && (r.belt != [] ==> |r.belt| <= k.beltMaxItems && Total(slots, r.belt) <= k.beltSlots)
      && (r.body != [] ==> |r.body| <= k.bodyMaxItems && Total(slots, r.body) <= k.bodySlots)
      && (r.hands != [] ==> |r.hands| <= k.handMaxItems && Total(slots, r.hands) <= k.handSlots)
    decreases |ops|
  {
    hide Ok, Step, Sized;
    if ops == [] {
      OkIsLimited(inv, slots);
    } else {
      StepKeepsOk(inv, slots, ops[0]);
      StepKeepsConstraints(inv, slots, ops[0]);
      RunKeepsOk(Step(inv, slots, ops[0]), slots, ops[1..]);
    }
  }

  lemma StepKeepsConstraints(inv: Inv, slots: Id -> int, op: Operation)
    ensures Step(inv, slots, op).constraints == inv.constraints
  {
  }

  lemma OkIsLimited(inv: Inv, slots: Id -> int)
    requires Ok(inv, slots)
    ensures var k := inv.constraints;
      && (inv.back != [] ==> |inv.back| <= k.backMaxItems && Total(slots, inv.back) <= k.backSlots)
      && (inv.belt != [] ==> |inv.belt| <= k.beltMaxItems && Total(slots, inv.belt) <= k.beltSlots)
      && (inv.body != [] ==> |inv.body| <= k.bodyMaxItems && Total(slots, inv.body) <= k.bodySlots)
      && (inv.hands != [] ==> |inv.hands| <= k.handMaxItems && Total(slots, inv.hands) <= k.handSlots)
  {
    LimitedExactly(inv, slots);
  }

  // ---------- filling an empty inventory again ----------

  lemma {:induction false} FewerItems(slots: Id -> int, s: seq<Id>, t: seq<Id>)
    requires Sized(slots) && NoDup(s) && NoDup(t) && forall x :: x in s ==> x in t
    ensures |s| <= |t| && Total(slots, s) <= Total(slots, t)
    decreases |s|
  {
    if s == [] {
      TotalNotNegative(slots, t);
    } else {
      var init, x := s[..|s| - 1], s[|s| - 1];
      RemoveMembers(t, x);
      TotalRemove(slots, t, x);
      FewerItems(slots, init, Remove(t, x));
    }
  }

  lemma {:induction false} TotalNotNegative(slots: Id -> int, s: seq<Id>)
    requires Sized(slots)
    ensures 0 <= Total(slots, s)
  {
    if s != [] {
      TotalNotNegative(slots, s[..|s| - 1]);
    }
  }

  /** Putting the items of `order`, one after the other, into an empty inventory under their old names. */
  function Refill(inv: Inv, slots: Id -> int, order: seq<Id>): Option<Inv>
  {
    if order == [] then Some(EmptyInv(inv.constraints))
    else
      var x := order[|order| - 1];
      match Refill(inv, slots, order[..|order| - 1])
      case Some(w) => AfterAdd(w, slots, x, LabelFor(inv, x))
      case None => None
  }

  /** What has been put back so far leaves room for the next item. */
  lemma RoomForNext(inv: Inv, slots: Id -> int, w: Inv, x: Id, p: Place)
    requires Ok(inv, slots) && Sized(slots) && Separate(w) && w.constraints == inv.constraints
    requires PlaceFor(inv, x) == Some(p) && PlaceFor(w, x) == None
    requires forall y :: PlaceFor(w, y) == None || PlaceFor(w, y) == PlaceFor(inv, y)
    ensures Fits(w, slots, x, p)
  {
    var s, t := w.List(p) + [x], inv.List(p);
    forall y | y in s
      ensures y in t
    {
      PlaceForExactly(w, y, p);
      PlaceForExactly(inv, y, p);
    }
    PlaceForExactly(w, x, p);
    FewerItems(slots, s, t);
    assert s[..|s| - 1] == w.List(p);
    assert x in t;
  }

  /**
   * Putting everything back in any order never fails, and puts each item where it was. This is what
   * replaying a snapshot or migrating an actor relies on.
   */
  lemma {:induction false} RefillSucceeds(inv: Inv, slots: Id -> int, order: seq<Id>)
    requires Ok(inv, slots) && Sized(slots) && NoDup(order)
    requires forall x :: x in order ==> x in inv.Objects()
    ensures var r := Refill(inv, slots, order);
      && r.Some? && r.value.constraints == inv.constraints && Separate(r.value)
      && forall y :: PlaceFor(r.value, y) == if y in order then PlaceFor(inv, y) else None
  {
    if order != [] {
      var init, x := order[..|order| - 1], order[|order| - 1];
      RefillSucceeds(inv, slots, init);
      var w := Refill(inv, slots, init).value;
      ObjectsMembers(inv, x);
      ObjectsMembers(w, x);
      var p := PlaceFor(inv, x).value;
      hide Ok, Sized, Separate;
      RoomForNext(inv, slots, w, x, p);
      hide Fits;
      AddedSeparate(w, x, p);
      assert AddPlace(LabelOf(p)) == Some(p);
    }
  }

  // ---------- the inventory itself ----------

  /** None when all went well. */
  datatype InventoryError = UnknownSubcontainer | NoRoomForItem | TooLarge | NotInSource

  class ActorInventory {
    const constraints: Constraints
    const slots: Id -> int
    var back: seq<Id>
    var belt: seq<Id>
    var body: seq<Id>
    var hands: seq<Id>

    constructor (constraints: Constraints, slots: Id -> int)
      ensures this.slots == slots && Value() == EmptyInv(constraints)
    {
      this.constraints := constraints;
      this.slots := slots;
      back, belt, body, hands := [], [], [], [];
    }

    function Value(): Inv
      reads this
    {
      Inv(constraints, back, belt, body, hands)
    }

    method SlotsTaken(list: seq<Id>) returns (taken: int)
      ensures taken == Total(slots, list)
    {
      taken := 0;
      for i := 0 to |list|
        invariant taken == Total(slots, list[..i])
      {
        assert list[..i + 1][..i] == list[..i];
        taken := taken + Size(slots, list[i]);
      }
      assert list[..|list|] == list;
    }

    method SetList(p: Place, list: seq<Id>)
      modifies this
      ensures Value() == old(Value()).WithList(p, list)
    {
      match p
      case Back => back := list;
      case Belt => belt := list;
      case Body => body := list;
      case Hands => hands := list;
    }

    method AddObject(o: Id, subContainer: string) returns (err: Option<InventoryError>)
      modifies this
      ensures err == Some(UnknownSubcontainer) <==> subContainer !in {"any", "back", "belt", "body", "hands"}
      ensures err == Some(NoRoomForItem) <==>
        || (subContainer == "back" && |old(back)| >= constraints.backMaxItems)
        || (subContainer == "belt" && |old(belt)| >= constraints.beltMaxItems)
        || (subContainer == "body" && |old(body)| >= constraints.bodyMaxItems)
        || ((subContainer == "hands" || subContainer == "any") && |old(hands)| >= constraints.handMaxItems)
      ensures err.None? <==>
        || (subContainer == "back" && |old(back)| < constraints.backMaxItems
            && Total(slots, old(back)) + slots(o) <= constraints.backSlots)
        || (subContainer == "belt" && |old(belt)| < constraints.beltMaxItems
            && Total(slots, old(belt)) + slots(o) <= constraints.beltSlots)
        || (subContainer == "body" && |old(body)| < constraints.bodyMaxItems
            && Total(slots, old(body)) + slots(o) <= constraints.bodySlots)
        || ((subContainer == "hands" || subContainer == "any") && |old(hands)| < constraints.handMaxItems
            && Total(slots, old(hands)) + slots(o) <= constraints.handSlots)
      ensures back == old(back) + if err.None? && subContainer == "back" then [o] else []
      ensures belt == old(belt) + if err.None? && subContainer == "belt" then [o] else []
      ensures body == old(body) + if err.None? && subContainer == "body" then [o] else []
      ensures hands ==
        old(hands) + if err.None? && (subContainer == "hands" || subContainer == "any") then [o] else []
      ensures match AfterAdd(old(Value()), slots, o, subContainer)
        case Some(w) => err.None? && Value() == w
        case None => err.Some? && Value() == old(Value())
    {
      var place := AddPlace(subContainer);
      if place.None? {
        return Some(UnknownSubcontainer);
      }
      var subObjs := Value().List(place.value);
      if |subObjs| >= constraints.MaxItems(place.value) {
        return Some(NoRoomForItem);
      }
      var slotsTaken := SlotsTaken(subObjs);
      if slotsTaken + Size(slots, o) > constraints.Slots(place.value) {
        return Some(TooLarge);
      }
      SetList(place.value, subObjs + [o]);
      err := None;
    }

    method RemoveObject(o: Id)
      modifies this
      ensures back == Remove(old(back), o) && belt == Remove(old(belt), o)
      ensures body == Remove(old(body), o) && hands == Remove(old(hands), o)
      ensures Value() == Removed(old(Value()), o)
    {
      back := Remove(back, o);
      belt := Remove(belt, o);
      body := Remove(body, o);
      hands := Remove(hands, o);
    }

    method CheckMoveObjectToSubcontainer(o: Id, srcSub: string, dstSub: string) returns (err: Option<InventoryError>)
      ensures err == Some(UnknownSubcontainer) <==>
        srcSub !in {"back", "belt", "body", "hands"} || dstSub !in {"back", "belt", "body", "hands"}
      ensures err.None? <==> (
        && (|| (srcSub == "back" && o in back) || (srcSub == "belt" && o in belt)
            || (srcSub == "body" && o in body) || (srcSub == "hands" && o in hands))
        && (|| (dstSub == "back" && |back| < constraints.backMaxItems
                && Total(slots, back) + slots(o) <= constraints.backSlots)
            || (dstSub == "belt" && |belt| < constraints.beltMaxItems
                && Total(slots, belt) + slots(o) <= constraints.beltSlots)
            || (dstSub == "body" && |body| < constraints.bodyMaxItems
                && Total(slots, body) + slots(o) <= constraints.bodySlots)
            || (dstSub == "hands" && |hands| < constraints.handMaxItems
                && Total(slots, hands) + slots(o) <= constraints.handSlots)))
      ensures err.None? <==> (
        && PlaceOf(srcSub).Some? && PlaceOf(dstSub).Some?
        && CanMove(Value(), slots, o, PlaceOf(srcSub).value, PlaceOf(dstSub).value))
    {
      var src, dst := PlaceOf(srcSub), PlaceOf(dstSub);
      if src.None? || dst.None? {
        return Some(UnknownSubcontainer);
      }
      if o !in Value().List(src.value) {
        return Some(NotInSource);
      }
      var dstList := Value().List(dst.value);
      var dstSlotsTaken := SlotsTaken(dstList);
      if dstSlotsTaken + Size(slots, o) > constraints.Slots(dst.value) {
        return Some(TooLarge);
      }
      if |dstList| + 1 > constraints.MaxItems(dst.value) {
        return Some(NoRoomForItem);
      }
      err := None;
    }

    /** Unchecked: an unknown destination is noticed only when the item has left its source. */
    method MoveObjectToSubcontainer(o: Id, srcSub: string, dstSub: string) returns (err: Option<InventoryError>)
      modifies this
      ensures err.None? <==>
        srcSub in {"back", "belt", "body", "hands"} && dstSub in {"back", "belt", "body", "hands"}
      ensures back ==
        (if srcSub == "back" then Remove(old(back), o) else old(back)) +
        if err.None? && dstSub == "back" then [o] else []
      ensures belt ==
        (if srcSub == "belt" then Remove(old(belt), o) else old(belt)) +
        if err.None? && dstSub == "belt" then [o] else []
      ensures body ==
        (if srcSub == "body" then Remove(old(body), o) else old(body)) +
        if err.None? && dstSub == "body" then [o] else []
      ensures hands ==
        (if srcSub == "hands" then Remove(old(hands), o) else old(hands)) +
        if err.None? && dstSub == "hands" then [o] else []
      ensures PlaceOf(srcSub).None? ==> Value() == old(Value())
      ensures PlaceOf(srcSub).Some? && PlaceOf(dstSub).None? ==>
        Value() == old(Value()).WithList(PlaceOf(srcSub).value, Remove(old(Value()).List(PlaceOf(srcSub).value), o))
      ensures err.None? ==> Value() == MovedTo(old(Value()), o, PlaceOf(srcSub).value, PlaceOf(dstSub).value)
    {
      var src, dst := PlaceOf(srcSub), PlaceOf(dstSub);
      if src.None? {
        return Some(UnknownSubcontainer);
      }
      SetList(src.value, Remove(Value().List(src.value), o));
      if dst.None? {
        return Some(UnknownSubcontainer);
      }
      SetList(dst.value, Value().List(dst.value) + [o]);
      err := None;
    }

    /** copy(ol[idx:], part) */
    static method CopyAt(ol: array<Id>, idx: nat, part: seq<Id>)
      requires idx + |part| <= ol.Length
      modifies ol
      ensures ol[..idx + |part|] == old(ol[..idx]) + part
    {
      forall i | 0 <= i < |part| {
        ol[idx + i] := part[i];
      }
    }

    /** A copy of the four lists, one after the other. */
    method Objects() returns (ol: array<Id>)
      ensures fresh(ol) && ol[..] == back + belt + body + hands && ol[..] == Value().Objects()
    {
      ol := new Id[|back| + |belt| + |body| + |hands|](_ => NIL);
      var idx := 0;
      CopyAt(ol, idx, back);
      idx := idx + |back|;
      assert ol[..idx] == back;
      CopyAt(ol, idx, belt);
      idx := idx + |belt|;
      assert ol[..idx] == back + belt;
      CopyAt(ol, idx, body);
      idx := idx + |body|;
      assert ol[..idx] == back + belt + body;
      CopyAt(ol, idx, hands);
      assert ol[..] == ol[..idx + |hands|];
    }
  }
}
