/**
 * The two-way links of a zone: what each list operation does to them, and that applying an
 * acceptable event keeps them and has, seen without the lists, the effect of module ZoneViews.
 */
module ZoneLinks {
  import opened Wrappers
  import opened Bytes
  import opened UUIDLists
  import opened ZoneViews
  import opened Inventories
  import opened ZoneStates

  // ---------- inventories as lists ----------

  lemma NoDupConcat(s: seq<Id>, t: seq<Id>)
    ensures NoDup(s + t) <==> NoDup(s) && NoDup(t) && forall x :: x in s ==> x !in t
  {
    if NoDup(s + t) {
      forall i, j | 0 <= i < j < |s|
        ensures s[i] != s[j]
      {
        assert (s + t)[i] != (s + t)[j];
      }
      forall i, j | 0 <= i < j < |t|
        ensures t[i] != t[j]
      {
        assert (s + t)[|s| + i] != (s + t)[|s| + j];
      }
      forall i, j | 0 <= i < |s| && 0 <= j < |t|
        ensures s[i] != t[j]
      {
        assert (s + t)[i] != (s + t)[|s| + j];
      }
    } else if NoDup(s) && NoDup(t) {
      var i, j :| 0 <= i < j < |s + t| && (s + t)[i] == (s + t)[j];
      assert i < |s| && |s| <= j;
      assert s[i] in s && t[j - |s|] in t;
    }
  }

  /** No item is in two places: the four lists put together have no duplicate. */
  lemma SeparateIsNoDup(inv: Inv)
    ensures Separate(inv) <==> NoDup(inv.Objects())
  {
    NoDupConcat(inv.back, inv.belt);
    NoDupConcat(inv.back + inv.belt, inv.body);
    NoDupConcat(inv.back + inv.belt + inv.body, inv.hands);
    hide NoDup;
    assert inv.List(Back) == inv.back && inv.List(Belt) == inv.belt && inv.List(Body) == inv.body;
    assert inv.List(Hands) == inv.hands;
    if NoDup(inv.Objects()) {
      forall p: Place
        ensures NoDup(inv.List(p))
      {
        assert p == Back || p == Belt || p == Body || p == Hands;
      }
      forall p, q, x | p != q && x in inv.List(p)
        ensures x !in inv.List(q)
      {
        assert p == Back || p == Belt || p == Body || p == Hands;
        assert q == Back || q == Belt || q == Body || q == Hands;
      }
    }
  }

  // ---------- container lists ----------

  /** t is st but for what containers list. */
  ghost predicate SameButContents(st: ZoneState, t: ZoneState)
  {
    && t == st.(locations := t.locations, actors := t.actors, objects := t.objects)
    && t.locations.Keys == st.locations.Keys && t.actors.Keys == st.actors.Keys && t.objects.Keys == st.objects.Keys
    && (forall l :: l in st.locations ==> t.locations[l] == st.locations[l].(objects := t.locations[l].objects))
    && (forall a :: a in st.actors ==>
          && t.actors[a] == st.actors[a].(inventory := t.actors[a].inventory)
          && t.actors[a].inventory.constraints == st.actors[a].inventory.constraints)
    && forall o :: o in st.objects ==> t.objects[o] == st.objects[o].(contents := t.objects[o].contents)
  }

  lemma SameButContentsKeeps(st: ZoneState, t: ZoneState)
    requires SameButContents(st, t)
    ensures forall c :: Resolves(t, c) <==> Resolves(st, c)
    ensures ActorsListed(st) ==> ActorsListed(t)
    ensures ExitsListed(st) ==> ExitsListed(t)
    ensures ConstraintsKept(st) ==> ConstraintsKept(t)
  {
  }

  lemma RemoveObjectShape(st: ZoneState, c: Container, o: Id)
    ensures SameButContents(st, RemoveObject(st, c, o))
    ensures forall d :: d != c && Resolves(st, d) ==>
      Resolves(RemoveObject(st, c, o), d) && Contents(RemoveObject(st, c, o), d) == Contents(st, d)
    ensures forall d, y :: d != c ==> PlaceWithin(RemoveObject(st, c, o), d, y) == PlaceWithin(st, d, y)
  {
    if c.InActor? {
      RemoveFromActorShape(st, c.id, o);
    } else {
      RemoveElsewhereShape(st, c, o);
    }
    hide RemoveObject, SameButContents, Contents, PlaceWithin;
  }

  lemma RemoveFromActorShape(st: ZoneState, a: Id, o: Id)
    ensures var t := RemoveObject(st, InActor(a), o);
      && SameButContents(st, t)
      && (forall d :: d != InActor(a) && Resolves(st, d) ==> Resolves(t, d) && Contents(t, d) == Contents(st, d))
      && forall d, y :: d != InActor(a) ==> PlaceWithin(t, d, y) == PlaceWithin(st, d, y)
  {
    hide PlaceFor, Inv.Objects;
    var t := RemoveObject(st, InActor(a), o);
    if a in st.actors {
      assert t.actors[a].inventory.constraints == st.actors[a].inventory.constraints;
      assert forall b :: b in st.actors && b != a ==> t.actors[b] == st.actors[b];
      hide Removed;
    }
  }

  lemma RemoveElsewhereShape(st: ZoneState, c: Container, o: Id)
    requires !c.InActor?
    ensures var t := RemoveObject(st, c, o);
      && SameButContents(st, t)
      && (forall d :: d != c && Resolves(st, d) ==> Resolves(t, d) && Contents(t, d) == Contents(st, d))
      && forall d, y :: d != c ==> PlaceWithin(t, d, y) == PlaceWithin(st, d, y)
  {
    hide Remove, PlaceFor, Inv.Objects;
  }

  /** removeObject takes the object, and no other, off the container's list. */
  lemma RemoveObjectContents(st: ZoneState, c: Container, o: Id)
    requires Resolves(st, c) && NoDup(Contents(st, c))
    ensures var t := RemoveObject(st, c, o);
      && Resolves(t, c) && NoDup(Contents(t, c))
      && (forall y :: y in Contents(t, c) <==> y in Contents(st, c) && y != o)
      && forall y :: PlaceWithin(t, c, y) == if y == o then None else PlaceWithin(st, c, y)
  {
    var t := RemoveObject(st, c, o);
    hide NoDup, Remove;
    match c
    case InLocation(l) => RemoveMembers(st.locations[l].objects, o);
    case InObject(y) => RemoveMembers(st.objects[y].contents, o);
    case InActor(a) =>
      var inv := st.actors[a].inventory;
      SeparateIsNoDup(inv);
      RemovedMembers(inv, o);
      SeparateIsNoDup(Removed(inv, o));
      hide Removed, Separate, PlaceFor;
      forall y
        ensures y in Contents(t, c) <==> y in Contents(st, c) && y != o
      {
        ObjectsMembers(inv, y);
        ObjectsMembers(Removed(inv, o), y);
      }
  }

  lemma AddObjectShape(st: ZoneState, c: Container, o: Id, sub: string)
    requires Resolves(st, c) && AddObject(st, c, o, sub).Some?
    ensures var t := AddObject(st, c, o, sub).value;
      && SameButContents(st, t)
      && (forall d :: d != c && Resolves(st, d) ==> Contents(t, d) == Contents(st, d))
      && forall d, y :: d != c ==> PlaceWithin(t, d, y) == PlaceWithin(st, d, y)
  {
  }

  /** addObject puts the object, and no other, on the container's list, at the named place. */
  lemma AddObjectContents(st: ZoneState, c: Container, o: Id, sub: string)
    requires Resolves(st, c) && NoDup(Contents(st, c)) && o !in Contents(st, c) && AddObject(st, c, o, sub).Some?
    ensures var t := AddObject(st, c, o, sub).value;
      && Resolves(t, c) && NoDup(Contents(t, c))
      && (forall y :: y in Contents(t, c) <==> y in Contents(st, c) || y == o)
      && forall y :: PlaceWithin(t, c, y) == if y == o then PlaceIn(c, sub) else PlaceWithin(st, c, y)
  {
    var t := AddObject(st, c, o, sub).value;
    hide NoDup;
    match c
    case InLocation(l) => NoDupSnoc(st.locations[l].objects, o);
    case InObject(y) => NoDupSnoc(st.objects[y].contents, o);
    case InActor(a) =>
      var inv, p := st.actors[a].inventory, AddPlace(sub).value;
      SeparateIsNoDup(inv);
      AddedSeparate(inv, o, p);
      SeparateIsNoDup(Added(inv, o, p));
      hide Added, Separate, PlaceFor;
      assert t.actors[a].inventory == Added(inv, o, p);
      forall y
        ensures y in Contents(t, c) <==> y in Contents(st, c) || y == o
      {
        ObjectsMembers(inv, y);
        ObjectsMembers(Added(inv, o, p), y);
      }
  }

  /** The lists are right, but o is on none of them. */
  ghost predicate ListedBut(st: ZoneState, o: Id)
  {
    forall c :: Resolves(st, c) ==>
      && NoDup(Contents(st, c)) && o !in Contents(st, c)
      && forall y :: y != o ==> (y in Contents(st, c) <==> y in st.objects && st.objects[y].container == c)
  }

  lemma RemovedIsListedBut(st: ZoneState, o: Id)
    requires ObjectsListed(st) && o in st.objects
    ensures ListedBut(RemoveObject(st, st.objects[o].container, o), o)
  {
    var c := st.objects[o].container;
    var t := RemoveObject(st, c, o);
    RemoveObjectShape(st, c, o);
    SameButContentsKeeps(st, t);
    hide RemoveObject, NoDup;
    forall d | Resolves(t, d)
      ensures NoDup(Contents(t, d)) && o !in Contents(t, d)
      ensures forall y :: y != o ==> (y in Contents(t, d) <==> y in t.objects && t.objects[y].container == d)
    {
      assert Lists(st, d);
      if d == c {
        RemoveObjectContents(st, c, o);
      }
    }
  }

  lemma NoDupEmpty()
    ensures NoDup([])
  {
  }

  lemma SetObjectContents(t: ZoneState, o: Id, x: ObjectState, d: Container)
    requires Resolves(t.(objects := t.objects[o := x]), d)
    requires o in t.objects ==> x.contents == t.objects[o].contents
    ensures if d == InObject(o) && o !in t.objects then Contents(t.(objects := t.objects[o := x]), d) == x.contents
            else Resolves(t, d) && Contents(t.(objects := t.objects[o := x]), d) == Contents(t, d)
  {
  }

  lemma AddedObjects(st: ZoneState, c: Container, o: Id, sub: string, t: ZoneState, x: ObjectState)
    requires Resolves(st, c) && AddObject(st, c, o, sub) == Some(t)
    ensures var u := t.(objects := t.objects[o := x]);
      && u.objects.Keys == st.objects.Keys + {o} && t.objects.Keys == st.objects.Keys
      && forall y :: y in st.objects && y != o ==> u.objects[y].container == st.objects[y].container
  {
  }

  lemma AddedIsListed(st: ZoneState, c: Container, o: Id, sub: string, t: ZoneState, x: ObjectState)
    requires ListedBut(st, o) && Resolves(st, c) && AddObject(st, c, o, sub) == Some(t) && x.container == c
    requires o in t.objects ==> x.contents == t.objects[o].contents
    requires o !in t.objects ==> x.contents == [] && forall y :: y in st.objects ==>
      st.objects[y].container != InObject(o)
    ensures ObjectsListed(t.(objects := t.objects[o := x]))
  {
    var u := t.(objects := t.objects[o := x]);
    AddObjectShape(st, c, o, sub);
    AddObjectContents(st, c, o, sub);
    SameButContentsKeeps(st, t);
    AddedObjects(st, c, o, sub, t, x);
    assert o !in t.objects ==> !Resolves(st, InObject(o));
    hide SameButContents, Contents, AddObject, NoDup, PlaceWithin, PlaceIn, ListedBut;
    forall d | Resolves(u, d)
      ensures Lists(u, d)
    {
      hide Lists;
      SetObjectContents(t, o, x, d);
      NoDupEmpty();
      AddedLists(st, t, u, c, o, d);
    }
  }

  lemma AddedLists(st: ZoneState, t: ZoneState, u: ZoneState, c: Container, o: Id, d: Container)
    requires ListedBut(st, o) && Resolves(st, c) && Resolves(t, c) && Resolves(u, d)
    requires NoDup(Contents(t, c)) && forall y :: y in Contents(t, c) <==> y in Contents(st, c) || y == o
    requires u.objects.Keys == st.objects.Keys + {o} && u.objects[o].container == c
    requires forall y :: y in st.objects && y != o ==> u.objects[y].container == st.objects[y].container
    requires
      if Resolves(st, d) then Resolves(t, d) && Contents(u, d) == Contents(t, d)
        && (d != c ==> Contents(t, d) == Contents(st, d))
      else d == InObject(o) && Contents(u, d) == [] && forall y :: y in st.objects ==> st.objects[y].container != d
    ensures Lists(u, d)
  {
    NoDupEmpty();
    hide NoDup, Contents, Resolves;
  }

  // ---------- objects ----------

  /** Actors have every other object at the same place. */
  ghost predicate SamePlacesBut(st: ZoneState, t: ZoneState, o: Id)
  {
    forall d, y :: y != o ==> PlaceWithin(t, d, y) == PlaceWithin(st, d, y)
  }

  lemma PlacesAfterRemove(st: ZoneState, c: Container, o: Id)
    requires ObjectsListed(st)
    ensures SamePlacesBut(st, RemoveObject(st, c, o), o)
  {
    RemoveObjectShape(st, c, o);
    if Resolves(st, c) {
      assert Lists(st, c);
      RemoveObjectContents(st, c, o);
    }
    hide RemoveObject, PlaceWithin;
  }

  lemma PlacesAfterAdd(st: ZoneState, c: Container, o: Id, sub: string)
    requires ListedBut(st, o) && Resolves(st, c) && AddObject(st, c, o, sub).Some?
    ensures var t := AddObject(st, c, o, sub).value;
      && SamePlacesBut(st, t, o)
      && PlaceWithin(t, c, o) == PlaceIn(c, sub)
  {
    AddObjectShape(st, c, o, sub);
    AddObjectContents(st, c, o, sub);
    hide AddObject, PlaceWithin, PlaceIn;
  }

  /** Locations and actors look the same. */
  lemma SameBasics(st: ZoneState, t: ZoneState)
    requires t.locations.Keys == st.locations.Keys && t.actors.Keys == st.actors.Keys
    requires forall l :: l in st.locations ==> t.locations[l].info == st.locations[l].info
    requires forall a :: a in st.actors ==>
      t.actors[a].info == st.actors[a].info && t.actors[a].location == st.actors[a].location
    ensures LocationViews(t) == LocationViews(st) && ActorViews(t) == ActorViews(st)
  {
  }

  lemma SameObjectViews(st: ZoneState, t: ZoneState)
    requires t.objects == st.objects
    requires forall o :: o in st.objects ==>
      PlaceWithin(t, st.objects[o].container, o) == PlaceWithin(st, st.objects[o].container, o)
    ensures ObjectViews(t) == ObjectViews(st)
  {
    hide PlaceWithin;
  }

  /** What is seen of a zone whose lists changed about and in which x was put for o. */
  lemma ViewWithObject(st: ZoneState, t: ZoneState, o: Id, x: ObjectState)
    requires SameButContents(st, t)
    requires SamePlacesBut(st, t, o)
    ensures ViewOf(t.(objects := t.objects[o := x])) ==
      ViewOf(st).(objects := ViewOf(st).objects[o := ObjectView(x.info, x.container, PlaceWithin(t, x.container, o))])
  {
    var u := t.(objects := t.objects[o := x]);
    SameBasics(st, u);
    PlacesIgnoreObjects(t, u);
    hide PlaceWithin, LocationViews, ActorViews;
    ObjectViewsWith(st, t, o, x);
    hide ObjectViews;
  }

  lemma PlacesIgnoreObjects(t: ZoneState, u: ZoneState)
    requires u.actors == t.actors
    ensures forall d, y :: PlaceWithin(u, d, y) == PlaceWithin(t, d, y)
  {
    hide PlaceFor;
  }

  lemma ObjectViewsWith(st: ZoneState, t: ZoneState, o: Id, x: ObjectState)
    requires t.objects.Keys == st.objects.Keys
    requires forall y :: y in st.objects ==>
      t.objects[y].info == st.objects[y].info && t.objects[y].container == st.objects[y].container
    requires SamePlacesBut(st, t, o)
    requires forall d, y :: PlaceWithin(t.(objects := t.objects[o := x]), d, y) == PlaceWithin(t, d, y)
    ensures ObjectViews(t.(objects := t.objects[o := x])) ==
      ObjectViews(st)[o := ObjectView(x.info, x.container, PlaceWithin(t, x.container, o))]
  {
    hide PlaceWithin;
  }

  /** A new object, once its container has taken it. */
  lemma PutObjectAgrees(st: ZoneState, o: Id, info: ObjectInfo, c: Container, sub: string)
    requires Linked(st) && o !in st.objects && Vacant(ViewOf(st), InObject(o))
    requires PutObject(st, o, info, c, sub).1 == Done
    ensures var t := PutObject(st, o, info, c, sub).0;
      && Linked(t)
      && ViewOf(t) == ViewOf(st).(objects := ViewOf(st).objects[o := ObjectView(info, c, PlaceIn(c, sub))])
  {
    NewIsListedBut(st, o);
    NewIsTaken(st, c, o, sub);
    hide AddNewObject;
    var t := AddObject(st, c, o, sub).value;
    var x := ObjectState(info, c, []);
    forall y | y in st.objects
      ensures st.objects[y].container != InObject(o)
    {
      assert ViewOf(st).objects[y].container == st.objects[y].container;
    }
    AddObjectShape(st, c, o, sub);
    SameButContentsKeeps(st, t);
    AddedIsListed(st, c, o, sub, t, x);
    PlacesAfterAdd(st, c, o, sub);
    ViewWithObject(st, t, o, x);
    hide AddObject, SameButContents, ViewOf, PlaceWithin, PlaceIn, ObjectsListed, ListedBut;
    SameLists(t, t.(objects := t.objects[o := x]));
  }

  /** Where an entity is on no list, it makes no difference that it has just been made. */
  lemma NewIsTaken(st: ZoneState, c: Container, o: Id, sub: string)
    requires Resolves(st, c) && ListedBut(st, o)
    ensures AddNewObject(st, c, o, sub) == AddObject(st, c, o, sub)
  {
    assert o !in Contents(st, c);
    hide NoDup, AfterAdd;
  }

  lemma NewIsListedBut(st: ZoneState, o: Id)
    requires ObjectsListed(st) && o !in st.objects
    ensures ListedBut(st, o)
  {
    hide NoDup, Contents;
    assert forall c :: Resolves(st, c) ==> Lists(st, c);
  }

  lemma SameLists(st: ZoneState, t: ZoneState)
    requires t.locations == st.locations && t.actors == st.actors && t.exits == st.exits
    ensures ActorsListed(st) <==> ActorsListed(t)
    ensures ExitsListed(st) <==> ExitsListed(t)
    ensures ConstraintsKept(st) <==> ConstraintsKept(t)
  {
    hide NoDup;
  }

  /** An object that was moved, once its new container has taken it. */
  lemma MoveObjectAgrees(st: ZoneState, o: Id, c: Container, sub: string)
    requires Linked(st) && o in st.objects && Resolves(st, c)
    requires MoveObject(st, o, st.objects[o].container, c, sub).1 == Done
    ensures var t := MoveObject(st, o, st.objects[o].container, c, sub).0;
      && Linked(t)
      && ViewOf(t) ==
         ViewOf(st).(objects := ViewOf(st).objects[o := ObjectView(st.objects[o].info, c, PlaceIn(c, sub))])
  {
    var from := st.objects[o].container;
    var out := RemoveObject(st, from, o);
    RemoveObjectShape(st, from, o);
    SameButContentsKeeps(st, out);
    RemovedIsListedBut(st, o);
    PlacesAfterRemove(st, from, o);
    var t := AddObject(out, c, o, sub).value;
    AddObjectShape(out, c, o, sub);
    SameButContentsKeeps(out, t);
    var x := t.objects[o].(container := c);
    assert x.info == st.objects[o].info;
    AddedIsListed(out, c, o, sub, t, x);
    PlacesAfterAdd(out, c, o, sub);
    SameButContentsTrans(st, out, t);
    hide AddObject, RemoveObject, SameButContents, ViewOf, PlaceWithin, PlaceIn, ObjectsListed, ListedBut;
    ViewWithObject(st, t, o, x);
    SameLists(t, t.(objects := t.objects[o := x]));
  }

  lemma SameButContentsTrans(st: ZoneState, t: ZoneState, u: ZoneState)
    requires SameButContents(st, t) && SameButContents(t, u)
    ensures SameButContents(st, u)
  {
  }

  lemma WithoutObjectListed(st: ZoneState, o: Id)
    requires ListedBut(st, o)
    ensures ObjectsListed(st.(objects := st.objects - {o}))
  {
    var t := st.(objects := st.objects - {o});
    forall d | Resolves(t, d)
      ensures Lists(t, d)
    {
      assert Resolves(st, d) && Contents(t, d) == Contents(st, d);
      hide NoDup, Contents;
    }
  }

  lemma ViewWithoutObject(st: ZoneState, t: ZoneState, o: Id)
    requires SameButContents(st, t)
    requires SamePlacesBut(st, t, o)
    ensures ViewOf(t.(objects := t.objects - {o})) == ViewOf(st).(objects := ViewOf(st).objects - {o})
  {
    var u := t.(objects := t.objects - {o});
    SameBasics(st, u);
    PlacesIgnoreObjects(t, u);
    hide PlaceWithin, LocationViews, ActorViews;
    assert ObjectViews(u) == ObjectViews(st) - {o};
  }

  /** An object taken off its container's list and out of the zone. */
  lemma DropObjectAgrees(st: ZoneState, o: Id)
    requires Linked(st) && o in st.objects
    ensures Linked(DropObject(st, o))
    ensures ViewOf(DropObject(st, o)) == ViewOf(st).(objects := ViewOf(st).objects - {o})
  {
    var c := st.objects[o].container;
    var out := RemoveObject(st, c, o);
    RemoveObjectShape(st, c, o);
    SameButContentsKeeps(st, out);
    RemovedIsListedBut(st, o);
    PlacesAfterRemove(st, c, o);
    hide RemoveObject, SameButContents, ListedBut, ObjectsListed, ViewOf, PlaceWithin;
    WithoutObjectListed(out, o);
    ViewWithoutObject(st, out, o);
    SameLists(out, out.(objects := out.objects - {o}));
  }

  // ---------- room ----------

  lemma {:induction false} NoSizeTotal(s: seq<Id>)
    ensures Total(NoSize, s) == 0
  {
    if s != [] {
      NoSizeTotal(s[..|s| - 1]);
    }
  }

  lemma {:induction false} NoDupSize(s: seq<Id>, t: set<Id>)
    requires NoDup(s) && forall x :: x in s <==> x in t
    ensures |s| == |t|
  {
    if s == [] {
      assert t == {};
    } else {
      NoDupTail(s);
      NoDupSize(s[1..], t - {s[0]});
    }
  }

  /** o is on no list of out, which is otherwise as st: then exactly where the view has room is o taken. */
  lemma RoomExactly(st: ZoneState, out: ZoneState, c: Container, o: Id, sub: string)
    requires ObjectsListed(st) && ConstraintsKept(st) && SameButContents(st, out) && ListedBut(out, o)
    requires SamePlacesBut(st, out, o)
    requires Resolves(out, c)
    ensures AddObject(out, c, o, sub).Some? <==> Room(ViewOf(st), o, c, sub)
  {
    SameButContentsKeeps(st, out);
    if c.InActor? {
      assert Room(ViewOf(st), o, c, sub) <==>
             AddPlace(sub).Some? && RoomAt(ViewOf(st), o, c.id, AddPlace(sub).value);
      hide Room, ListedBut, SameButContents, ViewOf, AfterAdd;
      TakenByActor(st, out, c.id, o, sub);
    } else {
      assert o !in Contents(out, c);
      hide ListedBut, ObjectsListed, ConstraintsKept, SamePlacesBut, NoDup;
    }
  }

  /** An actor takes it exactly where the view has room at the place. */
  lemma TakenByActor(st: ZoneState, out: ZoneState, a: Id, o: Id, sub: string)
    requires ObjectsListed(st) && ConstraintsKept(st) && SameButContents(st, out) && ListedBut(out, o)
    requires SamePlacesBut(st, out, o) && a in st.actors && a in out.actors && a in ViewOf(st).actors
    ensures AfterAdd(out.actors[a].inventory, NoSize, o, sub).Some? <==>
            AddPlace(sub).Some? && RoomAt(ViewOf(st), o, a, AddPlace(sub).value)
  {
    if AddPlace(sub).Some? {
      var p := AddPlace(sub).value;
      ActorRoom(st, out, a, o, p);
      NoSizeTotal(out.actors[a].inventory.List(p));
      assert ViewOf(st).actors[a].info.constraints == out.actors[a].inventory.constraints;
      assert o !in Contents(out, InActor(a));
      hide ObjectsListed, ListedBut, SamePlacesBut, ViewOf, At;
    }
  }

  lemma ActorRoom(st: ZoneState, out: ZoneState, a: Id, o: Id, p: Place)
    requires ObjectsListed(st) && a in st.actors && a in out.actors && ListedBut(out, o)
    requires SamePlacesBut(st, out, o)
    ensures |out.actors[a].inventory.List(p)| == |At(ViewOf(st), a, p) - {o}|
  {
    var inv, list, at := out.actors[a].inventory, out.actors[a].inventory.List(p), At(ViewOf(st), a, p);
    assert Resolves(st, InActor(a)) && Resolves(out, InActor(a));
    SeparateIsNoDup(inv);
    ListsArePlaces(inv);
    forall y
      ensures y in list <==> y in at - {o}
    {
      ObjectsMembers(inv, y);
      AtExactly(st, a, p, y);
      assert PlaceWithin(out, InActor(a), y) == PlaceFor(inv, y);
    }
    NoDupSize(list, at - {o});
  }

  /** What the view has at a place is what the inventory says is there. */
  lemma AtExactly(st: ZoneState, a: Id, p: Place, y: Id)
    requires ObjectsListed(st) && a in st.actors
    ensures y in At(ViewOf(st), a, p) <==> PlaceWithin(st, InActor(a), y) == Some(p)
  {
    assert Lists(st, InActor(a));
    ObjectsMembers(st.actors[a].inventory, y);
  }

  // ---------- places ----------

  /** Changing one inventory without changing what it holds. */
  lemma RearrangedLinked(st: ZoneState, a: Id, inv: Inv)
    requires Linked(st) && a in st.actors && Separate(inv) && inv.constraints == st.actors[a].inventory.constraints
    requires forall y :: PlaceFor(inv, y).Some? <==> PlaceFor(st.actors[a].inventory, y).Some?
    ensures Linked(WithInventory(st, a, inv))
  {
    var t := WithInventory(st, a, inv);
    SeparateIsNoDup(inv);
    forall d | Resolves(t, d)
      ensures Lists(t, d)
    {
      assert Lists(st, d);
      if d == InActor(a) {
        forall y
          ensures y in Contents(t, d) <==> y in Contents(st, d)
        {
          ObjectsMembers(inv, y);
          ObjectsMembers(st.actors[a].inventory, y);
        }
      } else {
        assert Contents(t, d) == Contents(st, d);
      }
    }
    hide NoDup, Contents;
    assert ActorsListed(t) && ExitsListed(t);
  }

  lemma MovedPlaces(inv: Inv, o: Id, src: Place, dst: Place)
    requires Separate(inv) && PlaceFor(inv, o) == Some(src)
    ensures Separate(MovedTo(inv, o, src, dst)) && MovedTo(inv, o, src, dst).constraints == inv.constraints
    ensures forall y :: PlaceFor(MovedTo(inv, o, src, dst), y) == if y == o then Some(dst) else PlaceFor(inv, y)
  {
    PlaceForExactly(inv, o, src);
    MovedAsRemoved(inv, o, src, dst);
    RemovedMembers(inv, o);
    hide Separate;
    var out := Removed(inv, o);
    ObjectsMembers(out, o);
    AddedSeparate(out, o, dst);
  }

  lemma ViewRearranged(st: ZoneState, a: Id, inv: Inv, o: Id, dst: Place)
    requires a in st.actors && o in st.objects && st.objects[o].container == InActor(a)
    requires forall y :: PlaceFor(inv, y) == if y == o then Some(dst) else PlaceFor(st.actors[a].inventory, y)
    ensures ViewOf(WithInventory(st, a, inv)) ==
      ViewOf(st).(objects := ViewOf(st).objects[o := ViewOf(st).objects[o].(place := Some(dst))])
  {
    hide PlaceFor;
    var t := WithInventory(st, a, inv);
    SameBasics(st, t);
    hide LocationViews, ActorViews;
    assert ObjectViews(t) == ObjectViews(st)[o := ObjectViewOf(st, o).(place := Some(dst))];
  }

  lemma ListedAt(st: ZoneState, o: Id, a: Id)
    requires ObjectsListed(st) && o in st.objects && st.objects[o].container == InActor(a) && a in st.actors
    ensures Separate(st.actors[a].inventory) && PlaceFor(st.actors[a].inventory, o).Some?
    ensures PlaceWithin(st, InActor(a), o) == PlaceFor(st.actors[a].inventory, o)
  {
    assert Lists(st, InActor(a));
    SeparateIsNoDup(st.actors[a].inventory);
    ObjectsMembers(st.actors[a].inventory, o);
  }

  lemma MoveSubcontainerAgrees(st: ZoneState, o: Id, fromSub: string, sub: string)
    requires Linked(st) && o in st.objects && st.objects[o].container.InActor? && Resolves(st, st.objects[o].container)
    requires PlaceOf(fromSub) == PlaceWithin(st, st.objects[o].container, o) && PlaceOf(sub).Some?
    ensures var (t, ok) := MoveSubcontainer(st, st.objects[o].container, o, fromSub, sub);
      && ok && Linked(t)
      && ViewOf(t) == ViewOf(st).(objects := ViewOf(st).objects[o := ViewOf(st).objects[o].(place := PlaceOf(sub))])
  {
    var a, dst := st.objects[o].container.id, PlaceOf(sub).value;
    var inv := st.actors[a].inventory;
    ListedAt(st, o, a);
    var src := PlaceOf(fromSub).value;
    MovedPlaces(inv, o, src, dst);
    hide MovedTo, PlaceFor, Separate, ViewOf, ActorsListed, ExitsListed, ObjectsListed, ConstraintsKept;
    RearrangedLinked(st, a, MovedTo(inv, o, src, dst));
    ViewRearranged(st, a, MovedTo(inv, o, src, dst), o, dst);
  }

  /** An object put on a list it was on already, or on two, is listed twice. */
  lemma AddedTwice(inv: Inv, o: Id, at: Place, dst: Place)
    requires o in inv.List(at)
    ensures !Separate(Added(inv, o, dst))
  {
    var s := inv.List(dst);
    if at == dst {
      var i :| 0 <= i < |s| && s[i] == o;
      assert (s + [o])[i] == (s + [o])[|s|];
      assert !NoDup(s + [o]);
    } else {
      assert o in Added(inv, o, dst).List(at) && o in Added(inv, o, dst).List(dst);
    }
  }

  lemma NotSeparateNotLinked(st: ZoneState, a: Id, inv: Inv)
    requires a in st.actors && !Separate(inv)
    ensures !Linked(WithInventory(st, a, inv))
  {
    var t := WithInventory(st, a, inv);
    SeparateIsNoDup(inv);
    hide NoDup, Separate;
    assert Resolves(t, InActor(a)) && !Lists(t, InActor(a));
  }

  lemma LostNotLinked(st: ZoneState, a: Id, inv: Inv, o: Id)
    requires a in st.actors && o in st.objects && st.objects[o].container == InActor(a) && PlaceFor(inv, o).None?
    ensures !Linked(WithInventory(st, a, inv))
  {
    var t := WithInventory(st, a, inv);
    ObjectsMembers(inv, o);
    hide NoDup, PlaceFor;
    assert Resolves(t, InActor(a)) && !Lists(t, InActor(a));
  }

  lemma RemovedWhereItIs(inv: Inv, o: Id, at: Place, src: Place)
    requires Separate(inv) && PlaceFor(inv, o) == Some(at)
    ensures src == at ==> PlaceFor(inv.WithList(src, Remove(inv.List(src), o)), o).None?
    ensures src != at ==> inv.WithList(src, Remove(inv.List(src), o)) == inv
  {
    PlaceForExactly(inv, o, src);
    PlaceForExactly(inv, o, at);
    if src == at {
      RemoveMembers(inv.List(src), o);
      var r := inv.WithList(src, Remove(inv.List(src), o));
      forall p: Place
        ensures o !in r.List(p)
      {
        assert p != src ==> r.List(p) == inv.List(p);
      }
      assert o !in r.List(Back) && o !in r.List(Belt) && o !in r.List(Body) && o !in r.List(Hands);
    }
  }

  /**
   * A move between places keeps the links exactly when it changes nothing because the first name
   * is unknown, or takes the object from where it is to a place there is, or takes nothing from
   * where the object is not and puts it nowhere.
   */
  lemma MoveSubcontainerExactly(st: ZoneState, o: Id, fromSub: string, sub: string)
    requires Linked(st) && o in st.objects && st.objects[o].container.InActor? && Resolves(st, st.objects[o].container)
    ensures Linked(MoveSubcontainer(st, st.objects[o].container, o, fromSub, sub).0) <==>
      (PlaceOf(fromSub).Some? ==>
        (PlaceOf(fromSub) == PlaceWithin(st, st.objects[o].container, o) <==> PlaceOf(sub).Some?))
  {
    hide Linked, PlaceFor, PlaceOf, WithInventory, MovedTo;
    var a, inv := st.objects[o].container.id, st.actors[st.objects[o].container.id].inventory;
    if PlaceOf(fromSub).Some? {
      AnyMoveExactly(st, o, a, inv, PlaceOf(fromSub).value, PlaceOf(sub));
    }
  }

  lemma AnyMoveExactly(st: ZoneState, o: Id, a: Id, inv: Inv, src: Place, dst: Option<Place>)
    requires Linked(st) && o in st.objects && st.objects[o].container == InActor(a) && a in st.actors
    requires inv == st.actors[a].inventory
    ensures var moved := if dst.Some? then MovedTo(inv, o, src, dst.value)
      else inv.WithList(src, Remove(inv.List(src), o));
      Linked(WithInventory(st, a, moved)) <==> (PlaceWithin(st, InActor(a), o) == Some(src) <==> dst.Some?)
  {
    hide Linked, PlaceWithin, WithInventory, MovedTo, Remove;
    if dst.None? {
      LostExactly(st, o, a, inv, src);
    } else {
      MovedExactly(st, o, a, inv, src, dst.value);
    }
  }

  /** Taken off a list and put on none, it is lost, unless it was not there. */
  lemma LostExactly(st: ZoneState, o: Id, a: Id, inv: Inv, src: Place)
    requires Linked(st) && o in st.objects && st.objects[o].container == InActor(a) && a in st.actors
    requires inv == st.actors[a].inventory
    ensures Linked(WithInventory(st, a, inv.WithList(src, Remove(inv.List(src), o)))) <==>
            PlaceWithin(st, InActor(a), o) != Some(src)
  {
    hide *;
    LinkedObjects(st);
    ListedAt(st, o, a);
    var at := PlaceFor(inv, o).value;
    RemovedWhereItIs(inv, o, at, src);
    if src == at {
      LostNotLinked(st, a, inv.WithList(src, Remove(inv.List(src), o)), o);
    } else {
      SameInventory(st, a);
    }
  }

  lemma LinkedObjects(st: ZoneState)
    requires Linked(st)
    ensures ObjectsListed(st)
  {
  }

  lemma SameInventory(st: ZoneState, a: Id)
    requires a in st.actors
    ensures WithInventory(st, a, st.actors[a].inventory) == st
  {
  }

  /** Moved from where it is not, it is listed twice. */
  lemma MovedExactly(st: ZoneState, o: Id, a: Id, inv: Inv, src: Place, dst: Place)
    requires Linked(st) && o in st.objects && st.objects[o].container == InActor(a) && a in st.actors
    requires inv == st.actors[a].inventory
    ensures Linked(WithInventory(st, a, MovedTo(inv, o, src, dst))) <==> PlaceWithin(st, InActor(a), o) == Some(src)
  {
    assert ObjectsListed(st);
    hide Linked, ObjectsListed;
    ListedAt(st, o, a);
    var at := PlaceFor(inv, o).value;
    RemovedWhereItIs(inv, o, at, src);
    PlaceForExactly(inv, o, at);
    hide PlaceFor, PlaceWithin, Separate, NoDup, Remove, WithInventory;
    if src == at {
      MovedLinked(st, a, inv, o, src, dst);
    } else {
      AddedTwice(inv, o, at, dst);
      NotSeparateNotLinked(st, a, MovedTo(inv, o, src, dst));
    }
  }

  lemma MovedLinked(st: ZoneState, a: Id, inv: Inv, o: Id, src: Place, dst: Place)
    requires Linked(st) && a in st.actors && inv == st.actors[a].inventory && Separate(inv)
    requires PlaceFor(inv, o) == Some(src)
    ensures Linked(WithInventory(st, a, MovedTo(inv, o, src, dst)))
  {
    MovedPlaces(inv, o, src, dst);
    hide MovedTo, PlaceFor, Separate, Linked;
    RearrangedLinked(st, a, MovedTo(inv, o, src, dst));
  }

  // ---------- actors ----------

  /** t is st but for the lists of actors; each still lists nobody twice. */
  ghost predicate SameButActorLists(st: ZoneState, t: ZoneState)
  {
    && t == st.(locations := t.locations) && t.locations.Keys == st.locations.Keys
    && forall l :: l in st.locations ==>
         t.locations[l] == st.locations[l].(actors := t.locations[l].actors) && NoDup(t.locations[l].actors)
  }

  lemma RemovedActorLists(st: ZoneState, a: Id, from: Id)
    requires forall l :: l in st.locations ==> NoDup(st.locations[l].actors)
    ensures var out := RemoveActor(st, from, a);
      && SameButActorLists(st, out)
      && forall l, b :: l in st.locations ==>
           (b in out.locations[l].actors <==> b in st.locations[l].actors && !(b == a && l == from))
  {
    if from in st.locations {
      RemoveMembers(st.locations[from].actors, a);
    }
    hide Remove, NoDup;
  }

  lemma AddedActorLists(st: ZoneState, a: Id, to: Id)
    requires to in st.locations && forall l :: l in st.locations ==> NoDup(st.locations[l].actors)
    ensures var t := AddActor(st, to, a);
      && SameButActorLists(st, t)
      && forall l, b :: l in st.locations ==>
           (b in t.locations[l].actors <==> b in st.locations[l].actors || (b == a && l == to))
  {
    if a !in st.locations[to].actors {
      NoDupSnoc(st.locations[to].actors, a);
    }
    hide NoDup;
  }

  /** How the lists of actors change when one leaves a list and joins another. */
  lemma MovedActorLists(st: ZoneState, a: Id, from: Id, to: Id)
    requires ActorsListed(st) && to in st.locations
    ensures var t := AddActor(RemoveActor(st, from, a), to, a);
      && SameButActorLists(st, t)
      && forall l, b :: l in st.locations ==>
           (b in t.locations[l].actors <==>
             if b == a then l == to || (l != from && a in st.locations[l].actors) else b in st.locations[l].actors)
  {
    RemovedActorLists(st, a, from);
    AddedActorLists(RemoveActor(st, from, a), a, to);
    hide AddActor, RemoveActor, NoDup;
  }

  lemma SameObjectsListed(st: ZoneState, t: ZoneState)
    requires ObjectsListed(st) && t.objects == st.objects
    requires forall d :: Resolves(t, d) ==> Resolves(st, d) && Contents(t, d) == Contents(st, d)
    ensures ObjectsListed(t)
  {
    hide Contents, NoDup;
    forall d | Resolves(t, d)
      ensures Lists(t, d)
    {
      assert Lists(st, d);
    }
  }

  lemma MovedActorShape(st: ZoneState, a: Id, from: Id, to: Id)
    requires ActorsListed(st) && a in st.actors && to in st.locations
    ensures var t := MoveActor(st, a, from, to);
      && SameHoldings(st, t) && t.locations.Keys == st.locations.Keys
      && t == st.(locations := t.locations, actors := st.actors[a := st.actors[a].(location := to)])
      && forall l :: l in st.locations ==> t.locations[l] == st.locations[l].(actors := t.locations[l].actors)
  {
    MovedActorLists(st, a, from, to);
    hide AddActor, RemoveActor, NoDup;
  }

  lemma MovedActorsListed(st: ZoneState, a: Id, from: Id, to: Id)
    requires ActorsListed(st) && a in st.actors && to in st.locations
    requires st.actors[a].location == from || st.actors[a].location == to
    ensures ActorsListed(MoveActor(st, a, from, to))
  {
    MovedActorLists(st, a, from, to);
    hide AddActor, RemoveActor, NoDup;
  }

  lemma MovedActorView(st: ZoneState, t: ZoneState, a: Id, to: Id)
    requires a in st.actors && SameHoldings(st, t) && t.locations.Keys == st.locations.Keys
    requires t == st.(locations := t.locations, actors := st.actors[a := st.actors[a].(location := to)])
    requires forall l :: l in st.locations ==> t.locations[l] == st.locations[l].(actors := t.locations[l].actors)
    ensures ViewOf(t) == ViewOf(st).(actors := ViewOf(st).actors[a := ViewOf(st).actors[a].(location := to)])
  {
    ViewOfMoved(st, t);
    hide SameHoldings;
    assert ActorViews(t) == ViewOf(st).actors[a := ViewOf(st).actors[a].(location := to)];
  }

  lemma MoveActorFromAgrees(st: ZoneState, a: Id, from: Id, to: Id)
    requires Linked(st) && a in st.actors && to in st.locations
    requires st.actors[a].location == from || st.actors[a].location == to
    ensures var t := MoveActor(st, a, from, to);
      && Linked(t)
      && ViewOf(t) == ViewOf(st).(actors := ViewOf(st).actors[a := ViewOf(st).actors[a].(location := to)])
  {
    MovedActorShape(st, a, from, to);
    MovedActorsListed(st, a, from, to);
    hide MoveActor, NoDup, ActorsListed, ObjectsListed, PlaceWithin, Contents, ViewOf;
    var t := MoveActor(st, a, from, to);
    assert ExitsListed(t) && ConstraintsKept(t);
    hide ExitsListed, ConstraintsKept;
    SameContentsAndPlaces(st, t);
    SameObjectsListed(st, t);
    MovedActorView(st, t, a, to);
  }

  /** t has the objects, inventories and location objects of st. */
  ghost predicate SameHoldings(st: ZoneState, t: ZoneState)
  {
    && t.objects == st.objects
    && (forall l :: l in t.locations ==> l in st.locations && t.locations[l].objects == st.locations[l].objects)
    && (forall a :: a in t.actors ==> a in st.actors && t.actors[a].inventory == st.actors[a].inventory)
  }

  lemma SameContentsAndPlaces(st: ZoneState, t: ZoneState)
    requires SameHoldings(st, t)
    ensures forall d :: Resolves(t, d) ==> Resolves(st, d) && Contents(t, d) == Contents(st, d)
    ensures t.actors.Keys == st.actors.Keys ==> forall d, y :: PlaceWithin(t, d, y) == PlaceWithin(st, d, y)
  {
    hide PlaceFor;
  }

  lemma ViewOfMoved(st: ZoneState, t: ZoneState)
    requires SameHoldings(st, t) && t.locations.Keys == st.locations.Keys && t.actors.Keys == st.actors.Keys
    requires t.exits == st.exits && t.defaultLocation == st.defaultLocation && t.nextSequenceId == st.nextSequenceId
    requires forall l :: l in st.locations ==> t.locations[l].info == st.locations[l].info
    ensures ViewOf(t) == ViewOf(st).(actors := ActorViews(t))
  {
    SameContentsAndPlaces(st, t);
    ViewOfActors(st, t);
  }

  lemma ViewOfActors(st: ZoneState, t: ZoneState)
    requires t.objects == st.objects && t.locations.Keys == st.locations.Keys
    requires t.exits == st.exits && t.defaultLocation == st.defaultLocation && t.nextSequenceId == st.nextSequenceId
    requires forall l :: l in st.locations ==> t.locations[l].info == st.locations[l].info
    requires forall o :: o in st.objects ==>
      PlaceWithin(t, st.objects[o].container, o) == PlaceWithin(st, st.objects[o].container, o)
    ensures ViewOf(t) == ViewOf(st).(actors := ActorViews(t))
  {
    SameObjectViews(st, t);
    hide PlaceWithin, ObjectViews;
  }

  lemma VacantMeans(st: ZoneState, c: Container)
    ensures Vacant(ViewOf(st), c) <==> forall o :: o in st.objects ==> st.objects[o].container != c
  {
    assert forall o :: o in st.objects ==> ViewOf(st).objects[o].container == st.objects[o].container;
  }

  /**
   * An actor moved between two locations of the zone is afterwards listed just where it is
   * exactly when it was at the first of them, or at the second already.
   */
  lemma MoveActorExactly(st: ZoneState, a: Id, from: Id, to: Id)
    requires Linked(st) && a in st.actors && st.actors[a].location in st.locations
    requires from in st.locations && to in st.locations
    ensures Linked(MoveActor(st, a, from, to)) <==> st.actors[a].location == from || st.actors[a].location == to
  {
    var at := st.actors[a].location;
    if at == from || at == to {
      MoveActorFromAgrees(st, a, from, to);
    } else {
      MovedActorLists(st, a, from, to);
      var t := MoveActor(st, a, from, to);
      assert a in t.locations[at].actors;
    }
  }

  lemma PutActorAgrees(st: ZoneState, a: Id, info: ActorInfo, l: Id)
    requires Linked(st) && a !in st.actors && l in st.locations && Vacant(ViewOf(st), InActor(a))
    ensures Linked(PutActor(st, a, info, l))
    ensures ViewOf(PutActor(st, a, info, l)) == ViewOf(st).(actors := ViewOf(st).actors[a := ActorView(info, l)])
  {
    VacantMeans(st, InActor(a));
    PutActorListed(st, a, info, l);
    PutActorObjects(st, a, info, l);
    hide ActorsListed, ExitsListed, ObjectsListed, ConstraintsKept, PlaceWithin, Vacant, ViewOf;
    PutActorView(st, a, info, l);
  }

  lemma PutActorView(st: ZoneState, a: Id, info: ActorInfo, l: Id)
    requires a !in st.actors && l in st.locations
    requires forall o :: o in st.objects ==> st.objects[o].container != InActor(a)
    requires forall d, y :: d != InActor(a) ==> PlaceWithin(PutActor(st, a, info, l), d, y) == PlaceWithin(st, d, y)
    ensures ViewOf(PutActor(st, a, info, l)) == ViewOf(st).(actors := ViewOf(st).actors[a := ActorView(info, l)])
  {
    hide PlaceWithin;
    var t := PutActor(st, a, info, l);
    ViewOfActors(st, t);
    hide ObjectViews, LocationViews;
    assert ActorViews(t) == ActorViews(st)[a := ActorView(info, l)];
  }

  lemma PutActorListed(st: ZoneState, a: Id, info: ActorInfo, l: Id)
    requires ActorsListed(st) && ExitsListed(st) && ConstraintsKept(st) && a !in st.actors && l in st.locations
    ensures var t := PutActor(st, a, info, l); ActorsListed(t) && ExitsListed(t) && ConstraintsKept(t)
  {
    NoDupSnoc(st.locations[l].actors, a);
    hide NoDup;
  }

  lemma PutActorObjects(st: ZoneState, a: Id, info: ActorInfo, l: Id)
    requires ObjectsListed(st) && a !in st.actors && l in st.locations
    requires forall o :: o in st.objects ==> st.objects[o].container != InActor(a)
    ensures ObjectsListed(PutActor(st, a, info, l))
    ensures forall d, y :: d != InActor(a) ==> PlaceWithin(PutActor(st, a, info, l), d, y) == PlaceWithin(st, d, y)
  {
    var t := PutActor(st, a, info, l);
    NoDupEmpty();
    hide NoDup, PlaceFor;
    forall d | Resolves(t, d)
      ensures Lists(t, d)
    {
      if d == InActor(a) {
        assert Contents(t, d) == [];
      } else {
        assert Lists(st, d) && Contents(t, d) == Contents(st, d);
      }
    }
  }

  lemma DropActorListed(st: ZoneState, a: Id)
    requires ActorsListed(st) && ExitsListed(st) && ConstraintsKept(st) && a in st.actors
    ensures var t := DropActor(st, a); ActorsListed(t) && ExitsListed(t) && ConstraintsKept(t)
  {
    DroppedFromList(st, a);
    hide ActorsListed, NoDup, RemoveActor;
    assert ConstraintsKept(DropActor(st, a));
    DropKeepsExits(st, a);
  }

  lemma DroppedFromList(st: ZoneState, a: Id)
    requires ActorsListed(st) && a in st.actors
    ensures ActorsListed(DropActor(st, a))
  {
    var l := st.actors[a].location;
    if l in st.locations {
      RemoveMembers(st.locations[l].actors, a);
    }
    hide Remove, NoDup;
  }

  lemma DropKeepsExits(st: ZoneState, a: Id)
    requires ExitsListed(st) && a in st.actors
    ensures ExitsListed(DropActor(st, a))
  {
    hide Remove, NoDup;
    var t := DropActor(st, a);
    assert forall l :: l in t.locations ==> l in st.locations && t.locations[l].outExits == st.locations[l].outExits;
  }

  lemma DropActorShape(st: ZoneState, a: Id)
    requires a in st.actors
    ensures var t := DropActor(st, a);
      && SameHoldings(st, t) && t.locations.Keys == st.locations.Keys && t.actors == st.actors - {a}
      && t == st.(locations := t.locations, actors := t.actors)
      && forall l :: l in st.locations ==> t.locations[l].info == st.locations[l].info
  {
    hide Remove;
  }

  lemma DropActorAgrees(st: ZoneState, a: Id)
    requires Linked(st) && a in st.actors && Vacant(ViewOf(st), InActor(a))
    ensures Linked(DropActor(st, a))
    ensures ViewOf(DropActor(st, a)) == ViewOf(st).(actors := ViewOf(st).actors - {a})
  {
    VacantMeans(st, InActor(a));
    DropActorListed(st, a);
    DropActorShape(st, a);
    hide ActorsListed, ExitsListed, ConstraintsKept, Vacant, DropActor, PlaceFor;
    var t := DropActor(st, a);
    SameContentsAndPlaces(st, t);
    SameObjectsListed(st, t);
    hide ObjectsListed, Contents;
    ViewOfActors(st, t);
    assert ActorViews(t) == ViewOf(st).actors - {a};
  }

  lemma ReattributeAgrees(st: ZoneState, a: Id, t: Attributes)
    requires Linked(st) && a in st.actors
    ensures Linked(Reattribute(st, a, t))
    ensures ViewOf(Reattribute(st, a, t)) == Changed(ViewOf(st), Recondition(ViewOf(st), a, t))
  {
    var u := Reattribute(st, a, t);
    hide NoDup;
    assert ActorsListed(u) && ExitsListed(u) && ConstraintsKept(u);
    hide ActorsListed, ExitsListed, ConstraintsKept;
    SameContentsAndPlaces(st, u);
    SameObjectsListed(st, u);
    hide ObjectsListed, Contents, PlaceWithin;
    ReattributeView(st, a, t);
  }

  lemma ReattributeView(st: ZoneState, a: Id, t: Attributes)
    requires a in st.actors
    ensures ViewOf(Reattribute(st, a, t)) == Changed(ViewOf(st), Recondition(ViewOf(st), a, t))
  {
    var u := Reattribute(st, a, t);
    hide PlaceWithin, ObjectViews, LocationViews;
    ViewOfMoved(st, u);
    hide SameHoldings;
    assert ActorViews(u) == ActorViews(st)[a := ActorView(u.actors[a].info, st.actors[a].location)];
  }

  // ---------- exits ----------

  /** An exit that is not listed anywhere is taken exactly where its direction is free. */
  lemma AddOutExitExactly(st: ZoneState, out: ZoneState, l: Id, x: Id, direction: string)
    requires l in st.locations && l in out.locations && x !in out.locations[l].outExits
    requires forall y :: y in out.locations[l].outExits <==> y in st.exits && y != x && st.exits[y].source == l
    requires forall y :: y != x ==> (y in out.exits <==> y in st.exits)
    requires forall y :: y != x && y in out.exits ==> out.exits[y].direction == st.exits[y].direction
    ensures AddOutExit(out, l, x, direction).Some? <==> DirectionFree(ViewOf(st), x, l, direction)
  {
  }

  /** t's exits are those of st but for x, which is as given; and the lists follow. */
  lemma ExitChanged(st: ZoneState, t: ZoneState, x: Id)
    requires Linked(st) && t == st.(locations := t.locations, exits := t.exits) && t.locations.Keys == st.locations.Keys
    requires forall l :: l in st.locations ==> t.locations[l] == st.locations[l].(outExits := t.locations[l].outExits)
    requires forall y :: y != x ==> (y in t.exits <==> y in st.exits)
    requires forall y :: y != x && y in st.exits ==> t.exits[y].source == st.exits[y].source
    requires forall l :: l in st.locations ==>
      && NoDup(t.locations[l].outExits)
      && forall y :: y in t.locations[l].outExits <==>
           if y == x then x in t.exits && t.exits[x].source == l else y in st.locations[l].outExits
    ensures Linked(t) && ViewOf(t) == ViewOf(st).(exits := t.exits)
  {
    hide NoDup;
    assert ActorsListed(t) && ExitsListed(t) && ConstraintsKept(t);
    hide ActorsListed, ExitsListed, ConstraintsKept;
    SameContentsAndPlaces(st, t);
    SameObjectsListed(st, t);
    hide ObjectsListed, Contents, PlaceWithin;
    SameBasics(st, t);
    SameObjectViews(st, t);
  }

  lemma PutExitAgrees(st: ZoneState, x: Id, info: ExitInfo)
    requires Linked(st) && x !in st.exits && info.source in st.locations
    ensures PutExit(st, x, info).1 == Done <==> DirectionFree(ViewOf(st), x, info.source, info.direction)
    ensures var (t, r) := PutExit(st, x, info);
      if r == Done then Linked(t) && ViewOf(t) == ViewOf(st).(exits := st.exits[x := info]) else t == st
  {
    AddOutExitExactly(st, st, info.source, x, info.direction);
    assert AddNewExit(st, info.source, x, info.direction) == AddOutExit(st, info.source, x, info.direction);
    NoDupSnoc(st.locations[info.source].outExits, x);
    hide NoDup;
    var (t, r) := PutExit(st, x, info);
    if r == Done {
      ExitChanged(st, t, x);
    }
  }

  lemma DropExitAgrees(st: ZoneState, x: Id)
    requires Linked(st) && x in st.exits && st.exits[x].source in st.locations
    ensures var t := RemoveExit(st, st.exits[x].source, x).(exits := st.exits - {x});
      Linked(t) && ViewOf(t) == ViewOf(st).(exits := st.exits - {x})
  {
    var l := st.exits[x].source;
    RemoveMembers(st.locations[l].outExits, x);
    hide NoDup, Remove;
    ExitChanged(st, RemoveExit(st, l, x).(exits := st.exits - {x}), x);
  }

  /** The exit stays at its source. */
  lemma UpdateExitInPlace(st: ZoneState, x: Id, info: ExitInfo)
    requires Linked(st) && x in st.exits && info.source == st.exits[x].source && info.source in st.locations
    ensures var t := st.(exits := st.exits[x := info]);
      Linked(t) && ViewOf(t) == ViewOf(st).(exits := st.exits[x := info])
  {
    hide NoDup;
    ExitChanged(st, st.(exits := st.exits[x := info]), x);
  }

  /** x, whatever it says by then, taken off the list of its source. */
  lemma UnlistedExit(st: ZoneState, x: Id, between: ExitInfo, l: Id)
    requires ExitsListed(st) && x in st.exits && st.exits[x].source in st.locations && l in st.locations
    ensures var out := RemoveExit(st.(exits := st.exits[x := between]), st.exits[x].source, x);
      && out == st.(locations := out.locations, exits := st.exits[x := between])
         && out.locations.Keys == st.locations.Keys
      && out.locations[l] == st.locations[l].(outExits := out.locations[l].outExits) && NoDup(out.locations[l].outExits)
      && forall y :: y in out.locations[l].outExits <==> y != x && y in st.locations[l].outExits
  {
    RemoveMembers(st.locations[st.exits[x].source].outExits, x);
    hide NoDup, Remove;
  }

  lemma RelistedExit(st: ZoneState, out: ZoneState, t: ZoneState, x: Id, direction: string, info: ExitInfo)
    requires Linked(st) && x in st.exits && info.source in st.locations && info.source in out.locations
    requires out == st.(locations := out.locations, exits := out.exits) && out.locations.Keys == st.locations.Keys
    requires out.exits.Keys == st.exits.Keys
    requires forall y :: y in st.exits && y != x ==> out.exits[y] == st.exits[y]
    requires forall l :: l in st.locations ==>
      && out.locations[l] == st.locations[l].(outExits := out.locations[l].outExits) && NoDup(out.locations[l].outExits)
      && forall y :: y in out.locations[l].outExits <==> y != x && y in st.locations[l].outExits
    requires AddOutExit(out, info.source, x, direction) == Some(t)
    ensures Linked(t.(exits := t.exits[x := info]))
    ensures ViewOf(t.(exits := t.exits[x := info])) == ViewOf(st).(exits := t.exits[x := info])
  {
    NoDupSnoc(out.locations[info.source].outExits, x);
    hide NoDup;
    ExitChanged(st, t.(exits := t.exits[x := info]), x);
  }

  /** The exit goes from one location's list to another's, where its direction was free. */
  lemma UpdateExitSource(st: ZoneState, x: Id, between: ExitInfo, direction: string, info: ExitInfo)
    requires Linked(st) && x in st.exits && st.exits[x].source in st.locations && info.source in st.locations
    requires DirectionFree(ViewOf(st), x, info.source, direction)
    ensures var unlisted := RemoveExit(st.(exits := st.exits[x := between]), st.exits[x].source, x);
      var moved := AddOutExit(unlisted, info.source, x, direction);
      && moved.Some? && moved.value.exits == st.exits[x := between]
      && Linked(moved.value.(exits := moved.value.exits[x := info]))
      && ViewOf(moved.value.(exits := moved.value.exits[x := info])) == ViewOf(st).(exits := st.exits[x := info])
  {
    var out := RemoveExit(st.(exits := st.exits[x := between]), st.exits[x].source, x);
    forall l | l in st.locations
      ensures out.locations.Keys == st.locations.Keys
      ensures out.locations[l] == st.locations[l].(outExits := out.locations[l].outExits)
      ensures NoDup(out.locations[l].outExits)
      ensures forall y :: y in out.locations[l].outExits <==> y != x && y in st.locations[l].outExits
    {
      UnlistedExit(st, x, between, l);
    }
    UnlistedExit(st, x, between, info.source);
    hide NoDup, RemoveExit;
    AddOutExitExactly(st, out, info.source, x, direction);
    RelistedExit(st, out, AddOutExit(out, info.source, x, direction).value, x, direction, info);
    assert st.exits[x := between][x := info] == st.exits[x := info];
  }

  /** An update that goes through changes the exit as it says, but for a destination in the zone. */
  lemma UpdateExitAgrees(st: ZoneState, x: Id, desc: string, direction: string, source: Id, destZone: Id,
      destLocation: Id)
    requires Linked(st) && x in st.exits && source in st.locations && st.exits[x].source in st.locations
    requires st.exits[x].source != source ==> DirectionFree(ViewOf(st), x, source, st.exits[x].direction)
    ensures var (t, r) := UpdateExit(st, x, desc, direction, source, destZone, destLocation);
      && r == Done && Linked(t)
      && ViewOf(t) == ViewOf(st).(exits := st.exits[x :=
           Redirected(st.exits[x], destZone, destLocation).(source := source, desc := desc, direction := direction)])
  {
    var info := Redirected(st.exits[x], destZone, destLocation);
    assert info.source == st.exits[x].source && info.direction == st.exits[x].direction;
    var updated := info.(source := source, desc := desc, direction := direction);
    hide Linked, ViewOf, DirectionFree, Redirected, RemoveExit, AddOutExit;
    if source == info.source {
      assert st.exits[x := info][x := updated] == st.exits[x := updated];
      UpdateExitInPlace(st, x, updated);
    } else {
      UpdateExitSource(st, x, info, info.direction, updated);
    }
  }

  /** The exit has left the list of its source, to which it still points. */
  lemma UnlistedNotLinked(st: ZoneState, x: Id, between: ExitInfo)
    requires ExitsListed(st) && x in st.exits && between.source == st.exits[x].source && between.source in st.locations
    ensures !Linked(RemoveExit(st.(exits := st.exits[x := between]), between.source, x))
  {
    var out := RemoveExit(st.(exits := st.exits[x := between]), between.source, x);
    UnlistedExit(st, x, between, between.source);
    hide NoDup, RemoveExit;
    assert x !in out.locations[between.source].outExits;
  }

  lemma UpdateExitRefused(st: ZoneState, x: Id, desc: string, direction: string, source: Id, destZone: Id,
      destLocation: Id)
    requires Linked(st) && x in st.exits && source in st.locations && st.exits[x].source in st.locations
    requires st.exits[x].source != source && !DirectionFree(ViewOf(st), x, source, st.exits[x].direction)
    ensures var (t, r) := UpdateExit(st, x, desc, direction, source, destZone, destLocation);
      r == Refused && !Linked(t)
  {
    var info := Redirected(st.exits[x], destZone, destLocation);
    assert info.source == st.exits[x].source && info.direction == st.exits[x].direction;
    var out := RemoveExit(st.(exits := st.exits[x := info]), info.source, x);
    UnlistedExit(st, x, info, source);
    UnlistedNotLinked(st, x, info);
    hide NoDup, RemoveExit;
    AddOutExitExactly(st, out, source, x, info.direction);
    hide AddOutExit, DirectionFree, Redirected, Linked;
  }

  /**
   * An update keeps the links exactly when the exit stays at its source, or the direction it had
   * is free at the new one; then it goes through, and otherwise it is refused half-done.
   */
  lemma UpdateExitExactly(st: ZoneState, x: Id, desc: string, direction: string, source: Id, destZone: Id,
      destLocation: Id)
    requires Linked(st) && x in st.exits && source in st.locations && st.exits[x].source in st.locations
    ensures var (t, r) := UpdateExit(st, x, desc, direction, source, destZone, destLocation);
      && (Linked(t) <==> st.exits[x].source == source || DirectionFree(ViewOf(st), x, source, st.exits[x].direction))
      && (Linked(t) <==> r == Done)
  {
    hide Linked, DirectionFree, UpdateExit;
    if st.exits[x].source == source || DirectionFree(ViewOf(st), x, source, st.exits[x].direction) {
      UpdateExitAgrees(st, x, desc, direction, source, destZone, destLocation);
    } else {
      UpdateExitRefused(st, x, desc, direction, source, destZone, destLocation);
    }
  }

  // ---------- locations ----------

  /** A new location is empty, as nothing says it is there. */
  lemma AddLocationAgrees(st: ZoneState, l: Id, info: LocationInfo)
    requires Linked(st) && Sound(ViewOf(st)) && l !in st.locations
    ensures var t := st.(locations := st.locations[l := LocationState(info, [], [], [])]);
      Linked(t) && ViewOf(t) == ViewOf(st).(locations := ViewOf(st).locations[l := info])
  {
    var t := st.(locations := st.locations[l := LocationState(info, [], [], [])]);
    NothingThere(st, l);
    NoDupEmpty();
    hide NoDup, Sound;
    assert ActorsListed(t);
    assert ExitsListed(t);
    AddLocationObjects(st, l, info);
    AddLocationView(st, l, info);
  }

  lemma AddLocationView(st: ZoneState, l: Id, info: LocationInfo)
    ensures ViewOf(st.(locations := st.locations[l := LocationState(info, [], [], [])])) ==
            ViewOf(st).(locations := ViewOf(st).locations[l := info])
  {
    var t := st.(locations := st.locations[l := LocationState(info, [], [], [])]);
    hide PlaceFor;
    SameObjectViews(st, t);
    hide ObjectViews, PlaceWithin;
    assert LocationViews(t) == LocationViews(st)[l := info];
  }

  lemma AddLocationObjects(st: ZoneState, l: Id, info: LocationInfo)
    requires ObjectsListed(st) && l !in st.locations
    requires forall o :: o in st.objects ==> st.objects[o].container != InLocation(l)
    ensures ObjectsListed(st.(locations := st.locations[l := LocationState(info, [], [], [])]))
  {
    var t := st.(locations := st.locations[l := LocationState(info, [], [], [])]);
    NoDupEmpty();
    hide NoDup;
    forall d | Resolves(t, d)
      ensures Lists(t, d)
    {
      if d == InLocation(l) {
        assert Contents(t, d) == [];
      } else {
        assert Lists(st, d) && Contents(t, d) == Contents(st, d);
      }
    }
  }

  lemma NothingThere(st: ZoneState, l: Id)
    requires Sound(ViewOf(st)) && l !in st.locations
    ensures forall a :: a in st.actors ==> st.actors[a].location != l
    ensures forall x :: x in st.exits ==> st.exits[x].source != l
    ensures forall o :: o in st.objects ==> st.objects[o].container != InLocation(l)
  {
    var v := ViewOf(st);
    hide WithinLimits, Acyclic, DirectionsUnique;
    assert forall a :: a in st.actors ==> v.actors[a].location == st.actors[a].location;
    assert forall o :: o in st.objects ==> v.objects[o].container == st.objects[o].container;
    assert forall x :: x in v.exits ==> ExitPlaced(v, v.exits[x]);
  }

  lemma UpdateLocationAgrees(st: ZoneState, l: Id, info: LocationInfo)
    requires Linked(st) && l in st.locations
    ensures var t := st.(locations := st.locations[l := st.locations[l].(info := info)]);
      Linked(t) && ViewOf(t) == ViewOf(st).(locations := ViewOf(st).locations[l := info])
  {
    var t := st.(locations := st.locations[l := st.locations[l].(info := info)]);
    hide NoDup, PlaceFor;
    assert ActorsListed(t);
    assert ExitsListed(t);
    hide ActorsListed, ExitsListed, ConstraintsKept;
    SameContentsAndPlaces(st, t);
    SameObjectsListed(st, t);
    hide ObjectsListed, Contents;
    UpdateLocationView(st, l, info);
  }

  lemma UpdateLocationView(st: ZoneState, l: Id, info: LocationInfo)
    requires l in st.locations
    ensures ViewOf(st.(locations := st.locations[l := st.locations[l].(info := info)])) ==
            ViewOf(st).(locations := ViewOf(st).locations[l := info])
  {
    var t := st.(locations := st.locations[l := st.locations[l].(info := info)]);
    hide PlaceFor;
    SameObjectViews(st, t);
    hide ObjectViews, PlaceWithin;
    assert LocationViews(t) == LocationViews(st)[l := info];
  }

  lemma RemoveLocationAgrees(st: ZoneState, l: Id)
    requires Linked(st)
    ensures var t := st.(locations := st.locations - {l});
      Linked(t) && ViewOf(t) == ViewOf(st).(locations := ViewOf(st).locations - {l})
  {
    var t := st.(locations := st.locations - {l});
    hide NoDup;
    assert ActorsListed(t) && ExitsListed(t) && ConstraintsKept(t);
    hide ActorsListed, ExitsListed, ConstraintsKept;
    SameContentsAndPlaces(st, t);
    SameObjectsListed(st, t);
    hide ObjectsListed, Contents;
    SameObjectViews(st, t);
    hide ObjectViews, PlaceWithin;
    assert LocationViews(t) == LocationViews(st) - {l};
  }
}
