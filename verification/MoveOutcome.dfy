/**
 * What the commands that move objects about come to: exactly when one goes through, told from the
 * lists and limits of the zone's own entities, and what the zone then is. An object that is moved
 * stays in the location it was in.
 */
module MoveOutcomes {
  import opened Wrappers
  import opened Bytes
  import opened ZoneViews
  import opened Inventories
  import opened ZoneStates
  import opened ZoneLinks
  import opened ZoneCommands
  import opened RemovalCommands
  import opened Commands
  import opened CommandOutcomes

  // ---------- where things are ----------

  /** On the way up it does not matter what has been seen below. */
  lemma {:induction false} SeenBelow(st: ZoneState, r: map<Id, nat>, c: Container, seen: set<Id>)
    requires LeadsUp(st, r) && Resolves(st, c)
    requires c.InObject? ==> forall x :: x in seen && x in r ==> r[c.id] < r[x]
    ensures LocationOf(st, c, seen) == LocationOf(st, c, {})
    decreases if c.InObject? then 1 + r[c.id] else 0
  {
    hide LeadsUp;
    if c.InObject? {
      LeadsUpFrom(st, r, c.id);
      var up := st.objects[c.id].container;
      assert {} + {c.id} == {c.id};
      SeenBelow(st, r, up, seen + {c.id});
      SeenBelow(st, r, up, {c.id});
    }
  }

  /** A location is where it is, what an actor has is where the actor is, and what is in an object where that is. */
  lemma WhereThingsAre(st: ZoneState)
    requires SettledState(st)
    ensures forall l :: LocationOf(st, InLocation(l), {}) == Some(l)
    ensures forall a :: a in st.actors ==> LocationOf(st, InActor(a), {}) == Some(st.actors[a].location)
    ensures forall o :: o in st.objects ==>
      LocationOf(st, InObject(o), {}) == LocationOf(st, st.objects[o].container, {})
  {
    hide Linked, Sound, NoOrphans, ViewOf, LeadsUp;
    var r := RanksUp(st);
    forall o | o in st.objects
      ensures LocationOf(st, InObject(o), {}) == LocationOf(st, st.objects[o].container, {})
    {
      LeadsUpFrom(st, r, o);
      assert {} + {o} == {o};
      SeenBelow(st, r, st.objects[o].container, {o});
    }
  }

  /** The two zones differ, as to where things are, in the container of o at most. */
  ghost predicate SameContainersBut(st: ZoneState, t: ZoneState, o: Id)
  {
    && t.objects.Keys == st.objects.Keys && t.actors.Keys == st.actors.Keys
    && (forall a :: a in st.actors ==> t.actors[a].location == st.actors[a].location)
    && forall x :: x in st.objects && x != o ==> t.objects[x].container == st.objects[x].container
  }

  lemma {:induction false} SameAbove(st: ZoneState, t: ZoneState, r: map<Id, nat>, o: Id, c: Container, seen: set<Id>)
    requires LeadsUp(t, r) && o in t.objects && SameContainersBut(st, t, o) && Resolves(t, c)
    requires c.InObject? ==> r[c.id] < r[o] && forall x :: x in seen && x in r ==> r[c.id] < r[x]
    ensures LocationOf(st, c, seen) == LocationOf(t, c, seen)
    decreases if c.InObject? then 1 + r[c.id] else 0
  {
    hide LeadsUp;
    if c.InObject? {
      LeadsUpFrom(t, r, c.id);
      SameAbove(st, t, r, o, t.objects[c.id].container, seen + {c.id});
    }
  }

  lemma {:induction false} SameWays(st: ZoneState, t: ZoneState, o: Id, c: Container, seen: set<Id>)
    requires SameContainersBut(st, t, o) && (o in st.objects ==> t.objects[o].container == st.objects[o].container)
    ensures LocationOf(st, c, seen) == LocationOf(t, c, seen)
    decreases st.objects.Keys - seen
  {
    if c.InObject? && c.id in st.objects && c.id !in seen {
      SameWays(st, t, o, st.objects[c.id].container, seen + {c.id});
    }
  }

  // ---------- from container to container ----------

  /** The handler's check, spelled out for a settled zone. */
  lemma GiveChecks(st: ZoneState, o: Id, mover: Option<Id>, from: Container, to: Container)
    requires SettledState(st)
    ensures MoveChecked(st, o, mover, from, to) <==>
      && o in st.objects && st.objects[o].container == from && from != to && Resolves(st, to)
      && LocationOf(st, from, {}) == LocationOf(st, to, {})
      && (match from
          case InLocation(l) => l in st.locations && |st.locations[l].objects| < 32767
          case InObject(y) => y in st.objects && |st.objects[y].contents| < st.objects[y].info.capacity
          case InActor(a) =>
            a in st.actors &&
            var inv, k := st.actors[a].inventory, st.actors[a].info.constraints;
            |inv.back| + |inv.belt| + |inv.body| + |inv.hands| < k.backSlots + k.beltSlots + k.bodySlots + k.handSlots)
      && (from.InActor? || to.InActor?) && !(from.InActor? && to.InActor? && mover == Some(to.id))
  {
    SettledConstraints(st);
    if Resolves(st, from) {
      assert Lists(st, from) by { SettledLinked(st); }
    }
    hide SettledState, LocationOf, NoDup, ConstraintsKept;
  }

  lemma GiveDone(st: ZoneState, o: Id, from: Container, to: Container)
    requires SettledState(st) && o in st.objects && st.objects[o].container == from && Resolves(st, to)
    ensures Resolves(st, from)
    ensures Applied(st, ObjectMove(o, from, to, ANY)) == Applied(st, ObjectAdminRelocate(o, to, ANY))
  {
    hide *;
    ContainerThere(st, o);
    MoveIs(st, o, from, to);
    RelocationIs(st, o, to, ANY);
  }

  lemma MoveIs(st: ZoneState, o: Id, from: Container, to: Container)
    requires o in st.objects && Resolves(st, from) && Resolves(st, to)
    ensures Applied(st, ObjectMove(o, from, to, ANY)) == MoveObject(st, o, from, to, ANY)
  {
    hide MoveObject;
  }

  lemma ContainerThere(st: ZoneState, o: Id)
    requires SettledState(st) && o in st.objects
    ensures Resolves(st, st.objects[o].container)
  {
    hide *;
    SettledMeans(st);
    ObjectLeadsUp(st, o);
  }

  /**
   * An object goes from an actor or to one, within a location, unless the actor it is taken from is
   * robbed by the one it goes to. It is the container it comes from that must not be full; at an
   * actor it comes into the hands. All is well exactly when it does not go into itself.
   */
  lemma GivingAnObject(st: ZoneState, o: Id, mover: Option<Id>, from: Container, to: Container)
    requires SettledState(st)
    ensures var (t, ok) := Processed(st, Give(o, mover, from, to));
      var v, w := ViewOf(st), ViewOf(t);
      && (ok <==>
            && o in st.objects && st.objects[o].container == from && from != to
            && LocationOf(st, from, {}) == LocationOf(st, to, {})
            && (match from
                case InLocation(l) => l in st.locations && |st.locations[l].objects| < 32767
                case InObject(y) => y in st.objects && |st.objects[y].contents| < st.objects[y].info.capacity
                case InActor(a) =>
                  a in st.actors &&
                  var inv, k := st.actors[a].inventory, st.actors[a].info.constraints;
                  |inv.back| + |inv.belt| + |inv.body| + |inv.hands| <
                  k.backSlots + k.beltSlots + k.bodySlots + k.handSlots)
            && (match to
                case InLocation(l) => l in st.locations
                case InObject(y) => y in st.objects
                case InActor(a) =>
                  a in st.actors &&
                  var inv, k := st.actors[a].inventory, st.actors[a].info.constraints;
                  |inv.hands| < k.handMaxItems && 0 <= k.handSlots)
            && (from.InActor? || to.InActor?) && !(from.InActor? && to.InActor? && mover == Some(to.id)))
      && (ok ==> (SettledState(t) <==> NotInside(v, o, to)))
      && (ok && SettledState(t) ==>
            && PersistedBy(st, Give(o, mover, from, to)) == [Event(st.nextSequenceId, ObjectMove(o, from, to, "any"))]
            && w == v.(objects := v.objects[o := ObjectView(st.objects[o].info, to,
                         if to.InActor? then Some(Hands) else None)],
                       nextSequenceId := st.nextSequenceId + 1))
      && (!ok ==> PersistedBy(st, Give(o, mover, from, to)) == [])
      && (ok ==> t.nextSequenceId == st.nextSequenceId + 1)
  {
    var p := ObjectMove(o, from, to, ANY);
    hide SettledState, ViewOf, Processed, PersistedBy, Applied, NotInside, RoomAt, LocationOf, Effect, MoveChecked;
    GiveChecks(st, o, mover, from, to);
    if MoveChecked(st, o, mover, from, to) {
      SingleSubmitted(st, Give(o, mover, from, to), p);
      GiveDone(st, o, from, to);
      RelocateDone(st, o, to, ANY);
      GiveRoom(st, o, from, to);
      SettledAside(Applied(st, p).0, st.nextSequenceId + 1);
      if Applied(st, p).1 == Done && NotInside(ViewOf(st), o, to) {
        GivenSeen(st, o, mover, from, to);
      }
    } else {
      NothingGiven(st, o, mover, from, to);
    }
  }

  /** A move is refused without a trace unless all it lacks is room in the hands. */
  lemma RefusingToGive(st: ZoneState, o: Id, mover: Option<Id>, from: Container, to: Container)
    requires SettledState(st)
    ensures var (t, ok) := Processed(st, Give(o, mover, from, to));
      !ok ==>
        if && o in st.objects && st.objects[o].container == from && from != to
           && LocationOf(st, from, {}) == LocationOf(st, to, {})
           && (match from
               case InLocation(l) => l in st.locations && |st.locations[l].objects| < 32767
               case InObject(y) => y in st.objects && |st.objects[y].contents| < st.objects[y].info.capacity
               case InActor(a) =>
                 a in st.actors &&
                 var inv, k := st.actors[a].inventory, st.actors[a].info.constraints;
                 |inv.back| + |inv.belt| + |inv.body| + |inv.hands| <
                 k.backSlots + k.beltSlots + k.bodySlots + k.handSlots)
           && to.InActor? && to.id in st.actors && !(from.InActor? && mover == Some(to.id))
        then t.nextSequenceId == st.nextSequenceId + 1
        else t == st
  {
    var p := ObjectMove(o, from, to, ANY);
    hide SettledState, ViewOf, Processed, PersistedBy, Applied, RoomAt, LocationOf, MoveChecked;
    GiveChecks(st, o, mover, from, to);
    if MoveChecked(st, o, mover, from, to) {
      SingleSubmitted(st, Give(o, mover, from, to), p);
      GiveDone(st, o, from, to);
      RelocateDone(st, o, to, ANY);
      GiveRoom(st, o, from, to);
    } else {
      NothingGiven(st, o, mover, from, to);
    }
  }

  lemma NothingGiven(st: ZoneState, o: Id, mover: Option<Id>, from: Container, to: Container)
    requires !MoveChecked(st, o, mover, from, to)
    ensures Processed(st, Give(o, mover, from, to)) == (st, false) && PersistedBy(st, Give(o, mover, from, to)) == []
  {
    hide MoveChecked;
  }

  lemma GiveRoom(st: ZoneState, o: Id, from: Container, to: Container)
    requires SettledState(st) && o in st.objects && st.objects[o].container == from && from != to && Resolves(st, to)
    ensures Room(ViewOf(st), o, to, ANY) <==>
      to.InActor? ==>
        var inv, k := st.actors[to.id].inventory, st.actors[to.id].info.constraints;
        |inv.hands| < k.handMaxItems && 0 <= k.handSlots
  {
    if to.InActor? {
      assert Lists(st, to) by { SettledLinked(st); }
      assert o !in Contents(st, to);
      ObjectsMembers(st.actors[to.id].inventory, o);
      hide SettledState, Room, ViewOf;
      RoomExactlyFor(st, to.id, o, ANY);
    } else {
      RoomElsewhere(st, to, o, ANY);
    }
  }

  lemma GivenSeen(st: ZoneState, o: Id, mover: Option<Id>, from: Container, to: Container)
    requires SettledState(st) && MoveChecked(st, o, mover, from, to)
    requires Room(ViewOf(st), o, to, ANY) && NotInside(ViewOf(st), o, to)
    ensures var t, v := Processed(st, Give(o, mover, from, to)).0, ViewOf(st);
      ViewOf(t) == v.(objects := v.objects[o := ObjectView(st.objects[o].info, to,
        if to.InActor? then Some(Hands) else None)], nextSequenceId := st.nextSequenceId + 1)
  {
    hide *;
    var c := Give(o, mover, from, to);
    GiveGuarded(st, o, mover, from, to);
    CommandSettles(st, c);
    GiveTaken(st, o, mover, from, to);
    ViewObject(st, o);
    PutThere(ViewOf(st), o, from, to);
  }

  lemma GiveGuarded(st: ZoneState, o: Id, mover: Option<Id>, from: Container, to: Container)
    requires MoveChecked(st, o, mover, from, to) && Room(ViewOf(st), o, to, ANY) && NotInside(ViewOf(st), o, to)
    ensures var c := Give(o, mover, from, to);
      Guarded(st, c) && Passes(st, c) && !c.Demolish? && EventsFor(st, c) == [ObjectMove(o, from, to, ANY)]
    ensures o in st.objects && (to.InActor? ==> to.id in ViewOf(st).actors && RoomAt(ViewOf(st), o, to.id, Hands))
  {
    ViewKeys(st);
    hide RoomAt, NotInside, ViewOf, LocationOf, Capacity, Contents;
  }

  lemma PutThere(v: View, o: Id, from: Container, to: Container)
    requires o in v.objects
    ensures Effect(v, ObjectMove(o, from, to, ANY)) ==
      v.(objects := v.objects[o := ObjectView(v.objects[o].info, to, if to.InActor? then Some(Hands) else None)])
  {
  }

  lemma ContainersSeen(st: ZoneState, t: ZoneState, o: Id, x: ObjectView, n: nat)
    requires o in st.objects
    requires ViewOf(t) == ViewOf(st).(objects := ViewOf(st).objects[o := x], nextSequenceId := n)
    ensures SameContainersBut(st, t, o) && t.objects[o].container == x.container
  {
    ViewKeys(st);
    ViewKeys(t);
    assert o in ViewOf(t).objects;
    hide ViewOf;
    forall a | a in st.actors
      ensures t.actors[a].location == st.actors[a].location
    {
      ViewLocation(st, a);
      ViewLocation(t, a);
    }
    forall y | y in st.objects
      ensures t.objects[y].container == if y == o then x.container else st.objects[y].container
    {
      ViewContainer(st, y);
      ViewContainer(t, y);
    }
  }

  /** An object that is refused has been taken off a list, but has not gone anywhere. */
  lemma RefusedStays(st: ZoneState, o: Id, from: Container, to: Container)
    requires o in st.objects && Resolves(st, from) && Resolves(st, to)
    requires Applied(st, ObjectMove(o, from, to, ANY)).1 != Done
    ensures var t := Applied(st, ObjectMove(o, from, to, ANY)).0;
      SameContainersBut(st, t, o) && t.objects[o].container == st.objects[o].container
  {
    MoveIs(st, o, from, to);
    RemoveObjectShape(st, from, o);
    hide Applied, RemoveObject, AddObject;
  }

  /** However a move ends, the object lies in the location it lay in, unless it went into itself. */
  lemma MovedStaysInLocation(st: ZoneState, o: Id, mover: Option<Id>, from: Container, to: Container)
    requires SettledState(st) && o in st.objects
    ensures var (t, ok) := Processed(st, Give(o, mover, from, to));
      !ok || SettledState(t) ==> LocationOf(t, InObject(o), {}) == LocationOf(st, InObject(o), {})
  {
    var p := ObjectMove(o, from, to, ANY);
    hide SettledState, Processed, PersistedBy, Applied, NotInside, LocationOf, MoveChecked, LeadsUp;
    hide SameContainersBut;
    GivingAnObject(st, o, mover, from, to);
    GiveChecks(st, o, mover, from, to);
    if MoveChecked(st, o, mover, from, to) {
      SingleSubmitted(st, Give(o, mover, from, to), p);
      GiveDone(st, o, from, to);
      var t := Processed(st, Give(o, mover, from, to)).0;
      if Applied(st, p).1 != Done {
        RefusedStays(st, o, from, to);
        SameContainersAside(st, Applied(st, p).0, o, st.nextSequenceId + 1);
        SameWays(st, t, o, InObject(o), {});
      } else if SettledState(t) {
        ContainersSeen(st, t, o, ObjectView(st.objects[o].info, to, if to.InActor? then Some(Hands) else None),
          st.nextSequenceId + 1);
        hide ViewOf;
        ArrivedWhereItWas(st, t, o, from, to);
      }
    } else {
      NothingGiven(st, o, mover, from, to);
    }
  }

  lemma SameContainersAside(st: ZoneState, t: ZoneState, o: Id, n: nat)
    requires SameContainersBut(st, t, o)
    ensures SameContainersBut(st, t.(nextSequenceId := n), o)
  {
  }

  lemma ArrivedWhereItWas(st: ZoneState, t: ZoneState, o: Id, from: Container, to: Container)
    requires SettledState(st) && SettledState(t) && o in st.objects && SameContainersBut(st, t, o)
    requires st.objects[o].container == from && t.objects[o].container == to
    requires LocationOf(st, from, {}) == LocationOf(st, to, {})
    ensures LocationOf(t, InObject(o), {}) == LocationOf(st, InObject(o), {})
  {
    assert o in t.objects;
    SettledMeans(t);
    hide SettledState, Sound, NoOrphans, ViewOf, LocationOf, LeadsUp, SameContainersBut;
    WhereThingsAre(st);
    WhereThingsAre(t);
    var r := RanksUp(t);
    LeadsUpFrom(t, r, o);
    SameAbove(st, t, r, o, to, {});
  }

  /** Whatever an actor has, it can drop where it stands, unless it has as much as it has slots for in all. */
  lemma DroppingAnObject(st: ZoneState, o: Id, a: Id, mover: Option<Id>)
    requires SettledState(st) && a in st.actors && o in st.objects && st.objects[o].container == InActor(a)
    ensures var l := st.actors[a].location;
      var (t, ok) := Processed(st, Give(o, mover, InActor(a), InLocation(l)));
      var v, w := ViewOf(st), ViewOf(t);
      var inv, k := st.actors[a].inventory, st.actors[a].info.constraints;
      && (ok <==> |inv.back| + |inv.belt| + |inv.body| + |inv.hands| <
                  k.backSlots + k.beltSlots + k.bodySlots + k.handSlots)
      && (ok ==>
            && SettledState(t)
            && w == v.(objects := v.objects[o := ObjectView(st.objects[o].info, InLocation(l), None)],
                       nextSequenceId := st.nextSequenceId + 1))
  {
    ActorsSomewhere(st, a);
    WhereThingsAre(st);
    hide SettledState, ViewOf, Processed, LocationOf, PersistedBy;
    GivingAnObject(st, o, mover, InActor(a), InLocation(st.actors[a].location));
  }

  lemma ActorsSomewhere(st: ZoneState, a: Id)
    requires SettledState(st) && a in st.actors
    ensures st.actors[a].location in st.locations
  {
    hide *;
    SettledMeans(st);
    SoundPlaces(ViewOf(st));
    ActorsLeadUp(st);
  }

  lemma SoundPlaces(v: View)
    requires Sound(v)
    ensures ActorsPlaced(v)
  {
    hide WithinLimits, Acyclic, ObjectsPlaced, ExitsPlaced, DirectionsUnique;
  }

  /** And what lies where an actor stands it can take, as long as its hands have room. */
  lemma PickingUpAnObject(st: ZoneState, o: Id, a: Id, mover: Option<Id>)
    requires SettledState(st) && a in st.actors && o in st.objects
    requires st.objects[o].container == InLocation(st.actors[a].location)
    ensures var l := st.actors[a].location;
      var (t, ok) := Processed(st, Give(o, mover, InLocation(l), InActor(a)));
      var v, w := ViewOf(st), ViewOf(t);
      var inv, k := st.actors[a].inventory, st.actors[a].info.constraints;
      && l in st.locations
      && (ok <==> |st.locations[l].objects| < 32767 && |inv.hands| < k.handMaxItems && 0 <= k.handSlots)
      && (ok ==>
            && SettledState(t)
            && w == v.(objects := v.objects[o := ObjectView(st.objects[o].info, InActor(a), Some(Hands))],
                       nextSequenceId := st.nextSequenceId + 1))
  {
    ActorsSomewhere(st, a);
    WhereThingsAre(st);
    hide SettledState, ViewOf, Processed, LocationOf, PersistedBy;
    GivingAnObject(st, o, mover, InLocation(st.actors[a].location), InActor(a));
  }

  // ---------- from place to place ----------

  /** The handler's check, spelled out for a settled zone. */
  lemma ShiftChecks(st: ZoneState, o: Id, mover: Id, fromSub: string, sub: string)
    requires SettledState(st)
    ensures MoveSubcontainerChecked(st, o, mover, fromSub, sub) <==>
      && o in st.objects && mover in st.actors && st.objects[o].container.InActor?
      && st.objects[o].container.id in st.actors
      && st.actors[st.objects[o].container.id].location == st.actors[mover].location
      && var inv := st.actors[st.objects[o].container.id].inventory;
         var k := st.actors[st.objects[o].container.id].info.constraints;
         && (|| (fromSub == "back" && o in inv.back) || (fromSub == "belt" && o in inv.belt)
             || (fromSub == "body" && o in inv.body) || (fromSub == "hands" && o in inv.hands))
         && (|| (sub == "back" && |inv.back| < k.backMaxItems && 0 <= k.backSlots)
             || (sub == "belt" && |inv.belt| < k.beltMaxItems && 0 <= k.beltSlots)
             || (sub == "body" && |inv.body| < k.bodyMaxItems && 0 <= k.bodySlots)
             || (sub == "hands" && |inv.hands| < k.handMaxItems && 0 <= k.handSlots))
  {
    SettledConstraints(st);
    hide SettledState, ConstraintsKept;
    if o in st.objects && st.objects[o].container.InActor? && st.objects[o].container.id in st.actors {
      var inv := st.actors[st.objects[o].container.id].inventory;
      NoSizeTotal(inv.back);
      NoSizeTotal(inv.belt);
      NoSizeTotal(inv.body);
      NoSizeTotal(inv.hands);
    }
  }

  /** An object is moved from where it is on an actor to another place there that is not full: always well. */
  lemma ShiftingAnObject(st: ZoneState, o: Id, mover: Id, fromSub: string, sub: string)
    requires SettledState(st)
    ensures var (t, ok) := Processed(st, Shift(o, mover, fromSub, sub));
      var v, w := ViewOf(st), ViewOf(t);
      && (ok <==>
            && o in st.objects && mover in st.actors && st.objects[o].container.InActor?
            && st.objects[o].container.id in st.actors
            && st.actors[st.objects[o].container.id].location == st.actors[mover].location
            && var inv := st.actors[st.objects[o].container.id].inventory;
               var k := st.actors[st.objects[o].container.id].info.constraints;
               && (|| (fromSub == "back" && o in inv.back) || (fromSub == "belt" && o in inv.belt)
                   || (fromSub == "body" && o in inv.body) || (fromSub == "hands" && o in inv.hands))
               && (|| (sub == "back" && |inv.back| < k.backMaxItems && 0 <= k.backSlots)
                   || (sub == "belt" && |inv.belt| < k.beltMaxItems && 0 <= k.beltSlots)
                   || (sub == "body" && |inv.body| < k.bodyMaxItems && 0 <= k.bodySlots)
                   || (sub == "hands" && |inv.hands| < k.handMaxItems && 0 <= k.handSlots)))
      && (ok ==>
            && SettledState(t)
            && PersistedBy(st, Shift(o, mover, fromSub, sub)) ==
               [Event(st.nextSequenceId, ObjectMoveSubcontainer(o, fromSub, sub))]
            && w == v.(objects := v.objects[o := ObjectView(st.objects[o].info, st.objects[o].container,
                         if sub == "back" then Some(Back) else if sub == "belt" then Some(Belt)
                         else if sub == "body" then Some(Body) else Some(Hands))],
                       nextSequenceId := st.nextSequenceId + 1))
      && (!ok ==> t == st && PersistedBy(st, Shift(o, mover, fromSub, sub)) == [])
  {
    hide *;
    var c, p := Shift(o, mover, fromSub, sub), ObjectMoveSubcontainer(o, fromSub, sub);
    ShiftChecks(st, o, mover, fromSub, sub);
    if MoveSubcontainerChecked(st, o, mover, fromSub, sub) {
      ShiftPasses(st, o, mover, fromSub, sub);
      SingleSubmitted(st, c, p);
      CommandSettles(st, c);
      ShiftTaken(st, o, mover, fromSub, sub);
      ViewObject(st, o);
      PutAtPlace(ViewOf(st), o, fromSub, sub);
    } else {
      NothingShifted(st, o, mover, fromSub, sub);
    }
  }

  lemma ShiftPasses(st: ZoneState, o: Id, mover: Id, fromSub: string, sub: string)
    requires MoveSubcontainerChecked(st, o, mover, fromSub, sub)
    ensures var c, p := Shift(o, mover, fromSub, sub), ObjectMoveSubcontainer(o, fromSub, sub);
      Passes(st, c) && Guarded(st, c) && !c.Demolish? && EventsFor(st, c) == [p] && !p.CombatDodge?
  {
    hide MoveSubcontainerChecked;
  }

  lemma NothingShifted(st: ZoneState, o: Id, mover: Id, fromSub: string, sub: string)
    requires !MoveSubcontainerChecked(st, o, mover, fromSub, sub)
    ensures Processed(st, Shift(o, mover, fromSub, sub)) == (st, false)
    ensures PersistedBy(st, Shift(o, mover, fromSub, sub)) == []
  {
    hide MoveSubcontainerChecked;
  }

  lemma PutAtPlace(v: View, o: Id, fromSub: string, sub: string)
    requires o in v.objects && sub in {"back", "belt", "body", "hands"}
    ensures Effect(v, ObjectMoveSubcontainer(o, fromSub, sub)) ==
      v.(objects := v.objects[o := ObjectView(v.objects[o].info, v.objects[o].container,
        if sub == "back" then Some(Back) else if sub == "belt" then Some(Belt)
        else if sub == "body" then Some(Body) else Some(Hands))])
  {
  }
}
