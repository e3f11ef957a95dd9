/**
 * Applying events to a zone with links refines applying them to its view: on every event a zone
 * can take it goes through, keeps the links and has the view's effect. Where the program checks
 * less than that, the lemmas here say exactly when it still goes right.
 */
module ZoneApplied {
  import opened Wrappers
  import opened Bytes
  import opened UUIDLists
  import opened ZoneViews
  import opened ZoneInvariant
  import opened PayloadRuns
  import opened Inventories
  import opened ZoneStates
  import opened ZoneLinks

  ghost predicate Agrees(st: ZoneState, p: Payload)
  {
    var (t, r) := Applied(st, p);
    r == Done && Linked(t) && ViewOf(t) == Effect(ViewOf(st), p)
  }

  lemma ArrivalAgrees(st: ZoneState, p: Payload)
    requires Linked(st) && Accepts(ViewOf(st), p) && (p.ActorAddToZone? || p.ActorMigrateIn?)
    ensures Agrees(st, p)
  {
    hide Linked, Vacant, PutActor;
    PutActorAgrees(st, p.actor, p.info, p.location);
  }

  lemma RelocationAgrees(st: ZoneState, p: Payload)
    requires Linked(st) && Accepts(ViewOf(st), p) && (p.ActorMove? || p.ActorAdminRelocate?)
    ensures Agrees(st, p)
  {
    hide Linked, MoveActor;
    MoveActorFromAgrees(st, p.actor, if p.ActorMove? then p.from else st.actors[p.actor].location, p.to);
  }

  lemma DepartureAgrees(st: ZoneState, p: Payload)
    requires Linked(st) && Accepts(ViewOf(st), p) && (p.ActorRemoveFromZone? || p.ActorMigrateOut?)
    ensures Agrees(st, p)
  {
    hide Linked, Vacant, DropActor;
    DropActorAgrees(st, p.actor);
  }

  lemma DefaultLocationAgrees(st: ZoneState, l: Id)
    requires Linked(st) && l in st.locations
    ensures Agrees(st, ZoneSetDefaultLocation(l))
  {
    var t := st.(defaultLocation := Some(l));
    SameContentsAndPlaces(st, t);
    hide NoDup, Contents;
    SameObjectsListed(st, t);
  }

  lemma ReattributedAgrees(st: ZoneState, p: Payload)
    requires Linked(st) && Accepts(ViewOf(st), p) && (p.ActorDeath? || p.CombatMeleeDamage?)
    ensures Agrees(st, p)
  {
    var a := if p.ActorDeath? then p.actor else p.target;
    assert a in st.actors && ViewOf(st).actors[a].info == st.actors[a].info;
    hide Linked, Reattribute, Damaged, Recondition, ViewOf;
    var was := st.actors[a].info.attributes;
    ReattributeAgrees(st, a, if p.ActorDeath? then was.(physical := 0, stamina := 0, focus := 0, zeal := 0)
                             else Damaged(was, p.physicalDmg, p.staminaDmg, p.focusDmg));
  }

  lemma AttributeEventAgrees(st: ZoneState, p: Payload)
    requires Linked(st) && Accepts(ViewOf(st), p)
    requires p.ActorDeath? || p.ActorSpeak? || p.CombatMeleeDamage? || p.CombatDodge? || p.ZoneSetDefaultLocation?
    ensures Agrees(st, p)
  {
    hide Linked;
    if p.ActorDeath? || p.CombatMeleeDamage? {
      ReattributedAgrees(st, p);
    } else if p.ZoneSetDefaultLocation? {
      DefaultLocationAgrees(st, p.location);
    }
  }

  lemma LocationEventAgrees(st: ZoneState, p: Payload)
    requires Linked(st) && Sound(ViewOf(st)) && Accepts(ViewOf(st), p)
    requires p.LocationAddToZone? || p.LocationUpdate? || p.LocationRemoveFromZone?
    ensures Agrees(st, p)
  {
    hide Linked, Sound, Unreferenced;
    match p
    case LocationAddToZone(l, info) => AddLocationAgrees(st, l, info);
    case LocationUpdate(l, info) => UpdateLocationAgrees(st, l, info);
    case LocationRemoveFromZone(l) => RemoveLocationAgrees(st, l);
  }

  lemma ExitFacts(st: ZoneState, x: Id)
    requires Sound(ViewOf(st)) && x in st.exits
    ensures st.exits[x].source in st.locations
    ensures st.exits[x].otherZone != NIL ==> st.exits[x].destination == None
    ensures st.exits[x].otherZone == NIL ==> st.exits[x].otherLocation == NIL
  {
    assert ExitPlaced(ViewOf(st), ViewOf(st).exits[x]);
  }

  lemma NewExitAgrees(st: ZoneState, p: Payload)
    requires Linked(st) && Accepts(ViewOf(st), p) && p.ExitAddToZone?
    ensures Agrees(st, p)
  {
    hide Linked, DirectionFree, PutExit;
    PutExitAgrees(st, p.exit, ExitOf(p));
  }

  lemma UpdatedExitAgrees(st: ZoneState, p: Payload)
    requires Linked(st) && Sound(ViewOf(st)) && Accepts(ViewOf(st), p) && p.ExitUpdate?
    ensures Agrees(st, p)
  {
    hide Linked, DirectionFree, UpdateExit, Sound;
    TakenUpdateAgrees(st, p);
  }

  /** An update that is taken does what the view says even where that leaves the exit leading nowhere. */
  lemma TakenUpdateAgrees(st: ZoneState, p: Payload)
    requires Linked(st) && Sound(ViewOf(st)) && p.ExitUpdate? && p.exit in st.exits && p.source in st.locations
    requires p.destLocation != NIL && (p.destZone == NIL ==> p.destLocation in st.locations)
    requires st.exits[p.exit].source != p.source ==>
      DirectionFree(ViewOf(st), p.exit, p.source, st.exits[p.exit].direction)
    ensures Agrees(st, p)
  {
    hide Linked, DirectionFree, UpdateExit, Sound;
    ExitFacts(st, p.exit);
    UpdateExitAgrees(st, p.exit, p.desc, p.direction, p.source, p.destZone, p.destLocation);
    RedirectedIsUpdated(st.exits[p.exit], p);
  }

  lemma RedirectedIsUpdated(x: ExitInfo, p: Payload)
    requires p.ExitUpdate? && (x.otherZone != NIL ==> x.destination == None)
    requires (x.otherZone == NIL ==> x.otherLocation == NIL)
    ensures Redirected(x, p.destZone, p.destLocation).(source := p.source, desc := p.desc, direction := p.direction) ==
            if p.destZone == NIL then ExitOf(p).(destination := None) else ExitOf(p)
  {
  }

  lemma DroppedExitAgrees(st: ZoneState, p: Payload)
    requires Linked(st) && Sound(ViewOf(st)) && Accepts(ViewOf(st), p) && p.ExitRemoveFromZone?
    ensures Agrees(st, p)
  {
    hide Linked, RemoveExit, Sound;
    ExitFacts(st, p.exit);
    DropExitAgrees(st, p.exit);
  }

  // ---------- objects ----------

  /** A new object is taken exactly where there is room for it. */
  lemma PutObjectExactly(st: ZoneState, o: Id, info: ObjectInfo, c: Container, sub: string)
    requires Linked(st) && o !in st.objects && Resolves(st, c)
    ensures PutObject(st, o, info, c, sub).1 == Done <==> Room(ViewOf(st), o, c, sub)
  {
    NewIsListedBut(st, o);
    NewIsTaken(st, c, o, sub);
    hide AddNewObject, AddObject, Room, ListedBut;
    RoomExactly(st, st, c, o, sub);
  }

  /** A moved object is taken exactly where, without it, there is room for it. */
  lemma MoveObjectExactly(st: ZoneState, o: Id, c: Container, sub: string)
    requires Linked(st) && o in st.objects && Resolves(st, c)
    ensures MoveObject(st, o, st.objects[o].container, c, sub).1 == Done <==> Room(ViewOf(st), o, c, sub)
  {
    var from := st.objects[o].container;
    RemoveObjectShape(st, from, o);
    SameButContentsKeeps(st, RemoveObject(st, from, o));
    RemovedIsListedBut(st, o);
    PlacesAfterRemove(st, from, o);
    hide RemoveObject, Room, SameButContents, ListedBut;
    RoomExactly(st, RemoveObject(st, from, o), c, o, sub);
  }

  /**
   * When there is no room, the object has already left the list of its container, to which it
   * still points: the links are broken.
   */
  lemma RefusedMoveBreaksLinks(st: ZoneState, o: Id, c: Container, sub: string)
    requires Linked(st) && o in st.objects && Resolves(st, st.objects[o].container) && Resolves(st, c)
    ensures Linked(MoveObject(st, o, st.objects[o].container, c, sub).0) <==> Room(ViewOf(st), o, c, sub)
  {
    MoveObjectExactly(st, o, c, sub);
    if Room(ViewOf(st), o, c, sub) {
      MoveObjectAgrees(st, o, c, sub);
    } else {
      var from := st.objects[o].container;
      var out := RemoveObject(st, from, o);
      assert Lists(st, from);
      RemoveObjectContents(st, from, o);
      RemoveObjectShape(st, from, o);
      hide RemoveObject, NoDup;
      assert o !in Contents(out, from) && out.objects[o].container == from;
      assert !Lists(out, from);
    }
  }

  lemma PutEventMeans(st: ZoneState, p: Payload)
    requires Accepts(ViewOf(st), p) && (p.ObjectAddToZone? || p.ObjectMigrateIn?)
    ensures var o, info, c, sub, v := p.object_, p.objInfo, p.container, p.subcontainer, ViewOf(st);
      && Resolves(st, c) && o !in st.objects && Room(v, o, c, sub) && Vacant(v, InObject(o))
      && Effect(v, p) == v.(objects := v.objects[o := ObjectView(info, c, PlaceIn(c, sub))])
      && Applied(st, p) == PutObject(st, o, info, c, sub)
  {
    hide Vacant, RoomAt, PutObject, PlaceIn;
  }

  lemma PutEventAgrees(st: ZoneState, p: Payload)
    requires Linked(st) && Accepts(ViewOf(st), p) && (p.ObjectAddToZone? || p.ObjectMigrateIn?)
    ensures Agrees(st, p)
  {
    hide Linked, Vacant, Room, PutObject, PlaceIn, Accepts, Effect, ViewOf, Applied, Resolves;
    PutEventMeans(st, p);
    PutObjectExactly(st, p.object_, p.objInfo, p.container, p.subcontainer);
    PutObjectAgrees(st, p.object_, p.objInfo, p.container, p.subcontainer);
  }

  lemma MoveEventMeans(st: ZoneState, p: Payload)
    requires Accepts(ViewOf(st), p) && (p.ObjectMove? || p.ObjectAdminRelocate?)
    ensures var o, c, sub := p.object_, p.container, p.subcontainer;
      && o in st.objects && Resolves(st, c) && Room(ViewOf(st), o, c, sub)
      && Applied(st, p) == MoveObject(st, o, st.objects[o].container, c, sub)
  {
    hide RoomAt, NotInside, MoveObject;
    assert p.object_ in st.objects;
    assert ViewOf(st).objects[p.object_].container == st.objects[p.object_].container;
  }

  lemma MoveEventAgrees(st: ZoneState, p: Payload)
    requires Linked(st) && Accepts(ViewOf(st), p) && (p.ObjectMove? || p.ObjectAdminRelocate?)
    ensures Agrees(st, p)
  {
    var o, c, sub := p.object_, p.container, p.subcontainer;
    hide Linked, Room, MoveObject, PlaceIn, Accepts, Effect, ViewOf, Applied, Resolves;
    MoveEventMeans(st, p);
    MoveObjectExactly(st, o, c, sub);
    MoveObjectAgrees(st, o, c, sub);
    MovedPlaceView(st, p);
  }

  lemma MovedPlaceView(st: ZoneState, p: Payload)
    requires (p.ObjectMove? || p.ObjectAdminRelocate?) && p.object_ in st.objects
    ensures Effect(ViewOf(st), p) == ViewOf(st).(objects := ViewOf(st).objects[p.object_ :=
      ObjectView(st.objects[p.object_].info, p.container, PlaceIn(p.container, p.subcontainer))])
  {
    hide PlaceWithin, PlaceIn;
  }

  lemma DropEventAgrees(st: ZoneState, p: Payload)
    requires Linked(st) && Accepts(ViewOf(st), p) && (p.ObjectRemoveFromZone? || p.ObjectMigrateOut?)
    ensures Agrees(st, p)
  {
    hide Linked, Vacant, DropObject;
    DropObjectAgrees(st, p.object_);
  }

  lemma SubcontainerEventAgrees(st: ZoneState, p: Payload)
    requires Linked(st) && Accepts(ViewOf(st), p) && p.ObjectMoveSubcontainer?
    ensures Agrees(st, p)
  {
    hide Linked, RoomAt, MoveSubcontainer;
    MoveSubcontainerAgrees(st, p.object_, p.fromSub, p.subcontainer);
  }

  /** Every event the view can take, the zone takes, keeping its links and agreeing with the view. */
  lemma AppliedAgrees(st: ZoneState, p: Payload)
    requires Linked(st) && Sound(ViewOf(st)) && Accepts(ViewOf(st), p)
    ensures Agrees(st, p)
  {
    hide Linked, Sound, Accepts, Agrees;
    match p
    case ActorAddToZone(_, _, _) | ActorMigrateIn(_, _, _) => ArrivalAgrees(st, p);
    case ActorMove(_, _, _) | ActorAdminRelocate(_, _) => RelocationAgrees(st, p);
    case ActorRemoveFromZone(_) | ActorMigrateOut(_) => DepartureAgrees(st, p);
    case ActorDeath(_) | ActorSpeak(_, _) | CombatMeleeDamage(_, _, _, _) | CombatDodge(_)
      | ZoneSetDefaultLocation(_) =>
      AttributeEventAgrees(st, p);
    case LocationAddToZone(_, _) | LocationUpdate(_, _) | LocationRemoveFromZone(_) => LocationEventAgrees(st, p);
    case ExitAddToZone(_, _, _, _, _, _) => NewExitAgrees(st, p);
    case ExitUpdate(_, _, _, _, _, _) => UpdatedExitAgrees(st, p);
    case ExitRemoveFromZone(_) => DroppedExitAgrees(st, p);
    case ObjectMoveSubcontainer(_, _, _) => SubcontainerEventAgrees(st, p);
    case ObjectAddToZone(_, _, _, _) | ObjectMigrateIn(_, _, _, _) => PutEventAgrees(st, p);
    case ObjectMove(_, _, _, _) | ObjectAdminRelocate(_, _, _) => MoveEventAgrees(st, p);
    case ObjectRemoveFromZone(_) | ObjectMigrateOut(_) => DropEventAgrees(st, p);
  }

  lemma TakenAgrees(st: ZoneState, p: Payload)
    ensures Linked(st) && Sound(ViewOf(st)) && Accepts(ViewOf(st), p) ==> Agrees(st, p)
  {
    hide Linked, Sound, Accepts, Agrees;
    if Linked(st) && Sound(ViewOf(st)) && Accepts(ViewOf(st), p) {
      AppliedAgrees(st, p);
    }
  }

  /** A refused event changes nothing, but for the events that take something off a list first. */
  lemma RefusedChangesNothing(st: ZoneState, p: Payload)
    requires !p.ObjectMove? && !p.ObjectAdminRelocate? && !p.ObjectMoveSubcontainer? && !p.ExitUpdate?
    ensures Applied(st, p).1 != Done ==> Applied(st, p).0 == st
  {
  }

  lemma RemoveUnlisted(st: ZoneState, c: Container, o: Id)
    requires Resolves(st, c) && o !in Contents(st, c)
    ensures RemoveObject(st, c, o) == st
  {
    match c
    case InLocation(l) => RemoveAbsent(st.locations[l].objects, o);
    case InObject(y) => RemoveAbsent(st.objects[y].contents, o);
    case InActor(a) =>
      RemovedAbsent(st.actors[a].inventory, o);
      hide Removed, Inv.Objects;
  }

  /** Taking an object off a list it is not on changes nothing. */
  lemma RemoveAbsentObject(st: ZoneState, c: Container, o: Id)
    requires ObjectsListed(st) && Resolves(st, c) && o in st.objects && st.objects[o].container != c
    ensures RemoveObject(st, c, o) == st
  {
    assert Lists(st, c);
    hide NoDup, RemoveObject, Contents, ObjectsListed;
    RemoveUnlisted(st, c, o);
  }

  /** Something of the event is missing, or is not where the event takes it from. */
  predicate Missing(st: ZoneState, p: Payload)
  {
    match p
    case ObjectMove(o, from, _, _) => o !in st.objects || st.objects[o].container != from
    case ObjectAdminRelocate(o, _, _) => o !in st.objects || !Resolves(st, st.objects[o].container)
    case ObjectMoveSubcontainer(o, fromSub, _) =>
      || o !in st.objects || !st.objects[o].container.InActor? || PlaceOf(fromSub).None?
      || PlaceOf(fromSub) != PlaceWithin(st, st.objects[o].container, o)
    case ExitUpdate(x, _, _, source, destZone, destLocation) =>
      x !in st.exits || source !in st.locations || destLocation == NIL
        || (destZone == NIL && destLocation !in st.locations)
    case _ => true
  }

  /**
   * A refused event leaves the links as they are exactly when something of it was missing, and
   * then it changes nothing at all; else it was refused with the thing already off its list.
   */
  lemma RefusedExactly(st: ZoneState, p: Payload)
    requires Linked(st) && Sound(ViewOf(st)) && Applied(st, p).1 == Refused
    ensures Linked(Applied(st, p).0) <==> Missing(st, p)
    ensures Applied(st, p).0 == st <==> Missing(st, p)
  {
    hide Linked, Sound;
    match p
    case ObjectMove(_, _, _, _) | ObjectAdminRelocate(_, _, _) => RefusedMoveExactly(st, p);
    case ObjectMoveSubcontainer(o, fromSub, sub) => RefusedPlaceExactly(st, o, fromSub, sub);
    case ExitUpdate(x, desc, direction, source, destZone, destLocation) =>
      if !Missing(st, p) {
        hide UpdateExit;
        ExitFacts(st, x);
        UpdateExitExactly(st, x, desc, direction, source, destZone, destLocation);
      }
    case _ => RefusedChangesNothing(st, p);
  }

  lemma NothingToTakeFrom(st: ZoneState, c: Container, o: Id)
    requires !Resolves(st, c)
    ensures RemoveObject(st, c, o) == st
  {
  }

  lemma RefusedMoveExactly(st: ZoneState, p: Payload)
    requires Linked(st) && Applied(st, p).1 == Refused && (p.ObjectMove? || p.ObjectAdminRelocate?)
    ensures Linked(Applied(st, p).0) <==> Missing(st, p)
    ensures Applied(st, p).0 == st <==> Missing(st, p)
  {
    hide RemoveObject, AddObject, Room;
    if p.object_ in st.objects {
      var o, at := p.object_, st.objects[p.object_].container;
      var from := if p.ObjectMove? then p.fromContainer else at;
      if from == at {
        assert ObjectsListed(st);
        hide Linked;
        if Resolves(st, at) && Resolves(st, p.container) {
          MoveObjectExactly(st, o, p.container, p.subcontainer);
          RefusedMoveBreaksLinks(st, o, p.container, p.subcontainer);
        } else if !Resolves(st, at) {
          NothingToTakeFrom(st, at, o);
        }
      } else if Resolves(st, from) {
        RemoveAbsentObject(st, from, o);
      }
    }
  }

  lemma RefusedPlaceExactly(st: ZoneState, o: Id, fromSub: string, sub: string)
    requires Linked(st) && Applied(st, ObjectMoveSubcontainer(o, fromSub, sub)).1 == Refused
    ensures var p := ObjectMoveSubcontainer(o, fromSub, sub);
      (Linked(Applied(st, p).0) <==> Missing(st, p)) && (Applied(st, p).0 == st <==> Missing(st, p))
  {
    hide Linked, PlaceOf, PlaceWithin;
    if o in st.objects && Resolves(st, st.objects[o].container) {
      if st.objects[o].container.InActor? {
        hide MoveSubcontainer;
        RefusedPlace(st, o, fromSub, sub);
      }
    }
  }

  lemma RefusedPlace(st: ZoneState, o: Id, fromSub: string, sub: string)
    requires Linked(st) && o in st.objects && st.objects[o].container.InActor? && Resolves(st, st.objects[o].container)
    requires !MoveSubcontainer(st, st.objects[o].container, o, fromSub, sub).1
    ensures var t, missing := MoveSubcontainer(st, st.objects[o].container, o, fromSub, sub).0,
                              Missing(st, ObjectMoveSubcontainer(o, fromSub, sub));
      (Linked(t) <==> missing) && (t == st <==> missing)
  {
    var c := st.objects[o].container;
    hide Linked, PlaceOf, PlaceWithin, MoveSubcontainer;
    MoveSubcontainerExactly(st, o, fromSub, sub);
    RefusedPlaceMeans(st, c.id, o, fromSub, sub);
    if PlaceOf(fromSub).Some? && PlaceOf(fromSub) != PlaceWithin(st, c, o) {
      PlaceIsOne(st, o, c.id, PlaceOf(fromSub).value);
      SameInventory(st, c.id);
      hide WithInventory;
    }
  }

  lemma RefusedPlaceMeans(st: ZoneState, a: Id, o: Id, fromSub: string, sub: string)
    requires a in st.actors && !MoveSubcontainer(st, InActor(a), o, fromSub, sub).1
    ensures var t, inv := MoveSubcontainer(st, InActor(a), o, fromSub, sub).0, st.actors[a].inventory;
      if PlaceOf(fromSub).None? then t == st
      else
        var src := PlaceOf(fromSub).value;
        PlaceOf(sub).None? && t == WithInventory(st, a, inv.WithList(src, Remove(inv.List(src), o)))
  {
    hide PlaceOf, WithInventory, Remove, MovedTo;
  }

  lemma PlaceIsOne(st: ZoneState, o: Id, a: Id, src: Place)
    requires Linked(st) && o in st.objects && st.objects[o].container == InActor(a) && a in st.actors
    requires PlaceWithin(st, InActor(a), o) != Some(src)
    ensures var inv := st.actors[a].inventory; inv.WithList(src, Remove(inv.List(src), o)) == inv
  {
    ListedAt(st, o, a);
    hide Linked;
    RemovedWhereItIs(st.actors[a].inventory, o, PlaceFor(st.actors[a].inventory, o).value, src);
  }

  lemma LinkedAside(st: ZoneState, n: nat)
    requires Linked(st)
    ensures Linked(st.(nextSequenceId := n)) && ViewOf(st.(nextSequenceId := n)) == ViewOf(st).(nextSequenceId := n)
  {
    var t := st.(nextSequenceId := n);
    hide NoDup, Contents;
    assert forall c :: Resolves(t, c) ==> Resolves(st, c) && Lists(st, c) && Contents(t, c) == Contents(st, c) by {
      SameContentsAndPlaces(st, t);
    }
  }

  ghost predicate EventAgrees(st: ZoneState, e: Event)
  {
    var (t, r) := AppliedEvent(st, e);
    r == Done && Linked(t) && ViewOf(t) == Apply(ViewOf(st), e)
  }

  lemma AppliedEventAgrees(st: ZoneState, e: Event)
    requires Linked(st) && Sound(ViewOf(st)) && Accepts(ViewOf(st), e.payload)
    ensures EventAgrees(st, e)
  {
    hide Linked, Sound, Accepts, Applied, Effect, ViewOf;
    AppliedAgrees(st, e.payload);
    LinkedAside(Applied(st, e.payload).0, e.sequenceNumber + 1);
  }

  /** Replaying events a zone can take goes through, and agrees with the view. */
  lemma {:induction false} ReplayedAgrees(st: ZoneState, es: seq<Event>)
    requires Linked(st) && Sound(ViewOf(st)) && AcceptsAll(ViewOf(st), es)
    ensures var (t, r) := Replayed(st, es);
      r == Done && Linked(t) && Sound(ViewOf(t)) && ViewOf(t) == ApplyAll(ViewOf(st), es)
    decreases |es|
  {
    hide Linked, Sound, Accepts, AppliedEvent, Apply, ViewOf, NoOrphans;
    if es != [] {
      AppliedEventAgrees(st, es[0]);
      ApplyKeepsSound(ViewOf(st), es[0]);
      ReplayedAgrees(AppliedEvent(st, es[0]).0, es[1..]);
    }
  }

  lemma CountedOn(st: ZoneState, p: Payload, n: nat)
    requires Linked(st) && Sound(ViewOf(st)) && Accepts(ViewOf(st), p)
    ensures var on := st.(nextSequenceId := n);
      && Linked(on) && Sound(ViewOf(on)) && Accepts(ViewOf(on), p)
      && Effect(ViewOf(on), p) == Effect(ViewOf(st), p).(nextSequenceId := n)
  {
    hide Linked, Sound, Accepts, Effect, NoOrphans, ViewOf;
    LinkedAside(st, n);
    SequenceNumberAside(ViewOf(st), n);
    AcceptsAside(ViewOf(st), p, n);
    EffectAside(ViewOf(st), p, n);
  }

  lemma SubmittedAgrees(st: ZoneState, p: Payload)
    requires Linked(st) && Sound(ViewOf(st)) && Accepts(ViewOf(st), p)
    ensures var (t, r) := Submitted(st, p);
      && r == Done && Linked(t) && Sound(ViewOf(t)) && t.nextSequenceId == st.nextSequenceId + 1
      && ViewOf(t) == Effect(ViewOf(st), p).(nextSequenceId := st.nextSequenceId + 1)
  {
    hide Linked, Sound, Accepts, Effect, NoOrphans, Applied, ViewOf;
    var n := st.nextSequenceId + 1;
    var on := st.(nextSequenceId := n);
    CountedOn(st, p, n);
    AppliedEventAgrees(on, Event(st.nextSequenceId, p));
    ApplyKeepsSound(ViewOf(on), Event(st.nextSequenceId, p));
  }

  /** The events of a command, if the zone can take them all. */
  lemma {:induction false} SubmittedAllAgrees(st: ZoneState, v: View, ps: seq<Payload>, k: nat)
    requires Linked(st) && Sound(ViewOf(st)) && AcceptsEach(v, ps) && Sound(v) && k <= |ps|
    requires ViewOf(st) == EffectAll(v, ps[..k]).(nextSequenceId := st.nextSequenceId)
    ensures var (t, r) := SubmittedAll(st, ps[k..]);
      && r == Done && Linked(t) && Sound(ViewOf(t)) && t.nextSequenceId == st.nextSequenceId + |ps| - k
      && ViewOf(t) == EffectAll(v, ps).(nextSequenceId := t.nextSequenceId)
    decreases |ps| - k
  {
    hide Linked, Sound, Accepts, Effect, Submitted;
    if k == |ps| {
      assert ps[..k] == ps && ps[k..] == [];
    } else {
      var p, w := ps[k], EffectAll(v, ps[..k]);
      assert ps == ps[..k + 1] + ps[k + 1..] && ps[..k + 1] == ps[..k] + [p];
      EachConcat(v, ps[..k + 1], ps[k + 1..]);
      EachConcat(v, ps[..k], [p]);
      EachOne(w, p);
      hide AcceptsEach;
      AcceptsAside(w, p, st.nextSequenceId);
      EffectAside(w, p, st.nextSequenceId);
      SubmittedAgrees(st, p);
      var t := Submitted(st, p).0;
      assert ps[k..][1..] == ps[k + 1..];
      assert ViewOf(t) == EffectAll(v, ps[..k + 1]).(nextSequenceId := t.nextSequenceId);
      SubmittedAllAgrees(t, v, ps, k + 1);
    }
  }
}
