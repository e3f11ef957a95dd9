/**
 * What a zone checks before it turns a command into events, and exactly what more is needed for
 * the event to go through and keep the zone consistent.
 */
module ZoneCommands {
  import opened Wrappers
  import opened Bytes
  import opened UUIDLists
  import opened ZoneViews
  import opened ZoneInvariant
  import opened PayloadRuns
  import opened ZoneReplays
  import opened Inventories
  import opened ZoneStates
  import opened ZoneLinks
  import opened ZoneApplied
  import opened SnapshotOrder
  import opened ObjectTrees

  // ---------- commands that carry their event ----------

  /** The handlers' checks. */
  predicate Checked(st: ZoneState, p: Payload)
  {
    match p
    case ActorAddToZone(a, _, l) => l in st.locations && a !in st.actors
    case ActorMove(from, to, a) =>
      && from in st.locations && to in st.locations && a in st.actors
      && exists x :: x in st.locations[from].outExits && x in st.exits && st.exits[x].destination == Some(to)
    case ActorAdminRelocate(a, to) => a in st.actors && to in st.locations
    case ActorRemoveFromZone(a) => a in st.actors
    case ActorSpeak(a, _) => a in st.actors
    case LocationAddToZone(l, _) => l !in st.locations
    case LocationUpdate(l, _) => l in st.locations
    case ExitAddToZone(x, _, direction, source, destZone, destLocation) =>
      && x !in st.exits && source in st.locations && (destZone == NIL ==> destLocation in st.locations)
      && forall y :: y in st.locations[source].outExits && y in st.exits ==> st.exits[y].direction != direction
    case ExitUpdate(x, _, _, source, destZone, destLocation) =>
      && x in st.exits && source in st.locations && destLocation != NIL
      && (destZone == NIL ==> destLocation in st.locations)
      && Leads(st.exits[x])
    case ExitRemoveFromZone(x) => x in st.exits
    case ObjectAddToZone(o, _, c, _) => o !in st.objects && Resolves(st, c)
    case ObjectAdminRelocate(o, c, _) => o in st.objects && Resolves(st, c)
    case ObjectRemoveFromZone(o) => o in st.objects
    case ZoneSetDefaultLocation(l) => l in st.locations
    case _ => false
  }

  /** The four invalid prior states of an exit, none of which may be. */
  predicate Leads(x: ExitInfo)
  {
    && !(x.otherZone == NIL && x.otherLocation == NIL && x.destination.None?)
    && !(x.otherZone != NIL && x.otherLocation != NIL && x.destination.Some?)
    && !(x.otherZone == NIL && x.otherLocation != NIL)
    && !(x.otherZone != NIL && x.otherLocation == NIL)
  }

  /** What the handlers leave unchecked. */
  ghost predicate Unchecked(v: View, p: Payload)
  {
    match p
    case ActorMove(from, to, a) => a in v.actors && (v.actors[a].location == from || v.actors[a].location == to)
    case ActorRemoveFromZone(a) => Vacant(v, InActor(a))
    case ExitUpdate(x, _, direction, source, destZone, _) =>
      && x in v.exits && destZone != NIL && DirectionFree(v, x, source, direction)
      && (v.exits[x].source != source ==> DirectionFree(v, x, source, v.exits[x].direction))
    case ObjectAddToZone(o, _, c, sub) => Room(v, o, c, sub)
    case ObjectAdminRelocate(o, c, sub) => Room(v, o, c, sub) && NotInside(v, o, c)
    case ObjectRemoveFromZone(o) => Vacant(v, InObject(o))
    case _ => true
  }

  lemma ViewKeys(st: ZoneState)
    ensures var v := ViewOf(st);
      && v.locations.Keys == st.locations.Keys && v.actors.Keys == st.actors.Keys && v.objects.Keys == st.objects.Keys
      && v.exits == st.exits && forall c :: Resolves(st, c) <==> Exists(v, c)
  {
  }

  lemma ListedDirections(st: ZoneState, x: Id, source: Id, direction: string)
    requires ExitsListed(st) && source in st.locations && x !in st.exits
    ensures DirectionFree(ViewOf(st), x, source, direction) <==>
      forall y :: y in st.locations[source].outExits && y in st.exits ==> st.exits[y].direction != direction
  {
    hide NoDup;
  }

  /** Of what a checked command's event needs, only that is left which the handlers leave unchecked. */
  lemma CheckedLeaves(st: ZoneState, p: Payload)
    requires Linked(st) && Consistent(ViewOf(st)) && Checked(st, p)
    ensures Accepts(ViewOf(st), p) <==> Unchecked(ViewOf(st), p)
    ensures LeavesNoOrphans(ViewOf(st), p)
  {
    hide ActorsListed, ExitsListed, ObjectsListed, ConstraintsKept, Sound, NoDup, ViewOf, Leads;
    hide DirectionFree, Vacant, RoomAt, NotInside, Resolves;
    ViewKeys(st);
    if p.ActorAddToZone? {
      NoneInside(ViewOf(st), InActor(p.actor));
    } else if p.ObjectAddToZone? {
      NoneInside(ViewOf(st), InObject(p.object_));
    } else if p.ExitAddToZone? {
      ListedDirections(st, p.exit, p.source, p.direction);
    }
    hide NoOrphans;
  }

  lemma NoneInside(v: View, c: Container)
    requires NoOrphans(v) && !Exists(v, c)
    ensures Vacant(v, c)
  {
  }

  // ---------- what becomes of a checked event ----------

  /** Between commands: links agree, and the zone is consistent. */
  ghost predicate SettledState(st: ZoneState)
  {
    Linked(st) && Consistent(ViewOf(st))
  }

  /** The event is applied without an error and leaves the zone settled. */
  ghost predicate GoesThrough(st: ZoneState, p: Payload)
  {
    var (t, r) := Submitted(st, p);
    r == Done && SettledState(t)
  }

  lemma SettledAside(st: ZoneState, n: nat)
    ensures SettledState(st.(nextSequenceId := n)) <==> SettledState(st)
  {
    hide Linked, Sound, NoOrphans, ViewOf;
    var t := st.(nextSequenceId := n);
    if Linked(st) {
      LinkedAside(st, n);
      SequenceNumberAside(ViewOf(st), n);
      SequenceNumberAside(ViewOf(t), st.nextSequenceId);
      CounterOf(st);
    }
    if Linked(t) {
      LinkedAside(t, st.nextSequenceId);
      SequenceNumberAside(ViewOf(t), st.nextSequenceId);
      SequenceNumberAside(ViewOf(st), n);
      CounterOf(t);
    }
  }

  lemma CounterOf(st: ZoneState)
    ensures ViewOf(st).nextSequenceId == st.nextSequenceId
  {
  }

  lemma GoesThroughApplied(st: ZoneState, p: Payload)
    ensures GoesThrough(st, p) <==> Applied(st, p).1 == Done && SettledState(Applied(st, p).0)
  {
    hide Applied, SettledState;
    var n := st.nextSequenceId + 1;
    AppliedAside(st, p, n);
    if Applied(st, p).1 == Done {
      SettledAside(Applied(st, p).0, n);
    }
  }

  lemma AcceptedGoesThrough(st: ZoneState, p: Payload)
    requires SettledState(st) && Accepts(ViewOf(st), p) && LeavesNoOrphans(ViewOf(st), p)
    ensures GoesThrough(st, p)
    ensures ViewOf(Submitted(st, p).0) == Effect(ViewOf(st), p).(nextSequenceId := st.nextSequenceId + 1)
  {
    hide Linked, Sound, NoOrphans, Accepts, LeavesNoOrphans, Effect, Submitted, ViewOf;
    SubmittedAgrees(st, p);
    EffectKeepsNoOrphans(ViewOf(st), p);
    SequenceNumberAside(Effect(ViewOf(st), p), st.nextSequenceId + 1);
  }

  /** An actor taken from a list it is not on stays on the one it was on. */
  lemma MoveFromElsewhere(st: ZoneState, from: Id, to: Id, a: Id)
    requires SettledState(st) && from in st.locations && to in st.locations && a in st.actors
    requires st.actors[a].location != from && st.actors[a].location != to
    ensures !SettledState(Applied(st, ActorMove(from, to, a)).0)
  {
    hide Linked, MoveActor, WithinLimits, Acyclic, ObjectsPlaced, ExitsPlaced, DirectionsUnique, NoOrphans;
    assert ViewOf(st).actors[a].location == st.actors[a].location;
    MoveActorExactly(st, a, from, to);
  }

  lemma RemoveBurdened(st: ZoneState, a: Id)
    requires a in st.actors && !Vacant(ViewOf(st), InActor(a))
    ensures !SettledState(Applied(st, ActorRemoveFromZone(a)).0)
  {
    hide Linked, Sound, Remove;
    VacantMeans(st, InActor(a));
    var o :| o in st.objects && st.objects[o].container == InActor(a);
    var t := DropActor(st, a);
    assert ViewOf(t).objects[o].container == InActor(a);
  }

  /** An object somewhere else: settled again exactly when there was room and it is not put into itself. */
  lemma RelocatedExactly(st: ZoneState, o: Id, c: Container, sub: string)
    requires SettledState(st) && o in st.objects && Resolves(st, c)
    ensures var (t, r) := MoveObject(st, o, st.objects[o].container, c, sub);
      r == Done && SettledState(t) <==> Room(ViewOf(st), o, c, sub) && NotInside(ViewOf(st), o, c)
  {
    hide Linked, Consistent, MoveObject, Room, NotInside, PlaceIn;
    ViewKeys(st);
    assert Linked(st) by { SettledLinked(st); }
    MoveObjectExactly(st, o, c, sub);
    if Room(ViewOf(st), o, c, sub) {
      MoveObjectAgrees(st, o, c, sub);
      MovedPlaceView(st, ObjectAdminRelocate(o, c, sub));
      hide ViewOf;
      RelocatedInRoom(ViewOf(st), o, c, sub);
    }
  }

  /** Given room, what matters is that the object does not go into itself. */
  lemma RelocatedInRoom(v: View, o: Id, c: Container, sub: string)
    requires Consistent(v) && o in v.objects && Room(v, o, c, sub)
    ensures Consistent(Effect(v, ObjectAdminRelocate(o, c, sub))) <==> NotInside(v, o, c)
  {
    var p := ObjectAdminRelocate(o, c, sub);
    hide WithinLimits, Acyclic, ActorsPlaced, ObjectsPlaced, ExitsPlaced, DirectionsUnique, NoOrphans, RoomAt;
    hide NotInside;
    if NotInside(v, o, c) {
      assert Accepts(v, p) && LeavesNoOrphans(v, p);
      hide Accepts, Effect;
      EffectKeepsSound(v, p);
      EffectKeepsNoOrphans(v, p);
    } else {
      assert c.InObject? by { NotInsideUnlessObject(v, o, c); }
      MoveAcyclicExactly(v, o, c.id, sub);
      assert Effect(v, p) == Changed(v, Contained(v, o, c, sub));
      hide Effect;
    }
  }

  lemma NotInsideUnlessObject(v: View, o: Id, c: Container)
    ensures !NotInside(v, o, c) ==> c.InObject?
  {
  }

  lemma RemoveFilled(st: ZoneState, o: Id)
    requires SettledState(st) && o in st.objects && !Vacant(ViewOf(st), InObject(o))
    ensures !SettledState(Applied(st, ObjectRemoveFromZone(o)).0)
  {
    hide Linked, WithinLimits, Acyclic, ActorsPlaced, ObjectsPlaced, ExitsPlaced, DirectionsUnique, NoOrphans;
    hide DropObject, Vacant;
    ViewKeys(st);
    DropObjectAgrees(st, o);
    ObjectRemovalExactly(ViewOf(st), o);
  }

  lemma AddWithoutRoom(st: ZoneState, p: Payload)
    requires Linked(st) && p.ObjectAddToZone? && p.object_ !in st.objects && Resolves(st, p.container)
    requires !Room(ViewOf(st), p.object_, p.container, p.subcontainer)
    ensures Applied(st, p).1 != Done
  {
    hide Linked, PutObject, Room;
    PutObjectExactly(st, p.object_, p.objInfo, p.container, p.subcontainer);
  }

  lemma UpdateUnchecked(st: ZoneState, p: Payload)
    requires SettledState(st) && p.ExitUpdate? && Checked(st, p) && !Unchecked(ViewOf(st), p)
    ensures Applied(st, p).1 != Done || !SettledState(Applied(st, p).0)
  {
    hide Linked, WithinLimits, Acyclic, ActorsPlaced, ObjectsPlaced, NoOrphans, UpdateExit, DirectionFree, Leads;
    ViewKeys(st);
    var x, v := p.exit, ViewOf(st);
    ExitFacts(st, x);
    if st.exits[x].source == p.source || DirectionFree(v, x, p.source, st.exits[x].direction) {
      TakenUpdateAgrees(st, p);
      ExitUpdateExactly(v, p);
      hide ExitsPlaced, DirectionsUnique;
    } else {
      UpdateExitExactly(st, x, p.desc, p.direction, p.source, p.destZone, p.destLocation);
    }
  }

  lemma UncheckedFails(st: ZoneState, p: Payload)
    requires SettledState(st) && Checked(st, p) && !Unchecked(ViewOf(st), p)
    ensures Applied(st, p).1 != Done || !SettledState(Applied(st, p).0)
  {
    ViewKeys(st);
    hide SettledState, ViewOf, Room, NotInside, Vacant, DirectionFree;
    match p
    case ActorMove(from, to, a) =>
      ViewLocation(st, a);
      MoveFromElsewhere(st, from, to, a);
    case ActorRemoveFromZone(a) => RemoveBurdened(st, a);
    case ExitUpdate(_, _, _, _, _, _) => hide Applied, Checked, Unchecked; UpdateUnchecked(st, p);
    case ObjectAddToZone(_, _, _, _) => hide Applied; SettledLinked(st); AddWithoutRoom(st, p);
    case ObjectAdminRelocate(o, c, sub) => hide MoveObject; RelocatedExactly(st, o, c, sub);
    case ObjectRemoveFromZone(o) => RemoveFilled(st, o);
    case _ =>
  }

  lemma ViewLocation(st: ZoneState, a: Id)
    requires a in st.actors
    ensures ViewOf(st).actors[a].location == st.actors[a].location
  {
  }

  lemma SettledLinked(st: ZoneState)
    requires SettledState(st)
    ensures Linked(st)
  {
  }

  /**
   * A checked command's event is applied without an error and leaves the zone settled exactly
   * when what the handlers leave unchecked holds too; and then it does what the view says.
   */
  lemma CheckedExactly(st: ZoneState, p: Payload)
    requires SettledState(st) && Checked(st, p)
    ensures GoesThrough(st, p) <==> Unchecked(ViewOf(st), p)
    ensures GoesThrough(st, p) ==>
      ViewOf(Submitted(st, p).0) == Effect(ViewOf(st), p).(nextSequenceId := st.nextSequenceId + 1)
  {
    hide Linked, Consistent, Checked, Unchecked, Applied, Effect, Accepts, ViewOf, LeavesNoOrphans, GoesThrough;
    hide Submitted;
    CheckedLeaves(st, p);
    if Unchecked(ViewOf(st), p) {
      AcceptedGoesThrough(st, p);
    } else {
      UncheckedFails(st, p);
      GoesThroughApplied(st, p);
    }
  }

  /** A command whose event is refused has changed nothing but the counter exactly when something was missing. */
  lemma RefusedCommandExactly(st: ZoneState, p: Payload)
    requires SettledState(st) && Submitted(st, p).1 == Refused
    ensures SameButCounter(st, Submitted(st, p).0) <==> Missing(st, p)
  {
    hide Linked, Sound, NoOrphans, ViewOf, Applied, Missing;
    AppliedAside(st, p, st.nextSequenceId + 1);
    AppliedAside(st, p, st.nextSequenceId);
    RefusedExactly(st, p);
  }

  // ---------- moving objects ----------

  /** Container.Location: up through containers to where it all lies. */
  function LocationOf(st: ZoneState, c: Container, seen: set<Id>): Option<Id>
    decreases st.objects.Keys - seen
  {
    match c
    case InLocation(l) => Some(l)
    case InActor(a) => if a in st.actors then Some(st.actors[a].location) else None
    case InObject(o) =>
      if o in st.objects && o !in seen then LocationOf(st, st.objects[o].container, seen + {o}) else None
  }

  /** Everything leads up: r falls from object to container. */
  ghost predicate LeadsUp(st: ZoneState, r: map<Id, nat>)
  {
    && (forall a :: a in st.actors ==> st.actors[a].location in st.locations)
    && r.Keys == st.objects.Keys
    && forall o :: o in st.objects ==>
         && Resolves(st, st.objects[o].container)
         && (st.objects[o].container.InObject? ==> r[st.objects[o].container.id] < r[o])
  }

  lemma LeadsUpFrom(st: ZoneState, r: map<Id, nat>, o: Id)
    requires LeadsUp(st, r) && o in st.objects
    ensures o in r && Resolves(st, st.objects[o].container)
    ensures st.objects[o].container.InObject? ==>
      st.objects[o].container.id in r && r[st.objects[o].container.id] < r[o]
  {
  }

  lemma {:induction false} LocationFoundBy(st: ZoneState, r: map<Id, nat>, c: Container, seen: set<Id>)
    requires LeadsUp(st, r) && Resolves(st, c)
    requires c.InObject? ==> forall x :: x in seen && x in r ==> r[c.id] < r[x]
    ensures LocationOf(st, c, seen).Some? && LocationOf(st, c, seen).value in st.locations
    decreases if c.InObject? then 1 + r[c.id] else 0
  {
    if c.InObject? {
      LocationFoundBy(st, r, st.objects[c.id].container, seen + {c.id});
    }
  }

  lemma ActorsLeadUp(st: ZoneState)
    requires ActorsPlaced(ViewOf(st))
    ensures forall a :: a in st.actors ==> st.actors[a].location in st.locations
  {
    hide ObjectViews;
    forall a | a in st.actors
      ensures st.actors[a].location in st.locations
    {
      assert ViewOf(st).actors[a].location == st.actors[a].location;
    }
  }

  lemma ObjectLeadsUp(st: ZoneState, o: Id)
    requires NoOrphans(ViewOf(st)) && o in st.objects
    ensures Resolves(st, st.objects[o].container)
    ensures st.objects[o].container.InObject? ==> ChildOf(ViewOf(st), o, st.objects[o].container.id)
  {
    ViewContainer(st, o);
    ViewKeys(st);
    hide ViewOf;
  }

  /** In a consistent zone everything leads up. */
  lemma RanksUp(st: ZoneState) returns (r: map<Id, nat>)
    requires Consistent(ViewOf(st))
    ensures LeadsUp(st, r)
  {
    var v := ViewOf(st);
    r := RankObjects(v, v.objects.Keys);
    ActorsLeadUp(st);
    ViewKeys(st);
    hide Sound, NoOrphans, ViewOf, ChildOf, Resolves;
    forall o | o in st.objects
      ensures Resolves(st, st.objects[o].container)
      ensures st.objects[o].container.InObject? ==>
        st.objects[o].container.id in r && r[st.objects[o].container.id] < r[o]
    {
      ObjectLeadsUp(st, o);
      ResolvedObject(st, st.objects[o].container);
    }
  }

  lemma ResolvedObject(st: ZoneState, c: Container)
    ensures Resolves(st, c) && c.InObject? ==> c.id in st.objects
  {
  }

  /** So the way up ends, in a location of the zone. */
  lemma LocationFound(st: ZoneState, c: Container)
    requires Consistent(ViewOf(st)) && Resolves(st, c)
    ensures LocationOf(st, c, {}).Some? && LocationOf(st, c, {}).value in st.locations
  {
    hide Sound, NoOrphans, ViewOf, LeadsUp, LocationOf;
    var r := RanksUp(st);
    LocationFoundBy(st, r, c, {});
  }

  const LOCATION_CAPACITY := 32767

  function Capacity(st: ZoneState, c: Container): int
    requires Resolves(st, c)
  {
    match c
    case InLocation(_) => LOCATION_CAPACITY
    case InActor(a) =>
      var k := st.actors[a].inventory.constraints;
      k.backSlots + k.beltSlots + k.bodySlots + k.handSlots
    case InObject(o) => st.objects[o].info.capacity
  }

  /** It is the container moved from whose fullness is checked. */
  predicate MoveChecked(st: ZoneState, o: Id, actor: Option<Id>, from: Container, to: Container)
  {
    && o in st.objects && from != to && Resolves(st, from) && Resolves(st, to)
    && o in Contents(st, from) && LocationOf(st, from, {}) == LocationOf(st, to, {})
    && |Contents(st, from)| < Capacity(st, from)
    && (from.InActor? || to.InActor?)
    && !(from.InActor? && to.InActor? && actor == Some(to.id))
  }

  /**
   * Wherever the command asked for the object to go, it is put into the hands; and that works out
   * exactly when they have room, or when it does not go into itself.
   */
  lemma MoveCheckedExactly(st: ZoneState, o: Id, actor: Option<Id>, from: Container, to: Container)
    requires SettledState(st) && MoveChecked(st, o, actor, from, to)
    ensures GoesThrough(st, ObjectMove(o, from, to, ANY)) <==>
      (to.InActor? ==> RoomAt(ViewOf(st), o, to.id, Hands)) && NotInside(ViewOf(st), o, to)
    ensures GoesThrough(st, ObjectMove(o, from, to, ANY)) <==> Accepts(ViewOf(st), ObjectMove(o, from, to, ANY))
  {
    hide LocationOf, Capacity, Lists, RoomAt, NotInside, ViewOf, Resolves, Contents, SettledState, GoesThrough;
    hide MoveObject;
    hide ActorsListed, ExitsListed, ObjectsListed, ConstraintsKept;
    SettledLinked(st);
    ContentsInside(st, from, o);
    ViewKeys(st);
    ViewContainer(st, o);
    GoesThroughApplied(st, ObjectMove(o, from, to, ANY));
    RelocatedExactly(st, o, to, ANY);
  }

  lemma ViewContainer(st: ZoneState, o: Id)
    requires o in st.objects
    ensures ViewOf(st).objects[o].container == st.objects[o].container
  {
  }

  predicate MoveSubcontainerChecked(st: ZoneState, o: Id, actor: Id, fromSub: string, sub: string)
  {
    && o in st.objects && actor in st.actors
    && Resolves(st, st.objects[o].container) && st.objects[o].container.InActor?
    && LocationOf(st, InActor(actor), {}) == LocationOf(st, st.objects[o].container, {})
    && PlaceOf(fromSub).Some? && PlaceOf(sub).Some?
    && CanMove(st.actors[st.objects[o].container.id].inventory, NoSize, o, PlaceOf(fromSub).value, PlaceOf(sub).value)
  }

  /** Here the check is enough. */
  lemma MoveSubcontainerCheckedAccepts(st: ZoneState, o: Id, actor: Id, fromSub: string, sub: string)
    requires Linked(st) && MoveSubcontainerChecked(st, o, actor, fromSub, sub)
    ensures Accepts(ViewOf(st), ObjectMoveSubcontainer(o, fromSub, sub))
  {
    hide LocationOf, ActorsListed, ExitsListed, ObjectsListed, PlaceFor, PlaceOf, RoomAt;
    var a := st.objects[o].container.id;
    var src, dst := PlaceOf(fromSub).value, PlaceOf(sub).value;
    var inv := st.actors[a].inventory;
    ListedAt(st, o, a);
    assert o in inv.List(src);
    PlaceForExactly(inv, o, src);
    RoomForMove(st, a, dst, o);
    hide Separate, CanMove;
    assert ViewOf(st).objects[o] == ObjectViewOf(st, o);
    assert ViewOf(st).objects[o].place == Some(src);
    NamedPlace(sub);
  }

  lemma NamedPlace(sub: string)
    ensures PlaceOf(sub).Some? ==> AddPlace(sub) == PlaceOf(sub)
  {
  }

  lemma RoomForMove(st: ZoneState, a: Id, p: Place, o: Id)
    requires ObjectsListed(st) && ConstraintsKept(st) && a in st.actors
    requires var inv := st.actors[a].inventory;
      && |inv.List(p)| + 1 <= inv.constraints.MaxItems(p)
      && Total(NoSize, inv.List(p)) + Size(NoSize, o) <= inv.constraints.Slots(p)
    ensures RoomAt(ViewOf(st), o, a, p)
  {
    PlaceSize(st, a, p, o);
    NoSizeTotal(st.actors[a].inventory.List(p));
    hide At, ObjectsListed;
  }

  lemma PlaceSize(st: ZoneState, a: Id, p: Place, o: Id)
    requires ObjectsListed(st) && a in st.actors
    ensures |At(ViewOf(st), a, p) - {o}| <= |st.actors[a].inventory.List(p)|
  {
    var list, at := st.actors[a].inventory.List(p), At(ViewOf(st), a, p);
    assert Lists(st, InActor(a));
    SeparateIsNoDup(st.actors[a].inventory);
    ListsArePlaces(st.actors[a].inventory);
    forall y
      ensures y in list <==> y in at
    {
      AtExactly(st, a, p, y);
    }
    NoDupSize(list, at);
    SubsetSize(at - {o}, at);
  }

  // ---------- several events ----------

  lemma SubmittingAgrees(st: ZoneState, ps: seq<Payload>)
    requires Linked(st) && Sound(ViewOf(st)) && AcceptsEach(ViewOf(st), ps)
    ensures var (t, r) := SubmittedAll(st, ps);
      && r == Done && Linked(t) && Sound(ViewOf(t)) && t.nextSequenceId == st.nextSequenceId + |ps|
      && ViewOf(t) == EffectAll(ViewOf(st), ps).(nextSequenceId := t.nextSequenceId)
  {
    hide Linked, Sound, ViewOf, AcceptsEach;
    var v := ViewOf(st);
    CounterOf(st);
    assert ps[..0] == [] && ps[0..] == ps && EffectAll(v, []) == v;
    hide EffectAll, SubmittedAll;
    SubmittedAllAgrees(st, v, ps, 0);
  }

  /** Events that the zone can take one after the other, and that strand nothing in the end. */
  lemma SubmittingSettles(st: ZoneState, ps: seq<Payload>)
    requires SettledState(st) && AcceptsEach(ViewOf(st), ps) && NoOrphans(EffectAll(ViewOf(st), ps))
    ensures var (t, r) := SubmittedAll(st, ps);
      && r == Done && SettledState(t) && t.nextSequenceId == st.nextSequenceId + |ps|
      && ViewOf(t) == EffectAll(ViewOf(st), ps).(nextSequenceId := t.nextSequenceId)
  {
    hide Linked, Sound, NoOrphans, AcceptsEach, EffectAll, SubmittedAll, ViewOf;
    SubmittingAgrees(st, ps);
    SequenceNumberAside(EffectAll(ViewOf(st), ps), SubmittedAll(st, ps).0.nextSequenceId);
  }

  lemma SubmittedOne(st: ZoneState, p: Payload)
    ensures SubmittedAll(st, [p]) == Submitted(st, p)
  {
    hide Submitted;
    assert [p][1..] == [];
  }

  lemma {:induction false} SubmittedConcat(st: ZoneState, ps: seq<Payload>, qs: seq<Payload>)
    ensures SubmittedAll(st, ps).1 == Done ==> SubmittedAll(st, ps + qs) == SubmittedAll(SubmittedAll(st, ps).0, qs)
    ensures SubmittedAll(st, ps).1 != Done ==> SubmittedAll(st, ps + qs) == SubmittedAll(st, ps)
    decreases |ps|
  {
    hide Submitted;
    if ps == [] {
      assert ps + qs == qs;
    } else {
      assert (ps + qs)[1..] == ps[1..] + qs;
      SubmittedConcat(Submitted(st, ps[0]).0, ps[1..], qs);
    }
  }

  lemma EmptyLinked()
    ensures Linked(EMPTY_ZONE) && ViewOf(EMPTY_ZONE) == EMPTY
  {
  }
}
