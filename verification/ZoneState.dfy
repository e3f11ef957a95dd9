/**
 * The state of a zone with its two-way links: locations list their actors, objects and exits,
 * actors and objects list what they hold; and what applying an event does to it. IDs stand for
 * the pointers of the program.
 */
module ZoneStates {
  import opened Wrappers
  import opened Bytes
  import opened UUIDLists
  import opened ZoneViews
  import opened Inventories

  datatype LocationState = LocationState(info: LocationInfo, actors: seq<Id>, objects: seq<Id>, outExits: seq<Id>)

  datatype ActorState = ActorState(info: ActorInfo, location: Id, inventory: Inv)

  datatype ObjectState = ObjectState(info: ObjectInfo, container: Container, contents: seq<Id>)

  datatype ZoneState = ZoneState(
    locations: map<Id, LocationState>,
    actors: map<Id, ActorState>,
    exits: map<Id, ExitInfo>,
    objects: map<Id, ObjectState>,
    defaultLocation: Option<Id>,
    nextSequenceId: nat)

  const EMPTY_ZONE := ZoneState(map[], map[], map[], map[], None, 0)

  /** Objects are made without inventory slots, so in a zone nothing has a size. */
  function NoSize(x: Id): int
  {
    0
  }

  // ---------- what it means ----------

  predicate Resolves(st: ZoneState, c: Container)
  {
    match c
    case InLocation(l) => l in st.locations
    case InActor(a) => a in st.actors
    case InObject(o) => o in st.objects
  }

  function Contents(st: ZoneState, c: Container): seq<Id>
    requires Resolves(st, c)
  {
    match c
    case InLocation(l) => st.locations[l].objects
    case InActor(a) => st.actors[a].inventory.Objects()
    case InObject(o) => st.objects[o].contents
  }

  /** The place a container has for an object: only actors have places. */
  function PlaceWithin(st: ZoneState, c: Container, o: Id): Option<Place>
  {
    if c.InActor? && c.id in st.actors then PlaceFor(st.actors[c.id].inventory, o) else None
  }

  function ObjectViewOf(st: ZoneState, o: Id): ObjectView
    requires o in st.objects
  {
    ObjectView(st.objects[o].info, st.objects[o].container, PlaceWithin(st, st.objects[o].container, o))
  }

  function LocationViews(st: ZoneState): map<Id, LocationInfo>
  {
    map l | l in st.locations :: st.locations[l].info
  }

  function ActorViews(st: ZoneState): map<Id, ActorView>
  {
    map a | a in st.actors :: ActorView(st.actors[a].info, st.actors[a].location)
  }

  function ObjectViews(st: ZoneState): map<Id, ObjectView>
  {
    map o | o in st.objects :: ObjectViewOf(st, o)
  }

  function ViewOf(st: ZoneState): View
  {
    View(LocationViews(st), ActorViews(st), st.exits, ObjectViews(st), st.defaultLocation, st.nextSequenceId)
  }

  /** Every location lists exactly the actors that are there. */
  ghost predicate ActorsListed(st: ZoneState)
  {
    forall l :: l in st.locations ==>
      && NoDup(st.locations[l].actors)
      && forall a :: a in st.locations[l].actors <==> a in st.actors && st.actors[a].location == l
  }

  ghost predicate ExitsListed(st: ZoneState)
  {
    forall l :: l in st.locations ==>
      && NoDup(st.locations[l].outExits)
      && forall x :: x in st.locations[l].outExits <==> x in st.exits && st.exits[x].source == l
  }

  /** The container lists exactly the objects that say they are in it, each once. */
  ghost predicate Lists(st: ZoneState, c: Container)
    requires Resolves(st, c)
  {
    && NoDup(Contents(st, c))
    && forall o :: o in Contents(st, c) <==> o in st.objects && st.objects[o].container == c
  }

  ghost predicate ObjectsListed(st: ZoneState)
  {
    forall c :: Resolves(st, c) ==> Lists(st, c)
  }

  ghost predicate ConstraintsKept(st: ZoneState)
  {
    forall a :: a in st.actors ==> st.actors[a].inventory.constraints == st.actors[a].info.constraints
  }

  ghost predicate Linked(st: ZoneState)
  {
    ActorsListed(st) && ExitsListed(st) && ObjectsListed(st) && ConstraintsKept(st)
  }

  // ---------- the methods of locations, actors and objects ----------

  /** Location.addActor; a location that has left the zone still takes the actor, unseen. */
  function AddActor(st: ZoneState, l: Id, a: Id): ZoneState
  {
    if l !in st.locations || a in st.locations[l].actors then st
    else st.(locations := st.locations[l := st.locations[l].(actors := st.locations[l].actors + [a])])
  }

  /** The same for an actor just made: lists hold pointers, and none has that of a new entity, whatever its ID. */
  function AddNewActor(st: ZoneState, l: Id, a: Id): ZoneState
  {
    if l !in st.locations then st
    else st.(locations := st.locations[l := st.locations[l].(actors := st.locations[l].actors + [a])])
  }

  function RemoveActor(st: ZoneState, l: Id, a: Id): ZoneState
  {
    if l !in st.locations then st
    else st.(locations := st.locations[l := st.locations[l].(actors := Remove(st.locations[l].actors, a))])
  }

  /** Location.addOutExit: an exit is listed once, and no two have the same direction. */
  function AddOutExit(st: ZoneState, l: Id, x: Id, direction: string): Option<ZoneState>
    requires l in st.locations
  {
    var exits := st.locations[l].outExits;
    if x in exits || exists y :: y in exits && y in st.exits && st.exits[y].direction == direction then None
    else Some(st.(locations := st.locations[l := st.locations[l].(outExits := exits + [x])]))
  }

  /** The same for an exit just made. */
  function AddNewExit(st: ZoneState, l: Id, x: Id, direction: string): Option<ZoneState>
    requires l in st.locations
  {
    var exits := st.locations[l].outExits;
    if exists y :: y in exits && y in st.exits && st.exits[y].direction == direction then None
    else Some(st.(locations := st.locations[l := st.locations[l].(outExits := exits + [x])]))
  }

  function RemoveExit(st: ZoneState, l: Id, x: Id): ZoneState
  {
    if l !in st.locations then st
    else st.(locations := st.locations[l := st.locations[l].(outExits := Remove(st.locations[l].outExits, x))])
  }

  /** Container.addObject, for each kind of container. */
  function AddObject(st: ZoneState, c: Container, o: Id, sub: string): Option<ZoneState>
    requires Resolves(st, c)
  {
    match c
    case InLocation(l) =>
      if o in st.locations[l].objects then None
      else Some(st.(locations := st.locations[l := st.locations[l].(objects := st.locations[l].objects + [o])]))
    case InActor(a) =>
      (match AfterAdd(st.actors[a].inventory, NoSize, o, sub)
       case Some(inv) => Some(st.(actors := st.actors[a := st.actors[a].(inventory := inv)]))
       case None => None)
    case InObject(y) =>
      if o in st.objects[y].contents then None
      else Some(st.(objects := st.objects[y := st.objects[y].(contents := st.objects[y].contents + [o])]))
  }

  /** The same for an object just made. */
  function AddNewObject(st: ZoneState, c: Container, o: Id, sub: string): Option<ZoneState>
    requires Resolves(st, c)
  {
    match c
    case InLocation(l) =>
      Some(st.(locations := st.locations[l := st.locations[l].(objects := st.locations[l].objects + [o])]))
    case InActor(_) => AddObject(st, c, o, sub)
    case InObject(y) =>
      Some(st.(objects := st.objects[y := st.objects[y].(contents := st.objects[y].contents + [o])]))
  }

  /** Container.removeObject; nothing is seen of it if the container has left the zone. */
  function RemoveObject(st: ZoneState, c: Container, o: Id): ZoneState
  {
    if !Resolves(st, c) then st
    else
      match c
      case InLocation(l) =>
        st.(locations := st.locations[l := st.locations[l].(objects := Remove(st.locations[l].objects, o))])
      case InActor(a) =>
        st.(actors := st.actors[a := st.actors[a].(inventory := Removed(st.actors[a].inventory, o))])
      case InObject(y) =>
        st.(objects := st.objects[y := st.objects[y].(contents := Remove(st.objects[y].contents, o))])
  }

  /** Container.moveObjectToSubcontainer; Some when the move is refused, with what has been done by then. */
  function MoveSubcontainer(st: ZoneState, c: Container, o: Id, fromSub: string, sub: string): (ZoneState, bool)
    requires Resolves(st, c)
  {
    if !c.InActor? then (st, sub == ANY)
    else
      var inv := st.actors[c.id].inventory;
      match (PlaceOf(fromSub), PlaceOf(sub))
      case (None, _) => (st, false)
      case (Some(src), None) => (WithInventory(st, c.id, inv.WithList(src, Remove(inv.List(src), o))), false)
      case (Some(src), Some(dst)) => (WithInventory(st, c.id, MovedTo(inv, o, src, dst)), true)
  }

  function WithInventory(st: ZoneState, a: Id, inv: Inv): ZoneState
    requires a in st.actors
  {
    st.(actors := st.actors[a := st.actors[a].(inventory := inv)])
  }

  // ---------- applying an event ----------

  /**
   * Refused: applyEvent returns an error. Unresolved: an ID does not resolve where the program
   * goes on with a nil pointer, which crashes it there or at the next use of that pointer.
   */
  datatype Outcome = Done | Refused | Unresolved

  function PutActor(st: ZoneState, a: Id, info: ActorInfo, l: Id): ZoneState
  {
    AddNewActor(st, l, a).(actors := st.actors[a := ActorState(info, l, EmptyInv(info.constraints))])
  }

  function MoveActor(st: ZoneState, a: Id, from: Id, to: Id): ZoneState
    requires a in st.actors
  {
    AddActor(RemoveActor(st, from, a), to, a).(actors := st.actors[a := st.actors[a].(location := to)])
  }

  function DropActor(st: ZoneState, a: Id): ZoneState
    requires a in st.actors
  {
    RemoveActor(st, st.actors[a].location, a).(actors := st.actors - {a})
  }

  function Reattribute(st: ZoneState, a: Id, t: Attributes): ZoneState
    requires a in st.actors
  {
    st.(actors := st.actors[a := st.actors[a].(info := st.actors[a].info.(attributes := t))])
  }

  /** A new object: listed by its container, then known to the zone. */
  function PutObject(st: ZoneState, o: Id, info: ObjectInfo, c: Container, sub: string): (ZoneState, Outcome)
  {
    if !Resolves(st, c) then (st, Unresolved)
    else
      match AddNewObject(st, c, o, sub)
      case None => (st, Refused)
      case Some(t) => (t.(objects := t.objects[o := ObjectState(info, c, [])]), Done)
  }

  /** Out of one list, then into another: if the second step fails the first has been done. */
  function MoveObject(st: ZoneState, o: Id, from: Container, to: Container, sub: string): (ZoneState, Outcome)
    requires o in st.objects && Resolves(st, to)
  {
    var out := RemoveObject(st, from, o);
    match AddObject(out, to, o, sub)
    case None => (out, Refused)
    case Some(t) => (t.(objects := t.objects[o := t.objects[o].(container := to)]), Done)
  }

  function DropObject(st: ZoneState, o: Id): ZoneState
    requires o in st.objects
  {
    var out := RemoveObject(st, st.objects[o].container, o);
    out.(objects := out.objects - {o})
  }

  /** Where an updated exit leads: an internal destination is never resolved. */
  function Redirected(x: ExitInfo, destZone: Id, destLocation: Id): ExitInfo
  {
    if x.otherZone == NIL then
      if destZone == NIL then x.(destination := None)
      else x.(destination := None, otherZone := destZone, otherLocation := destLocation)
    else
      if destZone == NIL then x.(destination := None, otherZone := NIL, otherLocation := NIL)
      else x.(otherZone := destZone, otherLocation := destLocation)
  }

  function PutExit(st: ZoneState, x: Id, info: ExitInfo): (ZoneState, Outcome)
    requires info.source in st.locations
  {
    match AddNewExit(st, info.source, x, info.direction)
    case None => (st, Refused)
    case Some(t) => (t.(exits := t.exits[x := info]), Done)
  }

  /** The new source is checked for the exit's old direction; the new direction is not checked. */
  function UpdateExit(st: ZoneState, x: Id, desc: string, direction: string, source: Id,
                      destZone: Id, destLocation: Id): (ZoneState, Outcome)
    requires x in st.exits && source in st.locations
  {
    var info := Redirected(st.exits[x], destZone, destLocation);
    var redirected := st.(exits := st.exits[x := info]);
    if source == info.source then
      (redirected.(exits := redirected.exits[x := info.(desc := desc, direction := direction)]), Done)
    else
      var out := RemoveExit(redirected, info.source, x);
      match AddOutExit(out, source, x, info.direction)
      case None => (out, Refused)
      case Some(t) =>
        (t.(exits := t.exits[x := info.(source := source, desc := desc, direction := direction)]), Done)
  }

  function Applied(st: ZoneState, p: Payload): (ZoneState, Outcome)
  {
    match p
    case ActorAddToZone(a, info, l) =>
      if l in st.locations then (PutActor(st, a, info, l), Done)
      else if st.defaultLocation.Some? then (PutActor(st, a, info, st.defaultLocation.value), Done)
      else (st, Refused)
    case ActorMove(from, to, a) =>
      if from in st.locations && to in st.locations && a in st.actors then (MoveActor(st, a, from, to), Done)
      else (st, Refused)
    case ActorAdminRelocate(a, to) =>
      if a in st.actors && to in st.locations then (MoveActor(st, a, st.actors[a].location, to), Done)
      else (st, Refused)
    case ActorRemoveFromZone(a) =>
      if a in st.actors then (DropActor(st, a), Done) else (st, Refused)
    case ActorDeath(a) =>
      if a in st.actors
      then (Reattribute(st, a, st.actors[a].info.attributes.(physical := 0, stamina := 0, focus := 0, zeal := 0)), Done)
      else (st, Refused)
    case ActorMigrateIn(a, info, l) =>
      if l in st.locations then (PutActor(st, a, info, l), Done) else (st, Unresolved)
    case ActorMigrateOut(a) =>
      if a in st.actors then (DropActor(st, a), Done) else (st, Refused)
    case ActorSpeak(a, _) =>
      if a in st.actors then (st, Done) else (st, Refused)
    case LocationAddToZone(l, info) =>
      (st.(locations := st.locations[l := LocationState(info, [], [], [])]), Done)
    case LocationUpdate(l, info) =>
      if l in st.locations then (st.(locations := st.locations[l := st.locations[l].(info := info)]), Done)
      else (st, Refused)
    case LocationRemoveFromZone(l) =>
      (st.(locations := st.locations - {l}), Done)
    case ExitAddToZone(x, _, _, source, destZone, destLocation) =>
      if source !in st.locations || (destZone == NIL && destLocation !in st.locations) then (st, Refused)
      else PutExit(st, x, ExitOf(p))
    case ExitUpdate(x, desc, direction, source, destZone, destLocation) =>
      if x !in st.exits || source !in st.locations || destLocation == NIL
         || (destZone == NIL && destLocation !in st.locations) then (st, Refused)
      else UpdateExit(st, x, desc, direction, source, destZone, destLocation)
    case ExitRemoveFromZone(x) =>
      if x in st.exits then (RemoveExit(st, st.exits[x].source, x).(exits := st.exits - {x}), Done)
      else (st, Refused)
    case ObjectAddToZone(o, info, c, sub) => PutObject(st, o, info, c, sub)
    case ObjectMove(o, from, c, sub) =>
      if o !in st.objects then (st, Refused)
      else if !Resolves(st, from) || !Resolves(st, c) then (st, Unresolved)
      else MoveObject(st, o, from, c, sub)
    case ObjectMoveSubcontainer(o, fromSub, sub) =>
      if o !in st.objects then (st, Refused)
      else if !Resolves(st, st.objects[o].container) then (st, Unresolved)
      else
        var (t, ok) := MoveSubcontainer(st, st.objects[o].container, o, fromSub, sub);
        (t, if ok then Done else Refused)
    case ObjectAdminRelocate(o, c, sub) =>
      if o !in st.objects then (st, Refused)
      else if !Resolves(st, c) then (st, Unresolved)
      else MoveObject(st, o, st.objects[o].container, c, sub)
    case ObjectRemoveFromZone(o) =>
      if o in st.objects then (DropObject(st, o), Done) else (st, Refused)
    case ObjectMigrateIn(o, info, c, sub) => PutObject(st, o, info, c, sub)
    case ObjectMigrateOut(o) =>
      if o in st.objects then (DropObject(st, o), Done) else (st, Refused)
    case ZoneSetDefaultLocation(l) =>
      if l in st.locations then (st.(defaultLocation := Some(l)), Done) else (st, Refused)
    case CombatMeleeDamage(a, physical, stamina, focus) =>
      if a in st.actors then (Reattribute(st, a, Damaged(st.actors[a].info.attributes, physical, stamina, focus)), Done)
      else (st, Refused)
    case CombatDodge(_) => (st, Done)
  }

  /** applyEvent: an event that was applied sets the sequence counter. */
  function AppliedEvent(st: ZoneState, e: Event): (ZoneState, Outcome)
  {
    var (t, r) := Applied(st, e.payload);
    (if r.Done? then t.(nextSequenceId := e.sequenceNumber + 1) else t, r)
  }

  /** ReplayEvents: one after the other, up to the first that is not applied. */
  function Replayed(st: ZoneState, es: seq<Event>): (ZoneState, Outcome)
    decreases |es|
  {
    if es == [] then (st, Done)
    else
      var (t, r) := AppliedEvent(st, es[0]);
      if r.Done? then Replayed(t, es[1..]) else (t, r)
  }

  /** The event takes the next number, and the counter moves on before the event is applied. */
  function Submitted(st: ZoneState, p: Payload): (ZoneState, Outcome)
  {
    AppliedEvent(st.(nextSequenceId := st.nextSequenceId + 1), Event(st.nextSequenceId, p))
  }

  /** The events of one command, up to the first that is not applied. */
  function SubmittedAll(st: ZoneState, ps: seq<Payload>): (ZoneState, Outcome)
    decreases |ps|
  {
    if ps == [] then (st, Done)
    else
      var (t, r) := Submitted(st, ps[0]);
      if r.Done? then SubmittedAll(t, ps[1..]) else (t, r)
  }
}
