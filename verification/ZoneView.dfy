/**
 * What a zone means, with the two-way lists left out: every actor knows its location, every
 * object its container, every exit its ends. An event changes this view in one place; the zone
 * proper (module Zones) does the same to linked lists and is proved to agree.
 */
module ZoneViews {
  import opened Wrappers
  import opened Bytes

  const ANY := "any"

  /** The four places on an actor's body. */
  datatype Place = Back | Belt | Body | Hands

  function PlaceOf(sub: string): Option<Place>
  {
    if sub == "back" then Some(Back)
    else if sub == "belt" then Some(Belt)
    else if sub == "body" then Some(Body)
    else if sub == "hands" then Some(Hands)
    else None
  }

  function LabelOf(p: Place): (sub: string)
    ensures PlaceOf(sub) == Some(p)
  {
    match p case Back => "back" case Belt => "belt" case Body => "body" case Hands => "hands"
  }

  /** Where an added object goes: the hands unless a place is named. */
  function AddPlace(sub: string): Option<Place>
  {
    if sub == ANY then Some(Hands) else PlaceOf(sub)
  }

  /** Slots and maximal number of items of each place. */
  datatype Constraints = Constraints(
    backSlots: int, backMaxItems: int, beltSlots: int, beltMaxItems: int,
    bodySlots: int, bodyMaxItems: int, handSlots: int, handMaxItems: int)
  {
    function Slots(p: Place): int {
      match p case Back => backSlots case Belt => beltSlots case Body => bodySlots case Hands => handSlots
    }

    function MaxItems(p: Place): int {
      match p case Back => backMaxItems case Belt => beltMaxItems case Body => bodyMaxItems case Hands => handMaxItems
    }
  }

  datatype Attributes = Attributes(physical: int, stamina: int, focus: int, zeal: int, others: seq<real>)

  datatype Container = InLocation(id: Id) | InActor(id: Id) | InObject(id: Id)

  // ---------- entities ----------

  datatype LocationInfo = LocationInfo(shortDesc: string, desc: string)

  datatype ActorInfo = ActorInfo(
    name: string, brainType: string, attributes: Attributes, skills: seq<real>, constraints: Constraints)

  datatype ObjectInfo = ObjectInfo(
    name: string, desc: string, keywords: seq<string>, capacity: int, attributes: seq<real>)

  /** An exit leads to a location of this zone, or to another zone's. */
  datatype ExitInfo = ExitInfo(
    desc: string, direction: string, source: Id, destination: Option<Id>, otherZone: Id, otherLocation: Id)

  datatype ActorView = ActorView(info: ActorInfo, location: Id)

  /** place is None for objects lying in a location or in another object. */
  datatype ObjectView = ObjectView(info: ObjectInfo, container: Container, place: Option<Place>)

  datatype View = View(
    locations: map<Id, LocationInfo>,
    actors: map<Id, ActorView>,
    exits: map<Id, ExitInfo>,
    objects: map<Id, ObjectView>,
    defaultLocation: Option<Id>,
    nextSequenceId: nat)

  const EMPTY := View(map[], map[], map[], map[], None, 0)

  // ---------- events ----------

  datatype Payload =
    | ActorAddToZone(actor: Id, info: ActorInfo, location: Id)
    | ActorMove(from: Id, to: Id, actor: Id)
    | ActorAdminRelocate(actor: Id, to: Id)
    | ActorRemoveFromZone(actor: Id)
    | ActorDeath(actor: Id)
    | ActorMigrateIn(actor: Id, info: ActorInfo, location: Id)
    | ActorMigrateOut(actor: Id)
    | ActorSpeak(actor: Id, speech: string)
    | LocationAddToZone(location: Id, locInfo: LocationInfo)
    | LocationUpdate(location: Id, locInfo: LocationInfo)
    | LocationRemoveFromZone(location: Id)
    | ExitAddToZone(exit: Id, desc: string, direction: string, source: Id, destZone: Id, destLocation: Id)
    | ExitUpdate(exit: Id, desc: string, direction: string, source: Id, destZone: Id, destLocation: Id)
    | ExitRemoveFromZone(exit: Id)
    | ObjectAddToZone(object_: Id, objInfo: ObjectInfo, container: Container, subcontainer: string)
    | ObjectMove(object_: Id, fromContainer: Container, container: Container, subcontainer: string)
    | ObjectMoveSubcontainer(object_: Id, fromSub: string, subcontainer: string)
    | ObjectAdminRelocate(object_: Id, container: Container, subcontainer: string)
    | ObjectRemoveFromZone(object_: Id)
    | ObjectMigrateIn(object_: Id, objInfo: ObjectInfo, container: Container, subcontainer: string)
    | ObjectMigrateOut(object_: Id)
    | ZoneSetDefaultLocation(location: Id)
    | CombatMeleeDamage(target: Id, physicalDmg: int, staminaDmg: int, focusDmg: int)
    | CombatDodge(target: Id)

  datatype Event = Event(sequenceNumber: nat, payload: Payload)

  /** Every event but a dodge is persisted. */
  predicate ShouldPersist(e: Event)
  {
    !e.payload.CombatDodge?
  }

  // ---------- effects ----------

  /** The place an object takes up in a container, if it can go there at all. */
  function PlaceIn(c: Container, sub: string): Option<Place>
  {
    if c.InActor? then AddPlace(sub) else None
  }

  /** What a new or updated exit leads to. */
  function ExitOf(p: Payload): ExitInfo
    requires p.ExitAddToZone? || p.ExitUpdate?
  {
    if p.destZone == NIL then ExitInfo(p.desc, p.direction, p.source, Some(p.destLocation), NIL, NIL)
    else ExitInfo(p.desc, p.direction, p.source, None, p.destZone, p.destLocation)
  }

  function Damaged(t: Attributes, physical: int, stamina: int, focus: int): Attributes
  {
    t.(physical := t.physical - physical, stamina := t.stamina - stamina, focus := t.focus - focus)
  }

  /** An event touches one entity: it sets it or takes it away. */
  datatype Change =
    | SetLocation(location: Id, locInfo: LocationInfo) | NoLocation(location: Id)
    | SetActor(actor: Id, actorView: ActorView) | NoActor(actor: Id)
    | SetExit(exit: Id, exitInfo: ExitInfo) | NoExit(exit: Id)
    | SetObject(object_: Id, objectView: ObjectView) | NoObject(object_: Id)
    | SetDefault(location: Id)
    | Nothing

  function Moved(v: View, a: Id, l: Id): Change
  {
    if a in v.actors then SetActor(a, v.actors[a].(location := l)) else Nothing
  }

  function Recondition(v: View, a: Id, t: Attributes): Change
    requires a in v.actors
  {
    SetActor(a, ActorView(v.actors[a].info.(attributes := t), v.actors[a].location))
  }

  function Contained(v: View, o: Id, c: Container, sub: string): Change
  {
    if o in v.objects then SetObject(o, ObjectView(v.objects[o].info, c, PlaceIn(c, sub))) else Nothing
  }

  function ChangeOf(v: View, p: Payload): Change
  {
    match p
    case ActorAddToZone(a, info, l) => SetActor(a, ActorView(info, l))
    case ActorMove(_, to, a) => Moved(v, a, to)
    case ActorAdminRelocate(a, to) => Moved(v, a, to)
    case ActorRemoveFromZone(a) => NoActor(a)
    case ActorDeath(a) =>
      if a in v.actors
      then Recondition(v, a, v.actors[a].info.attributes.(physical := 0, stamina := 0, focus := 0, zeal := 0))
      else Nothing
    case ActorMigrateIn(a, info, l) => SetActor(a, ActorView(info, l))
    case ActorMigrateOut(a) => NoActor(a)
    case ActorSpeak(_, _) => Nothing
    case LocationAddToZone(l, info) => SetLocation(l, info)
    case LocationUpdate(l, info) => if l in v.locations then SetLocation(l, info) else Nothing
    case LocationRemoveFromZone(l) => NoLocation(l)
    case ExitAddToZone(x, _, _, _, _, _) => SetExit(x, ExitOf(p))
    case ExitUpdate(x, _, _, _, _, _) =>
      // an update never resolves an internal destination: it leaves the exit without one
      SetExit(x, if p.destZone == NIL then ExitOf(p).(destination := None) else ExitOf(p))
    case ExitRemoveFromZone(x) => NoExit(x)
    case ObjectAddToZone(o, info, c, sub) => SetObject(o, ObjectView(info, c, PlaceIn(c, sub)))
    case ObjectMove(o, _, c, sub) => Contained(v, o, c, sub)
    case ObjectMoveSubcontainer(o, _, sub) =>
      if o in v.objects then SetObject(o, v.objects[o].(place := PlaceOf(sub))) else Nothing
    case ObjectAdminRelocate(o, c, sub) => Contained(v, o, c, sub)
    case ObjectRemoveFromZone(o) => NoObject(o)
    case ObjectMigrateIn(o, info, c, sub) => SetObject(o, ObjectView(info, c, PlaceIn(c, sub)))
    case ObjectMigrateOut(o) => NoObject(o)
    case ZoneSetDefaultLocation(l) => SetDefault(l)
    case CombatMeleeDamage(a, p, s, f) =>
      if a in v.actors then Recondition(v, a, Damaged(v.actors[a].info.attributes, p, s, f)) else Nothing
    case CombatDodge(_) => Nothing
  }

  function Changed(v: View, c: Change): View
  {
    match c
    case SetLocation(l, info) => v.(locations := v.locations[l := info])
    case NoLocation(l) => v.(locations := v.locations - {l})
    case SetActor(a, x) => v.(actors := v.actors[a := x])
    case NoActor(a) => v.(actors := v.actors - {a})
    case SetExit(x, info) => v.(exits := v.exits[x := info])
    case NoExit(x) => v.(exits := v.exits - {x})
    case SetObject(o, x) => v.(objects := v.objects[o := x])
    case NoObject(o) => v.(objects := v.objects - {o})
    case SetDefault(l) => v.(defaultLocation := Some(l))
    case Nothing => v
  }

  function Effect(v: View, p: Payload): View
  {
    Changed(v, ChangeOf(v, p))
  }

  function Apply(v: View, e: Event): View
  {
    Effect(v, e.payload).(nextSequenceId := e.sequenceNumber + 1)
  }

  function ApplyAll(v: View, es: seq<Event>): View
    decreases |es|
  {
    if es == [] then v else ApplyAll(Apply(v, es[0]), es[1..])
  }

  // ---------- well-formed views ----------

  predicate Exists(v: View, c: Container)
  {
    match c
    case InLocation(l) => l in v.locations
    case InActor(a) => a in v.actors
    case InObject(o) => o in v.objects
  }

  /** The objects an actor has at a place. */
  ghost function At(v: View, a: Id, p: Place): set<Id>
  {
    set o | o in v.objects && v.objects[o].container == InActor(a) && v.objects[o].place == Some(p)
  }

  /** o's container is the object y. */
  predicate ChildOf(v: View, o: Id, y: Id)
  {
    o in v.objects && v.objects[o].container == InObject(y)
  }

  /** x is in s and not contained in any member of s. */
  ghost predicate Free(v: View, s: set<Id>, x: Id)
  {
    x in s && forall y :: y in s ==> !ChildOf(v, x, y)
  }

  /** Containment has no cycle: any set of objects has a member not contained in another. */
  ghost predicate Acyclic(v: View)
  {
    forall s: set<Id> :: s != {} && s <= v.objects.Keys ==> exists x :: Free(v, s, x)
  }

  ghost predicate ActorsPlaced(v: View)
  {
    forall a :: a in v.actors ==> v.actors[a].location in v.locations
  }

  /** Containers exist, except that an object's container may be an object already gone. */
  ghost predicate ObjectsPlaced(v: View)
  {
    forall o :: o in v.objects ==>
      && (Exists(v, v.objects[o].container) || v.objects[o].container.InObject?)
      && (v.objects[o].place.Some? <==> v.objects[o].container.InActor?)
  }

  /** An exit starts here and leads either here or elsewhere, not both and not nowhere. */
  ghost predicate ExitPlaced(v: View, x: ExitInfo)
  {
    && x.source in v.locations
    && if x.otherZone == NIL
       then x.destination.Some? && x.destination.value in v.locations && x.otherLocation == NIL
       else x.destination == None
  }

  ghost predicate ExitsPlaced(v: View)
  {
    forall x :: x in v.exits ==> ExitPlaced(v, v.exits[x])
  }

  ghost predicate DirectionsUnique(v: View)
  {
    forall x, y :: x in v.exits && y in v.exits && x != y && v.exits[x].source == v.exits[y].source ==>
      v.exits[x].direction != v.exits[y].direction
  }

  /** No place holds more items than it may, nor anything at all if its slots are negative. */
  ghost predicate WithinLimits(v: View)
  {
    forall a, p :: a in v.actors && At(v, a, p) != {} ==>
      |At(v, a, p)| <= v.actors[a].info.constraints.MaxItems(p) && 0 <= v.actors[a].info.constraints.Slots(p)
  }

  /** Kept apart from soundness: a location can be removed while it is the default. */
  ghost predicate DefaultExists(v: View)
  {
    v.defaultLocation.Some? ==> v.defaultLocation.value in v.locations
  }

  ghost predicate Sound(v: View)
  {
    && ActorsPlaced(v) && ObjectsPlaced(v) && ExitsPlaced(v) && DirectionsUnique(v)
    && WithinLimits(v) && Acyclic(v)
  }

  /** No object is left behind by a container that has gone. */
  ghost predicate NoOrphans(v: View)
  {
    forall o :: o in v.objects ==> Exists(v, v.objects[o].container)
  }

  ghost predicate Consistent(v: View)
  {
    Sound(v) && NoOrphans(v)
  }

  // ---------- which events a zone can take ----------

  /** Not counting o itself, the actor has room for one more item at the place. */
  ghost predicate RoomAt(v: View, o: Id, a: Id, p: Place)
    requires a in v.actors
  {
    |At(v, a, p) - {o}| < v.actors[a].info.constraints.MaxItems(p) && 0 <= v.actors[a].info.constraints.Slots(p)
  }

  /** The container exists and has room for the object o under that name. */
  ghost predicate Room(v: View, o: Id, c: Container, sub: string)
  {
    Exists(v, c) && (c.InActor? ==> AddPlace(sub).Some? && RoomAt(v, o, c.id, AddPlace(sub).value))
  }

  /** s holds, with every object, all objects in it. */
  ghost predicate Closed(v: View, s: set<Id>)
  {
    forall x, y :: y in s && ChildOf(v, x, y) ==> x in s
  }

  /** The container c is neither the object o nor anything inside it. */
  ghost predicate NotInside(v: View, o: Id, c: Container)
  {
    c.InObject? ==> exists s: set<Id> :: o in s && c.id !in s && Closed(v, s)
  }

  ghost predicate Vacant(v: View, c: Container)
  {
    forall o :: o in v.objects ==> v.objects[o].container != c
  }

  ghost predicate Unreferenced(v: View, l: Id)
  {
    && Vacant(v, InLocation(l))
    && (forall a :: a in v.actors ==> v.actors[a].location != l)
    && forall x :: x in v.exits ==> v.exits[x].source != l && v.exits[x].destination != Some(l)
  }

  ghost predicate DirectionFree(v: View, x: Id, source: Id, direction: string)
  {
    forall y :: y in v.exits && y != x && v.exits[y].source == source ==> v.exits[y].direction != direction
  }

  /** The event can be applied without error and keeps the zone sound. */
  ghost predicate Accepts(v: View, p: Payload)
  {
    match p
    case ActorAddToZone(a, _, l) => a !in v.actors && Vacant(v, InActor(a)) && l in v.locations
    case ActorMove(from, to, a) =>
      && a in v.actors && from in v.locations && to in v.locations
      && (v.actors[a].location == from || v.actors[a].location == to)
    case ActorAdminRelocate(a, to) => a in v.actors && to in v.locations
    case ActorRemoveFromZone(a) => a in v.actors && Vacant(v, InActor(a))
    case ActorDeath(a) => a in v.actors
    case ActorMigrateIn(a, _, l) => a !in v.actors && Vacant(v, InActor(a)) && l in v.locations
    case ActorMigrateOut(a) => a in v.actors && Vacant(v, InActor(a))
    case ActorSpeak(a, _) => a in v.actors
    case LocationAddToZone(l, _) => l !in v.locations
    case LocationUpdate(l, _) => l in v.locations
    case LocationRemoveFromZone(l) => l in v.locations && Unreferenced(v, l)
    case ExitAddToZone(x, _, direction, source, destZone, destLocation) =>
      && x !in v.exits && source in v.locations && DirectionFree(v, x, source, direction)
      && (destZone == NIL ==> destLocation in v.locations)
    case ExitUpdate(x, _, direction, source, destZone, destLocation) =>
      && x in v.exits && source in v.locations && destLocation != NIL
      && destZone != NIL && DirectionFree(v, x, source, direction)
      && (v.exits[x].source != source ==> DirectionFree(v, x, source, v.exits[x].direction))
    case ExitRemoveFromZone(x) => x in v.exits
    case ObjectAddToZone(o, _, c, sub) => o !in v.objects && Vacant(v, InObject(o)) && Room(v, o, c, sub)
    case ObjectMove(o, from, c, sub) =>
      o in v.objects && v.objects[o].container == from && Exists(v, from) && Room(v, o, c, sub) && NotInside(v, o, c)
    case ObjectMoveSubcontainer(o, fromSub, sub) =>
      && o in v.objects && v.objects[o].container.InActor? && PlaceOf(fromSub) == v.objects[o].place
      && PlaceOf(sub).Some? && Room(v, o, v.objects[o].container, sub)
    case ObjectAdminRelocate(o, c, sub) => o in v.objects && Room(v, o, c, sub) && NotInside(v, o, c)
    case ObjectRemoveFromZone(o) => o in v.objects && Vacant(v, InObject(o))
    case ObjectMigrateIn(o, _, c, sub) => o !in v.objects && Vacant(v, InObject(o)) && Room(v, o, c, sub)
    case ObjectMigrateOut(o) => o in v.objects
    case ZoneSetDefaultLocation(l) => l in v.locations
    case CombatMeleeDamage(a, _, _, _) => a in v.actors
    case CombatDodge(_) => true
  }

  ghost predicate AcceptsAll(v: View, es: seq<Event>)
    decreases |es|
  {
    es == [] || (Accepts(v, es[0].payload) && AcceptsAll(Apply(v, es[0]), es[1..]))
  }
}
