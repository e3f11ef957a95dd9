/**
 * The zone: maps of entities updated in place, event by event. Every method is proved to compute
 * the functions of module ZoneStates; on events the zone can take, that means what the view says.
 */
module Zones {
  import opened Wrappers
  import opened Bytes
  import opened UUIDLists
  import opened ZoneViews
  import opened ZoneInvariant
  import opened EventSourcing
  import opened PayloadRuns
  import opened Inventories
  import opened ZoneStates
  import opened ZoneLinks
  import opened ZoneApplied
  import opened ZoneReplays
  import opened ZoneCommands
  import opened RemovalCommands
  import opened RemovalRestarts
  import opened Arrivals
  import opened Commands
  import opened CommandRestarts
  import opened TreeOutcomes
  import opened SnapshotOrder
  import opened SnapshotReplay
  import opened ObjectTrees
  import opened ActorDeaths
  import opened Corpses
  import opened Migrations

  class Zone {
    var locationsById: map<Id, LocationState>
    var actorsById: map<Id, ActorState>
    var exitsById: map<Id, ExitInfo>
    var objectsById: map<Id, ObjectState>
    var defaultLocation: Option<Id>
    var nextSequenceId: nat
    /** What the persister was given. */
    var persisted: seq<Event>
    /** The zone as it began or was loaded, and all that was applied since, persisted or not. */
    ghost var origin: ZoneState
    ghost var history: seq<Event>

    constructor ()
      ensures State() == EMPTY_ZONE && persisted == [] && Settled() && Recorded()
    {
      locationsById, actorsById, exitsById, objectsById := map[], map[], map[], map[];
      defaultLocation, nextSequenceId, persisted, history := None, 0, [], [];
      origin := EMPTY_ZONE;
      new;
      EmptyLinked();
      EmptyIsConsistent();
      BeginsRecorded(EMPTY_ZONE);
    }

    function State(): ZoneState
      reads this
    {
      ZoneState(locationsById, actorsById, exitsById, objectsById, defaultLocation, nextSequenceId)
    }

    ghost function View(): View
      reads this
    {
      ViewOf(State())
    }

    /** Two-way links agree, and what they say is sound. */
    ghost predicate Valid()
      reads this
    {
      Linked(State()) && Sound(View())
    }

    /** Between commands: nothing is stranded either. */
    ghost predicate Settled()
      reads this
    {
      Valid() && NoOrphans(View())
    }

    /** The zone is what its history makes of its origin, and all of that but the dodges was persisted. */
    ghost predicate Recorded()
      reads this
    {
      ZoneReplays.Recorded(origin, State(), history, persisted)
    }

    /** A restart from what was persisted finds the zone as it is, but for the counter. */
    ghost predicate Restarts()
      reads this
    {
      SameButCounter(Replayed(origin, persisted).0, State())
    }

    // ---------- lists ----------

    /** An actor that has just been made is on no list, so it is not looked for. */
    method AddActorTo(l: Id, a: Id, isNew: bool)
      modifies `locationsById
      ensures State() == if isNew then AddNewActor(old(State()), l, a) else AddActor(old(State()), l, a)
      ensures locationsById ==
        if l in old(locationsById) && (isNew || a !in old(locationsById)[l].actors)
        then old(locationsById)[l := old(locationsById)[l].(actors := old(locationsById)[l].actors + [a])]
        else old(locationsById)
    {
      if l in locationsById && (isNew || a !in locationsById[l].actors) {
        locationsById := locationsById[l := locationsById[l].(actors := locationsById[l].actors + [a])];
      }
    }

    method RemoveActorFrom(l: Id, a: Id)
      modifies `locationsById
      ensures State() == RemoveActor(old(State()), l, a)
      ensures locationsById ==
        if l in old(locationsById)
        then old(locationsById)[l := old(locationsById)[l].(actors := Remove(old(locationsById)[l].actors, a))]
        else old(locationsById)
    {
      if l in locationsById {
        locationsById := locationsById[l := locationsById[l].(actors := Remove(locationsById[l].actors, a))];
      }
    }

    /** An exit that has just been made is not looked for, but its direction is. */
    method AddOutExitTo(l: Id, x: Id, direction: string, isNew: bool) returns (ok: bool)
      requires l in locationsById
      modifies `locationsById
      ensures var added := if isNew then AddNewExit(old(State()), l, x, direction)
                           else AddOutExit(old(State()), l, x, direction);
        (ok <==> added.Some?) && State() == if ok then added.value else old(State())
      ensures locationsById ==
        if ok then old(locationsById)[l := old(locationsById)[l].(outExits := old(locationsById)[l].outExits + [x])]
        else old(locationsById)
    {
      var exits := locationsById[l].outExits;
      if !isNew && x in exits {
        return false;
      }
      for i := 0 to |exits|
        invariant forall j :: 0 <= j < i ==> exits[j] in exitsById ==> exitsById[exits[j]].direction != direction
      {
        if exits[i] in exitsById && exitsById[exits[i]].direction == direction {
          return false;
        }
      }
      locationsById := locationsById[l := locationsById[l].(outExits := exits + [x])];
      ok := true;
    }

    method RemoveExitFrom(l: Id, x: Id)
      modifies `locationsById
      ensures State() == RemoveExit(old(State()), l, x)
      ensures locationsById ==
        if l in old(locationsById)
        then old(locationsById)[l := old(locationsById)[l].(outExits := Remove(old(locationsById)[l].outExits, x))]
        else old(locationsById)
    {
      if l in locationsById {
        locationsById := locationsById[l := locationsById[l].(outExits := Remove(locationsById[l].outExits, x))];
      }
    }

    method AddObjectTo(c: Container, o: Id, sub: string, isNew: bool) returns (ok: bool)
      requires Resolves(State(), c)
      modifies `locationsById, `actorsById, `objectsById
      ensures var added := if isNew then AddNewObject(old(State()), c, o, sub) else AddObject(old(State()), c, o, sub);
        (ok <==> added.Some?) && State() == if ok then added.value else old(State())
      ensures match c
        case InLocation(l) =>
          && (ok <==> isNew || o !in old(locationsById)[l].objects)
          && (ok ==>
                var was := old(locationsById);
                locationsById == was[l := was[l].(objects := was[l].objects + [o])])
        case InActor(a) =>
          var inv, k := old(actorsById)[a].inventory, old(actorsById)[a].inventory.constraints;
          && (ok <==>
                || (sub == "back" && |inv.back| < k.backMaxItems && 0 <= k.backSlots)
                || (sub == "belt" && |inv.belt| < k.beltMaxItems && 0 <= k.beltSlots)
                || (sub == "body" && |inv.body| < k.bodyMaxItems && 0 <= k.bodySlots)
                || ((sub == "hands" || sub == "any") && |inv.hands| < k.handMaxItems && 0 <= k.handSlots))
          && (ok ==> actorsById == old(actorsById)[a := old(actorsById)[a].(inventory :=
                if sub == "back" then inv.(back := inv.back + [o])
                else if sub == "belt" then inv.(belt := inv.belt + [o])
                else if sub == "body" then inv.(body := inv.body + [o])
                else inv.(hands := inv.hands + [o]))])
        case InObject(y) =>
          && (ok <==> isNew || o !in old(objectsById)[y].contents)
          && (ok ==>
                var was := old(objectsById);
                objectsById == was[y := was[y].(contents := was[y].contents + [o])])
      ensures !ok || !c.InLocation? ==> locationsById == old(locationsById)
      ensures !ok || !c.InActor? ==> actorsById == old(actorsById)
      ensures !ok || !c.InObject? ==> objectsById == old(objectsById)
    {
      NothingHasSize(State(), c);
      if c.InActor? {
        AfterAddExactly(actorsById[c.id].inventory, NoSize, o, sub);
      }
      hide AfterAdd;
      match c
      case InLocation(l) =>
        if !isNew && o in locationsById[l].objects {
          return false;
        }
        locationsById := locationsById[l := locationsById[l].(objects := locationsById[l].objects + [o])];
        ok := true;
      case InActor(a) =>
        var inv := AfterAdd(actorsById[a].inventory, NoSize, o, sub);
        if inv.None? {
          return false;
        }
        actorsById := actorsById[a := actorsById[a].(inventory := inv.value)];
        ok := true;
      case InObject(y) =>
        if !isNew && o in objectsById[y].contents {
          return false;
        }
        objectsById := objectsById[y := objectsById[y].(contents := objectsById[y].contents + [o])];
        ok := true;
    }

    method RemoveObjectFrom(c: Container, o: Id)
      modifies `locationsById, `actorsById, `objectsById
      ensures State() == RemoveObject(old(State()), c, o)
      ensures locationsById ==
        if c.InLocation? && c.id in old(locationsById)
        then old(locationsById)[c.id :=
          old(locationsById)[c.id].(objects := Remove(old(locationsById)[c.id].objects, o))]
        else old(locationsById)
      ensures actorsById ==
        if c.InActor? && c.id in old(actorsById)
        then
          var inv := old(actorsById)[c.id].inventory;
          old(actorsById)[c.id := old(actorsById)[c.id].(inventory :=
            inv.(back := Remove(inv.back, o), belt := Remove(inv.belt, o),
                 body := Remove(inv.body, o), hands := Remove(inv.hands, o)))]
        else old(actorsById)
      ensures objectsById ==
        if c.InObject? && c.id in old(objectsById)
        then old(objectsById)[c.id :=
          old(objectsById)[c.id].(contents := Remove(old(objectsById)[c.id].contents, o))]
        else old(objectsById)
    {
      match c
      case InLocation(l) =>
        if l in locationsById {
          locationsById := locationsById[l := locationsById[l].(objects := Remove(locationsById[l].objects, o))];
        }
      case InActor(a) =>
        if a in actorsById {
          actorsById := actorsById[a := actorsById[a].(inventory := Removed(actorsById[a].inventory, o))];
        }
      case InObject(y) =>
        if y in objectsById {
          objectsById := objectsById[y := objectsById[y].(contents := Remove(objectsById[y].contents, o))];
        }
    }

    // ---------- events ----------

    method ApplyActorArrival(a: Id, info: ActorInfo, l: Id)
      modifies `locationsById, `actorsById
      ensures State() == PutActor(old(State()), a, info, l)
    {
      AddActorTo(l, a, true);
      actorsById := actorsById[a := ActorState(info, l, EmptyInv(info.constraints))];
    }

    method ApplyActorAddToZone(p: Payload) returns (r: Outcome)
      requires p.ActorAddToZone?
      modifies `locationsById, `actorsById
      ensures (State(), r) == Applied(old(State()), p)
      ensures r == Done <==> p.location in old(locationsById) || defaultLocation.Some?
      ensures r == Done ==>
        var l := if p.location in old(locationsById) then p.location else defaultLocation.value;
        && actorsById ==
           old(actorsById)[p.actor := ActorState(p.info, l, Inv(p.info.constraints, [], [], [], []))]
        && locationsById ==
           if l !in old(locationsById) then old(locationsById)
           else old(locationsById)[l := old(locationsById)[l].(actors := old(locationsById)[l].actors + [p.actor])]
      ensures r != Done ==> State() == old(State())
      ensures old(Valid() && Accepts(View(), p)) ==> r == Done && Linked(State()) && View() == Effect(old(View()), p)
    {
      TakenAgrees(State(), p);
      hide Linked, Sound, Accepts, Effect, ViewOf;
      var l := p.location;
      if l !in locationsById {
        if defaultLocation.None? {
          return Refused;
        }
        l := defaultLocation.value;
      }
      ApplyActorArrival(p.actor, p.info, l);
      r := Done;
    }

    method ApplyActorMigrateIn(p: Payload) returns (r: Outcome)
      requires p.ActorMigrateIn?
      modifies `locationsById, `actorsById
      ensures (State(), r) == Applied(old(State()), p)
      ensures r == if p.location in old(locationsById) then Done else Unresolved
      ensures r == Done ==>
        var l, was := p.location, old(locationsById);
        && actorsById ==
           old(actorsById)[p.actor := ActorState(p.info, l, Inv(p.info.constraints, [], [], [], []))]
        && locationsById == was[l := was[l].(actors := was[l].actors + [p.actor])]
      ensures r != Done ==> State() == old(State())
      ensures old(Valid() && Accepts(View(), p)) ==> r == Done && Linked(State()) && View() == Effect(old(View()), p)
    {
      TakenAgrees(State(), p);
      hide Linked, Sound, Accepts, Effect, ViewOf;
      if p.location !in locationsById {
        return Unresolved;
      }
      ApplyActorArrival(p.actor, p.info, p.location);
      r := Done;
    }

    method ApplyActorMove(p: Payload) returns (r: Outcome)
      requires p.ActorMove?
      modifies `locationsById, `actorsById
      ensures (State(), r) == Applied(old(State()), p)
      ensures r == Done <==>
        p.from in old(locationsById) && p.to in old(locationsById) && p.actor in old(actorsById)
      ensures r == Done ==> actorsById == old(actorsById)[p.actor := old(actorsById)[p.actor].(location := p.to)]
      ensures r == Done ==> locationsById.Keys == old(locationsById).Keys && forall l :: l in locationsById ==>
        var left := if l == p.from then Remove(old(locationsById)[l].actors, p.actor) else old(locationsById)[l].actors;
        var arrived := if l == p.to && p.actor !in left then left + [p.actor] else left;
        locationsById[l] == old(locationsById)[l].(actors := arrived)
      ensures r != Done ==> r == Refused && State() == old(State())
      ensures old(Valid() && Accepts(View(), p)) ==> r == Done && Linked(State()) && View() == Effect(old(View()), p)
    {
      TakenAgrees(State(), p);
      hide Linked, Sound, Accepts, Effect, ViewOf, Remove;
      var a := p.actor;
      if p.from !in locationsById || p.to !in locationsById || a !in actorsById {
        return Refused;
      }
      RemoveActorFrom(p.from, a);
      AddActorTo(p.to, a, false);
      actorsById := actorsById[a := actorsById[a].(location := p.to)];
      r := Done;
    }

    method ApplyActorAdminRelocate(p: Payload) returns (r: Outcome)
      requires p.ActorAdminRelocate?
      modifies `locationsById, `actorsById
      ensures (State(), r) == Applied(old(State()), p)
      ensures r == Done <==> p.to in old(locationsById) && p.actor in old(actorsById)
      ensures r == Done ==> actorsById == old(actorsById)[p.actor := old(actorsById)[p.actor].(location := p.to)]
      ensures r == Done ==> locationsById.Keys == old(locationsById).Keys && forall l :: l in locationsById ==>
        var was := old(locationsById)[l].actors;
        var left := if l == old(actorsById)[p.actor].location then Remove(was, p.actor) else was;
        var arrived := if l == p.to && p.actor !in left then left + [p.actor] else left;
        locationsById[l] == old(locationsById)[l].(actors := arrived)
      ensures r != Done ==> r == Refused && State() == old(State())
      ensures old(Valid() && Accepts(View(), p)) ==> r == Done && Linked(State()) && View() == Effect(old(View()), p)
    {
      TakenAgrees(State(), p);
      hide Linked, Sound, Accepts, Effect, ViewOf, Remove;
      var a := p.actor;
      if a !in actorsById || p.to !in locationsById {
        return Refused;
      }
      RemoveActorFrom(actorsById[a].location, a);
      AddActorTo(p.to, a, false);
      actorsById := actorsById[a := actorsById[a].(location := p.to)];
      r := Done;
    }

    method ApplyActorDeparture(p: Payload) returns (r: Outcome)
      requires p.ActorRemoveFromZone? || p.ActorMigrateOut?
      modifies `locationsById, `actorsById
      ensures (State(), r) == Applied(old(State()), p)
      ensures r == Done <==> p.actor in old(actorsById)
      ensures r == Done ==>
        var l, was := old(actorsById)[p.actor].location, old(locationsById);
        && actorsById == old(actorsById) - {p.actor}
        && locationsById ==
           if l in was then was[l := was[l].(actors := Remove(was[l].actors, p.actor))] else was
      ensures r != Done ==> r == Refused && State() == old(State())
      ensures old(Valid() && Accepts(View(), p)) ==> r == Done && Linked(State()) && View() == Effect(old(View()), p)
    {
      TakenAgrees(State(), p);
      hide Linked, Sound, Accepts, Effect, ViewOf;
      var a := p.actor;
      if a !in actorsById {
        return Refused;
      }
      RemoveActorFrom(actorsById[a].location, a);
      actorsById := actorsById - {a};
      r := Done;
    }

    method ApplyActorDeath(p: Payload) returns (r: Outcome)
      requires p.ActorDeath?
      modifies `actorsById
      ensures (State(), r) == Applied(old(State()), p)
      ensures r == Done <==> p.actor in old(actorsById)
      ensures r == Done ==>
        var was := old(actorsById)[p.actor];
        actorsById == old(actorsById)[p.actor := was.(info := was.info.(attributes :=
          Attributes(0, 0, 0, 0, was.info.attributes.others)))]
      ensures r != Done ==> r == Refused && State() == old(State())
      ensures old(Valid() && Accepts(View(), p)) ==> r == Done && Linked(State()) && View() == Effect(old(View()), p)
    {
      TakenAgrees(State(), p);
      hide Linked, Sound, Accepts, Effect, ViewOf;
      var a := p.actor;
      if a !in actorsById {
        return Refused;
      }
      var attrs := actorsById[a].info.attributes;
      attrs := attrs.(physical := 0);
      attrs := attrs.(stamina := 0);
      attrs := attrs.(focus := 0);
      attrs := attrs.(zeal := 0);
      actorsById := actorsById[a := actorsById[a].(info := actorsById[a].info.(attributes := attrs))];
      r := Done;
    }

    method ApplyCombatMeleeDamage(p: Payload) returns (r: Outcome)
      requires p.CombatMeleeDamage?
      modifies `actorsById
      ensures (State(), r) == Applied(old(State()), p)
      ensures r == Done <==> p.target in old(actorsById)
      ensures r == Done ==>
        var was := old(actorsById)[p.target];
        var t := was.info.attributes;
        actorsById == old(actorsById)[p.target := was.(info := was.info.(attributes :=
          Attributes(t.physical - p.physicalDmg, t.stamina - p.staminaDmg, t.focus - p.focusDmg, t.zeal, t.others)))]
      ensures r != Done ==> r == Refused && State() == old(State())
      ensures old(Valid() && Accepts(View(), p)) ==> r == Done && Linked(State()) && View() == Effect(old(View()), p)
    {
      TakenAgrees(State(), p);
      hide Linked, Sound, Accepts, Effect, ViewOf;
      var a := p.target;
      if a !in actorsById {
        return Refused;
      }
      var attrs := actorsById[a].info.attributes;
      attrs := attrs.(physical := attrs.physical - p.physicalDmg);
      attrs := attrs.(stamina := attrs.stamina - p.staminaDmg);
      attrs := attrs.(focus := attrs.focus - p.focusDmg);
      actorsById := actorsById[a := actorsById[a].(info := actorsById[a].info.(attributes := attrs))];
      r := Done;
    }

    method ApplyLocationEvent(p: Payload) returns (r: Outcome)
      requires p.LocationAddToZone? || p.LocationUpdate? || p.LocationRemoveFromZone?
      modifies `locationsById
      ensures (State(), r) == Applied(old(State()), p)
      ensures r == if p.LocationUpdate? && p.location !in old(locationsById) then Refused else Done
      ensures p.LocationAddToZone? ==>
        locationsById == old(locationsById)[p.location := LocationState(p.locInfo, [], [], [])]
      ensures p.LocationUpdate? ==>
        var was := old(locationsById);
        locationsById == if r == Done then was[p.location := was[p.location].(info := p.locInfo)] else was
      ensures p.LocationRemoveFromZone? ==> locationsById == old(locationsById) - {p.location}
      ensures old(Valid() && Accepts(View(), p)) ==> r == Done && Linked(State()) && View() == Effect(old(View()), p)
    {
      TakenAgrees(State(), p);
      hide Linked, Sound, Accepts, Effect, ViewOf;
      match p
      case LocationAddToZone(l, info) =>
        locationsById := locationsById[l := LocationState(info, [], [], [])];
        r := Done;
      case LocationUpdate(l, info) =>
        if l !in locationsById {
          return Refused;
        }
        locationsById := locationsById[l := locationsById[l].(info := info)];
        r := Done;
      case LocationRemoveFromZone(l) =>
        locationsById := locationsById - {l};
        r := Done;
    }

    method ApplyExitAddToZone(p: Payload) returns (r: Outcome)
      requires p.ExitAddToZone?
      modifies `locationsById, `exitsById
      ensures (State(), r) == Applied(old(State()), p)
      ensures r == Done <==>
        && p.source in old(locationsById) && (p.destZone == NIL ==> p.destLocation in old(locationsById))
        && forall y :: y in old(locationsById)[p.source].outExits && y in old(exitsById) ==>
             old(exitsById)[y].direction != p.direction
      ensures r == Done ==>
        var was := old(locationsById);
        && exitsById == old(exitsById)[p.exit :=
             if p.destZone == NIL then ExitInfo(p.desc, p.direction, p.source, Some(p.destLocation), NIL, NIL)
             else ExitInfo(p.desc, p.direction, p.source, None, p.destZone, p.destLocation)]
        && locationsById == was[p.source := was[p.source].(outExits := was[p.source].outExits + [p.exit])]
      ensures r != Done ==> r == Refused && State() == old(State())
      ensures old(Valid() && Accepts(View(), p)) ==> r == Done && Linked(State()) && View() == Effect(old(View()), p)
    {
      TakenAgrees(State(), p);
      hide Linked, Sound, Accepts, Effect, ViewOf;
      if p.source !in locationsById || (p.destZone == NIL && p.destLocation !in locationsById) {
        return Refused;
      }
      var listed := AddOutExitTo(p.source, p.exit, p.direction, true);
      if !listed {
        return Refused;
      }
      exitsById := exitsById[p.exit := ExitOf(p)];
      r := Done;
    }

    method ApplyExitUpdate(p: Payload) returns (r: Outcome)
      requires p.ExitUpdate?
      modifies `locationsById, `exitsById
      ensures (State(), r) == Applied(old(State()), p)
      ensures old(Valid() && Accepts(View(), p)) ==> r == Done && Linked(State()) && View() == Effect(old(View()), p)
    {
      TakenAgrees(State(), p);
      hide Linked, Sound, Accepts, Effect, ViewOf, AddOutExit, Redirected;
      var x := p.exit;
      if x !in exitsById || p.source !in locationsById || p.destLocation == NIL
         || (p.destZone == NIL && p.destLocation !in locationsById) {
        return Refused;
      }
      exitsById := exitsById[x := Redirected(exitsById[x], p.destZone, p.destLocation)];
      ghost var info, exits := exitsById[x], exitsById;
      if p.source != exitsById[x].source {
        RemoveExitFrom(exitsById[x].source, x);
        var listed := AddOutExitTo(p.source, x, exitsById[x].direction, false);
        if !listed {
          return Refused;
        }
        exitsById := exitsById[x := exitsById[x].(source := p.source)];
      }
      exitsById := exitsById[x := exitsById[x].(desc := p.desc)];
      exitsById := exitsById[x := exitsById[x].(direction := p.direction)];
      assert exitsById == exits[x := info.(source := p.source, desc := p.desc, direction := p.direction)];
      r := Done;
    }

    method ApplyExitRemoveFromZone(p: Payload) returns (r: Outcome)
      requires p.ExitRemoveFromZone?
      modifies `locationsById, `exitsById
      ensures (State(), r) == Applied(old(State()), p)
      ensures r == Done <==> p.exit in old(exitsById)
      ensures r == Done ==>
        var l, was := old(exitsById)[p.exit].source, old(locationsById);
        && exitsById == old(exitsById) - {p.exit}
        && locationsById ==
           if l in was then was[l := was[l].(outExits := Remove(was[l].outExits, p.exit))] else was
      ensures r != Done ==> r == Refused && State() == old(State())
      ensures old(Valid() && Accepts(View(), p)) ==> r == Done && Linked(State()) && View() == Effect(old(View()), p)
    {
      TakenAgrees(State(), p);
      hide Linked, Sound, Accepts, Effect, ViewOf;
      if p.exit !in exitsById {
        return Refused;
      }
      RemoveExitFrom(exitsById[p.exit].source, p.exit);
      exitsById := exitsById - {p.exit};
      r := Done;
    }

    method ApplyObjectArrival(p: Payload) returns (r: Outcome)
      requires p.ObjectAddToZone? || p.ObjectMigrateIn?
      modifies `locationsById, `actorsById, `objectsById
      ensures (State(), r) == Applied(old(State()), p)
      ensures r == Done ==>
        p.object_ in objectsById && objectsById[p.object_] == ObjectState(p.objInfo, p.container, [])
      ensures r != Done ==> State() == old(State())
      ensures old(Valid() && Accepts(View(), p)) ==> r == Done && Linked(State()) && View() == Effect(old(View()), p)
    {
      TakenAgrees(State(), p);
      hide Linked, Sound, Accepts, Effect, ViewOf;
      if !Resolves(State(), p.container) {
        return Unresolved;
      }
      var added := AddObjectTo(p.container, p.object_, p.subcontainer, true);
      if !added {
        return Refused;
      }
      objectsById := objectsById[p.object_ := ObjectState(p.objInfo, p.container, [])];
      r := Done;
    }

    method ApplyObjectMove(p: Payload) returns (r: Outcome)
      requires p.ObjectMove?
      modifies `locationsById, `actorsById, `objectsById
      ensures (State(), r) == Applied(old(State()), p)
      ensures old(Valid() && Accepts(View(), p)) ==> r == Done && Linked(State()) && View() == Effect(old(View()), p)
    {
      TakenAgrees(State(), p);
      hide Linked, Sound, Accepts, Effect, ViewOf;
      var o := p.object_;
      if o !in objectsById {
        return Refused;
      }
      if !Resolves(State(), p.fromContainer) || !Resolves(State(), p.container) {
        return Unresolved;
      }
      RemoveObjectFrom(p.fromContainer, o);
      var added := AddObjectTo(p.container, o, p.subcontainer, false);
      if !added {
        return Refused;
      }
      objectsById := objectsById[o := objectsById[o].(container := p.container)];
      r := Done;
    }

    method ApplyObjectAdminRelocate(p: Payload) returns (r: Outcome)
      requires p.ObjectAdminRelocate?
      modifies `locationsById, `actorsById, `objectsById
      ensures (State(), r) == Applied(old(State()), p)
      ensures old(Valid() && Accepts(View(), p)) ==> r == Done && Linked(State()) && View() == Effect(old(View()), p)
    {
      TakenAgrees(State(), p);
      hide Linked, Sound, Accepts, Effect, ViewOf;
      var o := p.object_;
      if o !in objectsById {
        return Refused;
      }
      if !Resolves(State(), p.container) {
        return Unresolved;
      }
      RemoveObjectFrom(objectsById[o].container, o);
      var added := AddObjectTo(p.container, o, p.subcontainer, false);
      if !added {
        return Refused;
      }
      objectsById := objectsById[o := objectsById[o].(container := p.container)];
      r := Done;
    }

    method ApplyObjectMoveSubcontainer(p: Payload) returns (r: Outcome)
      requires p.ObjectMoveSubcontainer?
      modifies `actorsById
      ensures (State(), r) == Applied(old(State()), p)
      ensures old(Valid() && Accepts(View(), p)) ==> r == Done && Linked(State()) && View() == Effect(old(View()), p)
    {
      TakenAgrees(State(), p);
      hide Linked, Sound, Accepts, Effect, ViewOf;
      if p.object_ !in objectsById {
        return Refused;
      }
      var c := objectsById[p.object_].container;
      if !Resolves(State(), c) {
        return Unresolved;
      }
      if !c.InActor? {
        return if p.subcontainer == ANY then Done else Refused;
      }
      var src, dst := PlaceOf(p.fromSub), PlaceOf(p.subcontainer);
      if src.None? {
        return Refused;
      }
      var inv := actorsById[c.id].inventory;
      inv := inv.WithList(src.value, Remove(inv.List(src.value), p.object_));
      actorsById := actorsById[c.id := actorsById[c.id].(inventory := inv)];
      if dst.None? {
        return Refused;
      }
      actorsById := actorsById[c.id := actorsById[c.id].(inventory := Added(inv, p.object_, dst.value))];
      assert actorsById ==
        old(actorsById)[c.id := old(actorsById)[c.id].(inventory := Added(inv, p.object_, dst.value))];
      r := Done;
    }

    method ApplyObjectDeparture(p: Payload) returns (r: Outcome)
      requires p.ObjectRemoveFromZone? || p.ObjectMigrateOut?
      modifies `locationsById, `actorsById, `objectsById
      ensures (State(), r) == Applied(old(State()), p)
      ensures r == if p.object_ in old(objectsById) then Done else Refused
      ensures objectsById.Keys == old(objectsById).Keys - {p.object_}
      ensures r != Done ==> State() == old(State())
      ensures old(Valid() && Accepts(View(), p)) ==> r == Done && Linked(State()) && View() == Effect(old(View()), p)
    {
      TakenAgrees(State(), p);
      hide Linked, Sound, Accepts, Effect, ViewOf;
      var o := p.object_;
      if o !in objectsById {
        return Refused;
      }
      RemoveObjectFrom(objectsById[o].container, o);
      objectsById := objectsById - {o};
      r := Done;
    }

    method ApplyZoneSetDefaultLocation(p: Payload) returns (r: Outcome)
      requires p.ZoneSetDefaultLocation?
      modifies `defaultLocation
      ensures (State(), r) == Applied(old(State()), p)
      ensures r == if p.location in locationsById then Done else Refused
      ensures defaultLocation == if r == Done then Some(p.location) else old(defaultLocation)
      ensures old(Valid() && Accepts(View(), p)) ==> r == Done && Linked(State()) && View() == Effect(old(View()), p)
    {
      TakenAgrees(State(), p);
      hide Linked, Sound, Accepts, Effect, ViewOf;
      if p.location !in locationsById {
        return Refused;
      }
      defaultLocation := Some(p.location);
      r := Done;
    }

    method ApplyPayload(p: Payload) returns (r: Outcome)
      modifies `locationsById, `actorsById, `exitsById, `objectsById, `defaultLocation
      ensures (State(), r) == Applied(old(State()), p)
      ensures old(Valid() && Accepts(View(), p)) ==> r == Done && Linked(State()) && View() == Effect(old(View()), p)
    {
      TakenAgrees(State(), p);
      hide Linked, Sound, Accepts, Effect, ViewOf;
      match p
      case ActorAddToZone(_, _, _) => r := ApplyActorAddToZone(p);
      case ActorMove(_, _, _) => r := ApplyActorMove(p);
      case ActorAdminRelocate(_, _) => r := ApplyActorAdminRelocate(p);
      case ActorRemoveFromZone(_) => r := ApplyActorDeparture(p);
      case ActorMigrateIn(_, _, _) => r := ApplyActorMigrateIn(p);
      case ActorMigrateOut(_) => r := ApplyActorDeparture(p);
      case ActorDeath(_) => r := ApplyActorDeath(p);
      case ActorSpeak(a, _) => r := if a in actorsById then Done else Refused;
      case LocationAddToZone(_, _) => r := ApplyLocationEvent(p);
      case LocationUpdate(_, _) => r := ApplyLocationEvent(p);
      case LocationRemoveFromZone(_) => r := ApplyLocationEvent(p);
      case ExitAddToZone(_, _, _, _, _, _) => r := ApplyExitAddToZone(p);
      case ExitUpdate(_, _, _, _, _, _) => r := ApplyExitUpdate(p);
      case ExitRemoveFromZone(_) => r := ApplyExitRemoveFromZone(p);
      case ObjectAddToZone(_, _, _, _) => r := ApplyObjectArrival(p);
      case ObjectMove(_, _, _, _) => r := ApplyObjectMove(p);
      case ObjectMoveSubcontainer(_, _, _) => r := ApplyObjectMoveSubcontainer(p);
      case ObjectAdminRelocate(_, _, _) => r := ApplyObjectAdminRelocate(p);
      case ObjectRemoveFromZone(_) => r := ApplyObjectDeparture(p);
      case ObjectMigrateIn(_, _, _, _) => r := ApplyObjectArrival(p);
      case ObjectMigrateOut(_) => r := ApplyObjectDeparture(p);
      case ZoneSetDefaultLocation(_) => r := ApplyZoneSetDefaultLocation(p);
      case CombatDodge(_) => r := Done;
      case CombatMeleeDamage(_, _, _, _) => r := ApplyCombatMeleeDamage(p);
    }

    /** On an event the zone can take: no error, links kept, and the view's effect. */
    method ApplyEvent(e: Event) returns (r: Outcome)
      modifies `locationsById, `actorsById, `exitsById, `objectsById, `defaultLocation, `nextSequenceId
      ensures (State(), r) == AppliedEvent(old(State()), e)
      ensures old(Valid() && Accepts(View(), e.payload)) ==>
        r == Done && Valid() && View() == Apply(old(View()), e)
    {
      hide Applied, Accepts, Linked, Sound, ViewOf;
      r := ApplyPayload(e.payload);
      if r == Done {
        nextSequenceId := e.sequenceNumber + 1;
      }
      if old(Valid() && Accepts(View(), e.payload)) {
        AppliedEventAgrees(old(State()), e);
        ApplyKeepsSound(old(View()), e);
      }
    }

    /**
     * Replaying events the zone can take never fails, and makes of it what they make of its view.
     * What is recorded begins with the zone as replayed.
     */
    method ReplayEvents(es: seq<Event>) returns (r: Outcome)
      modifies this
      ensures (State(), r) == Replayed(old(State()), es)
      ensures old(Valid() && AcceptsAll(View(), es)) ==>
        r == Done && Valid() && View() == ApplyAll(old(View()), es)
      ensures origin == State() && history == [] && persisted == old(persisted)
      ensures old(persisted) == [] ==> Recorded()
    {
      hide AppliedEvent, AcceptsAll, Linked, Sound, ViewOf, Accepts, Apply, ZoneReplays.Recorded;
      if old(Valid() && AcceptsAll(View(), es)) {
        ReplayedAgrees(old(State()), es);
      }
      assert es[0..] == es;
      r := Done;
      for i := 0 to |es|
        invariant r == Done && persisted == old(persisted)
        invariant Replayed(old(State()), es) == Replayed(State(), es[i..])
      {
        assert es[i..][1..] == es[i + 1..];
        r := ApplyEvent(es[i]);
        if r != Done {
          break;
        }
      }
      origin, history := State(), [];
      BeginsRecorded(State());
    }

    // ---------- commands ----------

    /** Number the events of a command and apply them one after the other, up to the first failure. */
    method Handle(ps: seq<Payload>) returns (r: Outcome, outEvents: seq<Event>)
      modifies this
      ensures (State(), r) == SubmittedAll(old(State()), ps) && persisted == old(persisted) && origin == old(origin)
      ensures r == Done ==> outEvents == Number(old(nextSequenceId), ps)
      ensures r == Done ==> nextSequenceId == old(nextSequenceId) + |ps|
      ensures history == old(history) + if r == Done then outEvents else []
    {
      hide AppliedEvent, Accepts, Linked, Sound, ViewOf;
      var n := nextSequenceId;
      outEvents := [];
      assert ps[0..] == ps && ps[..0] == [];
      for i := 0 to |ps|
        invariant persisted == old(persisted) && history == old(history) && origin == old(origin)
        invariant SubmittedAll(old(State()), ps) == SubmittedAll(State(), ps[i..])
        invariant nextSequenceId == n + i && outEvents == Number(n, ps[..i])
      {
        var e := Event(nextSequenceId, ps[i]);
        ghost var before := State();
        nextSequenceId := e.sequenceNumber + 1;
        r := ApplyEvent(e);
        assert ps[i..][1..] == ps[i + 1..] && ps[..i + 1][..i] == ps[..i];
        assert Submitted(before, ps[i]) == (State(), r);
        AppliedCounter(before.(nextSequenceId := e.sequenceNumber + 1), e);
        if r != Done {
          return;
        }
        outEvents := outEvents + [e];
      }
      assert ps[..|ps|] == ps;
      history := history + outEvents;
      r := Done;
    }

    /** processCommand, once its handler is done: what is to be persisted is. */
    method Persist(outEvents: seq<Event>)
      modifies `persisted
      ensures persisted == old(persisted) + Persisted(outEvents)
    {
      for i := 0 to |outEvents|
        invariant persisted + Persisted(outEvents[i..]) == old(persisted) + Persisted(outEvents)
      {
        assert outEvents[i..][1..] == outEvents[i + 1..];
        if ShouldPersist(outEvents[i]) {
          assert persisted + ([outEvents[i]] + Persisted(outEvents[i + 1..])) ==
                 (persisted + [outEvents[i]]) + Persisted(outEvents[i + 1..]);
          persisted := persisted + [outEvents[i]];
        }
      }
    }

    /** Whatever the zone, submitting keeps the record, unless it fails with something changed. */
    method Submit(ps: seq<Payload>) returns (r: Outcome)
      modifies this
      ensures (State(), r) == SubmittedAll(old(State()), ps)
      ensures persisted == old(persisted) + if r == Done then Persisted(Number(old(nextSequenceId), ps)) else []
      ensures origin == old(origin)
      ensures old(Recorded()) && (r == Done || SameButCounter(old(State()), State())) ==> Recorded()
    {
      hide SubmittedAll, ZoneReplays.Recorded;
      var outEvents;
      r, outEvents := Handle(ps);
      if r == Done {
        Persist(outEvents);
      }
      if old(Recorded()) {
        if r == Done {
          SubmittingRecords(origin, old(State()), old(history), old(persisted), ps);
        } else {
          CounterGrows(old(State()), ps);
          UnrecordedExactly(origin, old(State()), old(history), old(persisted), State());
          assert history == old(history) && persisted == old(persisted);
        }
      }
    }

    /** A command that carries its event: refused at once, or submitted. */
    method ProcessCommand(p: Payload) returns (ok: bool)
      modifies this
      ensures (State(), ok) == Processed(old(State()), Carry(p))
      ensures persisted == old(persisted) + PersistedBy(old(State()), Carry(p))
      ensures old(Settled() && Checked(State(), p)) ==> (ok && Settled() <==> old(Unchecked(View(), p)))
      ensures old(Settled() && Checked(State(), p) && Unchecked(View(), p)) ==>
        && View() == Effect(old(View()), p).(nextSequenceId := nextSequenceId)
        && (old(DefaultExists(View())) ==> DefaultExists(View()))
      ensures old(Recorded()) && (ok || SameButCounter(old(State()), State())) ==> Recorded()
      ensures old(Settled() && Recorded()) ==> (Restarts() <==> old(Lasts(State(), Carry(p))))
    {
      hide SettledState, Unchecked, Effect, ViewOf, SubmittedAll, Checked, ZoneReplays.Recorded, DefaultExists, Number;
      hide Persisted, Replayed, Lasts;
      RestartsAfter(Carry(p));
      if !Checked(State(), p) {
        return false;
      }
      if old(Settled()) {
        SettledFrom(State());
        CommandExactly(State(), Carry(p));
        if Unchecked(View(), p) {
          CarriedView(State(), p);
        }
      }
      var r := Submit([p]);
      ok := r == Done;
      SettledIsState();
    }

    lemma SettledIsState()
      ensures Settled() <==> SettledState(State())
    {
      hide Linked, Sound, NoOrphans, ViewOf;
    }

    /** What a restart will find after the command. */
    lemma RestartsAfter(c: Command)
      ensures persisted + [] == persisted
      ensures Settled() && Recorded() ==>
        (SameButCounter(Replayed(origin, persisted + PersistedBy(State(), c)).0, Processed(State(), c).0) <==>
         Lasts(State(), c))
    {
      hide Valid, Lasts, Processed, PersistedBy, Replayed, SettledState, ZoneReplays.Recorded;
      if Settled() && Recorded() {
        SettledIsState();
        RestartExactly(origin, State(), history, persisted, c);
      }
    }

    method ProcessObjectMove(o: Id, actor: Option<Id>, from: Container, to: Container) returns (ok: bool)
      modifies this
      ensures (State(), ok) == Processed(old(State()), Give(o, actor, from, to))
      ensures persisted == old(persisted) + PersistedBy(old(State()), Give(o, actor, from, to))
      ensures old(Settled() && MoveChecked(State(), o, actor, from, to)) ==>
        (ok && Settled() <==> old(Guarded(State(), Give(o, actor, from, to))))
      ensures old(Settled() && MoveChecked(State(), o, actor, from, to)
        && Guarded(State(), Give(o, actor, from, to))) ==>
        View() == Effect(old(View()), ObjectMove(o, from, to, ANY)).(nextSequenceId := nextSequenceId)
      ensures old(Recorded()) && (ok || SameButCounter(old(State()), State())) ==> Recorded()
      ensures old(Settled() && Recorded()) ==> (Restarts() <==> old(Lasts(State(), Give(o, actor, from, to))))
    {
      hide SettledState, RoomAt, NotInside, Effect, ViewOf, SubmittedAll, MoveChecked, ZoneReplays.Recorded, Number;
      hide Persisted, Replayed, Lasts;
      RestartsAfter(Give(o, actor, from, to));
      if !MoveChecked(State(), o, actor, from, to) {
        return false;
      }
      if old(Settled()) {
        SettledFrom(State());
        CommandExactly(State(), Give(o, actor, from, to));
        if Guarded(State(), Give(o, actor, from, to)) {
          GivenView(State(), o, actor, from, to);
        }
      }
      var r := Submit([ObjectMove(o, from, to, ANY)]);
      ok := r == Done;
      SettledIsState();
    }

    method ProcessObjectMoveSubcontainer(o: Id, actor: Id, fromSub: string, sub: string) returns (ok: bool)
      modifies this
      ensures (State(), ok) == Processed(old(State()), Shift(o, actor, fromSub, sub))
      ensures persisted == old(persisted) + PersistedBy(old(State()), Shift(o, actor, fromSub, sub))
      ensures old(Settled() && MoveSubcontainerChecked(State(), o, actor, fromSub, sub)) ==>
        ok && Settled() &&
        View() == Effect(old(View()), ObjectMoveSubcontainer(o, fromSub, sub)).(nextSequenceId := nextSequenceId)
      ensures old(Recorded()) && (ok || SameButCounter(old(State()), State())) ==> Recorded()
      ensures old(Settled() && Recorded()) ==> Recorded()
    {
      hide SettledState, Effect, ViewOf, SubmittedAll, MoveSubcontainerChecked, ZoneReplays.Recorded, Number, Persisted;
      if !MoveSubcontainerChecked(State(), o, actor, fromSub, sub) {
        return false;
      }
      if old(Settled()) {
        SettledFrom(State());
        CommandSettles(State(), Shift(o, actor, fromSub, sub));
        ShiftTaken(State(), o, actor, fromSub, sub);
      }
      var r := Submit([ObjectMoveSubcontainer(o, fromSub, sub)]);
      ok := r == Done;
      SettledIsState();
    }

    /**
     * All that the actor had ends up in its corpse, where it stood, in the order in which it was
     * found; a new ID is given to the corpse.
     */
    method ProcessActorDeath(a: Id, corpse: Id) returns (ok: bool)
      requires corpse !in objectsById
      modifies this
      ensures (State(), ok) == Processed(old(State()), Die(a, corpse))
      ensures persisted == old(persisted) + PersistedBy(old(State()), Die(a, corpse))
      ensures a in old(actorsById) && old(Settled()) ==>
        var found := TuplesOf(old(State()), a);
        && ok && Settled() && Listing(old(View()), InActor(a), found)
        && View() == AfterDeath(old(View()), a, corpse, Ids(found)).(nextSequenceId := nextSequenceId)
        && corpse in objectsById && objectsById[corpse].contents == Objs(found)
      ensures old(Recorded()) && (ok || SameButCounter(old(State()), State())) ==> Recorded()
      ensures old(Settled() && Recorded()) ==> Recorded()
    {
      hide SettledState, SubmittedAll, Listing, Ids, AfterDeath, DeathPayloads, TuplesOf, Objs, ZoneReplays.Recorded;
      hide Number, Persisted;
      SettledIsState();
      if a !in actorsById {
        return false;
      }
      var outEvents := DeathPayloads(ViewOf(State()), a, corpse, TuplesOf(State(), a));
      hide ViewOf, Processed, PersistedBy;
      ProcessedAsSubmitted(State(), Die(a, corpse));
      if Settled() {
        DeathOutcome(State(), a, corpse);
      }
      var r := Submit(outEvents);
      ok := r == Done;
      SettledIsState();
    }

    /**
     * A blow, given what the dice said: dodged, it changes nothing and leaves nothing in the log;
     * else it hurts, and if it kills, the target dies within the same command.
     */
    method ProcessCombatMelee(attacker: Id, target: Id, dodged: bool, physical: int, stamina: int, focus: int,
        corpse: Id)
      returns (ok: bool)
      requires corpse !in objectsById
      modifies this
      ensures (State(), ok) ==
        Processed(old(State()), Strike(attacker, target, dodged, physical, stamina, focus, corpse))
      ensures persisted == old(persisted) +
        PersistedBy(old(State()), Strike(attacker, target, dodged, physical, stamina, focus, corpse))
      ensures dodged ==> persisted == old(persisted)
      ensures !dodged && attacker in old(actorsById) && target in old(actorsById) &&
              old(actorsById)[attacker].location == old(actorsById)[target].location ==>
        var actor, was := old(actorsById)[target], old(actorsById)[target].info.attributes;
        was.physical > physical && was.stamina > stamina && was.focus > focus ==>
        && ok && actorsById == old(actorsById)[target := actor.(info := actor.info.(attributes := Attributes(
                   was.physical - physical, was.stamina - stamina, was.focus - focus, was.zeal, was.others)))]
        && unchanged(`locationsById) && unchanged(`exitsById) && unchanged(`objectsById)
      ensures old(Settled() && Face(State(), attacker, target)) ==>
        && ok && Settled()
        && View() == (if dodged then old(View())
                      else if Lethal(old(actorsById)[target].info.attributes, physical, stamina, focus)
                      then AfterDeath(old(View()), target, corpse, Ids(TuplesOf(old(State()), target)))
                      else Hurt(old(View()), target, physical, stamina, focus)).(nextSequenceId := nextSequenceId)
      ensures old(Settled() && Face(State(), attacker, target)) && !dodged &&
              Lethal(old(actorsById)[target].info.attributes, physical, stamina, focus) ==>
        corpse in objectsById && objectsById[corpse].contents == Objs(TuplesOf(old(State()), target))
      ensures old(Recorded()) && (ok || SameButCounter(old(State()), State())) ==> Recorded()
      ensures old(Settled() && Recorded()) ==> Recorded()
    {
      hide SettledState, SubmittedAll, Listing, Ids, AfterDeath, MeleePayloads, TuplesOf, Objs, Hurt, Lethal;
      hide ZoneReplays.Recorded, Number, Persisted, Linked, Sound, NoOrphans, DeathPayloads;
      hide Processed, SameButCounter;
      AsWounded(State(), attacker, target, physical, stamina, focus, corpse);
      SettledIsState();
      if !Face(State(), attacker, target) {
        NobodyThere(State(), attacker, target, dodged, physical, stamina, focus, corpse);
        return false;
      }
      var found := TuplesOf(State(), target);
      var outEvents := MeleePayloads(ViewOf(State()), target, dodged, physical, stamina, focus, corpse, found);
      DodgeNotPersisted(ViewOf(State()), nextSequenceId, target, dodged, physical, stamina, focus, corpse, found);
      hide ViewOf, PersistedBy;
      ProcessedAsSubmitted(State(), Strike(attacker, target, dodged, physical, stamina, focus, corpse));
      if Settled() {
        StrikeOutcome(State(), attacker, target, dodged, physical, stamina, focus, corpse);
      }
      var r := Submit(outEvents);
      ok := r == Done;
      SettledIsState();
    }

    /** The actor of another zone, with all it has there, as it is; nothing is checked. */
    method ProcessActorMigrateIn(src: Zone, a: Id, toLoc: Id) returns (ok: bool)
      requires src != this && src.Settled() && a in src.actorsById
      modifies this
      ensures (State(), ok) == Processed(old(State()), TakeIn(src.State(), a, toLoc))
      ensures persisted == old(persisted) + PersistedBy(old(State()), TakeIn(src.State(), a, toLoc))
      ensures old(Settled()) ==> (ok <==> toLoc in old(locationsById))
      ensures old(Settled()) ==> (ok && Settled() <==> old(Welcome(State(), src.State(), a, toLoc)))
      ensures old(Settled() && Welcome(State(), src.State(), a, toLoc)) ==>
        View() == Arrived(src.View(), old(View()), a, toLoc, Ids(TuplesOf(src.State(), a)))
                  .(nextSequenceId := nextSequenceId)
      ensures old(Recorded()) && (ok || SameButCounter(old(State()), State())) ==> Recorded()
      ensures old(Settled() && Recorded()) ==> Recorded()
    {
      hide SettledState, SubmittedAll, Ids, Arrived, Arriving, TuplesOf, ZoneReplays.Recorded, Number, Welcome;
      hide Persisted;
      SettledIsState();
      src.SettledIsState();
      TuplesListed(src.State(), a);
      var outEvents := MigrateIn(ViewOf(src.State()), a, toLoc, TuplesOf(src.State(), a));
      assert outEvents == Arriving(src.State(), a, toLoc) by {
        ArrivingIs(src.State(), a, toLoc);
      }
      hide ViewOf, Processed, PersistedBy, MigrateIn;
      ProcessedAsSubmitted(State(), TakeIn(src.State(), a, toLoc));
      if Settled() {
        ArrivingExactly(State(), src.State(), a, toLoc);
        FailedHarmlessly(State(), TakeIn(src.State(), a, toLoc));
      }
      var r := Submit(outEvents);
      ok := r == Done;
      SettledIsState();
    }

    method ProcessActorMigrateOut(a: Id) returns (ok: bool)
      modifies this
      ensures (State(), ok) == Processed(old(State()), SendOut(a))
      ensures persisted == old(persisted) + PersistedBy(old(State()), SendOut(a))
      ensures old(Settled()) ==> Settled() && (ok <==> a in old(actorsById))
      ensures old(Settled()) && a in old(actorsById) ==>
        View() == Departed(old(View()), a, Ids(TuplesOf(old(State()), a))).(nextSequenceId := nextSequenceId)
      ensures old(Recorded()) && (ok || SameButCounter(old(State()), State())) ==> Recorded()
      ensures old(Settled() && Recorded()) ==> Recorded()
    {
      hide SettledState, SubmittedAll, Ids, Departed, MigrateOut, TuplesOf, ViewOf, ZoneReplays.Recorded, Number;
      hide Persisted;
      SettledIsState();
      var outEvents := MigrateOut(a, TuplesOf(State(), a));
      ProcessedAsSubmitted(State(), SendOut(a));
      hide Processed, PersistedBy;
      if Settled() {
        if a in actorsById {
          SendOutOutcome(State(), a);
        } else {
          NobodyToSend(State(), a);
          SettledAside(State(), nextSequenceId + 1);
        }
      }
      var r := Submit(outEvents);
      ok := r == Done;
      SettledIsState();
    }

    /**
     * Everything in the zone as events that make it again, in an order that a walk over the
     * dependencies yields, whatever order the maps are read in.
     */
    method Snapshot(sequenceNum: nat) returns (snapEvents: seq<Event>, ghost order: seq<Node>)
      requires Settled()
      ensures SnapshotOrdering(View(), order) && snapEvents == SnapshotEvents(View(), order, sequenceNum)
      ensures AcceptsAll(EMPTY, snapEvents)
      ensures ApplyAll(EMPTY, snapEvents) ==
              View().(defaultLocation := None, nextSequenceId := SnapshotCounter(View(), sequenceNum))
    {
      hide Linked, Sound, NoOrphans, ViewOf, Extends, Elements, AllNodes, SnapshotCounter, ZoneViews.Accepts;
      hide ZoneViews.Apply;
      var v := ViewOf(State());
      ghost var r := RankNodes(v);
      var walk := new SnapshotWalk(DependenciesIn(v), AllNodes(v));
      var orderedObjs := walk.Order(r);
      WalkedOrder(v, orderedObjs);
      order := orderedObjs;
      snapEvents := [];
      assert order[..0] == [];
      for i := 0 to |orderedObjs|
        invariant snapEvents == SnapshotEvents(v, orderedObjs[..i], sequenceNum)
      {
        assert orderedObjs[..i + 1][..i] == orderedObjs[..i];
        assert orderedObjs[i] in orderedObjs;
        snapEvents := snapEvents + [Event(sequenceNum, SnapshotPayload(v, orderedObjs[i]))];
      }
      assert orderedObjs[..|orderedObjs|] == orderedObjs;
      SnapshotIdentity(v, order, sequenceNum);
    }

    /** The commands that clear a location, each checked like any other; nothing is persisted. */
    method HandleClearing(ps: seq<Payload>) returns (ok: bool)
      modifies this
      ensures (State(), ok) == Subcommands(old(State()), ps)
      ensures persisted == old(persisted) && origin == old(origin)
      ensures ok ==>
        nextSequenceId == old(nextSequenceId) + |ps| && history == old(history) + Number(old(nextSequenceId), ps)
    {
      hide Submitted, Checked;
      assert ps[0..] == ps && ps[..0] == [];
      for i := 0 to |ps|
        invariant persisted == old(persisted) && origin == old(origin) && nextSequenceId == old(nextSequenceId) + i
        invariant Subcommands(old(State()), ps) == Subcommands(State(), ps[i..])
        invariant history == old(history) + Number(old(nextSequenceId), ps[..i])
      {
        assert ps[i..][1..] == ps[i + 1..] && ps[i..][0] == ps[i] && ps[..i + 1][..i] == ps[..i];
        SubmittedOne(State(), ps[i]);
        if !Checked(State(), ps[i]) {
          return false;
        }
        NumberOne(nextSequenceId, ps[i]);
        var done, _ := Handle([ps[i]]);
        if done != Done {
          return false;
        }
      }
      assert ps[..|ps|] == ps;
      ok := true;
    }

    /** Everything at the location is cleared away, and then it goes; only that is persisted. */
    method ClearAndRemove(l: Id, toHere: seq<Id>) returns (ok: bool)
      requires RemovalChecked(State(), l)
      modifies this
      ensures (State(), ok) == RemovalDone(old(State()), l, toHere)
      ensures persisted == old(persisted) + if ok then [LastOfRemoval(old(State()), l, toHere)] else []
      ensures origin == old(origin)
      ensures ok ==>
        history ==
        old(history) + Number(old(nextSequenceId), Clearing(old(State()), l, toHere)) + [persisted[|persisted| - 1]]
    {
      hide Subcommands, Submitted, Clearing, NothingAt;
      ok := HandleClearing(Clearing(State(), l, toHere));
      if !ok {
        return;
      }
      var cleared := nextSequenceId;
      SubmittedOne(State(), LocationRemoveFromZone(l));
      var r, outEvents := Handle([LocationRemoveFromZone(l)]);
      ok := r == Done;
      if ok {
        NumberOne(cleared, LocationRemoveFromZone(l));
        RemovalPersisted(cleared, l);
        Persist(outEvents);
      }
    }

    /**
     * toHere are the exits that lead to the location, in the order the map yields them. Only the
     * last event is persisted, so a restart finds the zone as it was left exactly when there was
     * no exit to clear away and nothing that went anywhere else.
     */
    method ProcessLocationRemoveFromZone(l: Id, toHere: seq<Id>) returns (ok: bool)
      requires LeadingTo(State(), l, toHere)
      modifies this
      ensures (State(), ok) == Processed(old(State()), Demolish(l, toHere))
      ensures persisted == old(persisted) + PersistedBy(old(State()), Demolish(l, toHere))
      ensures old(Settled() && RemovalChecked(State(), l)) ==> (ok && Settled() <==> old(Removable(State(), l)))
      ensures old(Settled() && RemovalChecked(State(), l) && Removable(State(), l)) ==>
        View() == old(AfterRemoval(State(), l, toHere)).(nextSequenceId := nextSequenceId)
      ensures old(Settled() && Recorded()) ==> (Restarts() <==> old(Lasts(State(), Demolish(l, toHere))))
      ensures old(Recorded() && RemovalChecked(State(), l) && NothingToClear(State(), l, toHere)) ==> ok && Recorded()
    {
      hide SettledState, LeadingTo, RemovalDone, Clearing, AfterRemoval, NothingToClear, Removable, LastOfRemoval;
      hide ViewOf;
      hide ZoneReplays.Recorded, Replayed, NothingAt, Number, Lasts;
      RestartsAfter(Demolish(l, toHere));
      SettledIsState();
      if !RemovalChecked(State(), l) {
        return false;
      }
      if Settled() {
        RemovalExactly(State(), l, toHere);
        if Removable(State(), l) {
          RemovalCounts(State(), l, toHere);
        }
      }
      RemovalRecords(origin, State(), history, persisted, l, toHere);
      ok := ClearAndRemove(l, toHere);
      SettledIsState();
    }
  }

  lemma NobodyThere(st: ZoneState, attacker: Id, target: Id, dodged: bool, physical: int, stamina: int, focus: int,
      corpse: Id)
    requires !Face(st, attacker, target)
    ensures var c := Strike(attacker, target, dodged, physical, stamina, focus, corpse);
      Processed(st, c) == (st, false) && PersistedBy(st, c) == []
    ensures !(attacker in st.actors && target in st.actors
      && st.actors[attacker].location == st.actors[target].location)
  {
  }

  lemma AsWounded(st: ZoneState, attacker: Id, target: Id, physical: int, stamina: int, focus: int, corpse: Id)
    requires corpse !in st.objects
    ensures
      (&& attacker in st.actors && target in st.actors
       && st.actors[attacker].location == st.actors[target].location) ==>
      var (t, ok) := Processed(st, Strike(attacker, target, false, physical, stamina, focus, corpse));
      var actor, was := st.actors[target], st.actors[target].info.attributes;
      was.physical > physical && was.stamina > stamina && was.focus > focus ==>
        && ok && t.locations == st.locations && t.exits == st.exits && t.objects == st.objects
        && t.actors == st.actors[target := actor.(info := actor.info.(attributes := Attributes(
             was.physical - physical, was.stamina - stamina, was.focus - focus, was.zeal, was.others)))]
  {
    hide Processed;
    if attacker in st.actors && target in st.actors && st.actors[attacker].location == st.actors[target].location {
      var was := st.actors[target].info.attributes;
      if was.physical > physical && was.stamina > stamina && was.focus > focus {
        WoundedState(st, attacker, target, physical, stamina, focus, corpse);
      }
    }
  }

  /** Nothing in a zone has a size, so a list's slots are not the limit unless there are fewer than none. */
  lemma NothingHasSize(st: ZoneState, c: Container)
    requires Resolves(st, c)
    ensures c.InActor? ==>
      var inv := st.actors[c.id].inventory;
      && Total(NoSize, inv.back) == 0 && Total(NoSize, inv.belt) == 0
      && Total(NoSize, inv.body) == 0 && Total(NoSize, inv.hands) == 0
  {
    if c.InActor? {
      var inv := st.actors[c.id].inventory;
      NoSizeTotal(inv.back);
      NoSizeTotal(inv.belt);
      NoSizeTotal(inv.body);
      NoSizeTotal(inv.hands);
    }
  }

  lemma CarriedView(st: ZoneState, p: Payload)
    requires SettledState(st) && Checked(st, p) && Unchecked(ViewOf(st), p)
    ensures var t := SubmittedAll(st, [p]).0;
      && ViewOf(t) == Effect(ViewOf(st), p).(nextSequenceId := t.nextSequenceId)
      && (DefaultExists(ViewOf(st)) ==> DefaultExists(ViewOf(t)))
  {
    hide SettledState, Unchecked, Effect, ViewOf, SubmittedAll;
    CommandSettles(st, Carry(p));
    CarryTaken(st, p);
    CheckedKeepsDefault(st, p);
    DefaultAside(Effect(ViewOf(st), p), SubmittedAll(st, [p]).0.nextSequenceId);
  }

  lemma CheckedKeepsDefault(st: ZoneState, p: Payload)
    requires SettledState(st) && Checked(st, p) && Unchecked(ViewOf(st), p)
    ensures DefaultExists(ViewOf(st)) ==> DefaultExists(Effect(ViewOf(st), p))
  {
    assert !p.LocationRemoveFromZone?;
    hide Linked, Consistent, Checked, Unchecked, Effect, Accepts, ViewOf, LeavesNoOrphans;
    CheckedLeaves(st, p);
    if DefaultExists(ViewOf(st)) {
      DefaultKeptExactly(ViewOf(st), p);
    }
  }

  lemma DefaultAside(v: View, n: nat)
    ensures DefaultExists(v) <==> DefaultExists(v.(nextSequenceId := n))
  {
  }

  lemma GivenView(st: ZoneState, o: Id, actor: Option<Id>, from: Container, to: Container)
    requires SettledState(st) && MoveChecked(st, o, actor, from, to) && Guarded(st, Give(o, actor, from, to))
    ensures var t := SubmittedAll(st, [ObjectMove(o, from, to, ANY)]).0;
      ViewOf(t) == Effect(ViewOf(st), ObjectMove(o, from, to, ANY)).(nextSequenceId := t.nextSequenceId)
  {
    hide SettledState, RoomAt, NotInside, Effect, ViewOf, SubmittedAll, MoveChecked;
    CommandSettles(st, Give(o, actor, from, to));
    GiveTaken(st, o, actor, from, to);
  }

  lemma FailedHarmlessly(st: ZoneState, c: Command)
    requires SettledState(st) && Passes(st, c) && c.TakeIn?
    ensures !Processed(st, c).1 ==> SameButCounter(st, Processed(st, c).0)
  {
    hide SettledState, Passes, Processed;
    if !Processed(st, c).1 {
      FailedChanges(st, c);
    }
  }

  lemma DodgeNotPersisted(v: View, n: nat, target: Id, dodged: bool, physical: int, stamina: int, focus: int,
                          corpse: Id, s: seq<Tuple>)
    requires target in v.actors
    ensures dodged ==> Persisted(Number(n, MeleePayloads(v, target, dodged, physical, stamina, focus, corpse, s))) == []
  {
    NumberOne(n, CombatDodge(target));
  }

  lemma AppliedCounter(st: ZoneState, e: Event)
    ensures AppliedEvent(st, e).1 == Done ==> AppliedEvent(st, e).0.nextSequenceId == e.sequenceNumber + 1
  {
    hide Applied;
  }
}
