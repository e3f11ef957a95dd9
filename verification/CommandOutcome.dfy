/**
 * What each command that carries its event comes to, told from the zone's own entities: exactly
 * when it goes through, exactly when the zone is settled afterwards, what the zone then is, and
 * what is added to the log. Nothing here names the handlers' checks or the events' effects.
 */
module CommandOutcomes {
  import opened Wrappers
  import opened Bytes
  import opened UUIDLists
  import opened ZoneViews
  import opened EventSourcing
  import opened PayloadRuns
  import opened Inventories
  import opened ZoneStates
  import opened ZoneLinks
  import opened ZoneApplied
  import opened ZoneReplays
  import opened ZoneCommands
  import opened Commands

  // ---------- what is seen of a zone ----------

  /** The view that everything below is told in: the entities themselves, and the place of what an actor has. */
  lemma WhatIsSeen(st: ZoneState)
    ensures var v := ViewOf(st);
      && v.locations.Keys == st.locations.Keys && v.actors.Keys == st.actors.Keys && v.objects.Keys == st.objects.Keys
      && v.exits == st.exits && v.defaultLocation == st.defaultLocation && v.nextSequenceId == st.nextSequenceId
      && (forall l :: l in v.locations ==> v.locations[l] == st.locations[l].info)
      && (forall a :: a in v.actors ==> v.actors[a] == ActorView(st.actors[a].info, st.actors[a].location))
      && (forall o :: o in v.objects ==>
            v.objects[o] == ObjectView(st.objects[o].info, st.objects[o].container, v.objects[o].place))
      && (forall o :: o in v.objects && !(v.objects[o].container.InActor? && v.objects[o].container.id in st.actors) ==>
            v.objects[o].place == None)
      && (forall o :: o in v.objects && v.objects[o].container.InActor? && v.objects[o].container.id in st.actors ==>
            var inv := st.actors[v.objects[o].container.id].inventory;
            v.objects[o].place ==
              if o in inv.back then Some(Back) else if o in inv.belt then Some(Belt)
              else if o in inv.body then Some(Body) else if o in inv.hands then Some(Hands) else None)
  {
  }

  // ---------- carried events in general ----------

  lemma CarryRefused(st: ZoneState, p: Payload)
    requires !Checked(st, p)
    ensures Processed(st, Carry(p)) == (st, false) && PersistedBy(st, Carry(p)) == []
  {
    hide Checked;
  }

  /** A checked event is submitted: the counter moves on, and if all is well the event is logged under its number. */
  lemma CarrySubmitted(st: ZoneState, p: Payload)
    requires Checked(st, p)
    ensures Processed(st, Carry(p)) ==
      (Applied(st, p).0.(nextSequenceId := st.nextSequenceId + 1), Applied(st, p).1 == Done)
    ensures PersistedBy(st, Carry(p)) == if Applied(st, p).1 == Done then [Event(st.nextSequenceId, p)] else []
  {
    hide *;
    NoDodge(st, p);
    CarriedEvents(st, p);
    SingleSubmitted(st, Carry(p), p);
  }

  /** A command that becomes one event. */
  lemma SingleSubmitted(st: ZoneState, c: Command, p: Payload)
    requires !c.Demolish? && Passes(st, c) && EventsFor(st, c) == [p] && !p.CombatDodge?
    ensures Processed(st, c) ==
      (Applied(st, p).0.(nextSequenceId := st.nextSequenceId + 1), Applied(st, p).1 == Done)
    ensures PersistedBy(st, c) == if Applied(st, p).1 == Done then [Event(st.nextSequenceId, p)] else []
  {
    hide *;
    ProcessedAsSubmitted(st, c);
    SubmittedOne(st, p);
    OneSubmitted(st, p);
    NumberOne(st.nextSequenceId, p);
    OnePersisted(Event(st.nextSequenceId, p));
  }

  lemma NoDodge(st: ZoneState, p: Payload)
    requires Checked(st, p)
    ensures !p.CombatDodge?
  {
  }

  lemma CarriedEvents(st: ZoneState, p: Payload)
    requires Checked(st, p)
    ensures Passes(st, Carry(p)) && EventsFor(st, Carry(p)) == [p]
  {
    hide Checked;
  }

  lemma OneSubmitted(st: ZoneState, p: Payload)
    ensures Submitted(st, p) == (Applied(st, p).0.(nextSequenceId := st.nextSequenceId + 1), Applied(st, p).1)
  {
    hide Applied;
    AppliedAside(st, p, st.nextSequenceId + 1);
  }

  lemma OnePersisted(e: Event)
    requires !e.payload.CombatDodge?
    ensures Persisted([e]) == [e]
  {
    assert [e][1..] == [];
  }

  /** Granted what is left unchecked as well, the zone is settled again and looks as the view's effect says. */
  lemma CarrySettles(st: ZoneState, p: Payload)
    requires SettledState(st) && Checked(st, p)
    ensures var (t, ok) := Processed(st, Carry(p));
      && (ok && SettledState(t) <==> Unchecked(ViewOf(st), p))
      && (ok && SettledState(t) ==>
            && ViewOf(t) == Effect(ViewOf(st), p).(nextSequenceId := st.nextSequenceId + 1)
            && PersistedBy(st, Carry(p)) == [Event(st.nextSequenceId, p)])
  {
    hide SettledState, Checked, Unchecked, Applied, Effect, ViewOf, Submitted;
    CommandExactly(st, Carry(p));
    CheckedExactly(st, p);
    CarrySubmitted(st, p);
    ProcessedAsSubmitted(st, Carry(p));
    SubmittedOne(st, p);
    if Unchecked(ViewOf(st), p) {
      DoneAndSettled(st, p);
    }
  }

  // ---------- actors ----------

  lemma AddingAnActor(st: ZoneState, a: Id, info: ActorInfo, l: Id)
    requires SettledState(st)
    ensures var p := ActorAddToZone(a, info, l);
      var (t, ok) := Processed(st, Carry(p));
      var v, w := ViewOf(st), ViewOf(t);
      && (ok <==> l in st.locations && a !in st.actors)
      && (ok ==> && SettledState(t) && PersistedBy(st, Carry(p)) == [Event(st.nextSequenceId, p)]
                 && w == v.(actors := v.actors[a := ActorView(info, l)], nextSequenceId := st.nextSequenceId + 1))
      && (!ok ==> t == st && PersistedBy(st, Carry(p)) == [])
  {
    var p := ActorAddToZone(a, info, l);
    hide SettledState, ViewOf, Processed, PersistedBy;
    if Checked(st, p) {
      CarrySettles(st, p);
    } else {
      CarryRefused(st, p);
    }
  }

  /** Along an exit; and all is well exactly when the actor was where it said it was, or where it wants to be. */
  lemma MovingAnActor(st: ZoneState, from: Id, to: Id, a: Id)
    requires SettledState(st)
    ensures var p := ActorMove(from, to, a);
      var (t, ok) := Processed(st, Carry(p));
      var v, w := ViewOf(st), ViewOf(t);
      && (ok <==>
            && from in st.locations && to in st.locations && a in st.actors
            && exists x :: x in st.exits && st.exits[x].source == from && st.exits[x].destination == Some(to))
      && (ok ==> (SettledState(t) <==> st.actors[a].location == from || st.actors[a].location == to))
      && (ok && SettledState(t) ==>
            && PersistedBy(st, Carry(p)) == [Event(st.nextSequenceId, p)]
            && w == v.(actors := v.actors[a := ActorView(st.actors[a].info, to)],
                       nextSequenceId := st.nextSequenceId + 1))
      && (!ok ==> t == st && PersistedBy(st, Carry(p)) == [])
  {
    var p := ActorMove(from, to, a);
    hide SettledState, Processed, PersistedBy, Applied, Checked, ViewOf;
    MoveChecks(st, from, to, a);
    if Checked(st, p) {
      ViewLocation(st, a);
      ViewInfo(st, a);
      CarrySubmitted(st, p);
      CarrySettles(st, p);
      MoveDone(st, from, to, a);
    } else {
      CarryRefused(st, p);
    }
  }

  lemma MoveDone(st: ZoneState, from: Id, to: Id, a: Id)
    requires from in st.locations && to in st.locations && a in st.actors
    ensures Applied(st, ActorMove(from, to, a)).1 == Done
  {
  }

  lemma MoveChecks(st: ZoneState, from: Id, to: Id, a: Id)
    requires SettledState(st)
    ensures Checked(st, ActorMove(from, to, a)) <==>
      && from in st.locations && to in st.locations && a in st.actors
      && exists x :: x in st.exits && st.exits[x].source == from && st.exits[x].destination == Some(to)
  {
    assert ExitsListed(st);
    hide SettledState, NoDup;
  }

  lemma RelocatingAnActor(st: ZoneState, a: Id, to: Id)
    requires SettledState(st)
    ensures var p := ActorAdminRelocate(a, to);
      var (t, ok) := Processed(st, Carry(p));
      var v, w := ViewOf(st), ViewOf(t);
      && (ok <==> a in st.actors && to in st.locations)
      && (ok ==>
            && SettledState(t) && PersistedBy(st, Carry(p)) == [Event(st.nextSequenceId, p)]
            && w == v.(actors := v.actors[a := ActorView(st.actors[a].info, to)],
                       nextSequenceId := st.nextSequenceId + 1))
      && (!ok ==> t == st && PersistedBy(st, Carry(p)) == [])
  {
    var p := ActorAdminRelocate(a, to);
    hide SettledState, ViewOf, Processed, PersistedBy;
    if Checked(st, p) {
      ViewInfo(st, a);
      CarrySettles(st, p);
    } else {
      CarryRefused(st, p);
    }
  }

  /** What it has is not looked at; all is well exactly when it has nothing. */
  lemma RemovingAnActor(st: ZoneState, a: Id)
    requires SettledState(st)
    ensures var p := ActorRemoveFromZone(a);
      var (t, ok) := Processed(st, Carry(p));
      var v, w := ViewOf(st), ViewOf(t);
      && (ok <==> a in st.actors)
      && (ok ==> (SettledState(t) <==> forall o :: o in st.objects ==> st.objects[o].container != InActor(a)))
      && (ok && SettledState(t) ==>
            && PersistedBy(st, Carry(p)) == [Event(st.nextSequenceId, p)]
            && w == v.(actors := v.actors - {a}, nextSequenceId := st.nextSequenceId + 1))
      && (!ok ==> t == st && PersistedBy(st, Carry(p)) == [])
  {
    var p := ActorRemoveFromZone(a);
    RemovalApplied(st, a);
    hide SettledState, ViewOf, Processed, PersistedBy, Applied;
    VacantMeans(st, InActor(a));
    if Checked(st, p) {
      CarrySubmitted(st, p);
      CarrySettles(st, p);
    } else {
      CarryRefused(st, p);
    }
  }

  lemma RemovalApplied(st: ZoneState, a: Id)
    ensures Applied(st, ActorRemoveFromZone(a)).1 == Done <==> a in st.actors
  {
  }

  lemma Speaking(st: ZoneState, a: Id, speech: string)
    requires SettledState(st)
    ensures var p := ActorSpeak(a, speech);
      var (t, ok) := Processed(st, Carry(p));
      && (ok <==> a in st.actors)
      && (ok ==> t == st.(nextSequenceId := st.nextSequenceId + 1)
                 && PersistedBy(st, Carry(p)) == [Event(st.nextSequenceId, p)])
      && (!ok ==> t == st && PersistedBy(st, Carry(p)) == [])
  {
    var p := ActorSpeak(a, speech);
    hide SettledState, ViewOf, Processed, PersistedBy;
    if Checked(st, p) {
      CarrySubmitted(st, p);
    } else {
      CarryRefused(st, p);
    }
  }

  // ---------- locations ----------

  lemma AddingALocation(st: ZoneState, l: Id, info: LocationInfo)
    requires SettledState(st)
    ensures var p := LocationAddToZone(l, info);
      var (t, ok) := Processed(st, Carry(p));
      var v, w := ViewOf(st), ViewOf(t);
      && (ok <==> l !in st.locations)
      && (ok ==>
            && SettledState(t) && PersistedBy(st, Carry(p)) == [Event(st.nextSequenceId, p)]
            && w == v.(locations := v.locations[l := info], nextSequenceId := st.nextSequenceId + 1))
      && (!ok ==> t == st && PersistedBy(st, Carry(p)) == [])
  {
    var p := LocationAddToZone(l, info);
    hide SettledState, ViewOf, Processed, PersistedBy;
    if Checked(st, p) {
      CarrySettles(st, p);
    } else {
      CarryRefused(st, p);
    }
  }

  /** A known location always takes its new description. */
  lemma UpdatingALocation(st: ZoneState, l: Id, info: LocationInfo)
    requires SettledState(st)
    ensures var p := LocationUpdate(l, info);
      var (t, ok) := Processed(st, Carry(p));
      var v, w := ViewOf(st), ViewOf(t);
      && (ok <==> l in st.locations)
      && (ok ==>
            && SettledState(t) && PersistedBy(st, Carry(p)) == [Event(st.nextSequenceId, p)]
            && w == v.(locations := v.locations[l := info], nextSequenceId := st.nextSequenceId + 1))
      && (!ok ==> t == st && PersistedBy(st, Carry(p)) == [])
  {
    var p := LocationUpdate(l, info);
    ViewKeys(st);
    hide SettledState, ViewOf, Processed, PersistedBy;
    if Checked(st, p) {
      CarrySettles(st, p);
    } else {
      CarryRefused(st, p);
    }
  }

  lemma SettingTheDefault(st: ZoneState, l: Id)
    requires SettledState(st)
    ensures var p := ZoneSetDefaultLocation(l);
      var (t, ok) := Processed(st, Carry(p));
      var v, w := ViewOf(st), ViewOf(t);
      && (ok <==> l in st.locations)
      && (ok ==>
            && SettledState(t) && PersistedBy(st, Carry(p)) == [Event(st.nextSequenceId, p)]
            && w == v.(defaultLocation := Some(l), nextSequenceId := st.nextSequenceId + 1))
      && (!ok ==> t == st && PersistedBy(st, Carry(p)) == [])
  {
    var p := ZoneSetDefaultLocation(l);
    hide SettledState, ViewOf, Processed, PersistedBy;
    if Checked(st, p) {
      CarrySettles(st, p);
    } else {
      CarryRefused(st, p);
    }
  }

  // ---------- exits ----------

  /** No two exits from one place in the same direction; and an exit within the zone leads to a place in it. */
  lemma AddingAnExit(st: ZoneState, x: Id, desc: string, direction: string, source: Id, zone: Id, to: Id)
    requires SettledState(st)
    ensures var p := ExitAddToZone(x, desc, direction, source, zone, to);
      var (t, ok) := Processed(st, Carry(p));
      var v, w := ViewOf(st), ViewOf(t);
      && (ok <==>
            && x !in st.exits && source in st.locations && (zone == NIL ==> to in st.locations)
            && forall y :: y in st.exits && st.exits[y].source == source ==> st.exits[y].direction != direction)
      && (ok ==>
            && SettledState(t) && PersistedBy(st, Carry(p)) == [Event(st.nextSequenceId, p)]
            && w == v.(exits := v.exits[x :=
                         if zone == NIL then ExitInfo(desc, direction, source, Some(to), NIL, NIL)
                         else ExitInfo(desc, direction, source, None, zone, to)],
                       nextSequenceId := st.nextSequenceId + 1))
      && (!ok ==> t == st && PersistedBy(st, Carry(p)) == [])
  {
    var p := ExitAddToZone(x, desc, direction, source, zone, to);
    hide SettledState, ViewOf, Processed, PersistedBy, Checked;
    ExitChecks(st, p);
    if Checked(st, p) {
      CarrySettles(st, p);
    } else {
      CarryRefused(st, p);
    }
  }

  lemma ExitChecks(st: ZoneState, p: Payload)
    requires SettledState(st) && p.ExitAddToZone?
    ensures Checked(st, p) <==>
      && p.exit !in st.exits && p.source in st.locations && (p.destZone == NIL ==> p.destLocation in st.locations)
      && forall y :: y in st.exits && st.exits[y].source == p.source ==> st.exits[y].direction != p.direction
  {
    assert ExitsListed(st);
    hide SettledState, NoDup;
  }

  /** When an update is done: the new source must not have an exit in the old direction. */
  lemma UpdateDoneExactly(st: ZoneState, p: Payload)
    requires p.ExitUpdate?
    ensures Applied(st, p).1 == Done <==>
      && p.exit in st.exits && p.source in st.locations && p.destLocation != NIL
      && (p.destZone == NIL ==> p.destLocation in st.locations)
      && (p.source != st.exits[p.exit].source ==>
            && p.exit !in st.locations[p.source].outExits
            && forall y :: y in st.locations[p.source].outExits && y in st.exits ==>
                 st.exits[y].direction != st.exits[p.exit].direction)
    ensures Applied(st, p).1 == Done || Applied(st, p).1 == Refused
  {
    hide Remove;
  }

  /** What a done update makes of the exit. */
  lemma UpdateWritten(st: ZoneState, p: Payload)
    requires p.ExitUpdate? && Applied(st, p).1 == Done
    ensures p.exit in st.exits
    ensures var was := st.exits[p.exit];
      Applied(st, p).0.exits == st.exits[p.exit := ExitInfo(p.desc, p.direction, p.source,
        if was.otherZone == NIL || p.destZone == NIL then None else was.destination, p.destZone,
        if p.destZone != NIL then p.destLocation else if was.otherZone == NIL then was.otherLocation else NIL)]
  {
    hide Remove;
  }

  lemma UpdateChecks(st: ZoneState, p: Payload)
    requires SettledState(st) && p.ExitUpdate?
    ensures Checked(st, p) && Applied(st, p).1 == Done <==>
      && p.exit in st.exits && p.source in st.locations && p.destLocation != NIL
      && (p.destZone == NIL ==> p.destLocation in st.locations)
      && !(st.exits[p.exit].otherZone != NIL && st.exits[p.exit].otherLocation == NIL)
      && (p.source == st.exits[p.exit].source ||
            forall y :: y in st.exits && st.exits[y].source == p.source ==>
              st.exits[y].direction != st.exits[p.exit].direction)
  {
    UpdateDoneExactly(st, p);
    assert ExitsListed(st);
    if p.exit in st.exits {
      assert ExitPlaced(ViewOf(st), ViewOf(st).exits[p.exit]);
    }
    hide SettledState, NoDup, Applied;
  }

  /**
   * The exit leads out of the zone or nowhere afterwards. It is the old direction that must be free
   * at a new source; all is well exactly when the exit leads out and its new direction is free too.
   */
  lemma UpdatingAnExit(st: ZoneState, x: Id, desc: string, direction: string, source: Id, zone: Id, to: Id)
    requires SettledState(st)
    ensures var p := ExitUpdate(x, desc, direction, source, zone, to);
      var (t, ok) := Processed(st, Carry(p));
      var v, w := ViewOf(st), ViewOf(t);
      var passes :=
        && x in st.exits && source in st.locations && to != NIL && (zone == NIL ==> to in st.locations)
        && !(st.exits[x].otherZone != NIL && st.exits[x].otherLocation == NIL);
      && (ok <==>
            && passes
            && (source == st.exits[x].source ||
                  forall y :: y in st.exits && st.exits[y].source == source ==>
                    st.exits[y].direction != st.exits[x].direction))
      && (ok ==>
            t.exits == st.exits[x :=
              ExitInfo(desc, direction, source, None, zone, if zone == NIL then NIL else to)])
      && (ok ==> (SettledState(t) <==>
            zone != NIL && forall y :: y in st.exits && y != x && st.exits[y].source == source ==>
              st.exits[y].direction != direction))
      && (ok && SettledState(t) ==>
            && PersistedBy(st, Carry(p)) == [Event(st.nextSequenceId, p)]
            && w == v.(exits := v.exits[x := ExitInfo(desc, direction, source, None, zone, to)],
                       nextSequenceId := st.nextSequenceId + 1))
      && (!ok ==> PersistedBy(st, Carry(p)) == [])
      && (if passes then t.nextSequenceId == st.nextSequenceId + 1 else t == st)
  {
    var p := ExitUpdate(x, desc, direction, source, zone, to);
    ViewKeys(st);
    hide SettledState, ViewOf, Processed, PersistedBy, Checked, Applied;
    UpdateChecks(st, p);
    UpdatePasses(st, p);
    if Checked(st, p) {
      CarrySubmitted(st, p);
      CarrySettles(st, p);
      if Applied(st, p).1 == Done {
        UpdateWritten(st, p);
        PlacedExit(st, x);
      }
    } else {
      CarryRefused(st, p);
    }
  }

  lemma UpdatePasses(st: ZoneState, p: Payload)
    requires SettledState(st) && p.ExitUpdate?
    ensures Checked(st, p) <==>
      && p.exit in st.exits && p.source in st.locations && p.destLocation != NIL
      && (p.destZone == NIL ==> p.destLocation in st.locations)
      && !(st.exits[p.exit].otherZone != NIL && st.exits[p.exit].otherLocation == NIL)
  {
    if p.exit in st.exits {
      assert ExitPlaced(ViewOf(st), ViewOf(st).exits[p.exit]);
    }
    hide SettledState;
  }

  lemma PlacedExit(st: ZoneState, x: Id)
    requires SettledState(st) && x in st.exits
    ensures st.exits[x].otherZone == NIL ==> st.exits[x].otherLocation == NIL
    ensures st.exits[x].otherZone != NIL ==> st.exits[x].destination == None
  {
    assert ExitPlaced(ViewOf(st), ViewOf(st).exits[x]);
  }

  lemma RemovingAnExit(st: ZoneState, x: Id)
    requires SettledState(st)
    ensures var p := ExitRemoveFromZone(x);
      var (t, ok) := Processed(st, Carry(p));
      var v, w := ViewOf(st), ViewOf(t);
      && (ok <==> x in st.exits)
      && (ok ==>
            && SettledState(t) && PersistedBy(st, Carry(p)) == [Event(st.nextSequenceId, p)]
            && w == v.(exits := v.exits - {x}, nextSequenceId := st.nextSequenceId + 1))
      && (!ok ==> t == st && PersistedBy(st, Carry(p)) == [])
  {
    var p := ExitRemoveFromZone(x);
    hide SettledState, ViewOf, Processed, PersistedBy;
    if Checked(st, p) {
      CarrySettles(st, p);
    } else {
      CarryRefused(st, p);
    }
  }

  // ---------- objects ----------

  /** An actor's list has room under a name if it is one of the four, or any, and the list is not full. */
  lemma TakesExactly(st: ZoneState, a: Id, o: Id, sub: string)
    requires ConstraintsKept(st) && a in st.actors
    ensures AfterAdd(st.actors[a].inventory, NoSize, o, sub).Some? <==>
      var inv, k := st.actors[a].inventory, st.actors[a].info.constraints;
      || (sub == "back" && |inv.back| < k.backMaxItems && 0 <= k.backSlots)
      || (sub == "belt" && |inv.belt| < k.beltMaxItems && 0 <= k.beltSlots)
      || (sub == "body" && |inv.body| < k.bodyMaxItems && 0 <= k.bodySlots)
      || ((sub == "hands" || sub == "any") && |inv.hands| < k.handMaxItems && 0 <= k.handSlots)
  {
    var inv := st.actors[a].inventory;
    AfterAddExactly(inv, NoSize, o, sub);
    NoSizeTotal(inv.back);
    NoSizeTotal(inv.belt);
    NoSizeTotal(inv.body);
    NoSizeTotal(inv.hands);
    hide AfterAdd;
  }

  lemma PutDone(st: ZoneState, p: Payload)
    requires p.ObjectAddToZone? && Resolves(st, p.container)
    ensures Applied(st, p).1 == Done <==>
      p.container.InActor? ==>
        AfterAdd(st.actors[p.container.id].inventory, NoSize, p.object_, p.subcontainer).Some?
    ensures Applied(st, p).1 != Done ==> Applied(st, p).0 == st
  {
    hide AfterAdd;
  }

  lemma SettledConstraints(st: ZoneState)
    requires SettledState(st)
    ensures ConstraintsKept(st)
  {
  }

  /** A new object goes where there is something to hold it and, on an actor, room under the name given. */
  lemma AddingAnObject(st: ZoneState, o: Id, info: ObjectInfo, c: Container, sub: string)
    requires SettledState(st)
    ensures var p := ObjectAddToZone(o, info, c, sub);
      var (t, ok) := Processed(st, Carry(p));
      var v, w := ViewOf(st), ViewOf(t);
      && (ok <==> o !in st.objects && match c
            case InLocation(l) => l in st.locations
            case InObject(y) => y in st.objects
            case InActor(a) =>
              a in st.actors &&
              var inv, k := st.actors[a].inventory, st.actors[a].info.constraints;
              || (sub == "back" && |inv.back| < k.backMaxItems && 0 <= k.backSlots)
              || (sub == "belt" && |inv.belt| < k.beltMaxItems && 0 <= k.beltSlots)
              || (sub == "body" && |inv.body| < k.bodyMaxItems && 0 <= k.bodySlots)
              || ((sub == "hands" || sub == "any") && |inv.hands| < k.handMaxItems && 0 <= k.handSlots))
      && (ok ==>
            && SettledState(t) && PersistedBy(st, Carry(p)) == [Event(st.nextSequenceId, p)]
            && w == v.(objects := v.objects[o := ObjectView(info, c,
                         if !c.InActor? then None
                         else if sub == "back" then Some(Back) else if sub == "belt" then Some(Belt)
                         else if sub == "body" then Some(Body) else Some(Hands))],
                       nextSequenceId := st.nextSequenceId + 1))
      && (!ok ==>
            && PersistedBy(st, Carry(p)) == []
            && t == if o !in st.objects && c.InActor? && c.id in st.actors
                    then st.(nextSequenceId := st.nextSequenceId + 1) else st)
  {
    var p := ObjectAddToZone(o, info, c, sub);
    hide SettledState, ViewOf, Processed, PersistedBy, Applied, AfterAdd;
    if Checked(st, p) {
      CarrySubmitted(st, p);
      PutDone(st, p);
      SettledConstraints(st);
      if c.InActor? {
        TakesExactly(st, c.id, o, sub);
      }
      CarrySettles(st, p);
      PutUnchecked(st, p);
    } else {
      CarryRefused(st, p);
    }
  }

  /** Room is all that is left unchecked, and without it the object is refused. */
  lemma PutUnchecked(st: ZoneState, p: Payload)
    requires SettledState(st) && p.ObjectAddToZone? && Checked(st, p)
    ensures Applied(st, p).1 == Done <==> Unchecked(ViewOf(st), p)
  {
    assert Linked(st);
    PutObjectExactly(st, p.object_, p.objInfo, p.container, p.subcontainer);
    hide SettledState, Linked, Room, PutObject, ViewOf;
  }

  lemma PlaceListed(st: ZoneState, a: Id, p: Place)
    requires ObjectsListed(st) && a in st.actors
    ensures var list := st.actors[a].inventory.List(p);
      NoDup(list) && forall y :: y in list <==> y in At(ViewOf(st), a, p)
  {
    assert Lists(st, InActor(a));
    SeparateIsNoDup(st.actors[a].inventory);
    ListsArePlaces(st.actors[a].inventory);
    assert NoDup(st.actors[a].inventory.List(p));
    hide At, ObjectsListed, ViewOf, Lists, NoDup, Separate;
    forall y
      ensures y in st.actors[a].inventory.List(p) <==> y in At(ViewOf(st), a, p)
    {
      AtExactly(st, a, p, y);
    }
  }

  /** Without the object itself there is as much at a place as on the list, less one if it is listed there. */
  lemma OthersAt(st: ZoneState, a: Id, p: Place, o: Id)
    requires ObjectsListed(st) && a in st.actors
    ensures var list := st.actors[a].inventory.List(p);
      |At(ViewOf(st), a, p) - {o}| == |list| - if o in list then 1 else 0
  {
    hide *;
    var list, at := st.actors[a].inventory.List(p), At(ViewOf(st), a, p);
    PlaceListed(st, a, p);
    NoDupSize(list, at);
    if o in at {
      assert |at - {o}| == |at| - 1;
    } else {
      assert at - {o} == at;
    }
  }

  /** Room on an actor for something it may have already. */
  lemma RoomExactlyFor(st: ZoneState, a: Id, o: Id, sub: string)
    requires SettledState(st) && a in st.actors
    ensures Room(ViewOf(st), o, InActor(a), sub) <==>
      var inv, k := st.actors[a].inventory, st.actors[a].info.constraints;
      || (sub == "back" && |inv.back| - (if o in inv.back then 1 else 0) < k.backMaxItems && 0 <= k.backSlots)
      || (sub == "belt" && |inv.belt| - (if o in inv.belt then 1 else 0) < k.beltMaxItems && 0 <= k.beltSlots)
      || (sub == "body" && |inv.body| - (if o in inv.body then 1 else 0) < k.bodyMaxItems && 0 <= k.bodySlots)
      || ((sub == "hands" || sub == "any")
          && |inv.hands| - (if o in inv.hands then 1 else 0) < k.handMaxItems && 0 <= k.handSlots)
  {
    ViewKeys(st);
    hide SettledState, ViewOf, RoomAt;
    RoomAtExactly(st, a, o, Back);
    RoomAtExactly(st, a, o, Belt);
    RoomAtExactly(st, a, o, Body);
    RoomAtExactly(st, a, o, Hands);
  }

  lemma RoomAtExactly(st: ZoneState, a: Id, o: Id, p: Place)
    requires SettledState(st) && a in st.actors
    ensures a in ViewOf(st).actors
    ensures RoomAt(ViewOf(st), o, a, p) <==>
      var list, k := st.actors[a].inventory.List(p), st.actors[a].info.constraints;
      |list| - (if o in list then 1 else 0) < k.MaxItems(p) && 0 <= k.Slots(p)
  {
    assert ObjectsListed(st);
    ViewInfo(st, a);
    hide SettledState, ViewOf, ObjectsListed, At;
    OthersAt(st, a, p, o);
  }

  lemma RelocationIs(st: ZoneState, o: Id, to: Container, sub: string)
    requires o in st.objects && Resolves(st, to)
    ensures Applied(st, ObjectAdminRelocate(o, to, sub)) == MoveObject(st, o, st.objects[o].container, to, sub)
  {
    hide MoveObject;
  }

  /** A moved object is taken exactly where there is room for it, itself not counted. */
  lemma RelocateDone(st: ZoneState, o: Id, c: Container, sub: string)
    requires SettledState(st) && o in st.objects && Resolves(st, c)
    ensures Applied(st, ObjectAdminRelocate(o, c, sub)).1 == Done <==> Room(ViewOf(st), o, c, sub)
    ensures Applied(st, ObjectAdminRelocate(o, c, sub)).1 == Done ==>
      (Room(ViewOf(st), o, c, sub) && NotInside(ViewOf(st), o, c) <==>
       SettledState(Applied(st, ObjectAdminRelocate(o, c, sub)).0))
  {
    hide *;
    SettledLinked(st);
    RelocationIs(st, o, c, sub);
    MoveObjectExactly(st, o, c, sub);
    RelocatedExactly(st, o, c, sub);
  }

  /**
   * Where an object is relocated to there must be something to hold it and, on an actor, room with
   * the object itself not counted; and all is well exactly when it does not go into itself.
   */
  lemma RelocatingAnObject(st: ZoneState, o: Id, c: Container, sub: string)
    requires SettledState(st)
    ensures var p := ObjectAdminRelocate(o, c, sub);
      var (t, ok) := Processed(st, Carry(p));
      var v, w := ViewOf(st), ViewOf(t);
      && (ok <==> o in st.objects && match c
            case InLocation(l) => l in st.locations
            case InObject(y) => y in st.objects
            case InActor(a) =>
              a in st.actors &&
              var inv, k := st.actors[a].inventory, st.actors[a].info.constraints;
              || (sub == "back" && |inv.back| - (if o in inv.back then 1 else 0) < k.backMaxItems && 0 <= k.backSlots)
              || (sub == "belt" && |inv.belt| - (if o in inv.belt then 1 else 0) < k.beltMaxItems && 0 <= k.beltSlots)
              || (sub == "body" && |inv.body| - (if o in inv.body then 1 else 0) < k.bodyMaxItems && 0 <= k.bodySlots)
              || ((sub == "hands" || sub == "any")
                  && |inv.hands| - (if o in inv.hands then 1 else 0) < k.handMaxItems && 0 <= k.handSlots))
      && (ok ==> (SettledState(t) <==> NotInside(v, o, c)))
      && (ok && SettledState(t) ==>
            && PersistedBy(st, Carry(p)) == [Event(st.nextSequenceId, p)]
            && w == v.(objects := v.objects[o := ObjectView(st.objects[o].info, c,
                         if !c.InActor? then None
                         else if sub == "back" then Some(Back) else if sub == "belt" then Some(Belt)
                         else if sub == "body" then Some(Body) else Some(Hands))],
                       nextSequenceId := st.nextSequenceId + 1))
      && (!ok ==>
            && PersistedBy(st, Carry(p)) == []
            && if o in st.objects && c.InActor? && c.id in st.actors then t.nextSequenceId == st.nextSequenceId + 1
               else t == st)
  {
    var p := ObjectAdminRelocate(o, c, sub);
    hide SettledState, ViewOf, Processed, PersistedBy, Applied, NotInside, RoomAt;
    if Checked(st, p) {
      ViewObject(st, o);
      CarrySubmitted(st, p);
      RelocateDone(st, o, c, sub);
      if c.InActor? {
        RoomExactlyFor(st, c.id, o, sub);
      } else {
        RoomElsewhere(st, c, o, sub);
      }
      SettledAside(Applied(st, p).0, st.nextSequenceId + 1);
      CarrySettles(st, p);
    } else {
      CarryRefused(st, p);
    }
  }

  lemma RoomElsewhere(st: ZoneState, c: Container, o: Id, sub: string)
    requires Resolves(st, c) && !c.InActor?
    ensures Room(ViewOf(st), o, c, sub)
  {
    ViewKeys(st);
  }

  lemma ViewObject(st: ZoneState, o: Id)
    requires o in st.objects
    ensures o in ViewOf(st).objects && ViewOf(st).objects[o].info == st.objects[o].info
    ensures ViewOf(st).objects[o].container == st.objects[o].container
  {
    hide PlaceWithin;
  }

  /** What is in it is not looked at; all is well exactly when there is nothing. */
  lemma RemovingAnObject(st: ZoneState, o: Id)
    requires SettledState(st)
    ensures var p := ObjectRemoveFromZone(o);
      var (t, ok) := Processed(st, Carry(p));
      var v, w := ViewOf(st), ViewOf(t);
      && (ok <==> o in st.objects)
      && (ok ==> (SettledState(t) <==> forall x :: x in st.objects ==> st.objects[x].container != InObject(o)))
      && (ok && SettledState(t) ==>
            && PersistedBy(st, Carry(p)) == [Event(st.nextSequenceId, p)]
            && w == v.(objects := v.objects - {o}, nextSequenceId := st.nextSequenceId + 1))
      && (!ok ==> t == st && PersistedBy(st, Carry(p)) == [])
  {
    var p := ObjectRemoveFromZone(o);
    ObjectRemovalApplied(st, o);
    hide SettledState, ViewOf, Processed, PersistedBy, Applied;
    VacantMeans(st, InObject(o));
    if Checked(st, p) {
      CarrySubmitted(st, p);
      CarrySettles(st, p);
    } else {
      CarryRefused(st, p);
    }
  }

  lemma ObjectRemovalApplied(st: ZoneState, o: Id)
    ensures Applied(st, ObjectRemoveFromZone(o)).1 == Done <==> o in st.objects
  {
    hide DropObject;
  }

  /** The other events have commands of their own: carried by itself, none of them is let pass. */
  lemma NotCarried(st: ZoneState, p: Payload)
    requires
      || p.ActorDeath? || p.ActorMigrateIn? || p.ActorMigrateOut? || p.LocationRemoveFromZone? || p.ObjectMove?
      || p.ObjectMoveSubcontainer? || p.ObjectMigrateIn? || p.ObjectMigrateOut? || p.CombatMeleeDamage?
      || p.CombatDodge?
    ensures Processed(st, Carry(p)) == (st, false) && PersistedBy(st, Carry(p)) == []
  {
    hide *;
    HasItsOwn(st, p);
    CarryRefused(st, p);
  }

  lemma HasItsOwn(st: ZoneState, p: Payload)
    ensures Checked(st, p) ==>
      || p.ActorAddToZone? || p.ActorMove? || p.ActorAdminRelocate? || p.ActorRemoveFromZone? || p.ActorSpeak?
      || p.LocationAddToZone? || p.LocationUpdate? || p.ExitAddToZone? || p.ExitUpdate? || p.ExitRemoveFromZone?
      || p.ObjectAddToZone? || p.ObjectAdminRelocate? || p.ObjectRemoveFromZone? || p.ZoneSetDefaultLocation?
  {
  }
}
