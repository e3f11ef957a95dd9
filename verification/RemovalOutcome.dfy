/**
 * What removing a location comes to, told from the zone's own entities: exactly when it goes
 * through, exactly when the zone is settled afterwards, and what the zone then is.
 */
module RemovalOutcomes {
  import opened Wrappers
  import opened Bytes
  import opened ZoneViews
  import opened Inventories
  import opened ZoneStates
  import opened ZoneCommands
  import opened LocationRemovals
  import opened RemovalCommands
  import opened RemovalRestarts
  import opened Commands

  /** Each exit that leads to the location, in whatever order. */
  lemma LeadingToMeans(st: ZoneState, l: Id, toHere: seq<Id>)
    ensures LeadingTo(st, l, toHere) <==>
      && (forall i, j :: 0 <= i < j < |toHere| ==> toHere[i] != toHere[j])
      && forall x :: x in toHere <==> x in st.exits && st.exits[x].destination == Some(l)
  {
  }

  lemma DemolishIs(st: ZoneState, l: Id, toHere: seq<Id>)
    requires LeadingTo(st, l, toHere)
    ensures Passes(st, Demolish(l, toHere)) <==>
      l in st.locations && (st.defaultLocation.Some?
        || (st.locations[l].actors == [] && st.locations[l].objects == []))
    ensures !Passes(st, Demolish(l, toHere)) ==> Processed(st, Demolish(l, toHere)) == (st, false)
    ensures Passes(st, Demolish(l, toHere)) ==>
      Processed(st, Demolish(l, toHere)) == RemovalDone(st, l, toHere) && RemovalChecked(st, l)
    ensures PersistedBy(st, Demolish(l, toHere)) ==
      if Processed(st, Demolish(l, toHere)).1 then [LastOfRemoval(st, l, toHere)] else []
  {
    hide RemovalDone, LeadingTo, LastOfRemoval;
  }

  lemma PlacesToGo(st: ZoneState, l: Id)
    requires l in st.locations
    ensures NoLoop(st, l) <==>
      forall x :: x in st.exits && st.exits[x].source == l ==> st.exits[x].destination != Some(l)
    ensures HasPlaceToGo(st, l) <==>
      || (st.locations[l].actors == [] && st.locations[l].objects == [])
      || if st.defaultLocation.Some? then st.defaultLocation.value in st.locations else NIL in st.locations
    ensures Removable(st, l) <==>
      && NoLoop(st, l)
      && (|| (st.locations[l].actors == [] && st.locations[l].objects == [])
          || if st.defaultLocation.Some? then st.defaultLocation.value in st.locations - {l}
             else NIL in st.locations - {l})
  {
  }

  /**
   * A location can be removed if nobody and nothing is there, or there is a default location for
   * it all to go to; no exit may lead from the location back to it. All is well exactly when what
   * is there does not go to the very location that is removed.
   */
  lemma RemovingALocation(st: ZoneState, l: Id, toHere: seq<Id>)
    requires SettledState(st) && LeadingTo(st, l, toHere)
    ensures var (t, ok) := Processed(st, Demolish(l, toHere));
      && (ok <==>
            && l in st.locations
            && (forall x :: x in st.exits && st.exits[x].source == l ==> st.exits[x].destination != Some(l))
            && (|| (st.locations[l].actors == [] && st.locations[l].objects == [])
                || (st.defaultLocation.Some? && st.defaultLocation.value in st.locations)))
      && (ok ==> (SettledState(t) <==>
            || (st.locations[l].actors == [] && st.locations[l].objects == [])
            || st.defaultLocation != Some(l)))
  {
    hide *;
    DemolishIs(st, l, toHere);
    if l in st.locations {
      PlacesToGo(st, l);
      if Passes(st, Demolish(l, toHere)) {
        RemovalExactly(st, l, toHere);
      }
    }
  }

  /** Just what was there and what led from it and to it. */
  lemma ClearedWritten(v: View, l: Id, exits: seq<Id>, actors: seq<Id>, objects: seq<Id>, d: Id)
    requires Referring(v, l, exits, actors, objects)
    ensures var w := Cleared(v, Members(exits), Members(actors), Members(objects), d);
      && w.defaultLocation == v.defaultLocation
      && (forall x :: x in w.exits <==> x in v.exits && v.exits[x].source != l && v.exits[x].destination != Some(l))
      && (forall x :: x in w.exits ==> w.exits[x] == v.exits[x])
      && w.actors.Keys == v.actors.Keys && w.objects.Keys == v.objects.Keys
      && (forall a :: a in v.actors ==>
            w.actors[a] == if v.actors[a].location == l then ActorView(v.actors[a].info, d) else v.actors[a])
      && forall o :: o in v.objects ==>
           w.objects[o] ==
           if v.objects[o].container == InLocation(l) then ObjectView(v.objects[o].info, InLocation(d), None)
           else v.objects[o]
  {
    hide NoDup;
  }

  lemma AfterRemovalIs(st: ZoneState, l: Id, toHere: seq<Id>)
    requires l in st.locations
    ensures var v, loc := ViewOf(st), st.locations[l];
      AfterRemoval(st, l, toHere) ==
        Cleared(v, Members(loc.outExits + toHere), Members(loc.actors), Members(loc.objects), DefaultOf(st))
        .(locations := v.locations - {l})
    ensures DefaultOf(st) == if st.defaultLocation.Some? then st.defaultLocation.value else NIL
  {
    hide Cleared, ViewOf;
  }

  /** The location is gone, and so are its exits and those to it; what was there is at the default location. */
  lemma LocationGone(st: ZoneState, l: Id, toHere: seq<Id>)
    requires SettledState(st) && LeadingTo(st, l, toHere) && l in st.locations
    requires forall x :: x in st.exits && st.exits[x].source == l ==> st.exits[x].destination != Some(l)
    requires (st.locations[l].actors == [] && st.locations[l].objects == [])
      || (st.defaultLocation.Some? && st.defaultLocation.value in st.locations && st.defaultLocation != Some(l))
    ensures var t := Processed(st, Demolish(l, toHere)).0;
      var d := if st.defaultLocation.Some? then st.defaultLocation.value else NIL;
      var v, w := ViewOf(st), ViewOf(t);
      && w.locations == v.locations - {l} && w.defaultLocation == v.defaultLocation
      && (forall x :: x in w.exits <==> x in v.exits && v.exits[x].source != l && v.exits[x].destination != Some(l))
      && (forall x :: x in w.exits ==> x in v.exits && w.exits[x] == v.exits[x])
      && w.actors.Keys == v.actors.Keys && w.objects.Keys == v.objects.Keys
      && (forall a :: a in v.actors ==>
            w.actors[a] == if v.actors[a].location == l then ActorView(v.actors[a].info, d) else v.actors[a])
      && forall o :: o in v.objects ==>
           w.objects[o] ==
           if v.objects[o].container == InLocation(l) then ObjectView(v.objects[o].info, InLocation(d), None)
           else v.objects[o]
  {
    hide *;
    DemolishIs(st, l, toHere);
    PlacesToGo(st, l);
    RemovalExactly(st, l, toHere);
    AfterRemovalIs(st, l, toHere);
    SettledMeans(st);
    ListsRefer(st, l, toHere);
    var loc := st.locations[l];
    ClearedWritten(ViewOf(st), l, loc.outExits + toHere, loc.actors, loc.objects, DefaultOf(st));
  }

  /** Of all that is done only the last event is logged, numbered after the others. */
  lemma RemovalLogged(st: ZoneState, l: Id, toHere: seq<Id>)
    requires l in st.locations && LeadingTo(st, l, toHere)
    ensures var loc := st.locations[l];
      PersistedBy(st, Demolish(l, toHere)) ==
        if !Processed(st, Demolish(l, toHere)).1 then []
        else [Event(st.nextSequenceId + |loc.outExits| + |toHere| + |loc.actors| + |loc.objects|,
                    LocationRemoveFromZone(l))]
  {
    hide *;
    DemolishIs(st, l, toHere);
    LastIs(st, l, toHere);
  }

  lemma LastIs(st: ZoneState, l: Id, toHere: seq<Id>)
    requires l in st.locations
    ensures var loc := st.locations[l];
      LastOfRemoval(st, l, toHere) ==
        Event(st.nextSequenceId + |loc.outExits| + |toHere| + |loc.actors| + |loc.objects|, LocationRemoveFromZone(l))
  {
    hide ExitRemovals, ActorRelocations, ObjectRelocations;
  }
}
