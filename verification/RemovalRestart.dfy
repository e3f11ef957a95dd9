/**
 * What a restart makes of a removed location, as of all that the removal did only the last event
 * is persisted.
 */
module RemovalRestarts {
  import opened Wrappers
  import opened Bytes
  import opened UUIDLists
  import opened ZoneViews
  import opened EventSourcing
  import opened PayloadRuns
  import opened Inventories
  import opened ZoneStates
  import opened ZoneLinks
  import opened ZoneReplays
  import opened ZoneCommands
  import opened LocationRemovals
  import opened RemovalCommands

  /** The one event that a removal persists, numbered after all those it does not. */
  function LastOfRemoval(st: ZoneState, l: Id, toHere: seq<Id>): Event
    requires l in st.locations
  {
    Event(st.nextSequenceId + |Clearing(st, l, toHere)|, LocationRemoveFromZone(l))
  }

  lemma NothingClears(st: ZoneState, l: Id, toHere: seq<Id>)
    requires l in st.locations
    ensures NothingToClear(st, l, toHere) ==>
      Clearing(st, l, toHere) == [] && Subcommands(st, Clearing(st, l, toHere)) == (st, true)
  {
  }

  lemma RemovalPersisted(n: nat, l: Id)
    ensures Persisted(Number(n, [LocationRemoveFromZone(l)])) == [Event(n, LocationRemoveFromZone(l))]
  {
    NumberOne(n, LocationRemoveFromZone(l));
  }

  function WithoutLocation(st: ZoneState, l: Id): ZoneState
  {
    st.(locations := st.locations - {l})
  }

  lemma NothingCleared(st: ZoneState, l: Id, toHere: seq<Id>)
    requires RemovalChecked(st, l) && NothingToClear(st, l, toHere)
    ensures SameButCounter(WithoutLocation(st, l), RemovalDone(st, l, toHere).0)
  {
    assert Clearing(st, l, toHere) == [];
  }

  lemma ViewAside(st: ZoneState, t: ZoneState)
    requires SameButCounter(st, t)
    ensures ViewOf(t) == ViewOf(st).(nextSequenceId := t.nextSequenceId)
  {
    hide PlaceFor;
    SameObjectViews(st, t);
  }

  lemma SomethingSeen(st: ZoneState, l: Id, toHere: seq<Id>)
    requires SettledState(st) && LeadingTo(st, l, toHere) && Removable(st, l) && !NothingToClear(st, l, toHere)
    ensures AfterRemoval(st, l, toHere) != ViewOf(st).(locations := ViewOf(st).locations - {l})
  {
    var loc, v := st.locations[l], ViewOf(st);
    SettledMeans(st);
    ListsRefer(st, l, toHere);
    ViewKeys(st);
    hide Linked, Sound, NoOrphans, Referring, LeadingTo, NoLoop, Cleared, ViewOf;
    LocationRemovalExactly(v, l, loc.outExits + toHere, loc.actors, loc.objects, DefaultOf(st));
    assert Effect(v, LocationRemoveFromZone(l)) == v.(locations := v.locations - {l});
  }

  lemma SomethingCleared(st: ZoneState, l: Id, toHere: seq<Id>)
    requires SettledState(st) && RemovalChecked(st, l) && LeadingTo(st, l, toHere) && Removable(st, l)
    requires !NothingToClear(st, l, toHere)
    ensures !SameButCounter(WithoutLocation(st, l), RemovalDone(st, l, toHere).0)
  {
    SettledMeans(st);
    hide SettledState, Linked, Sound, NoOrphans, LeadingTo, NoLoop, RemovalDone, ViewOf, AfterRemoval, NothingToClear;
    var t := RemovalDone(st, l, toHere).0;
    RemovalExactly(st, l, toHere);
    SomethingSeen(st, l, toHere);
    AfterRemovalCounter(st, l, toHere);
    CounterOf(st);
    RemoveLocationAgrees(st, l);
    if SameButCounter(WithoutLocation(st, l), t) {
      ViewAside(WithoutLocation(st, l), t);
    }
  }

  // ---------- relocated to where it is ----------

  function WithActors(st: ZoneState, l: Id, xs: seq<Id>): ZoneState
    requires l in st.locations
  {
    st.(locations := st.locations[l := st.locations[l].(actors := xs)])
  }

  function WithObjects(st: ZoneState, l: Id, xs: seq<Id>): ZoneState
    requires l in st.locations
  {
    st.(locations := st.locations[l := st.locations[l].(objects := xs)])
  }

  lemma ListSetAgain(st: ZoneState, l: Id, xs: seq<Id>, ys: seq<Id>)
    requires l in st.locations
    ensures WithActors(WithActors(st, l, xs), l, ys) == WithActors(st, l, ys)
    ensures WithObjects(WithObjects(st, l, xs), l, ys) == WithObjects(st, l, ys)
    ensures WithActors(st, l, st.locations[l].actors) == st && WithObjects(st, l, st.locations[l].objects) == st
  {
  }

  lemma ActorTurned(st: ZoneState, l: Id, a: Id, rest: seq<Id>)
    requires l in st.locations && st.locations[l].actors == [a] + rest && a !in rest
    requires a in st.actors && st.actors[a].location == l
    ensures Submitted(st, ActorAdminRelocate(a, l)) ==
            (WithActors(st, l, rest + [a]).(nextSequenceId := st.nextSequenceId + 1), Done)
  {
    var on := st.(nextSequenceId := st.nextSequenceId + 1);
    assert Remove([a] + rest, a) == rest;
    assert RemoveActor(on, l, a) == WithActors(on, l, rest);
    assert AddActor(WithActors(on, l, rest), l, a) == WithActors(WithActors(on, l, rest), l, rest + [a]);
    ListSetAgain(on, l, rest, rest + [a]);
    hide Remove, AddActor, RemoveActor;
    assert st.actors[a := st.actors[a].(location := l)] == st.actors;
  }

  lemma ObjectTurned(st: ZoneState, l: Id, o: Id, rest: seq<Id>)
    requires l in st.locations && st.locations[l].objects == [o] + rest && o !in rest
    requires o in st.objects && st.objects[o].container == InLocation(l)
    ensures Submitted(st, ObjectAdminRelocate(o, InLocation(l), "")) ==
            (WithObjects(st, l, rest + [o]).(nextSequenceId := st.nextSequenceId + 1), Done)
  {
    var on := st.(nextSequenceId := st.nextSequenceId + 1);
    assert Remove([o] + rest, o) == rest;
    assert RemoveObject(on, InLocation(l), o) == WithObjects(on, l, rest);
    assert AddObject(WithObjects(on, l, rest), InLocation(l), o, "") ==
           Some(WithObjects(WithObjects(on, l, rest), l, rest + [o]));
    ListSetAgain(on, l, rest, rest + [o]);
    hide Remove, AddObject, RemoveObject;
    assert st.objects[o := st.objects[o].(container := InLocation(l))] == st.objects;
  }

  lemma NextToTurn(xs: seq<Id>, k: nat)
    requires NoDup(xs) && k < |xs|
    ensures xs[k..] + xs[..k] == [xs[k]] + (xs[k + 1..] + xs[..k]) && xs[k] !in xs[k + 1..] + xs[..k]
    ensures (xs[k + 1..] + xs[..k]) + [xs[k]] == xs[k + 1..] + xs[..k + 1]
  {
  }

  ghost predicate AllStandAt(st: ZoneState, l: Id, xs: seq<Id>)
  {
    forall a :: a in xs ==> a in st.actors && st.actors[a].location == l
  }

  ghost predicate AllLieAt(st: ZoneState, l: Id, xs: seq<Id>)
  {
    forall o :: o in xs ==> o in st.objects && st.objects[o].container == InLocation(l)
  }

  lemma SetLists(st: ZoneState, l: Id, xs: seq<Id>, n: nat)
    requires l in st.locations
    ensures var t := WithActors(st, l, xs);
      && l in t.locations && t.locations[l].actors == xs && t.actors == st.actors
         && t.nextSequenceId == st.nextSequenceId
      && WithActors(st.(nextSequenceId := n), l, xs) == t.(nextSequenceId := n)
    ensures var t := WithObjects(st, l, xs);
      && l in t.locations && t.locations[l].objects == xs && t.objects == st.objects
      && t.nextSequenceId == st.nextSequenceId
         && WithObjects(st.(nextSequenceId := n), l, xs) == t.(nextSequenceId := n)
  {
  }

  /** Actors relocated one by one to where they are go to the end of the list in turn. */
  lemma {:induction false} ActorsTurned(st: ZoneState, l: Id, xs: seq<Id>, k: nat)
    requires l in st.locations && st.locations[l].actors == xs && NoDup(xs) && k <= |xs|
    requires AllStandAt(st, l, xs)
    ensures SubmittedAll(st, ActorRelocations(xs[..k], l)) ==
            (WithActors(st, l, xs[k..] + xs[..k]).(nextSequenceId := st.nextSequenceId + k), Done)
  {
    hide NoDup, Submitted, WithActors;
    if k == 0 {
      assert xs[..0] == [] && xs[0..] + xs[..0] == xs;
      ListSetAgain(st, l, xs, xs);
    } else {
      var x, now := xs[k - 1], xs[k - 1..] + xs[..k - 1];
      assert ActorRelocations(xs[..k], l) == ActorRelocations(xs[..k - 1], l) + [ActorAdminRelocate(x, l)] by {
        assert xs[..k][..k - 1] == xs[..k - 1];
      }
      assert x in xs;
      hide SubmittedAll, ActorRelocations;
      ActorsTurned(st, l, xs, k - 1);
      var t, n := WithActors(st, l, now), st.nextSequenceId + (k - 1);
      SetLists(st, l, now, n);
      NextToTurn(xs, k - 1);
      ActorTurned(t.(nextSequenceId := n), l, x, xs[k..] + xs[..k - 1]);
      SetLists(t, l, xs[k..] + xs[..k], n);
      ListSetAgain(st, l, now, xs[k..] + xs[..k]);
      SubmittedConcat(st, ActorRelocations(xs[..k - 1], l), [ActorAdminRelocate(x, l)]);
      SubmittedOne(t.(nextSequenceId := n), ActorAdminRelocate(x, l));
    }
  }

  lemma {:induction false} ObjectsTurned(st: ZoneState, l: Id, xs: seq<Id>, k: nat)
    requires l in st.locations && st.locations[l].objects == xs && NoDup(xs) && k <= |xs|
    requires AllLieAt(st, l, xs)
    ensures SubmittedAll(st, ObjectRelocations(xs[..k], l)) ==
            (WithObjects(st, l, xs[k..] + xs[..k]).(nextSequenceId := st.nextSequenceId + k), Done)
  {
    hide NoDup, Submitted, WithObjects;
    if k == 0 {
      assert xs[..0] == [] && xs[0..] + xs[..0] == xs;
      ListSetAgain(st, l, xs, xs);
    } else {
      var x, now := xs[k - 1], xs[k - 1..] + xs[..k - 1];
      var p := ObjectAdminRelocate(x, InLocation(l), "");
      assert ObjectRelocations(xs[..k], l) == ObjectRelocations(xs[..k - 1], l) + [p] by {
        assert xs[..k][..k - 1] == xs[..k - 1];
      }
      assert x in xs;
      hide SubmittedAll, ObjectRelocations;
      ObjectsTurned(st, l, xs, k - 1);
      var t, n := WithObjects(st, l, now), st.nextSequenceId + (k - 1);
      SetLists(st, l, now, n);
      NextToTurn(xs, k - 1);
      ObjectTurned(t.(nextSequenceId := n), l, x, xs[k..] + xs[..k - 1]);
      SetLists(t, l, xs[k..] + xs[..k], n);
      ListSetAgain(st, l, now, xs[k..] + xs[..k]);
      SubmittedConcat(st, ObjectRelocations(xs[..k - 1], l), [p]);
      SubmittedOne(t.(nextSequenceId := n), p);
    }
  }

  lemma WholeTurn(xs: seq<Id>)
    ensures xs[..|xs|] == xs && xs[|xs|..] + xs[..|xs|] == xs
  {
  }

  lemma UnturnedState(st: ZoneState, l: Id)
    requires l in st.locations
    ensures WithActors(st, l, st.locations[l].actors) == st && WithObjects(st, l, st.locations[l].objects) == st
  {
  }

  /** All in turn, and the list is as it was. */
  lemma AllActorsTurned(st: ZoneState, l: Id, xs: seq<Id>)
    requires l in st.locations && st.locations[l].actors == xs && NoDup(xs)
    requires AllStandAt(st, l, xs)
    ensures SubmittedAll(st, ActorRelocations(xs, l)) == (st.(nextSequenceId := st.nextSequenceId + |xs|), Done)
  {
    hide *;
    WholeTurn(xs);
    UnturnedState(st, l);
    ActorsTurned(st, l, xs, |xs|);
  }

  lemma AllObjectsTurned(st: ZoneState, l: Id, xs: seq<Id>)
    requires l in st.locations && st.locations[l].objects == xs && NoDup(xs)
    requires AllLieAt(st, l, xs)
    ensures SubmittedAll(st, ObjectRelocations(xs, l)) == (st.(nextSequenceId := st.nextSequenceId + |xs|), Done)
  {
    hide *;
    WholeTurn(xs);
    UnturnedState(st, l);
    ObjectsTurned(st, l, xs, |xs|);
  }

  lemma ListedThere(st: ZoneState, l: Id, n: nat)
    requires Linked(st) && l in st.locations
    ensures NoDup(st.locations[l].actors) && NoDup(st.locations[l].objects)
    ensures AllStandAt(st, l, st.locations[l].actors) && AllLieAt(st, l, st.locations[l].objects)
    ensures AllLieAt(st.(nextSequenceId := n), l, st.locations[l].objects)
  {
    hide NoDup;
    assert Lists(st, InLocation(l)) && Contents(st, InLocation(l)) == st.locations[l].objects;
  }

  lemma JustRelocations(st: ZoneState, l: Id, toHere: seq<Id>)
    requires l in st.locations && DefaultOf(st) == l && st.locations[l].outExits + toHere == []
    ensures Clearing(st, l, toHere) ==
            ActorRelocations(st.locations[l].actors, l) + ObjectRelocations(st.locations[l].objects, l)
  {
  }

  /** Relocated to where it is, everything is as it was in the end, the order of the lists too. */
  lemma RelocatedInPlace(st: ZoneState, l: Id, toHere: seq<Id>)
    requires Linked(st) && l in st.locations && DefaultOf(st) == l && st.locations[l].outExits + toHere == []
    ensures SubmittedAll(st, Clearing(st, l, toHere)) ==
            (st.(nextSequenceId := st.nextSequenceId + |Clearing(st, l, toHere)|), Done)
  {
    hide *;
    var xs, ys := st.locations[l].actors, st.locations[l].objects;
    JustRelocations(st, l, toHere);
    ListedThere(st, l, st.nextSequenceId + |xs|);
    AllActorsTurned(st, l, xs);
    AllObjectsTurned(st.(nextSequenceId := st.nextSequenceId + |xs|), l, ys);
    CountedTwice(st, ActorRelocations(xs, l), ObjectRelocations(ys, l));
  }

  lemma CountedTwice(st: ZoneState, ps: seq<Payload>, qs: seq<Payload>)
    requires SubmittedAll(st, ps) == (st.(nextSequenceId := st.nextSequenceId + |ps|), Done)
    requires var t := st.(nextSequenceId := st.nextSequenceId + |ps|);
      SubmittedAll(t, qs) == (t.(nextSequenceId := t.nextSequenceId + |qs|), Done)
    ensures SubmittedAll(st, ps + qs) == (st.(nextSequenceId := st.nextSequenceId + |ps + qs|), Done)
  {
    hide *;
    SubmittedConcat(st, ps, qs);
  }

  // ---------- when a restart agrees ----------

  /** There is no exit to clear away, and what is there, if anything, is relocated to where it is. */
  predicate RemovalLasts(st: ZoneState, l: Id, toHere: seq<Id>)
    requires l in st.locations
  {
    st.locations[l].outExits + toHere == [] && (NothingAt(st, l) || DefaultOf(st) == l)
  }

  lemma OnlyLocationGone(st: ZoneState, l: Id, toHere: seq<Id>)
    requires SettledState(st) && RemovalChecked(st, l) && RemovalLasts(st, l, toHere)
    ensures SameButCounter(WithoutLocation(st, l), RemovalDone(st, l, toHere).0)
  {
    if NothingAt(st, l) {
      NothingCleared(st, l, toHere);
    } else {
      assert l in st.locations && DefaultOf(st) == l && st.locations[l].outExits + toHere == [];
      SettledLinked(st);
      hide SettledState, Linked, SubmittedAll, Clearing, RemovalChecked, RemovalLasts, RemovalDone;
      RelocatedInPlace(st, l, toHere);
      RemovalAsSubmitted(st, l, toHere);
      var t := st.(nextSequenceId := st.nextSequenceId + |Clearing(st, l, toHere)|);
      assert Submitted(t, LocationRemoveFromZone(l)).0 ==
             WithoutLocation(st, l).(nextSequenceId := t.nextSequenceId + 1);
    }
  }

  lemma ExitsStayGone(st: ZoneState, l: Id, toHere: seq<Id>)
    requires SettledState(st) && RemovalChecked(st, l) && LeadingTo(st, l, toHere)
    requires st.locations[l].outExits + toHere != []
    ensures RemovalDone(st, l, toHere).0.exits.Keys != st.exits.Keys
  {
    SettledLinked(st);
    hide SettledState, ActorsListed, ObjectsListed, ConstraintsKept, LeadingTo, Subcommands, Clearing, NothingAt;
    FirstExitGone(st, l, toHere);
  }

  /** Only that the location is gone can be seen exactly when nothing was cleared away from anywhere. */
  lemma OnlyLocationGoneExactly(st: ZoneState, l: Id, toHere: seq<Id>)
    requires SettledState(st) && RemovalChecked(st, l) && LeadingTo(st, l, toHere) && RemovalDone(st, l, toHere).1
    ensures SameButCounter(WithoutLocation(st, l), RemovalDone(st, l, toHere).0) <==> RemovalLasts(st, l, toHere)
  {
    assert l in st.locations;
    hide SettledState, RemovalDone, LeadingTo, NoLoop;
    if RemovalLasts(st, l, toHere) {
      OnlyLocationGone(st, l, toHere);
    } else if st.locations[l].outExits + toHere != [] {
      ExitsStayGone(st, l, toHere);
    } else {
      RemovalExactly(st, l, toHere);
      SomethingCleared(st, l, toHere);
    }
  }

  lemma RemovalApplied(st: ZoneState, l: Id, e: Event)
    requires e.payload == LocationRemoveFromZone(l)
    ensures Replayed(st, [e]) == (WithoutLocation(st, l).(nextSequenceId := e.sequenceNumber + 1), Done)
  {
    assert [e][1..] == [];
  }

  /**
   * Only the last event of a removal is persisted, so a restart finds the zone as the removal left
   * it exactly when there had been nothing to clear away, or all of it was already where it went.
   */
  lemma RemovalReplayedExactly(
    origin: ZoneState, st: ZoneState, history: seq<Event>, persisted: seq<Event>, l: Id, toHere: seq<Id>)
    requires Recorded(origin, st, history, persisted) && SettledState(st)
    requires RemovalChecked(st, l) && LeadingTo(st, l, toHere) && RemovalDone(st, l, toHere).1
    ensures var (t, r) := Replayed(origin, persisted + [LastOfRemoval(st, l, toHere)]);
      r == Done && (SameButCounter(t, RemovalDone(st, l, toHere).0) <==> RemovalLasts(st, l, toHere))
  {
    assert l in st.locations;
    hide SettledState, Recorded, LeadingTo, NoLoop, Clearing, RemovalDone, RemovalLasts, Replayed;
    var e := LastOfRemoval(st, l, toHere);
    RestartRebuilds(origin, st, history, persisted);
    ReplayedConcat(origin, persisted, [e]);
    RemovalApplied(Replayed(origin, persisted).0, l, e);
    OnlyLocationGoneExactly(st, l, toHere);
  }

  /** With nothing to clear away, the record is kept. */
  lemma RemovalRecords(origin: ZoneState, st: ZoneState, history: seq<Event>, persisted: seq<Event>, l: Id,
      toHere: seq<Id>)
    requires RemovalChecked(st, l)
    ensures Recorded(origin, st, history, persisted) && NothingToClear(st, l, toHere) ==>
      var e := LastOfRemoval(st, l, toHere);
      && RemovalDone(st, l, toHere).1
      && Recorded(origin, RemovalDone(st, l, toHere).0,
                              history + Number(st.nextSequenceId, Clearing(st, l, toHere)) + [e], persisted + [e])
  {
    if Recorded(origin, st, history, persisted) && NothingToClear(st, l, toHere) {
      NothingClears(st, l, toHere);
      hide Recorded, Clearing, Submitted;
      SubmittedOne(st, LocationRemoveFromZone(l));
      LocationAlwaysGoes(st, l);
      SubmittingRecords(origin, st, history, persisted, [LocationRemoveFromZone(l)]);
      RemovalPersisted(st.nextSequenceId, l);
      NumberOne(st.nextSequenceId, LocationRemoveFromZone(l));
      assert history + Number(st.nextSequenceId, []) == history;
    }
  }
}
