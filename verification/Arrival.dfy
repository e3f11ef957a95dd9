/**
 * An actor taken in with all it has, whatever the zone has of it already: what is put in is the
 * same as in any other zone, and the links agree afterwards exactly when the zone had neither the
 * actor nor any of its things.
 */
module Arrivals {
  import opened Wrappers
  import opened Bytes
  import opened ZoneViews
  import opened ZoneInvariant
  import opened PayloadRuns
  import opened Inventories
  import opened ZoneStates
  import opened ZoneCommands
  import opened ObjectTrees
  import opened Migrations

  function TuplesOf(st: ZoneState, a: Id): seq<Tuple>
  {
    ObjectContainerTuples(st, InActor(a))
  }

  lemma TuplesListed(st: ZoneState, a: Id)
    requires SettledState(st) && a in st.actors
    ensures Listing(ViewOf(st), InActor(a), TuplesOf(st, a))
    ensures forall t :: t in TuplesOf(st, a) ==> t.obj in ViewOf(st).objects
    ensures a in ViewOf(st).actors
  {
    hide ParentsFirst, Complete;
    TuplesComplete(st, InActor(a));
    ParentsFirstOnce(ViewOf(st), InActor(a), TuplesOf(st, a));
    ViewKeys(st);
  }

  /** What processActorMigrateInCommand submits. */
  ghost function Arriving(src: ZoneState, a: Id, toLoc: Id): seq<Payload>
    requires SettledState(src) && a in src.actors
  {
    TuplesListed(src, a);
    MigrateIn(ViewOf(src), a, toLoc, TuplesOf(src, a))
  }

  lemma ArrivingIs(src: ZoneState, a: Id, toLoc: Id)
    requires SettledState(src) && a in src.actors
    ensures a in ViewOf(src).actors && (forall t :: t in TuplesOf(src, a) ==> t.obj in ViewOf(src).objects)
    ensures Arriving(src, a, toLoc) == MigrateIn(ViewOf(src), a, toLoc, TuplesOf(src, a))
  {
    TuplesListed(src, a);
    hide SettledState, ViewOf, TuplesOf, MigrateIn, Listing;
  }

  // ---------- the same wherever it goes ----------

  /** One of the zone's locations, with nothing there. */
  function JustLocation(st: ZoneState, l: Id): ZoneState
    requires l in st.locations
  {
    EMPTY_ZONE.(locations := map[l := LocationState(st.locations[l].info, [], [], [])],
      nextSequenceId := st.nextSequenceId)
  }

  lemma JustLocationSettled(st: ZoneState, l: Id)
    requires l in st.locations
    ensures SettledState(JustLocation(st, l))
  {
    var p := LocationAddToZone(l, st.locations[l].info);
    EmptyLinked();
    EmptyIsConsistent();
    SettledAside(EMPTY_ZONE, 0);
    assert ViewOf(EMPTY_ZONE) == EMPTY;
    assert SettledState(EMPTY_ZONE);
    assert LeavesNoOrphans(ViewOf(EMPTY_ZONE), p);
    assert Submitted(EMPTY_ZONE, p).0.(nextSequenceId := st.nextSequenceId) == JustLocation(st, l);
    hide SettledState, LeavesNoOrphans, Submitted;
    AcceptedGoesThrough(EMPTY_ZONE, p);
    SettledAside(Submitted(EMPTY_ZONE, p).0, st.nextSequenceId);
  }

  /** The zone with the actor listed at l, and with the actors and objects of b. */
  function Overlaid(st: ZoneState, b: ZoneState, a: Id, l: Id): ZoneState
  {
    AddNewActor(st, l, a)
      .(actors := st.actors + b.actors, objects := st.objects + b.objects, nextSequenceId := b.nextSequenceId)
  }

  lemma ActorOverlaid(st: ZoneState, a: Id, info: ActorInfo, l: Id)
    requires l in st.locations
    ensures var p := ActorMigrateIn(a, info, l);
      var (b, r) := Submitted(JustLocation(st, l), p);
      r == Done && Submitted(st, p) == (Overlaid(st, b, a, l), Done)
  {
    var x := ActorState(info, l, EmptyInv(info.constraints));
    assert st.actors + map[a := x] == st.actors[a := x] && st.objects + map[] == st.objects;
  }

  lemma SetInBoth<K, V>(m: map<K, V>, n: map<K, V>, k: K, x: V)
    ensures (m + n)[k := x] == m + n[k := x]
  {
  }

  lemma ListedByActor(st: ZoneState, b: ZoneState, a: Id, l: Id, y: Id, o: Id, sub: string)
    requires y in b.actors
    ensures AddNewObject(Overlaid(st, b, a, l), InActor(y), o, sub) ==
      match AddNewObject(b, InActor(y), o, sub) case Some(u) => Some(Overlaid(st, u, a, l)) case None => None
  {
    hide AfterAdd, AddNewActor;
    var added := AfterAdd(b.actors[y].inventory, NoSize, o, sub);
    if added.Some? {
      SetInBoth(st.actors, b.actors, y, b.actors[y].(inventory := added.value));
    }
  }

  lemma ListedByObject(st: ZoneState, b: ZoneState, a: Id, l: Id, y: Id, o: Id, sub: string)
    requires y in b.objects
    ensures AddNewObject(Overlaid(st, b, a, l), InObject(y), o, sub) ==
      match AddNewObject(b, InObject(y), o, sub) case Some(u) => Some(Overlaid(st, u, a, l)) case None => None
  {
    hide AddNewActor;
    SetInBoth(st.objects, b.objects, y, b.objects[y].(contents := b.objects[y].contents + [o]));
  }

  lemma PutOverlaid(st: ZoneState, b: ZoneState, a: Id, l: Id, o: Id, info: ObjectInfo, c: Container, sub: string)
    requires !c.InLocation? && PutObject(b, o, info, c, sub).1 == Done
    ensures PutObject(Overlaid(st, b, a, l), o, info, c, sub) ==
            (Overlaid(st, PutObject(b, o, info, c, sub).0, a, l), Done)
  {
    hide AddNewObject, AddNewActor;
    if c.InActor? {
      ListedByActor(st, b, a, l, c.id, o, sub);
    } else {
      ListedByObject(st, b, a, l, c.id, o, sub);
    }
    SetInBoth(st.objects, AddNewObject(b, c, o, sub).value.objects, o, ObjectState(info, c, []));
  }

  lemma ObjectOverlaid(st: ZoneState, b: ZoneState, a: Id, l: Id, p: Payload)
    requires p.ObjectMigrateIn? && !p.container.InLocation? && Submitted(b, p).1 == Done
    ensures Submitted(Overlaid(st, b, a, l), p) == (Overlaid(st, Submitted(b, p).0, a, l), Done)
  {
    hide *;
    var on := b.(nextSequenceId := b.nextSequenceId + 1);
    CountedOverlaid(st, b, a, l, on.nextSequenceId);
    SubmittedPut(b, p);
    PutOverlaid(st, on, a, l, p.object_, p.objInfo, p.container, p.subcontainer);
    var u := PutObject(on, p.object_, p.objInfo, p.container, p.subcontainer).0;
    CountedOverlaid(st, u, a, l, on.nextSequenceId);
    SubmittedPut(Overlaid(st, b, a, l), p);
  }

  lemma SubmittedPut(st: ZoneState, p: Payload)
    requires p.ObjectMigrateIn?
    ensures var n := st.nextSequenceId + 1;
      var (t, r) := PutObject(st.(nextSequenceId := n), p.object_, p.objInfo, p.container, p.subcontainer);
      Submitted(st, p) == (if r.Done? then t.(nextSequenceId := n) else t, r)
  {
    hide PutObject;
  }

  lemma CountedOverlaid(st: ZoneState, b: ZoneState, a: Id, l: Id, n: nat)
    ensures Overlaid(st, b, a, l).(nextSequenceId := n) == Overlaid(st, b.(nextSequenceId := n), a, l)
    ensures Overlaid(st, b, a, l).nextSequenceId == b.nextSequenceId
  {
    hide AddNewActor;
  }

  lemma {:induction false} ObjectsOverlaid(st: ZoneState, b: ZoneState, a: Id, l: Id, ps: seq<Payload>)
    requires (forall p :: p in ps ==> p.ObjectMigrateIn? && !p.container.InLocation?) && SubmittedAll(b, ps).1 == Done
    ensures SubmittedAll(Overlaid(st, b, a, l), ps) == (Overlaid(st, SubmittedAll(b, ps).0, a, l), Done)
    decreases |ps|
  {
    hide Submitted, Overlaid;
    if ps != [] {
      ObjectOverlaid(st, b, a, l, ps[0]);
      ObjectsOverlaid(st, Submitted(b, ps[0]).0, a, l, ps[1..]);
    }
  }

  lemma {:induction false} InPayloads(v: View, s: seq<Tuple>)
    requires forall t :: t in s ==> t.obj in v.objects && !t.cont.InLocation?
    ensures forall p :: p in ObjectsIn(v, s) ==> p.ObjectMigrateIn? && !p.container.InLocation?
  {
    if s != [] {
      InPayloads(v, s[..|s| - 1]);
    }
  }

  lemma {:induction false} ListedUnder(v: View, c: Container, s: seq<Tuple>)
    requires ParentsFirst(v, c, s) && !c.InLocation?
    ensures forall t :: t in s ==> t.obj in v.objects && !t.cont.InLocation?
  {
    if s != [] {
      ListedUnder(v, c, s[..|s| - 1]);
    }
  }

  /** What the zone becomes: what an empty location would become, laid over it. */
  lemma ArrivingOverlaid(st: ZoneState, src: ZoneState, a: Id, l: Id)
    requires l in st.locations && SettledState(src) && a in src.actors
    ensures var ps, just := Arriving(src, a, l), JustLocation(st, l);
      var (b, r) := SubmittedAll(just, ps);
      && r == Done && SettledState(b) && b.nextSequenceId == st.nextSequenceId + |ps|
      && a in ViewOf(src).actors
      && ViewOf(b) ==
         Arrived(ViewOf(src), ViewOf(just), a, l, Ids(TuplesOf(src, a))).(nextSequenceId := b.nextSequenceId)
      && SubmittedAll(st, ps) == (Overlaid(st, b, a, l), Done)
  {
    var v, s, just := ViewOf(src), TuplesOf(src, a), JustLocation(st, l);
    TuplesListed(src, a);
    ListedUnder(v, InActor(a), s);
    JustLocationSettled(st, l);
    assert a !in ViewOf(just).actors && ViewOf(just).objects.Keys == {} && l in ViewOf(just).locations;
    hide Linked, Sound, NoOrphans, ParentsFirst, Complete, ViewOf, Arrived, TuplesOf, Ids, JustLocation;
    MigrationConserves(v, ViewOf(just), a, l, s);
    hide AcceptsEach, EffectAll;
    SubmittingSettles(just, Arriving(src, a, l));
    InPayloads(v, s);
    hide SettledState, Submitted, Overlaid, ObjectsIn;
    ActorOverlaid(st, a, v.actors[a].info, l);
    var p := ActorMigrateIn(a, v.actors[a].info, l);
    assert Arriving(src, a, l)[0] == p && Arriving(src, a, l)[1..] == ObjectsIn(v, s);
    ObjectsOverlaid(st, Submitted(just, p).0, a, l, ObjectsIn(v, s));
  }

  // ---------- when the links agree ----------

  /** b has just the actor at l, and objects inside it. */
  ghost predicate JustArrived(b: ZoneState, a: Id, l: Id, ids: set<Id>)
  {
    && b.actors.Keys == {a} && b.actors[a].location == l && b.objects.Keys == ids
    && forall x :: x in b.objects ==> Under(InActor(a), ids, b.objects[x].container)
  }

  /** What a zone with just the actor and its objects looks like. */
  lemma JustArrivedIs(b: ZoneState, v: View, a: Id, l: Id, s: seq<Tuple>)
    requires a in v.actors && ParentsFirst(v, InActor(a), s)
    requires ViewOf(b).actors == map[a := ActorView(v.actors[a].info, l)] && ViewOf(b).objects == Restricted(v, Ids(s))
    ensures JustArrived(b, a, l, Ids(s))
  {
    ParentsFirstMembers(v, InActor(a), s);
    ViewKeys(b);
    hide ParentsFirst, Ids, ViewOf;
    assert ViewOf(b).actors[a].location == l;
    ViewLocation(b, a);
    forall x | x in b.objects
      ensures Under(InActor(a), Ids(s), b.objects[x].container)
    {
      ViewContainer(b, x);
    }
  }

  lemma ArrivedAtJust(v: View, st: ZoneState, a: Id, l: Id, ids: set<Id>)
    requires l in st.locations && a in v.actors
    ensures var u := Arrived(v, ViewOf(JustLocation(st, l)), a, l, ids);
      u.actors == map[a := ActorView(v.actors[a].info, l)] && u.objects == Restricted(v, ids)
  {
    var w := ViewOf(JustLocation(st, l));
    assert w.actors == map[] && w.objects == map[];
    hide ViewOf, JustLocation, Restricted;
    assert map[] + Restricted(v, ids) == Restricted(v, ids);
  }

  /** An actor that was there already stays on the list it was on, besides. */
  lemma ListedTwice(st: ZoneState, b: ZoneState, a: Id, l: Id, ids: set<Id>)
    requires ActorsListed(st) && l in st.locations && JustArrived(b, a, l, ids)
    requires a in st.actors && st.actors[a].location in st.locations
    ensures !ActorsListed(Overlaid(st, b, a, l))
  {
    var t, at := Overlaid(st, b, a, l), st.actors[a].location;
    assert a in st.locations[at].actors;
    if at == l {
      var k :| 0 <= k < |st.locations[l].actors| && st.locations[l].actors[k] == a;
      var list := t.locations[l].actors;
      assert list[k] == a && list[|list| - 1] == a && k < |list| - 1;
      assert !NoDup(list);
    } else {
      assert t.locations[at] == st.locations[at] && a in b.actors;
      assert t.actors[a] == b.actors[a];
    }
  }

  /** A thing put in that was somewhere else stays on that list too. */
  lemma HeldTwice(st: ZoneState, b: ZoneState, a: Id, l: Id, ids: set<Id>, x: Id)
    requires ObjectsListed(st) && JustArrived(b, a, l, ids) && x in st.objects && x in ids
    requires Resolves(st, st.objects[x].container) && !Under(InActor(a), ids, st.objects[x].container)
    ensures !ObjectsListed(Overlaid(st, b, a, l))
  {
    var c, t := st.objects[x].container, Overlaid(st, b, a, l);
    assert Lists(st, c) && x in Contents(st, c);
    ContentsStay(st, b, a, l, ids, c);
    hide NoDup, Contents, AddNewActor;
    assert t.objects[x] == b.objects[x];
    assert !Lists(t, c);
  }

  lemma ContentsStay(st: ZoneState, b: ZoneState, a: Id, l: Id, ids: set<Id>, c: Container)
    requires JustArrived(b, a, l, ids) && Resolves(st, c) && !Under(InActor(a), ids, c)
    ensures Resolves(Overlaid(st, b, a, l), c) && Contents(Overlaid(st, b, a, l), c) == Contents(st, c)
  {
    hide Inv.Objects;
  }

  /** Where the actor is not, some of the things that are there are in something else. */
  lemma SomeElsewhere(w: View, a: Id, ids: set<Id>) returns (x: Id)
    requires Acyclic(w) && NoOrphans(w) && a !in w.actors && exists y :: y in ids && y in w.objects
    ensures x in ids && x in w.objects && !Under(InActor(a), ids, w.objects[x].container)
  {
    var s := ids * w.objects.Keys;
    var y :| y in ids && y in w.objects;
    assert s <= w.objects.Keys && y in s;
    x :| Free(w, s, x);
    var c := w.objects[x].container;
    assert Exists(w, c);
    if c.InObject? && c.id in ids {
      assert c.id in s && ChildOf(w, x, c.id);
    }
  }

  lemma SomethingHeldTwice(st: ZoneState, b: ZoneState, a: Id, l: Id, ids: set<Id>)
    requires SettledState(st) && JustArrived(b, a, l, ids) && a !in st.actors
    requires exists y :: y in ids && y in st.objects
    ensures !ObjectsListed(Overlaid(st, b, a, l))
  {
    SettledLinked(st);
    SettledPlaces(st);
    ViewKeys(st);
    assert Acyclic(ViewOf(st)) && NoOrphans(ViewOf(st));
    hide SettledState, ActorsListed, ExitsListed, ObjectsListed, ConstraintsKept, ViewOf, JustArrived, Acyclic;
    hide NoOrphans;
    var x := SomeElsewhere(ViewOf(st), a, ids);
    ViewContainer(st, x);
    HeldTwice(st, b, a, l, ids, x);
  }

  lemma SettledPlaces(st: ZoneState)
    requires SettledState(st)
    ensures forall x :: x in st.objects ==> Resolves(st, st.objects[x].container)
    ensures forall a :: a in st.actors ==> st.actors[a].location in st.locations
  {
    var v := ViewOf(st);
    ViewKeys(st);
    hide Linked, ExitsPlaced, ObjectsPlaced, DirectionsUnique, WithinLimits, Acyclic;
    forall x | x in st.objects
      ensures Resolves(st, st.objects[x].container)
    {
      ViewContainer(st, x);
    }
    forall a | a in st.actors
      ensures st.actors[a].location in st.locations
    {
      ViewLocation(st, a);
    }
  }

  /** The actor and all its things are new to the zone. */
  ghost predicate Welcome(st: ZoneState, src: ZoneState, a: Id, l: Id)
  {
    l in st.locations && a !in st.actors && forall x :: x in Ids(TuplesOf(src, a)) ==> x !in st.objects
  }

  lemma UnresolvedFirst(st: ZoneState, ps: seq<Payload>, a: Id, info: ActorInfo, l: Id)
    requires ps != [] && ps[0] == ActorMigrateIn(a, info, l) && l !in st.locations
    ensures SubmittedAll(st, ps) == (st.(nextSequenceId := st.nextSequenceId + 1), Unresolved)
  {
    assert Applied(st.(nextSequenceId := st.nextSequenceId + 1), ps[0]).1 == Unresolved;
  }

  lemma ArrivesFirst(src: ZoneState, a: Id, l: Id)
    requires SettledState(src) && a in src.actors
    ensures a in ViewOf(src).actors && Arriving(src, a, l) != []
    ensures Arriving(src, a, l)[0] == ActorMigrateIn(a, ViewOf(src).actors[a].info, l)
  {
    TuplesListed(src, a);
    hide SettledState, ParentsFirst, Complete, ObjectsIn, TuplesOf, ViewOf;
  }

  /** Where it is welcome, the actor and all it has are taken in as they are. */
  lemma WelcomeTaken(st: ZoneState, src: ZoneState, a: Id, l: Id)
    requires SettledState(st) && SettledState(src) && a in src.actors && Welcome(st, src, a, l)
    ensures a in ViewOf(src).actors && AcceptsEach(ViewOf(st), Arriving(src, a, l))
    ensures var v := Arrived(ViewOf(src), ViewOf(st), a, l, Ids(TuplesOf(src, a)));
      EffectAll(ViewOf(st), Arriving(src, a, l)) == v && NoOrphans(v)
  {
    TuplesListed(src, a);
    ViewKeys(st);
    hide Linked, Sound, NoOrphans, ParentsFirst, Complete, Arrived, MigrateIn, AcceptsEach, EffectAll, TuplesOf, ViewOf;
    hide Ids;
    MigrationConserves(ViewOf(src), ViewOf(st), a, l, TuplesOf(src, a));
  }

  lemma NotWelcomeBreaks(st: ZoneState, src: ZoneState, a: Id, l: Id)
    requires SettledState(st) && SettledState(src) && a in src.actors && l in st.locations && !Welcome(st, src, a, l)
    ensures SubmittedAll(st, Arriving(src, a, l)).1 == Done
    ensures !SettledState(SubmittedAll(st, Arriving(src, a, l)).0)
  {
    var v, s, b := ViewOf(src), TuplesOf(src, a), SubmittedAll(JustLocation(st, l), Arriving(src, a, l)).0;
    ArrivingOverlaid(st, src, a, l);
    TuplesListed(src, a);
    hide ParentsFirst, Complete, Arriving, Ids, TuplesOf, SubmittedAll, Arrived, ViewOf, Overlaid, JustLocation;
    hide Restricted;
    ArrivedAtJust(v, st, a, l, Ids(s));
    JustArrivedIs(b, v, a, l, s);
    SettledLinked(st);
    SettledPlaces(st);
    hide JustArrived, ActorsListed, ObjectsListed, ExitsListed, ConstraintsKept, Sound, NoOrphans;
    if a in st.actors {
      ListedTwice(st, b, a, l, Ids(s));
    } else {
      SomethingHeldTwice(st, b, a, l, Ids(s));
    }
  }

  /**
   * Taking in an actor that has a location to come to never fails, as nothing is checked; and it
   * leaves the zone settled exactly where the actor is welcome.
   */
  lemma ArrivingExactly(st: ZoneState, src: ZoneState, a: Id, l: Id)
    requires SettledState(st) && SettledState(src) && a in src.actors
    ensures var (t, r) := SubmittedAll(st, Arriving(src, a, l));
      && (r == Done <==> l in st.locations)
      && (r == Done && SettledState(t) <==> Welcome(st, src, a, l))
      && (Welcome(st, src, a, l) ==>
            && a in ViewOf(src).actors
            && ViewOf(t) ==
               Arrived(ViewOf(src), ViewOf(st), a, l, Ids(TuplesOf(src, a))).(nextSequenceId := t.nextSequenceId)
            && t.nextSequenceId == st.nextSequenceId + |Arriving(src, a, l)|)
  {
    ArrivesFirst(src, a, l);
    hide SettledState, Arriving, Ids, TuplesOf, SubmittedAll, Arrived, ViewOf, AcceptsEach, EffectAll, NoOrphans;
    if l !in st.locations {
      UnresolvedFirst(st, Arriving(src, a, l), a, ViewOf(src).actors[a].info, l);
    } else if Welcome(st, src, a, l) {
      WelcomeTaken(st, src, a, l);
      SubmittingSettles(st, Arriving(src, a, l));
    } else {
      NotWelcomeBreaks(st, src, a, l);
    }
  }
}
