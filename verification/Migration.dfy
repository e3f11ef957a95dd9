/** An actor moving to another zone with all it carries. */
module Migrations {
  import opened Wrappers
  import opened Bytes
  import opened ZoneViews
  import opened ZoneInvariant
  import opened PayloadRuns
  import opened SnapshotReplay
  import opened ObjectTrees

  /** The event that takes in one object of v's: in the same container, at the same place. */
  function InPayload(v: View, t: Tuple): Payload
    requires t.obj in v.objects
  {
    ObjectMigrateIn(t.obj, v.objects[t.obj].info, t.cont, SubcontainerOf(v.objects[t.obj]))
  }

  function ObjectsIn(v: View, s: seq<Tuple>): (ps: seq<Payload>)
    requires forall t :: t in s ==> t.obj in v.objects
    ensures |ps| == |s|
  {
    if s == [] then [] else ObjectsIn(v, s[..|s| - 1]) + [InPayload(v, s[|s| - 1])]
  }

  function ObjectsOut(s: seq<Tuple>): (ps: seq<Payload>)
    ensures |ps| == |s|
  {
    if s == [] then [] else ObjectsOut(s[..|s| - 1]) + [ObjectMigrateOut(s[|s| - 1].obj)]
  }

  /** processActorMigrateInCommand, in the zone moved to. */
  function MigrateIn(v: View, a: Id, toLoc: Id, s: seq<Tuple>): seq<Payload>
    requires a in v.actors && forall t :: t in s ==> t.obj in v.objects
  {
    [ActorMigrateIn(a, v.actors[a].info, toLoc)] + ObjectsIn(v, s)
  }

  /** processActorMigrateOutCommand, in the zone left behind. */
  function MigrateOut(a: Id, s: seq<Tuple>): seq<Payload>
  {
    ObjectsOut(s) + [ActorMigrateOut(a)]
  }

  /** The objects of v in ids. */
  function Restricted(v: View, ids: set<Id>): map<Id, ObjectView>
  {
    map o | o in v.objects && o in ids :: v.objects[o]
  }

  /** w with the actor at toLoc, and objects just as they were in v. */
  function Arrived(v: View, w: View, a: Id, toLoc: Id, ids: set<Id>): View
    requires a in v.actors
  {
    w.(actors := w.actors[a := ActorView(v.actors[a].info, toLoc)], objects := w.objects + Restricted(v, ids))
  }

  function Departed(v: View, a: Id, ids: set<Id>): View
  {
    v.(actors := v.actors - {a}, objects := v.objects - ids)
  }

  // ---------- in ----------

  /** What has arrived leaves room for what is still to come. */
  lemma RoomToArrive(v: View, w: View, a: Id, toLoc: Id, ids: set<Id>, o: Id)
    requires WithinLimits(v) && ObjectsPlaced(v) && NoOrphans(w) && a in v.actors && a !in w.actors
    requires o in v.objects && o !in ids && o !in w.objects && Under(InActor(a), ids, v.objects[o].container)
    requires ids <= v.objects.Keys
    ensures Room(Arrived(v, w, a, toLoc, ids), o, v.objects[o].container, SubcontainerOf(v.objects[o]))
  {
    hide At, WithinLimits, NoOrphans;
    var u, x := Arrived(v, w, a, toLoc, ids), v.objects[o];
    if x.container.InActor? {
      var p := x.place.value;
      AtMostWhatItHad(v, w, a, toLoc, ids, p);
      OneFewerFits(v, u, a, p, o);
      hide RoomAt;
      assert AddPlace(SubcontainerOf(x)) == Some(p);
    } else {
      assert x.container.id in u.objects;
    }
  }

  lemma AtMostWhatItHad(v: View, w: View, a: Id, toLoc: Id, ids: set<Id>, p: Place)
    requires NoOrphans(w) && a in v.actors && a !in w.actors
    ensures At(Arrived(v, w, a, toLoc, ids), a, p) <= At(v, a, p)
  {
    assert forall y :: y in w.objects ==> w.objects[y].container != InActor(a);
  }

  /** Where o was within limits with others, there is room for it with no more than those. */
  lemma OneFewerFits(v: View, u: View, a: Id, p: Place, o: Id)
    requires WithinLimits(v) && a in v.actors && a in u.actors && At(u, a, p) <= At(v, a, p)
    requires u.actors[a].info.constraints == v.actors[a].info.constraints
    requires o in v.objects && v.objects[o].container == InActor(a) && v.objects[o].place == Some(p)
    ensures RoomAt(u, o, a, p)
  {
    assert o in At(v, a, p);
    SubsetSize(At(u, a, p) - {o}, At(v, a, p) - {o});
  }

  lemma NothingInsideYet(v: View, w: View, a: Id, toLoc: Id, s: seq<Tuple>, o: Id)
    requires NoOrphans(w) && a in v.actors && ParentsFirst(v, InActor(a), s) && o !in Ids(s) && o !in w.objects
    ensures Vacant(Arrived(v, w, a, toLoc, Ids(s)), InObject(o))
  {
    ParentsFirstMembers(v, InActor(a), s);
    hide ParentsFirst, Ids;
    var u := Arrived(v, w, a, toLoc, Ids(s));
    forall x | x in u.objects
      ensures u.objects[x].container != InObject(o)
    {
      if x in Ids(s) && x in v.objects {
        assert Under(InActor(a), Ids(s), v.objects[x].container);
      } else {
        assert Exists(w, w.objects[x].container);
      }
    }
  }

  lemma ArriveOne(v: View, w: View, a: Id, toLoc: Id, s: seq<Tuple>, t: Tuple)
    requires WithinLimits(v) && ObjectsPlaced(v) && NoOrphans(w) && a in v.actors && a !in w.actors
    requires ParentsFirst(v, InActor(a), s + [t]) && t.obj !in w.objects
    ensures t.obj in v.objects && Accepts(Arrived(v, w, a, toLoc, Ids(s)), InPayload(v, t))
    ensures Effect(Arrived(v, w, a, toLoc, Ids(s)), InPayload(v, t)) == Arrived(v, w, a, toLoc, Ids(s) + {t.obj})
  {
    hide WithinLimits, NoOrphans, ObjectsPlaced, Arrived, Accepts, Effect, Ids;
    assert (s + [t])[..|s|] == s && (s + [t])[|s|] == t;
    assert ParentsFirst(v, InActor(a), s);
    ParentsFirstMembers(v, InActor(a), s);
    assert t.obj in v.objects && t.obj !in Ids(s) && v.objects[t.obj].container == t.cont;
    assert Under(InActor(a), Ids(s), t.cont);
    assert Ids(s) <= v.objects.Keys;
    ArriveAccepted(v, w, a, toLoc, s, t);
    ArriveEffect(v, w, a, toLoc, Ids(s), t);
  }

  lemma ArriveAccepted(v: View, w: View, a: Id, toLoc: Id, s: seq<Tuple>, t: Tuple)
    requires WithinLimits(v) && ObjectsPlaced(v) && NoOrphans(w) && a in v.actors && a !in w.actors
    requires ParentsFirst(v, InActor(a), s) && t.obj in v.objects && v.objects[t.obj].container == t.cont
    requires t.obj !in Ids(s) && t.obj !in w.objects && Under(InActor(a), Ids(s), t.cont) && Ids(s) <= v.objects.Keys
    ensures Accepts(Arrived(v, w, a, toLoc, Ids(s)), InPayload(v, t))
  {
    hide ParentsFirst, Ids, WithinLimits, NoOrphans;
    NothingInsideYet(v, w, a, toLoc, s, t.obj);
    RoomToArrive(v, w, a, toLoc, Ids(s), t.obj);
    assert t.obj !in Arrived(v, w, a, toLoc, Ids(s)).objects;
    hide ObjectsPlaced, Room, Vacant, Arrived, Accepts;
    ObjectTakenIn(Arrived(v, w, a, toLoc, Ids(s)), t.obj, v.objects[t.obj].info, t.cont,
      SubcontainerOf(v.objects[t.obj]));
  }

  lemma ObjectTakenIn(u: View, o: Id, info: ObjectInfo, c: Container, sub: string)
    ensures o !in u.objects && Vacant(u, InObject(o)) && Room(u, o, c, sub) ==>
      Accepts(u, ObjectMigrateIn(o, info, c, sub))
    ensures Effect(u, ObjectMigrateIn(o, info, c, sub)) ==
      u.(objects := u.objects[o := ObjectView(info, c, PlaceIn(c, sub))])
  {
    hide Vacant, Room, PlaceIn;
  }

  lemma ArriveEffect(v: View, w: View, a: Id, toLoc: Id, ids: set<Id>, t: Tuple)
    requires ObjectsPlaced(v) && a in v.actors && t.obj in v.objects && t.obj !in w.objects
    requires v.objects[t.obj].container == t.cont
    ensures Effect(Arrived(v, w, a, toLoc, ids), InPayload(v, t)) == Arrived(v, w, a, toLoc, ids + {t.obj})
  {
    var u, x := Arrived(v, w, a, toLoc, ids), v.objects[t.obj];
    assert PlaceIn(x.container, SubcontainerOf(x)) == x.place;
    hide ObjectsPlaced, PlaceIn, Effect;
    ObjectTakenIn(u, t.obj, x.info, t.cont, SubcontainerOf(x));
    assert Effect(u, InPayload(v, t)) == u.(objects := u.objects[t.obj := x]);
    assert (w.objects + Restricted(v, ids))[t.obj := x] == w.objects + Restricted(v, ids + {t.obj});
  }

  lemma {:induction false} ArriveAll(v: View, w: View, a: Id, toLoc: Id, s: seq<Tuple>)
    requires Consistent(v) && NoOrphans(w) && a in v.actors && a !in w.actors && Ids(s) !! w.objects.Keys
    requires ParentsFirst(v, InActor(a), s)
    ensures forall t :: t in s ==> t.obj in v.objects
    ensures AcceptsEach(Arrived(v, w, a, toLoc, {}), ObjectsIn(v, s))
    ensures EffectAll(Arrived(v, w, a, toLoc, {}), ObjectsIn(v, s)) == Arrived(v, w, a, toLoc, Ids(s))
  {
    assert WithinLimits(v) && ObjectsPlaced(v);
    hide Consistent, WithinLimits, ObjectsPlaced, NoOrphans, Accepts, Effect, Arrived;
    ParentsFirstOnce(v, InActor(a), s);
    if s == [] {
      assert Ids(s) == {};
    } else {
      var init, last := s[..|s| - 1], s[|s| - 1];
      IdsSnoc(s);
      assert ParentsFirst(v, InActor(a), init) && s == init + [last];
      hide ParentsFirst, Ids, InPayload;
      ArriveAll(v, w, a, toLoc, init);
      ArriveOne(v, w, a, toLoc, init, last);
      assert ObjectsIn(v, s) == ObjectsIn(v, init) + [InPayload(v, last)];
      hide ObjectsIn, AcceptsEach, EffectAll;
      EachSnoc(Arrived(v, w, a, toLoc, {}), ObjectsIn(v, init), InPayload(v, last));
    }
  }

  lemma ActorArrives(v: View, w: View, a: Id, toLoc: Id)
    requires NoOrphans(w) && a in v.actors && a !in w.actors && toLoc in w.locations
    ensures var p := ActorMigrateIn(a, v.actors[a].info, toLoc);
      Accepts(w, p) && Effect(w, p) == Arrived(v, w, a, toLoc, {})
  {
    assert Vacant(w, InActor(a));
    assert w.objects + Restricted(v, {}) == w.objects;
  }

  lemma MigrateInRun(v: View, w: View, a: Id, toLoc: Id, s: seq<Tuple>)
    requires Consistent(v) && NoOrphans(w) && a in v.actors && a !in w.actors && toLoc in w.locations
    requires ParentsFirst(v, InActor(a), s) && Ids(s) !! w.objects.Keys
    ensures forall t :: t in s ==> t.obj in v.objects
    ensures AcceptsEach(w, MigrateIn(v, a, toLoc, s))
    ensures EffectAll(w, MigrateIn(v, a, toLoc, s)) == Arrived(v, w, a, toLoc, Ids(s))
  {
    hide Consistent, NoOrphans, ParentsFirst, Ids, Accepts, Effect, Arrived;
    ArriveAll(v, w, a, toLoc, s);
    ActorArrives(v, w, a, toLoc);
    EachOne(w, ActorMigrateIn(a, v.actors[a].info, toLoc));
    EachConcat(w, [ActorMigrateIn(a, v.actors[a].info, toLoc)], ObjectsIn(v, s));
    hide AcceptsEach, EffectAll;
  }

  // ---------- out ----------

  lemma DepartOne(v: View, ids: set<Id>, o: Id)
    requires o in v.objects && o !in ids
    ensures var u := v.(objects := v.objects - ids);
      Accepts(u, ObjectMigrateOut(o)) && Effect(u, ObjectMigrateOut(o)) == v.(objects := v.objects - (ids + {o}))
  {
    assert (v.objects - ids) - {o} == v.objects - (ids + {o});
  }

  lemma {:induction false} DepartAll(v: View, s: seq<Tuple>)
    requires forall t :: t in s ==> t.obj in v.objects
    requires forall i, j :: 0 <= i < j < |s| ==> s[i].obj != s[j].obj
    ensures AcceptsEach(v, ObjectsOut(s))
    ensures EffectAll(v, ObjectsOut(s)) == v.(objects := v.objects - Ids(s))
  {
    hide Accepts, Effect;
    if s == [] {
      assert v.objects - Ids(s) == v.objects;
    } else {
      var init, last := s[..|s| - 1], s[|s| - 1];
      assert s == init + [last];
      IdsConcat(init, [last]);
      assert Ids([last]) == {last.obj};
      DepartAll(v, init);
      assert last.obj !in Ids(init);
      DepartOne(v, Ids(init), last.obj);
      assert ObjectsOut(s)[..|s| - 1] == ObjectsOut(init);
    }
  }

  lemma MigrateOutRun(v: View, a: Id, s: seq<Tuple>)
    requires Consistent(v) && a in v.actors && Listing(v, InActor(a), s)
    ensures AcceptsEach(v, MigrateOut(a, s))
    ensures EffectAll(v, MigrateOut(a, s)) == Departed(v, a, Ids(s))
    ensures NoOrphans(Departed(v, a, Ids(s)))
  {
    hide Sound, Accepts, Effect, AcceptsEach, EffectAll, ParentsFirst, Ids, Complete, Departed;
    NoneLeftBehind(v, a, s);
    hide NoOrphans;
    ParentsFirstOnce(v, InActor(a), s);
    DepartAll(v, s);
    ActorDeparts(v, a, s);
    EachSnoc(v, ObjectsOut(s), ActorMigrateOut(a));
  }

  lemma ActorDeparts(v: View, a: Id, s: seq<Tuple>)
    requires a in v.actors && Complete(v, InActor(a), s)
    ensures var u := v.(objects := v.objects - Ids(s));
      Accepts(u, ActorMigrateOut(a)) && Effect(u, ActorMigrateOut(a)) == Departed(v, a, Ids(s))
  {
    hide Ids;
    var u := v.(objects := v.objects - Ids(s));
    forall o | o in u.objects
      ensures u.objects[o].container != InActor(a)
    {
      assert !Under(InActor(a), Ids(s), v.objects[o].container);
    }
  }

  lemma NoneLeftBehind(v: View, a: Id, s: seq<Tuple>)
    requires NoOrphans(v) && Complete(v, InActor(a), s)
    ensures NoOrphans(Departed(v, a, Ids(s)))
  {
    var u := Departed(v, a, Ids(s));
    forall o | o in u.objects
      ensures Exists(u, u.objects[o].container)
    {
      assert !Under(InActor(a), Ids(s), v.objects[o].container);
    }
  }

  // ---------- both ----------

  /**
   * Migration conservation: taking the actor in and then sending it out is accepted throughout;
   * the actor and everything it has, at any depth, is then in the other zone with the same
   * containers and places, and the rest of both zones is as before.
   */
  lemma MigrationConserves(v: View, w: View, a: Id, toLoc: Id, s: seq<Tuple>)
    requires Consistent(v) && Consistent(w) && a in v.actors && a !in w.actors && toLoc in w.locations
    requires Listing(v, InActor(a), s) && Ids(s) !! w.objects.Keys
    ensures forall t :: t in s ==> t.obj in v.objects
    ensures AcceptsEach(w, MigrateIn(v, a, toLoc, s)) && AcceptsEach(v, MigrateOut(a, s))
    ensures EffectAll(w, MigrateIn(v, a, toLoc, s)) == Arrived(v, w, a, toLoc, Ids(s))
    ensures EffectAll(v, MigrateOut(a, s)) == Departed(v, a, Ids(s))
    ensures Consistent(Arrived(v, w, a, toLoc, Ids(s))) && Consistent(Departed(v, a, Ids(s)))
  {
    MigrateInRun(v, w, a, toLoc, s);
    MigrateOutRun(v, a, s);
    EachKeepsSound(w, MigrateIn(v, a, toLoc, s));
    EachKeepsSound(v, MigrateOut(a, s));
    ParentsFirstMembers(v, InActor(a), s);
    hide Sound, Listing, ParentsFirst, Ids;
    ArrivedNoOrphans(v, w, a, toLoc, Ids(s));
  }

  lemma ArrivedNoOrphans(v: View, w: View, a: Id, toLoc: Id, ids: set<Id>)
    requires NoOrphans(w) && a in v.actors && ids !! w.objects.Keys
    requires forall x :: x in ids ==> x in v.objects && Under(InActor(a), ids, v.objects[x].container)
    ensures NoOrphans(Arrived(v, w, a, toLoc, ids))
  {
    var u := Arrived(v, w, a, toLoc, ids);
    forall o | o in u.objects
      ensures Exists(u, u.objects[o].container)
    {
      if o in ids {
        assert Under(InActor(a), ids, v.objects[o].container);
      } else {
        assert Exists(w, w.objects[o].container);
      }
    }
  }

  /**
   * The actor is always in one of the zones: it leaves the first only in the last step out, and by
   * then it is in the other.
   */
  lemma NeverInNeither(v: View, w: View, a: Id, toLoc: Id, s: seq<Tuple>, k: nat)
    requires Consistent(v) && Consistent(w) && a in v.actors && a !in w.actors && toLoc in w.locations
    requires Listing(v, InActor(a), s) && Ids(s) !! w.objects.Keys && k <= |MigrateOut(a, s)|
    ensures forall t :: t in s ==> t.obj in v.objects
    ensures a in EffectAll(v, MigrateOut(a, s)[..k]).actors <==> k < |MigrateOut(a, s)|
    ensures a in EffectAll(w, MigrateIn(v, a, toLoc, s)).actors
  {
    hide Consistent, Listing, Ids, EffectAll, AcceptsEach;
    MigrationConserves(v, w, a, toLoc, s);
    if k < |MigrateOut(a, s)| {
      assert MigrateOut(a, s)[..k] == ObjectsOut(s)[..k];
      StillThere(v, a, s, k);
    } else {
      assert MigrateOut(a, s)[..k] == MigrateOut(a, s);
    }
  }

  lemma StillThere(v: View, a: Id, s: seq<Tuple>, k: nat)
    requires Listing(v, InActor(a), s) && a in v.actors && k <= |s|
    ensures a in EffectAll(v, ObjectsOut(s)[..k]).actors
  {
    ParentsFirstOnce(v, InActor(a), s);
    hide ParentsFirst, Complete;
    OutPrefix(s, k);
    DepartAll(v, s[..k]);
  }

  lemma {:induction false} OutPrefix(s: seq<Tuple>, k: nat)
    requires k <= |s|
    ensures ObjectsOut(s)[..k] == ObjectsOut(s[..k])
  {
    if k == |s| {
      assert s[..k] == s && ObjectsOut(s)[..k] == ObjectsOut(s);
    } else {
      var init := s[..|s| - 1];
      OutPrefix(init, k);
      assert init[..k] == s[..k];
      assert ObjectsOut(s)[..k] == ObjectsOut(init)[..k];
    }
  }
}
