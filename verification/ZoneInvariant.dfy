/** Accepted events keep a zone well-formed, over any run. */
module ZoneInvariant {
  import opened Wrappers
  import opened Bytes
  import opened ZoneViews

  // ---------- accepted changes ----------

  /** The change keeps the zone sound. */
  ghost predicate Admits(v: View, c: Change)
  {
    match c
    case SetLocation(_, _) => true
    case NoLocation(l) => Unreferenced(v, l)
    case SetActor(a, x) =>
      x.location in v.locations &&
      if a in v.actors then x.info.constraints == v.actors[a].info.constraints else Vacant(v, InActor(a))
    case NoActor(a) => Vacant(v, InActor(a))
    case SetExit(x, info) => ExitPlaced(v, info) && DirectionFree(v, x, info.source, info.direction)
    case NoExit(_) => true
    case SetObject(o, x) =>
      && Exists(v, x.container) && (x.place.Some? <==> x.container.InActor?)
      && (x.place.Some? ==> RoomAt(v, o, x.container.id, x.place.value))
      && NotInside(v, o, x.container)
    case NoObject(_) => true
    case SetDefault(l) => l in v.locations
    case Nothing => true
  }

  lemma NewHoldsNothing(v: View, o: Id, c: Container)
    requires o !in v.objects && Vacant(v, InObject(o)) && Exists(v, c)
    ensures NotInside(v, o, c)
  {
    assert Closed(v, {o});
  }

  lemma AcceptedChange(v: View, p: Payload)
    requires ActorsPlaced(v) && ObjectsPlaced(v) && Accepts(v, p)
    ensures Admits(v, ChangeOf(v, p))
  {
    hide RoomAt, NotInside, Unreferenced, DirectionFree, Vacant;
    if p.ObjectAddToZone? || p.ObjectMigrateIn? {
      NewHoldsNothing(v, p.object_, p.container);
    } else if p.ObjectMoveSubcontainer? {
      NotInsideActor(v, p.object_, v.objects[p.object_].container);
    }
  }

  lemma NotInsideActor(v: View, o: Id, c: Container)
    requires !c.InObject?
    ensures NotInside(v, o, c)
  {
  }

  // ---------- places ----------

  lemma KeepsActorsPlaced(v: View, c: Change)
    requires ActorsPlaced(v) && Admits(v, c)
    ensures ActorsPlaced(Changed(v, c))
  {
    hide RoomAt, NotInside, Vacant;
  }

  lemma KeepsObjectsPlaced(v: View, c: Change)
    requires ObjectsPlaced(v) && Admits(v, c)
    ensures ObjectsPlaced(Changed(v, c))
  {
    hide RoomAt, NotInside;
  }

  lemma KeepsExitsPlaced(v: View, c: Change)
    requires ExitsPlaced(v) && Admits(v, c)
    ensures ExitsPlaced(Changed(v, c))
  {
    hide RoomAt, NotInside, Vacant, DirectionFree;
  }

  lemma KeepsDirectionsUnique(v: View, c: Change)
    requires DirectionsUnique(v) && Admits(v, c)
    ensures DirectionsUnique(Changed(v, c))
  {
    hide RoomAt, NotInside, Vacant, Unreferenced;
  }

  // ---------- limits ----------

  lemma {:induction false} SubsetSize<A>(a: set<A>, b: set<A>)
    requires a <= b
    ensures |a| <= |b|
  {
    if x :| x in a {
      SubsetSize(a - {x}, b - {x});
    }
  }

  /** Whatever loses objects, or keeps them, stays within limits. */
  lemma FewerAtStays(v: View, w: View, a: Id, p: Place)
    requires WithinLimits(v) && a in v.actors && a in w.actors
    requires v.actors[a].info.constraints == w.actors[a].info.constraints && At(w, a, p) <= At(v, a, p)
    ensures At(w, a, p) != {} ==>
      |At(w, a, p)| <= w.actors[a].info.constraints.MaxItems(p) && 0 <= w.actors[a].info.constraints.Slots(p)
  {
    SubsetSize(At(w, a, p), At(v, a, p));
  }

  /** Placing one object where there is room keeps every limit. */
  lemma PlacingKeepsLimits(v: View, o: Id, x: ObjectView)
    requires WithinLimits(v)
    requires x.container.InActor? && x.place.Some? && x.container.id in v.actors ==>
      RoomAt(v, o, x.container.id, x.place.value)
    ensures WithinLimits(v.(objects := v.objects[o := x]))
  {
    var w := v.(objects := v.objects[o := x]);
    forall a, p | a in w.actors && At(w, a, p) != {}
      ensures |At(w, a, p)| <= w.actors[a].info.constraints.MaxItems(p) && 0 <= w.actors[a].info.constraints.Slots(p)
    {
      AtAfterPlacing(v, o, x, a, p);
      hide At;
      if x.container != InActor(a) || x.place != Some(p) {
        FewerAtStays(v, w, a, p);
      }
    }
  }

  lemma AtAfterPlacing(v: View, o: Id, x: ObjectView, a: Id, p: Place)
    ensures var w := v.(objects := v.objects[o := x]);
      At(w, a, p) == At(v, a, p) - {o} + if x.container == InActor(a) && x.place == Some(p) then {o} else {}
  {
  }

  /** An actor without things, or with the same constraints as before, stays within limits. */
  lemma ActorKeepsLimits(v: View, a: Id, x: ActorView)
    requires WithinLimits(v)
    requires Vacant(v, InActor(a)) || (a in v.actors && x.info.constraints == v.actors[a].info.constraints)
    ensures WithinLimits(v.(actors := v.actors[a := x]))
  {
    var w := v.(actors := v.actors[a := x]);
    forall b, q | b in w.actors && At(w, b, q) != {}
      ensures |At(w, b, q)| <= w.actors[b].info.constraints.MaxItems(q) && 0 <= w.actors[b].info.constraints.Slots(q)
    {
      assert At(w, b, q) == At(v, b, q);
    }
  }

  lemma FewerKeepsLimits(v: View, w: View)
    requires WithinLimits(v) && w.actors.Keys <= v.actors.Keys && w.objects.Keys <= v.objects.Keys
    requires forall a :: a in w.actors ==> w.actors[a] == v.actors[a]
    requires forall o :: o in w.objects ==> w.objects[o] == v.objects[o]
    ensures WithinLimits(w)
  {
    forall a, q | a in w.actors && At(w, a, q) != {}
      ensures |At(w, a, q)| <= w.actors[a].info.constraints.MaxItems(q) && 0 <= w.actors[a].info.constraints.Slots(q)
    {
      assert At(w, a, q) <= At(v, a, q);
      FewerAtStays(v, w, a, q);
    }
  }

  lemma KeepsLimits(v: View, c: Change)
    requires ObjectsPlaced(v) && WithinLimits(v) && Admits(v, c)
    ensures WithinLimits(Changed(v, c))
  {
    hide WithinLimits, ObjectsPlaced, RoomAt, NotInside, Vacant, DirectionFree;
    match c
    case SetObject(o, x) => PlacingKeepsLimits(v, o, x);
    case SetActor(a, x) => ActorKeepsLimits(v, a, x);
    case _ => FewerKeepsLimits(v, Changed(v, c));
  }

  // ---------- containment ----------

  lemma FreeMember(v: View, s: set<Id>) returns (x: Id)
    requires Acyclic(v) && s != {} && s <= v.objects.Keys
    ensures Free(v, s, x)
  {
    x :| Free(v, s, x);
  }

  /** Changing what contains o to nothing in particular, or taking o away, makes no cycle. */
  lemma UncontainedStaysAcyclic(v: View, w: View, o: Id)
    requires Acyclic(v) && w.objects.Keys <= v.objects.Keys + {o}
    requires forall x, y :: ChildOf(w, x, y) && x != o ==> ChildOf(v, x, y)
    requires forall y :: !ChildOf(w, o, y)
    ensures Acyclic(w)
  {
    hide ChildOf;
    forall s: set<Id> | s != {} && s <= w.objects.Keys
      ensures exists x :: Free(w, s, x)
    {
      if o in s {
        assert Free(w, s, o);
      } else {
        assert s <= v.objects.Keys;
        var x := FreeMember(v, s);
        assert Free(w, s, x);
      }
    }
  }

  /** What is free among the members of s outside the closed set t is free in all of s. */
  lemma FreeOutside(v: View, w: View, o: Id, c: Id, t: set<Id>, s: set<Id>, x: Id)
    requires forall y :: ChildOf(w, x, y) && x != o ==> ChildOf(v, x, y)
    requires o in t && Closed(v, t) && Free(v, s - t, x)
    ensures Free(w, s, x)
  {
    forall y | y in s
      ensures !ChildOf(w, x, y)
    {
      if y in t {
        assert ChildOf(v, x, y) ==> x in t;
      }
    }
  }

  /** An object can go into another as long as that one is not inside it: t witnesses this. */
  lemma MoveStaysAcyclic(v: View, w: View, o: Id, c: Id, t: set<Id>)
    requires Acyclic(v) && w.objects.Keys <= v.objects.Keys + {o}
    requires forall x, y :: ChildOf(w, x, y) && x != o ==> ChildOf(v, x, y)
    requires forall y :: ChildOf(w, o, y) ==> y == c
    requires o in t && c !in t && Closed(v, t)
    ensures Acyclic(w)
  {
    hide Closed, ChildOf;
    forall s: set<Id> | s != {} && s <= w.objects.Keys
      ensures exists x :: Free(w, s, x)
    {
      if o !in s {
        assert s <= v.objects.Keys;
        var x := FreeMember(v, s);
        assert Free(w, s, x);
      } else if c in s {
        assert c in s - t && s - t <= v.objects.Keys;
        var x := FreeMember(v, s - t);
        FreeOutside(v, w, o, c, t, s, x);
      } else {
        assert Free(w, s, o);
      }
    }
  }

  lemma PlacingStaysAcyclic(v: View, o: Id, x: ObjectView)
    requires Acyclic(v) && NotInside(v, o, x.container)
    ensures Acyclic(v.(objects := v.objects[o := x]))
  {
    hide Acyclic;
    var w := v.(objects := v.objects[o := x]);
    if x.container.InObject? {
      var t :| o in t && x.container.id !in t && Closed(v, t);
      MoveStaysAcyclic(v, w, o, x.container.id, t);
    } else {
      UncontainedStaysAcyclic(v, w, o);
    }
  }

  lemma KeepsAcyclic(v: View, c: Change)
    requires Acyclic(v) && Admits(v, c)
    ensures Acyclic(Changed(v, c))
  {
    hide Acyclic, RoomAt, NotInside, Vacant, DirectionFree;
    match c
    case SetObject(o, x) => PlacingStaysAcyclic(v, o, x);
    case NoObject(o) => UncontainedStaysAcyclic(v, Changed(v, c), o);
    case _ => SameObjectsAcyclic(v, Changed(v, c));
  }

  lemma SameObjectsAcyclic(v: View, w: View)
    requires Acyclic(v) && v.objects == w.objects
    ensures Acyclic(w)
  {
    forall s: set<Id> | s != {} && s <= w.objects.Keys
      ensures exists x :: Free(w, s, x)
    {
      var x := FreeMember(v, s);
      assert Free(w, s, x);
    }
  }

  // ---------- every run ----------

  lemma EffectKeepsSound(v: View, p: Payload)
    requires Sound(v) && Accepts(v, p)
    ensures Sound(Effect(v, p))
  {
    hide ActorsPlaced, ObjectsPlaced, ExitsPlaced, DirectionsUnique, WithinLimits, Acyclic;
    hide Accepts, Admits, ChangeOf, Changed;
    var c := ChangeOf(v, p);
    AcceptedChange(v, p);
    KeepsActorsPlaced(v, c);
    KeepsObjectsPlaced(v, c);
    KeepsExitsPlaced(v, c);
    KeepsDirectionsUnique(v, c);
    KeepsAcyclic(v, c);
    KeepsLimits(v, c);
  }

  /** Only an object migrating out before its contents leaves orphans. */
  ghost predicate LeavesNoOrphans(v: View, p: Payload)
  {
    p.ObjectMigrateOut? ==> Vacant(v, InObject(p.object_))
  }

  /** Removing one entity c from a zone without orphans strands nothing exactly when c holds nothing. */
  lemma StrandedExactly(v: View, w: View, id: Id, c: Container)
    requires NoOrphans(v) && w.objects.Keys <= v.objects.Keys && !Exists(w, c)
    requires forall o :: o in v.objects && v.objects[o].container == c ==> o in w.objects
    requires forall o :: o in w.objects ==> w.objects[o].container == v.objects[o].container
    requires forall d :: d != c && Exists(v, d) ==> Exists(w, d)
    ensures NoOrphans(w) <==> Vacant(v, c)
  {
  }

  lemma OneContainedKeepsNoOrphans(v: View, w: View, o: Id)
    requires NoOrphans(v) && forall d :: Exists(v, d) ==> Exists(w, d)
    requires w.objects.Keys <= v.objects.Keys + {o}
    requires forall x :: x in w.objects && x != o ==> w.objects[x].container == v.objects[x].container
    requires o in w.objects ==> Exists(w, w.objects[o].container)
    ensures NoOrphans(w)
  {
  }

  lemma SameObjectsKeepsNoOrphans(v: View, w: View)
    requires NoOrphans(v) && (forall d :: Exists(v, d) ==> Exists(w, d)) && w.objects == v.objects
    ensures NoOrphans(w)
  {
  }

  lemma KeepsNoOrphans(v: View, c: Change)
    requires NoOrphans(v) && Admits(v, c) && (c.NoObject? ==> Vacant(v, InObject(c.object_)))
    ensures NoOrphans(Changed(v, c))
  {
    hide NoOrphans, RoomAt, NotInside, DirectionFree;
    var w := Changed(v, c);
    match c
    case NoObject(o) => StrandedExactly(v, w, o, InObject(o));
    case NoActor(a) => StrandedExactly(v, w, a, InActor(a));
    case NoLocation(l) => StrandedExactly(v, w, l, InLocation(l));
    case SetObject(o, x) => OneContainedKeepsNoOrphans(v, w, o);
    case _ => SameObjectsKeepsNoOrphans(v, w);
  }

  lemma EffectKeepsNoOrphans(v: View, p: Payload)
    requires Sound(v) && NoOrphans(v) && Accepts(v, p) && LeavesNoOrphans(v, p)
    ensures NoOrphans(Effect(v, p))
  {
    hide WithinLimits, Acyclic, ExitsPlaced, DirectionsUnique;
    hide NoOrphans, Accepts, Admits, Changed, ChangeOf, Vacant, ActorsPlaced, ObjectsPlaced, LeavesNoOrphans;
    AcceptedChange(v, p);
    GoneObjectEmpty(v, p);
    KeepsNoOrphans(v, ChangeOf(v, p));
  }

  lemma GoneObjectEmpty(v: View, p: Payload)
    requires Accepts(v, p) && LeavesNoOrphans(v, p)
    ensures ChangeOf(v, p).NoObject? ==> Vacant(v, InObject(ChangeOf(v, p).object_))
  {
    hide Vacant, Room, RoomAt, NotInside, DirectionFree, Unreferenced;
  }

  lemma SequenceNumberAside(v: View, n: nat)
    ensures Sound(v) ==> Sound(v.(nextSequenceId := n))
    ensures NoOrphans(v) ==> NoOrphans(v.(nextSequenceId := n))
  {
    var w := v.(nextSequenceId := n);
    if Acyclic(v) {
      SameObjectsAcyclic(v, w);
    }
    assert forall a, p :: At(w, a, p) == At(v, a, p);
  }

  lemma ApplyKeepsSound(v: View, e: Event)
    requires Sound(v) && Accepts(v, e.payload)
    ensures Sound(Apply(v, e))
    ensures NoOrphans(v) && LeavesNoOrphans(v, e.payload) ==> NoOrphans(Apply(v, e))
  {
    hide Sound, Effect, Accepts, NoOrphans;
    EffectKeepsSound(v, e.payload);
    if NoOrphans(v) && LeavesNoOrphans(v, e.payload) {
      EffectKeepsNoOrphans(v, e.payload);
    }
    SequenceNumberAside(Effect(v, e.payload), e.sequenceNumber + 1);
  }

  /** Over any run of accepted events a zone stays sound. */
  lemma {:induction false} RunKeepsSound(v: View, es: seq<Event>)
    requires Sound(v) && AcceptsAll(v, es)
    ensures Sound(ApplyAll(v, es))
    decreases |es|
  {
    hide Sound, Accepts, Effect;
    if es != [] {
      ApplyKeepsSound(v, es[0]);
      RunKeepsSound(Apply(v, es[0]), es[1..]);
    }
  }

  /** The default location stays one of the zone's exactly when it is not the one removed. */
  lemma DefaultKeptExactly(v: View, p: Payload)
    requires DefaultExists(v) && Accepts(v, p)
    ensures DefaultExists(Effect(v, p)) <==>
      v.defaultLocation.None? || p != LocationRemoveFromZone(v.defaultLocation.value)
  {
    hide Room, NotInside, Vacant, DirectionFree, Unreferenced, ExitOf, PlaceIn, Damaged;
  }

  /** No event of the run removes the location that is the default by then. */
  ghost predicate SparesDefault(v: View, es: seq<Event>)
    decreases |es|
  {
    es == [] ||
    (&& (v.defaultLocation.None? || es[0].payload != LocationRemoveFromZone(v.defaultLocation.value))
     && SparesDefault(Apply(v, es[0]), es[1..]))
  }

  /** Over any such run the default location stays one of the zone's. */
  lemma {:induction false} RunKeepsDefault(v: View, es: seq<Event>)
    requires DefaultExists(v) && AcceptsAll(v, es) && SparesDefault(v, es)
    ensures DefaultExists(ApplyAll(v, es))
    decreases |es|
  {
    hide Accepts, Effect;
    if es != [] {
      DefaultKeptExactly(v, es[0].payload);
      RunKeepsDefault(Apply(v, es[0]), es[1..]);
    }
  }

  lemma EmptyIsConsistent()
    ensures Consistent(EMPTY)
  {
  }

  // ---------- the guards are exact ----------

  /** Members of every closed set that holds o: o and all that is inside it. */
  ghost function Inside(v: View, o: Id): set<Id>
  {
    set x | x in v.objects.Keys + {o} && forall t: set<Id> :: o in t && Closed(v, t) ==> x in t
  }

  /**
   * Putting an object into another keeps containment acyclic exactly when that other object is
   * not the object itself nor inside it.
   */
  lemma MoveAcyclicExactly(v: View, o: Id, c: Id, sub: string)
    requires Acyclic(v) && o in v.objects && c in v.objects
    ensures Acyclic(Changed(v, Contained(v, o, InObject(c), sub))) <==> NotInside(v, o, InObject(c))
  {
    var w := Changed(v, Contained(v, o, InObject(c), sub));
    if NotInside(v, o, InObject(c)) {
      var t :| o in t && c !in t && Closed(v, t);
      MoveStaysAcyclic(v, w, o, c, t);
    } else {
      var m := Inside(v, o);
      InsideIsTrap(v, o, c, w);
      assert o in m && m <= w.objects.Keys;
    }
  }

  /** If c is inside o, then once o is put into c every object inside o is contained in another. */
  lemma InsideIsTrap(v: View, o: Id, c: Id, w: View)
    requires o in v.objects && c in v.objects && !NotInside(v, o, InObject(c))
    requires o in w.objects && w.objects == v.objects[o := w.objects[o]] && w.objects[o].container == InObject(c)
    ensures forall x :: x in Inside(v, o) ==> exists y :: y in Inside(v, o) && ChildOf(w, x, y)
  {
    var m := Inside(v, o);
    assert c in m;
    forall x | x in m
      ensures exists y :: y in m && ChildOf(w, x, y)
    {
      if x == o {
        assert ChildOf(w, o, c);
      } else {
        InsideHasParent(v, o, x);
        var y :| y in m && ChildOf(v, x, y);
        assert ChildOf(w, x, y);
      }
    }
  }

  lemma InsideClosed(v: View, o: Id)
    ensures Closed(v, Inside(v, o)) && o in Inside(v, o)
  {
  }

  lemma InsideHasParent(v: View, o: Id, x: Id)
    requires x in Inside(v, o) && x != o
    ensures exists y :: y in Inside(v, o) && ChildOf(v, x, y)
  {
    var m := Inside(v, o);
    InsideClosed(v, o);
    if forall y :: y in m ==> !ChildOf(v, x, y) {
      assert Closed(v, m - {x});
    }
  }

  /** An object can be given to an actor within limits exactly when the place has room for it. */
  lemma PlacingWithinLimitsExactly(v: View, o: Id, a: Id, sub: string)
    requires WithinLimits(v) && o in v.objects && a in v.actors && AddPlace(sub).Some?
    ensures WithinLimits(Changed(v, Contained(v, o, InActor(a), sub))) <==> Room(v, o, InActor(a), sub)
  {
    var p := AddPlace(sub).value;
    assert Room(v, o, InActor(a), sub) <==> RoomAt(v, o, a, p);
    assert Contained(v, o, InActor(a), sub) == SetObject(o, ObjectView(v.objects[o].info, InActor(a), Some(p)));
    hide WithinLimits, Room, RoomAt, Changed;
    if RoomAt(v, o, a, p) {
      PlacingKeepsLimits(v, o, ObjectView(v.objects[o].info, InActor(a), Some(p)));
    } else {
      PlacingExceeds(v, o, a, p, v.objects[o].info);
    }
  }

  lemma PlacingExceeds(v: View, o: Id, a: Id, p: Place, info: ObjectInfo)
    requires o in v.objects && a in v.actors && !RoomAt(v, o, a, p)
    ensures !WithinLimits(Changed(v, SetObject(o, ObjectView(info, InActor(a), Some(p)))))
  {
    var w := Changed(v, SetObject(o, ObjectView(info, InActor(a), Some(p))));
    assert At(w, a, p) == (At(v, a, p) - {o}) + {o};
    assert w.actors == v.actors;
    hide At, Changed;
  }

  /**
   * An update of an exit keeps it leading somewhere exactly when it points to another zone, and
   * keeps directions apart exactly when its new direction is free at its new source.
   */
  lemma ExitUpdateExactly(v: View, p: Payload)
    requires ExitsPlaced(v) && DirectionsUnique(v)
    requires p.ExitUpdate? && p.exit in v.exits && p.source in v.locations && p.destLocation != NIL
    ensures ExitsPlaced(Effect(v, p)) <==> p.destZone != NIL
    ensures DirectionsUnique(Effect(v, p)) <==> DirectionFree(v, p.exit, p.source, p.direction)
  {
    var w := Effect(v, p);
    assert p.exit in w.exits;
    UpdatedDirections(v, p);
  }

  lemma UpdatedDirections(v: View, p: Payload)
    requires DirectionsUnique(v) && p.ExitUpdate? && p.exit in v.exits
    ensures DirectionsUnique(Effect(v, p)) <==> DirectionFree(v, p.exit, p.source, p.direction)
  {
    var w := Effect(v, p);
    assert w.exits[p.exit].source == p.source && w.exits[p.exit].direction == p.direction;
    if !DirectionFree(v, p.exit, p.source, p.direction) {
      var y :| y in v.exits && y != p.exit && v.exits[y].source == p.source && v.exits[y].direction == p.direction;
      assert w.exits[y] == v.exits[y];
    }
  }

  lemma NotOwnChild(v: View, id: Id)
    requires Acyclic(v) && id in v.objects
    ensures !ChildOf(v, id, id)
  {
    var s := {id};
    assert s <= v.objects.Keys;
  }

  /** Removing an object strands nothing exactly when it holds nothing. */
  lemma ObjectRemovalExactly(v: View, id: Id)
    requires NoOrphans(v) && Acyclic(v) && id in v.objects
    ensures NoOrphans(Effect(v, ObjectRemoveFromZone(id))) <==> Vacant(v, InObject(id))
  {
    hide Acyclic, NoOrphans;
    NotOwnChild(v, id);
    var w := v.(objects := v.objects - {id});
    assert w == Effect(v, ObjectRemoveFromZone(id));
    StrandedExactly(v, w, id, InObject(id));
  }

  lemma ActorRemovalExactly(v: View, id: Id)
    requires NoOrphans(v)
    ensures NoOrphans(Effect(v, ActorRemoveFromZone(id))) <==> Vacant(v, InActor(id))
  {
    hide NoOrphans, Vacant;
    var w := v.(actors := v.actors - {id});
    assert w == Effect(v, ActorRemoveFromZone(id));
    hide Effect;
    StrandedExactly(v, w, id, InActor(id));
  }
}
