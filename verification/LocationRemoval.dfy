/**
 * Removing a location: its exits and those leading to it go first, its actors and objects go to
 * the default location, and then it goes itself. Only the last of these events is persisted.
 */
module LocationRemovals {
  import opened Wrappers
  import opened Bytes
  import opened ZoneViews
  import opened PayloadRuns
  import opened Inventories

  function ExitRemovals(xs: seq<Id>): (ps: seq<Payload>)
    ensures |ps| == |xs|
  {
    if xs == [] then [] else ExitRemovals(xs[..|xs| - 1]) + [ExitRemoveFromZone(xs[|xs| - 1])]
  }

  function ActorRelocations(xs: seq<Id>, d: Id): (ps: seq<Payload>)
    ensures |ps| == |xs|
  {
    if xs == [] then [] else ActorRelocations(xs[..|xs| - 1], d) + [ActorAdminRelocate(xs[|xs| - 1], d)]
  }

  function ObjectRelocations(xs: seq<Id>, d: Id): (ps: seq<Payload>)
    ensures |ps| == |xs|
  {
    if xs == [] then []
    else ObjectRelocations(xs[..|xs| - 1], d) + [ObjectAdminRelocate(xs[|xs| - 1], InLocation(d), "")]
  }

  /** What is done before the location itself goes. */
  function ClearingPayloads(exits: seq<Id>, actors: seq<Id>, objects: seq<Id>, d: Id): seq<Payload>
  {
    ExitRemovals(exits) + ActorRelocations(actors, d) + ObjectRelocations(objects, d)
  }

  function ActorsAt(v: View, xs: set<Id>, d: Id): map<Id, ActorView>
  {
    map a | a in v.actors :: if a in xs then v.actors[a].(location := d) else v.actors[a]
  }

  function ObjectsAt(v: View, xs: set<Id>, d: Id): map<Id, ObjectView>
  {
    map o | o in v.objects :: if o in xs then ObjectView(v.objects[o].info, InLocation(d), None) else v.objects[o]
  }

  function Members(xs: seq<Id>): set<Id>
  {
    set x | x in xs
  }

  /** The exits gone, the actors and objects at d. */
  function Cleared(v: View, exits: set<Id>, actors: set<Id>, objects: set<Id>, d: Id): View
  {
    v.(exits := v.exits - exits, actors := ActorsAt(v, actors, d), objects := ObjectsAt(v, objects, d))
  }

  lemma MembersSnoc(xs: seq<Id>)
    requires xs != []
    ensures Members(xs) == Members(xs[..|xs| - 1]) + {xs[|xs| - 1]}
  {
    assert xs == xs[..|xs| - 1] + [xs[|xs| - 1]];
  }

  lemma ExitGoes(v: View, xs: set<Id>, x: Id)
    requires x in v.exits && x !in xs
    ensures var w := v.(exits := v.exits - xs);
      Accepts(w, ExitRemoveFromZone(x)) && Effect(w, ExitRemoveFromZone(x)) == v.(exits := v.exits - (xs + {x}))
  {
    assert (v.exits - xs) - {x} == v.exits - (xs + {x});
  }

  lemma {:induction false} ExitsGone(v: View, xs: seq<Id>)
    requires NoDup(xs) && forall x :: x in xs ==> x in v.exits
    ensures AcceptsEach(v, ExitRemovals(xs))
    ensures EffectAll(v, ExitRemovals(xs)) == v.(exits := v.exits - Members(xs))
  {
    if xs == [] {
      assert v.exits - Members(xs) == v.exits;
    } else {
      var init, x := xs[..|xs| - 1], xs[|xs| - 1];
      ExitsGone(v, init);
      MembersSnoc(xs);
      assert x !in Members(init);
      ExitGoes(v, Members(init), x);
      hide Accepts, Effect, AcceptsEach, EffectAll, Members, NoDup;
      EachSnoc(v, ExitRemovals(init), ExitRemoveFromZone(x));
    }
  }

  lemma ActorGoes(v: View, xs: set<Id>, x: Id, d: Id)
    requires d in v.locations && x in v.actors
    ensures var w := v.(actors := ActorsAt(v, xs, d));
      Accepts(w, ActorAdminRelocate(x, d))
        && Effect(w, ActorAdminRelocate(x, d)) == v.(actors := ActorsAt(v, xs + {x}, d))
  {
    var w := ActorsAt(v, xs, d);
    assert w[x := w[x].(location := d)] == ActorsAt(v, xs + {x}, d);
  }

  lemma {:induction false} ActorsMoved(v: View, xs: seq<Id>, d: Id)
    requires d in v.locations && forall x :: x in xs ==> x in v.actors
    ensures AcceptsEach(v, ActorRelocations(xs, d))
    ensures EffectAll(v, ActorRelocations(xs, d)) == v.(actors := ActorsAt(v, Members(xs), d))
  {
    if xs == [] {
      assert ActorsAt(v, Members(xs), d) == v.actors;
    } else {
      var init, x := xs[..|xs| - 1], xs[|xs| - 1];
      ActorsMoved(v, init, d);
      MembersSnoc(xs);
      ActorGoes(v, Members(init), x, d);
      hide Accepts, Effect, AcceptsEach, EffectAll, Members, ActorsAt;
      EachSnoc(v, ActorRelocations(init, d), ActorAdminRelocate(x, d));
    }
  }

  lemma ObjectGoes(v: View, xs: set<Id>, x: Id, d: Id)
    requires d in v.locations && x in v.objects
    ensures var w, p := v.(objects := ObjectsAt(v, xs, d)), ObjectAdminRelocate(x, InLocation(d), "");
      Accepts(w, p) && Effect(w, p) == v.(objects := ObjectsAt(v, xs + {x}, d))
  {
    var w := ObjectsAt(v, xs, d);
    assert w[x := ObjectView(w[x].info, InLocation(d), None)] == ObjectsAt(v, xs + {x}, d);
  }

  lemma {:induction false} ObjectsMoved(v: View, xs: seq<Id>, d: Id)
    requires d in v.locations && forall x :: x in xs ==> x in v.objects
    ensures AcceptsEach(v, ObjectRelocations(xs, d))
    ensures EffectAll(v, ObjectRelocations(xs, d)) == v.(objects := ObjectsAt(v, Members(xs), d))
  {
    if xs == [] {
      assert ObjectsAt(v, Members(xs), d) == v.objects;
    } else {
      var init, x := xs[..|xs| - 1], xs[|xs| - 1];
      ObjectsMoved(v, init, d);
      MembersSnoc(xs);
      ObjectGoes(v, Members(init), x, d);
      hide Accepts, Effect, AcceptsEach, EffectAll, Members, ObjectsAt;
      EachSnoc(v, ObjectRelocations(init, d), ObjectAdminRelocate(x, InLocation(d), ""));
    }
  }

  /** The lists of what refers to the location l, each thing once. */
  ghost predicate Referring(v: View, l: Id, exits: seq<Id>, actors: seq<Id>, objects: seq<Id>)
  {
    && NoDup(exits)
    && (forall x :: x in exits <==> x in v.exits && (v.exits[x].source == l || v.exits[x].destination == Some(l)))
    && (forall a :: a in actors <==> a in v.actors && v.actors[a].location == l)
    && forall o :: o in objects <==> o in v.objects && v.objects[o].container == InLocation(l)
  }

  /** Where what is at l goes; when nothing is there it does not matter. */
  ghost predicate Somewhere(v: View, l: Id, actors: seq<Id>, objects: seq<Id>, d: Id)
  {
    (d in v.locations && d != l) || (actors == [] && objects == [])
  }

  /** Moving nothing needs no place to move it to. */
  lemma RelocationsRun(v: View, actors: seq<Id>, objects: seq<Id>, d: Id)
    requires d in v.locations || (actors == [] && objects == [])
    requires (forall a :: a in actors ==> a in v.actors) && forall o :: o in objects ==> o in v.objects
    ensures var ps := ActorRelocations(actors, d) + ObjectRelocations(objects, d);
      && AcceptsEach(v, ps)
      && EffectAll(v, ps) ==
         v.(actors := ActorsAt(v, Members(actors), d), objects := ObjectsAt(v, Members(objects), d))
  {
    var u := v.(actors := ActorsAt(v, Members(actors), d));
    if d in v.locations {
      ActorsMoved(v, actors, d);
      ObjectsMoved(u, objects, d);
    } else {
      assert u.actors == v.actors && ObjectsAt(u, Members(objects), d) == v.objects;
    }
    assert ObjectsAt(u, Members(objects), d) == ObjectsAt(v, Members(objects), d);
    hide Accepts, Effect, ActorsAt, ObjectsAt, Members;
    EachConcat(v, ActorRelocations(actors, d), ObjectRelocations(objects, d));
  }

  lemma ClearingRun(v: View, l: Id, exits: seq<Id>, actors: seq<Id>, objects: seq<Id>, d: Id)
    requires Referring(v, l, exits, actors, objects) && (d in v.locations || (actors == [] && objects == []))
    ensures AcceptsEach(v, ClearingPayloads(exits, actors, objects, d))
    ensures EffectAll(v, ClearingPayloads(exits, actors, objects, d)) ==
            Cleared(v, Members(exits), Members(actors), Members(objects), d)
  {
    var w := v.(exits := v.exits - Members(exits));
    var rest := ActorRelocations(actors, d) + ObjectRelocations(objects, d);
    assert ClearingPayloads(exits, actors, objects, d) == ExitRemovals(exits) + rest;
    hide Accepts, Effect, AcceptsEach, EffectAll, ActorsAt, ObjectsAt, Members, NoDup, ClearingPayloads;
    ExitsGone(v, exits);
    RelocationsRun(w, actors, objects, d);
    hide Referring, ActorRelocations, ObjectRelocations, ExitRemovals;
    EachConcat(v, ExitRemovals(exits), rest);
    SameWithoutExits(v, Members(exits), Members(actors), Members(objects), d);
  }

  lemma SameWithoutExits(v: View, exits: set<Id>, actors: set<Id>, objects: set<Id>, d: Id)
    ensures var w := v.(exits := v.exits - exits);
      w.(actors := ActorsAt(w, actors, d), objects := ObjectsAt(w, objects, d)) == Cleared(v, exits, actors, objects, d)
  {
    var w := v.(exits := v.exits - exits);
    assert ActorsAt(w, actors, d) == ActorsAt(v, actors, d);
    assert ObjectsAt(w, objects, d) == ObjectsAt(v, objects, d);
  }

  /** With the location itself as the place to go to, what is there is left nowhere. */
  lemma ClearedToItself(v: View, l: Id, exits: seq<Id>, actors: seq<Id>, objects: seq<Id>)
    requires Referring(v, l, exits, actors, objects) && (actors != [] || objects != [])
    ensures !Sound(Cleared(v, Members(exits), Members(actors), Members(objects), l).(locations := v.locations - {l}))
  {
    hide WithinLimits, Acyclic, ExitsPlaced, DirectionsUnique;
    var w := Cleared(v, Members(exits), Members(actors), Members(objects), l).(locations := v.locations - {l});
    if actors != [] {
      assert actors[0] in actors && w.actors[actors[0]].location == l;
    } else {
      assert objects[0] in objects && w.objects[objects[0]].container == InLocation(l);
    }
  }

  lemma ClearedUnreferenced(v: View, l: Id, exits: seq<Id>, actors: seq<Id>, objects: seq<Id>, d: Id)
    requires Referring(v, l, exits, actors, objects) && Somewhere(v, l, actors, objects, d)
    ensures Unreferenced(Cleared(v, Members(exits), Members(actors), Members(objects), d), l)
  {
    var w := Cleared(v, Members(exits), Members(actors), Members(objects), d);
    assert forall x :: x in w.exits ==> x !in exits;
    assert forall a :: a in w.actors ==> if a in actors then w.actors[a].location == d else w.actors[a].location != l;
    assert forall o :: o in w.objects ==>
      if o in objects then w.objects[o].container == InLocation(d) else w.objects[o].container != InLocation(l);
  }

  /**
   * All the events of a removal are accepted, and the zone stays consistent; but replaying only
   * the one that was persisted gives the same zone exactly when nothing referred to the location.
   */
  lemma LocationRemovalExactly(v: View, l: Id, exits: seq<Id>, actors: seq<Id>, objects: seq<Id>, d: Id)
    requires Consistent(v) && l in v.locations
    requires Referring(v, l, exits, actors, objects) && Somewhere(v, l, actors, objects, d)
    ensures var all := ClearingPayloads(exits, actors, objects, d) + [LocationRemoveFromZone(l)];
      && AcceptsEach(v, all) && Consistent(EffectAll(v, all))
      && EffectAll(v, all) ==
         Cleared(v, Members(exits), Members(actors), Members(objects), d).(locations := v.locations - {l})
      && (EffectAll(v, all) == Effect(v, LocationRemoveFromZone(l)) <==> exits == [] && actors == [] && objects == [])
  {
    var clearing, last := ClearingPayloads(exits, actors, objects, d), LocationRemoveFromZone(l);
    var w := Cleared(v, Members(exits), Members(actors), Members(objects), d);
    ClearingRun(v, l, exits, actors, objects, d);
    ClearedUnreferenced(v, l, exits, actors, objects, d);
    RemovalStep(v, w, l);
    ClearedNoOrphans(v, l, exits, actors, objects, d);
    ClearedExactly(v, l, exits, actors, objects, d);
    hide Accepts, Effect, Unreferenced, Referring, Sound, NoOrphans, Cleared;
    EachOne(w, last);
    EachConcat(v, clearing, [last]);
    EachKeepsSound(v, clearing + [last]);
  }

  lemma RemovalStep(v: View, w: View, l: Id)
    requires l in v.locations && w.locations == v.locations && Unreferenced(w, l)
    ensures var p := LocationRemoveFromZone(l);
      Accepts(w, p) && Effect(w, p) == w.(locations := v.locations - {l})
        && Effect(v, p) == v.(locations := v.locations - {l})
  {
  }

  lemma ClearedNoOrphans(v: View, l: Id, exits: seq<Id>, actors: seq<Id>, objects: seq<Id>, d: Id)
    requires NoOrphans(v) && Referring(v, l, exits, actors, objects) && Somewhere(v, l, actors, objects, d)
    ensures NoOrphans(Cleared(v, Members(exits), Members(actors), Members(objects), d).(locations := v.locations - {l}))
  {
    var w := Cleared(v, Members(exits), Members(actors), Members(objects), d).(locations := v.locations - {l});
    forall o | o in w.objects
      ensures Exists(w, w.objects[o].container)
    {
      assert Exists(v, v.objects[o].container);
    }
  }

  lemma ClearedExactly(v: View, l: Id, exits: seq<Id>, actors: seq<Id>, objects: seq<Id>, d: Id)
    requires Referring(v, l, exits, actors, objects) && Somewhere(v, l, actors, objects, d)
    ensures Cleared(v, Members(exits), Members(actors), Members(objects), d) == v <==>
            exits == [] && actors == [] && objects == []
  {
    var w := Cleared(v, Members(exits), Members(actors), Members(objects), d);
    if exits != [] {
      assert exits[0] in exits && exits[0] in v.exits && exits[0] !in w.exits;
    } else if actors != [] {
      assert actors[0] in actors && w.actors[actors[0]].location != v.actors[actors[0]].location;
    } else if objects != [] {
      assert objects[0] in objects && w.objects[objects[0]].container != v.objects[objects[0]].container;
    } else {
      assert w.exits == v.exits && w.actors == v.actors && w.objects == v.objects;
    }
  }
}
