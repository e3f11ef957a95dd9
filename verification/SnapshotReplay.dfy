/** Replaying a snapshot into an empty zone rebuilds the zone. */
module SnapshotReplay {
  import opened Wrappers
  import opened Bytes
  import opened ZoneViews
  import opened ZoneInvariant
  import opened EventSourcing
  import opened SnapshotOrder

  /** The name a container gives for the place of an object in it. */
  function SubcontainerOf(x: ObjectView): string
  {
    if x.place.Some? then LabelOf(x.place.value) else ANY
  }

  /** The event that recreates one entity. */
  function SnapshotPayload(v: View, n: Node): Payload
    requires InZone(v, n)
  {
    match n
    case LocationNode(l) => LocationAddToZone(l, v.locations[l])
    case ActorNode(a) => ActorAddToZone(a, v.actors[a].info, v.actors[a].location)
    case ExitNode(x) =>
      var e := v.exits[x];
      ExitAddToZone(x, e.desc, e.direction, e.source, e.otherZone,
                    if e.destination.Some? then e.destination.value else e.otherLocation)
    case ObjectNode(o) => ObjectAddToZone(o, v.objects[o].info, v.objects[o].container, SubcontainerOf(v.objects[o]))
  }

  /** Every event of a snapshot carries the same number. */
  function SnapshotEvents(v: View, ord: seq<Node>, seqNum: nat): (es: seq<Event>)
    requires forall n :: n in ord ==> InZone(v, n)
    ensures |es| == |ord|
  {
    if ord == [] then []
    else SnapshotEvents(v, ord[..|ord| - 1], seqNum) + [Event(seqNum, SnapshotPayload(v, ord[|ord| - 1]))]
  }

  /** ord lists everything in the zone once, dependencies first. */
  ghost predicate SnapshotOrdering(v: View, ord: seq<Node>)
  {
    Extends(DependenciesIn(v), {}, ord) && forall n :: n in ord <==> InZone(v, n)
  }

  /** The part of the zone that lies in s. */
  ghost function Part(v: View, s: set<Node>, seqNum: nat): View
  {
    View(
      map l | l in v.locations && LocationNode(l) in s :: v.locations[l],
      map a | a in v.actors && ActorNode(a) in s :: v.actors[a],
      map x | x in v.exits && ExitNode(x) in s :: v.exits[x],
      map o | o in v.objects && ObjectNode(o) in s :: v.objects[o],
      None,
      if s == {} then 0 else seqNum + 1)
  }

  /** s holds, with each node, all it depends on. */
  ghost predicate DependencyClosed(v: View, s: set<Node>)
  {
    forall n, d :: n in s && d in Dependencies(v, n) ==> d in s
  }

  lemma {:induction false} ExtendsClosed(v: View, ord: seq<Node>)
    requires Extends(DependenciesIn(v), {}, ord)
    ensures DependencyClosed(v, Elements(ord))
  {
    if ord != [] {
      ExtendsClosed(v, ord[..|ord| - 1]);
      assert Ask(DependenciesIn(v), ord[|ord| - 1]) == Dependencies(v, ord[|ord| - 1]);
      assert Elements(ord) == Elements(ord[..|ord| - 1]) + {ord[|ord| - 1]};
    }
  }

  /** A part of a place leaves room for the one thing that is missing from it. */
  lemma RoomInPart(v: View, s: set<Node>, seqNum: nat, o: Id)
    requires Consistent(v) && o in v.objects && ObjectNode(o) !in s && NodeOf(v.objects[o].container) in s
    ensures Room(Part(v, s, seqNum), o, v.objects[o].container, SubcontainerOf(v.objects[o]))
  {
    var w, x := Part(v, s, seqNum), v.objects[o];
    if x.container.InActor? {
      var a, p := x.container.id, x.place.value;
      assert o in At(v, a, p) && At(w, a, p) - {o} <= At(v, a, p) - {o};
      SubsetSize(At(w, a, p) - {o}, At(v, a, p) - {o});
    }
  }

  lemma NothingInsideMissing(v: View, s: set<Node>, seqNum: nat, c: Container)
    requires DependencyClosed(v, s) && NodeOf(c) !in s
    ensures Vacant(Part(v, s, seqNum), c)
  {
    var w := Part(v, s, seqNum);
    forall o | o in w.objects
      ensures w.objects[o].container != c
    {
      assert NodeOf(v.objects[o].container) in Dependencies(v, ObjectNode(o));
    }
  }

  lemma ExitAccepted(v: View, s: set<Node>, seqNum: nat, x: Id)
    requires ExitsPlaced(v) && DirectionsUnique(v) && x in v.exits && ExitNode(x) !in s
    requires forall d :: d in Dependencies(v, ExitNode(x)) ==> d in s
    ensures Accepts(Part(v, s, seqNum), SnapshotPayload(v, ExitNode(x)))
  {
    var w, e := Part(v, s, seqNum), v.exits[x];
    assert ExitPlaced(v, e);
    assert LocationNode(e.source) in Dependencies(v, ExitNode(x));
    assert e.destination.Some? ==> LocationNode(e.destination.value) in Dependencies(v, ExitNode(x));
    assert DirectionFree(w, x, e.source, e.direction);
  }

  lemma ObjectAccepted(v: View, s: set<Node>, seqNum: nat, o: Id)
    requires Consistent(v) && DependencyClosed(v, s) && o in v.objects && ObjectNode(o) !in s
    requires NodeOf(v.objects[o].container) in s
    ensures Accepts(Part(v, s, seqNum), SnapshotPayload(v, ObjectNode(o)))
  {
    hide Consistent, Room, DependencyClosed, Vacant;
    NothingInsideMissing(v, s, seqNum, InObject(o));
    RoomInPart(v, s, seqNum, o);
  }

  lemma ActorAccepted(v: View, s: set<Node>, seqNum: nat, a: Id)
    requires ActorsPlaced(v) && DependencyClosed(v, s) && a in v.actors && ActorNode(a) !in s
    requires LocationNode(v.actors[a].location) in s
    ensures Accepts(Part(v, s, seqNum), SnapshotPayload(v, ActorNode(a)))
  {
    hide DependencyClosed, Vacant;
    NothingInsideMissing(v, s, seqNum, InActor(a));
  }

  lemma SnapshotAccepted(v: View, s: set<Node>, seqNum: nat, n: Node)
    requires Consistent(v) && DependencyClosed(v, s) && InZone(v, n) && n !in s
    requires forall d :: d in Dependencies(v, n) ==> d in s
    ensures Accepts(Part(v, s, seqNum), SnapshotPayload(v, n))
  {
    match n
    case LocationNode(_) =>
    case ActorNode(a) =>
      hide Part, Accepts, DependencyClosed;
      assert LocationNode(v.actors[a].location) in Dependencies(v, n);
      ActorAccepted(v, s, seqNum, a);
    case ExitNode(x) =>
      hide Part, Accepts, DependencyClosed;
      ExitAccepted(v, s, seqNum, x);
    case ObjectNode(o) =>
      hide Part, Accepts, DependencyClosed, Consistent;
      assert NodeOf(v.objects[o].container) in Dependencies(v, n);
      ObjectAccepted(v, s, seqNum, o);
  }

  lemma ExitAdds(v: View, s: set<Node>, seqNum: nat, x: Id)
    requires ExitsPlaced(v) && x in v.exits
    ensures Apply(Part(v, s, seqNum), Event(seqNum, SnapshotPayload(v, ExitNode(x)))) ==
      Part(v, s + {ExitNode(x)}, seqNum)
  {
    assert ExitPlaced(v, v.exits[x]);
    assert ExitOf(SnapshotPayload(v, ExitNode(x))) == v.exits[x];
    PartWith(v, s, seqNum, ExitNode(x));
  }

  lemma ObjectAdds(v: View, s: set<Node>, seqNum: nat, o: Id)
    requires ObjectsPlaced(v) && o in v.objects
    ensures Apply(Part(v, s, seqNum), Event(seqNum, SnapshotPayload(v, ObjectNode(o)))) ==
      Part(v, s + {ObjectNode(o)}, seqNum)
  {
    assert PlaceIn(v.objects[o].container, SubcontainerOf(v.objects[o])) == v.objects[o].place;
    PartWith(v, s, seqNum, ObjectNode(o));
  }

  function Setting(v: View, n: Node): Change
    requires InZone(v, n)
  {
    match n
    case LocationNode(l) => SetLocation(l, v.locations[l])
    case ActorNode(a) => SetActor(a, v.actors[a])
    case ExitNode(x) => SetExit(x, v.exits[x])
    case ObjectNode(o) => SetObject(o, v.objects[o])
  }

  lemma PartWith(v: View, s: set<Node>, seqNum: nat, n: Node)
    requires InZone(v, n)
    ensures Changed(Part(v, s, seqNum), Setting(v, n)).(nextSequenceId := seqNum + 1) == Part(v, s + {n}, seqNum)
  {
    var w, t := Changed(Part(v, s, seqNum), Setting(v, n)), Part(v, s + {n}, seqNum);
    PartLocations(v, s, seqNum, n);
    PartActors(v, s, seqNum, n);
    PartExits(v, s, seqNum, n);
    PartObjects(v, s, seqNum, n);
    assert t.nextSequenceId == seqNum + 1 && t.defaultLocation == None == w.defaultLocation;
    hide Part, Changed, Setting;
  }

  lemma PartLocations(v: View, s: set<Node>, seqNum: nat, n: Node)
    requires InZone(v, n)
    ensures Part(v, s + {n}, seqNum).locations == Changed(Part(v, s, seqNum), Setting(v, n)).locations
  {
  }

  lemma PartActors(v: View, s: set<Node>, seqNum: nat, n: Node)
    requires InZone(v, n)
    ensures Part(v, s + {n}, seqNum).actors == Changed(Part(v, s, seqNum), Setting(v, n)).actors
  {
  }

  lemma PartExits(v: View, s: set<Node>, seqNum: nat, n: Node)
    requires InZone(v, n)
    ensures Part(v, s + {n}, seqNum).exits == Changed(Part(v, s, seqNum), Setting(v, n)).exits
  {
  }

  lemma PartObjects(v: View, s: set<Node>, seqNum: nat, n: Node)
    requires InZone(v, n)
    ensures Part(v, s + {n}, seqNum).objects == Changed(Part(v, s, seqNum), Setting(v, n)).objects
  {
  }

  lemma SnapshotAdds(v: View, s: set<Node>, seqNum: nat, n: Node)
    requires Consistent(v) && InZone(v, n)
    ensures Apply(Part(v, s, seqNum), Event(seqNum, SnapshotPayload(v, n))) == Part(v, s + {n}, seqNum)
  {
    hide Part, Acyclic, WithinLimits, DirectionsUnique;
    match n
    case LocationNode(l) => PartWith(v, s, seqNum, n);
    case ActorNode(a) => PartWith(v, s, seqNum, n);
    case ExitNode(x) => hide Apply; ExitAdds(v, s, seqNum, x);
    case ObjectNode(o) => hide Apply; ObjectAdds(v, s, seqNum, o);
  }

  lemma {:induction false} PrefixReplays(v: View, ord: seq<Node>, seqNum: nat)
    requires Consistent(v) && Extends(DependenciesIn(v), {}, ord) && forall n :: n in ord ==> InZone(v, n)
    ensures AcceptsAll(EMPTY, SnapshotEvents(v, ord, seqNum))
    ensures ApplyAll(EMPTY, SnapshotEvents(v, ord, seqNum)) == Part(v, Elements(ord), seqNum)
  {
    hide Consistent, Accepts, Apply, Part, SnapshotPayload;
    if ord == [] {
      NothingIsPart(v, seqNum);
    } else {
      var init, n := ord[..|ord| - 1], ord[|ord| - 1];
      PrefixReplays(v, init, seqNum);
      ExtendsClosed(v, init);
      assert Ask(DependenciesIn(v), n) == Dependencies(v, n);
      assert Elements(ord) == Elements(init) + {n};
      SnapshotAccepted(v, Elements(init), seqNum, n);
      SnapshotAdds(v, Elements(init), seqNum, n);
      SnocRun(EMPTY, SnapshotEvents(v, init, seqNum), Event(seqNum, SnapshotPayload(v, n)));
    }
  }

  lemma NothingIsPart(v: View, seqNum: nat)
    ensures Part(v, Elements([]), seqNum) == EMPTY
  {
  }

  /** The sequence counter after a snapshot: that of its events, if it has any. */
  function SnapshotCounter(v: View, seqNum: nat): nat
  {
    if v.locations == map[] && v.actors == map[] && v.exits == map[] && v.objects == map[] then 0 else seqNum + 1
  }

  /**
   * Snapshot identity: whatever order the walk produced, replaying the snapshot of a consistent
   * zone into an empty one never fails and rebuilds every location, actor, exit and object with
   * its container and place. Only the default location is lost; and the sequence counter, when
   * there was nothing to snapshot.
   */
  lemma SnapshotIdentity(v: View, ord: seq<Node>, seqNum: nat)
    requires Consistent(v) && SnapshotOrdering(v, ord)
    ensures AcceptsAll(EMPTY, SnapshotEvents(v, ord, seqNum))
    ensures ApplyAll(EMPTY, SnapshotEvents(v, ord, seqNum)) ==
            v.(defaultLocation := None, nextSequenceId := SnapshotCounter(v, seqNum))
  {
    PrefixReplays(v, ord, seqNum);
    WholePart(v, ord, seqNum);
  }

  lemma WholePart(v: View, ord: seq<Node>, seqNum: nat)
    requires forall n :: n in ord <==> InZone(v, n)
    ensures Part(v, Elements(ord), seqNum) == v.(defaultLocation := None, nextSequenceId := SnapshotCounter(v, seqNum))
  {
    var p := Part(v, Elements(ord), seqNum);
    assert forall l :: l in v.locations ==> InZone(v, LocationNode(l));
    assert forall a :: a in v.actors ==> InZone(v, ActorNode(a));
    assert forall x :: x in v.exits ==> InZone(v, ExitNode(x));
    assert forall o :: o in v.objects ==> InZone(v, ObjectNode(o));
    assert p.locations == v.locations && p.actors == v.actors && p.exits == v.exits && p.objects == v.objects;
    if Elements(ord) == {} {
      assert forall n :: !InZone(v, n);
    } else {
      var n :| n in Elements(ord);
      assert InZone(v, n);
    }
  }

  /** What the walk of module SnapshotOrder returns is such an order. */
  lemma WalkedOrder(v: View, ord: seq<Node>)
    requires Extends(DependenciesIn(v), {}, ord) && Elements(ord) == AllNodes(v)
    ensures SnapshotOrdering(v, ord)
  {
    forall n
      ensures n in ord <==> InZone(v, n)
    {
      assert n in ord <==> n in AllNodes(v);
    }
  }
}
