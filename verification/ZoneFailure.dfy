/**
 * Where the handlers check too little: for each guard they leave out, a run of commands from an
 * empty zone, every one checked and gone through, and then one more that its handler lets pass
 * and that fails or leaves the zone unsettled.
 */
module ZoneFailures {
  import opened Wrappers
  import opened Bytes
  import opened ZoneViews
  import opened ZoneInvariant
  import opened PayloadRuns
  import opened Inventories
  import opened ZoneStates
  import opened ZoneLinks
  import opened ZoneCommands
  import opened RemovalCommands
  import opened ObjectTrees
  import opened Commands

  // ---------- runs of checked commands ----------

  /** Every command passed its check, went through and left the zone settled. */
  ghost predicate CheckedRun(st: ZoneState, ps: seq<Payload>)
  {
    ps == [] ||
    var init, last := ps[..|ps| - 1], ps[|ps| - 1];
    && CheckedRun(st, init)
    && Checked(AfterRun(st, init), last) && GoesThrough(AfterRun(st, init), last)
  }

  ghost function AfterRun(st: ZoneState, ps: seq<Payload>): ZoneState
  {
    if ps == [] then st else Submitted(AfterRun(st, ps[..|ps| - 1]), ps[|ps| - 1]).0
  }

  /** The view, whatever the counter. */
  ghost function Seen(st: ZoneState): View
  {
    ViewOf(st).(nextSequenceId := 0)
  }

  /** The handlers' checks, as the view has it. */
  ghost predicate CheckedIn(v: View, p: Payload)
  {
    match p
    case ActorAddToZone(a, _, l) => l in v.locations && a !in v.actors
    case ActorMove(from, to, a) =>
      && from in v.locations && to in v.locations && a in v.actors
      && exists x :: x in v.exits && v.exits[x].source == from && v.exits[x].destination == Some(to)
    case ActorAdminRelocate(a, to) => a in v.actors && to in v.locations
    case ActorRemoveFromZone(a) => a in v.actors
    case ActorSpeak(a, _) => a in v.actors
    case LocationAddToZone(l, _) => l !in v.locations
    case LocationUpdate(l, _) => l in v.locations
    case ExitAddToZone(x, _, direction, source, destZone, destLocation) =>
      && x !in v.exits && source in v.locations && (destZone == NIL ==> destLocation in v.locations)
      && DirectionFree(v, x, source, direction)
    case ExitUpdate(x, _, _, source, destZone, destLocation) =>
      && x in v.exits && source in v.locations && destLocation != NIL
      && (destZone == NIL ==> destLocation in v.locations)
      && Leads(v.exits[x])
    case ExitRemoveFromZone(x) => x in v.exits
    case ObjectAddToZone(o, _, c, _) => o !in v.objects && Exists(v, c)
    case ObjectAdminRelocate(o, c, _) => o in v.objects && Exists(v, c)
    case ObjectRemoveFromZone(o) => o in v.objects
    case ZoneSetDefaultLocation(l) => l in v.locations
    case _ => false
  }

  /** They are the checks of what the zone looks like, for every kind of event. */
  lemma CheckedSeen(st: ZoneState, p: Payload)
    requires ExitsListed(st)
    ensures Checked(st, p) <==> CheckedIn(Seen(st), p)
  {
    hide NoDup, Leads, ViewOf, DirectionFree;
    ViewKeys(st);
    SeenSame(st);
    if p.ExitAddToZone? && p.source in st.locations && p.exit !in st.exits {
      ListedDirections(st, p.exit, p.source, p.direction);
    }
  }

  lemma SeenSame(st: ZoneState)
    ensures var v, w := Seen(st), ViewOf(st);
      && v.locations == w.locations && v.actors == w.actors && v.exits == w.exits && v.objects == w.objects
    ensures forall c :: Exists(Seen(st), c) <==> Exists(ViewOf(st), c)
    ensures forall x, source, direction ::
      DirectionFree(Seen(st), x, source, direction) <==> DirectionFree(ViewOf(st), x, source, direction)
  {
    hide ViewOf;
  }

  lemma UncheckedSeen(st: ZoneState, p: Payload)
    ensures Unchecked(Seen(st), p) <==> Unchecked(ViewOf(st), p)
  {
    hide ViewOf, Unchecked;
    assert Seen(st).(nextSequenceId := ViewOf(st).nextSequenceId) == ViewOf(st);
    if Unchecked(ViewOf(st), p) {
      UncheckedAside(ViewOf(st), p, 0);
    }
    if Unchecked(Seen(st), p) {
      UncheckedAside(Seen(st), p, ViewOf(st).nextSequenceId);
    }
  }

  lemma UncheckedAside(v: View, p: Payload, n: nat)
    requires Unchecked(v, p)
    ensures Unchecked(v.(nextSequenceId := n), p)
  {
    var w := v.(nextSequenceId := n);
    assert forall a, q :: At(w, a, q) == At(v, a, q);
    assert forall s :: Closed(v, s) ==> Closed(w, s);
  }

  /** What the handlers check and what they leave unchecked both hold at every step. */
  ghost predicate Reaches(v: View, ps: seq<Payload>)
  {
    ps == [] ||
    var init, last := ps[..|ps| - 1], ps[|ps| - 1];
    Reaches(v, init) && CheckedIn(EffectAll(v, init), last) && Unchecked(EffectAll(v, init), last)
  }

  lemma ReachesOneMore(v: View, ps: seq<Payload>, p: Payload)
    requires Reaches(v, ps) && CheckedIn(EffectAll(v, ps), p) && Unchecked(EffectAll(v, ps), p)
    ensures Reaches(v, ps + [p]) && EffectAll(v, ps + [p]) == Effect(EffectAll(v, ps), p)
  {
    hide CheckedIn, Unchecked, Effect;
    assert (ps + [p])[..|ps|] == ps;
  }

  lemma {:induction false} ReachedByChecked(st: ZoneState, ps: seq<Payload>)
    requires SettledState(st) && Reaches(Seen(st), ps)
    ensures CheckedRun(st, ps) && SettledState(AfterRun(st, ps)) && Seen(AfterRun(st, ps)) == EffectAll(Seen(st), ps)
  {
    hide SettledState, Seen, CheckedIn, Unchecked, Submitted, Checked, Effect;
    if ps != [] {
      var init, last := ps[..|ps| - 1], ps[|ps| - 1];
      ReachedByChecked(st, init);
      var t := AfterRun(st, init);
      StepSeen(t, last);
    }
  }

  lemma StepSeen(st: ZoneState, p: Payload)
    requires SettledState(st) && CheckedIn(Seen(st), p) && Unchecked(Seen(st), p)
    ensures Checked(st, p) && GoesThrough(st, p) && SettledState(Submitted(st, p).0)
    ensures Seen(Submitted(st, p).0) == Effect(Seen(st), p)
  {
    SettledMeans(st);
    hide Sound, NoOrphans, ActorsListed, ObjectsListed, ConstraintsKept, ExitsListed;
    hide SettledState, CheckedIn, Unchecked, Checked, Submitted, Effect, ViewOf;
    CheckedSeen(st, p);
    UncheckedSeen(st, p);
    CheckedExactly(st, p);
    EffectAside(ViewOf(st), p, 0);
  }

  /** The run goes through, its last zone is settled, and the next command passes but breaks it. */
  ghost predicate Breaks(ps: seq<Payload>, c: Command)
  {
    && CheckedRun(EMPTY_ZONE, ps)
    && var st := AfterRun(EMPTY_ZONE, ps);
       SettledState(st) && Passes(st, c) && !(Processed(st, c).1 && SettledState(Processed(st, c).0))
  }

  lemma EmptySettled()
    ensures SettledState(EMPTY_ZONE) && Seen(EMPTY_ZONE) == EMPTY
  {
    EmptyLinked();
    EmptyIsConsistent();
  }

  lemma CarryBreaks(ps: seq<Payload>, p: Payload)
    requires Reaches(EMPTY, ps) && CheckedIn(EffectAll(EMPTY, ps), p) && !Unchecked(EffectAll(EMPTY, ps), p)
    ensures Breaks(ps, Carry(p))
  {
    hide SettledState, CheckedRun, Reaches, CheckedIn, Unchecked, Checked, Processed, EffectAll, Seen;
    EmptySettled();
    ReachedByChecked(EMPTY_ZONE, ps);
    var st := AfterRun(EMPTY_ZONE, ps);
    SettledLists(st);
    CheckedSeen(st, p);
    UncheckedSeen(st, p);
    CommandExactly(st, Carry(p));
  }

  lemma SettledLists(st: ZoneState)
    requires SettledState(st)
    ensures ExitsListed(st)
  {
  }

  // ---------- zones to break ----------

  function OneLocation(l: Id, where: LocationInfo): seq<Payload>
  {
    [LocationAddToZone(l, where)]
  }

  lemma OneLocationReached(l: Id, where: LocationInfo)
    ensures Reaches(EMPTY, OneLocation(l, where))
    ensures EffectAll(EMPTY, OneLocation(l, where)) == EMPTY.(locations := map[l := where])
  {
    ReachesOneMore(EMPTY, [], LocationAddToZone(l, where));
    assert [] + [LocationAddToZone(l, where)] == [LocationAddToZone(l, where)];
  }

  /** A location, an object in it, and an object in that. */
  function Nested(l: Id, where: LocationInfo, o: Id, y: Id, thing: ObjectInfo): seq<Payload>
  {
    OneLocation(l, where) + [ObjectAddToZone(o, thing, InLocation(l), "")] +
      [ObjectAddToZone(y, thing, InObject(o), "")]
  }

  lemma NestedReached(l: Id, where: LocationInfo, o: Id, y: Id, thing: ObjectInfo)
    requires o != y
    ensures Reaches(EMPTY, Nested(l, where, o, y, thing))
    ensures EffectAll(EMPTY, Nested(l, where, o, y, thing)) ==
      EMPTY.(locations := map[l := where],
             objects := map[o := ObjectView(thing, InLocation(l), None), y := ObjectView(thing, InObject(o), None)])
  {
    var ps := OneLocation(l, where);
    var q, r := ObjectAddToZone(o, thing, InLocation(l), ""), ObjectAddToZone(y, thing, InObject(o), "");
    OneLocationReached(l, where);
    hide Reaches, EffectAll, OneLocation;
    ReachesOneMore(EMPTY, ps, q);
    ReachesOneMore(EMPTY, ps + [q], r);
  }

  /** An object can be removed with things in it, which are left in nothing. */
  lemma RemovingAFullObject(l: Id, where: LocationInfo, o: Id, y: Id, thing: ObjectInfo)
    requires o != y
    ensures Breaks(Nested(l, where, o, y, thing), Carry(ObjectRemoveFromZone(o)))
  {
    hide *;
    NestedReached(l, where, o, y, thing);
    StillFull(EffectAll(EMPTY, Nested(l, where, o, y, thing)), o, y);
    CarryBreaks(Nested(l, where, o, y, thing), ObjectRemoveFromZone(o));
  }

  lemma StillFull(v: View, o: Id, y: Id)
    requires o in v.objects && y in v.objects && v.objects[y].container == InObject(o)
    ensures CheckedIn(v, ObjectRemoveFromZone(o)) && !Unchecked(v, ObjectRemoveFromZone(o))
  {
  }

  /** An object can be put into what is in it. */
  lemma PuttingIntoItself(l: Id, where: LocationInfo, o: Id, y: Id, thing: ObjectInfo)
    requires o != y
    ensures Breaks(Nested(l, where, o, y, thing), Carry(ObjectAdminRelocate(o, InObject(y), "")))
  {
    hide *;
    NestedReached(l, where, o, y, thing);
    IntoItself(EffectAll(EMPTY, Nested(l, where, o, y, thing)), o, y);
    CarryBreaks(Nested(l, where, o, y, thing), ObjectAdminRelocate(o, InObject(y), ""));
  }

  lemma IntoItself(v: View, o: Id, y: Id)
    requires o in v.objects && y in v.objects && v.objects[y].container == InObject(o)
    ensures var p := ObjectAdminRelocate(o, InObject(y), ""); CheckedIn(v, p) && !Unchecked(v, p)
  {
    assert ChildOf(v, y, o);
    hide ChildOf;
    assert !NotInside(v, o, InObject(y));
  }

  /** A location with an actor in it. */
  function Housed(l: Id, where: LocationInfo, a: Id, who: ActorInfo): seq<Payload>
  {
    OneLocation(l, where) + [ActorAddToZone(a, who, l)]
  }

  lemma HousedReached(l: Id, where: LocationInfo, a: Id, who: ActorInfo)
    ensures Reaches(EMPTY, Housed(l, where, a, who))
    ensures EffectAll(EMPTY, Housed(l, where, a, who)) ==
      EMPTY.(locations := map[l := where], actors := map[a := ActorView(who, l)])
  {
    OneLocationReached(l, where);
    hide Reaches, EffectAll, OneLocation;
    ReachesOneMore(EMPTY, OneLocation(l, where), ActorAddToZone(a, who, l));
  }

  /** One object after the other is given to the actor. */
  function Filling(a: Id, ys: seq<Id>, thing: ObjectInfo): seq<Payload>
  {
    if ys == [] then []
    else Filling(a, ys[..|ys| - 1], thing) + [ObjectAddToZone(ys[|ys| - 1], thing, InActor(a), ANY)]
  }

  function InHands(a: Id, ys: seq<Id>, thing: ObjectInfo): map<Id, ObjectView>
  {
    map y | y in ys :: ObjectView(thing, InActor(a), Some(Hands))
  }

  /** A location with an actor in it who has the objects in hand. */
  ghost function Holding(l: Id, where: LocationInfo, a: Id, who: ActorInfo, ys: seq<Id>, thing: ObjectInfo): View
  {
    EMPTY.(locations := map[l := where], actors := map[a := ActorView(who, l)], objects := InHands(a, ys, thing))
  }

  /** As many different objects as the hands can hold. */
  ghost predicate JustFull(who: ActorInfo, ys: seq<Id>)
  {
    && NoDup(ys) && |ys| == (if who.constraints.handMaxItems > 0 then who.constraints.handMaxItems else 0)
    && (ys != [] ==> 0 <= who.constraints.handSlots)
  }

  /** The objects are what the actor has, and it has them in its hands. */
  ghost predicate HandsAre(v: View, a: Id, ys: seq<Id>)
  {
    && (forall y :: y in v.objects && v.objects[y].container == InActor(a) <==> y in ys)
    && forall y :: y in ys ==> v.objects[y].place == Some(Hands)
  }

  lemma HoldingHands(l: Id, where: LocationInfo, a: Id, who: ActorInfo, ys: seq<Id>, o: Id, thing: ObjectInfo)
    requires o !in ys
    ensures var v := Holding(l, where, a, who, ys, thing);
      HandsAre(v, a, ys) && HandsAre(v.(objects := v.objects[o := ObjectView(thing, InLocation(l), None)]), a, ys)
  {
  }

  /** What more there is in hands when so many objects are. */
  lemma HandsHold(v: View, a: Id, ys: seq<Id>, o: Id)
    requires a in v.actors && NoDup(ys) && o !in ys && HandsAre(v, a, ys)
    requires 0 <= v.actors[a].info.constraints.handSlots || v.actors[a].info.constraints.handMaxItems <= |ys|
    ensures RoomAt(v, o, a, Hands) <==> |ys| < v.actors[a].info.constraints.handMaxItems
  {
    assert forall y :: y in ys <==> y in At(v, a, Hands);
    hide NoDup;
    NoDupSize(ys, At(v, a, Hands));
    assert At(v, a, Hands) - {o} == At(v, a, Hands);
  }

  lemma {:induction false} HoldingReached(
    l: Id, where: LocationInfo, a: Id, who: ActorInfo, ys: seq<Id>, thing: ObjectInfo)
    requires NoDup(ys) && (ys != [] ==> |ys| <= who.constraints.handMaxItems && 0 <= who.constraints.handSlots)
    ensures Reaches(EMPTY, Housed(l, where, a, who) + Filling(a, ys, thing))
    ensures EffectAll(EMPTY, Housed(l, where, a, who) + Filling(a, ys, thing)) == Holding(l, where, a, who, ys, thing)
  {
    if ys == [] {
      HousedReached(l, where, a, who);
      hide Reaches, EffectAll, Housed, Breaks;
      assert Housed(l, where, a, who) + [] == Housed(l, where, a, who);
      assert InHands(a, [], thing) == map[];
    } else {
      var init, y := ys[..|ys| - 1], ys[|ys| - 1];
      var p := ObjectAddToZone(y, thing, InActor(a), ANY);
      assert y !in init && NoDup(init) && ys == init + [y];
      hide Reaches, EffectAll, Housed, Holding, CheckedIn, Unchecked, Effect, NoDup;
      HoldingReached(l, where, a, who, init, thing);
      OneMoreHeld(l, where, a, who, init, y, thing);
      ReachesOneMore(EMPTY, Housed(l, where, a, who) + Filling(a, init, thing), p);
      assert Housed(l, where, a, who) + Filling(a, ys, thing) ==
             Housed(l, where, a, who) + Filling(a, init, thing) + [p];
    }
  }

  lemma OneMoreHeld(l: Id, where: LocationInfo, a: Id, who: ActorInfo, ys: seq<Id>, y: Id, thing: ObjectInfo)
    requires NoDup(ys) && y !in ys && |ys| < who.constraints.handMaxItems && 0 <= who.constraints.handSlots
    ensures var v, p := Holding(l, where, a, who, ys, thing), ObjectAddToZone(y, thing, InActor(a), ANY);
      CheckedIn(v, p) && Unchecked(v, p) && Effect(v, p) == Holding(l, where, a, who, ys + [y], thing)
  {
    HoldingHands(l, where, a, who, ys, y, thing);
    InHandsSnoc(a, ys, y, thing);
    assert y !in InHands(a, ys, thing);
    hide RoomAt, NoDup, InHands, HandsAre;
    HandsHold(Holding(l, where, a, who, ys, thing), a, ys, y);
  }

  lemma InHandsSnoc(a: Id, ys: seq<Id>, y: Id, thing: ObjectInfo)
    ensures InHands(a, ys + [y], thing) == InHands(a, ys, thing)[y := ObjectView(thing, InActor(a), Some(Hands))]
  {
  }

  /** An actor with hands just full, and one more object at the same location. */
  function OneTooMany(l: Id, where: LocationInfo, a: Id, who: ActorInfo, ys: seq<Id>, o: Id, thing: ObjectInfo)
    : seq<Payload>
  {
    Housed(l, where, a, who) + Filling(a, ys, thing) + [ObjectAddToZone(o, thing, InLocation(l), "")]
  }

  lemma OneTooManyReached(l: Id, where: LocationInfo, a: Id, who: ActorInfo, ys: seq<Id>, o: Id, thing: ObjectInfo)
    requires JustFull(who, ys) && o !in ys
    ensures var ps, v := OneTooMany(l, where, a, who, ys, o, thing), Holding(l, where, a, who, ys, thing);
      Reaches(EMPTY, ps)
        && EffectAll(EMPTY, ps) == v.(objects := v.objects[o := ObjectView(thing, InLocation(l), None)])
  {
    var p := ObjectAddToZone(o, thing, InLocation(l), "");
    HoldingReached(l, where, a, who, ys, thing);
    hide Reaches, EffectAll, Housed, NoDup;
    ReachesOneMore(EMPTY, Housed(l, where, a, who) + Filling(a, ys, thing), p);
  }

  /** The hands are full, and o lies by itself where their owner stands. */
  ghost predicate HandsFull(v: View, l: Id, a: Id, o: Id)
  {
    && l in v.locations && a in v.actors && v.actors[a].location == l && OnlyThere(v, l, o)
    && !RoomAt(v, o, a, Hands)
  }

  /** The object lies there, and nothing else does. */
  ghost predicate OnlyThere(v: View, l: Id, o: Id)
  {
    forall x :: x in v.objects && v.objects[x].container == InLocation(l) <==> x == o
  }

  lemma OneTooManyIsFull(l: Id, where: LocationInfo, a: Id, who: ActorInfo, ys: seq<Id>, o: Id, thing: ObjectInfo)
    requires JustFull(who, ys) && o !in ys
    ensures var v := Holding(l, where, a, who, ys, thing);
      HandsFull(v.(objects := v.objects[o := ObjectView(thing, InLocation(l), None)]), l, a, o)
  {
    var v := Holding(l, where, a, who, ys, thing);
    HoldingHands(l, where, a, who, ys, o, thing);
    hide RoomAt, NoDup, HandsAre;
    HandsHold(v.(objects := v.objects[o := ObjectView(thing, InLocation(l), None)]), a, ys, o);
  }

  lemma RelocationSeen(v: View, l: Id, a: Id, o: Id)
    requires HandsFull(v, l, a, o)
    ensures CheckedIn(v, ObjectAdminRelocate(o, InActor(a), ANY))
    ensures !Unchecked(v, ObjectAdminRelocate(o, InActor(a), ANY))
  {
    hide RoomAt;
  }

  /** An object can be sent to hands that are full: it then lies nowhere, still naming where it lay. */
  lemma SendingToFullHands(l: Id, where: LocationInfo, a: Id, who: ActorInfo, ys: seq<Id>, o: Id, thing: ObjectInfo)
    requires JustFull(who, ys) && o !in ys
    ensures Breaks(OneTooMany(l, where, a, who, ys, o, thing), Carry(ObjectAdminRelocate(o, InActor(a), ANY)))
  {
    hide *;
    OneTooManyReached(l, where, a, who, ys, o, thing);
    OneTooManyIsFull(l, where, a, who, ys, o, thing);
    var ps := OneTooMany(l, where, a, who, ys, o, thing);
    RelocationSeen(EffectAll(EMPTY, ps), l, a, o);
    CarryBreaks(ps, ObjectAdminRelocate(o, InActor(a), ANY));
  }

  /** And so when the actor picks it up: it is the room of the location that is looked at. */
  lemma PickingUpWithFullHands(l: Id, where: LocationInfo, a: Id, who: ActorInfo, ys: seq<Id>, o: Id, thing: ObjectInfo)
    requires JustFull(who, ys) && o !in ys
    ensures Breaks(OneTooMany(l, where, a, who, ys, o, thing), Give(o, Some(a), InLocation(l), InActor(a)))
  {
    hide *;
    OneTooManyReached(l, where, a, who, ys, o, thing);
    OneTooManyIsFull(l, where, a, who, ys, o, thing);
    PickingUpBreaks(OneTooMany(l, where, a, who, ys, o, thing), l, a, o);
  }

  lemma PickingUpBreaks(ps: seq<Payload>, l: Id, a: Id, o: Id)
    requires Reaches(EMPTY, ps) && HandsFull(EffectAll(EMPTY, ps), l, a, o)
    ensures Breaks(ps, Give(o, Some(a), InLocation(l), InActor(a)))
  {
    hide Reaches, EffectAll, SettledState, CheckedRun, Processed, RoomAt, MoveChecked, OnlyThere, Seen;
    EmptySettled();
    ReachedByChecked(EMPTY_ZONE, ps);
    var st := AfterRun(EMPTY_ZONE, ps);
    OneThingThere(st, l, a, o);
    CommandExactly(st, Give(o, Some(a), InLocation(l), InActor(a)));
    NoRoomSeen(st, o, a);
  }

  lemma NoRoomSeen(st: ZoneState, o: Id, a: Id)
    requires a in Seen(st).actors && !RoomAt(Seen(st), o, a, Hands)
    ensures a in ViewOf(st).actors && !RoomAt(ViewOf(st), o, a, Hands)
  {
    SeenSame(st);
    hide ViewOf, Seen;
    assert At(Seen(st), a, Hands) == At(ViewOf(st), a, Hands);
  }

  lemma OneThingThere(st: ZoneState, l: Id, a: Id, o: Id)
    requires SettledState(st) && l in Seen(st).locations && a in Seen(st).actors && Seen(st).actors[a].location == l
    requires OnlyThere(Seen(st), l, o)
    ensures MoveChecked(st, o, Some(a), InLocation(l), InActor(a))
  {
    assert o in Seen(st).objects;
    hide *;
    ViewKeys(st);
    SeenSame(st);
    ViewLocation(st, a);
    ListedAlone(st, l, o);
    PickUpChecked(st, l, a, o);
  }

  lemma PickUpChecked(st: ZoneState, l: Id, a: Id, o: Id)
    requires l in st.locations && a in st.actors && st.actors[a].location == l && o in st.objects
    requires |Contents(st, InLocation(l))| == 1 && o in Contents(st, InLocation(l))
    ensures MoveChecked(st, o, Some(a), InLocation(l), InActor(a))
  {
    hide Inv.Objects;
  }

  lemma ListedAlone(st: ZoneState, l: Id, o: Id)
    requires SettledState(st) && l in st.locations && OnlyThere(Seen(st), l, o)
    ensures |Contents(st, InLocation(l))| == 1 && o in Contents(st, InLocation(l))
  {
    SettledLinked(st);
    ViewKeys(st);
    SeenSame(st);
    assert Lists(st, InLocation(l));
    var list := Contents(st, InLocation(l));
    forall x
      ensures x in list <==> x in {o}
    {
      ContentsInside(st, InLocation(l), x);
    }
    hide *;
    NoDupSize(list, {o});
  }

  /** A location and an actor there who holds an object. */
  function Burdened(l: Id, where: LocationInfo, a: Id, who: ActorInfo, o: Id, thing: ObjectInfo): seq<Payload>
  {
    Housed(l, where, a, who) + [ObjectAddToZone(o, thing, InActor(a), ANY)]
  }

  /** An actor can be removed with things in hand, which are left with nobody. */
  lemma RemovingABurdenedActor(l: Id, where: LocationInfo, a: Id, who: ActorInfo, o: Id, thing: ObjectInfo)
    requires 0 < who.constraints.handMaxItems && 0 <= who.constraints.handSlots
    ensures Breaks(Burdened(l, where, a, who, o, thing), Carry(ActorRemoveFromZone(a)))
  {
    var ps, p := Housed(l, where, a, who), ObjectAddToZone(o, thing, InActor(a), ANY);
    HousedReached(l, where, a, who);
    HandsAreEmpty(EffectAll(EMPTY, ps), o, a);
    hide Reaches, EffectAll, Housed, Room;
    ReachesOneMore(EMPTY, ps, p);
    var v := EffectAll(EMPTY, ps + [p]);
    assert o in v.objects && v.objects[o].container == InActor(a);
    CarryBreaks(ps + [p], ActorRemoveFromZone(a));
  }

  lemma HandsAreEmpty(v: View, o: Id, a: Id)
    requires v.objects == map[] && a in v.actors
    requires 0 < v.actors[a].info.constraints.handMaxItems && 0 <= v.actors[a].info.constraints.handSlots
    ensures Room(v, o, InActor(a), ANY)
  {
    assert At(v, a, Hands) - {o} == {};
  }

  /** Two locations and an exit from one to the other. */
  function Joined(l: Id, m: Id, where: LocationInfo, x: Id, desc: string, direction: string): seq<Payload>
  {
    OneLocation(l, where) + [LocationAddToZone(m, where)] + [ExitAddToZone(x, desc, direction, l, NIL, m)]
  }

  lemma JoinedReached(l: Id, m: Id, where: LocationInfo, x: Id, desc: string, direction: string)
    requires l != m
    ensures Reaches(EMPTY, Joined(l, m, where, x, desc, direction))
    ensures EffectAll(EMPTY, Joined(l, m, where, x, desc, direction)) ==
      EMPTY.(locations := map[l := where, m := where],
             exits := map[x := ExitInfo(desc, direction, l, Some(m), NIL, NIL)])
  {
    var ps, q, r := OneLocation(l, where), LocationAddToZone(m, where), ExitAddToZone(x, desc, direction, l, NIL, m);
    OneLocationReached(l, where);
    hide Reaches, EffectAll, OneLocation;
    ReachesOneMore(EMPTY, ps, q);
    ReachesOneMore(EMPTY, ps + [q], r);
  }

  /** An exit can be updated to lead to a location of its own zone, and then leads nowhere. */
  lemma UpdatingAnExitWithin(l: Id, m: Id, where: LocationInfo, x: Id, desc: string, direction: string)
    requires l != m && m != NIL
    ensures Breaks(Joined(l, m, where, x, desc, direction), Carry(ExitUpdate(x, desc, direction, l, NIL, m)))
  {
    JoinedReached(l, m, where, x, desc, direction);
    hide Reaches, EffectAll, Joined, Breaks, Vacant, Room, NotInside;
    CarryBreaks(Joined(l, m, where, x, desc, direction), ExitUpdate(x, desc, direction, l, NIL, m));
  }

  /** And an actor in a third location. */
  lemma ElsewhereReached(l: Id, m: Id, k: Id, where: LocationInfo, x: Id, desc: string, direction: string, a: Id,
      who: ActorInfo)
    requires l != m && k != l && k != m
    ensures var ps := Joined(l, m, where, x, desc, direction) + [LocationAddToZone(k, where)] +
        [ActorAddToZone(a, who, k)];
      && Reaches(EMPTY, ps) && EffectAll(EMPTY, ps).actors == map[a := ActorView(who, k)]
      && EffectAll(EMPTY, ps).locations == map[l := where, m := where, k := where]
      && EffectAll(EMPTY, ps).exits == map[x := ExitInfo(desc, direction, l, Some(m), NIL, NIL)]
  {
    JoinedReached(l, m, where, x, desc, direction);
    hide Reaches, EffectAll, Joined;
    var ps, p := Joined(l, m, where, x, desc, direction), LocationAddToZone(k, where);
    ReachesOneMore(EMPTY, ps, p);
    ReachesOneMore(EMPTY, ps + [p], ActorAddToZone(a, who, k));
  }

  lemma AlongAnExit(v: View, l: Id, m: Id, x: Id, a: Id)
    requires l in v.locations && m in v.locations && a in v.actors
    requires v.actors[a].location != l && v.actors[a].location != m
    requires x in v.exits && v.exits[x].source == l && v.exits[x].destination == Some(m)
    ensures CheckedIn(v, ActorMove(l, m, a)) && !Unchecked(v, ActorMove(l, m, a))
  {
  }

  /** An actor can be moved from a location where it is not, and is then listed twice. */
  lemma MovingFromElsewhere(l: Id, m: Id, k: Id, where: LocationInfo, x: Id, desc: string, direction: string, a: Id,
      who: ActorInfo)
    requires l != m && k != l && k != m
    ensures Breaks(Joined(l, m, where, x, desc, direction) + [LocationAddToZone(k, where)] +
      [ActorAddToZone(a, who, k)],
                   Carry(ActorMove(l, m, a)))
  {
    hide *;
    var ps := Joined(l, m, where, x, desc, direction) + [LocationAddToZone(k, where)] + [ActorAddToZone(a, who, k)];
    ElsewhereReached(l, m, k, where, x, desc, direction, a, who);
    AlongAnExit(EffectAll(EMPTY, ps), l, m, x, a);
    CarryBreaks(ps, ActorMove(l, m, a));
  }

  /** And one more exit, from either of them. */
  lemma OneMoreExit(l: Id, m: Id, where: LocationInfo, x: Id, desc: string, direction: string, y: Id, other: string,
      source: Id, to: Id)
    requires l != m && x != y && source in {l, m} && to in {l, m} && (source == l ==> other != direction)
    ensures var ps := Joined(l, m, where, x, desc, direction) + [ExitAddToZone(y, desc, other, source, NIL, to)];
      && Reaches(EMPTY, ps) && EffectAll(EMPTY, ps).locations == map[l := where, m := where]
      && EffectAll(EMPTY, ps).exits == map[x := ExitInfo(desc, direction, l, Some(m), NIL, NIL),
                                           y := ExitInfo(desc, other, source, Some(to), NIL, NIL)]
  {
    JoinedReached(l, m, where, x, desc, direction);
    hide Reaches, EffectAll, Joined;
    ReachesOneMore(EMPTY, Joined(l, m, where, x, desc, direction), ExitAddToZone(y, desc, other, source, NIL, to));
  }

  /** The update of y passes, but at its new source x has the new direction, or the old one of y. */
  lemma InTheWay(v: View, x: Id, y: Id, desc: string, direction: string, source: Id, zone: Id, to: Id)
    requires x in v.exits && y in v.exits && x != y && source in v.locations && to != NIL && zone != NIL
    requires v.exits[y].otherZone == NIL && v.exits[y].otherLocation == NIL && v.exits[y].destination.Some?
    requires v.exits[x].source == source
    requires v.exits[x].direction == direction
      || (v.exits[y].source != source && v.exits[x].direction == v.exits[y].direction)
    ensures var p := ExitUpdate(y, desc, direction, source, zone, to); CheckedIn(v, p) && !Unchecked(v, p)
  {
  }

  /** An exit can be updated to a direction that another exit of its location has. */
  lemma UpdatingToATakenDirection(
    l: Id, m: Id, where: LocationInfo, x: Id, y: Id, desc: string, direction: string, other: string, zone: Id)
    requires l != m && x != y && direction != other && zone != NIL && m != NIL
    ensures Breaks(Joined(l, m, where, x, desc, direction) + [ExitAddToZone(y, desc, other, l, NIL, m)],
                   Carry(ExitUpdate(y, desc, direction, l, zone, m)))
  {
    hide *;
    var ps := Joined(l, m, where, x, desc, direction) + [ExitAddToZone(y, desc, other, l, NIL, m)];
    OneMoreExit(l, m, where, x, desc, direction, y, other, l, m);
    InTheWay(EffectAll(EMPTY, ps), x, y, desc, direction, l, zone, m);
    CarryBreaks(ps, ExitUpdate(y, desc, direction, l, zone, m));
  }

  /** An update that takes an exit to a location where its old direction is taken is refused half-done. */
  lemma UpdatingToATakenSource(
    l: Id, m: Id, where: LocationInfo, x: Id, y: Id, desc: string, direction: string, other: string, zone: Id)
    requires l != m && x != y && zone != NIL && m != NIL
    ensures Breaks(Joined(l, m, where, x, desc, direction) + [ExitAddToZone(y, desc, direction, m, NIL, l)],
                   Carry(ExitUpdate(y, desc, other, l, zone, m)))
  {
    hide *;
    var ps := Joined(l, m, where, x, desc, direction) + [ExitAddToZone(y, desc, direction, m, NIL, l)];
    OneMoreExit(l, m, where, x, desc, direction, y, direction, m, l);
    InTheWay(EffectAll(EMPTY, ps), x, y, desc, other, l, zone, m);
    CarryBreaks(ps, ExitUpdate(y, desc, other, l, zone, m));
  }

  // ---------- removals ----------

  lemma DemolishBreaks(ps: seq<Payload>, l: Id, toHere: seq<Id>)
    requires Reaches(EMPTY, ps)
    requires var st := AfterRun(EMPTY_ZONE, ps);
      SettledState(st) ==> RemovalChecked(st, l) && LeadingTo(st, l, toHere) && !Removable(st, l)
    ensures Breaks(ps, Demolish(l, toHere))
  {
    hide SettledState, CheckedRun, Reaches, RemovalChecked, LeadingTo, Removable, Processed, Seen;
    EmptySettled();
    ReachedByChecked(EMPTY_ZONE, ps);
    CommandExactly(AfterRun(EMPTY_ZONE, ps), Demolish(l, toHere));
  }

  /** A location with an exit to itself cannot be removed: its exit is gone, and then the removal fails. */
  lemma RemovingALoop(l: Id, where: LocationInfo, x: Id, desc: string, direction: string)
    ensures Breaks(OneLocation(l, where) + [ExitAddToZone(x, desc, direction, l, NIL, l)], Demolish(l, [x]))
  {
    var ps, q := OneLocation(l, where), ExitAddToZone(x, desc, direction, l, NIL, l);
    OneLocationReached(l, where);
    hide Reaches, EffectAll, Seen, SettledState, OneLocation;
    ReachesOneMore(EMPTY, ps, q);
    var v := EffectAll(EMPTY, ps + [q]);
    assert v.exits == map[x := ExitInfo(desc, direction, l, Some(l), NIL, NIL)] && v.locations == map[l := where];
    assert v.actors == map[] && v.objects == map[];
    hide Effect, CheckedIn, Unchecked;
    EmptySettled();
    ReachedByChecked(EMPTY_ZONE, ps + [q]);
    LoopSeen(AfterRun(EMPTY_ZONE, ps + [q]), l, x);
    DemolishBreaks(ps + [q], l, [x]);
  }

  lemma LoopSeen(st: ZoneState, l: Id, x: Id)
    requires SettledState(st) && Seen(st).exits.Keys == {x} && Seen(st).exits[x].source == l
    requires Seen(st).exits[x].destination == Some(l)
    requires l in Seen(st).locations && Seen(st).actors == map[] && Seen(st).objects == map[]
    ensures RemovalChecked(st, l) && LeadingTo(st, l, [x]) && !Removable(st, l)
  {
    ViewKeys(st);
    SeenSame(st);
    hide ViewOf;
    EmptyThere(st, l);
  }

  lemma EmptyThere(st: ZoneState, l: Id)
    requires SettledState(st) && l in st.locations && st.actors.Keys == {} && st.objects.Keys == {}
    ensures NothingAt(st, l)
  {
    assert Lists(st, InLocation(l)) && Contents(st, InLocation(l)) == st.locations[l].objects;
    HasMember(st.locations[l].actors);
    HasMember(st.locations[l].objects);
    hide NoDup;
  }

  /** The default location can be removed, and its actors are relocated to where they are. */
  lemma RemovingTheDefault(l: Id, where: LocationInfo, a: Id, who: ActorInfo)
    ensures Breaks(Housed(l, where, a, who) + [ZoneSetDefaultLocation(l)], Demolish(l, []))
  {
    var ps, r := Housed(l, where, a, who), ZoneSetDefaultLocation(l);
    HousedReached(l, where, a, who);
    hide Reaches, EffectAll, Seen, SettledState, Housed;
    ReachesOneMore(EMPTY, ps, r);
    var v := EffectAll(EMPTY, ps + [r]);
    assert v.actors[a].location == l && l in v.locations && v.exits == map[] && v.defaultLocation == Some(l);
    hide Effect, CheckedIn, Unchecked;
    EmptySettled();
    ReachedByChecked(EMPTY_ZONE, ps + [r]);
    DefaultSeen(AfterRun(EMPTY_ZONE, ps + [r]), l, a);
    DemolishBreaks(ps + [r], l, []);
  }

  lemma DefaultSeen(st: ZoneState, l: Id, a: Id)
    requires SettledState(st) && Seen(st).exits == map[] && Seen(st).defaultLocation == Some(l)
    requires l in Seen(st).locations
    requires a in Seen(st).actors && Seen(st).actors[a].location == l
    ensures RemovalChecked(st, l) && LeadingTo(st, l, []) && !Removable(st, l)
  {
    ViewKeys(st);
    SeenSame(st);
    ViewLocation(st, a);
    assert st.defaultLocation == Some(l);
    assert ActorsListed(st) by { SettledLinked(st); }
    hide NoDup, ViewOf, SettledState;
    assert a in st.locations[l].actors;
  }
}
