/**
 * The command that removes a location: what it clears away first, exactly when that works out, and
 * exactly when it leaves the zone as it was if it does not.
 */
module RemovalCommands {
  import opened Wrappers
  import opened Bytes
  import opened ZoneViews
  import opened ZoneInvariant
  import opened PayloadRuns
  import opened Inventories
  import opened ZoneStates
  import opened ZoneLinks
  import opened ZoneApplied
  import opened ZoneReplays
  import opened ZoneCommands
  import opened LocationRemovals

  // ---------- the commands it is made of ----------

  predicate IsClearing(p: Payload)
  {
    p.ExitRemoveFromZone? || p.ActorAdminRelocate? || p.ObjectAdminRelocate?
  }

  /** Commands within a command: each checked, then submitted, up to the first that fails. */
  function Subcommands(st: ZoneState, ps: seq<Payload>): (ZoneState, bool)
    decreases |ps|
  {
    if ps == [] then (st, true)
    else if !Checked(st, ps[0]) then (st, false)
    else
      var (t, r) := Submitted(st, ps[0]);
      if r == Done then Subcommands(t, ps[1..]) else (t, false)
  }

  /** For these the check of the command is the check of the event. */
  lemma ClearingChecked(st: ZoneState, p: Payload)
    requires IsClearing(p) && !Checked(st, p)
    ensures Submitted(st, p).1 != Done
  {
  }

  lemma {:induction false} SubcommandsSubmitted(st: ZoneState, ps: seq<Payload>)
    requires forall p :: p in ps ==> IsClearing(p)
    ensures Subcommands(st, ps).1 <==> SubmittedAll(st, ps).1 == Done
    ensures Subcommands(st, ps).1 ==> Subcommands(st, ps).0 == SubmittedAll(st, ps).0
    decreases |ps|
  {
    hide Submitted, Checked, IsClearing;
    if ps != [] {
      if !Checked(st, ps[0]) {
        ClearingChecked(st, ps[0]);
      } else {
        SubcommandsSubmitted(Submitted(st, ps[0]).0, ps[1..]);
      }
    }
  }

  lemma {:induction false} ExitsClear(xs: seq<Id>)
    ensures forall p :: p in ExitRemovals(xs) ==> p.ExitRemoveFromZone?
  {
    if xs != [] {
      ExitsClear(xs[..|xs| - 1]);
    }
  }

  lemma {:induction false} ActorsClear(xs: seq<Id>, d: Id)
    ensures forall p :: p in ActorRelocations(xs, d) ==> p.ActorAdminRelocate? && p.to == d
  {
    if xs != [] {
      ActorsClear(xs[..|xs| - 1], d);
    }
  }

  lemma {:induction false} ObjectsClear(xs: seq<Id>, d: Id)
    ensures forall p :: p in ObjectRelocations(xs, d) ==> p.ObjectAdminRelocate? && p.container == InLocation(d)
  {
    if xs != [] {
      ObjectsClear(xs[..|xs| - 1], d);
    }
  }

  // ---------- what is cleared away ----------

  predicate NothingAt(st: ZoneState, l: Id)
    requires l in st.locations
  {
    st.locations[l].actors == [] && st.locations[l].objects == []
  }

  /** The handler's checks. */
  predicate RemovalChecked(st: ZoneState, l: Id)
  {
    l in st.locations && (st.defaultLocation.Some? || NothingAt(st, l))
  }

  function DefaultOf(st: ZoneState): Id
  {
    if st.defaultLocation.Some? then st.defaultLocation.value else NIL
  }

  /** toHere are the exits that lead to the location, each once, in the order the map yields them. */
  ghost predicate LeadingTo(st: ZoneState, l: Id, toHere: seq<Id>)
  {
    NoDup(toHere) && forall x :: x in toHere <==> x in st.exits && st.exits[x].destination == Some(l)
  }

  /** All that a removal does before the location itself goes. */
  function Clearing(st: ZoneState, l: Id, toHere: seq<Id>): seq<Payload>
    requires l in st.locations
  {
    ClearingPayloads(st.locations[l].outExits + toHere, st.locations[l].actors, st.locations[l].objects, DefaultOf(st))
  }

  lemma OnlyClears(st: ZoneState, l: Id, toHere: seq<Id>)
    requires l in st.locations
    ensures forall p :: p in Clearing(st, l, toHere) ==> IsClearing(p)
  {
    var loc, d := st.locations[l], DefaultOf(st);
    ExitsClear(loc.outExits + toHere);
    ActorsClear(loc.actors, d);
    ObjectsClear(loc.objects, d);
  }

  /** No exit leads from the location to itself. */
  predicate NoLoop(st: ZoneState, l: Id)
  {
    forall x :: x in st.exits && st.exits[x].source == l ==> st.exits[x].destination != Some(l)
  }

  /** What is at the location has somewhere to go. */
  predicate HasPlaceToGo(st: ZoneState, l: Id)
    requires l in st.locations
  {
    NothingAt(st, l) || DefaultOf(st) in st.locations
  }

  /** What the location's own lists say is what the removal must see to. */
  lemma ListsRefer(st: ZoneState, l: Id, toHere: seq<Id>)
    requires Linked(st) && l in st.locations && LeadingTo(st, l, toHere) && NoLoop(st, l)
    ensures Referring(ViewOf(st), l, st.locations[l].outExits + toHere, st.locations[l].actors, st.locations[l].objects)
  {
    var loc := st.locations[l];
    NoDupConcat(loc.outExits, toHere);
    assert Lists(st, InLocation(l)) && Contents(st, InLocation(l)) == loc.objects;
    hide NoDup, ObjectsListed, ConstraintsKept;
    assert forall o :: o in st.objects ==> ViewOf(st).objects[o].container == st.objects[o].container;
  }

  // ---------- when clearing fails ----------

  lemma ExitRemoved(st: ZoneState, x: Id)
    ensures var (t, r) := Submitted(st, ExitRemoveFromZone(x));
      && (r == Done <==> x in st.exits)
      && (r == Done ==> t.exits == st.exits - {x} && t.locations.Keys == st.locations.Keys)
  {
  }

  /** Exits can be removed one after the other only if none is named twice. */
  lemma {:induction false} ExitRemovalsDone(st: ZoneState, xs: seq<Id>)
    ensures var (t, r) := SubmittedAll(st, ExitRemovals(xs));
      r == Done ==> NoDup(xs) && t.exits == st.exits - Members(xs) && t.locations.Keys == st.locations.Keys
  {
    if xs == [] {
      assert st.exits - Members(xs) == st.exits;
    } else {
      var init, x := xs[..|xs| - 1], xs[|xs| - 1];
      ExitRemovalsDone(st, init);
      MembersSnoc(xs);
      hide Submitted;
      SubmittedConcat(st, ExitRemovals(init), [ExitRemoveFromZone(x)]);
      var t := SubmittedAll(st, ExitRemovals(init)).0;
      SubmittedOne(t, ExitRemoveFromZone(x));
      ExitRemoved(t, x);
      if SubmittedAll(st, ExitRemovals(xs)).1 == Done {
        assert x !in Members(init);
        assert xs == init + [x];
        NoDupSnoc(init, x);
        assert (st.exits - Members(init)) - {x} == st.exits - Members(xs);
      }
    }
  }

  lemma NowhereFails(st: ZoneState, p: Payload, d: Id)
    requires (p.ActorAdminRelocate? && p.to == d) || (p.ObjectAdminRelocate? && p.container == InLocation(d))
    requires d !in st.locations
    ensures Submitted(st, p).1 != Done
  {
  }

  /** A location that an exit leads to from itself lists that exit on the way out and on the way in. */
  lemma LoopListedTwice(st: ZoneState, l: Id, toHere: seq<Id>)
    requires ExitsListed(st) && l in st.locations && LeadingTo(st, l, toHere) && !NoLoop(st, l)
    ensures !NoDup(st.locations[l].outExits + toHere)
  {
    NoDupConcat(st.locations[l].outExits, toHere);
    var x :| x in st.exits && st.exits[x].source == l && st.exits[x].destination == Some(l);
    assert x in st.locations[l].outExits && x in toHere;
  }

  lemma LoopFails(st: ZoneState, l: Id, toHere: seq<Id>)
    requires ExitsListed(st) && l in st.locations && LeadingTo(st, l, toHere) && !NoLoop(st, l)
    ensures SubmittedAll(st, Clearing(st, l, toHere)).1 != Done
  {
    hide *;
    var exits := st.locations[l].outExits + toHere;
    ExitsFirst(st, l, toHere);
    LoopListedTwice(st, l, toHere);
    ExitRemovalsDone(st, exits);
    SubmittedConcat(st, ExitRemovals(exits), WithoutExits(st, l));
  }

  /** What is relocated, after the exits are gone. */
  function WithoutExits(st: ZoneState, l: Id): seq<Payload>
    requires l in st.locations
  {
    ActorRelocations(st.locations[l].actors, DefaultOf(st)) + ObjectRelocations(st.locations[l].objects, DefaultOf(st))
  }

  lemma ExitsFirst(st: ZoneState, l: Id, toHere: seq<Id>)
    requires l in st.locations
    ensures Clearing(st, l, toHere) == ExitRemovals(st.locations[l].outExits + toHere) + WithoutExits(st, l)
  {
    hide ExitRemovals, ActorRelocations, ObjectRelocations;
  }

  lemma NowhereToGoFails(st: ZoneState, l: Id, toHere: seq<Id>)
    requires l in st.locations && !HasPlaceToGo(st, l)
    ensures SubmittedAll(st, Clearing(st, l, toHere)).1 != Done
  {
    var loc, d := st.locations[l], DefaultOf(st);
    var rest := ActorRelocations(loc.actors, d) + ObjectRelocations(loc.objects, d);
    assert Clearing(st, l, toHere) == ExitRemovals(loc.outExits + toHere) + rest;
    ActorsClear(loc.actors, d);
    ObjectsClear(loc.objects, d);
    assert rest != [] && rest[0] in rest;
    hide Submitted, NoDup, ExitRemovals, ActorRelocations, ObjectRelocations, Clearing;
    SubmittedConcat(st, ExitRemovals(loc.outExits + toHere), rest);
    ExitRemovalsDone(st, loc.outExits + toHere);
    var (t, r) := SubmittedAll(st, ExitRemovals(loc.outExits + toHere));
    if r == Done {
      NowhereFails(t, rest[0], d);
    }
  }

  /** The clearing goes through exactly when no exit is listed twice and what is there has somewhere to go. */
  lemma ClearingExactly(st: ZoneState, l: Id, toHere: seq<Id>)
    requires Linked(st) && Sound(ViewOf(st)) && l in st.locations && LeadingTo(st, l, toHere)
    ensures SubmittedAll(st, Clearing(st, l, toHere)).1 == Done <==> NoLoop(st, l) && HasPlaceToGo(st, l)
  {
    if !NoLoop(st, l) {
      LoopFails(st, l, toHere);
    } else if !HasPlaceToGo(st, l) {
      NowhereToGoFails(st, l, toHere);
    } else {
      var loc := st.locations[l];
      ListsRefer(st, l, toHere);
      ViewKeys(st);
      hide Linked, Sound, Referring, LeadingTo, NoLoop;
      ClearingRun(ViewOf(st), l, loc.outExits + toHere, loc.actors, loc.objects, DefaultOf(st));
      hide AcceptsEach, SubmittedAll, ViewOf, EffectAll;
      SubmittingAgrees(st, Clearing(st, l, toHere));
    }
  }

  // ---------- the whole removal ----------

  /** The location goes after all that was cleared away, if that went through. */
  function RemovalDone(st: ZoneState, l: Id, toHere: seq<Id>): (ZoneState, bool)
  {
    if !RemovalChecked(st, l) then (st, false)
    else
      var (cleared, ok) := Subcommands(st, Clearing(st, l, toHere));
      if !ok then (cleared, false)
      else
        var (t, r) := Submitted(cleared, LocationRemoveFromZone(l));
        (t, r == Done)
  }

  /** No exit leads from the location to itself, and what is there goes to another location. */
  predicate Removable(st: ZoneState, l: Id)
  {
    && l in st.locations && NoLoop(st, l)
    && (NothingAt(st, l) || (DefaultOf(st) in st.locations && DefaultOf(st) != l))
  }

  /** What the zone looks like afterwards. */
  function AfterRemoval(st: ZoneState, l: Id, toHere: seq<Id>): View
    requires l in st.locations
  {
    Cleared(ViewOf(st), Members(st.locations[l].outExits + toHere), Members(st.locations[l].actors),
            Members(st.locations[l].objects), DefaultOf(st)).(locations := ViewOf(st).locations - {l})
  }

  /** Nothing is at the location and no exit leads from it or to it. */
  predicate NothingToClear(st: ZoneState, l: Id, toHere: seq<Id>)
    requires l in st.locations
  {
    st.locations[l].outExits + toHere == [] && NothingAt(st, l)
  }

  lemma LocationGoes(st: ZoneState, l: Id)
    requires Linked(st)
    ensures var (t, r) := Submitted(st, LocationRemoveFromZone(l));
      && r == Done && Linked(t) && t.nextSequenceId == st.nextSequenceId + 1
      && ViewOf(t) == ViewOf(st).(locations := ViewOf(st).locations - {l}, nextSequenceId := t.nextSequenceId)
  {
    RemoveLocationAgrees(st, l);
    hide Linked, ViewOf;
    var n := st.nextSequenceId + 1;
    assert Submitted(st, LocationRemoveFromZone(l)).0 == st.(locations := st.locations - {l}).(nextSequenceId := n);
    LinkedAside(st.(locations := st.locations - {l}), n);
  }

  lemma RemovalAsSubmitted(st: ZoneState, l: Id, toHere: seq<Id>)
    requires RemovalChecked(st, l)
    ensures var (cleared, r) := SubmittedAll(st, Clearing(st, l, toHere));
      && (RemovalDone(st, l, toHere).1 <==> r == Done)
      && (r == Done ==> RemovalDone(st, l, toHere).0 == Submitted(cleared, LocationRemoveFromZone(l)).0)
  {
    hide IsClearing, Clearing, SubmittedAll, Subcommands;
    OnlyClears(st, l, toHere);
    SubcommandsSubmitted(st, Clearing(st, l, toHere));
  }

  /** Where it goes through, the removal has cleared just what referred to the location. */
  lemma RemovalView(st: ZoneState, l: Id, toHere: seq<Id>)
    requires SettledState(st) && RemovalChecked(st, l) && LeadingTo(st, l, toHere) && NoLoop(st, l)
    requires HasPlaceToGo(st, l)
    ensures var (t, ok) := RemovalDone(st, l, toHere);
      && ok && Linked(t) && ViewOf(t) == AfterRemoval(st, l, toHere).(nextSequenceId := t.nextSequenceId)
      && t.nextSequenceId == st.nextSequenceId + |Clearing(st, l, toHere)| + 1
  {
    assert l in st.locations;
    var loc, d, v := st.locations[l], DefaultOf(st), ViewOf(st);
    assert Linked(st) by { SettledLinked(st); }
    ListsRefer(st, l, toHere);
    ViewKeys(st);
    hide Linked, Sound, NoOrphans, Referring, LeadingTo, NoLoop, ViewOf, Cleared;
    ClearingRun(v, l, loc.outExits + toHere, loc.actors, loc.objects, d);
    hide AcceptsEach, EffectAll, ClearingPayloads, SubmittedAll, RemovalDone, Submitted;
    SubmittingAgrees(st, Clearing(st, l, toHere));
    RemovalAsSubmitted(st, l, toHere);
    LocationGoes(SubmittedAll(st, Clearing(st, l, toHere)).0, l);
    ClearedLocations(v, Members(loc.outExits + toHere), Members(loc.actors), Members(loc.objects), d);
  }

  lemma ClearedLocations(v: View, exits: set<Id>, actors: set<Id>, objects: set<Id>, d: Id)
    ensures Cleared(v, exits, actors, objects, d).locations == v.locations
  {
  }

  /**
   * A removal works out exactly when no exit leads from the location to itself and what is at the
   * location goes to another one. It fails for such an exit, or when the default location is no
   * longer there; when the location is itself the default, it strands what is there.
   */
  lemma RemovalExactly(st: ZoneState, l: Id, toHere: seq<Id>)
    requires SettledState(st) && RemovalChecked(st, l) && LeadingTo(st, l, toHere)
    ensures RemovalDone(st, l, toHere).1 <==> NoLoop(st, l) && HasPlaceToGo(st, l)
    ensures RemovalDone(st, l, toHere).1 && SettledState(RemovalDone(st, l, toHere).0) <==> Removable(st, l)
    ensures Removable(st, l) ==>
      ViewOf(RemovalDone(st, l, toHere).0) ==
      AfterRemoval(st, l, toHere).(nextSequenceId := st.nextSequenceId + |Clearing(st, l, toHere)| + 1)
  {
    hide SettledState, NoLoop, LeadingTo, NothingAt, AfterRemoval, RemovalDone, SubmittedAll, Clearing, ViewOf;
    SettledMeans(st);
    hide Linked, Sound, NoOrphans;
    ClearingExactly(st, l, toHere);
    RemovalAsSubmitted(st, l, toHere);
    if NoLoop(st, l) && HasPlaceToGo(st, l) {
      RemovalView(st, l, toHere);
      var (t, ok) := RemovalDone(st, l, toHere);
      if Removable(st, l) {
        RemovedConsistent(st, l, toHere);
        SequenceNumberAside(AfterRemoval(st, l, toHere), t.nextSequenceId);
        SettledFrom(t);
      } else {
        RemovedStranded(st, l, toHere);
        SequenceNumberAside(ViewOf(t), st.nextSequenceId);
        AfterRemovalCounter(st, l, toHere);
        if SettledState(t) {
          SettledMeans(t);
        }
      }
    }
  }

  lemma SettledMeans(st: ZoneState)
    requires SettledState(st)
    ensures Linked(st) && Sound(ViewOf(st)) && NoOrphans(ViewOf(st))
  {
  }

  lemma SettledFrom(st: ZoneState)
    requires Linked(st) && Sound(ViewOf(st)) && NoOrphans(ViewOf(st))
    ensures SettledState(st)
  {
  }

  lemma AfterRemovalCounter(st: ZoneState, l: Id, toHere: seq<Id>)
    requires l in st.locations
    ensures AfterRemoval(st, l, toHere).nextSequenceId == st.nextSequenceId
  {
  }

  lemma RemovedConsistent(st: ZoneState, l: Id, toHere: seq<Id>)
    requires SettledState(st) && LeadingTo(st, l, toHere) && Removable(st, l)
    ensures Consistent(AfterRemoval(st, l, toHere))
  {
    var loc := st.locations[l];
    SettledMeans(st);
    ListsRefer(st, l, toHere);
    ViewKeys(st);
    hide Linked, Sound, NoOrphans, Referring, LeadingTo, NoLoop, ViewOf, Cleared;
    LocationRemovalExactly(ViewOf(st), l, loc.outExits + toHere, loc.actors, loc.objects, DefaultOf(st));
  }

  lemma RemovedStranded(st: ZoneState, l: Id, toHere: seq<Id>)
    requires SettledState(st) && LeadingTo(st, l, toHere) && l in st.locations && NoLoop(st, l) && HasPlaceToGo(st, l)
    requires !Removable(st, l)
    ensures !Sound(AfterRemoval(st, l, toHere))
  {
    var loc := st.locations[l];
    SettledMeans(st);
    ListsRefer(st, l, toHere);
    ViewKeys(st);
    hide Linked, Sound, NoOrphans, Referring, LeadingTo, NoLoop, ViewOf, Cleared;
    ClearedToItself(ViewOf(st), l, loc.outExits + toHere, loc.actors, loc.objects);
  }

  // ---------- what a failed removal leaves ----------

  lemma MovedActorKeepsExits(st: ZoneState, a: Id, from: Id, to: Id)
    requires a in st.actors
    ensures MoveActor(st, a, from, to).exits == st.exits
  {
  }

  lemma MovedObjectKeepsExits(st: ZoneState, o: Id, from: Container, to: Container, sub: string)
    requires o in st.objects && Resolves(st, to)
    ensures MoveObject(st, o, from, to, sub).0.exits == st.exits
  {
    RemoveObjectShape(st, from, o);
    hide RemoveObject, AfterAdd;
  }

  lemma NoExitAdded(st: ZoneState, p: Payload)
    requires IsClearing(p)
    ensures Submitted(st, p).0.exits.Keys <= st.exits.Keys
  {
    hide MoveActor, MoveObject, RemoveExit;
    var on := st.(nextSequenceId := st.nextSequenceId + 1);
    match p
    case ExitRemoveFromZone(x) =>
    case ActorAdminRelocate(a, to) =>
      if a in st.actors {
        MovedActorKeepsExits(on, a, st.actors[a].location, to);
      }
    case ObjectAdminRelocate(o, c, sub) =>
      if o in st.objects && Resolves(on, c) {
        MovedObjectKeepsExits(on, o, st.objects[o].container, c, sub);
      }
  }

  lemma {:induction false} NoExitsAdded(st: ZoneState, ps: seq<Payload>)
    requires forall p :: p in ps ==> IsClearing(p)
    ensures Subcommands(st, ps).0.exits.Keys <= st.exits.Keys
    decreases |ps|
  {
    hide Submitted, Checked, IsClearing;
    if ps != [] && Checked(st, ps[0]) {
      NoExitAdded(st, ps[0]);
      NoExitsAdded(Submitted(st, ps[0]).0, ps[1..]);
    }
  }

  lemma {:induction false} FirstExitRemoval(xs: seq<Id>)
    requires xs != []
    ensures ExitRemovals(xs) != [] && ExitRemovals(xs)[0] == ExitRemoveFromZone(xs[0])
  {
    if |xs| > 1 {
      FirstExitRemoval(xs[..|xs| - 1]);
    }
  }

  /** The first exit is gone for good, whatever fails later. */
  lemma FirstExitGone(st: ZoneState, l: Id, toHere: seq<Id>)
    requires ExitsListed(st) && l in st.locations && LeadingTo(st, l, toHere) && st.locations[l].outExits + toHere != []
    ensures Subcommands(st, Clearing(st, l, toHere)).0.exits.Keys != st.exits.Keys
  {
    hide NoDup, Submitted, IsClearing, Subcommands, Clearing;
    FirstToClear(st, l, toHere);
    OnlyClears(st, l, toHere);
    ExitGone(st, Clearing(st, l, toHere));
  }

  lemma FirstToClear(st: ZoneState, l: Id, toHere: seq<Id>)
    requires ExitsListed(st) && l in st.locations && LeadingTo(st, l, toHere) && st.locations[l].outExits + toHere != []
    ensures var ps := Clearing(st, l, toHere);
      ps != [] && ps[0].ExitRemoveFromZone? && ps[0].exit in st.exits
  {
    var xs := st.locations[l].outExits + toHere;
    hide NoDup, ExitRemovals, ActorRelocations, ObjectRelocations;
    assert xs[0] in st.locations[l].outExits || xs[0] in toHere;
    FirstExitRemoval(xs);
  }

  lemma ExitGone(st: ZoneState, ps: seq<Payload>)
    requires (forall p :: p in ps ==> IsClearing(p)) && ps != [] && ps[0].ExitRemoveFromZone? && ps[0].exit in st.exits
    ensures Subcommands(st, ps).0.exits.Keys != st.exits.Keys
  {
    hide Submitted, IsClearing;
    ExitRemoved(st, ps[0].exit);
    NoExitsAdded(Submitted(st, ps[0]).0, ps[1..]);
  }

  /** Without exits to clear away the first thing to be relocated is refused at once, if it has nowhere to go. */
  lemma NothingGone(st: ZoneState, l: Id, toHere: seq<Id>)
    requires l in st.locations && st.locations[l].outExits + toHere == [] && !HasPlaceToGo(st, l)
    ensures Subcommands(st, Clearing(st, l, toHere)) == (st, false)
  {
    var loc, d, ps := st.locations[l], DefaultOf(st), Clearing(st, l, toHere);
    ActorsClear(loc.actors, d);
    ObjectsClear(loc.objects, d);
    assert ps == ActorRelocations(loc.actors, d) + ObjectRelocations(loc.objects, d);
    assert ps != [] && ps[0] in ps;
    assert ps[0] in ActorRelocations(loc.actors, d) || ps[0] in ObjectRelocations(loc.objects, d);
    hide ActorRelocations, ObjectRelocations, Clearing;
    NowhereUnchecked(st, ps[0], d);
  }

  lemma NowhereUnchecked(st: ZoneState, p: Payload, d: Id)
    requires (p.ActorAdminRelocate? && p.to == d) || (p.ObjectAdminRelocate? && p.container == InLocation(d))
    requires d !in st.locations
    ensures !Checked(st, p)
  {
  }

  /** A removal that fails has changed nothing exactly when no exit leads from the location or to it. */
  lemma FailedRemovalExactly(st: ZoneState, l: Id, toHere: seq<Id>)
    requires SettledState(st) && RemovalChecked(st, l) && LeadingTo(st, l, toHere) && !RemovalDone(st, l, toHere).1
    ensures SameButCounter(st, RemovalDone(st, l, toHere).0) <==> st.locations[l].outExits + toHere == []
    ensures st.locations[l].outExits + toHere == [] ==> RemovalDone(st, l, toHere).0 == st
  {
    SettledLinked(st);
    hide SettledState, LeadingTo, NothingAt, Submitted, Clearing, Subcommands, ActorsListed, ObjectsListed;
    hide ConstraintsKept;
    RemovalExactly(st, l, toHere);
    FailedInClearing(st, l, toHere);
    if st.locations[l].outExits + toHere == [] {
      NoExitNoLoop(st, l, toHere);
      NothingGone(st, l, toHere);
    } else {
      FirstExitGone(st, l, toHere);
    }
  }

  lemma LocationAlwaysGoes(st: ZoneState, l: Id)
    ensures Submitted(st, LocationRemoveFromZone(l)).1 == Done
  {
  }

  lemma FailedInClearing(st: ZoneState, l: Id, toHere: seq<Id>)
    requires RemovalChecked(st, l) && !RemovalDone(st, l, toHere).1
    ensures RemovalDone(st, l, toHere).0 == Subcommands(st, Clearing(st, l, toHere)).0
  {
    hide Submitted, Subcommands, Clearing;
    LocationAlwaysGoes(Subcommands(st, Clearing(st, l, toHere)).0, l);
  }

  lemma NoExitNoLoop(st: ZoneState, l: Id, toHere: seq<Id>)
    requires ExitsListed(st) && l in st.locations && st.locations[l].outExits + toHere == []
    ensures NoLoop(st, l)
  {
    hide NoDup;
    assert st.locations[l].outExits == [];
    assert forall x :: x in st.exits ==> x !in st.locations[l].outExits;
  }
}
