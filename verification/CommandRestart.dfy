/**
 * What a restart makes of each command: exactly when it finds the zone as the command left it,
 * told from the zone before the command; and so over whole runs of commands.
 */
module CommandRestarts {
  import opened Wrappers
  import opened Bytes
  import opened ZoneViews
  import opened EventSourcing
  import opened PayloadRuns
  import opened ZoneStates
  import opened ZoneApplied
  import opened ZoneReplays
  import opened ZoneCommands
  import opened RemovalCommands
  import opened RemovalRestarts
  import opened ObjectTrees
  import opened Migrations
  import opened Arrivals
  import opened Commands

  // ---------- a command that fails ----------

  /**
   * A command that its handler lets pass, if it fails, has changed nothing. It has if it takes
   * something off a list first: an object relocated or moved, an exit that is updated, or an exit
   * that goes before the location it leads from or to.
   */
  ghost predicate Harmless(st: ZoneState, c: Command)
  {
    match c
    case Carry(p) => !p.ObjectAdminRelocate? && !p.ExitUpdate?
    case Give(_, _, _, _) => false
    case Demolish(l, toHere) => l in st.locations && st.locations[l].outExits + toHere == []
    case _ => true
  }

  lemma CheckedIsResolved(st: ZoneState, p: Payload)
    requires Checked(st, p)
    ensures Submitted(st, p).1 != Unresolved
  {
    var on := st.(nextSequenceId := st.nextSequenceId + 1);
    hide MoveActor, DropActor, PutActor, AddObject, AddOutExit, RemoveExit, DropObject, RemoveObject, Redirected;
  }

  lemma CheckedMissing(st: ZoneState, p: Payload)
    requires SettledState(st) && Checked(st, p)
    ensures Missing(st, p) <==> !p.ObjectAdminRelocate? && !p.ExitUpdate?
  {
    SettledPlaces(st);
    hide SettledState, Leads;
  }

  lemma CarryFailed(st: ZoneState, p: Payload)
    requires SettledState(st) && Checked(st, p) && SubmittedAll(st, [p]).1 != Done
    ensures SameButCounter(st, SubmittedAll(st, [p]).0) <==> Harmless(st, Carry(p))
  {
    hide SettledState, Checked, Submitted, SubmittedAll, Missing;
    SubmittedOne(st, p);
    CheckedIsResolved(st, p);
    CheckedMissing(st, p);
    RefusedCommandExactly(st, p);
  }

  lemma GiveFailed(st: ZoneState, o: Id, mover: Option<Id>, from: Container, to: Container)
    requires SettledState(st) && MoveChecked(st, o, mover, from, to)
    requires SubmittedAll(st, [ObjectMove(o, from, to, ANY)]).1 != Done
    ensures !SameButCounter(st, SubmittedAll(st, [ObjectMove(o, from, to, ANY)]).0)
  {
    var p := ObjectMove(o, from, to, ANY);
    GiveRefused(st, o, mover, from, to);
    hide SettledState, MoveChecked, Submitted, SubmittedAll;
    SubmittedOne(st, p);
    RefusedCommandExactly(st, p);
  }

  /** What is moved is where it is moved from. */
  lemma GivenFromThere(st: ZoneState, o: Id, mover: Option<Id>, from: Container, to: Container)
    requires SettledState(st) && MoveChecked(st, o, mover, from, to)
    ensures o in st.objects && st.objects[o].container == from && Resolves(st, from) && Resolves(st, to)
  {
    assert o in st.objects && Resolves(st, from) && Resolves(st, to) && o in Contents(st, from);
    hide SettledState, ViewOf, MoveChecked, Contents, Resolves;
    SettledLinked(st);
    hide ActorsListed, ExitsListed, ObjectsListed, ConstraintsKept;
    ContentsInside(st, from, o);
    ViewContainer(st, o);
  }

  lemma MovedResolved(st: ZoneState, o: Id, from: Container, to: Container)
    requires o in st.objects && Resolves(st, from) && Resolves(st, to)
    ensures Submitted(st, ObjectMove(o, from, to, ANY)).1 != Unresolved
  {
    hide RemoveObject, AddObject;
  }

  lemma GiveRefused(st: ZoneState, o: Id, mover: Option<Id>, from: Container, to: Container)
    requires SettledState(st) && MoveChecked(st, o, mover, from, to)
    ensures !Missing(st, ObjectMove(o, from, to, ANY)) && Submitted(st, ObjectMove(o, from, to, ANY)).1 != Unresolved
  {
    hide SettledState, MoveChecked, Submitted, Resolves;
    GivenFromThere(st, o, mover, from, to);
    MovedResolved(st, o, from, to);
  }

  lemma RemovalFailed(st: ZoneState, l: Id, toHere: seq<Id>)
    requires SettledState(st) && RemovalChecked(st, l) && LeadingTo(st, l, toHere) && !RemovalDone(st, l, toHere).1
    ensures SameButCounter(st, RemovalDone(st, l, toHere).0) <==> Harmless(st, Demolish(l, toHere))
    ensures Harmless(st, Demolish(l, toHere)) ==> RemovalDone(st, l, toHere).0 == st
  {
    hide SettledState, LeadingTo, NothingAt, RemovalDone;
    FailedRemovalExactly(st, l, toHere);
  }

  /** Whether a failing command has changed anything but the counter can be told beforehand. */
  lemma FailedChanges(st: ZoneState, c: Command)
    requires SettledState(st) && Passes(st, c) && !Processed(st, c).1
    ensures SameButCounter(st, Processed(st, c).0) <==> Harmless(st, c)
    ensures Harmless(st, c) ==> st.nextSequenceId <= Processed(st, c).0.nextSequenceId
    ensures PersistedBy(st, c) == []
  {
    CommandExactly(st, c);
    hide SettledState, Checked, MoveChecked, MoveSubcontainerChecked, SubmittedAll, RemovalDone, RemovalChecked;
    hide LeadingTo, Unchecked, RoomAt, NotInside, Welcome, Removable, Arriving, MigrateOut;
    if !c.Demolish? {
      CounterGrows(st, EventsFor(st, c));
    }
    match c
    case Carry(p) => CarryFailed(st, p);
    case Give(o, mover, from, to) => GiveFailed(st, o, mover, from, to);
    case TakeIn(src, a, toLoc) => NobodyTakenIn(st, src, a, toLoc);
    case SendOut(a) => NobodyToSend(st, a);
    case Demolish(l, toHere) => RemovalFailed(st, l, toHere);
    case _ =>
  }

  lemma NobodyTakenIn(st: ZoneState, src: ZoneState, a: Id, l: Id)
    requires SettledState(st) && SettledState(src) && a in src.actors && SubmittedAll(st, Arriving(src, a, l)).1 != Done
    ensures SameButCounter(st, SubmittedAll(st, Arriving(src, a, l)).0)
  {
    hide *;
    ArrivingExactly(st, src, a, l);
    ArrivesFirst(src, a, l);
    UnresolvedFirst(st, Arriving(src, a, l), a, ViewOf(src).actors[a].info, l);
    SameCounted(st, SubmittedAll(st, Arriving(src, a, l)).0);
  }

  lemma SameCounted(st: ZoneState, t: ZoneState)
    ensures t == st.(nextSequenceId := t.nextSequenceId) <==> SameButCounter(st, t)
  {
  }

  /** A failing command persists nothing: a restart agrees with the zone afterwards exactly when it was harmless. */
  lemma FailedCommandExactly(
    origin: ZoneState, st: ZoneState, history: seq<Event>, persisted: seq<Event>, c: Command)
    requires Recorded(origin, st, history, persisted) && SettledState(st) && Passes(st, c) && !Processed(st, c).1
    ensures PersistedBy(st, c) == []
    ensures SameButCounter(Replayed(origin, persisted).0, Processed(st, c).0) <==> Harmless(st, c)
    ensures Harmless(st, c) ==>
      SettledState(Processed(st, c).0) && Recorded(origin, Processed(st, c).0, history, persisted)
  {
    hide *;
    FailedChanges(st, c);
    UnrecordedExactly(origin, st, history, persisted, Processed(st, c).0);
    SettledAside(st, Processed(st, c).0.nextSequenceId);
    SameCounted(st, Processed(st, c).0);
  }

  // ---------- what stays settled ----------

  /** Its own way of taking things from where they are makes no clearing command fail halfway. */
  lemma ClearingSettles(st: ZoneState, p: Payload)
    requires SettledState(st) && Checked(st, p) && IsClearing(p) && (p.ObjectAdminRelocate? ==> p.container.InLocation?)
    ensures Submitted(st, p).1 == Done && SettledState(Submitted(st, p).0)
  {
    assert Unchecked(ViewOf(st), p) by {
      ViewKeys(st);
      hide SettledState, ViewOf;
    }
    hide SettledState, ViewOf, Checked, Unchecked, Submitted;
    CheckedExactly(st, p);
  }

  lemma {:induction false} SubcommandsSettle(st: ZoneState, ps: seq<Payload>)
    requires SettledState(st)
    requires forall p :: p in ps ==> IsClearing(p) && (p.ObjectAdminRelocate? ==> p.container.InLocation?)
    ensures SettledState(Subcommands(st, ps).0)
    decreases |ps|
  {
    hide SettledState, Checked, Submitted, IsClearing;
    if ps != [] && Checked(st, ps[0]) {
      ClearingSettles(st, ps[0]);
      SubcommandsSettle(Submitted(st, ps[0]).0, ps[1..]);
    }
  }

  lemma ClearsToLocations(st: ZoneState, l: Id, toHere: seq<Id>)
    requires l in st.locations
    ensures forall p :: p in Clearing(st, l, toHere) ==>
      IsClearing(p) && (p.ObjectAdminRelocate? ==> p.container.InLocation?)
  {
    var loc, d := st.locations[l], DefaultOf(st);
    ExitsClear(loc.outExits + toHere);
    ActorsClear(loc.actors, d);
    ObjectsClear(loc.objects, d);
  }

  /** However far a failing removal got, what it did leaves the zone settled. */
  lemma FailedRemovalSettles(st: ZoneState, l: Id, toHere: seq<Id>)
    requires SettledState(st) && RemovalChecked(st, l) && !RemovalDone(st, l, toHere).1
    ensures SettledState(RemovalDone(st, l, toHere).0)
  {
    hide SettledState, Clearing, RemovalDone, Subcommands, IsClearing;
    FailedInClearing(st, l, toHere);
    ClearsToLocations(st, l, toHere);
    SubcommandsSettle(st, Clearing(st, l, toHere));
  }

  /** A refused event that has changed something leaves the links broken. */
  lemma RefusedBreaks(st: ZoneState, p: Payload)
    requires SettledState(st) && Submitted(st, p).1 == Refused && !Missing(st, p)
    ensures !SettledState(Submitted(st, p).0)
  {
    hide Linked, Sound, NoOrphans, ViewOf, Applied, Missing;
    AppliedAside(st, p, st.nextSequenceId + 1);
    RefusedExactly(st, p);
    var t, u := Submitted(st, p).0, Applied(st, p).0;
    if Linked(t) {
      LinkedAside(t, u.nextSequenceId);
    }
  }

  lemma CarryBroken(st: ZoneState, p: Payload)
    requires SettledState(st) && Checked(st, p) && SubmittedAll(st, [p]).1 != Done && !Harmless(st, Carry(p))
    ensures !SettledState(SubmittedAll(st, [p]).0)
  {
    hide SettledState, Checked, Submitted, SubmittedAll, Missing;
    SubmittedOne(st, p);
    CheckedIsResolved(st, p);
    CheckedMissing(st, p);
    RefusedBreaks(st, p);
  }

  lemma GiveBroken(st: ZoneState, o: Id, mover: Option<Id>, from: Container, to: Container)
    requires SettledState(st) && MoveChecked(st, o, mover, from, to)
    requires SubmittedAll(st, [ObjectMove(o, from, to, ANY)]).1 != Done
    ensures !SettledState(SubmittedAll(st, [ObjectMove(o, from, to, ANY)]).0)
  {
    GiveRefused(st, o, mover, from, to);
    hide SettledState, MoveChecked, Submitted, SubmittedAll, Missing;
    SubmittedOne(st, ObjectMove(o, from, to, ANY));
    RefusedBreaks(st, ObjectMove(o, from, to, ANY));
  }

  /** It does not pass, has what its handler leaves unchecked, fails harmlessly, or is a removal that fails. */
  ghost predicate Steady(st: ZoneState, c: Command)
  {
    Passes(st, c) ==> if Processed(st, c).1 then Guarded(st, c) else Harmless(st, c) || c.Demolish?
  }

  lemma FailedSettlesExactly(st: ZoneState, c: Command)
    requires SettledState(st) && Passes(st, c) && !Processed(st, c).1
    ensures SettledState(Processed(st, c).0) <==> Harmless(st, c) || c.Demolish?
  {
    if c.Demolish? {
      hide SettledState, LeadingTo, RemovalChecked, RemovalDone;
      FailedRemovalSettles(st, c.location, c.toHere);
    } else if Harmless(st, c) {
      hide SettledState, Passes, Harmless, Processed;
      FailedChanges(st, c);
      SettledAside(st, Processed(st, c).0.nextSequenceId);
      SameCounted(st, Processed(st, c).0);
    } else {
      hide SettledState, Checked, MoveChecked, SubmittedAll;
      if c.Carry? {
        CarryBroken(st, c.payload);
      } else {
        GiveBroken(st, c.object_, c.mover, c.from, c.to);
      }
    }
  }

  /** A command leaves a settled zone settled, however it ends, exactly when it is steady. */
  lemma SettledExactly(st: ZoneState, c: Command)
    requires SettledState(st)
    ensures SettledState(Processed(st, c).0) <==> Steady(st, c)
  {
    if !Passes(st, c) {
      hide SettledState, Passes;
    } else {
      hide SettledState, Passes, Guarded, Harmless, Processed;
      CommandExactly(st, c);
      if !Processed(st, c).1 {
        FailedSettlesExactly(st, c);
      }
    }
  }

  // ---------- any command ----------

  /** What was applied of a command that went through, whether it is persisted or not. */
  ghost function AppliedBy(st: ZoneState, c: Command): seq<Event>
  {
    if !Processed(st, c).1 then []
    else if c.Demolish? then Number(st.nextSequenceId, Clearing(st, c.location, c.toHere)) + PersistedBy(st, c)
    else Number(st.nextSequenceId, EventsFor(st, c))
  }

  /** The command leaves the zone as a restart finds it. */
  ghost predicate Lasts(st: ZoneState, c: Command)
  {
    Passes(st, c) ==>
      if Processed(st, c).1 then c.Demolish? ==> RemovalLasts(st, c.location, c.toHere) else Harmless(st, c)
  }

  /** A command that went through, and is not a removal, is recorded. */
  lemma DoneRecords(origin: ZoneState, st: ZoneState, history: seq<Event>, persisted: seq<Event>, c: Command)
    requires Recorded(origin, st, history, persisted) && Processed(st, c).1 && !c.Demolish?
    ensures Recorded(origin, Processed(st, c).0, history + AppliedBy(st, c), persisted + PersistedBy(st, c))
  {
    hide Recorded, Passes, EventsFor, SubmittedAll, Number, Persisted;
    SubmittingRecords(origin, st, history, persisted, EventsFor(st, c));
  }

  /** A command that does not pass is as if it had not been. */
  lemma RefusedIsNothing(st: ZoneState, persisted: seq<Event>, c: Command)
    requires !Passes(st, c)
    ensures Processed(st, c) == (st, false) && persisted + PersistedBy(st, c) == persisted
    ensures AppliedBy(st, c) == []
  {
    hide Passes;
  }

  lemma RemovalRestarted(
    origin: ZoneState, st: ZoneState, history: seq<Event>, persisted: seq<Event>, l: Id, toHere: seq<Id>)
    requires Recorded(origin, st, history, persisted) && SettledState(st)
    requires Passes(st, Demolish(l, toHere)) && Processed(st, Demolish(l, toHere)).1
    ensures var (t, r) := Replayed(origin, persisted + PersistedBy(st, Demolish(l, toHere)));
      && r == Done && l in st.locations
      && (SameButCounter(t, Processed(st, Demolish(l, toHere)).0) <==> RemovalLasts(st, l, toHere))
  {
    assert l in st.locations;
    hide Recorded, SettledState, LeadingTo, NothingAt, RemovalDone, LastOfRemoval, Replayed, RemovalLasts;
    hide SameButCounter;
    RemovalReplayedExactly(origin, st, history, persisted, l, toHere);
  }

  /**
   * After any command of a settled zone a restart finds it as the command left it exactly when
   * the command lasts.
   */
  lemma RestartExactly(origin: ZoneState, st: ZoneState, history: seq<Event>, persisted: seq<Event>, c: Command)
    requires Recorded(origin, st, history, persisted) && SettledState(st)
    ensures var (t, r) := Replayed(origin, persisted + PersistedBy(st, c));
      r == Done && (SameButCounter(t, Processed(st, c).0) <==> Lasts(st, c))
  {
    hide Recorded, SettledState, Passes, Processed, PersistedBy, AppliedBy, Replayed, Harmless, RemovalLasts;
    if !Passes(st, c) {
      RefusedIsNothing(st, persisted, c);
      RestartRebuilds(origin, st, history, persisted);
    } else if !Processed(st, c).1 {
      FailedCommandExactly(origin, st, history, persisted, c);
      RestartRebuilds(origin, st, history, persisted);
      assert persisted + [] == persisted;
    } else if c.Demolish? {
      assert c == Demolish(c.location, c.toHere);
      RemovalRestarted(origin, st, history, persisted, c.location, c.toHere);
    } else {
      DoneRecords(origin, st, history, persisted, c);
      RestartRebuilds(origin, Processed(st, c).0, history + AppliedBy(st, c), persisted + PersistedBy(st, c));
    }
  }

  // ---------- whole runs ----------

  ghost function AfterCommands(st: ZoneState, commands: seq<Command>): ZoneState
    decreases |commands|
  {
    if commands == [] then st else AfterCommands(Processed(st, commands[0]).0, commands[1..])
  }

  /** All that the commands add to the log. */
  ghost function LogOf(st: ZoneState, commands: seq<Command>): seq<Event>
    decreases |commands|
  {
    if commands == [] then []
    else PersistedBy(st, commands[0]) + LogOf(Processed(st, commands[0]).0, commands[1..])
  }

  ghost predicate AllSteady(st: ZoneState, commands: seq<Command>)
    decreases |commands|
  {
    commands == [] || (Steady(st, commands[0]) && AllSteady(Processed(st, commands[0]).0, commands[1..]))
  }

  /** Over any run of steady commands the zone stays settled, removals that clear something away included. */
  lemma {:induction false} RunSettles(st: ZoneState, commands: seq<Command>, k: nat)
    requires SettledState(st) && AllSteady(st, commands) && k <= |commands|
    ensures SettledState(AfterCommands(st, commands[..k]))
    decreases k
  {
    hide SettledState, Processed, Steady;
    if k > 0 {
      SettledExactly(st, commands[0]);
      RunSettles(Processed(st, commands[0]).0, commands[1..], k - 1);
      assert commands[..k][1..] == commands[1..][..k - 1];
    }
  }

  /** It does not pass, goes through with all of it persisted, or fails harmlessly. */
  ghost predicate Kept(st: ZoneState, c: Command)
  {
    Passes(st, c) ==>
      if Processed(st, c).1 then c.Demolish? ==> NothingToClear(st, c.location, c.toHere)
      else SettledState(st) && Harmless(st, c)
  }

  ghost predicate AllKept(st: ZoneState, commands: seq<Command>)
    decreases |commands|
  {
    commands == [] || (Kept(st, commands[0]) && AllKept(Processed(st, commands[0]).0, commands[1..]))
  }

  lemma RemovalKept(
    origin: ZoneState, st: ZoneState, history: seq<Event>, persisted: seq<Event>, l: Id, toHere: seq<Id>)
    requires Recorded(origin, st, history, persisted) && Passes(st, Demolish(l, toHere))
    requires l in st.locations && NothingToClear(st, l, toHere)
    ensures var c := Demolish(l, toHere);
      Recorded(origin, Processed(st, c).0, history + AppliedBy(st, c), persisted + PersistedBy(st, c))
  {
    hide Recorded, RemovalDone, NothingAt, LeadingTo, NothingToClear, LastOfRemoval, Clearing, Number;
    RemovalRecords(origin, st, history, persisted, l, toHere);
    var es, e := Number(st.nextSequenceId, Clearing(st, l, toHere)), [LastOfRemoval(st, l, toHere)];
    assert history + es + e == history + (es + e);
  }

  lemma FailedIsKept(origin: ZoneState, st: ZoneState, history: seq<Event>, persisted: seq<Event>, c: Command)
    requires Recorded(origin, st, history, persisted) && SettledState(st) && Passes(st, c) && !Processed(st, c).1
    requires Harmless(st, c)
    ensures Recorded(origin, Processed(st, c).0, history + AppliedBy(st, c), persisted + PersistedBy(st, c))
  {
    hide *;
    FailedCommandExactly(origin, st, history, persisted, c);
    FailedAppliesNone(st, c);
    NoneMore(history, AppliedBy(st, c));
    NoneMore(persisted, PersistedBy(st, c));
  }

  lemma FailedAppliesNone(st: ZoneState, c: Command)
    requires !Processed(st, c).1
    ensures AppliedBy(st, c) == []
  {
    hide Processed;
  }

  lemma NoneMore(es: seq<Event>, fs: seq<Event>)
    requires fs == []
    ensures es + fs == es
  {
  }

  lemma DemolishedIsThere(st: ZoneState, l: Id, toHere: seq<Id>)
    requires Passes(st, Demolish(l, toHere))
    ensures l in st.locations
  {
    hide LeadingTo;
  }

  /** A command that is kept goes on the record. */
  lemma KeptRecords(origin: ZoneState, st: ZoneState, history: seq<Event>, persisted: seq<Event>, c: Command)
    requires Recorded(origin, st, history, persisted) && Kept(st, c)
    ensures Recorded(origin, Processed(st, c).0, history + AppliedBy(st, c), persisted + PersistedBy(st, c))
  {
    hide Recorded, Processed, AppliedBy, PersistedBy, Passes, SettledState, Harmless, NothingToClear;
    if !Passes(st, c) {
      RefusedIsNothing(st, persisted, c);
      NoneMore(history, AppliedBy(st, c));
    } else if !Processed(st, c).1 {
      FailedIsKept(origin, st, history, persisted, c);
    } else if c.Demolish? {
      assert c == Demolish(c.location, c.toHere);
      DemolishedIsThere(st, c.location, c.toHere);
      RemovalKept(origin, st, history, persisted, c.location, c.toHere);
    } else {
      DoneRecords(origin, st, history, persisted, c);
    }
  }

  /** Over any run of commands that are kept the zone is what was recorded. */
  lemma {:induction false} RunRecords(
    origin: ZoneState, st: ZoneState, history: seq<Event>, persisted: seq<Event>, commands: seq<Command>)
    returns (all: seq<Event>)
    requires Recorded(origin, st, history, persisted) && AllKept(st, commands)
    ensures Recorded(origin, AfterCommands(st, commands), all, persisted + LogOf(st, commands))
    decreases |commands|
  {
    hide Recorded, Kept, Processed, PersistedBy, AppliedBy;
    if commands == [] {
      assert persisted + [] == persisted;
      all := history;
    } else {
      var c := commands[0];
      KeptRecords(origin, st, history, persisted, c);
      all := RunRecords(origin, Processed(st, c).0, history + AppliedBy(st, c),
        persisted + PersistedBy(st, c), commands[1..]);
      var rest := LogOf(Processed(st, c).0, commands[1..]);
      assert (persisted + PersistedBy(st, c)) + rest == persisted + (PersistedBy(st, c) + rest);
    }
  }

  /**
   * A zone's whole life: from any zone, through any commands that are kept, and then through a
   * restart: the same zone again.
   */
  lemma WholeLife(origin: ZoneState, commands: seq<Command>)
    requires AllKept(origin, commands)
    ensures var (replayed, r) := Replayed(origin, LogOf(origin, commands));
      r == Done && SameButCounter(AfterCommands(origin, commands), replayed)
  {
    hide Recorded, AllKept, AfterCommands, LogOf, Replayed;
    BeginsRecorded(origin);
    var all := RunRecords(origin, origin, [], [], commands);
    assert [] + LogOf(origin, commands) == LogOf(origin, commands);
    RestartRebuilds(origin, AfterCommands(origin, commands), all, LogOf(origin, commands));
  }
}
