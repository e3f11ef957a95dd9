/**
 * Event sourcing on the zone itself, lists and all: replaying what was persisted of any run that
 * was applied rebuilds the very state the run led to, whatever the events were.
 */
module ZoneReplays {
  import opened Wrappers
  import opened Bytes
  import opened UUIDLists
  import opened ZoneViews
  import opened EventSourcing
  import opened PayloadRuns
  import opened Inventories
  import opened ZoneStates

  /** The same zone, but for the sequence counter. */
  predicate SameButCounter(st: ZoneState, t: ZoneState)
  {
    t == st.(nextSequenceId := t.nextSequenceId)
  }

  // ---------- the counter does not matter ----------

  lemma ActorListsAside(st: ZoneState, l: Id, a: Id, n: nat)
    ensures AddActor(st.(nextSequenceId := n), l, a) == AddActor(st, l, a).(nextSequenceId := n)
    ensures RemoveActor(st.(nextSequenceId := n), l, a) == RemoveActor(st, l, a).(nextSequenceId := n)
  {
    hide Remove;
  }

  lemma PutActorAside(st: ZoneState, a: Id, info: ActorInfo, l: Id, n: nat)
    ensures PutActor(st.(nextSequenceId := n), a, info, l) == PutActor(st, a, info, l).(nextSequenceId := n)
  {
  }

  lemma MoveActorAside(st: ZoneState, a: Id, from: Id, to: Id, n: nat)
    requires a in st.actors
    ensures MoveActor(st.(nextSequenceId := n), a, from, to) == MoveActor(st, a, from, to).(nextSequenceId := n)
  {
    ActorListsAside(st, from, a, n);
    ActorListsAside(RemoveActor(st, from, a), to, a, n);
    hide AddActor, RemoveActor;
  }

  lemma DropActorAside(st: ZoneState, a: Id, n: nat)
    requires a in st.actors
    ensures DropActor(st.(nextSequenceId := n), a) == DropActor(st, a).(nextSequenceId := n)
  {
    ActorListsAside(st, st.actors[a].location, a, n);
    hide RemoveActor;
  }

  /** What the event does is done alike with another counter. */
  ghost predicate Aside(st: ZoneState, p: Payload, n: nat)
  {
    Applied(st.(nextSequenceId := n), p) == (Applied(st, p).0.(nextSequenceId := n), Applied(st, p).1)
  }

  lemma ActorEventAside(st: ZoneState, p: Payload, n: nat)
    requires p.ActorAddToZone? || p.ActorMigrateIn? || p.ActorMove? || p.ActorAdminRelocate?
             || p.ActorRemoveFromZone? || p.ActorMigrateOut?
    ensures Aside(st, p, n)
  {
    hide PutActor, MoveActor, DropActor;
    match p
    case ActorAddToZone(a, info, l) =>
      PutActorAside(st, a, info, l, n);
      if st.defaultLocation.Some? {
        PutActorAside(st, a, info, st.defaultLocation.value, n);
      }
    case ActorMigrateIn(a, info, l) => PutActorAside(st, a, info, l, n);
    case ActorMove(from, to, a) =>
      if a in st.actors {
        MoveActorAside(st, a, from, to, n);
      }
    case ActorAdminRelocate(a, to) =>
      if a in st.actors {
        MoveActorAside(st, a, st.actors[a].location, to, n);
      }
    case ActorRemoveFromZone(a) =>
      if a in st.actors {
        DropActorAside(st, a, n);
      }
    case ActorMigrateOut(a) =>
      if a in st.actors {
        DropActorAside(st, a, n);
      }
  }

  lemma ExitListsAside(st: ZoneState, l: Id, x: Id, n: nat)
    ensures RemoveExit(st.(nextSequenceId := n), l, x) == RemoveExit(st, l, x).(nextSequenceId := n)
    ensures forall direction :: l in st.locations ==>
      AddOutExit(st.(nextSequenceId := n), l, x, direction) ==
      match AddOutExit(st, l, x, direction) case Some(t) => Some(t.(nextSequenceId := n)) case None => None
    ensures forall direction :: l in st.locations ==>
      AddNewExit(st.(nextSequenceId := n), l, x, direction) ==
      match AddNewExit(st, l, x, direction) case Some(t) => Some(t.(nextSequenceId := n)) case None => None
  {
    hide Remove;
  }

  lemma UpdateExitAside(st: ZoneState, x: Id, desc: string, direction: string, source: Id, destZone: Id,
      destLocation: Id, n: nat)
    requires x in st.exits && source in st.locations
    ensures UpdateExit(st.(nextSequenceId := n), x, desc, direction, source, destZone, destLocation) ==
      (UpdateExit(st, x, desc, direction, source, destZone, destLocation).0.(nextSequenceId := n),
       UpdateExit(st, x, desc, direction, source, destZone, destLocation).1)
  {
    var info := Redirected(st.exits[x], destZone, destLocation);
    var redirected := st.(exits := st.exits[x := info]);
    var out := RemoveExit(redirected, info.source, x);
    ExitListsAside(redirected, info.source, x, n);
    assert source in out.locations;
    ExitListsAside(out, source, x, n);
    hide RemoveExit, AddOutExit, Redirected;
  }

  lemma ExitEventAside(st: ZoneState, p: Payload, n: nat)
    requires p.ExitAddToZone? || p.ExitUpdate? || p.ExitRemoveFromZone?
    ensures Aside(st, p, n)
  {
    hide AddOutExit, AddNewExit, RemoveExit, UpdateExit;
    match p
    case ExitAddToZone(x, _, _, source, _, _) => ExitListsAside(st, source, x, n);
    case ExitUpdate(x, desc, direction, source, destZone, destLocation) =>
      if x in st.exits && source in st.locations {
        UpdateExitAside(st, x, desc, direction, source, destZone, destLocation, n);
      }
    case ExitRemoveFromZone(x) =>
      if x in st.exits {
        ExitListsAside(st, st.exits[x].source, x, n);
      }
  }

  lemma RemoveObjectAside(st: ZoneState, c: Container, o: Id, n: nat)
    ensures RemoveObject(st.(nextSequenceId := n), c, o) == RemoveObject(st, c, o).(nextSequenceId := n)
    ensures forall d :: Resolves(RemoveObject(st, c, o), d) <==> Resolves(st, d)
  {
    hide Remove, Removed;
  }

  lemma AddObjectAside(st: ZoneState, c: Container, o: Id, sub: string, n: nat)
    requires Resolves(st, c)
    ensures AddObject(st.(nextSequenceId := n), c, o, sub) ==
      match AddObject(st, c, o, sub) case Some(t) => Some(t.(nextSequenceId := n)) case None => None
    ensures AddNewObject(st.(nextSequenceId := n), c, o, sub) ==
      match AddNewObject(st, c, o, sub) case Some(t) => Some(t.(nextSequenceId := n)) case None => None
    ensures AddObject(st, c, o, sub).Some? ==> AddObject(st, c, o, sub).value.objects.Keys == st.objects.Keys
  {
    hide AfterAdd;
  }

  lemma PutObjectAside(st: ZoneState, o: Id, info: ObjectInfo, c: Container, sub: string, n: nat)
    ensures PutObject(st.(nextSequenceId := n), o, info, c, sub) ==
      (PutObject(st, o, info, c, sub).0.(nextSequenceId := n), PutObject(st, o, info, c, sub).1)
  {
    hide AddNewObject;
    if Resolves(st, c) {
      AddObjectAside(st, c, o, sub, n);
    }
  }

  lemma MoveObjectAside(st: ZoneState, o: Id, from: Container, to: Container, sub: string, n: nat)
    requires o in st.objects && Resolves(st, to)
    ensures MoveObject(st.(nextSequenceId := n), o, from, to, sub) ==
      (MoveObject(st, o, from, to, sub).0.(nextSequenceId := n), MoveObject(st, o, from, to, sub).1)
  {
    RemoveObjectAside(st, from, o, n);
    assert o in RemoveObject(st, from, o).objects;
    hide RemoveObject;
    AddObjectAside(RemoveObject(st, from, o), to, o, sub, n);
    hide AddObject;
  }

  lemma DropObjectAside(st: ZoneState, o: Id, n: nat)
    requires o in st.objects
    ensures DropObject(st.(nextSequenceId := n), o) == DropObject(st, o).(nextSequenceId := n)
  {
    RemoveObjectAside(st, st.objects[o].container, o, n);
    hide RemoveObject;
  }

  lemma MoveSubcontainerAside(st: ZoneState, c: Container, o: Id, fromSub: string, sub: string, n: nat)
    requires Resolves(st, c)
    ensures MoveSubcontainer(st.(nextSequenceId := n), c, o, fromSub, sub) ==
      (MoveSubcontainer(st, c, o, fromSub, sub).0.(nextSequenceId := n), MoveSubcontainer(st, c, o, fromSub, sub).1)
  {
    hide PlaceOf, MovedTo;
  }

  lemma ObjectComesOrGoesAside(st: ZoneState, p: Payload, n: nat)
    requires p.ObjectAddToZone? || p.ObjectRemoveFromZone? || p.ObjectMigrateIn? || p.ObjectMigrateOut?
    ensures Aside(st, p, n)
  {
    hide PutObject, DropObject;
    match p
    case ObjectAddToZone(o, info, c, sub) => PutObjectAside(st, o, info, c, sub, n);
    case ObjectMigrateIn(o, info, c, sub) => PutObjectAside(st, o, info, c, sub, n);
    case ObjectRemoveFromZone(o) =>
      if o in st.objects {
        DropObjectAside(st, o, n);
      }
    case ObjectMigrateOut(o) =>
      if o in st.objects {
        DropObjectAside(st, o, n);
      }
  }

  lemma ObjectMovesAside(st: ZoneState, p: Payload, n: nat)
    requires p.ObjectMove? || p.ObjectMoveSubcontainer? || p.ObjectAdminRelocate?
    ensures Aside(st, p, n)
  {
    hide MoveObject, MoveSubcontainer;
    match p
    case ObjectMove(o, from, c, sub) =>
      if o in st.objects && Resolves(st, c) {
        MoveObjectAside(st, o, from, c, sub, n);
      }
    case ObjectAdminRelocate(o, c, sub) =>
      if o in st.objects && Resolves(st, c) {
        MoveObjectAside(st, o, st.objects[o].container, c, sub, n);
      }
    case ObjectMoveSubcontainer(o, fromSub, sub) =>
      if o in st.objects && Resolves(st, st.objects[o].container) {
        MoveSubcontainerAside(st, st.objects[o].container, o, fromSub, sub, n);
      }
  }

  lemma OtherEventAside(st: ZoneState, p: Payload, n: nat)
    requires p.ActorDeath? || p.ActorSpeak? || p.LocationAddToZone? || p.LocationUpdate? || p.LocationRemoveFromZone?
             || p.ZoneSetDefaultLocation? || p.CombatMeleeDamage? || p.CombatDodge?
    ensures Aside(st, p, n)
  {
    hide Damaged;
  }

  /** What an event does to a zone does not depend on the sequence counter. */
  lemma AppliedAside(st: ZoneState, p: Payload, n: nat)
    ensures Applied(st.(nextSequenceId := n), p) == (Applied(st, p).0.(nextSequenceId := n), Applied(st, p).1)
  {
    hide Applied;
    match p
    case ActorAddToZone(_, _, _) | ActorMigrateIn(_, _, _) | ActorMove(_, _, _) | ActorAdminRelocate(_, _)
       | ActorRemoveFromZone(_) | ActorMigrateOut(_) => ActorEventAside(st, p, n);
    case ExitAddToZone(_, _, _, _, _, _) | ExitUpdate(_, _, _, _, _, _)
      | ExitRemoveFromZone(_) => ExitEventAside(st, p, n);
    case ObjectAddToZone(_, _, _, _) | ObjectMigrateIn(_, _, _, _) | ObjectRemoveFromZone(_) | ObjectMigrateOut(_) =>
      ObjectComesOrGoesAside(st, p, n);
    case ObjectMove(_, _, _, _) | ObjectAdminRelocate(_, _, _) | ObjectMoveSubcontainer(_, _, _) =>
      ObjectMovesAside(st, p, n);
    case _ => OtherEventAside(st, p, n);
  }

  // ---------- replaying what was persisted ----------

  /** An event that goes through leaves the same zone, counter and all, whatever the counter was. */
  lemma EventAside(st: ZoneState, t: ZoneState, e: Event)
    requires SameButCounter(st, t)
    ensures AppliedEvent(st, e).1 == AppliedEvent(t, e).1
    ensures AppliedEvent(st, e).1 == Done ==>
      AppliedEvent(t, e).0 == AppliedEvent(st, e).0 && AppliedEvent(st, e).0.nextSequenceId == e.sequenceNumber + 1
    ensures AppliedEvent(st, e).1 != Done ==>
      SameButCounter(AppliedEvent(st, e).0, AppliedEvent(t, e).0)
        && AppliedEvent(st, e).0.nextSequenceId == st.nextSequenceId
  {
    hide Applied;
    AppliedAside(st, e.payload, t.nextSequenceId);
    AppliedAside(st, e.payload, st.nextSequenceId);
  }

  function CounterAfter(n: nat, es: seq<Event>): nat
  {
    if es == [] then n else es[|es| - 1].sequenceNumber + 1
  }

  lemma DodgeDoesNothing(st: ZoneState, e: Event)
    requires !ShouldPersist(e)
    ensures AppliedEvent(st, e) == (st.(nextSequenceId := e.sequenceNumber + 1), Done)
  {
  }

  /**
   * Event sourcing: whatever events went through, replaying the persisted ones goes through too
   * and gives the same zone, every list in the same order; only the sequence counter may differ,
   * and it is one past the last persisted event.
   */
  lemma {:induction false} ReplayRebuildsZone(st: ZoneState, t: ZoneState, es: seq<Event>)
    requires SameButCounter(st, t) && Replayed(st, es).1 == Done
    ensures Replayed(t, Persisted(es)).1 == Done
    ensures SameButCounter(Replayed(st, es).0, Replayed(t, Persisted(es)).0)
    ensures Replayed(t, Persisted(es)).0.nextSequenceId == CounterAfter(t.nextSequenceId, Persisted(es))
    decreases |es|
  {
    hide AppliedEvent, ShouldPersist;
    if es != [] {
      var e := es[0];
      if ShouldPersist(e) {
        EventAside(st, t, e);
        ReplayRebuildsZone(AppliedEvent(st, e).0, AppliedEvent(t, e).0, es[1..]);
        assert Persisted(es)[1..] == Persisted(es[1..]);
      } else {
        DodgeDoesNothing(st, e);
        ReplayRebuildsZone(AppliedEvent(st, e).0, t, es[1..]);
      }
    }
  }

  // ---------- what is recorded ----------

  /**
   * The zone is what its history makes of the zone it began as, the numbers of the history grow and
   * are all used up, and what was persisted is all of it but the dodges.
   */
  ghost predicate Recorded(origin: ZoneState, st: ZoneState, history: seq<Event>, persisted: seq<Event>)
  {
    && Replayed(origin, history).1 == Done && SameButCounter(Replayed(origin, history).0, st)
    && Increasing(history) && (forall e :: e in history ==> e.sequenceNumber < st.nextSequenceId)
    && persisted == Persisted(history)
  }

  /** Starting again from what was persisted: the same zone, its counter one past the last event. */
  lemma RestartRebuilds(origin: ZoneState, st: ZoneState, history: seq<Event>, persisted: seq<Event>)
    requires Recorded(origin, st, history, persisted)
    ensures var (t, r) := Replayed(origin, persisted);
      r == Done && SameButCounter(st, t) && t.nextSequenceId == CounterAfter(origin.nextSequenceId, persisted)
  {
    hide Replayed;
    ReplayRebuildsZone(origin, origin, history);
  }

  lemma BeginsRecorded(origin: ZoneState)
    ensures Recorded(origin, origin, [], [])
  {
  }

  lemma {:induction false} ReplayedConcat(st: ZoneState, es: seq<Event>, fs: seq<Event>)
    requires Replayed(st, es).1 == Done
    ensures Replayed(st, es + fs) == Replayed(Replayed(st, es).0, fs)
    decreases |es|
  {
    hide AppliedEvent;
    if es == [] {
      assert es + fs == fs;
    } else {
      assert (es + fs)[1..] == es[1..] + fs;
      ReplayedConcat(AppliedEvent(st, es[0]).0, es[1..], fs);
    }
  }

  lemma {:induction false} ReplayedAside(st: ZoneState, t: ZoneState, es: seq<Event>)
    requires SameButCounter(st, t) && Replayed(st, es).1 == Done
    ensures Replayed(t, es).1 == Done && SameButCounter(Replayed(st, es).0, Replayed(t, es).0)
    decreases |es|
  {
    hide AppliedEvent;
    if es != [] {
      EventAside(st, t, es[0]);
      ReplayedAside(AppliedEvent(st, es[0]).0, AppliedEvent(t, es[0]).0, es[1..]);
    }
  }

  lemma {:induction false} NumberCons(n: nat, ps: seq<Payload>)
    requires ps != []
    ensures Number(n, ps) == [Event(n, ps[0])] + Number(n + 1, ps[1..])
  {
    if |ps| == 1 {
      assert ps[..0] == [] && ps[1..] == [];
    } else {
      var init, last := ps[..|ps| - 1], ps[|ps| - 1];
      NumberCons(n, init);
      assert ps[1..][..|ps| - 2] == init[1..];
      assert [Event(n, ps[0])] + Number(n + 1, init[1..]) + [Event(n + |ps| - 1, last)] ==
             [Event(n, ps[0])] + (Number(n + 1, init[1..]) + [Event(n + |ps| - 1, last)]);
    }
  }

  /** Events that a command submitted without a failure are events a replay takes. */
  lemma {:induction false} SubmittedIsReplayed(st: ZoneState, ps: seq<Payload>)
    requires SubmittedAll(st, ps).1 == Done
    ensures Replayed(st, Number(st.nextSequenceId, ps)) == SubmittedAll(st, ps)
    ensures SubmittedAll(st, ps).0.nextSequenceId == st.nextSequenceId + |ps|
    decreases |ps|
  {
    hide AppliedEvent;
    if ps != [] {
      var n := st.nextSequenceId;
      var e := Event(n, ps[0]);
      EventAside(st, st.(nextSequenceId := n + 1), e);
      NumberCons(n, ps);
      assert Number(n, ps)[1..] == Number(n + 1, ps[1..]);
      SubmittedIsReplayed(Submitted(st, ps[0]).0, ps[1..]);
    }
  }

  /** A command whose events all go through keeps the record, whatever the zone. */
  lemma SubmittingRecords(origin: ZoneState, st: ZoneState, history: seq<Event>, persisted: seq<Event>,
      ps: seq<Payload>)
    requires Recorded(origin, st, history, persisted) && SubmittedAll(st, ps).1 == Done
    ensures var es := Number(st.nextSequenceId, ps);
      Recorded(origin, SubmittedAll(st, ps).0, history + es, persisted + Persisted(es))
  {
    hide Replayed, SubmittedAll, Persisted;
    var es := Number(st.nextSequenceId, ps);
    SubmittedIsReplayed(st, ps);
    ReplayedConcat(origin, history, es);
    ReplayedAside(st, Replayed(origin, history).0, es);
    PersistedConcat(history, es);
    IncreasingConcat(history, st.nextSequenceId, es);
  }

  /** The counter never falls. */
  lemma {:induction false} CounterGrows(st: ZoneState, ps: seq<Payload>)
    ensures st.nextSequenceId <= SubmittedAll(st, ps).0.nextSequenceId
    decreases |ps|
  {
    hide AppliedEvent;
    if ps != [] {
      var on := st.(nextSequenceId := st.nextSequenceId + 1);
      EventAside(on, on, Event(st.nextSequenceId, ps[0]));
      CounterGrows(Submitted(st, ps[0]).0, ps[1..]);
    }
  }

  /**
   * Of what is not recorded nothing is found after a restart: it agrees with a zone exactly when
   * that is the recorded one, and such a zone can go on with the record.
   */
  lemma UnrecordedExactly(
    origin: ZoneState, st: ZoneState, history: seq<Event>, persisted: seq<Event>, t: ZoneState)
    requires Recorded(origin, st, history, persisted)
    ensures SameButCounter(Replayed(origin, persisted).0, t) <==> SameButCounter(st, t)
    ensures SameButCounter(st, t) && st.nextSequenceId <= t.nextSequenceId ==> Recorded(origin, t, history, persisted)
  {
    hide Replayed;
    RestartRebuilds(origin, st, history, persisted);
  }
}
