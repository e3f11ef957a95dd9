/**
 * The commands of a zone in one datatype: which of them its handlers let pass, what events they
 * become, what they leave unchecked, and that with that granted every command, checked and
 * applied, leaves a settled zone settled.
 */
module Commands {
  import opened Wrappers
  import opened Bytes
  import opened ZoneViews
  import opened ZoneInvariant
  import opened EventSourcing
  import opened PayloadRuns
  import opened ZoneStates
  import opened ZoneCommands
  import opened RemovalCommands
  import opened RemovalRestarts
  import opened ObjectTrees
  import opened ActorDeaths
  import opened Corpses
  import opened Migrations
  import opened Arrivals

  datatype Command =
    /** A command that is nothing but its event. */
    | Carry(payload: Payload)
    | Give(object_: Id, mover: Option<Id>, from: Container, to: Container)
    | Shift(object_: Id, mover_: Id, fromSub: string, subcontainer: string)
    | Die(actor: Id, corpse: Id)
    | Strike(attacker: Id, target: Id, dodged: bool, physical: int, stamina: int, focus: int, corpse: Id)
    | TakeIn(src: ZoneState, actor: Id, toLoc: Id)
    | SendOut(actor: Id)
    | Demolish(location: Id, toHere: seq<Id>)

  /** Attacker and target stand in the same place. */
  predicate Face(st: ZoneState, attacker: Id, target: Id)
  {
    attacker in st.actors && target in st.actors && st.actors[attacker].location == st.actors[target].location
  }

  /**
   * The handlers' checks. The ID drawn for a corpse is a new one, the actor taken in comes from a
   * zone between commands, and the exits leading to a location are those the zone has.
   */
  ghost predicate Passes(st: ZoneState, c: Command)
  {
    match c
    case Carry(p) => Checked(st, p)
    case Give(o, mover, from, to) => MoveChecked(st, o, mover, from, to)
    case Shift(o, mover, fromSub, sub) => MoveSubcontainerChecked(st, o, mover, fromSub, sub)
    case Die(a, corpse) => a in st.actors && corpse !in st.objects
    case Strike(attacker, target, _, _, _, _, corpse) => Face(st, attacker, target) && corpse !in st.objects
    case TakeIn(src, a, _) => SettledState(src) && a in src.actors
    case SendOut(_) => true
    case Demolish(l, toHere) => RemovalChecked(st, l) && LeadingTo(st, l, toHere)
  }

  /** The events a command becomes; those of a removal are in module RemovalCommands. */
  ghost function EventsFor(st: ZoneState, c: Command): seq<Payload>
    requires Passes(st, c) && !c.Demolish?
  {
    match c
    case Carry(p) => [p]
    case Give(o, _, from, to) => [ObjectMove(o, from, to, ANY)]
    case Shift(o, _, fromSub, sub) => [ObjectMoveSubcontainer(o, fromSub, sub)]
    case Die(a, corpse) => DeathPayloads(ViewOf(st), a, corpse, TuplesOf(st, a))
    case Strike(_, target, dodged, physical, stamina, focus, corpse) =>
      MeleePayloads(ViewOf(st), target, dodged, physical, stamina, focus, corpse, TuplesOf(st, target))
    case TakeIn(src, a, toLoc) => Arriving(src, a, toLoc)
    case SendOut(a) => MigrateOut(a, TuplesOf(st, a))
  }

  /** The zone after a command, and whether it went through. */
  ghost function Processed(st: ZoneState, c: Command): (ZoneState, bool)
  {
    if !Passes(st, c) then (st, false)
    else if c.Demolish? then RemovalDone(st, c.location, c.toHere)
    else
      var (t, r) := SubmittedAll(st, EventsFor(st, c));
      (t, r == Done)
  }

  /** What it adds to the log. */
  ghost function PersistedBy(st: ZoneState, c: Command): seq<Event>
  {
    if !Processed(st, c).1 then []
    else if c.Demolish? then [LastOfRemoval(st, c.location, c.toHere)]
    else Persisted(Number(st.nextSequenceId, EventsFor(st, c)))
  }

  /** What the handlers leave unchecked. */
  ghost predicate Guarded(st: ZoneState, c: Command)
  {
    match c
    case Carry(p) => Unchecked(ViewOf(st), p)
    case Give(o, _, _, to) =>
      && (to.InActor? ==> to.id in st.actors && RoomAt(ViewOf(st), o, to.id, Hands))
      && NotInside(ViewOf(st), o, to)
    case TakeIn(src, a, toLoc) => Welcome(st, src, a, toLoc)
    case SendOut(a) => a in st.actors
    case Demolish(l, _) => Removable(st, l)
    case _ => true
  }

  // ---------- one command ----------

  /** The events are ones the zone can take in a row, and nothing is stranded by the last. */
  ghost predicate Takes(st: ZoneState, ps: seq<Payload>)
  {
    AcceptsEach(ViewOf(st), ps) && NoOrphans(EffectAll(ViewOf(st), ps))
  }

  lemma OneTaken(st: ZoneState, p: Payload)
    requires SettledState(st) && Accepts(ViewOf(st), p) && LeavesNoOrphans(ViewOf(st), p)
    ensures Takes(st, [p]) && EffectAll(ViewOf(st), [p]) == Effect(ViewOf(st), p)
  {
    SettledMeans(st);
    hide Sound, NoOrphans, Accepts, Effect, LeavesNoOrphans, AcceptsEach, EffectAll;
    EachOne(ViewOf(st), p);
    EffectKeepsNoOrphans(ViewOf(st), p);
  }

  lemma CarryTaken(st: ZoneState, p: Payload)
    requires SettledState(st) && Checked(st, p) && Unchecked(ViewOf(st), p)
    ensures Takes(st, [p]) && EffectAll(ViewOf(st), [p]) == Effect(ViewOf(st), p)
  {
    hide Linked, Consistent, Checked, Unchecked, Accepts, LeavesNoOrphans;
    CheckedLeaves(st, p);
    OneTaken(st, p);
  }

  lemma GiveTaken(st: ZoneState, o: Id, mover: Option<Id>, from: Container, to: Container)
    requires SettledState(st) && MoveChecked(st, o, mover, from, to)
    requires (to.InActor? ==> RoomAt(ViewOf(st), o, to.id, Hands)) && NotInside(ViewOf(st), o, to)
    ensures Takes(st, [ObjectMove(o, from, to, ANY)])
    ensures EffectAll(ViewOf(st), [ObjectMove(o, from, to, ANY)]) == Effect(ViewOf(st), ObjectMove(o, from, to, ANY))
  {
    hide SettledState, RoomAt, NotInside, Accepts, MoveChecked;
    MoveCheckedExactly(st, o, mover, from, to);
    OneTaken(st, ObjectMove(o, from, to, ANY));
  }

  lemma ShiftTaken(st: ZoneState, o: Id, mover: Id, fromSub: string, sub: string)
    requires SettledState(st) && MoveSubcontainerChecked(st, o, mover, fromSub, sub)
    ensures Takes(st, [ObjectMoveSubcontainer(o, fromSub, sub)])
    ensures EffectAll(ViewOf(st), [ObjectMoveSubcontainer(o, fromSub, sub)]) ==
            Effect(ViewOf(st), ObjectMoveSubcontainer(o, fromSub, sub))
  {
    hide SettledState, Accepts, MoveSubcontainerChecked;
    SettledLinked(st);
    MoveSubcontainerCheckedAccepts(st, o, mover, fromSub, sub);
    OneTaken(st, ObjectMoveSubcontainer(o, fromSub, sub));
  }

  lemma DieTaken(st: ZoneState, a: Id, corpse: Id)
    requires SettledState(st) && a in st.actors && corpse !in st.objects
    ensures a in ViewOf(st).actors && Takes(st, DeathPayloads(ViewOf(st), a, corpse, TuplesOf(st, a)))
    ensures EffectAll(ViewOf(st), DeathPayloads(ViewOf(st), a, corpse, TuplesOf(st, a))) ==
            AfterDeath(ViewOf(st), a, corpse, Ids(TuplesOf(st, a)))
  {
    SettledMeans(st);
    hide Linked, Sound, NoOrphans, Listing, AfterDeath, DeathPayloads, AcceptsEach, EffectAll, TuplesOf;
    TuplesListed(st, a);
    ViewKeys(st);
    DeathConserves(ViewOf(st), a, corpse, TuplesOf(st, a));
  }

  lemma StrikeTaken(st: ZoneState, target: Id, dodged: bool, physical: int, stamina: int, focus: int, corpse: Id)
    requires SettledState(st) && target in st.actors && corpse !in st.objects
    ensures target in ViewOf(st).actors
    ensures var v := ViewOf(st);
      var ps := MeleePayloads(v, target, dodged, physical, stamina, focus, corpse, TuplesOf(st, target));
      && Takes(st, ps)
      && EffectAll(v, ps) ==
         if dodged then v
         else if Lethal(v.actors[target].info.attributes, physical, stamina, focus)
         then AfterDeath(v, target, corpse, Ids(TuplesOf(st, target)))
         else Hurt(v, target, physical, stamina, focus)
  {
    SettledMeans(st);
    hide Linked, Sound, NoOrphans, Listing, AfterDeath, DeathPayloads, MeleePayloads, AcceptsEach, EffectAll, TuplesOf;
    hide Hurt;
    TuplesListed(st, target);
    ViewKeys(st);
    MeleeRun(ViewOf(st), target, dodged, physical, stamina, focus, corpse, TuplesOf(st, target));
  }

  lemma TakeInTaken(st: ZoneState, src: ZoneState, a: Id, toLoc: Id)
    requires SettledState(st) && SettledState(src) && a in src.actors && Welcome(st, src, a, toLoc)
    ensures Takes(st, Arriving(src, a, toLoc))
  {
    hide SettledState, Welcome, NoOrphans, Arrived, Arriving, AcceptsEach, EffectAll, TuplesOf, Ids, ViewOf;
    WelcomeTaken(st, src, a, toLoc);
  }

  lemma SendOutTaken(st: ZoneState, a: Id)
    requires SettledState(st) && a in st.actors
    ensures a in ViewOf(st).actors && Takes(st, MigrateOut(a, TuplesOf(st, a)))
    ensures EffectAll(ViewOf(st), MigrateOut(a, TuplesOf(st, a))) == Departed(ViewOf(st), a, Ids(TuplesOf(st, a)))
  {
    SettledMeans(st);
    hide Linked, Sound, NoOrphans, ParentsFirst, Complete, Departed, MigrateOut, AcceptsEach, EffectAll, TuplesOf;
    TuplesListed(st, a);
    MigrateOutRun(ViewOf(st), a, TuplesOf(st, a));
  }

  /** With what the handlers leave unchecked granted, a command's events are ones the zone can take. */
  lemma GuardedTaken(st: ZoneState, c: Command)
    requires SettledState(st) && Passes(st, c) && Guarded(st, c) && !c.Demolish?
    ensures Takes(st, EventsFor(st, c))
  {
    hide SettledState, Takes, Checked, Unchecked, MoveChecked, MoveSubcontainerChecked, RoomAt, NotInside, TuplesOf;
    hide DeathPayloads, MeleePayloads, Arriving, MigrateOut;
    match c
    case Carry(p) => CarryTaken(st, p);
    case Give(o, mover, from, to) => GiveTaken(st, o, mover, from, to);
    case Shift(o, mover, fromSub, sub) => ShiftTaken(st, o, mover, fromSub, sub);
    case Die(a, corpse) => DieTaken(st, a, corpse);
    case Strike(_, target, dodged, physical, stamina, focus, corpse) =>
      StrikeTaken(st, target, dodged, physical, stamina, focus, corpse);
    case TakeIn(src, a, toLoc) => TakeInTaken(st, src, a, toLoc);
    case SendOut(a) => SendOutTaken(st, a);
  }

  /** A command that passes, with what is left unchecked granted, goes through and settles. */
  lemma CommandSettles(st: ZoneState, c: Command)
    requires SettledState(st) && Passes(st, c) && Guarded(st, c)
    ensures Processed(st, c).1 && SettledState(Processed(st, c).0)
    ensures st.nextSequenceId <= Processed(st, c).0.nextSequenceId
    ensures !c.Demolish? ==>
      && Processed(st, c).0.nextSequenceId == st.nextSequenceId + |EventsFor(st, c)|
      && ViewOf(Processed(st, c).0) ==
         EffectAll(ViewOf(st), EventsFor(st, c)).(nextSequenceId := Processed(st, c).0.nextSequenceId)
  {
    if c.Demolish? {
      assert RemovalChecked(st, c.location) && LeadingTo(st, c.location, c.toHere) && Removable(st, c.location);
      hide SettledState, Removable, RemovalDone, RemovalChecked, LeadingTo;
      RemovalExactly(st, c.location, c.toHere);
      RemovalCounts(st, c.location, c.toHere);
    } else {
      hide SettledState, Passes, Guarded, EventsFor, SubmittedAll, AcceptsEach, EffectAll, NoOrphans;
      GuardedTaken(st, c);
      SubmittingSettles(st, EventsFor(st, c));
    }
  }

  // ---------- what the longer commands come to ----------

  lemma DeathOutcome(st: ZoneState, a: Id, corpse: Id)
    requires SettledState(st) && a in st.actors && corpse !in st.objects
    ensures a in ViewOf(st).actors && Listing(ViewOf(st), InActor(a), TuplesOf(st, a))
    ensures var (t, ok) := Processed(st, Die(a, corpse));
      && ok && SettledState(t)
      && ViewOf(t) == AfterDeath(ViewOf(st), a, corpse, Ids(TuplesOf(st, a))).(nextSequenceId := t.nextSequenceId)
      && corpse in t.objects && t.objects[corpse].contents == Objs(TuplesOf(st, a))
  {
    hide SettledState, SubmittedAll, EffectAll, ParentsFirst, Complete, Ids, AfterDeath, DeathPayloads, TuplesOf, Objs;
    hide ViewOf, Takes;
    TuplesListed(st, a);
    CommandSettles(st, Die(a, corpse));
    DieTaken(st, a, corpse);
    CorpseLists(st, a, corpse, TuplesOf(st, a));
  }

  /** The corpse of one slain lists all it had in order too. */
  lemma SlainLists(st: ZoneState, target: Id, physical: int, stamina: int, focus: int, corpse: Id)
    requires SettledState(st) && target in st.actors && corpse !in st.objects
    requires Lethal(st.actors[target].info.attributes, physical, stamina, focus)
    ensures target in ViewOf(st).actors
    ensures
      var ps := MeleePayloads(ViewOf(st), target, false, physical, stamina, focus, corpse, TuplesOf(st, target));
      var t := SubmittedAll(st, ps).0;
      corpse in t.objects && t.objects[corpse].contents == Objs(TuplesOf(st, target))
  {
    hide SettledState, Submitted, ParentsFirst, Complete, DeathPayloads, TuplesOf, Objs, Hurt, Lethal;
    var v, p := ViewOf(st), CombatMeleeDamage(target, physical, stamina, focus);
    TuplesListed(st, target);
    ViewInfo(st, target);
    hide ViewOf;
    HurtSettles(st, target, physical, stamina, focus);
    var t := Submitted(st, p).0;
    HurtSame(v, target, physical, stamina, focus, corpse, TuplesOf(st, target));
    var w := Hurt(v, target, physical, stamina, focus);
    SameDeath(w, ViewOf(t), target, corpse, TuplesOf(st, target), t.nextSequenceId);
    CorpseLists(t, target, corpse, TuplesOf(st, target));
    SubmittedOne(st, p);
    SubmittedConcat(st, [p], DeathPayloads(v, target, corpse, TuplesOf(st, target)));
  }

  lemma ViewInfo(st: ZoneState, a: Id)
    requires a in st.actors
    ensures a in ViewOf(st).actors && ViewOf(st).actors[a].info == st.actors[a].info
  {
  }

  lemma HurtSettles(st: ZoneState, target: Id, physical: int, stamina: int, focus: int)
    requires SettledState(st) && target in st.actors
    ensures target in ViewOf(st).actors
    ensures var p := CombatMeleeDamage(target, physical, stamina, focus);
      var (t, r) := Submitted(st, p);
      && r == Done && SettledState(t) && target in t.actors && t.objects == st.objects
      && ViewOf(t) == Hurt(ViewOf(st), target, physical, stamina, focus).(nextSequenceId := t.nextSequenceId)
  {
    hide SettledState, Linked, Sound, NoOrphans, ViewOf, Submitted, Accepts, Effect, Hurt, GoesThrough, LeavesNoOrphans;
    SettledMeans(st);
    ViewInfo(st, target);
    HurtStep(ViewOf(st), target, physical, stamina, focus);
    NoneStrandedByBlow(ViewOf(st), target, physical, stamina, focus);
    HurtKeeps(st, target, physical, stamina, focus);
    AcceptedGoesThrough(st, CombatMeleeDamage(target, physical, stamina, focus));
    DoneAndSettled(st, CombatMeleeDamage(target, physical, stamina, focus));
  }

  lemma NoneStrandedByBlow(v: View, target: Id, physical: int, stamina: int, focus: int)
    ensures LeavesNoOrphans(v, CombatMeleeDamage(target, physical, stamina, focus))
  {
  }

  lemma DoneAndSettled(st: ZoneState, p: Payload)
    requires GoesThrough(st, p)
    ensures Submitted(st, p).1 == Done && SettledState(Submitted(st, p).0)
  {
    hide SettledState, Submitted;
  }

  /** A blow changes nothing but the attributes. */
  lemma HurtKeeps(st: ZoneState, target: Id, physical: int, stamina: int, focus: int)
    requires target in st.actors
    ensures var t := Submitted(st, CombatMeleeDamage(target, physical, stamina, focus)).0;
      t.objects == st.objects && target in t.actors && t.nextSequenceId == st.nextSequenceId + 1
  {
    hide Damaged;
  }

  lemma SameDeath(w: View, u: View, a: Id, corpse: Id, s: seq<Tuple>, n: nat)
    requires u == w.(nextSequenceId := n) && a in w.actors
    ensures DeathPayloads(u, a, corpse, s) == DeathPayloads(w, a, corpse, s)
    ensures Listing(w, InActor(a), s) ==> Listing(u, InActor(a), s)
  {
    ListingOfObjects(w, u, InActor(a), s);
    hide Relocations;
  }

  lemma StrikeOutcome(st: ZoneState, attacker: Id, target: Id, dodged: bool, physical: int, stamina: int, focus: int,
      corpse: Id)
    requires SettledState(st) && Face(st, attacker, target) && corpse !in st.objects
    ensures target in ViewOf(st).actors
    ensures var (t, ok) := Processed(st, Strike(attacker, target, dodged, physical, stamina, focus, corpse));
      var killed := !dodged && Lethal(st.actors[target].info.attributes, physical, stamina, focus);
      && ok && SettledState(t)
      && ViewOf(t) == (if dodged then ViewOf(st)
                       else if killed then AfterDeath(ViewOf(st), target, corpse, Ids(TuplesOf(st, target)))
                       else Hurt(ViewOf(st), target, physical, stamina, focus)).(nextSequenceId := t.nextSequenceId)
      && (killed ==> corpse in t.objects && t.objects[corpse].contents == Objs(TuplesOf(st, target)))
  {
    hide SettledState, SubmittedAll, EffectAll, Listing, Ids, AfterDeath, MeleePayloads, TuplesOf, Objs, Hurt, Lethal;
    hide Takes;
    ViewInfo(st, target);
    hide ViewOf;
    CommandSettles(st, Strike(attacker, target, dodged, physical, stamina, focus, corpse));
    StrikeTaken(st, target, dodged, physical, stamina, focus, corpse);
    if !dodged && Lethal(st.actors[target].info.attributes, physical, stamina, focus) {
      SlainLists(st, target, physical, stamina, focus, corpse);
    }
  }

  lemma SendOutOutcome(st: ZoneState, a: Id)
    requires SettledState(st) && a in st.actors
    ensures var (t, ok) := Processed(st, SendOut(a));
      && ok && SettledState(t)
      && ViewOf(t) == Departed(ViewOf(st), a, Ids(TuplesOf(st, a))).(nextSequenceId := t.nextSequenceId)
  {
    hide SettledState, SubmittedAll, EffectAll, Ids, Departed, MigrateOut, TuplesOf, ViewOf, Takes;
    CommandSettles(st, SendOut(a));
    SendOutTaken(st, a);
  }

  /** What a command that is not a removal comes to is what submitting its events comes to. */
  lemma ProcessedAsSubmitted(st: ZoneState, c: Command)
    requires Passes(st, c) && !c.Demolish?
    ensures var (t, r) := SubmittedAll(st, EventsFor(st, c));
      && Processed(st, c) == (t, r == Done)
      && PersistedBy(st, c) == if r == Done then Persisted(Number(st.nextSequenceId, EventsFor(st, c))) else []
  {
  }

  lemma RemovalCounts(st: ZoneState, l: Id, toHere: seq<Id>)
    requires SettledState(st) && RemovalChecked(st, l) && LeadingTo(st, l, toHere) && Removable(st, l)
    ensures RemovalDone(st, l, toHere).0.nextSequenceId == st.nextSequenceId + |Clearing(st, l, toHere)| + 1
  {
    hide SettledState, NoLoop, RemovalDone, LeadingTo, NothingAt;
    assert NoLoop(st, l) && HasPlaceToGo(st, l);
    RemovalView(st, l, toHere);
  }

  /** Sending out an actor that is not there is refused at once. */
  lemma NobodyToSend(st: ZoneState, a: Id)
    requires a !in st.actors
    ensures SubmittedAll(st, MigrateOut(a, TuplesOf(st, a))) == (st.(nextSequenceId := st.nextSequenceId + 1), Refused)
  {
    assert TuplesOf(st, a) == [];
    assert MigrateOut(a, []) == [ActorMigrateOut(a)];
  }

  /** A command goes through and settles exactly when it passes and what its handler leaves unchecked holds. */
  lemma CommandExactly(st: ZoneState, c: Command)
    requires SettledState(st)
    ensures Processed(st, c).1 && SettledState(Processed(st, c).0) <==> Passes(st, c) && Guarded(st, c)
    ensures !Passes(st, c) ==> Processed(st, c) == (st, false)
  {
    hide SettledState, Passes, Guarded, RemovalDone, SubmittedAll, EventsFor;
    if Passes(st, c) {
      PassedExactly(st, c);
    }
  }

  lemma PassedExactly(st: ZoneState, c: Command)
    requires SettledState(st) && Passes(st, c)
    ensures Processed(st, c).1 && SettledState(Processed(st, c).0) <==> Guarded(st, c)
  {
    hide SettledState, Checked, Unchecked, MoveChecked, MoveSubcontainerChecked, RoomAt, NotInside, Submitted;
    hide RemovalChecked, RemovalDone, Removable, LeadingTo, Arriving, Welcome, MigrateOut, TuplesOf;
    match c
    case Carry(p) =>
      SubmittedOne(st, p);
      CheckedExactly(st, p);
    case Give(o, mover, from, to) =>
      SubmittedOne(st, ObjectMove(o, from, to, ANY));
      MoveCheckedExactly(st, o, mover, from, to);
      GivenToKnown(st, o, mover, from, to);
    case TakeIn(src, a, toLoc) =>
      hide Arrived, ViewOf;
      ArrivingExactly(st, src, a, toLoc);
    case SendOut(a) =>
      if a in st.actors {
        CommandSettles(st, c);
      } else {
        NobodyToSend(st, a);
      }
    case Demolish(l, toHere) => RemovalExactly(st, l, toHere);
    case _ => CommandSettles(st, c);
  }

  lemma GivenToKnown(st: ZoneState, o: Id, mover: Option<Id>, from: Container, to: Container)
    requires MoveChecked(st, o, mover, from, to)
    ensures to.InActor? ==> to.id in st.actors
  {
  }
}
