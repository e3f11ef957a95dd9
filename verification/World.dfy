/**
 * Where zones meet the store: loading a zone, snapshotting it from what is stored, and moving an
 * actor from one zone to another.
 */
module Worlds {
  import opened Wrappers
  import opened Bytes
  import opened ZoneViews
  import opened EventSourcing
  import opened ZoneStates
  import opened ZoneCommands
  import opened SnapshotOrder
  import opened SnapshotReplay
  import opened SnapshotStore
  import opened ObjectTrees
  import opened Migrations
  import opened Arrivals
  import opened Commands
  import opened TreeOutcomes
  import opened Zones
  import Frames = EventStream
  import Stores = EventStores

  type StoredEvent = Frames.Event<Payload>
  type Store = Stores.EventStore<Payload>
  type Choices = seq<Frames.Choice<Payload>>

  // ---------- events as they are stored ----------

  function TypeOf(p: Payload): int
  {
    match p
    case ActorMove(_, _, _) => 0
    case ActorAdminRelocate(_, _) => 1
    case ActorAddToZone(_, _, _) => 2
    case ActorRemoveFromZone(_) => 3
    case ActorDeath(_) => 4
    case ActorMigrateIn(_, _, _) => 5
    case ActorMigrateOut(_) => 6
    case ActorSpeak(_, _) => 7
    case LocationAddToZone(_, _) => 8
    case LocationRemoveFromZone(_) => 9
    case LocationUpdate(_, _) => 10
    case ExitAddToZone(_, _, _, _, _, _) => 11
    case ExitUpdate(_, _, _, _, _, _) => 12
    case ExitRemoveFromZone(_) => 13
    case ObjectAddToZone(_, _, _, _) => 14
    case ObjectRemoveFromZone(_) => 15
    case ObjectMove(_, _, _, _) => 16
    case ObjectMoveSubcontainer(_, _, _) => 17
    case ObjectAdminRelocate(_, _, _) => 18
    case ObjectMigrateIn(_, _, _, _) => 19
    case ObjectMigrateOut(_) => 20
    case ZoneSetDefaultLocation(_) => 21
    case CombatMeleeDamage(_, _, _, _) => 22
    case CombatDodge(_) => 23
  }

  /** Each kind of event has its number, and no other kind has it. */
  lemma TypeNumbers(p: Payload)
    ensures p.ActorMove? <==> TypeOf(p) == 0
    ensures p.ActorAdminRelocate? <==> TypeOf(p) == 1
    ensures p.ActorAddToZone? <==> TypeOf(p) == 2
    ensures p.ActorRemoveFromZone? <==> TypeOf(p) == 3
    ensures p.ActorDeath? <==> TypeOf(p) == 4
    ensures p.ActorMigrateIn? <==> TypeOf(p) == 5
    ensures p.ActorMigrateOut? <==> TypeOf(p) == 6
    ensures p.ActorSpeak? <==> TypeOf(p) == 7
    ensures p.LocationAddToZone? <==> TypeOf(p) == 8
    ensures p.LocationRemoveFromZone? <==> TypeOf(p) == 9
    ensures p.LocationUpdate? <==> TypeOf(p) == 10
    ensures p.ExitAddToZone? <==> TypeOf(p) == 11
    ensures p.ExitUpdate? <==> TypeOf(p) == 12
    ensures p.ExitRemoveFromZone? <==> TypeOf(p) == 13
    ensures p.ObjectAddToZone? <==> TypeOf(p) == 14
    ensures p.ObjectRemoveFromZone? <==> TypeOf(p) == 15
    ensures p.ObjectMove? <==> TypeOf(p) == 16
    ensures p.ObjectMoveSubcontainer? <==> TypeOf(p) == 17
    ensures p.ObjectAdminRelocate? <==> TypeOf(p) == 18
    ensures p.ObjectMigrateIn? <==> TypeOf(p) == 19
    ensures p.ObjectMigrateOut? <==> TypeOf(p) == 20
    ensures p.ZoneSetDefaultLocation? <==> TypeOf(p) == 21
    ensures p.CombatMeleeDamage? <==> TypeOf(p) == 22
    ensures p.CombatDodge? <==> TypeOf(p) == 23
  {
  }

  /** What is to be persisted, that is all but dodges, is just what the store has a form for. */
  lemma PersistableExactly(e: Event)
    ensures Frames.Persistable(TypeOf(e.payload)) <==> ShouldPersist(e)
    ensures ShouldPersist(e) <==> !e.payload.CombatDodge?
  {
  }

  /** readEvent: which kind of event the body under a number is decoded as. */
  predicate ReadAs(eventType: int, p: Payload)
  {
    || (eventType == 0 && p.ActorMove?)
    || (eventType == 1 && p.ActorAdminRelocate?)
    || (eventType == 2 && p.ActorAddToZone?)
    || (eventType == 3 && p.ActorRemoveFromZone?)
    || (eventType == 4 && p.ActorDeath?)
    || (eventType == 5 && p.ActorMigrateIn?)
    || (eventType == 6 && p.ActorMigrateOut?)
    || (eventType == 7 && p.ActorSpeak?)
    || (eventType == 8 && p.LocationAddToZone?)
    || (eventType == 9 && p.LocationRemoveFromZone?)
    || (eventType == 10 && p.LocationUpdate?)
    || (eventType == 11 && p.ExitAddToZone?)
    || (eventType == 12 && p.ExitUpdate?)
    || (eventType == 13 && p.ExitRemoveFromZone?)
    || (eventType == 14 && p.ObjectAddToZone?)
    || (eventType == 15 && p.ObjectRemoveFromZone?)
    || (eventType == 16 && p.ObjectMove?)
    || (eventType == 17 && p.ObjectMoveSubcontainer?)
    || (eventType == 18 && p.ObjectAdminRelocate?)
    || (eventType == 19 && p.ObjectMigrateIn?)
    || (eventType == 20 && p.ObjectMigrateOut?)
    || (eventType == 21 && p.ZoneSetDefaultLocation?)
    || (eventType == 22 && p.CombatMeleeDamage?)
  }

  /** Decoding goes by the number alone, so it yields just that kind of event. */
  ghost predicate Typed(c: Frames.Codec<Payload>)
  {
    forall t, p :: c.isOf(t, p) <==> ReadAs(t, p)
  }

  /** An event's number is the one that its kind is read under. */
  lemma WrittenAsRead(p: Payload, eventType: int)
    ensures ReadAs(eventType, p) <==> TypeOf(p) == eventType && Frames.Persistable(eventType)
  {
  }

  /** What the store keeps of an event: of a blow, the damage to stamina in place of that to focus. */
  function AsStored(p: Payload): Payload
  {
    if p.CombatMeleeDamage? then p.(focusDmg := p.staminaDmg) else p
  }

  /** Nothing else of an event is lost. */
  lemma StoredForm(p: Payload)
    ensures p.CombatMeleeDamage? ==>
      AsStored(p) == CombatMeleeDamage(p.target, p.physicalDmg, p.staminaDmg, p.staminaDmg)
    ensures !p.CombatMeleeDamage? ==> AsStored(p) == p
  {
  }

  function FromDomain(zone: Id, stamp: Frames.Stamp, e: Event): StoredEvent
  {
    Frames.Event(TypeOf(e.payload), stamp, 1, zone, e.sequenceNumber, AsStored(e.payload))
  }

  function ToDomain(e: StoredEvent): Event
  {
    Event(e.sequenceNumber, e.body)
  }

  function AllToDomain(es: seq<StoredEvent>): (r: seq<Event>)
    ensures |r| == |es|
  {
    if es == [] then [] else [ToDomain(es[0])] + AllToDomain(es[1..])
  }

  function AllFromDomain(zone: Id, stamp: Frames.Stamp, es: seq<Event>): (r: seq<StoredEvent>)
    ensures |r| == |es|
  {
    if es == [] then [] else [FromDomain(zone, stamp, es[0])] + AllFromDomain(zone, stamp, es[1..])
  }

  /** A blow that takes as much focus as stamina, as all the program's blows do. */
  predicate Even(p: Payload)
  {
    p.CombatMeleeDamage? ==> p.staminaDmg == p.focusDmg
  }

  /** Events come back from the store as they were exactly when every blow among them is even. */
  lemma {:induction false} SurvivesExactly(zone: Id, stamp: Frames.Stamp, es: seq<Event>)
    ensures AllToDomain(AllFromDomain(zone, stamp, es)) == es <==> forall e :: e in es ==> Even(e.payload)
  {
    if es != [] {
      SurvivesExactly(zone, stamp, es[1..]);
      var back := AllToDomain(AllFromDomain(zone, stamp, es));
      assert back == [ToDomain(FromDomain(zone, stamp, es[0]))] + AllToDomain(AllFromDomain(zone, stamp, es[1..]));
      assert es == [es[0]] + es[1..];
      assert back[1..] == AllToDomain(AllFromDomain(zone, stamp, es[1..]));
      assert ToDomain(FromDomain(zone, stamp, es[0])) == es[0] <==> Even(es[0].payload);
    }
  }

  /** And a blow that is not even leaves its target, once replayed, with another focus than it had. */
  lemma UnevenDrifts(v: View, p: Payload)
    requires p.CombatMeleeDamage? && p.target in v.actors
    ensures Effect(v, AsStored(p)) == Effect(v, p) <==> Even(p)
  {
    var a := p.target;
    assert Effect(v, p).actors[a].info.attributes.focus == v.actors[a].info.attributes.focus - p.focusDmg;
    assert Effect(v, AsStored(p)).actors[a].info.attributes.focus == v.actors[a].info.attributes.focus - p.staminaDmg;
  }

  lemma {:induction false} AllToDomainConcat(a: seq<StoredEvent>, b: seq<StoredEvent>)
    ensures AllToDomain(a + b) == AllToDomain(a) + AllToDomain(b)
  {
    if a == [] {
      assert a + b == b;
    } else {
      assert (a + b)[1..] == a[1..] + b;
      AllToDomainConcat(a[1..], b);
    }
  }

  // ---------- what retrieval yields ----------

  lemma {:induction false} ResponsesConcat(a: seq<StoredEvent>, b: seq<StoredEvent>)
    ensures Stores.Responses(Frames.Stream(a, true)) + Stores.Responses(Frames.Stream(b, true)) ==
            Stores.Responses(Frames.Stream(a + b, true))
    decreases |a|
  {
    if a == [] {
      assert a + b == b;
    } else {
      assert (a + b)[1..] == a[1..] + b;
      ResponsesConcat(a[1..], b);
    }
  }

  /** All events of the zone, in the order they were stored. */
  function OfZone(es: seq<StoredEvent>, zone: Id): seq<Event>
  {
    AllToDomain(Stores.Filter(es, zone, 0, Stores.MAX_UINT64))
  }

  lemma {:induction false} FilteredUpTo(es: seq<StoredEvent>, zone: Id, end: nat)
    requires end <= Stores.MAX_UINT64
    ensures AllToDomain(Stores.Filter(es, zone, 0, end)) == UpTo(OfZone(es, zone), end)
  {
    if es != [] {
      FilteredUpTo(es[1..], zone, end);
    }
  }

  /** The filtered tail is what comes after the snapshot's number. */
  lemma {:induction false} FilteredAfter(es: seq<StoredEvent>, zone: Id, s: nat, end: nat)
    requires s < Stores.MAX_UINT64 && end <= Stores.MAX_UINT64
    ensures AllToDomain(Stores.Filter(es, zone, Stores.StartAfter(s), end)) == After(UpTo(OfZone(es, zone), end), s)
  {
    assert Stores.StartAfter(s) == s + 1;
    if es != [] {
      FilteredAfter(es[1..], zone, s, end);
    }
  }

  /** The bytes of the log are those of the events xs. */
  ghost predicate Logged(store: Store, xs: Choices, zone: Id)
    reads store
  {
    && Frames.Invertible(store.codec) && Typed(store.codec) && Frames.AllStorable(store.codec, xs)
    && store.file == Frames.WriteAll(store.codec, xs)
    && Stores.ZoneIncreasing(Frames.Events(xs), zone)
  }

  /**
   * The zone's snapshot files are those of ys, which read as snaps. A file numbered with the
   * largest number there is, is that of a zone with nothing in it, and empty.
   */
  ghost predicate Filed(store: Store, ys: map<nat, Choices>, snaps: Snapshots, zone: Id)
    reads store
  {
    && (forall n :: n in ys <==> (zone, n) in store.snapshots)
    && (forall n :: n in ys ==>
          && n <= Stores.MAX_UINT64 && Frames.AllStorable(store.codec, ys[n])
          && store.snapshots[(zone, n)] == Frames.WriteAll(store.codec, ys[n]))
    && (forall n :: n in snaps <==> n in ys && n != Stores.MAX_UINT64)
    && (forall n :: n in snaps ==> snaps[n] == AllToDomain(Frames.Events(ys[n])))
    && (Stores.MAX_UINT64 in ys ==> ys[Stores.MAX_UINT64] == [])
  }

  // ---------- what zones persisted is what is logged ----------

  /** One event given to the store, by a zone at a time, and whether the store compressed it. */
  datatype Record = Record(zone: Id, stamp: Frames.Stamp, event: Event, compress: bool)

  function Stored(r: Record): Frames.Choice<Payload>
  {
    (FromDomain(r.zone, r.stamp, r.event), r.compress)
  }

  ghost function AllStored(rs: seq<Record>): (xs: Choices)
    ensures |xs| == |rs|
  {
    if rs == [] then [] else AllStored(rs[..|rs| - 1]) + [Stored(rs[|rs| - 1])]
  }

  /** It is persisted and comes back as it was, and its header fits. */
  predicate Kept(c: Frames.Codec<Payload>, r: Record)
  {
    ShouldPersist(r.event) && Even(r.event.payload) && Frames.Framed(c, Stored(r))
  }

  /** The bytes of the events, one appended after the other. */
  ghost function Appended(c: Frames.Codec<Payload>, rs: seq<Record>): seq<byte>
    requires forall r :: r in rs ==> Kept(c, r)
  {
    if rs == [] then []
    else
      var r := rs[|rs| - 1];
      assert Frames.Persistable(TypeOf(r.event.payload)) by {
        assert r in rs && Kept(c, r);
        PersistableExactly(r.event);
      }
      Appended(c, rs[..|rs| - 1]) + Frames.WriteEvent(c, FromDomain(r.zone, r.stamp, r.event), r.compress).value
  }

  /** What the zone gave the store, in order. */
  function OwnEvents(rs: seq<Record>, zone: Id): seq<Event>
  {
    if rs == [] then []
    else OwnEvents(rs[..|rs| - 1], zone) + if rs[|rs| - 1].zone == zone then [rs[|rs| - 1].event] else []
  }

  lemma KeptIsStorable(c: Frames.Codec<Payload>, r: Record)
    requires Typed(c) && Kept(c, r)
    ensures Frames.Storable(c, Stored(r))
  {
    PersistableExactly(r.event);
    StoredKind(r.event.payload);
    WrittenAsRead(AsStored(r.event.payload), TypeOf(r.event.payload));
    hide Frames.Framed, TypeOf, ReadAs;
  }

  lemma {:induction false} AppendedIsAll(c: Frames.Codec<Payload>, rs: seq<Record>)
    requires Typed(c) && forall r :: r in rs ==> Kept(c, r)
    ensures Frames.AllStorable(c, AllStored(rs)) && Appended(c, rs) == Frames.WriteAll(c, AllStored(rs))
  {
    hide Typed, Kept, Stored, Frames.WriteEvent, Frames.Storable;
    if rs != [] {
      AppendedIsAll(c, rs[..|rs| - 1]);
      var r := rs[|rs| - 1];
      KeptIsStorable(c, r);
      Frames.WriteAllSnoc(c, AllStored(rs[..|rs| - 1]), Stored(r));
      StoredIs(r);
    }
  }

  lemma StoredIs(r: Record)
    ensures Stored(r) == (FromDomain(r.zone, r.stamp, r.event), r.compress)
  {
  }

  lemma {:induction false} FilterSnoc(es: seq<StoredEvent>, e: StoredEvent, zone: Id, start: nat, end: nat)
    ensures Stores.Filter(es + [e], zone, start, end) ==
      Stores.Filter(es, zone, start, end) + if Stores.Wanted(e, zone, start, end) then [e] else []
  {
    if es != [] {
      FilterSnoc(es[1..], e, zone, start, end);
      assert (es + [e])[1..] == es[1..] + [e];
    }
  }

  lemma {:induction false} EventsSnoc(xs: Choices, x: Frames.Choice<Payload>)
    ensures Frames.Events(xs + [x]) == Frames.Events(xs) + [x.0]
  {
    if xs != [] {
      EventsSnoc(xs[1..], x);
      assert (xs + [x])[1..] == xs[1..] + [x];
    }
  }

  lemma {:induction false} OwnIsOfZone(c: Frames.Codec<Payload>, rs: seq<Record>, zone: Id)
    requires forall r :: r in rs ==> Kept(c, r)
    ensures OfZone(Frames.Events(AllStored(rs)), zone) == OwnEvents(rs, zone)
  {
    hide Stores.Filter, AllToDomain;
    if rs == [] {
      NothingOfZone(zone);
    } else {
      var init, r := rs[..|rs| - 1], rs[|rs| - 1];
      OwnIsOfZone(c, init, zone);
      EventsSnoc(AllStored(init), Stored(r));
      assert r in rs && Kept(c, r);
      FilterSnoc(Frames.Events(AllStored(init)), Stored(r).0, zone, 0, Stores.MAX_UINT64);
      var before := Stores.Filter(Frames.Events(AllStored(init)), zone, 0, Stores.MAX_UINT64);
      AllToDomainConcat(before, [Stored(r).0]);
      assert before + [] == before;
      OneToDomain(r);
    }
  }

  lemma NothingOfZone(zone: Id)
    ensures OfZone([], zone) == []
  {
  }

  lemma OneToDomain(r: Record)
    ensures Even(r.event.payload) ==> AllToDomain([Stored(r).0]) == [r.event]
  {
    assert [Stored(r).0][1..] == [];
  }

  /** Every stored event of the zone carries the number of one of its own. */
  ghost predicate NumbersOwn(es: seq<StoredEvent>, own: seq<Event>, zone: Id)
  {
    forall e :: e in es && e.aggregateId == zone ==> exists x :: x in own && x.sequenceNumber == e.sequenceNumber
  }

  lemma GrowOneMore(es: seq<StoredEvent>, own: seq<Event>, zone: Id, e: StoredEvent, x: Event)
    requires Stores.ZoneIncreasing(es, zone) && NumbersOwn(es, own, zone) && Increasing(own + [x])
    requires e.sequenceNumber == x.sequenceNumber
    ensures Stores.ZoneIncreasing(es + [e], zone) && NumbersOwn(es + [e], own + [x], zone)
  {
    forall f | f in es && f.aggregateId == zone
      ensures f.sequenceNumber < e.sequenceNumber
    {
      var y :| y in own && y.sequenceNumber == f.sequenceNumber;
      var i :| 0 <= i < |own| && own[i] == y;
      assert (own + [x])[i].sequenceNumber < (own + [x])[|own|].sequenceNumber;
    }
    assert x in own + [x] && forall y :: y in own ==> y in own + [x];
  }

  lemma GrowOther(es: seq<StoredEvent>, own: seq<Event>, zone: Id, e: StoredEvent)
    requires Stores.ZoneIncreasing(es, zone) && NumbersOwn(es, own, zone) && e.aggregateId != zone
    ensures Stores.ZoneIncreasing(es + [e], zone) && NumbersOwn(es + [e], own, zone)
  {
  }

  lemma {:induction false} OwnGrow(rs: seq<Record>, zone: Id)
    requires Increasing(OwnEvents(rs, zone))
    ensures Stores.ZoneIncreasing(Frames.Events(AllStored(rs)), zone)
    ensures NumbersOwn(Frames.Events(AllStored(rs)), OwnEvents(rs, zone), zone)
  {
    if rs != [] {
      var init, r := rs[..|rs| - 1], rs[|rs| - 1];
      var own, mine := OwnEvents(rs, zone), OwnEvents(init, zone);
      assert forall i :: 0 <= i < |mine| ==> own[i] == mine[i];
      OwnGrow(init, zone);
      EventsSnoc(AllStored(init), Stored(r));
      hide Frames.Events, TypeOf, Stores.ZoneIncreasing, NumbersOwn;
      if r.zone == zone {
        GrowOneMore(Frames.Events(AllStored(init)), mine, zone, Stored(r).0, r.event);
      } else {
        assert own == mine;
        GrowOther(Frames.Events(AllStored(init)), mine, zone, Stored(r).0);
      }
    }
  }

  /**
   * A file that zones' events were appended to, each under the number of its kind, is a log of
   * them; and what the log has of a zone is what that zone persisted, in order.
   */
  lemma PersistedIsLogged(store: Store, rs: seq<Record>, zone: Id)
    requires Frames.Invertible(store.codec) && Typed(store.codec)
    requires forall r :: r in rs ==> Kept(store.codec, r)
    requires store.file == Appended(store.codec, rs) && Increasing(OwnEvents(rs, zone))
    ensures Logged(store, AllStored(rs), zone)
    ensures OfZone(Frames.Events(AllStored(rs)), zone) == OwnEvents(rs, zone)
  {
    hide Frames.Invertible, Typed, Kept, Appended, Increasing, Stores.ZoneIncreasing, Frames.AllStorable;
    AppendedIsAll(store.codec, rs);
    OwnIsOfZone(store.codec, rs, zone);
    OwnGrow(rs, zone);
  }

  /** What the store answers is one of these. */
  ghost predicate Answer(es: seq<Event>, snaps: Snapshots, end: nat, loaded: seq<Event>)
  {
    Answers(es, snaps, end, loaded) || (end == Stores.MAX_UINT64 && loaded == es)
  }

  lemma LogTail(store: Store, xs: Choices, zone: Id, start: nat, end: nat)
    requires Logged(store, xs, zone)
    ensures Stores.Tail(Stores.Responses(Frames.ReadAll(store.codec, store.file)), zone, start, end) ==
            Stores.Responses(Frames.Stream(Stores.Filter(Frames.Events(xs), zone, start, end), true))
  {
    Frames.StreamRoundTrip(store.codec, xs);
    Stores.TailIsFilter(Frames.Events(xs), zone, start, end);
  }

  lemma SnapshotRead(store: Store, ys: map<nat, Choices>, snaps: Snapshots, zone: Id, n: nat)
    requires Filed(store, ys, snaps, zone) && Frames.Invertible(store.codec) && n in ys
    ensures Frames.ReadAll(store.codec, store.snapshots[(zone, n)]) == Frames.Stream(Frames.Events(ys[n]), true)
  {
    Frames.StreamRoundTrip(store.codec, ys[n]);
  }

  /** Which events the responses are, given the newest snapshot. */
  ghost function Loaded(xs: Choices, ys: map<nat, Choices>, zone: Id, end: nat, newest: Option<nat>): seq<StoredEvent>
    requires newest.Some? ==> newest.value in ys
  {
    match newest
    case None => Stores.Filter(Frames.Events(xs), zone, 0, end)
    case Some(n) => Frames.Events(ys[n]) + Stores.Filter(Frames.Events(xs), zone, Stores.StartAfter(n), end)
  }

  lemma RetrievedLoaded(store: Store, xs: Choices, ys: map<nat, Choices>, snaps: Snapshots, zone: Id, end: nat,
      newest: Option<nat>)
    requires Logged(store, xs, zone) && Filed(store, ys, snaps, zone)
    requires newest.Some? ==> newest.value in ys && (zone, newest.value) in store.snapshots
    ensures store.Retrieved(zone, end, newest) ==
            Stores.Responses(Frames.Stream(Loaded(xs, ys, zone, end, newest), true))
  {
    hide Logged, Filed, Frames.ReadAll;
    match newest
    case None => LogTail(store, xs, zone, 0, end);
    case Some(n) =>
      LogTail(store, xs, zone, Stores.StartAfter(n), end);
      assert Frames.Invertible(store.codec) by { LoggedCodec(store, xs, zone); }
      SnapshotRead(store, ys, snaps, zone, n);
      ResponsesConcat(Frames.Events(ys[n]), Stores.Filter(Frames.Events(xs), zone, Stores.StartAfter(n), end));
  }

  lemma LoggedCodec(store: Store, xs: Choices, zone: Id)
    requires Logged(store, xs, zone)
    ensures Frames.Invertible(store.codec) && Typed(store.codec)
  {
  }

  /** What is retrieved is the newest snapshot, if any, and then what came after it. */
  lemma LoadedAnswers(store: Store, xs: Choices, ys: map<nat, Choices>, snaps: Snapshots, zone: Id, end: nat,
      newest: Option<nat>)
    requires Filed(store, ys, snaps, zone) && end <= Stores.MAX_UINT64
    requires Stores.Newest(store.snapshots.Keys, zone, end, newest)
    ensures newest.Some? ==> newest.value in ys && (zone, newest.value) in store.snapshots
    ensures Answer(OfZone(Frames.Events(xs), zone), snaps, end, AllToDomain(Loaded(xs, ys, zone, end, newest)))
  {
    var evs := Frames.Events(xs);
    hide Frames.AllStorable, Frames.WriteAll;
    match newest
    case None =>
      FilteredUpTo(evs, zone, end);
      forall n | n in snaps
        ensures n > end
      {
        assert (zone, n) in store.snapshots.Keys;
      }
    case Some(s) =>
      assert (zone, s) in store.snapshots;
      AllToDomainConcat(Frames.Events(ys[s]), Stores.Filter(evs, zone, Stores.StartAfter(s), end));
      if s == Stores.MAX_UINT64 {
        assert Stores.StartAfter(s) == 0;
      } else {
        FilteredAfter(evs, zone, s, end);
        forall t | t in snaps && t <= end
          ensures t <= s
        {
          assert (zone, t) in store.snapshots.Keys;
        }
        assert NewestNumber(snaps, end, s);
      }
  }

  /** An answer rebuilds what a full replay would, but for a default location and the counter. */
  lemma AnswerRebuilds(es: seq<Event>, snaps: Snapshots, end: nat, loaded: seq<Event>)
    requires Good(es, snaps) && Answer(es, snaps, end, loaded)
    requires forall e :: e in es ==> e.sequenceNumber <= Stores.MAX_UINT64
    ensures AcceptsAll(EMPTY, loaded)
    ensures Covers(ApplyAll(EMPTY, UpTo(es, end)), ApplyAll(EMPTY, loaded))
  {
    hide IsSnapshot, AcceptsAll, ApplyAll, Answers;
    if Answers(es, snaps, end, loaded) {
      AnswersRebuild(es, snaps, end, loaded);
    } else {
      UpToAll(es, end);
    }
  }

  /** What a zone persisted of events it could take is good to load it from. */
  lemma AcceptedIsGood(history: seq<Event>)
    requires AcceptsAll(EMPTY, history) && Increasing(history)
    ensures Good(Persisted(history), map[])
  {
    hide Apply, Accepts;
    ReplayRebuilds(EMPTY, EMPTY, history);
    PersistedOfIncreasing(history);
  }

  /** A load yields nothing only if the whole log makes a zone with nothing in it; so the number wraps for no other. */
  lemma NothingLoaded(es: seq<Event>, snaps: Snapshots, end: nat, loaded: seq<Event>)
    requires Good(es, snaps) && Answer(es, snaps, end, loaded) && loaded == []
    requires forall e :: e in es ==> e.sequenceNumber <= Stores.MAX_UINT64
    ensures Bare(ApplyAll(EMPTY, UpTo(es, end)))
  {
    hide Good, Answer, ApplyAll;
    AnswerRebuilds(es, snaps, end, loaded);
    NothingApplied();
  }

  /** Nothing is in the zone. */
  predicate Bare(v: View)
  {
    v.locations == map[] && v.actors == map[] && v.exits == map[] && v.objects == map[]
  }

  // ---------- loading and snapshotting ----------

  /** The responses of a stream that ends well are just its events. */
  lemma {:induction false} ResponsesAt(es: seq<StoredEvent>, i: nat)
    requires i < |es|
    ensures |Stores.Responses(Frames.Stream(es, true))| == |es|
    ensures Stores.Responses(Frames.Stream(es, true))[i] == Stores.Value(es[i])
    decreases |es|
  {
    if i > 0 {
      ResponsesAt(es[1..], i - 1);
    } else if |es| > 1 {
      ResponsesAt(es[1..], 0);
    }
  }

  lemma {:induction false} AllToDomainAt(es: seq<StoredEvent>, i: nat)
    requires i < |es|
    ensures AllToDomain(es)[..i + 1] == AllToDomain(es)[..i] + [ToDomain(es[i])]
    decreases |es|
  {
    if i > 0 {
      AllToDomainAt(es[1..], i - 1);
      assert AllToDomain(es)[i] == AllToDomain(es[1..])[i - 1];
    }
  }

  /** Feed what the store answers into a new zone. */
  method ReplayResponses(z: Zone, rs: seq<Stores.Response<Payload>>, ghost es: seq<StoredEvent>) returns (ok: bool)
    requires z.Valid() && AcceptsAll(z.View(), AllToDomain(es))
    requires rs == Stores.Responses(Frames.Stream(es, true))
    modifies z
    ensures ok && z.Valid() && z.View() == ApplyAll(old(z.View()), AllToDomain(es))
    ensures z.origin == z.State() && z.history == [] && z.persisted == old(z.persisted)
    ensures old(z.persisted) == [] ==> z.Recorded()
  {
    hide AcceptsAll, ApplyAll, ZoneReplays.Recorded;
    var events: seq<Event> := [];
    if es == [] {
      assert rs == [];
    } else {
      ResponsesAt(es, 0);
    }
    for i := 0 to |rs|
      invariant |rs| == |es| && events == AllToDomain(es)[..i]
      modifies {}
    {
      ResponsesAt(es, i);
      AllToDomainAt(es, i);
      if rs[i].Error? {
        return false;
      }
      events := events + [ToDomain(rs[i].event)];
    }
    assert events == AllToDomain(es);
    var r := z.ReplayEvents(events);
    ok := r == Done;
  }

  /**
   * A zone loaded from the store is the one a replay of all its events up to that number would
   * give, but for a default location that a snapshot forgot, and the sequence counter. It is
   * settled exactly when that one strands nothing; and its record begins with it.
   */
  method LoadZone(store: Store, zone: Id, end: nat, ghost xs: Choices, ghost ys: map<nat, Choices>,
      ghost snaps: Snapshots)
    returns (z: Zone, ok: bool, ghost loaded: seq<Event>)
    requires end <= Stores.MAX_UINT64
    requires Logged(store, xs, zone) && Filed(store, ys, snaps, zone)
    requires Good(OfZone(Frames.Events(xs), zone), snaps)
    requires forall e :: e in OfZone(Frames.Events(xs), zone) ==> e.sequenceNumber <= Stores.MAX_UINT64
    ensures ok && fresh(z) && z.Valid()
    ensures Answer(OfZone(Frames.Events(xs), zone), snaps, end, loaded) && z.View() == ApplyAll(EMPTY, loaded)
    ensures Covers(ApplyAll(EMPTY, UpTo(OfZone(Frames.Events(xs), zone), end)), z.View())
    ensures z.Settled() <==> NoOrphans(ApplyAll(EMPTY, UpTo(OfZone(Frames.Events(xs), zone), end)))
    ensures z.Recorded() && z.persisted == []
  {
    hide Logged, Filed, Good, Stores.Newest, Answer, AcceptsAll, ApplyAll, Covers, Linked, Sound, NoOrphans;
    hide ZoneReplays.Recorded;
    ghost var newest;
    var rs;
    rs, newest := store.RetrieveEventsUpToSequenceNumForZone(end, zone);
    LoadedAnswers(store, xs, ys, snaps, zone, end, newest);
    RetrievedLoaded(store, xs, ys, snaps, zone, end, newest);
    loaded := AllToDomain(Loaded(xs, ys, zone, end, newest));
    AnswerRebuilds(OfZone(Frames.Events(xs), zone), snaps, end, loaded);
    z := new Zone();
    assert z.View() == EMPTY by { EmptyLinked(); }
    ok := ReplayResponses(z, rs, Loaded(xs, ys, zone, end, newest));
    CoveredConsistent(ApplyAll(EMPTY, UpTo(OfZone(Frames.Events(xs), zone), end)), z.View());
  }

  /** All a snapshot is made of can be stored. */
  lemma {:induction false} SnapshotPersistable(v: View, ord: seq<Node>, seqNum: nat, zone: Id, stamp: Frames.Stamp)
    requires forall n :: n in ord ==> InZone(v, n)
    ensures forall e :: e in AllFromDomain(zone, stamp, SnapshotEvents(v, ord, seqNum)) ==>
      Frames.Persistable(e.eventType)
  {
    SnapshotTypes(v, ord, seqNum);
    TypesStored(zone, stamp, SnapshotEvents(v, ord, seqNum));
  }

  lemma {:induction false} SnapshotTypes(v: View, ord: seq<Node>, seqNum: nat)
    requires forall n :: n in ord ==> InZone(v, n)
    ensures forall e :: e in SnapshotEvents(v, ord, seqNum) ==> ShouldPersist(e)
  {
    if ord != [] {
      SnapshotTypes(v, ord[..|ord| - 1], seqNum);
      assert InZone(v, ord[|ord| - 1]);
    }
  }

  lemma {:induction false} TypesStored(zone: Id, stamp: Frames.Stamp, es: seq<Event>)
    requires forall e :: e in es ==> ShouldPersist(e)
    ensures forall e :: e in AllFromDomain(zone, stamp, es) ==> Frames.Persistable(e.eventType)
  {
    if es != [] {
      TypesStored(zone, stamp, es[1..]);
      PersistableExactly(es[0]);
    }
  }

  lemma CoveredConsistent(v: View, w: View)
    requires Covers(v, w)
    ensures NoOrphans(v) <==> NoOrphans(w)
  {
  }

  lemma FirstIsMember(order: seq<Node>)
    requires order != []
    ensures order[0] in order
  {
  }

  lemma NothingCovered(w: View, order: seq<Node>, seqNum: nat)
    requires Bare(w) && SnapshotOrdering(w, order)
    ensures SnapshotEvents(w, order, seqNum) == []
  {
    if order != [] {
      FirstIsMember(order);
    }
  }

  /** The snapshots and their files, with one more. */
  lemma FiledOneMore(store: Store, before: Stores.Directory, ys: map<nat, Choices>, snaps: Snapshots, zone: Id, n: nat,
                     one: Choices, ys': map<nat, Choices>, snaps': Snapshots)
    requires forall k :: k in ys <==> (zone, k) in before
    requires forall k :: k in ys ==>
      && k <= Stores.MAX_UINT64 && Frames.AllStorable(store.codec, ys[k])
         && before[(zone, k)] == Frames.WriteAll(store.codec, ys[k])
    requires forall k :: k in snaps <==> k in ys && k != Stores.MAX_UINT64
    requires forall k :: k in snaps ==> snaps[k] == AllToDomain(Frames.Events(ys[k]))
    requires Stores.MAX_UINT64 in ys ==> ys[Stores.MAX_UINT64] == []
    requires n <= Stores.MAX_UINT64 && Frames.AllStorable(store.codec, one) && (n == Stores.MAX_UINT64 ==> one == [])
    requires store.snapshots == before[(zone, n) := Frames.WriteAll(store.codec, one)]
    requires ys' == ys[n := one]
    requires snaps' == if n == Stores.MAX_UINT64 then snaps else snaps[n := AllToDomain(Frames.Events(one))]
    ensures Filed(store, ys', snaps', zone)
  {
    hide Frames.AllStorable, Frames.WriteAll, AllToDomain;
  }

  /**
   * Snapshot what the store knows of a zone up to a number. The store stays good: whatever is
   * loaded with the new snapshot there is again what a full replay would give. Of a zone that was
   * loaded from nothing the last number wraps around; it has nothing in it, and its file is empty.
   */
  method HandleSnapshot(store: Store, zone: Id, seqNum: nat, stamp: Frames.Stamp,
                        ghost xs: Choices, ghost ys: map<nat, Choices>, ghost snaps: Snapshots)
    returns (ok: bool, ghost ys': map<nat, Choices>, ghost snaps': Snapshots)
    requires seqNum <= Stores.MAX_UINT64
    requires Logged(store, xs, zone) && Filed(store, ys, snaps, zone)
    requires Good(OfZone(Frames.Events(xs), zone), snaps)
    requires forall e :: e in OfZone(Frames.Events(xs), zone) ==> e.sequenceNumber <= Stores.MAX_UINT64
    requires seqNum == Stores.MAX_UINT64 ==> Bare(ApplyAll(EMPTY, UpTo(OfZone(Frames.Events(xs), zone), seqNum)))
    requires NoOrphans(ApplyAll(EMPTY, UpTo(OfZone(Frames.Events(xs), zone), seqNum)))
    modifies store
    ensures ok && Good(OfZone(Frames.Events(xs), zone), snaps') && seqNum in ys'
    ensures store.file == old(store.file)
    ensures Frames.AllFramed(store.codec, ys'[seqNum]) ==> Filed(store, ys', snaps', zone)
  {
    hide Logged, Good, Answer, AcceptsAll, ApplyAll, Covers, Linked, Sound, NoOrphans, SnapshotOrdering;
    hide Frames.AllStorable;
    hide ZoneReplays.Recorded, ViewOf, SnapshotCounter, SnapshotEvents, Bare, AllToDomain, AllFromDomain;
    hide Frames.WriteEvents, Frames.WriteAll, Frames.Invertible, Typed;
    ghost var es := OfZone(Frames.Events(xs), zone);
    var z, loadedOk;
    ghost var loaded;
    z, loadedOk, loaded := LoadZone(store, zone, seqNum, xs, ys, snaps);
    var snapEvents;
    ghost var order;
    snapEvents, order := z.Snapshot(seqNum);
    var stored := AllFromDomain(zone, stamp, snapEvents);
    ghost var one := Frames.Chosen(stored, store.useCompression);
    LoggedCodec(store, xs, zone);
    StoredSnapshot(store.codec, store.useCompression, z.View(), order, seqNum, zone, stamp);
    ok := store.PersistSnapshot(zone, seqNum, stored);
    ys' := ys[seqNum := one];
    snaps' := if seqNum == Stores.MAX_UINT64 then snaps else snaps[seqNum := snapEvents];
    SnapshotIsGood(es, snaps, seqNum, loaded, order, snaps');
    if seqNum == Stores.MAX_UINT64 {
      EmptySnapshot(es, seqNum, z.View(), order);
    }
    if Frames.AllFramed(store.codec, one) {
      FiledOneMore(store, old(store.snapshots), ys, snaps, zone, seqNum, one, ys', snaps');
    }
  }

  lemma StoredSnapshot(codec: Frames.Codec<Payload>, compress: bool, v: View, order: seq<Node>, seqNum: nat,
                       zone: Id, stamp: Frames.Stamp)
    requires SnapshotOrdering(v, order) && Typed(codec)
    ensures var stored := AllFromDomain(zone, stamp, SnapshotEvents(v, order, seqNum));
      var one := Frames.Chosen(stored, compress);
      && Frames.WriteEvents(codec, stored, compress).Some?
      && (Frames.AllFramed(codec, one) ==>
            && Frames.AllStorable(codec, one)
            && Frames.WriteEvents(codec, stored, compress).value == Frames.WriteAll(codec, one))
      && AllToDomain(stored) == SnapshotEvents(v, order, seqNum)
  {
    hide Even, Typed, Frames.AllFramed, Frames.AllStorable;
    SnapshotPersistable(v, order, seqNum, zone, stamp);
    SnapshotTypes(v, order, seqNum);
    FramedIsStorable(codec, compress, zone, stamp, SnapshotEvents(v, order, seqNum));
    SnapshotEven(v, order, seqNum);
    SurvivesExactly(zone, stamp, SnapshotEvents(v, order, seqNum));
    Frames.WrittenIsAll(codec, AllFromDomain(zone, stamp, SnapshotEvents(v, order, seqNum)), compress);
  }

  /** The numbers the writer gives are those the reader goes by, so a header that fits is all that is needed. */
  lemma FramedIsStorable(codec: Frames.Codec<Payload>, compress: bool, zone: Id, stamp: Frames.Stamp, es: seq<Event>)
    requires Typed(codec) && forall e :: e in es ==> ShouldPersist(e)
    ensures var one := Frames.Chosen(AllFromDomain(zone, stamp, es), compress);
      Frames.AllFramed(codec, one) ==> Frames.AllStorable(codec, one)
  {
    hide Frames.Framed, TypeOf, ReadAs, Frames.Chosen, AllFromDomain;
    var stored := AllFromDomain(zone, stamp, es);
    forall i | 0 <= i < |es|
      ensures var x := Frames.Chosen(stored, compress)[i];
        Frames.Persistable(x.0.eventType) && codec.isOf(x.0.eventType, x.0.body)
    {
      Frames.ChosenAt(stored, compress, i);
      AllFromDomainAt(zone, stamp, es, i);
      PersistableExactly(es[i]);
      StoredKind(es[i].payload);
      WrittenAsRead(AsStored(es[i].payload), TypeOf(es[i].payload));
    }
  }

  lemma StoredKind(p: Payload)
    ensures TypeOf(AsStored(p)) == TypeOf(p)
  {
  }

  lemma {:induction false} AllFromDomainAt(zone: Id, stamp: Frames.Stamp, es: seq<Event>, i: nat)
    requires i < |es|
    ensures AllFromDomain(zone, stamp, es)[i] ==
      Frames.Event(TypeOf(es[i].payload), stamp, 1, zone, es[i].sequenceNumber, AsStored(es[i].payload))
  {
    if i > 0 {
      AllFromDomainAt(zone, stamp, es[1..], i - 1);
    }
  }

  lemma {:induction false} SnapshotEven(v: View, ord: seq<Node>, seqNum: nat)
    requires forall n :: n in ord ==> InZone(v, n)
    ensures forall e :: e in SnapshotEvents(v, ord, seqNum) ==> Even(e.payload)
  {
    if ord != [] {
      SnapshotEven(v, ord[..|ord| - 1], seqNum);
      assert InZone(v, ord[|ord| - 1]);
    }
  }

  lemma EmptySnapshot(es: seq<Event>, seqNum: nat, v: View, order: seq<Node>)
    requires Bare(ApplyAll(EMPTY, UpTo(es, seqNum))) && Covers(ApplyAll(EMPTY, UpTo(es, seqNum)), v)
    requires SnapshotOrdering(v, order)
    ensures SnapshotEvents(v, order, seqNum) == []
  {
    hide SnapshotOrdering;
    NothingCovered(v, order, seqNum);
  }

  lemma SnapshotIsGood(es: seq<Event>, snaps: Snapshots, n: nat, loaded: seq<Event>, order: seq<Node>,
      snaps': Snapshots)
    requires Good(es, snaps) && Answer(es, snaps, n, loaded)
    requires Consistent(ApplyAll(EMPTY, loaded)) && SnapshotOrdering(ApplyAll(EMPTY, loaded), order)
    requires snaps' == if n == Stores.MAX_UINT64 then snaps
      else snaps[n := SnapshotEvents(ApplyAll(EMPTY, loaded), order, n)]
    ensures Good(es, snaps')
  {
    hide Good, Consistent, SnapshotOrdering, ApplyAll;
    if n != Stores.MAX_UINT64 {
      SnapshotKeepsGood(es, snaps, n, loaded, order);
    }
  }

  // ---------- moving between zones ----------

  /**
   * The actor goes into the new zone first and only then out of the old one: with everything it
   * has, at any depth, and nothing else in either zone changed. The zone left is always settled
   * afterwards, the other exactly where the actor is welcome.
   */
  method HandleMigrateActor(src: Zone, dst: Zone, a: Id, toLoc: Id) returns (ok: bool)
    requires src != dst && src.Settled() && dst.Settled() && a in src.actorsById
    modifies src, dst
    ensures ok <==> toLoc in old(dst.locationsById)
    ensures src.Settled()
    ensures ok && dst.Settled() <==> old(Welcome(dst.State(), src.State(), a, toLoc))
    ensures var ids := Ids(TuplesOf(old(src.State()), a));
      if ok then src.View() == Departed(old(src.View()), a, ids).(nextSequenceId := src.nextSequenceId)
      else src.State() == old(src.State())
    ensures old(Welcome(dst.State(), src.State(), a, toLoc)) ==>
      var ids := Ids(TuplesOf(old(src.State()), a));
      dst.View() == Arrived(old(src.View()), old(dst.View()), a, toLoc, ids).(nextSequenceId := dst.nextSequenceId)
    ensures ok ==>
      var v, w, ids := old(src.View()), src.View(), Ids(TuplesOf(old(src.State()), a));
      && w.locations == v.locations && w.exits == v.exits && w.defaultLocation == v.defaultLocation
      && w.actors == v.actors - {a} && w.objects == v.objects - ids
    ensures
      var v, w, ids := old(src.View()), old(dst.View()), Ids(TuplesOf(old(src.State()), a));
      toLoc in w.locations && a in v.actors && a !in w.actors && ids !! w.objects.Keys ==>
      && ok && dst.Settled()
      && dst.View().locations == w.locations && dst.View().exits == w.exits
      && dst.View().defaultLocation == w.defaultLocation
      && dst.View().actors == w.actors[a := ActorView(v.actors[a].info, toLoc)]
      && dst.View().objects == w.objects + (map o | o in v.objects && o in ids :: v.objects[o])
    ensures (old(src.Recorded()) ==> src.Recorded()) && (old(dst.Recorded()) ==> dst.Recorded())
  {
    WelcomeSeen(dst.State(), src.State(), a, toLoc);
    hide Linked, Sound, NoOrphans, ViewOf, Arrived, Departed, Ids, TuplesOf, Processed, PersistedBy;
    hide ZoneReplays.Recorded, Welcome;
    DepartedWritten(src.View(), a, Ids(TuplesOf(src.State(), a)));
    ArrivedSeen(src.State(), dst.View(), a, toLoc);
    var arrived := dst.ProcessActorMigrateIn(src, a, toLoc);
    if !arrived {
      return false;
    }
    ok := src.ProcessActorMigrateOut(a);
  }

  /** Welcome, told from what the two zones look like. */
  lemma WelcomeSeen(st: ZoneState, src: ZoneState, a: Id, l: Id)
    ensures var w := ViewOf(st);
      Welcome(st, src, a, l) <==>
      l in w.locations && a !in w.actors && Ids(TuplesOf(src, a)) !! w.objects.Keys
  {
    ViewKeys(st);
    WelcomeMeans(st, src, a, l);
    hide ViewOf, Ids, TuplesOf, Welcome;
  }

  lemma ArrivedSeen(src: ZoneState, w: View, a: Id, l: Id)
    requires a in src.actors
    ensures a in ViewOf(src).actors
    ensures var v, ids := ViewOf(src), Ids(TuplesOf(src, a));
      var x := Arrived(v, w, a, l, ids);
      && x.locations == w.locations && x.exits == w.exits && x.defaultLocation == w.defaultLocation
      && x.actors == w.actors[a := ActorView(v.actors[a].info, l)]
      && x.objects == w.objects + (map o | o in v.objects && o in ids :: v.objects[o])
  {
    hide *;
    ViewInfo(src, a);
    ArrivedWritten(ViewOf(src), w, a, l, Ids(TuplesOf(src, a)));
  }
}
