/**
 * The life of a zone: any mix of commands, snapshots and restarts. All along its links agree, it
 * is consistent, and a full replay of its log is the zone itself, but for a default location that
 * a snapshot may have forgotten.
 */
module ZoneLives {
  import opened Wrappers
  import opened Bytes
  import opened ZoneViews
  import opened ZoneInvariant
  import opened EventSourcing
  import opened PayloadRuns
  import opened Inventories
  import opened ZoneStates
  import opened ZoneLinks
  import opened ZoneApplied
  import opened ZoneReplays
  import opened ZoneCommands
  import opened RemovalCommands
  import opened RemovalRestarts
  import opened Commands
  import opened CommandRestarts
  import opened SnapshotOrder
  import opened SnapshotReplay
  import opened SnapshotStore

  /** The zone as it runs, and what is stored of it. */
  datatype Life = Life(zone: ZoneState, log: seq<Event>, snaps: Snapshots)

  /** A load yields loaded, and the snapshot takes what it rebuilds in the given order. */
  datatype Step =
    | Do(command: Command)
    | Snap(loaded: seq<Event>, order: seq<Node>)
    | Restart(limit: nat, loaded: seq<Event>)

  ghost predicate Next(x: Life, step: Step, y: Life)
  {
    match step
    case Do(c) => y == Life(Processed(x.zone, c).0, x.log + PersistedBy(x.zone, c), x.snaps)
    case Snap(loaded, order) =>
      var v := ViewOf(Replayed(EMPTY_ZONE, loaded).0);
      && x.zone.nextSequenceId > 0 && Answers(x.log, x.snaps, x.zone.nextSequenceId - 1, loaded)
      && SnapshotOrdering(v, order)
      && y == x.(snaps := x.snaps[x.zone.nextSequenceId - 1 := SnapshotEvents(v, order, x.zone.nextSequenceId - 1)])
    case Restart(limit, loaded) =>
      Answers(x.log, x.snaps, limit, loaded) && y == x.(zone := Replayed(EMPTY_ZONE, loaded).0)
  }

  /**
   * A command is refused at once, has what the handlers leave unchecked, or fails harmlessly; a
   * removal has nothing to clear away, as that would not be persisted; a restart is up to the last
   * number there can be, and loads something if anything is stored.
   */
  ghost predicate Allowed(x: Life, step: Step)
  {
    match step
    case Do(c) => Passes(x.zone, c) ==>
      if Processed(x.zone, c).1
      then Guarded(x.zone, c) && (c.Demolish? ==> NothingToClear(x.zone, c.location, c.toHere))
      else Harmless(x.zone, c)
    case Snap(_, _) => true
    case Restart(limit, loaded) => x.zone.nextSequenceId <= limit && (loaded != [] || (x.log == [] && x.snaps == map[]))
  }

  /** Every number given out is below the counter. */
  ghost predicate Numbers(x: Life)
  {
    && (forall e :: e in x.log ==> e.sequenceNumber < x.zone.nextSequenceId)
    && forall s :: s in x.snaps ==> s < x.zone.nextSequenceId
  }

  /** While no snapshot was taken, a replay gives the zone with every list in the same order. */
  ghost predicate LogIsZone(x: Life)
  {
    x.snaps == map[] ==> Replayed(EMPTY_ZONE, x.log).1 == Done && SameButCounter(Replayed(EMPTY_ZONE, x.log).0, x.zone)
  }

  ghost predicate Alive(x: Life)
  {
    && SettledState(x.zone) && Good(x.log, x.snaps) && Covers(ApplyAll(EMPTY, x.log), ViewOf(x.zone))
    && Numbers(x) && LogIsZone(x)
  }

  const UNBORN := Life(EMPTY_ZONE, [], map[])

  lemma UnbornIsAlive()
    ensures Alive(UNBORN)
  {
    EmptyLinked();
    EmptyIsConsistent();
    hide Linked, Consistent, ViewOf;
  }

  // ---------- commands ----------

  /** The log with the persisted events of the command at its end is still good. */
  lemma LogGrows(x: Life, es: seq<Event>)
    requires Good(x.log, x.snaps) && Covers(ApplyAll(EMPTY, x.log), ViewOf(x.zone)) && Numbers(x)
    requires AcceptsAll(ViewOf(x.zone), es) && Numbered(x.zone.nextSequenceId, es)
    ensures Good(x.log + Persisted(es), x.snaps)
    ensures Covers(ApplyAll(EMPTY, x.log + Persisted(es)), ApplyAll(ViewOf(x.zone), es))
  {
    hide ViewOf, AcceptsAll, ApplyAll, Persisted, ShouldPersist, IsSnapshot;
    var w := ApplyAll(EMPTY, x.log);
    CoversApplyAll(w, ViewOf(x.zone), es);
    ReplayRebuilds(w, w, es);
    PersistedIncreasing(x.zone.nextSequenceId, es);
    LaterIncreasing(x.log, Persisted(es), x.zone.nextSequenceId);
    hide Good;
    PersistAllKeepsGood(x.log, x.snaps, Persisted(es));
  }

  lemma LaterIncreasing(es: seq<Event>, fs: seq<Event>, n: nat)
    requires Increasing(es) && Increasing(fs)
    requires (forall e :: e in es ==> e.sequenceNumber < n) && forall f :: f in fs ==> n <= f.sequenceNumber
    ensures Increasing(es + fs)
  {
    forall i, j | 0 <= i < j < |es + fs|
      ensures (es + fs)[i].sequenceNumber < (es + fs)[j].sequenceNumber
    {
      assert i < |es| ==> es[i] in es;
      assert j >= |es| ==> fs[j - |es|] in fs;
    }
  }

  lemma LogStaysZone(x: Life, ps: seq<Payload>)
    requires LogIsZone(x) && SubmittedAll(x.zone, ps).1 == Done
    ensures LogIsZone(Life(SubmittedAll(x.zone, ps).0, x.log + Persisted(Number(x.zone.nextSequenceId, ps)), x.snaps))
  {
    hide Replayed, SubmittedAll, Persisted;
    if x.snaps == map[] {
      var es := Number(x.zone.nextSequenceId, ps);
      var r := Replayed(EMPTY_ZONE, x.log).0;
      SubmittedIsReplayed(x.zone, ps);
      ReplayRebuildsZone(x.zone, r, es);
      ReplayedConcat(EMPTY_ZONE, x.log, Persisted(es));
    }
  }

  lemma NumbersGrow(x: Life, n: nat, es: seq<Event>, t: ZoneState)
    requires Numbers(x) && n == x.zone.nextSequenceId && Numbered(n, es) && t.nextSequenceId == n + |es|
    ensures Numbers(Life(t, x.log + Persisted(es), x.snaps))
  {
    hide Persisted, Numbered;
    PersistedIncreasing(n, es);
  }

  /** Events that the zone can take, submitted and persisted. */
  lemma SubmittingLives(x: Life, ps: seq<Payload>)
    requires Alive(x) && Takes(x.zone, ps)
    ensures SubmittedAll(x.zone, ps).1 == Done
    ensures Alive(Life(SubmittedAll(x.zone, ps).0, x.log + Persisted(Number(x.zone.nextSequenceId, ps)), x.snaps))
  {
    hide SettledState, Good, Numbers, LogIsZone, AcceptsEach, EffectAll, SubmittedAll, Number, Persisted, NoOrphans;
    hide ViewOf;
    var n := x.zone.nextSequenceId;
    var es, t := Number(n, ps), SubmittedAll(x.zone, ps).0;
    SubmittingSettles(x.zone, ps);
    NumberedRun(ViewOf(x.zone), n, ps);
    LogGrows(x, es);
    LogStaysZone(x, ps);
    NumbersGrow(x, n, es, t);
    hide Alive;
    StillCovers(ApplyAll(EMPTY, x.log + Persisted(es)), ApplyAll(ViewOf(x.zone), es), ViewOf(t));
    LifeOf(Life(t, x.log + Persisted(es), x.snaps));
  }

  lemma LifeOf(x: Life)
    requires SettledState(x.zone) && Good(x.log, x.snaps) && Covers(ApplyAll(EMPTY, x.log), ViewOf(x.zone))
    requires Numbers(x) && LogIsZone(x)
    ensures Alive(x)
  {
  }

  lemma StillCovers(u: View, v: View, w: View)
    requires Covers(u, v) && w == v.(nextSequenceId := w.nextSequenceId)
    ensures Covers(u, w)
  {
  }

  lemma JustTheLast(st: ZoneState, l: Id, toHere: seq<Id>)
    requires RemovalChecked(st, l) && NothingToClear(st, l, toHere)
    ensures Clearing(st, l, toHere) == []
    ensures [LastOfRemoval(st, l, toHere)] == Persisted(Number(st.nextSequenceId, [LocationRemoveFromZone(l)]))
  {
    hide NothingAt, Clearing, Persisted, Number;
    NothingClears(st, l, toHere);
    RemovalPersisted(st.nextSequenceId, l);
  }

  /** A removal with nothing to clear away is just its last event. */
  lemma DemolishedAtOnce(st: ZoneState, l: Id, toHere: seq<Id>)
    requires SettledState(st) && RemovalChecked(st, l) && LeadingTo(st, l, toHere) && NothingToClear(st, l, toHere)
    ensures Takes(st, [LocationRemoveFromZone(l)])
    ensures var (t, r) := SubmittedAll(st, [LocationRemoveFromZone(l)]);
      r == Done ==> RemovalDone(st, l, toHere) == (t, true)
    ensures [LastOfRemoval(st, l, toHere)] == Persisted(Number(st.nextSequenceId, [LocationRemoveFromZone(l)]))
  {
    hide SettledState, LeadingTo, Submitted, Takes, Accepts, LeavesNoOrphans, Effect, EffectAll, Clearing, Number;
    hide Persisted;
    JustTheLast(st, l, toHere);
    SubmittedOne(st, LocationRemoveFromZone(l));
    NothingRefers(st, l, toHere);
    OneTaken(st, LocationRemoveFromZone(l));
  }

  lemma NothingRefers(st: ZoneState, l: Id, toHere: seq<Id>)
    requires SettledState(st) && l in st.locations && LeadingTo(st, l, toHere) && NothingToClear(st, l, toHere)
    ensures Accepts(ViewOf(st), LocationRemoveFromZone(l)) && LeavesNoOrphans(ViewOf(st), LocationRemoveFromZone(l))
  {
    SettledLinked(st);
    NobodyThere(st, l);
    NoExitThere(st, l, toHere);
    NoObjectThere(st, l);
    ViewKeys(st);
    hide SettledState, LeadingTo, NothingToClear, ViewOf;
  }

  lemma NobodyThere(st: ZoneState, l: Id)
    requires ActorsListed(st) && l in st.locations && NothingAt(st, l)
    ensures forall a :: a in ViewOf(st).actors ==> ViewOf(st).actors[a].location != l
  {
    hide NoDup;
    assert forall a :: a in st.actors ==> a !in st.locations[l].actors;
  }

  lemma NoExitThere(st: ZoneState, l: Id, toHere: seq<Id>)
    requires ExitsListed(st) && l in st.locations && LeadingTo(st, l, toHere) && NothingToClear(st, l, toHere)
    ensures forall x :: x in st.exits ==> st.exits[x].source != l && st.exits[x].destination != Some(l)
  {
    hide NoDup;
    assert st.locations[l].outExits == [] && toHere == [];
    assert forall x :: x in st.exits ==> x !in st.locations[l].outExits && x !in toHere;
  }

  lemma NoObjectThere(st: ZoneState, l: Id)
    requires ObjectsListed(st) && l in st.locations && NothingAt(st, l)
    ensures Vacant(ViewOf(st), InLocation(l))
  {
    hide NoDup;
    assert Lists(st, InLocation(l)) && Contents(st, InLocation(l)) == [];
    VacantMeans(st, InLocation(l));
  }

  lemma RefusedLives(x: Life, c: Command)
    requires !Passes(x.zone, c)
    ensures Life(Processed(x.zone, c).0, x.log + PersistedBy(x.zone, c), x.snaps) == x
  {
    hide Passes;
    assert x.log + [] == x.log;
  }

  /** A command that fails harmlessly only uses up numbers. */
  lemma FailedLives(x: Life, c: Command)
    requires Alive(x) && Passes(x.zone, c) && !Processed(x.zone, c).1 && Harmless(x.zone, c)
    ensures Alive(Life(Processed(x.zone, c).0, x.log + PersistedBy(x.zone, c), x.snaps))
  {
    hide Alive, SettledState, Passes, Harmless, Processed, PersistedBy;
    OfLife(x);
    FailedChanges(x.zone, c);
    assert x.log + [] == x.log;
    CountedOnLives(x, Processed(x.zone, c).0);
  }

  lemma CountedOnLives(x: Life, t: ZoneState)
    requires Alive(x) && SameButCounter(x.zone, t) && x.zone.nextSequenceId <= t.nextSequenceId
    ensures Alive(Life(t, x.log, x.snaps))
  {
    OfLife(x);
    SettledAside(x.zone, t.nextSequenceId);
    ViewAside(x.zone, t);
    hide Alive, SettledState, Good, Covers, Replayed, ViewOf;
    StillCovers(ApplyAll(EMPTY, x.log), ViewOf(x.zone), ViewOf(t));
    LifeOf(Life(t, x.log, x.snaps));
  }

  lemma CommandLives(x: Life, c: Command)
    requires Alive(x) && Allowed(x, Do(c))
    ensures Alive(Life(Processed(x.zone, c).0, x.log + PersistedBy(x.zone, c), x.snaps))
  {
    if !Passes(x.zone, c) {
      RefusedLives(x, c);
    } else if !Processed(x.zone, c).1 {
      hide Alive, Passes, Processed, Harmless;
      FailedLives(x, c);
    } else if c.Demolish? {
      assert SettledState(x.zone) && RemovalChecked(x.zone, c.location) && LeadingTo(x.zone, c.location, c.toHere);
      assert NothingToClear(x.zone, c.location, c.toHere);
      hide Alive, SettledState, RemovalChecked, LeadingTo, NothingToClear, RemovalDone, LastOfRemoval, SubmittedAll;
      hide Number, Persisted, Takes;
      DemolishedAtOnce(x.zone, c.location, c.toHere);
      SubmittingLives(x, [LocationRemoveFromZone(c.location)]);
    } else {
      assert SettledState(x.zone) && Guarded(x.zone, c);
      hide Alive, SettledState, Passes, Guarded, EventsFor, SubmittedAll, Number, Persisted, Takes, Processed;
      hide PersistedBy;
      GuardedTaken(x.zone, c);
      SubmittingLives(x, EventsFor(x.zone, c));
      ProcessedAsSubmitted(x.zone, c);
    }
  }

  // ---------- snapshots and restarts ----------

  /** Whatever is loaded goes through, and gives a settled zone that the log's replay covers. */
  lemma LoadedSettles(x: Life, n: nat, loaded: seq<Event>)
    requires Alive(x) && x.zone.nextSequenceId <= n + 1 && Answers(x.log, x.snaps, n, loaded)
    ensures var (t, r) := Replayed(EMPTY_ZONE, loaded);
      && r == Done && SettledState(t) && ViewOf(t) == ApplyAll(EMPTY, loaded)
      && Covers(ApplyAll(EMPTY, x.log), ViewOf(t))
  {
    EmptyLinked();
    EmptyIsConsistent();
    UpToAll(x.log, n);
    AnswersRebuild(x.log, x.snaps, n, loaded);
    var v, w := ApplyAll(EMPTY, x.log), ApplyAll(EMPTY, loaded);
    SettledMeans(x.zone);
    hide Linked, Sound, NoOrphans, Replayed, ApplyAll, AcceptsAll, Good, Answers, ViewOf;
    ReplayedAgrees(EMPTY_ZONE, loaded);
    NoOrphansAcross(ViewOf(x.zone), v);
    NoOrphansAcross(v, w);
    SettledFrom(Replayed(EMPTY_ZONE, loaded).0);
  }

  lemma NoOrphansAcross(v: View, w: View)
    requires v.locations == w.locations && v.actors == w.actors && v.objects == w.objects && NoOrphans(v)
    ensures NoOrphans(w)
  {
  }

  lemma SnapLives(x: Life, loaded: seq<Event>, order: seq<Node>, n: nat)
    requires Alive(x) && x.zone.nextSequenceId == n + 1 && Answers(x.log, x.snaps, n, loaded)
    requires SnapshotOrdering(ViewOf(Replayed(EMPTY_ZONE, loaded).0), order)
    ensures Alive(x.(snaps := x.snaps[n := SnapshotEvents(ViewOf(Replayed(EMPTY_ZONE, loaded).0), order, n)]))
  {
    LoadedSettles(x, n, loaded);
    hide Alive, SettledState, Linked, Consistent, Good, Answers, SnapshotOrdering, Replayed, ApplyAll, ViewOf;
    ConsistentWhenSettled(Replayed(EMPTY_ZONE, loaded).0);
    OfLife(x);
    SnapshotKeepsGood(x.log, x.snaps, n, loaded, order);
    hide Covers, SnapshotEvents;
    OneMoreSnapshot(x, n, SnapshotEvents(ViewOf(Replayed(EMPTY_ZONE, loaded).0), order, n));
  }

  lemma OneMoreSnapshot(x: Life, n: nat, evs: seq<Event>)
    requires Alive(x) && x.zone.nextSequenceId == n + 1 && Good(x.log, x.snaps[n := evs])
    ensures Alive(x.(snaps := x.snaps[n := evs]))
  {
    hide SettledState, Good, Covers, Replayed, ApplyAll, ViewOf;
    assert n in x.snaps[n := evs];
  }

  lemma ConsistentWhenSettled(st: ZoneState)
    requires SettledState(st)
    ensures Consistent(ViewOf(st))
  {
  }

  lemma OfLife(x: Life)
    requires Alive(x)
    ensures SettledState(x.zone) && Good(x.log, x.snaps) && Covers(ApplyAll(EMPTY, x.log), ViewOf(x.zone))
    ensures Numbers(x) && LogIsZone(x)
  {
  }

  /**
   * After a restart the numbers given out are below the counter exactly when something was loaded,
   * or nothing had been stored.
   */
  lemma RestartCountsExactly(x: Life, n: nat, loaded: seq<Event>)
    requires Alive(x) && x.zone.nextSequenceId <= n && Answers(x.log, x.snaps, n, loaded)
    ensures Numbers(x.(zone := Replayed(EMPTY_ZONE, loaded).0)) <==> loaded != [] || (x.log == [] && x.snaps == map[])
  {
    hide *;
    var t := Replayed(EMPTY_ZONE, loaded).0;
    LoadedSettles(x, n, loaded);
    OfLife(x);
    LoadedCounter(t, loaded);
    if loaded == [] {
      CountedFromNothing(x, t);
    } else {
      NumbersBelow(x, n);
      CountedPast(x, n, loaded);
      NumbersOf(x.(zone := t));
    }
  }

  lemma NumbersBelow(x: Life, n: nat)
    requires Numbers(x) && x.zone.nextSequenceId <= n
    ensures UpTo(x.log, n) == x.log
  {
    UpToAll(x.log, n);
  }

  lemma NumbersOf(x: Life)
    requires forall e :: e in x.log ==> e.sequenceNumber < x.zone.nextSequenceId
    requires forall s :: s in x.snaps ==> s < x.zone.nextSequenceId
    ensures Numbers(x)
  {
  }

  /** With the counter at nothing, it lies past all the numbers exactly when there are none. */
  lemma CountedFromNothing(x: Life, t: ZoneState)
    requires t.nextSequenceId == 0
    ensures Numbers(x.(zone := t)) <==> x.log == [] && x.snaps == map[]
  {
    HasMember(x.log);
    HasKey(x.snaps);
  }

  lemma CountedPast(x: Life, n: nat, loaded: seq<Event>)
    requires Good(x.log, x.snaps) && Numbers(x) && UpTo(x.log, n) == x.log
    requires x.zone.nextSequenceId <= n && Answers(x.log, x.snaps, n, loaded) && loaded != []
    ensures forall e :: e in x.log ==> e.sequenceNumber < ApplyAll(EMPTY, loaded).nextSequenceId
    ensures forall s :: s in x.snaps ==> s < ApplyAll(EMPTY, loaded).nextSequenceId
  {
    hide Good, ApplyAll, After, UpTo;
    if NoSnapshot(x.snaps, n) && loaded == UpTo(x.log, n) {
      LastCounter(EMPTY, loaded);
      GoodIncreasing(x.log, x.snaps);
      LastIsGreatest(loaded);
      assert forall s :: s in x.snaps ==> s < n;
    } else {
      var s :| NewestNumber(x.snaps, n, s) && loaded == FromSnapshot(x.log, x.snaps, n, s);
      CounterPast(x.log, x.snaps, n, s);
      CounterPastSnapshot(x.log, x.snaps, n, s);
      assert forall k :: k in x.snaps ==> k <= n;
    }
  }

  lemma GoodIncreasing(es: seq<Event>, snaps: Snapshots)
    requires Good(es, snaps)
    ensures Increasing(es)
  {
  }

  lemma LoadedCounter(t: ZoneState, loaded: seq<Event>)
    requires ViewOf(t) == ApplyAll(EMPTY, loaded)
    ensures t.nextSequenceId == ApplyAll(EMPTY, loaded).nextSequenceId && (loaded == [] ==> t.nextSequenceId == 0)
  {
    CounterOf(t);
    NothingApplied();
    hide ViewOf, ApplyAll;
  }

  lemma HasKey(m: Snapshots)
    ensures m != map[] ==> exists k :: k in m
  {
    if forall k :: k !in m {
      assert m == map[];
    }
  }

  lemma RestartLives(x: Life, n: nat, loaded: seq<Event>)
    requires Alive(x) && Answers(x.log, x.snaps, n, loaded) && Allowed(x, Restart(n, loaded))
    ensures Alive(x.(zone := Replayed(EMPTY_ZONE, loaded).0))
  {
    var t := Replayed(EMPTY_ZONE, loaded).0;
    LoadedSettles(x, n, loaded);
    RestartCountsExactly(x, n, loaded);
    LoadedIsLog(x, n, loaded);
    hide SettledState, Good, Covers, Replayed, Answers, Numbers;
  }

  lemma LoadedIsLog(x: Life, n: nat, loaded: seq<Event>)
    requires Numbers(x) && Answers(x.log, x.snaps, n, loaded) && x.zone.nextSequenceId <= n
    ensures x.snaps == map[] ==> loaded == x.log
  {
    UpToAll(x.log, n);
  }

  // ---------- every life ----------

  lemma StepLives(x: Life, step: Step, y: Life)
    requires Alive(x) && Next(x, step, y) && Allowed(x, step)
    ensures Alive(y)
  {
    match step
    case Do(c) =>
      hide Alive, Allowed, Processed, PersistedBy;
      CommandLives(x, c);
    case Snap(loaded, order) =>
      hide Alive, Answers, SnapshotOrdering, Replayed, ViewOf;
      SnapLives(x, loaded, order, x.zone.nextSequenceId - 1);
    case Restart(n, loaded) =>
      hide Alive, Allowed;
      RestartLives(x, n, loaded);
  }

  ghost predicate Lived(xs: seq<Life>, steps: seq<Step>)
  {
    && |xs| == |steps| + 1
    && forall i: nat :: i < |steps| ==> Next(xs[i], steps[i], xs[i + 1]) && Allowed(xs[i], steps[i])
  }

  /**
   * Over any mix of commands, snapshots and restarts the zone stays settled, what is stored of it
   * stays good to load it from, and its log replays to it.
   */
  lemma {:induction false} EveryLife(xs: seq<Life>, steps: seq<Step>, i: nat)
    requires Lived(xs, steps) && xs[0] == UNBORN && i < |xs|
    ensures Alive(xs[i])
  {
    hide Alive, Next, Allowed;
    if i == 0 {
      UnbornIsAlive();
    } else {
      EveryLife(xs, steps, i - 1);
      assert i - 1 < |steps|;
      StepLives(xs[i - 1], steps[i - 1], xs[i - 1 + 1]);
    }
  }

  /**
   * At any time, whatever the newest snapshot, a restart gives the zone as it is, but for the
   * order of lists, the counter and a default location that a snapshot forgot; and with no
   * snapshot taken, the very same zone but for the counter.
   */
  lemma RestartAnyTime(x: Life, n: nat, loaded: seq<Event>)
    requires Alive(x) && x.zone.nextSequenceId <= n && Answers(x.log, x.snaps, n, loaded)
    ensures var (t, r) := Replayed(EMPTY_ZONE, loaded);
      && r == Done && SettledState(t)
      && ViewOf(t) == ViewOf(x.zone).(defaultLocation := t.defaultLocation, nextSequenceId := t.nextSequenceId)
      && (x.snaps == map[] ==> SameButCounter(t, x.zone))
  {
    LoadedSettles(x, n, loaded);
    LoadedIsLog(x, n, loaded);
    var t := Replayed(EMPTY_ZONE, loaded).0;
    ViewFields(t);
    hide SettledState, Good, Replayed, Answers, Numbers, ViewOf;
  }

  lemma ViewFields(st: ZoneState)
    ensures ViewOf(st).defaultLocation == st.defaultLocation && ViewOf(st).nextSequenceId == st.nextSequenceId
  {
  }
}
