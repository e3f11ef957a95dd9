/**
 * A crash while the events of one command are being persisted: what a log that is cut inside a
 * command rebuilds, and exactly when that is a zone in good order.
 */
module CommandCrashes {
  import opened Bytes
  import opened ZoneViews
  import opened ZoneInvariant
  import opened EventSourcing
  import opened PayloadRuns
  import opened ZoneStates
  import opened ZoneReplays
  import opened ZoneCommands
  import opened RemovalCommands
  import opened ObjectTrees
  import opened ActorDeaths
  import opened Migrations
  import opened Arrivals
  import opened Commands

  // ---------- what a cut log rebuilds ----------

  /** A beginning of what is persisted is what is persisted of a beginning. */
  lemma {:induction false} PersistedPrefix(es: seq<Event>, j: nat) returns (k: nat)
    requires j <= |Persisted(es)|
    ensures k <= |es| && Persisted(es)[..j] == Persisted(es[..k])
    decreases |es|
  {
    hide ShouldPersist;
    if es == [] || j == 0 {
      k := 0;
    } else {
      var first := if ShouldPersist(es[0]) then 1 else 0;
      var rest := PersistedPrefix(es[1..], j - first);
      k := rest + 1;
      assert es[..k][1..] == es[1..][..rest];
    }
  }

  lemma {:induction false} NumberPrefix(n: nat, ps: seq<Payload>, k: nat)
    requires k <= |ps|
    ensures Number(n, ps)[..k] == Number(n, ps[..k])
  {
    if k == |ps| {
      assert ps[..k] == ps;
    } else {
      var init := ps[..|ps| - 1];
      NumberPrefix(n, init, k);
      assert init[..k] == ps[..k];
    }
  }

  /** What goes through goes through up to any point. */
  lemma SubmittedPrefix(st: ZoneState, ps: seq<Payload>, k: nat)
    requires SubmittedAll(st, ps).1 == Done && k <= |ps|
    ensures SubmittedAll(st, ps[..k]).1 == Done
  {
    hide SubmittedAll;
    SubmittedConcat(st, ps[..k], ps[k..]);
    assert ps[..k] + ps[k..] == ps;
  }

  /**
   * A log cut after some of the events that a command persists: a restart finds the zone as it was
   * when the command had got as far as that.
   */
  lemma CutRebuilds(origin: ZoneState, st: ZoneState, history: seq<Event>, persisted: seq<Event>,
      ps: seq<Payload>, j: nat)
    returns (k: nat)
    requires Recorded(origin, st, history, persisted) && SubmittedAll(st, ps).1 == Done
    requires j <= |Persisted(Number(st.nextSequenceId, ps))|
    ensures k <= |ps| && Persisted(Number(st.nextSequenceId, ps))[..j] == Persisted(Number(st.nextSequenceId, ps[..k]))
    ensures var (t, r) := Replayed(origin, persisted + Persisted(Number(st.nextSequenceId, ps))[..j]);
      r == Done && SameButCounter(SubmittedAll(st, ps[..k]).0, t)
  {
    hide *;
    var es := Number(st.nextSequenceId, ps);
    k := PersistedPrefix(es, j);
    NumberPrefix(st.nextSequenceId, ps, k);
    SubmittedPrefix(st, ps, k);
    SubmittingRecords(origin, st, history, persisted, ps[..k]);
    var fs := Number(st.nextSequenceId, ps[..k]);
    RestartRebuilds(origin, SubmittedAll(st, ps[..k]).0, history + fs, persisted + Persisted(fs));
  }

  // ---------- when it is in good order ----------

  lemma {:induction false} NoneStranded(v: View, ps: seq<Payload>)
    requires Sound(v) && NoOrphans(v) && AcceptsEach(v, ps) && forall p :: p in ps ==> !p.ObjectMigrateOut?
    ensures Sound(EffectAll(v, ps)) && NoOrphans(EffectAll(v, ps))
  {
    hide Sound, NoOrphans, Accepts, Effect;
    if ps != [] {
      var init, last := ps[..|ps| - 1], ps[|ps| - 1];
      NoneStranded(v, init);
      EffectKeepsSound(EffectAll(v, init), last);
      EffectKeepsNoOrphans(EffectAll(v, init), last);
    }
  }

  /** Where nothing is sent out, the zone is settled after every single event. */
  lemma CutSettles(st: ZoneState, ps: seq<Payload>, k: nat)
    requires SettledState(st) && Takes(st, ps) && k <= |ps| && forall p :: p in ps ==> !p.ObjectMigrateOut?
    ensures SettledState(SubmittedAll(st, ps[..k]).0)
  {
    SettledMeans(st);
    hide Linked, Sound, NoOrphans, AcceptsEach, EffectAll, SubmittedAll, ViewOf;
    assert ps[..k] + ps[k..] == ps;
    EachConcat(ViewOf(st), ps[..k], ps[k..]);
    NoneStranded(ViewOf(st), ps[..k]);
    SubmittingSettles(st, ps[..k]);
  }

  lemma {:induction false} RelocationsKind(s: seq<Tuple>, corpse: Id)
    ensures forall p :: p in Relocations(s, corpse) ==> p.ObjectAdminRelocate?
  {
    if s != [] {
      RelocationsKind(s[..|s| - 1], corpse);
    }
  }

  lemma {:induction false} ObjectsInKind(v: View, s: seq<Tuple>)
    requires forall t :: t in s ==> t.obj in v.objects
    ensures forall p :: p in ObjectsIn(v, s) ==> p.ObjectMigrateIn?
  {
    if s != [] {
      ObjectsInKind(v, s[..|s| - 1]);
    }
  }

  /** Only sending out an actor takes objects out of the zone with things still in them. */
  lemma OnlySendingOut(st: ZoneState, c: Command)
    requires Passes(st, c) && !c.Demolish? && !c.SendOut?
    ensures forall p :: p in EventsFor(st, c) ==> !p.ObjectMigrateOut?
  {
    hide SettledState, MoveChecked, MoveSubcontainerChecked, ViewOf, TuplesOf, Lethal, Relocations, ObjectsIn;
    hide CorpseInfo;
    match c
    case Die(a, corpse) => RelocationsKind(TuplesOf(st, a), corpse);
    case Strike(_, target, _, _, _, _, corpse) => RelocationsKind(TuplesOf(st, target), corpse);
    case TakeIn(src, a, toLoc) =>
      TuplesListed(src, a);
      ObjectsInKind(ViewOf(src), TuplesOf(src, a));
    case _ =>
  }

  // ---------- sending out ----------

  /** Of what comes after the first k nothing is in one of them. */
  predicate NothingLeftIn(s: seq<Tuple>, k: nat)
  {
    forall i, j :: 0 <= i < k <= j < |s| ==> s[j].cont != InObject(s[i].obj)
  }

  lemma {:induction false} ListedContainers(v: View, c: Container, s: seq<Tuple>)
    requires ParentsFirst(v, c, s)
    ensures forall t :: t in s ==> t.obj in v.objects && v.objects[t.obj].container == t.cont
  {
    if s != [] {
      ListedContainers(v, c, s[..|s| - 1]);
    }
  }

  /** Nothing but they themselves is in one of the objects gone. */
  predicate NothingInside(v: View, gone: set<Id>)
  {
    forall x :: x in v.objects && v.objects[x].container.InObject? && v.objects[x].container.id in gone ==> x in gone
  }

  lemma StrandedExactlyInside(v: View, gone: set<Id>)
    requires NoOrphans(v)
    ensures NoOrphans(v.(objects := v.objects - gone)) <==> NothingInside(v, gone)
  {
    var u := v.(objects := v.objects - gone);
    forall x | x in u.objects
      ensures Exists(u, u.objects[x].container) <==>
              !(v.objects[x].container.InObject? && v.objects[x].container.id in gone)
    {
      HeldOrGone(v, gone, x);
    }
    hide Exists;
  }

  lemma HeldOrGone(v: View, gone: set<Id>, x: Id)
    requires NoOrphans(v) && x in v.objects && x !in gone
    ensures var u, c := v.(objects := v.objects - gone), v.objects[x].container;
      x in u.objects && u.objects[x].container == c && (Exists(u, c) <==> !(c.InObject? && c.id in gone))
  {
    assert Exists(v, v.objects[x].container);
    hide NoOrphans;
  }

  lemma IndexIn(s: seq<Tuple>, x: Id) returns (i: nat)
    requires x in Ids(s)
    ensures i < |s| && s[i].obj == x
  {
    i :| i < |s| && s[i].obj == x;
  }

  lemma Among(s: seq<Tuple>, k: nat, j: nat)
    requires k <= |s| && j < |s|
    ensures j < k ==> s[j].obj in Ids(s[..k])
  {
    if j < k {
      assert s[..k][j] in s[..k];
    }
  }

  /** What is inside one of the first k, and comes later, is where it says it is. */
  lemma SomethingInside(v: View, a: Id, s: seq<Tuple>, k: nat)
    requires Complete(v, InActor(a), s) && k <= |s| && !NothingInside(v, Ids(s[..k]))
    requires forall t :: t in s ==> t.obj in v.objects && v.objects[t.obj].container == t.cont
    ensures !NothingLeftIn(s, k)
  {
    var gone := Ids(s[..k]);
    var x :| x in v.objects && v.objects[x].container.InObject? && v.objects[x].container.id in gone && x !in gone;
    var i := IndexIn(s[..k], v.objects[x].container.id);
    assert s[i] in s;
    assert Under(InActor(a), Ids(s), v.objects[x].container);
    var j := IndexIn(s, x);
    Among(s, k, j);
    assert s[j] in s && s[j].cont == InObject(s[i].obj);
  }

  lemma NothingInsideExactly(v: View, a: Id, s: seq<Tuple>, k: nat)
    requires Listing(v, InActor(a), s) && k <= |s|
    ensures NothingInside(v, Ids(s[..k])) <==> NothingLeftIn(s, k)
  {
    ListedContainers(v, InActor(a), s);
    ParentsFirstOnce(v, InActor(a), s);
    hide ParentsFirst;
    if NothingInside(v, Ids(s[..k])) {
      forall i, j | 0 <= i < k <= j < |s|
        ensures s[j].cont != InObject(s[i].obj)
      {
        assert s[i] in s[..k] && s[j] in s;
        assert s[j].obj !in Ids(s[..k]);
      }
    } else {
      SomethingInside(v, a, s, k);
    }
  }

  /**
   * Cut while an actor is sent out, the zone is settled exactly when nothing is left that was in
   * something already gone: objects go before what is in them.
   */
  lemma CutSendOutExactly(st: ZoneState, a: Id, k: nat)
    requires SettledState(st) && a in st.actors && k <= |TuplesOf(st, a)|
    ensures var s := TuplesOf(st, a);
      var (t, r) := SubmittedAll(st, MigrateOut(a, s)[..k]);
      && r == Done && (SettledState(t) <==> NothingLeftIn(s, k))
      && ViewOf(t) == ViewOf(st).(objects := ViewOf(st).objects - Ids(s[..k]), nextSequenceId := t.nextSequenceId)
  {
    var v, s := ViewOf(st), TuplesOf(st, a);
    hide *;
    SettledMeans(st);
    TuplesListed(st, a);
    SomeDepart(v, a, s, k);
    NothingInsideExactly(v, a, s, k);
    StrandedExactlyInside(v, Ids(s[..k]));
    SubmittingAgrees(st, MigrateOut(a, s)[..k]);
    AgreedSettles(SubmittedAll(st, MigrateOut(a, s)[..k]).0, v.(objects := v.objects - Ids(s[..k])));
  }

  lemma SomeDepart(v: View, a: Id, s: seq<Tuple>, k: nat)
    requires Listing(v, InActor(a), s) && k <= |s|
    ensures k <= |MigrateOut(a, s)| && AcceptsEach(v, MigrateOut(a, s)[..k])
    ensures EffectAll(v, MigrateOut(a, s)[..k]) == v.(objects := v.objects - Ids(s[..k]))
  {
    ParentsFirstOnce(v, InActor(a), s);
    hide ParentsFirst, Complete, Ids, ObjectsOut;
    assert MigrateOut(a, s)[..k] == ObjectsOut(s)[..k];
    OutPrefix(s, k);
    DepartAll(v, s[..k]);
  }

  /** A linked zone that looks like a sound view is settled exactly when nothing is stranded in that. */
  lemma AgreedSettles(t: ZoneState, w: View)
    requires Linked(t) && Sound(ViewOf(t)) && ViewOf(t) == w.(nextSequenceId := t.nextSequenceId)
    ensures SettledState(t) <==> NoOrphans(w)
  {
    hide Linked, Sound, ViewOf;
    assert NoOrphans(ViewOf(t)) <==> NoOrphans(w);
  }

  // ---------- any command ----------

  /** Up to there the command leaves nothing stranded. */
  predicate Clean(st: ZoneState, c: Command, k: nat)
  {
    c.SendOut? && k <= |TuplesOf(st, c.actor)| ==> NothingLeftIn(TuplesOf(st, c.actor), k)
  }

  lemma CutCommandSettles(st: ZoneState, c: Command, k: nat)
    requires SettledState(st) && Passes(st, c) && Guarded(st, c) && !c.Demolish?
    requires k <= |EventsFor(st, c)|
    ensures SettledState(SubmittedAll(st, EventsFor(st, c)[..k]).0) <==> Clean(st, c, k)
  {
    if c.SendOut? {
      hide SettledState, TuplesOf, SubmittedAll, NothingLeftIn;
      assert c == SendOut(c.actor) && EventsFor(st, c) == MigrateOut(c.actor, TuplesOf(st, c.actor));
      assert |MigrateOut(c.actor, TuplesOf(st, c.actor))| == |TuplesOf(st, c.actor)| + 1;
      hide MigrateOut;
      CutSending(st, c.actor, k);
    } else {
      hide SettledState, Passes, Guarded, EventsFor, SubmittedAll, Takes;
      GuardedTaken(st, c);
      OnlySendingOut(st, c);
      CutSettles(st, EventsFor(st, c), k);
    }
  }

  lemma CutSending(st: ZoneState, a: Id, k: nat)
    requires SettledState(st) && a in st.actors && k <= |MigrateOut(a, TuplesOf(st, a))| == |TuplesOf(st, a)| + 1
    ensures SettledState(SubmittedAll(st, MigrateOut(a, TuplesOf(st, a))[..k]).0) <==>
            (k <= |TuplesOf(st, a)| ==> NothingLeftIn(TuplesOf(st, a), k))
  {
    ProcessedAsSubmitted(st, SendOut(a));
    hide *;
    if k <= |TuplesOf(st, a)| {
      CutSendOutExactly(st, a, k);
    } else {
      SendOutOutcome(st, a);
      WholeSeq(MigrateOut(a, TuplesOf(st, a)), k);
    }
  }

  lemma WholeSeq(ps: seq<Payload>, k: nat)
    requires k == |ps|
    ensures ps[..k] == ps
  {
  }

  /**
   * A crash after any of the events that a command persists: a restart finds the zone as the
   * command had made it up to some event, and it is settled exactly when nothing was stranded by
   * then.
   */
  lemma CrashExactly(origin: ZoneState, st: ZoneState, history: seq<Event>, persisted: seq<Event>, c: Command, j: nat)
    returns (k: nat)
    requires Recorded(origin, st, history, persisted) && SettledState(st)
    requires Passes(st, c) && Guarded(st, c) && !c.Demolish? && j <= |PersistedBy(st, c)|
    ensures k <= |EventsFor(st, c)|
    ensures PersistedBy(st, c)[..j] == Persisted(Number(st.nextSequenceId, EventsFor(st, c)[..k]))
    ensures var (t, r) := Replayed(origin, persisted + PersistedBy(st, c)[..j]);
      && r == Done && SameButCounter(SubmittedAll(st, EventsFor(st, c)[..k]).0, t)
      && (SettledState(t) <==> Clean(st, c, k))
  {
    hide *;
    CommandSettles(st, c);
    ProcessedAsSubmitted(st, c);
    k := CutRebuilds(origin, st, history, persisted, EventsFor(st, c), j);
    CutCommandSettles(st, c, k);
    var t, u := Replayed(origin, persisted + PersistedBy(st, c)[..j]).0, SubmittedAll(st, EventsFor(st, c)[..k]).0;
    SettledCounted(u, t);
  }

  lemma SettledCounted(st: ZoneState, t: ZoneState)
    requires SameButCounter(st, t)
    ensures SettledState(t) <==> SettledState(st)
  {
    hide SettledState;
    SettledAside(st, t.nextSequenceId);
  }
}
