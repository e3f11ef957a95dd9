/**
 * A crash while an actor is moved to another zone: what the two zones then are after a restart,
 * and exactly when moving the actor again makes up for it.
 */
module MigrationCrashes {
  import opened Bytes
  import opened ZoneViews
  import opened PayloadRuns
  import opened ZoneStates
  import opened ZoneReplays
  import opened ZoneCommands
  import opened RemovalCommands
  import opened RemovalRestarts
  import opened ObjectTrees
  import opened Migrations
  import opened Arrivals
  import opened Commands
  import opened CommandCrashes

  /**
   * The zone moved to has persisted the first i events of taking the actor in, the other the first
   * j of sending it out, which it begins only when the first is done.
   */
  ghost predicate CutAt(src: ZoneState, dst: ZoneState, a: Id, l: Id, i: nat, j: nat)
  {
    && SettledState(src) && SettledState(dst) && a in src.actors && Welcome(dst, src, a, l)
    && i <= |Arriving(src, a, l)| && j <= |MigrateOut(a, TuplesOf(src, a))| && (j > 0 ==> i == |Arriving(src, a, l)|)
  }

  ghost function FoundThere(src: ZoneState, dst: ZoneState, a: Id, l: Id, i: nat, j: nat): ZoneState
    requires CutAt(src, dst, a, l, i, j)
  {
    SubmittedAll(dst, Arriving(src, a, l)[..i]).0
  }

  ghost function FoundHere(src: ZoneState, dst: ZoneState, a: Id, l: Id, i: nat, j: nat): ZoneState
    requires CutAt(src, dst, a, l, i, j)
  {
    SubmittedAll(src, MigrateOut(a, TuplesOf(src, a))[..j]).0
  }

  /** The objects taken in by then. */
  function TakenIn(s: seq<Tuple>, i: nat): seq<Tuple>
    requires i <= |s| + 1
  {
    s[..if i == 0 then 0 else i - 1]
  }

  // ---------- the zone moved to ----------

  lemma {:induction false} InPrefix(v: View, s: seq<Tuple>, k: nat)
    requires k <= |s| && forall t :: t in s ==> t.obj in v.objects
    ensures ObjectsIn(v, s)[..k] == ObjectsIn(v, s[..k])
  {
    if k == |s| {
      assert s[..k] == s;
    } else {
      var init := s[..|s| - 1];
      InPrefix(v, init, k);
      assert init[..k] == s[..k];
    }
  }

  lemma {:induction false} ParentsFirstPrefix(v: View, c: Container, s: seq<Tuple>, k: nat)
    requires ParentsFirst(v, c, s) && k <= |s|
    ensures ParentsFirst(v, c, s[..k])
  {
    if k == |s| {
      assert s[..k] == s;
    } else {
      var init := s[..|s| - 1];
      ParentsFirstPrefix(v, c, init, k);
      assert init[..k] == s[..k];
    }
  }

  lemma ArrivingPrefix(src: ZoneState, a: Id, l: Id, i: nat)
    requires SettledState(src) && a in src.actors && 0 < i <= |TuplesOf(src, a)| + 1
    ensures |Arriving(src, a, l)| == |TuplesOf(src, a)| + 1 && a in ViewOf(src).actors
    ensures var r := TuplesOf(src, a)[..i - 1];
      && (forall t :: t in r ==> t.obj in ViewOf(src).objects)
      && Arriving(src, a, l)[..i] == MigrateIn(ViewOf(src), a, l, r)
  {
    TuplesListed(src, a);
    hide SettledState, ViewOf, TuplesOf, ParentsFirst, Complete;
    MigrateInPrefix(ViewOf(src), a, l, TuplesOf(src, a), i);
    hide MigrateIn;
  }

  lemma MigrateInPrefix(v: View, a: Id, l: Id, s: seq<Tuple>, i: nat)
    requires a in v.actors && (forall t :: t in s ==> t.obj in v.objects) && 0 < i <= |s| + 1
    ensures |MigrateIn(v, a, l, s)| == |s| + 1 && MigrateIn(v, a, l, s)[..i] == MigrateIn(v, a, l, s[..i - 1])
  {
    InPrefix(v, s, i - 1);
    hide ObjectsIn;
    var p := ActorMigrateIn(a, v.actors[a].info, l);
    assert ([p] + ObjectsIn(v, s))[..i] == [p] + ObjectsIn(v, s)[..i - 1];
  }

  lemma ArrivingSize(src: ZoneState, a: Id, l: Id)
    requires SettledState(src) && a in src.actors
    ensures |Arriving(src, a, l)| == |TuplesOf(src, a)| + 1
  {
    TuplesListed(src, a);
    hide SettledState, ViewOf, TuplesOf, Listing;
  }

  lemma PrefixIds(s: seq<Tuple>, k: nat)
    requires k <= |s|
    ensures Ids(s[..k]) <= Ids(s)
  {
    assert s == s[..k] + s[k..];
    IdsConcat(s[..k], s[k..]);
  }

  /** What is taken in is taken in as the view says. */
  lemma SomeArrive(v: View, w: View, a: Id, l: Id, s: seq<Tuple>, k: nat)
    requires Consistent(v) && NoOrphans(w) && a in v.actors && a !in w.actors && l in w.locations
    requires ParentsFirst(v, InActor(a), s) && k <= |s| && Ids(s) !! w.objects.Keys
    ensures forall t :: t in s[..k] ==> t.obj in v.objects
    ensures AcceptsEach(w, MigrateIn(v, a, l, s[..k]))
    ensures EffectAll(w, MigrateIn(v, a, l, s[..k])) == Arrived(v, w, a, l, Ids(s[..k]))
    ensures NoOrphans(Arrived(v, w, a, l, Ids(s[..k])))
  {
    hide Sound, NoOrphans, Accepts, Effect, AcceptsEach, EffectAll, Arrived;
    ParentsFirstPrefix(v, InActor(a), s, k);
    ParentsFirstMembers(v, InActor(a), s[..k]);
    PrefixIds(s, k);
    hide ParentsFirst, Ids;
    MigrateInRun(v, w, a, l, s[..k]);
    ArrivedNoOrphans(v, w, a, l, Ids(s[..k]));
  }

  lemma FoundThereView(src: ZoneState, dst: ZoneState, a: Id, l: Id, i: nat, j: nat)
    requires CutAt(src, dst, a, l, i, j) && i > 0
    ensures i - 1 <= |TuplesOf(src, a)| && a in ViewOf(src).actors
    ensures var t := FoundThere(src, dst, a, l, i, j);
      && SettledState(t)
      && ViewOf(t) ==
         Arrived(ViewOf(src), ViewOf(dst), a, l, Ids(TuplesOf(src, a)[..i - 1])).(nextSequenceId := t.nextSequenceId)
  {
    ArrivingSize(src, a, l);
    ArrivingPrefix(src, a, l, i);
    TuplesListed(src, a);
    SettledMeans(src);
    SettledMeans(dst);
    ViewKeys(src);
    ViewKeys(dst);
    hide SettledState, Linked, Sound, NoOrphans, ViewOf, TuplesOf, ParentsFirst, Complete, Arriving, Arrived, MigrateIn;
    hide Ids;
    hide AcceptsEach, EffectAll, SubmittedAll;
    SomeArrive(ViewOf(src), ViewOf(dst), a, l, TuplesOf(src, a), i - 1);
    SubmittingSettles(dst, Arriving(src, a, l)[..i]);
  }

  // ---------- what is found after a restart ----------

  lemma KeysOf(t: ZoneState, v: View)
    requires ViewOf(t) == v.(nextSequenceId := t.nextSequenceId)
    ensures t.objects.Keys == v.objects.Keys && t.actors.Keys == v.actors.Keys
  {
    hide ViewOf;
    ViewKeys(t);
  }

  lemma ArrivedKeys(v: View, w: View, a: Id, l: Id, ids: set<Id>)
    requires a in v.actors && ids <= v.objects.Keys
    ensures var u := Arrived(v, w, a, l, ids);
      u.actors.Keys == w.actors.Keys + {a} && u.objects.Keys == w.objects.Keys + ids
  {
  }

  lemma NothingFoundThere(src: ZoneState, dst: ZoneState, a: Id, l: Id, j: nat)
    requires CutAt(src, dst, a, l, 0, j)
    ensures FoundThere(src, dst, a, l, 0, j) == dst && SettledState(dst) && a !in dst.actors
    ensures dst.objects.Keys == dst.objects.Keys + Ids(TakenIn(TuplesOf(src, a), 0))
  {
    hide SettledState, Arriving, TuplesOf;
    assert Ids([]) == {};
  }

  lemma KeepsThere(src: ZoneState, dst: ZoneState, a: Id, l: Id, i: nat, j: nat)
    requires CutAt(src, dst, a, l, i, j)
    ensures SettledState(src) && SettledState(dst) && a in src.actors
    ensures i <= |TuplesOf(src, a)| + 1 && j <= |MigrateOut(a, TuplesOf(src, a))| == |TuplesOf(src, a)| + 1
    ensures j > 0 ==> i == |TuplesOf(src, a)| + 1
    ensures FoundHere(src, dst, a, l, i, j) == SubmittedAll(src, MigrateOut(a, TuplesOf(src, a))[..j]).0
  {
    ArrivingSize(src, a, l);
    hide SettledState, TuplesOf, SubmittedAll;
  }

  lemma HadThere(src: ZoneState, a: Id)
    requires SettledState(src) && a in src.actors
    ensures Ids(TuplesOf(src, a)) <= src.objects.Keys
  {
    TuplesListed(src, a);
    ViewKeys(src);
    hide SettledState, ViewOf, TuplesOf, ParentsFirst, Complete;
  }

  /** The zone moved to has the actor as soon as it has begun, and what was taken in by then. */
  lemma FoundThereHas(src: ZoneState, dst: ZoneState, a: Id, l: Id, i: nat, j: nat)
    requires CutAt(src, dst, a, l, i, j)
    ensures i <= |TuplesOf(src, a)| + 1
    ensures var t := FoundThere(src, dst, a, l, i, j);
      && SettledState(t) && (a in t.actors <==> i > 0)
      && t.objects.Keys == dst.objects.Keys + Ids(TakenIn(TuplesOf(src, a), i))
  {
    hide *;
    KeepsThere(src, dst, a, l, i, j);
    if i == 0 {
      NothingFoundThere(src, dst, a, l, j);
    } else {
      SomeFoundThere(src, dst, a, l, i, j);
      TakenInSome(TuplesOf(src, a), i);
    }
  }

  lemma TakenInSome(s: seq<Tuple>, i: nat)
    requires 0 < i <= |s| + 1
    ensures TakenIn(s, i) == s[..i - 1]
  {
  }

  lemma SomeFoundThere(src: ZoneState, dst: ZoneState, a: Id, l: Id, i: nat, j: nat)
    requires CutAt(src, dst, a, l, i, j) && i > 0
    ensures i - 1 <= |TuplesOf(src, a)|
    ensures var t := FoundThere(src, dst, a, l, i, j);
      SettledState(t) && a in t.actors && t.objects.Keys == dst.objects.Keys + Ids(TuplesOf(src, a)[..i - 1])
  {
    var v, w, s := ViewOf(src), ViewOf(dst), TuplesOf(src, a);
    hide *;
    KeepsThere(src, dst, a, l, i, j);
    FoundThereView(src, dst, a, l, i, j);
    HadThere(src, a);
    PrefixIds(s, i - 1);
    ViewKeys(src);
    ViewKeys(dst);
    KeysOf(FoundThere(src, dst, a, l, i, j), Arrived(v, w, a, l, Ids(s[..i - 1])));
    ArrivedKeys(v, w, a, l, Ids(s[..i - 1]));
  }

  lemma DepartedKeys(v: View, a: Id, ids: set<Id>)
    ensures v.(objects := v.objects - ids).objects.Keys == v.objects.Keys - ids
    ensures Departed(v, a, ids).objects.Keys == v.objects.Keys - ids && a !in Departed(v, a, ids).actors
  {
  }

  lemma SomeLeft(src: ZoneState, a: Id, j: nat)
    requires SettledState(src) && a in src.actors && j <= |TuplesOf(src, a)|
    ensures var u, s := SubmittedAll(src, MigrateOut(a, TuplesOf(src, a))[..j]).0, TuplesOf(src, a);
      a in u.actors && u.objects.Keys == src.objects.Keys - Ids(s[..j]) && (SettledState(u) <==> NothingLeftIn(s, j))
  {
    var v, s := ViewOf(src), TuplesOf(src, a);
    assert j <= |MigrateOut(a, s)|;
    hide *;
    CutSendOutExactly(src, a, j);
    ViewKeys(src);
    DepartedKeys(v, a, Ids(s[..j]));
    KeysOf(SubmittedAll(src, MigrateOut(a, s)[..j]).0, v.(objects := v.objects - Ids(s[..j])));
  }

  lemma AllLeft(src: ZoneState, a: Id)
    requires SettledState(src) && a in src.actors
    ensures var u, s := SubmittedAll(src, MigrateOut(a, TuplesOf(src, a))).0, TuplesOf(src, a);
      a !in u.actors && u.objects.Keys == src.objects.Keys - Ids(s) && SettledState(u)
  {
    var v, s := ViewOf(src), TuplesOf(src, a);
    ProcessedAsSubmitted(src, SendOut(a));
    hide *;
    SendOutOutcome(src, a);
    ViewKeys(src);
    DepartedKeys(v, a, Ids(s));
    KeysOf(SubmittedAll(src, MigrateOut(a, s)).0, Departed(v, a, Ids(s)));
  }

  /** The objects sent out by then. */
  function SentOut(s: seq<Tuple>, j: nat): seq<Tuple>
  {
    if j <= |s| then s[..j] else s
  }

  /** The zone left has the actor until all is done, and what was not yet sent out. */
  lemma FoundHereHas(src: ZoneState, dst: ZoneState, a: Id, l: Id, i: nat, j: nat)
    requires CutAt(src, dst, a, l, i, j)
    ensures var u, s := FoundHere(src, dst, a, l, i, j), TuplesOf(src, a);
      && (a in u.actors <==> j <= |s|)
      && u.objects.Keys == src.objects.Keys - Ids(SentOut(s, j))
      && (SettledState(u) <==> (j <= |s| ==> NothingLeftIn(s, j)))
  {
    var s := TuplesOf(src, a);
    KeepsThere(src, dst, a, l, i, j);
    assert SentOut(s, j) == if j <= |s| then s[..j] else s;
    hide *;
    if j <= |s| {
      SomeLeft(src, a, j);
    } else {
      WholeSeq(MigrateOut(a, s), j);
      AllLeft(src, a);
    }
  }

  /** Between them, what was taken in and what was not yet sent out are everything. */
  lemma AllAccounted(s: seq<Tuple>, i: nat, j: nat)
    requires i <= |s| + 1 && (j > 0 ==> i == |s| + 1)
    ensures Ids(s) <= Ids(TakenIn(s, i)) || Ids(SentOut(s, j)) == {}
  {
    if j > 0 {
      assert TakenIn(s, i) == s;
    }
  }

  /**
   * Whatever the moment of the crash, the actor is found in at least one of the zones, and in both
   * unless nothing was taken in or all was sent out; none of its things is lost; and the zone it
   * leaves is in good order exactly when nothing is left in something already gone.
   */
  lemma CrashKeepsAll(src: ZoneState, dst: ZoneState, a: Id, l: Id, i: nat, j: nat)
    requires CutAt(src, dst, a, l, i, j)
    ensures var t, u, s := FoundThere(src, dst, a, l, i, j), FoundHere(src, dst, a, l, i, j), TuplesOf(src, a);
      && (a in t.actors <==> i > 0) && (a in u.actors <==> j <= |s|) && (a in t.actors || a in u.actors)
      && (forall x :: x in Ids(s) ==> x in t.objects || x in u.objects)
      && SettledState(t) && (SettledState(u) <==> (j <= |s| ==> NothingLeftIn(s, j)))
  {
    hide *;
    FoundThereHas(src, dst, a, l, i, j);
    FoundHereHas(src, dst, a, l, i, j);
    KeepsThere(src, dst, a, l, i, j);
    HadThere(src, a);
    AllAccounted(TuplesOf(src, a), i, j);
  }

  // ---------- moving the actor again ----------

  lemma {:induction false} TuplesAside(st: ZoneState, c: Container, depth: nat, n: nat)
    ensures Tuples(st.(nextSequenceId := n), c, depth) == Tuples(st, c, depth)
    decreases depth, 0
  {
    if depth > 0 && Resolves(st, c) {
      ForestAside(st, Contents(st, c), c, depth - 1, n);
    }
  }

  lemma {:induction false} ForestAside(st: ZoneState, list: seq<Id>, c: Container, depth: nat, n: nat)
    ensures Forest(st.(nextSequenceId := n), list, c, depth) == Forest(st, list, c, depth)
    decreases depth, |list|
  {
    if list != [] {
      ForestAside(st, list[..|list| - 1], c, depth, n);
      TuplesAside(st, InObject(list[|list| - 1]), depth, n);
    }
  }

  lemma FoundTuples(st: ZoneState, t: ZoneState, a: Id)
    requires SameButCounter(st, t)
    ensures TuplesOf(t, a) == TuplesOf(st, a)
  {
    TuplesAside(st, InActor(a), |st.objects| + 1, t.nextSequenceId);
  }

  lemma WelcomeAside(dst: ZoneState, t: ZoneState, src: ZoneState, u: ZoneState, a: Id, l: Id)
    requires SameButCounter(dst, t) && SameButCounter(src, u)
    ensures Welcome(t, u, a, l) <==> Welcome(dst, src, a, l)
  {
    FoundTuples(src, u, a);
    hide TuplesOf, Ids;
  }

  /** Whoever has begun to arrive is not welcome again. */
  lemma WelcomeAgainExactly(src: ZoneState, dst: ZoneState, a: Id, l: Id, i: nat, j: nat)
    requires CutAt(src, dst, a, l, i, j)
    ensures Welcome(FoundThere(src, dst, a, l, i, j), FoundHere(src, dst, a, l, i, j), a, l) <==> i == 0
  {
    FoundThereHas(src, dst, a, l, i, j);
    ArrivingSize(src, a, l);
    hide SettledState, Arriving, TuplesOf, Ids;
  }

  /**
   * After a restart the actor, if it is still in a zone that is in good order, can be moved again
   * without harm exactly when nothing at all had been taken in.
   */
  lemma RetryExactly(src: ZoneState, dst: ZoneState, t: ZoneState, u: ZoneState, a: Id, l: Id, i: nat, j: nat)
    requires CutAt(src, dst, a, l, i, j) && j <= |TuplesOf(src, a)|
    requires SameButCounter(FoundThere(src, dst, a, l, i, j), t) && SameButCounter(FoundHere(src, dst, a, l, i, j), u)
    requires SettledState(u)
    ensures SettledState(t) && a in u.actors
    ensures Processed(t, TakeIn(u, a, l)).1 && SettledState(Processed(t, TakeIn(u, a, l)).0) <==> i == 0
  {
    var ft, fu := FoundThere(src, dst, a, l, i, j), FoundHere(src, dst, a, l, i, j);
    hide *;
    FoundThereHas(src, dst, a, l, i, j);
    FoundHereHas(src, dst, a, l, i, j);
    SettledCounted(ft, t);
    SameActors(fu, u);
    WelcomeAgainExactly(src, dst, a, l, i, j);
    WelcomeAside(ft, t, fu, u, a, l);
    TakeInExactly(t, u, a, l);
  }

  lemma SameActors(st: ZoneState, t: ZoneState)
    requires SameButCounter(st, t)
    ensures t.actors == st.actors
  {
  }

  lemma TakeInExactly(t: ZoneState, u: ZoneState, a: Id, l: Id)
    requires SettledState(t) && SettledState(u) && a in u.actors
    ensures Processed(t, TakeIn(u, a, l)).1 && SettledState(Processed(t, TakeIn(u, a, l)).0) <==> Welcome(t, u, a, l)
  {
    hide SettledState, Processed, Welcome;
    CommandExactly(t, TakeIn(u, a, l));
  }

  // ---------- finishing what was begun ----------

  /** With some of what is listed gone, and nothing stranded by that, the rest is what is listed. */
  lemma RestListed(v: View, u: View, c: Container, s: seq<Tuple>, gone: set<Id>, rest: seq<Tuple>)
    requires Listing(v, c, s) && NothingInside(v, gone) && u.objects == v.objects - gone && Listing(u, c, rest)
    ensures v.objects - gone - Ids(rest) == v.objects - gone - Ids(s)
  {
    hide ParentsFirst, Ids;
    assert Holds(u, c, Ids(s) - gone);
    ListingLeast(u, c, rest, Ids(s) - gone);
    RestHolds(v, u, c, gone, rest);
    ListingLeast(v, c, s, Ids(rest) + gone);
  }

  lemma RestHolds(v: View, u: View, c: Container, gone: set<Id>, rest: seq<Tuple>)
    requires NothingInside(v, gone) && u.objects == v.objects - gone && Complete(u, c, rest)
    ensures Holds(v, c, Ids(rest) + gone)
  {
    hide Ids;
    forall x | x in v.objects && Under(c, Ids(rest) + gone, v.objects[x].container)
      ensures x in Ids(rest) + gone
    {
      if x !in gone {
        assert x in u.objects && Under(c, Ids(rest), u.objects[x].container);
      }
    }
  }

  lemma DepartedAfter(v: View, u: View, a: Id, gone: set<Id>, rest: set<Id>, all: set<Id>, n: nat)
    requires u == v.(objects := v.objects - gone, nextSequenceId := u.nextSequenceId) && gone <= all
    requires v.objects - gone - rest == v.objects - gone - all
    ensures Departed(u, a, rest).(nextSequenceId := n) == Departed(v, a, all).(nextSequenceId := n)
  {
    assert v.objects - gone - all == v.objects - all;
  }

  /**
   * When all was taken in, what is left to do is to send the actor out, or to go on doing so if the
   * zone is in good order: then both zones are what they would have been without the crash.
   */
  lemma SendingOutFinishes(src: ZoneState, dst: ZoneState, u: ZoneState, a: Id, l: Id, i: nat, j: nat)
    requires CutAt(src, dst, a, l, i, j) && i == |TuplesOf(src, a)| + 1 && j <= |TuplesOf(src, a)|
    requires SameButCounter(FoundHere(src, dst, a, l, i, j), u) && SettledState(u)
    ensures a in ViewOf(src).actors
    ensures var t := FoundThere(src, dst, a, l, i, j);
      ViewOf(t) == Arrived(ViewOf(src), ViewOf(dst), a, l, Ids(TuplesOf(src, a))).(nextSequenceId := t.nextSequenceId)
    ensures var (e, ok) := Processed(u, SendOut(a));
      && ok && SettledState(e)
      && ViewOf(e) == Departed(ViewOf(src), a, Ids(TuplesOf(src, a))).(nextSequenceId := e.nextSequenceId)
  {
    var v, s := ViewOf(src), TuplesOf(src, a);
    hide *;
    KeepsThere(src, dst, a, l, i, j);
    FoundThereView(src, dst, a, l, i, j);
    WholeList(s);
    LeftInPart(src, dst, u, a, l, i, j);
    TuplesListed(src, a);
    TuplesListed(u, a);
    RestListed(v, ViewOf(u), InActor(a), s, Ids(s[..j]), TuplesOf(u, a));
    PrefixIds(s, j);
    SendOutOutcome(u, a);
    DepartedAfter(v, ViewOf(u), a, Ids(s[..j]), Ids(TuplesOf(u, a)), Ids(s), Processed(u, SendOut(a)).0.nextSequenceId);
  }

  lemma WholeList(s: seq<Tuple>)
    ensures s[..|s|] == s
  {
  }

  lemma LeftInPart(src: ZoneState, dst: ZoneState, u: ZoneState, a: Id, l: Id, i: nat, j: nat)
    requires CutAt(src, dst, a, l, i, j) && j <= |TuplesOf(src, a)|
    requires SameButCounter(FoundHere(src, dst, a, l, i, j), u) && SettledState(u)
    ensures a in u.actors && NothingInside(ViewOf(src), Ids(TuplesOf(src, a)[..j]))
    ensures ViewOf(u) ==
      ViewOf(src).(objects := ViewOf(src).objects - Ids(TuplesOf(src, a)[..j]), nextSequenceId := u.nextSequenceId)
    ensures ViewOf(u).objects == ViewOf(src).objects - Ids(TuplesOf(src, a)[..j])
  {
    hide *;
    KeepsThere(src, dst, a, l, i, j);
    CutSendOutExactly(src, a, j);
    SettledCounted(FoundHere(src, dst, a, l, i, j), u);
    ViewAside(FoundHere(src, dst, a, l, i, j), u);
    FoundHereHas(src, dst, a, l, i, j);
    SameActors(FoundHere(src, dst, a, l, i, j), u);
    TuplesListed(src, a);
    NothingInsideExactly(ViewOf(src), a, TuplesOf(src, a), j);
  }
}
