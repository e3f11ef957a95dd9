/**
 * What a corpse lists: the things of the dead, in the order in which they were found, containers
 * before what is in them.
 */
module Corpses {
  import opened Bytes
  import opened ZoneViews
  import opened PayloadRuns
  import opened Inventories
  import opened ZoneStates
  import opened ZoneCommands
  import opened ObjectTrees
  import opened ActorDeaths

  /** The objects of a listing, in its order. */
  function Objs(s: seq<Tuple>): (r: seq<Id>)
    ensures |r| == |s|
  {
    if s == [] then [] else Objs(s[..|s| - 1]) + [s[|s| - 1].obj]
  }

  lemma {:induction false} ObjsAt(s: seq<Tuple>, i: nat)
    requires i < |s|
    ensures Objs(s)[i] == s[i].obj
  {
    if i < |s| - 1 {
      ObjsAt(s[..|s| - 1], i);
    }
  }

  /** One object into the corpse: last on its list, everything else where it was. */
  ghost predicate OneMore(st: ZoneState, t: ZoneState, corpse: Id, list: seq<Id>)
  {
    && corpse in st.objects && t.objects.Keys == st.objects.Keys
    && t.objects[corpse].contents == st.objects[corpse].contents + list
    && forall y :: y in st.objects && y !in list ==> t.objects[y].container == st.objects[y].container
  }

  lemma TakenElsewhere(st: ZoneState, from: Container, o: Id, corpse: Id)
    requires corpse in st.objects && from != InObject(corpse)
    ensures var out := RemoveObject(st, from, o);
      && out.objects.Keys == st.objects.Keys && out.objects[corpse].contents == st.objects[corpse].contents
      && forall y :: y in st.objects ==> out.objects[y].container == st.objects[y].container
  {
  }

  lemma MovedIntoCorpse(st: ZoneState, o: Id, corpse: Id)
    requires o in st.objects && corpse in st.objects && o != corpse
    requires o !in st.objects[corpse].contents && st.objects[o].container != InObject(corpse)
    ensures var (t, r) := MoveObject(st, o, st.objects[o].container, InObject(corpse), "");
      r == Done && OneMore(st, t, corpse, [o])
  {
    TakenElsewhere(st, st.objects[o].container, o, corpse);
    hide RemoveObject;
  }

  lemma SubmittedRelocation(st: ZoneState, o: Id, c: Container)
    requires o in st.objects && Resolves(st, c)
    ensures var on := st.(nextSequenceId := st.nextSequenceId + 1);
      var moved := MoveObject(on, o, st.objects[o].container, c, "");
      moved.1 == Done ==>
        Submitted(st, ObjectAdminRelocate(o, c, "")) == (moved.0.(nextSequenceId := on.nextSequenceId), Done)
  {
    hide MoveObject;
  }

  lemma IntoCorpse(st: ZoneState, o: Id, corpse: Id)
    requires o in st.objects && corpse in st.objects && o != corpse
    requires o !in st.objects[corpse].contents && st.objects[o].container != InObject(corpse)
    ensures var (t, r) := Submitted(st, ObjectAdminRelocate(o, InObject(corpse), ""));
      r == Done && OneMore(st, t, corpse, [o])
  {
    hide Submitted, MoveObject;
    MovedIntoCorpse(st.(nextSequenceId := st.nextSequenceId + 1), o, corpse);
    SubmittedRelocation(st, o, InObject(corpse));
  }

  lemma OneMoreAfter(st: ZoneState, t: ZoneState, u: ZoneState, corpse: Id, list: seq<Id>, o: Id)
    requires OneMore(st, t, corpse, list) && OneMore(t, u, corpse, [o])
    ensures OneMore(st, u, corpse, list + [o])
  {
  }

  lemma LastIsNew(s: seq<Tuple>)
    requires s != [] && forall i, j :: 0 <= i < j < |s| ==> s[i].obj != s[j].obj
    ensures s[|s| - 1].obj !in Objs(s[..|s| - 1])
  {
    var init := s[..|s| - 1];
    forall i | 0 <= i < |init|
      ensures Objs(init)[i] == s[i].obj
    {
      ObjsAt(init, i);
    }
  }

  /** A run of relocations puts the objects on the corpse's list in the order of the run. */
  lemma {:induction false} RelocationsInOrder(st: ZoneState, corpse: Id, s: seq<Tuple>)
    requires corpse in st.objects
    requires forall i, j :: 0 <= i < j < |s| ==> s[i].obj != s[j].obj
    requires forall t :: t in s ==>
      && t.obj in st.objects && t.obj != corpse
      && t.obj !in st.objects[corpse].contents && st.objects[t.obj].container != InObject(corpse)
    ensures var (t, r) := SubmittedAll(st, Relocations(s, corpse));
      r == Done && OneMore(st, t, corpse, Objs(s))
  {
    hide Submitted;
    if s != [] {
      var init, last := s[..|s| - 1], s[|s| - 1];
      RelocationsInOrder(st, corpse, init);
      var t := SubmittedAll(st, Relocations(init, corpse)).0;
      LastIsNew(s);
      assert last in s;
      IntoCorpse(t, last.obj, corpse);
      OneMoreAfter(st, t, Submitted(t, ObjectAdminRelocate(last.obj, InObject(corpse), "")).0, corpse, Objs(init),
        last.obj);
      hide OneMore;
      SubmittedConcat(st, Relocations(init, corpse), [ObjectAdminRelocate(last.obj, InObject(corpse), "")]);
      SubmittedOne(t, ObjectAdminRelocate(last.obj, InObject(corpse), ""));
    }
  }

  /** A corpse is empty when the relocations begin, and the things of the dead are still elsewhere. */
  lemma CorpseBegins(st: ZoneState, a: Id, corpse: Id, s: seq<Tuple>)
    requires SettledState(st) && a in st.actors && corpse !in st.objects && ParentsFirst(ViewOf(st), InActor(a), s)
    ensures var (t, r) := SubmittedAll(st, DeathAndCorpse(ViewOf(st), a, corpse));
      && r == Done && corpse in t.objects && t.objects[corpse].contents == []
      && forall x :: x in s ==>
           x.obj in t.objects && x.obj != corpse && t.objects[x.obj].container != InObject(corpse)
  {
    var v := ViewOf(st);
    SettledLinked(st);
    ViewKeys(st);
    assert NoOrphans(v);
    CorpseRun(v, a, corpse);
    ParentsFirstMembers(v, InActor(a), s);
    CorpseObjects(v, a, corpse);
    hide Linked, Sound, NoOrphans, ParentsFirst, DeathAndCorpse, ViewOf, AcceptsEach, EffectAll, SubmittedAll;
    hide WithCorpse, Dead;
    SubmittingAgrees(st, DeathAndCorpse(v, a, corpse));
    var t := SubmittedAll(st, DeathAndCorpse(v, a, corpse)).0;
    ViewKeys(t);
    EmptyCorpse(t, v, corpse);
    forall x | x in s
      ensures x.obj in t.objects && x.obj != corpse && t.objects[x.obj].container != InObject(corpse)
    {
      assert x.obj in Ids(s);
      NotInCorpse(t, v, corpse, x.obj);
    }
  }

  /** With the corpse there is one more object, and it lies in a location. */
  ghost predicate OnlyCorpseNew(v: View, w: View, corpse: Id)
  {
    && corpse !in v.objects && w.objects.Keys == v.objects.Keys + {corpse} && w.objects[corpse].container.InLocation?
    && forall o :: o in v.objects ==> w.objects[o] == v.objects[o]
  }

  lemma CorpseObjects(v: View, a: Id, corpse: Id)
    requires a in v.actors && corpse !in v.objects
    ensures OnlyCorpseNew(v, WithCorpse(Dead(v, a), a, corpse), corpse)
    ensures forall n: nat :: OnlyCorpseNew(v, WithCorpse(Dead(v, a), a, corpse).(nextSequenceId := n), corpse)
  {
  }

  lemma NotInCorpse(t: ZoneState, v: View, corpse: Id, o: Id)
    requires NoOrphans(v) && OnlyCorpseNew(v, ViewOf(t), corpse) && o in t.objects
    ensures t.objects[o].container != InObject(corpse)
  {
    ViewKeys(t);
    ViewContainer(t, o);
    hide ViewOf;
    assert o != corpse ==> Exists(v, v.objects[o].container);
  }

  lemma EmptyCorpse(t: ZoneState, v: View, corpse: Id)
    requires Linked(t) && NoOrphans(v) && OnlyCorpseNew(v, ViewOf(t), corpse)
    ensures corpse in t.objects && t.objects[corpse].contents == []
  {
    ViewKeys(t);
    assert Lists(t, InObject(corpse));
    var contents := t.objects[corpse].contents;
    hide NoDup, Linked, ViewOf, NoOrphans, OnlyCorpseNew;
    forall o
      ensures o !in contents
    {
      if o in t.objects {
        NotInCorpse(t, v, corpse, o);
      }
    }
    HasMember(contents);
  }

  lemma RemovedActorKeepsObjects(st: ZoneState, a: Id)
    ensures Submitted(st, ActorRemoveFromZone(a)).0.objects == st.objects
  {
  }

  /** After a death the corpse lists all that the dead actor had, in the order of the listing. */
  lemma CorpseLists(st: ZoneState, a: Id, corpse: Id, s: seq<Tuple>)
    requires SettledState(st) && a in st.actors && corpse !in st.objects && Listing(ViewOf(st), InActor(a), s)
    ensures var t := SubmittedAll(st, DeathPayloads(ViewOf(st), a, corpse, s)).0;
      corpse in t.objects && t.objects[corpse].contents == Objs(s)
  {
    hide SettledState, Submitted, ParentsFirst, Complete, DeathAndCorpse, Relocations;
    var first := DeathAndCorpse(ViewOf(st), a, corpse);
    CorpseBegins(st, a, corpse, s);
    var t := SubmittedAll(st, first).0;
    ParentsFirstOnce(ViewOf(st), InActor(a), s);
    RelocationsInOrder(t, corpse, s);
    var u := SubmittedAll(t, Relocations(s, corpse)).0;
    SubmittedConcat(st, first, Relocations(s, corpse));
    SubmittedConcat(st, first + Relocations(s, corpse), [ActorRemoveFromZone(a)]);
    SubmittedOne(u, ActorRemoveFromZone(a));
    RemovedActorKeepsObjects(u, a);
  }
}
