/** Everything inside a container, at any depth, each thing after what it is in. */
module ObjectTrees {
  import opened Bytes
  import opened ZoneViews
  import opened Inventories
  import opened ZoneStates
  import opened SnapshotOrder

  datatype Tuple = Tuple(obj: Id, cont: Container)

  /**
   * getObjectContainerTuplesRecursive: for each object listed, the object and then all that is in
   * it. depth bounds the nesting; in a zone without cycles the number of objects is bound enough.
   */
  function Tuples(st: ZoneState, c: Container, depth: nat): seq<Tuple>
    decreases depth, 0
  {
    if depth == 0 || !Resolves(st, c) then [] else Forest(st, Contents(st, c), c, depth - 1)
  }

  function Forest(st: ZoneState, list: seq<Id>, c: Container, depth: nat): seq<Tuple>
    decreases depth, |list|
  {
    if list == [] then []
    else
      var o := list[|list| - 1];
      Forest(st, list[..|list| - 1], c, depth) + [Tuple(o, c)] + Tuples(st, InObject(o), depth)
  }

  function ObjectContainerTuples(st: ZoneState, c: Container): seq<Tuple>
  {
    Tuples(st, c, |st.objects| + 1)
  }

  // ---------- what a listing is ----------

  function Ids(s: seq<Tuple>): set<Id>
  {
    set t | t in s :: t.obj
  }

  /** In c, or in an object of ids. */
  predicate Under(c: Container, ids: set<Id>, d: Container)
  {
    d == c || (d.InObject? && d.id in ids)
  }

  /** Each object of the list once, with its container, which is c or comes before it. */
  ghost predicate ParentsFirst(v: View, c: Container, s: seq<Tuple>)
  {
    s == [] ||
    var init, last := s[..|s| - 1], s[|s| - 1];
    && ParentsFirst(v, c, init)
    && last.obj in v.objects && v.objects[last.obj].container == last.cont
    && last.obj !in Ids(init) && Under(c, Ids(init), last.cont)
  }

  /** Nothing in c, or in something listed, is left out. */
  ghost predicate Complete(v: View, c: Container, s: seq<Tuple>)
  {
    forall x :: x in v.objects && Under(c, Ids(s), v.objects[x].container) ==> x in Ids(s)
  }

  ghost predicate Listing(v: View, c: Container, s: seq<Tuple>)
  {
    ParentsFirst(v, c, s) && Complete(v, c, s)
  }

  lemma IdsConcat(s: seq<Tuple>, t: seq<Tuple>)
    ensures Ids(s + t) == Ids(s) + Ids(t)
  {
  }

  lemma IdsSnoc(s: seq<Tuple>)
    requires s != []
    ensures Ids(s) == Ids(s[..|s| - 1]) + {s[|s| - 1].obj}
  {
    assert s == s[..|s| - 1] + [s[|s| - 1]];
  }

  lemma {:induction false} ParentsFirstMembers(v: View, c: Container, s: seq<Tuple>)
    requires ParentsFirst(v, c, s)
    ensures forall x :: x in Ids(s) ==> x in v.objects && Under(c, Ids(s), v.objects[x].container)
  {
    if s != [] {
      var init, last := s[..|s| - 1], s[|s| - 1];
      ParentsFirstMembers(v, c, init);
      assert s == init + [last];
      IdsConcat(init, [last]);
    }
  }

  lemma {:induction false} ParentsFirstOnce(v: View, c: Container, s: seq<Tuple>)
    requires ParentsFirst(v, c, s)
    ensures forall i, j :: 0 <= i < j < |s| ==> s[i].obj != s[j].obj
    ensures forall t :: t in s ==> t.obj in v.objects
  {
    if s != [] {
      var init := s[..|s| - 1];
      ParentsFirstOnce(v, c, init);
      forall i | 0 <= i < |init|
        ensures s[i].obj in Ids(init)
      {
        assert init[i] in init;
      }
    }
  }

  /** What is under one listed object, none of it listed yet, can follow. */
  lemma {:induction false} ParentsFirstConcat(v: View, c: Container, s: seq<Tuple>, o: Id, t: seq<Tuple>)
    requires ParentsFirst(v, c, s) && o in Ids(s) && ParentsFirst(v, InObject(o), t) && Ids(s) !! Ids(t)
    ensures ParentsFirst(v, c, s + t)
  {
    if t == [] {
      assert s + t == s;
    } else {
      var init, last := t[..|t| - 1], t[|t| - 1];
      assert t == init + [last];
      IdsConcat(init, [last]);
      assert last.obj in Ids([last]);
      ParentsFirstConcat(v, c, s, o, init);
      assert (s + t)[..|s + t| - 1] == s + init;
      IdsConcat(s, init);
    }
  }

  // ---------- ranks ----------

  ghost predicate Ranked(v: View, r: map<Id, nat>)
  {
    && r.Keys == v.objects.Keys && (forall x :: x in r ==> r[x] < |v.objects|)
    && forall x, y :: ChildOf(v, x, y) && y in r ==> r[y] < r[x]
  }

  /** All that is listed under c lies deeper than c. */
  lemma {:induction false} ListedDeeper(v: View, r: map<Id, nat>, c: Container, s: seq<Tuple>)
    requires Ranked(v, r) && ParentsFirst(v, c, s) && c.InObject? && c.id in v.objects
    ensures forall x :: x in Ids(s) ==> x in r && r[c.id] < r[x]
  {
    if s != [] {
      var init, last := s[..|s| - 1], s[|s| - 1];
      ListedDeeper(v, r, c, init);
      assert s == init + [last];
      IdsConcat(init, [last]);
      assert ChildOf(v, last.obj, last.cont.id);
    }
  }

  /** s holds with each object what is in it; so nothing under o can be in s unless o is. */
  lemma {:induction false} Disjoint(v: View, r: map<Id, nat>, c: Container, s: seq<Tuple>, o: Id, t: seq<Tuple>)
    requires Ranked(v, r) && ParentsFirst(v, c, s) && ParentsFirst(v, InObject(o), t)
    requires o in v.objects && v.objects[o].container == c && o !in Ids(s)
    ensures Ids(s) !! Ids(t)
  {
    if t != [] {
      var init, last := t[..|t| - 1], t[|t| - 1];
      Disjoint(v, r, c, s, o, init);
      assert t == init + [last];
      IdsConcat(init, [last]);
      ListedDeeper(v, r, InObject(o), init);
      ParentsFirstMembers(v, c, s);
      if last.obj in Ids(s) {
        var y := last.cont.id;
        assert y == o || y in Ids(init);
        assert c.InObject? ==> ChildOf(v, o, c.id);
      }
    }
  }

  // ---------- the recursion lists everything ----------

  ghost function Height(v: View, r: map<Id, nat>, c: Container): nat
    requires Ranked(v, r)
  {
    if c.InObject? && c.id in r then |v.objects| - r[c.id] else |v.objects| + 1
  }

  lemma ContentsInside(st: ZoneState, c: Container, o: Id)
    requires ObjectsListed(st) && Resolves(st, c)
    ensures o in Contents(st, c) <==> o in ViewOf(st).objects && ViewOf(st).objects[o].container == c
  {
    assert Lists(st, c);
  }

  lemma {:induction false} TuplesListing(st: ZoneState, r: map<Id, nat>, c: Container, depth: nat)
    requires ObjectsListed(st) && Ranked(ViewOf(st), r) && Resolves(st, c) && Height(ViewOf(st), r, c) <= depth
    ensures Listing(ViewOf(st), c, Tuples(st, c, depth))
    decreases depth, 0
  {
    hide Listing, ParentsFirst, ViewOf, ObjectsListed, Height, Ranked, NoDup, HeldBelow, ForestOf, NoneElse;
    ContentsHeld(st, r, c, depth);
    ContentsAll(st, c);
    ForestListing(st, r, Contents(st, c), c, depth - 1);
    ForestIsListing(ViewOf(st), c, Contents(st, c), Tuples(st, c, depth));
  }

  /** All that is in c is in the list. */
  ghost predicate NoneElse(v: View, c: Container, list: seq<Id>)
  {
    forall x :: x in v.objects && v.objects[x].container == c ==> x in list
  }

  lemma ContentsAll(st: ZoneState, c: Container)
    requires ObjectsListed(st) && Resolves(st, c)
    ensures NoneElse(ViewOf(st), c, Contents(st, c))
  {
    hide ViewOf, ObjectsListed;
    forall x | x in ViewOf(st).objects && ViewOf(st).objects[x].container == c
      ensures x in Contents(st, c)
    {
      ContentsInside(st, c, x);
    }
  }

  lemma ForestIsListing(v: View, c: Container, list: seq<Id>, s: seq<Tuple>)
    requires ForestOf(v, c, list, s) && NoneElse(v, c, list)
    ensures Listing(v, c, s)
  {
    hide ParentsFirst, Ids;
    forall x | x in v.objects && Under(c, Ids(s), v.objects[x].container)
      ensures x in Ids(s)
    {
      if v.objects[x].container != c {
        assert ChildOf(v, x, v.objects[x].container.id);
      }
    }
  }

  /** Objects that are in c and have less than depth below them. */
  ghost predicate HeldBelow(v: View, r: map<Id, nat>, list: seq<Id>, c: Container, depth: nat)
    requires Ranked(v, r)
  {
    forall o :: o in list ==>
      o in v.objects && v.objects[o].container == c && Height(v, r, InObject(o)) <= depth
  }

  lemma ContentsHeld(st: ZoneState, r: map<Id, nat>, c: Container, depth: nat)
    requires ObjectsListed(st) && Ranked(ViewOf(st), r) && Resolves(st, c) && Height(ViewOf(st), r, c) <= depth
    ensures depth > 0 && NoDup(Contents(st, c)) && HeldBelow(ViewOf(st), r, Contents(st, c), c, depth - 1)
  {
    hide ViewOf;
    var v := ViewOf(st);
    assert Lists(st, c);
    ResolvesInView(st, c);
    hide NoDup, Lists, Contents;
    forall o | o in Contents(st, c)
      ensures o in v.objects && v.objects[o].container == c && Height(v, r, InObject(o)) <= depth - 1
    {
      ContentsInside(st, c, o);
      assert c.InObject? ==> ChildOf(v, o, c.id);
    }
  }

  lemma ResolvesInView(st: ZoneState, c: Container)
    ensures Resolves(st, c) <==> Exists(ViewOf(st), c)
  {
  }

  /** s lists the objects of `list`, and with everything listed all that is in it. */
  ghost predicate ForestOf(v: View, c: Container, list: seq<Id>, s: seq<Tuple>)
  {
    && ParentsFirst(v, c, s)
    && (forall o :: o in list ==> o in Ids(s))
    && (forall x :: x in Ids(s) && x in v.objects && v.objects[x].container == c ==> x in list)
    && forall x, y :: y in Ids(s) && ChildOf(v, x, y) ==> x in Ids(s)
  }

  lemma {:induction false} ForestListing(st: ZoneState, r: map<Id, nat>, list: seq<Id>, c: Container, depth: nat)
    requires ObjectsListed(st) && Ranked(ViewOf(st), r) && NoDup(list) && HeldBelow(ViewOf(st), r, list, c, depth)
    ensures ForestOf(ViewOf(st), c, list, Forest(st, list, c, depth))
    decreases depth, |list|
  {
    hide ViewOf, ParentsFirst, Height, ForestOf, Ranked, Ids, ObjectsListed, Listing;
    var v := ViewOf(st);
    if list == [] {
      NothingListed(v, c);
    } else {
      var rest, o := list[..|list| - 1], list[|list| - 1];
      ForestListing(st, r, rest, c, depth);
      ResolvesInView(st, InObject(o));
      TuplesListing(st, r, InObject(o), depth);
      assert o !in rest;
      OneTree(v, r, c, rest, Forest(st, rest, c, depth), o, Tuples(st, InObject(o), depth));
      assert rest + [o] == list;
    }
  }

  lemma NothingListed(v: View, c: Container)
    ensures ForestOf(v, c, [], [])
  {
  }

  /** One more object of c, and all that is under it. */
  lemma OneTree(v: View, r: map<Id, nat>, c: Container, list: seq<Id>, before: seq<Tuple>, o: Id, below: seq<Tuple>)
    requires Ranked(v, r) && ForestOf(v, c, list, before) && Listing(v, InObject(o), below)
    requires o in v.objects && v.objects[o].container == c && o !in list
    ensures ForestOf(v, c, list + [o], before + [Tuple(o, c)] + below)
  {
    var one := before + [Tuple(o, c)];
    assert o !in Ids(before);
    assert Ids([Tuple(o, c)]) == {o};
    IdsConcat(before, [Tuple(o, c)]);
    IdsConcat(one, below);
    hide ParentsFirst, Ids, Ranked, Complete;
    Disjoint(v, r, c, before, o, below);
    ListedDeeper(v, r, InObject(o), below);
    TreeParentsFirst(v, c, before, o, below);
    TreeAbove(v, r, c, o, below);
    TreeClosed(v, Ids(before), o, below);
  }

  lemma TreeClosed(v: View, before: set<Id>, o: Id, below: seq<Tuple>)
    requires forall x, y :: y in before && ChildOf(v, x, y) ==> x in before
    requires Complete(v, InObject(o), below)
    ensures forall x, y :: y in before + {o} + Ids(below) && ChildOf(v, x, y) ==> x in before + {o} + Ids(below)
  {
    hide Ids;
    forall x, y | y in before + {o} + Ids(below) && ChildOf(v, x, y)
      ensures x in before + {o} + Ids(below)
    {
      if y !in before {
        assert Under(InObject(o), Ids(below), v.objects[x].container);
      }
    }
  }

  lemma TreeParentsFirst(v: View, c: Container, before: seq<Tuple>, o: Id, below: seq<Tuple>)
    requires ParentsFirst(v, c, before) && ParentsFirst(v, InObject(o), below)
    requires o in v.objects && v.objects[o].container == c && o !in Ids(before) && o !in Ids(below)
    requires Ids(before) !! Ids(below)
    ensures ParentsFirst(v, c, before + [Tuple(o, c)] + below)
  {
    var one := before + [Tuple(o, c)];
    assert one[..|one| - 1] == before;
    assert ParentsFirst(v, c, one);
    IdsConcat(before, [Tuple(o, c)]);
    assert Ids([Tuple(o, c)]) == {o};
    ParentsFirstConcat(v, c, one, o, below);
  }

  /** Nothing under o is directly in what o is in. */
  lemma TreeAbove(v: View, r: map<Id, nat>, c: Container, o: Id, below: seq<Tuple>)
    requires Ranked(v, r) && ParentsFirst(v, InObject(o), below) && o in v.objects && v.objects[o].container == c
    ensures forall x :: x in Ids(below) && x in v.objects ==> v.objects[x].container != c
  {
    ParentsFirstMembers(v, InObject(o), below);
    ListedDeeper(v, r, InObject(o), below);
    hide ParentsFirst, Ids;
    assert c.InObject? ==> ChildOf(v, o, c.id);
  }

  /** In a consistent zone the recursion lists just what is inside c, at any depth, parents first. */
  lemma TuplesComplete(st: ZoneState, c: Container)
    requires ObjectsListed(st) && Acyclic(ViewOf(st)) && Resolves(st, c)
    ensures Listing(ViewOf(st), c, ObjectContainerTuples(st, c))
  {
    hide *;
    var r := RankAll(ViewOf(st));
    SameNumber(st);
    HeightWithin(ViewOf(st), r, c);
    TuplesListing(st, r, c, |st.objects| + 1);
    DeepEnough(st, c);
  }

  lemma HeightWithin(v: View, r: map<Id, nat>, c: Container)
    requires Ranked(v, r)
    ensures Height(v, r, c) <= |v.objects| + 1
  {
  }

  lemma DeepEnough(st: ZoneState, c: Container)
    ensures ObjectContainerTuples(st, c) == Tuples(st, c, |st.objects| + 1)
  {
  }

  lemma RankAll(v: View) returns (r: map<Id, nat>)
    requires Acyclic(v)
    ensures Ranked(v, r)
  {
    hide Acyclic;
    r := RankObjects(v, v.objects.Keys);
    assert |v.objects| == |v.objects.Keys|;
  }

  lemma SameNumber(st: ZoneState)
    ensures |ViewOf(st).objects| == |st.objects|
  {
    assert ViewOf(st).objects.Keys == st.objects.Keys;
    assert |ViewOf(st).objects| == |ViewOf(st).objects.Keys|;
    assert |st.objects| == |st.objects.Keys|;
  }

  /** t holds all that is in c, and with each object all that is in it. */
  ghost predicate Holds(v: View, c: Container, t: set<Id>)
  {
    forall x :: x in v.objects && Under(c, t, v.objects[x].container) ==> x in t
  }

  /** A listing is exactly what is inside c at any depth: the least set that holds it all. */
  lemma {:induction false} ListingLeast(v: View, c: Container, s: seq<Tuple>, t: set<Id>)
    requires ParentsFirst(v, c, s) && Holds(v, c, t)
    ensures Ids(s) <= t
    ensures Complete(v, c, s) ==> Holds(v, c, Ids(s))
  {
    if s != [] {
      var init, last := s[..|s| - 1], s[|s| - 1];
      ListingLeast(v, c, init, t);
      assert s == init + [last];
      IdsConcat(init, [last]);
      assert Ids([last]) == {last.obj};
    }
  }

  lemma {:induction false} ListingOfObjects(v: View, w: View, c: Container, s: seq<Tuple>)
    requires v.objects == w.objects
    ensures ParentsFirst(v, c, s) <==> ParentsFirst(w, c, s)
    ensures Complete(v, c, s) <==> Complete(w, c, s)
  {
    if s != [] {
      ListingOfObjects(v, w, c, s[..|s| - 1]);
    }
  }
}
