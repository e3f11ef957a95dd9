/**
 * What the commands of several events come to, told from the zone's own entities: a death, a blow,
 * and an actor sent out or taken in. Nothing here names the events the commands become.
 */
module TreeOutcomes {
  import opened Wrappers
  import opened Bytes
  import opened ZoneViews
  import opened EventSourcing
  import opened PayloadRuns
  import opened ZoneStates
  import opened ZoneCommands
  import opened ObjectTrees
  import opened ActorDeaths
  import opened Corpses
  import opened Migrations
  import opened Arrivals
  import opened Commands
  import opened CommandOutcomes

  // ---------- all that an actor has ----------

  /** What the lemmas below call all that an actor has: what is in it, and what is in something it has. */
  lemma AllItHas(st: ZoneState, a: Id)
    requires SettledState(st) && a in st.actors
    ensures var ids := Ids(TuplesOf(st, a));
      forall o :: o in ids <==>
        o in st.objects && (st.objects[o].container == InActor(a)
          || (st.objects[o].container.InObject? && st.objects[o].container.id in ids))
  {
    hide SettledState, ParentsFirst, Ids, TuplesOf, ViewOf;
    TuplesListed(st, a);
    var v, s := ViewOf(st), TuplesOf(st, a);
    ParentsFirstMembers(v, InActor(a), s);
    ViewKeys(st);
    forall o
      ensures o in Ids(s) <==>
        o in st.objects && (st.objects[o].container == InActor(a)
          || (st.objects[o].container.InObject? && st.objects[o].container.id in Ids(s)))
    {
      if o in st.objects {
        ViewContainer(st, o);
        assert o in v.objects;
      }
    }
  }

  /** Listed once each, and after what it is in. */
  lemma ListedInOrder(st: ZoneState, a: Id)
    requires SettledState(st) && a in st.actors
    ensures var s, list := TuplesOf(st, a), Objs(TuplesOf(st, a));
      && (forall o :: o in list <==> o in Ids(s))
      && (forall i, j :: 0 <= i < j < |list| ==> list[i] != list[j])
      && forall i :: 0 <= i < |list| ==>
           && list[i] in st.objects
           && (st.objects[list[i]].container == InActor(a)
               || exists j :: 0 <= j < i && st.objects[list[i]].container == InObject(list[j]))
  {
    hide SettledState, TuplesOf, ViewOf;
    TuplesListed(st, a);
    var v, s := ViewOf(st), TuplesOf(st, a);
    var list := Objs(s);
    ParentsFirstOnce(v, InActor(a), s);
    forall i | 0 <= i < |list|
      ensures list[i] == s[i].obj && list[i] in Ids(s)
    {
      ObjsAt(s, i);
    }
    forall o | o in Ids(s)
      ensures o in list
    {
      var i :| 0 <= i < |s| && s[i].obj == o;
      assert list[i] == o;
    }
    ViewKeys(st);
    forall i | 0 <= i < |list|
      ensures list[i] in st.objects
      ensures st.objects[list[i]].container == InActor(a)
        || exists j :: 0 <= j < i && st.objects[list[i]].container == InObject(list[j])
    {
      AfterItsContainer(v, InActor(a), s, i);
      ViewContainer(st, list[i]);
      if st.objects[list[i]].container != InActor(a) {
        var j :| 0 <= j < i && s[j].obj == st.objects[list[i]].container.id;
        assert list[j] == s[j].obj;
      }
    }
  }

  lemma {:induction false} AfterItsContainer(v: View, c: Container, s: seq<Tuple>, i: nat)
    requires ParentsFirst(v, c, s) && i < |s|
    ensures s[i].obj in v.objects && v.objects[s[i].obj].container == s[i].cont
    ensures s[i].cont == c || (s[i].cont.InObject? && exists j :: 0 <= j < i && s[j].obj == s[i].cont.id)
  {
    var init := s[..|s| - 1];
    if i < |s| - 1 {
      AfterItsContainer(v, c, init, i);
      if s[i].cont != c {
        var j :| 0 <= j < i && init[j].obj == s[i].cont.id;
        assert s[j].obj == s[i].cont.id;
      }
    } else if s[i].cont != c {
      assert s[i].cont.id in Ids(init);
      var j :| 0 <= j < |init| && init[j].obj == s[i].cont.id;
      assert s[j].obj == s[i].cont.id;
    }
  }

  lemma {:induction false} ForestHas(st: ZoneState, list: seq<Id>, c: Container, depth: nat, i: nat)
    returns (x: nat)
    requires i < |list|
    ensures x < |Forest(st, list, c, depth)| && Forest(st, list, c, depth)[x].obj == list[i]
    decreases |list|
  {
    hide Tuples;
    if i < |list| - 1 {
      x := ForestHas(st, list[..|list| - 1], c, depth, i);
    } else {
      x := |Forest(st, list[..|list| - 1], c, depth)|;
    }
  }

  lemma {:induction false} ForestInOrder(st: ZoneState, list: seq<Id>, c: Container, depth: nat, i: nat, j: nat)
    returns (x: nat, y: nat)
    requires i < j < |list|
    ensures x < y < |Forest(st, list, c, depth)|
    ensures Forest(st, list, c, depth)[x].obj == list[i] && Forest(st, list, c, depth)[y].obj == list[j]
    decreases |list|
  {
    hide Tuples;
    var init := list[..|list| - 1];
    if j < |list| - 1 {
      x, y := ForestInOrder(st, init, c, depth, i, j);
    } else {
      x := ForestHas(st, init, c, depth, i);
      y := |Forest(st, init, c, depth)|;
    }
  }

  /** The things an actor has on it come in the order of its four lists: back, belt, body, hands. */
  lemma ListsInOrder(st: ZoneState, a: Id, i: nat, j: nat, x: nat, y: nat)
    requires SettledState(st) && a in st.actors
    requires var inv := st.actors[a].inventory;
      var own, list := inv.back + inv.belt + inv.body + inv.hands, Objs(TuplesOf(st, a));
      i < j < |own| && x < |list| && y < |list| && list[x] == own[i] && list[y] == own[j]
    ensures x < y
  {
    hide SettledState, ParentsFirst, Complete, Forest, Objs, ViewOf;
    var s := TuplesOf(st, a);
    var own := Contents(st, InActor(a));
    assert s == Forest(st, own, InActor(a), |st.objects|);
    var x', y' := ForestInOrder(st, own, InActor(a), |st.objects|, i, j);
    TuplesListed(st, a);
    ParentsFirstOnce(ViewOf(st), InActor(a), s);
    ObjsAt(s, x);
    ObjsAt(s, y);
    assert x == x' && y == y';
  }

  // ---------- what is logged ----------

  /** Without a dodge among them, all events are logged. */
  lemma {:induction false} AllPersisted(es: seq<Event>)
    requires forall e :: e in es ==> !e.payload.CombatDodge?
    ensures Persisted(es) == es
  {
    if es != [] {
      assert es[0] in es;
      AllPersisted(es[1..]);
    }
  }

  lemma {:induction false} NumberAt(n: nat, ps: seq<Payload>, i: nat)
    requires i < |ps|
    ensures Number(n, ps)[i] == Event(n + i, ps[i])
  {
    if i < |ps| - 1 {
      NumberAt(n, ps[..|ps| - 1], i);
    }
  }

  /** What a command logs that goes through and has no dodge among its events. */
  lemma LoggedInTurn(st: ZoneState, c: Command)
    requires !c.Demolish? && Passes(st, c) && Processed(st, c).1
    requires forall p :: p in EventsFor(st, c) ==> !p.CombatDodge?
    ensures var log := PersistedBy(st, c);
      |log| == |EventsFor(st, c)|
      && forall i :: 0 <= i < |log| ==> log[i] == Event(st.nextSequenceId + i, EventsFor(st, c)[i])
  {
    hide *;
    var ps, n := EventsFor(st, c), st.nextSequenceId;
    ProcessedAsSubmitted(st, c);
    NumberedInTurn(n, ps);
    AllPersisted(Number(n, ps));
  }

  lemma NumberedInTurn(n: nat, ps: seq<Payload>)
    ensures forall i :: 0 <= i < |ps| ==> Number(n, ps)[i] == Event(n + i, ps[i])
    ensures (forall p :: p in ps ==> !p.CombatDodge?) ==> forall e :: e in Number(n, ps) ==> !e.payload.CombatDodge?
  {
    hide Number;
    var es := Number(n, ps);
    forall i | 0 <= i < |ps|
      ensures es[i] == Event(n + i, ps[i]) && ps[i] in ps
    {
      NumberAt(n, ps, i);
    }
  }

  // ---------- a death ----------

  lemma {:induction false} RelocationsAt(s: seq<Tuple>, corpse: Id, i: nat)
    requires i < |s|
    ensures Relocations(s, corpse)[i] == ObjectAdminRelocate(s[i].obj, InObject(corpse), "")
    ensures Objs(s)[i] == s[i].obj
  {
    if i < |s| - 1 {
      RelocationsAt(s[..|s| - 1], corpse, i);
    }
  }

  /** The corpse of an actor, where the actor stood. */
  lemma CorpseWritten(v: View, a: Id, corpse: Id, ids: set<Id>)
    requires a in v.actors && corpse !in v.objects
    ensures var w := AfterDeath(v, a, corpse, ids);
      && w.locations == v.locations && w.exits == v.exits && w.defaultLocation == v.defaultLocation
      && w.actors == v.actors - {a} && w.objects.Keys == v.objects.Keys + {corpse}
      && (corpse !in ids ==> w.objects[corpse] == ObjectView(
            ObjectInfo(v.actors[a].info.name + "'s corpse", "The empty husk of what was once a living thing.",
                       ["corpse"], 100, [0.0, 0.0, 0.0, 0.0, 0.0, 0.0]),
            InLocation(v.actors[a].location), None))
      && forall o :: o in v.objects ==>
           w.objects[o] == if o in ids then ObjectView(v.objects[o].info, InObject(corpse), None) else v.objects[o]
  {
  }

  /**
   * An actor dies: it is gone; a corpse with its name lies where it stood, and all that it had, at
   * any depth, lies in the corpse, each thing once and after what it was in. Nothing else changed.
   */
  lemma Dying(st: ZoneState, a: Id, corpse: Id)
    requires SettledState(st) && a in st.actors && corpse !in st.objects
    ensures var (t, ok) := Processed(st, Die(a, corpse));
      var v, w, ids := ViewOf(st), ViewOf(t), Ids(TuplesOf(st, a));
      && ok && SettledState(t)
      && w.locations == v.locations && w.exits == v.exits && w.defaultLocation == v.defaultLocation
      && w.actors == v.actors - {a} && w.objects.Keys == v.objects.Keys + {corpse}
      && w.objects[corpse] == ObjectView(
           ObjectInfo(st.actors[a].info.name + "'s corpse", "The empty husk of what was once a living thing.",
                      ["corpse"], 100, [0.0, 0.0, 0.0, 0.0, 0.0, 0.0]),
           InLocation(st.actors[a].location), None)
      && forall o :: o in v.objects ==>
           w.objects[o] == if o in ids then ObjectView(v.objects[o].info, InObject(corpse), None) else v.objects[o]
  {
    hide *;
    DeathOutcome(st, a, corpse);
    AllItHas(st, a);
    ViewInfo(st, a);
    ViewLocation(st, a);
    ViewKeys(st);
    CorpseWritten(ViewOf(st), a, corpse, Ids(TuplesOf(st, a)));
  }

  /** What the corpse lists: all that the actor had, each thing once and after what it was in. */
  lemma CorpseHolds(st: ZoneState, a: Id, corpse: Id)
    requires SettledState(st) && a in st.actors && corpse !in st.objects
    ensures var (t, ok) := Processed(st, Die(a, corpse));
      && corpse in t.objects
      && var list := t.objects[corpse].contents;
         && (forall o :: o in list <==> o in Ids(TuplesOf(st, a)))
         && (forall i, j :: 0 <= i < j < |list| ==> list[i] != list[j])
         && forall i :: 0 <= i < |list| ==>
              && list[i] in st.objects
              && (st.objects[list[i]].container == InActor(a)
                  || exists j :: 0 <= j < i && st.objects[list[i]].container == InObject(list[j]))
  {
    hide *;
    DeathOutcome(st, a, corpse);
    ListedInOrder(st, a);
  }

  lemma DeathEvents(v: View, a: Id, corpse: Id, s: seq<Tuple>)
    requires a in v.actors
    ensures var ps := DeathPayloads(v, a, corpse, s);
      && |ps| == |s| + 3 && ps[0] == ActorDeath(a) && ps[|s| + 2] == ActorRemoveFromZone(a)
      && ps[1] == ObjectAddToZone(corpse,
           ObjectInfo(v.actors[a].info.name + "'s corpse", "The empty husk of what was once a living thing.",
                      ["corpse"], 100, [0.0, 0.0, 0.0, 0.0, 0.0, 0.0]),
           InLocation(v.actors[a].location), "any")
      && forall i :: 0 <= i < |s| ==> ps[2 + i] == ObjectAdminRelocate(Objs(s)[i], InObject(corpse), "")
  {
    hide Relocations, Objs;
    var ps := DeathPayloads(v, a, corpse, s);
    forall i | 0 <= i < |s|
      ensures ps[2 + i] == ObjectAdminRelocate(Objs(s)[i], InObject(corpse), "")
    {
      RelocationsAt(s, corpse, i);
    }
  }

  lemma DeathLacksDodges(v: View, a: Id, corpse: Id, s: seq<Tuple>)
    requires a in v.actors
    ensures forall p :: p in DeathPayloads(v, a, corpse, s) ==> !p.CombatDodge?
  {
    DeathEvents(v, a, corpse, s);
    hide DeathPayloads;
    var ps := DeathPayloads(v, a, corpse, s);
    forall i | 0 <= i < |ps|
      ensures !ps[i].CombatDodge?
    {
      assert 2 <= i < |s| + 2 ==> ps[2 + (i - 2)] == ObjectAdminRelocate(Objs(s)[i - 2], InObject(corpse), "");
    }
  }

  /** What is logged of a death: the death, the corpse, each thing put into it in turn, and the actor gone. */
  lemma DeathLogged(st: ZoneState, a: Id, corpse: Id)
    requires SettledState(st) && a in st.actors && corpse !in st.objects
    ensures var list, n := Objs(TuplesOf(st, a)), st.nextSequenceId;
      var log := PersistedBy(st, Die(a, corpse));
      && |log| == |list| + 3 && log[0] == Event(n, ActorDeath(a))
      && log[1] == Event(n + 1, ObjectAddToZone(corpse,
           ObjectInfo(st.actors[a].info.name + "'s corpse", "The empty husk of what was once a living thing.",
                      ["corpse"], 100, [0.0, 0.0, 0.0, 0.0, 0.0, 0.0]),
           InLocation(st.actors[a].location), "any"))
      && (forall i :: 0 <= i < |list| ==>
            log[2 + i] == Event(n + 2 + i, ObjectAdminRelocate(list[i], InObject(corpse), "")))
      && log[|list| + 2] == Event(n + |list| + 2, ActorRemoveFromZone(a))
  {
    hide *;
    DeathOutcome(st, a, corpse);
    DiesBy(st, a, corpse);
    DeathEvents(ViewOf(st), a, corpse, TuplesOf(st, a));
    DeathLacksDodges(ViewOf(st), a, corpse, TuplesOf(st, a));
    LoggedInTurn(st, Die(a, corpse));
    ViewInfo(st, a);
    ViewLocation(st, a);
  }

  lemma DiesBy(st: ZoneState, a: Id, corpse: Id)
    requires a in st.actors && corpse !in st.objects
    ensures a in ViewOf(st).actors && Passes(st, Die(a, corpse)) && !Die(a, corpse).Demolish?
    ensures EventsFor(st, Die(a, corpse)) == DeathPayloads(ViewOf(st), a, corpse, TuplesOf(st, a))
  {
    ViewInfo(st, a);
    hide ViewOf, DeathPayloads, TuplesOf;
  }

  // ---------- a blow ----------

  lemma StrikePasses(st: ZoneState, c: Command)
    requires c.Strike?
    ensures Passes(st, c) <==> Face(st, c.attacker, c.target) && c.corpse !in st.objects
    ensures Face(st, c.attacker, c.target) <==>
      c.attacker in st.actors && c.target in st.actors && st.actors[c.attacker].location == st.actors[c.target].location
    ensures !Passes(st, c) ==> Processed(st, c) == (st, false) && PersistedBy(st, c) == []
  {
  }

  lemma StrikesBy(st: ZoneState, c: Command)
    requires c.Strike? && Passes(st, c)
    ensures c.target in ViewOf(st).actors && c.target in st.actors
    ensures
      var t := st.actors[c.target].info.attributes;
      var blow := CombatMeleeDamage(c.target, c.physical, c.stamina, c.focus);
      EventsFor(st, c) ==
        if c.dodged then [CombatDodge(c.target)]
        else if t.physical - c.physical > 0 && t.stamina - c.stamina > 0 && t.focus - c.focus > 0 then [blow]
        else [blow] + DeathPayloads(ViewOf(st), c.target, c.corpse, TuplesOf(st, c.target))
  {
    ViewInfo(st, c.target);
    hide ViewOf, DeathPayloads, TuplesOf;
    assert [CombatMeleeDamage(c.target, c.physical, c.stamina, c.focus)] + [] ==
      [CombatMeleeDamage(c.target, c.physical, c.stamina, c.focus)];
  }

  /** A blow lands on one who stands in the same place; dodged, it leaves nothing but its number behind. */
  lemma Dodging(st: ZoneState, attacker: Id, target: Id, physical: int, stamina: int, focus: int, corpse: Id)
    requires SettledState(st) && corpse !in st.objects
    ensures var c := Strike(attacker, target, true, physical, stamina, focus, corpse);
      var (t, ok) := Processed(st, c);
      && (ok <==> attacker in st.actors && target in st.actors
                  && st.actors[attacker].location == st.actors[target].location)
      && t == (if ok then st.(nextSequenceId := st.nextSequenceId + 1) else st) && PersistedBy(st, c) == []
  {
    hide *;
    var c := Strike(attacker, target, true, physical, stamina, focus, corpse);
    StrikePasses(st, c);
    if Passes(st, c) {
      StrikesBy(st, c);
      ProcessedAsSubmitted(st, c);
      SubmittedOne(st, CombatDodge(target));
      OneSubmitted(st, CombatDodge(target));
      DodgeApplied(st, target);
      NumberOne(st.nextSequenceId, CombatDodge(target));
      DodgeUnlogged(Event(st.nextSequenceId, CombatDodge(target)));
    }
  }

  lemma DodgeApplied(st: ZoneState, target: Id)
    ensures Applied(st, CombatDodge(target)) == (st, Done)
  {
  }

  lemma DodgeUnlogged(e: Event)
    requires e.payload.CombatDodge?
    ensures Persisted([e]) == []
  {
  }

  /**
   * A blow that leaves the target something of each takes from its physical, stamina and focus just
   * the damage to each, and nothing else from anything.
   */
  lemma Wounding(st: ZoneState, attacker: Id, target: Id, physical: int, stamina: int, focus: int, corpse: Id)
    requires SettledState(st) && corpse !in st.objects && attacker in st.actors && target in st.actors
    requires st.actors[attacker].location == st.actors[target].location
    requires var was := st.actors[target].info.attributes;
      was.physical > physical && was.stamina > stamina && was.focus > focus
    ensures var c := Strike(attacker, target, false, physical, stamina, focus, corpse);
      var (t, ok) := Processed(st, c);
      var v, w, was := ViewOf(st), ViewOf(t), st.actors[target].info.attributes;
      && ok && SettledState(t)
      && w == v.(actors := v.actors[target := ActorView(
                   st.actors[target].info.(attributes := Attributes(
                     was.physical - physical, was.stamina - stamina, was.focus - focus, was.zeal, was.others)),
                   st.actors[target].location)],
                 nextSequenceId := st.nextSequenceId + 1)
      && PersistedBy(st, c) == [Event(st.nextSequenceId, CombatMeleeDamage(target, physical, stamina, focus))]
  {
    hide *;
    var c := Strike(attacker, target, false, physical, stamina, focus, corpse);
    StrikePasses(st, c);
    StrikesBy(st, c);
    SingleSubmitted(st, c, CombatMeleeDamage(target, physical, stamina, focus));
    StrikeOutcome(st, attacker, target, false, physical, stamina, focus, corpse);
    NotLethal(st.actors[target].info.attributes, physical, stamina, focus);
    ViewInfo(st, target);
    ViewLocation(st, target);
    HurtWritten(ViewOf(st), target, physical, stamina, focus);
  }

  /** In the zone's own terms, lists and all: it needs no more than that attacker and target stand together. */
  lemma WoundedState(st: ZoneState, attacker: Id, target: Id, physical: int, stamina: int, focus: int, corpse: Id)
    requires corpse !in st.objects && attacker in st.actors && target in st.actors
    requires st.actors[attacker].location == st.actors[target].location
    requires var was := st.actors[target].info.attributes;
      was.physical > physical && was.stamina > stamina && was.focus > focus
    ensures var c := Strike(attacker, target, false, physical, stamina, focus, corpse);
      var actor, was := st.actors[target], st.actors[target].info.attributes;
      Processed(st, c) ==
        (st.(actors := st.actors[target := actor.(info := actor.info.(attributes := Attributes(
               was.physical - physical, was.stamina - stamina, was.focus - focus, was.zeal, was.others)))],
             nextSequenceId := st.nextSequenceId + 1), true)
  {
    hide *;
    var c := Strike(attacker, target, false, physical, stamina, focus, corpse);
    StrikePasses(st, c);
    StrikesBy(st, c);
    SingleSubmitted(st, c, CombatMeleeDamage(target, physical, stamina, focus));
    BlowApplied(st, target, physical, stamina, focus);
  }

  lemma BlowApplied(st: ZoneState, target: Id, physical: int, stamina: int, focus: int)
    requires target in st.actors
    ensures var actor, was := st.actors[target], st.actors[target].info.attributes;
      Applied(st, CombatMeleeDamage(target, physical, stamina, focus)) ==
        (st.(actors := st.actors[target := actor.(info := actor.info.(attributes := Attributes(
           was.physical - physical, was.stamina - stamina, was.focus - focus, was.zeal, was.others)))]), Done)
  {
  }

  lemma NotLethal(was: Attributes, physical: int, stamina: int, focus: int)
    ensures Lethal(was, physical, stamina, focus) <==>
      !(was.physical > physical && was.stamina > stamina && was.focus > focus)
  {
  }

  lemma HurtWritten(v: View, target: Id, physical: int, stamina: int, focus: int)
    requires target in v.actors
    ensures var was := v.actors[target].info.attributes;
      Hurt(v, target, physical, stamina, focus) ==
        v.(actors := v.actors[target := ActorView(
             v.actors[target].info.(attributes := Attributes(
               was.physical - physical, was.stamina - stamina, was.focus - focus, was.zeal, was.others)),
             v.actors[target].location)])
  {
  }

  /** Any other blow that is not dodged kills: what is left is what the target's death would have left. */
  lemma Slaying(st: ZoneState, attacker: Id, target: Id, physical: int, stamina: int, focus: int, corpse: Id)
    requires SettledState(st) && corpse !in st.objects && attacker in st.actors && target in st.actors
    requires st.actors[attacker].location == st.actors[target].location
    requires var was := st.actors[target].info.attributes;
      was.physical <= physical || was.stamina <= stamina || was.focus <= focus
    ensures var c := Strike(attacker, target, false, physical, stamina, focus, corpse);
      var (t, ok) := Processed(st, c);
      var (dead, _) := Processed(st, Die(target, corpse));
      && ok && SettledState(t)
      && ViewOf(t) == ViewOf(dead).(nextSequenceId := t.nextSequenceId)
  {
    hide *;
    var c := Strike(attacker, target, false, physical, stamina, focus, corpse);
    StrikePasses(st, c);
    StrikeOutcome(st, attacker, target, false, physical, stamina, focus, corpse);
    NotLethal(st.actors[target].info.attributes, physical, stamina, focus);
    DeathOutcome(st, target, corpse);
  }

  /** The corpse lists the same then, in the same order. */
  lemma SlainHolds(st: ZoneState, attacker: Id, target: Id, physical: int, stamina: int, focus: int, corpse: Id)
    requires SettledState(st) && corpse !in st.objects && attacker in st.actors && target in st.actors
    requires st.actors[attacker].location == st.actors[target].location
    requires var was := st.actors[target].info.attributes;
      was.physical <= physical || was.stamina <= stamina || was.focus <= focus
    ensures var t := Processed(st, Strike(attacker, target, false, physical, stamina, focus, corpse)).0;
      var dead := Processed(st, Die(target, corpse)).0;
      corpse in t.objects && corpse in dead.objects && t.objects[corpse].contents == dead.objects[corpse].contents
  {
    hide *;
    StrikePasses(st, Strike(attacker, target, false, physical, stamina, focus, corpse));
    StrikeOutcome(st, attacker, target, false, physical, stamina, focus, corpse);
    NotLethal(st.actors[target].info.attributes, physical, stamina, focus);
    DeathOutcome(st, target, corpse);
  }

  /** What is logged of it: the blow, and then what is logged of the death, numbered on. */
  lemma SlayingLogged(st: ZoneState, attacker: Id, target: Id, physical: int, stamina: int, focus: int, corpse: Id)
    requires SettledState(st) && corpse !in st.objects && attacker in st.actors && target in st.actors
    requires st.actors[attacker].location == st.actors[target].location
    requires var was := st.actors[target].info.attributes;
      was.physical <= physical || was.stamina <= stamina || was.focus <= focus
    ensures var n := st.nextSequenceId;
      var log := PersistedBy(st, Strike(attacker, target, false, physical, stamina, focus, corpse));
      var death := PersistedBy(st, Die(target, corpse));
      && |log| == 1 + |death| && log[0] == Event(n, CombatMeleeDamage(target, physical, stamina, focus))
      && forall i :: 0 <= i < |death| ==> log[1 + i] == Event(n + 1 + i, death[i].payload)
  {
    hide *;
    var c := Strike(attacker, target, false, physical, stamina, focus, corpse);
    StrikePasses(st, c);
    StrikesBy(st, c);
    StrikeOutcome(st, attacker, target, false, physical, stamina, focus, corpse);
    DeathOutcome(st, target, corpse);
    DiesBy(st, target, corpse);
    DeathLacksDodges(ViewOf(st), target, corpse, TuplesOf(st, target));
    LoggedInTurn(st, c);
    LoggedInTurn(st, Die(target, corpse));
  }

  // ---------- out of a zone ----------

  lemma DepartedWritten(v: View, a: Id, ids: set<Id>)
    ensures var w := Departed(v, a, ids);
      && w.locations == v.locations && w.exits == v.exits && w.defaultLocation == v.defaultLocation
      && w.actors == v.actors - {a} && w.objects == v.objects - ids
  {
  }

  /** An actor leaves with all it has, at any depth; nothing else changes. */
  lemma SendingOut(st: ZoneState, a: Id)
    requires SettledState(st) && a in st.actors
    ensures var (t, ok) := Processed(st, SendOut(a));
      var v, w, ids := ViewOf(st), ViewOf(t), Ids(TuplesOf(st, a));
      && ok && SettledState(t)
      && w.locations == v.locations && w.exits == v.exits && w.defaultLocation == v.defaultLocation
      && w.actors == v.actors - {a} && w.objects == v.objects - ids
  {
    hide *;
    SendOutOutcome(st, a);
    DepartedWritten(ViewOf(st), a, Ids(TuplesOf(st, a)));
  }

  /** Nobody leaves that is not there. */
  lemma SendingNobody(st: ZoneState, a: Id)
    requires a !in st.actors
    ensures Processed(st, SendOut(a)) == (st.(nextSequenceId := st.nextSequenceId + 1), false)
    ensures PersistedBy(st, SendOut(a)) == []
  {
    hide *;
    NobodyToSend(st, a);
    SendsBy(st, a);
    ProcessedAsSubmitted(st, SendOut(a));
  }

  lemma SendsBy(st: ZoneState, a: Id)
    ensures Passes(st, SendOut(a)) && !SendOut(a).Demolish?
    ensures EventsFor(st, SendOut(a)) == MigrateOut(a, TuplesOf(st, a))
  {
    hide MigrateOut, TuplesOf;
  }

  lemma {:induction false} ObjectsOutAt(s: seq<Tuple>, i: nat)
    requires i < |s|
    ensures ObjectsOut(s)[i] == ObjectMigrateOut(Objs(s)[i])
  {
    if i < |s| - 1 {
      ObjectsOutAt(s[..|s| - 1], i);
    }
  }

  lemma OutEvents(a: Id, s: seq<Tuple>)
    ensures var ps := MigrateOut(a, s);
      && |ps| == |s| + 1 && ps[|s|] == ActorMigrateOut(a)
      && (forall i :: 0 <= i < |s| ==> ps[i] == ObjectMigrateOut(Objs(s)[i]))
      && forall p :: p in ps ==> !p.CombatDodge?
  {
    hide ObjectsOut, Objs;
    forall i | 0 <= i < |s|
      ensures ObjectsOut(s)[i] == ObjectMigrateOut(Objs(s)[i])
    {
      ObjectsOutAt(s, i);
    }
  }

  /** Each of its things in turn is logged to leave, and then the actor. */
  lemma SendingOutLogged(st: ZoneState, a: Id)
    requires SettledState(st) && a in st.actors
    ensures var list, n, log := Objs(TuplesOf(st, a)), st.nextSequenceId, PersistedBy(st, SendOut(a));
      && |log| == |list| + 1 && log[|list|] == Event(n + |list|, ActorMigrateOut(a))
      && forall i :: 0 <= i < |list| ==> log[i] == Event(n + i, ObjectMigrateOut(list[i]))
  {
    hide *;
    SendOutOutcome(st, a);
    SendsBy(st, a);
    OutEvents(a, TuplesOf(st, a));
    LoggedInTurn(st, SendOut(a));
  }

  // ---------- into a zone ----------

  lemma ArrivedWritten(v: View, w: View, a: Id, l: Id, ids: set<Id>)
    requires a in v.actors
    ensures var x := Arrived(v, w, a, l, ids);
      && x.locations == w.locations && x.exits == w.exits && x.defaultLocation == w.defaultLocation
      && x.actors == w.actors[a := ActorView(v.actors[a].info, l)]
      && x.objects == w.objects + (map o | o in v.objects && o in ids :: v.objects[o])
  {
  }

  lemma TakesInBy(st: ZoneState, src: ZoneState, a: Id, l: Id)
    requires SettledState(src) && a in src.actors
    ensures Passes(st, TakeIn(src, a, l)) && !TakeIn(src, a, l).Demolish?
    ensures EventsFor(st, TakeIn(src, a, l)) == Arriving(src, a, l)
  {
    hide SettledState, Arriving;
  }

  /**
   * To take in an actor there must be a location for it; and all is well exactly when neither it nor
   * any of its things is there already.
   */
  lemma TakingInExactly(st: ZoneState, src: ZoneState, a: Id, l: Id)
    requires SettledState(st) && SettledState(src) && a in src.actors
    ensures var (t, ok) := Processed(st, TakeIn(src, a, l));
      var ids := Ids(TuplesOf(src, a));
      && (ok <==> l in st.locations)
      && (ok ==> (SettledState(t) <==> a !in st.actors && forall o :: o in ids ==> o !in st.objects))
  {
    hide *;
    TakesInBy(st, src, a, l);
    ProcessedAsSubmitted(st, TakeIn(src, a, l));
    ArrivingExactly(st, src, a, l);
    WelcomeMeans(st, src, a, l);
  }

  /**
   * An actor comes in with all it has in the zone it comes from, at any depth: everything is in the
   * container and at the place it had there, and nothing else changes.
   */
  lemma TakingIn(st: ZoneState, src: ZoneState, a: Id, l: Id)
    requires SettledState(st) && SettledState(src) && a in src.actors && l in st.locations
    requires a !in st.actors && forall o :: o in Ids(TuplesOf(src, a)) ==> o !in st.objects
    ensures var x := ViewOf(Processed(st, TakeIn(src, a, l)).0);
      var v, w, ids := ViewOf(src), ViewOf(st), Ids(TuplesOf(src, a));
      && x.locations == w.locations && x.exits == w.exits && x.defaultLocation == w.defaultLocation
      && x.actors == w.actors[a := ActorView(src.actors[a].info, l)]
      && x.objects == w.objects + (map o | o in v.objects && o in ids :: v.objects[o])
      && ids <= v.objects.Keys
  {
    hide *;
    TuplesListed(src, a);
    TakesInBy(st, src, a, l);
    ProcessedAsSubmitted(st, TakeIn(src, a, l));
    ArrivingExactly(st, src, a, l);
    ViewInfo(src, a);
    ViewKeys(st);
    HadThere(src, a);
    WelcomeMeans(st, src, a, l);
    ArrivedWritten(ViewOf(src), ViewOf(st), a, l, Ids(TuplesOf(src, a)));
  }

  lemma HadThere(st: ZoneState, a: Id)
    requires SettledState(st) && a in st.actors
    ensures Ids(TuplesOf(st, a)) <= ViewOf(st).objects.Keys
  {
    hide *;
    AllItHas(st, a);
    ViewKeys(st);
  }

  lemma WelcomeMeans(st: ZoneState, src: ZoneState, a: Id, l: Id)
    ensures Welcome(st, src, a, l) <==>
      l in st.locations && a !in st.actors && forall o :: o in Ids(TuplesOf(src, a)) ==> o !in st.objects
  {
    hide Ids, TuplesOf;
  }

  lemma {:induction false} ObjectsInAt(v: View, c: Container, s: seq<Tuple>, i: nat)
    requires ParentsFirst(v, c, s) && i < |s| && forall t :: t in s ==> t.obj in v.objects
    ensures Objs(s)[i] in v.objects
    ensures var x := v.objects[Objs(s)[i]];
      ObjectsIn(v, s)[i] == ObjectMigrateIn(Objs(s)[i], x.info, x.container,
        if x.place == Some(Back) then "back" else if x.place == Some(Belt) then "belt"
        else if x.place == Some(Body) then "body" else if x.place == Some(Hands) then "hands" else "any")
  {
    var init := s[..|s| - 1];
    if i < |s| - 1 {
      ObjectsInAt(v, c, init, i);
    } else {
      assert Objs(s)[i] == s[i].obj && v.objects[s[i].obj].container == s[i].cont;
    }
  }

  lemma InEvents(v: View, a: Id, l: Id, s: seq<Tuple>, i: nat)
    requires a in v.actors && ParentsFirst(v, InActor(a), s) && forall t :: t in s ==> t.obj in v.objects
    requires i < |s|
    ensures Objs(s)[i] in v.objects
    ensures var ps, x := MigrateIn(v, a, l, s), v.objects[Objs(s)[i]];
      && |ps| == |s| + 1 && ps[0] == ActorMigrateIn(a, v.actors[a].info, l)
      && ps[1 + i] == ObjectMigrateIn(Objs(s)[i], x.info, x.container,
           if x.place == Some(Back) then "back" else if x.place == Some(Belt) then "belt"
           else if x.place == Some(Body) then "body" else if x.place == Some(Hands) then "hands" else "any")
  {
    hide ObjectsIn, Objs, ParentsFirst;
    ObjectsInAt(v, InActor(a), s, i);
  }

  lemma InLacksDodges(v: View, a: Id, l: Id, s: seq<Tuple>)
    requires a in v.actors && ParentsFirst(v, InActor(a), s) && forall t :: t in s ==> t.obj in v.objects
    ensures forall p :: p in MigrateIn(v, a, l, s) ==> !p.CombatDodge?
  {
    hide ObjectsIn, Objs, ParentsFirst;
    var ps := MigrateIn(v, a, l, s);
    forall i | 0 <= i < |ps|
      ensures !ps[i].CombatDodge?
    {
      if i > 0 {
        InEvents(v, a, l, s, i - 1);
      }
    }
  }

  /** The actor is logged to come in, and then each of its things in turn, by container and name of its place. */
  lemma TakingInLogged(st: ZoneState, src: ZoneState, a: Id, l: Id, i: nat)
    requires SettledState(st) && SettledState(src) && a in src.actors && l in st.locations
    requires i < |Objs(TuplesOf(src, a))|
    ensures var list, n := Objs(TuplesOf(src, a)), st.nextSequenceId;
      var log := PersistedBy(st, TakeIn(src, a, l));
      && |log| == |list| + 1 && log[0] == Event(n, ActorMigrateIn(a, src.actors[a].info, l))
      && list[i] in ViewOf(src).objects
      && var x := ViewOf(src).objects[list[i]];
         log[1 + i] == Event(n + 1 + i, ObjectMigrateIn(list[i], x.info, x.container,
           if x.place == Some(Back) then "back" else if x.place == Some(Belt) then "belt"
           else if x.place == Some(Body) then "body" else if x.place == Some(Hands) then "hands" else "any"))
  {
    hide *;
    TuplesListed(src, a);
    TakesInBy(st, src, a, l);
    ArrivingIs(src, a, l);
    ListingOrder(ViewOf(src), InActor(a), TuplesOf(src, a));
    InEvents(ViewOf(src), a, l, TuplesOf(src, a), i);
    InLacksDodges(ViewOf(src), a, l, TuplesOf(src, a));
    ProcessedAsSubmitted(st, TakeIn(src, a, l));
    ArrivingExactly(st, src, a, l);
    LoggedInTurn(st, TakeIn(src, a, l));
    ViewInfo(src, a);
  }

  lemma ListingOrder(v: View, c: Container, s: seq<Tuple>)
    requires Listing(v, c, s)
    ensures ParentsFirst(v, c, s)
  {
  }
}
