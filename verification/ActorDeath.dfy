/** The death of an actor: all it carried, at any depth, ends up directly in its corpse. */
module ActorDeaths {
  import opened Wrappers
  import opened Bytes
  import opened ZoneViews
  import opened ZoneInvariant
  import opened PayloadRuns
  import opened ObjectTrees

  function CorpseInfo(name: string): ObjectInfo
  {
    ObjectInfo(name + "'s corpse", "The empty husk of what was once a living thing.", ["corpse"], 100,
               [0.0, 0.0, 0.0, 0.0, 0.0, 0.0])
  }

  function Relocations(s: seq<Tuple>, corpse: Id): (ps: seq<Payload>)
    ensures |ps| == |s|
  {
    if s == [] then []
    else Relocations(s[..|s| - 1], corpse) + [ObjectAdminRelocate(s[|s| - 1].obj, InObject(corpse), "")]
  }

  /** The death itself, and the corpse where the actor stood. */
  function DeathAndCorpse(v: View, a: Id, corpse: Id): seq<Payload>
    requires a in v.actors
  {
    [ActorDeath(a), ObjectAddToZone(corpse, CorpseInfo(v.actors[a].info.name), InLocation(v.actors[a].location), ANY)]
  }

  /** doActorDeath */
  function DeathPayloads(v: View, a: Id, corpse: Id, s: seq<Tuple>): seq<Payload>
    requires a in v.actors
  {
    DeathAndCorpse(v, a, corpse) + Relocations(s, corpse) + [ActorRemoveFromZone(a)]
  }

  function InCorpse(x: ObjectView, corpse: Id): ObjectView
  {
    ObjectView(x.info, InObject(corpse), None)
  }

  /** The objects of ids are directly in the corpse; nothing else changed. */
  function Relocated(v: View, corpse: Id, ids: set<Id>): View
  {
    v.(objects := map o | o in v.objects :: if o in ids then InCorpse(v.objects[o], corpse) else v.objects[o])
  }

  function Dead(v: View, a: Id): View
    requires a in v.actors
  {
    var t := v.actors[a].info.attributes.(physical := 0, stamina := 0, focus := 0, zeal := 0);
    v.(actors := v.actors[a := ActorView(v.actors[a].info.(attributes := t), v.actors[a].location)])
  }

  function WithCorpse(v: View, a: Id, corpse: Id): View
    requires a in v.actors
  {
    v.(objects := v.objects[corpse :=
      ObjectView(CorpseInfo(v.actors[a].info.name), InLocation(v.actors[a].location), None)])
  }

  /** What is left: the actor gone, a corpse where it was, and in it all that the actor had. */
  function AfterDeath(v: View, a: Id, corpse: Id, ids: set<Id>): View
    requires a in v.actors
  {
    Relocated(WithCorpse(v, a, corpse), corpse, ids).(actors := v.actors - {a})
  }

  lemma CorpseOutside(v: View, o: Id, corpse: Id)
    requires corpse in v.objects && v.objects[corpse].container.InLocation? && o != corpse
    ensures NotInside(v, o, InObject(corpse))
  {
    var s := v.objects.Keys - {corpse} + {o};
    assert Closed(v, s);
  }

  lemma RelocateOne(v: View, corpse: Id, ids: set<Id>, o: Id)
    requires corpse in v.objects && v.objects[corpse].container.InLocation? && o in v.objects && o != corpse
    requires corpse !in ids
    ensures Accepts(Relocated(v, corpse, ids), ObjectAdminRelocate(o, InObject(corpse), ""))
    ensures Effect(Relocated(v, corpse, ids), ObjectAdminRelocate(o, InObject(corpse), "")) ==
      Relocated(v, corpse, ids + {o})
  {
    var w := Relocated(v, corpse, ids);
    var p := ObjectAdminRelocate(o, InObject(corpse), "");
    CorpseOutside(w, o, corpse);
    hide NotInside;
    assert Effect(w, p).objects == w.objects[o := InCorpse(w.objects[o], corpse)];
  }

  lemma {:induction false} RelocationsRun(v: View, corpse: Id, s: seq<Tuple>)
    requires corpse in v.objects && v.objects[corpse].container.InLocation?
    requires forall x :: x in Ids(s) ==> x in v.objects && x != corpse
    ensures AcceptsEach(v, Relocations(s, corpse))
    ensures EffectAll(v, Relocations(s, corpse)) == Relocated(v, corpse, Ids(s))
  {
    hide Accepts, Effect;
    if s == [] {
      assert Relocated(v, corpse, Ids(s)) == v;
    } else {
      var init, last := s[..|s| - 1], s[|s| - 1];
      assert s == init + [last];
      IdsConcat(init, [last]);
      assert Ids([last]) == {last.obj};
      hide Ids, Relocated;
      RelocationsRun(v, corpse, init);
      RelocateOne(v, corpse, Ids(init), last.obj);
      assert Relocations(s, corpse)[..|s| - 1] == Relocations(init, corpse);
    }
  }

  lemma DeathStep(v: View, a: Id)
    requires a in v.actors
    ensures Accepts(v, ActorDeath(a)) && Effect(v, ActorDeath(a)) == Dead(v, a)
  {
  }

  lemma CorpseStep(v: View, w: View, a: Id, corpse: Id)
    requires ActorsPlaced(v) && NoOrphans(v) && a in v.actors && corpse !in v.objects && w == Dead(v, a)
    ensures var q := DeathAndCorpse(v, a, corpse)[1]; Accepts(w, q) && Effect(w, q) == WithCorpse(w, a, corpse)
  {
    assert Vacant(w, InObject(corpse));
  }

  lemma CorpseRun(v: View, a: Id, corpse: Id)
    requires Consistent(v) && a in v.actors && corpse !in v.objects
    ensures AcceptsEach(v, DeathAndCorpse(v, a, corpse))
    ensures EffectAll(v, DeathAndCorpse(v, a, corpse)) == WithCorpse(Dead(v, a), a, corpse)
  {
    var p, q := DeathAndCorpse(v, a, corpse)[0], DeathAndCorpse(v, a, corpse)[1];
    var w := Dead(v, a);
    DeathStep(v, a);
    CorpseStep(v, w, a, corpse);
    hide Accepts, Effect, Consistent, Dead, WithCorpse;
    EachOne(v, p);
    EachOne(w, q);
    EachConcat(v, [p], [q]);
    assert [p] + [q] == DeathAndCorpse(v, a, corpse);
  }

  /**
   * Death conservation: the events are all accepted, the actor's inventory is empty when it is
   * removed, and every object it had, at any depth, is then directly in the one new corpse at
   * the place of death; nothing else changed, and nothing is stranded.
   */
  lemma DeathConserves(v: View, a: Id, corpse: Id, s: seq<Tuple>)
    requires Consistent(v) && a in v.actors && corpse !in v.objects && Listing(v, InActor(a), s)
    ensures AcceptsEach(v, DeathPayloads(v, a, corpse, s))
    ensures Vacant(EffectAll(v, DeathAndCorpse(v, a, corpse) + Relocations(s, corpse)), InActor(a))
    ensures EffectAll(v, DeathPayloads(v, a, corpse, s)) == AfterDeath(v, a, corpse, Ids(s))
    ensures Consistent(AfterDeath(v, a, corpse, Ids(s)))
  {
    DeathRun(v, a, corpse, s);
    NothingStranded(v, a, corpse, s);
    hide Sound, NoOrphans, Listing, AcceptsEach, EffectAll, AfterDeath, DeathPayloads, Ids;
    EachKeepsSound(v, DeathPayloads(v, a, corpse, s));
  }

  /** With everything in the corpse, the actor goes. */
  lemma LastStep(v: View, a: Id, corpse: Id, ids: set<Id>)
    requires a in v.actors
    requires Vacant(Relocated(WithCorpse(Dead(v, a), a, corpse), corpse, ids), InActor(a))
    ensures var x := Relocated(WithCorpse(Dead(v, a), a, corpse), corpse, ids);
      && Accepts(x, ActorRemoveFromZone(a)) && Effect(x, ActorRemoveFromZone(a)) == AfterDeath(v, a, corpse, ids)
  {
    hide Vacant;
    assert (v.actors[a := Dead(v, a).actors[a]]) - {a} == v.actors - {a};
    var x, y := Relocated(WithCorpse(Dead(v, a), a, corpse), corpse, ids),
      Relocated(WithCorpse(v, a, corpse), corpse, ids);
    assert x.objects == y.objects;
  }

  lemma DeathRun(v: View, a: Id, corpse: Id, s: seq<Tuple>)
    requires Consistent(v) && a in v.actors && corpse !in v.objects && Listing(v, InActor(a), s)
    ensures AcceptsEach(v, DeathPayloads(v, a, corpse, s))
    ensures Vacant(EffectAll(v, DeathAndCorpse(v, a, corpse) + Relocations(s, corpse)), InActor(a))
    ensures EffectAll(v, DeathPayloads(v, a, corpse, s)) == AfterDeath(v, a, corpse, Ids(s))
  {
    hide Consistent, Accepts, Effect, AcceptsEach, EffectAll, ParentsFirst, Relocated, AfterDeath, Vacant, Ids;
    var w := WithCorpse(Dead(v, a), a, corpse);
    CorpseRun(v, a, corpse);
    ParentsFirstMembers(v, InActor(a), s);
    RelocationsRun(w, corpse, s);
    EmptyHanded(v, w, a, corpse, s);
    hide Complete, DeathAndCorpse, WithCorpse, Dead;
    EachConcat(v, DeathAndCorpse(v, a, corpse), Relocations(s, corpse));
    LastStep(v, a, corpse, Ids(s));
    EachSnoc(v, DeathAndCorpse(v, a, corpse) + Relocations(s, corpse), ActorRemoveFromZone(a));
  }

  lemma EmptyHanded(v: View, w: View, a: Id, corpse: Id, s: seq<Tuple>)
    requires a in v.actors && w == WithCorpse(Dead(v, a), a, corpse) && corpse !in v.objects
    requires Complete(v, InActor(a), s)
    ensures Vacant(Relocated(w, corpse, Ids(s)), InActor(a))
  {
  }

  lemma NothingStranded(v: View, a: Id, corpse: Id, s: seq<Tuple>)
    requires NoOrphans(v) && a in v.actors && v.actors[a].location in v.locations && Complete(v, InActor(a), s)
    requires corpse !in v.objects
    ensures NoOrphans(AfterDeath(v, a, corpse, Ids(s)))
  {
    var w := AfterDeath(v, a, corpse, Ids(s));
    forall o | o in w.objects
      ensures Exists(w, w.objects[o].container)
    {
      if o in v.objects && o !in Ids(s) {
        assert !Under(InActor(a), Ids(s), v.objects[o].container);
      }
    }
  }

  // ---------- combat ----------

  /** addDeathEventIfNeeded: any of the three spent. */
  predicate Lethal(t: Attributes, physical: int, stamina: int, focus: int)
  {
    t.physical - physical <= 0 || t.stamina - stamina <= 0 || t.focus - focus <= 0
  }

  /** What a blow amounts to, given what the dice said. */
  function MeleePayloads(v: View, target: Id, dodged: bool, physical: int, stamina: int, focus: int,
                         corpse: Id, s: seq<Tuple>): seq<Payload>
    requires target in v.actors
  {
    if dodged then [CombatDodge(target)]
    else
      [CombatMeleeDamage(target, physical, stamina, focus)] +
      if Lethal(v.actors[target].info.attributes, physical, stamina, focus) then DeathPayloads(v, target, corpse, s)
      else []
  }

  function Hurt(v: View, target: Id, physical: int, stamina: int, focus: int): View
    requires target in v.actors
  {
    Changed(v, Recondition(v, target, Damaged(v.actors[target].info.attributes, physical, stamina, focus)))
  }

  /** A blow is dodged and changes nothing, or hurts, or kills with all that a death does. */
  lemma MeleeRun(v: View, target: Id, dodged: bool, physical: int, stamina: int, focus: int, corpse: Id, s: seq<Tuple>)
    requires Consistent(v) && target in v.actors && corpse !in v.objects && Listing(v, InActor(target), s)
    ensures var ps := MeleePayloads(v, target, dodged, physical, stamina, focus, corpse, s);
      && AcceptsEach(v, ps) && Consistent(EffectAll(v, ps))
      && EffectAll(v, ps) ==
         if dodged then v
         else if Lethal(v.actors[target].info.attributes, physical, stamina, focus)
         then AfterDeath(v, target, corpse, Ids(s))
         else Hurt(v, target, physical, stamina, focus)
  {
    hide Accepts, Effect, Hurt, Listing, Sound, NoOrphans, Lethal, Ids, AfterDeath, DeathPayloads;
    if dodged {
      DodgeStep(v, target);
      EachOne(v, CombatDodge(target));
    } else {
      var p := CombatMeleeDamage(target, physical, stamina, focus);
      HurtStep(v, target, physical, stamina, focus);
      EachOne(v, p);
      if Lethal(v.actors[target].info.attributes, physical, stamina, focus) {
        HurtSame(v, target, physical, stamina, focus, corpse, s);
        DeathConserves(Hurt(v, target, physical, stamina, focus), target, corpse, s);
        EachConcat(v, [p], DeathPayloads(v, target, corpse, s));
      } else {
        assert [p] + [] == [p];
      }
    }
  }

  lemma DodgeStep(v: View, target: Id)
    ensures Accepts(v, CombatDodge(target)) && Effect(v, CombatDodge(target)) == v
  {
  }

  lemma HurtStep(v: View, target: Id, physical: int, stamina: int, focus: int)
    requires Consistent(v) && target in v.actors
    ensures var p := CombatMeleeDamage(target, physical, stamina, focus);
      && Accepts(v, p) && Effect(v, p) == Hurt(v, target, physical, stamina, focus)
      && Consistent(Hurt(v, target, physical, stamina, focus))
  {
    var p := CombatMeleeDamage(target, physical, stamina, focus);
    assert Accepts(v, p) && Effect(v, p) == Hurt(v, target, physical, stamina, focus) && LeavesNoOrphans(v, p);
    hide Accepts, Effect, Hurt, Sound, NoOrphans;
    EffectKeepsSound(v, p);
    EffectKeepsNoOrphans(v, p);
  }

  /** The blow itself makes no difference to a death by it. */
  lemma HurtSame(v: View, target: Id, physical: int, stamina: int, focus: int, corpse: Id, s: seq<Tuple>)
    requires target in v.actors && Listing(v, InActor(target), s)
    ensures var w := Hurt(v, target, physical, stamina, focus);
      && target in w.actors && w.objects == v.objects && Listing(w, InActor(target), s)
      && DeathPayloads(w, target, corpse, s) == DeathPayloads(v, target, corpse, s)
      && AfterDeath(w, target, corpse, Ids(s)) == AfterDeath(v, target, corpse, Ids(s))
  {
    var w := Hurt(v, target, physical, stamina, focus);
    ListingOfObjects(v, w, InActor(target), s);
    assert w.actors - {target} == v.actors - {target};
  }
}
