/**
 * Loading a zone from its newest snapshot and the events after it, compared with replaying all of
 * its events: the fast form rebuilds the same zone, through any number of snapshots each built
 * from the one before.
 */
module SnapshotStore {
  import opened Bytes
  import opened ZoneViews
  import opened EventSourcing
  import opened SnapshotOrder
  import opened SnapshotReplay

  /** The events of a zone up to a number; from a number on. */
  function UpTo(es: seq<Event>, n: nat): seq<Event>
  {
    if es == [] then [] else if es[0].sequenceNumber <= n then [es[0]] + UpTo(es[1..], n) else UpTo(es[1..], n)
  }

  function After(es: seq<Event>, n: nat): seq<Event>
  {
    if es == [] then [] else if es[0].sequenceNumber > n then [es[0]] + After(es[1..], n) else After(es[1..], n)
  }

  lemma {:induction false} UpToFrom(es: seq<Event>, n: nat)
    ensures forall e :: e in UpTo(es, n) <==> e in es && e.sequenceNumber <= n
  {
    if es != [] {
      UpToFrom(es[1..], n);
    }
  }

  lemma {:induction false} UpToAll(es: seq<Event>, n: nat)
    requires forall e :: e in es ==> e.sequenceNumber <= n
    ensures UpTo(es, n) == es && After(es, n) == []
  {
    if es != [] {
      UpToAll(es[1..], n);
    }
  }

  lemma {:induction false} UpToNone(es: seq<Event>, n: nat)
    requires forall e :: e in es ==> e.sequenceNumber > n
    ensures UpTo(es, n) == [] && After(es, n) == es
  {
    if es != [] {
      UpToNone(es[1..], n);
    }
  }

  /** With growing numbers, what lies up to n splits at any earlier number s. */
  lemma {:induction false} SplitAt(es: seq<Event>, s: nat, n: nat)
    requires Increasing(es) && s <= n
    ensures UpTo(es, n) == UpTo(es, s) + After(UpTo(es, n), s)
    decreases |es|
  {
    if es != [] {
      SplitAt(es[1..], s, n);
      if es[0].sequenceNumber > s {
        assert forall e :: e in es[1..] ==> e.sequenceNumber > s;
        UpToNone(es[1..], s);
        UpToFrom(es[1..], n);
        UpToNone(UpTo(es[1..], n), s);
        if es[0].sequenceNumber <= n {
          assert UpTo(es, n)[1..] == UpTo(es[1..], n);
        }
      } else {
        assert UpTo(es, n)[1..] == UpTo(es[1..], n);
      }
    }
  }

  // ---------- the store of one zone ----------

  type Snapshots = map<nat, seq<Event>>

  /** s is the newest snapshot number not past n. */
  ghost predicate NewestNumber(snaps: Snapshots, n: nat, s: nat)
  {
    s in snaps && s <= n && forall t :: t in snaps && t <= n ==> t <= s
  }

  ghost predicate NoSnapshot(snaps: Snapshots, n: nat)
  {
    forall t :: t in snaps ==> t > n
  }

  /** A snapshot of a zone that may have forgotten its default location, or nothing for an empty one. */
  ghost predicate IsSnapshot(es: seq<Event>, s: nat, evs: seq<Event>)
  {
    exists v, ord :: SnapshotOf(es, s, evs, v, ord)
  }

  ghost predicate SnapshotOf(es: seq<Event>, s: nat, evs: seq<Event>, v: View, ord: seq<Node>)
  {
    && Consistent(v) && Covers(ApplyAll(EMPTY, UpTo(es, s)), v)
    && SnapshotOrdering(v, ord) && evs == SnapshotEvents(v, ord, s)
  }

  /** The zone's events can be replayed, and every snapshot is one of what it stands for. */
  ghost predicate Good(es: seq<Event>, snaps: Snapshots)
  {
    && Increasing(es) && AcceptsAll(EMPTY, es)
    && forall s :: s in snaps ==> IsSnapshot(es, s, snaps[s])
  }

  /** Newest snapshot, then tail. */
  function FromSnapshot(es: seq<Event>, snaps: Snapshots, n: nat, s: nat): seq<Event>
    requires s in snaps
  {
    snaps[s] + After(UpTo(es, n), s)
  }

  lemma {:induction false} UpToPrefix(es: seq<Event>, n: nat) returns (k: nat)
    requires Increasing(es)
    ensures k <= |es| && UpTo(es, n) == es[..k]
    decreases |es|
  {
    if es == [] || es[0].sequenceNumber > n {
      assert forall e :: e in es ==> e.sequenceNumber > n;
      UpToNone(es, n);
      k := 0;
    } else {
      var j := UpToPrefix(es[1..], n);
      k := j + 1;
      assert es[..k] == [es[0]] + es[1..][..j];
    }
  }

  lemma UpToAccepted(es: seq<Event>, n: nat)
    requires Increasing(es) && AcceptsAll(EMPTY, es)
    ensures AcceptsAll(EMPTY, UpTo(es, n))
  {
    var k := UpToPrefix(es, n);
    assert es == es[..k] + es[k..];
    ApplyAllConcat(EMPTY, es[..k], es[k..]);
  }

  lemma CoversTrans(u: View, v: View, w: View)
    requires Covers(u, v) && Covers(v, w)
    ensures Covers(u, w)
  {
  }

  /**
   * The snapshot-plus-tail form refines full replay: it never fails, and the zone it builds is the
   * fully replayed one but for a forgotten default location and the sequence counter.
   */
  lemma SnapshotPlusTail(es: seq<Event>, snaps: Snapshots, n: nat, s: nat)
    requires Good(es, snaps) && NewestNumber(snaps, n, s)
    ensures AcceptsAll(EMPTY, FromSnapshot(es, snaps, n, s))
    ensures Covers(ApplyAll(EMPTY, UpTo(es, n)), ApplyAll(EMPTY, FromSnapshot(es, snaps, n, s)))
  {
    hide Consistent, Accepts, Apply;
    assert IsSnapshot(es, s, snaps[s]);
    var v, ord :| SnapshotOf(es, s, snaps[s], v, ord);
    SnapshotIdentity(v, ord, s);
    var loaded := ApplyAll(EMPTY, snaps[s]);
    var base := ApplyAll(EMPTY, UpTo(es, s));
    CoversTrans(base, v, loaded);
    SplitAt(es, s, n);
    UpToAccepted(es, n);
    ApplyAllConcat(EMPTY, UpTo(es, s), After(UpTo(es, n), s));
    CoversApplyAll(base, loaded, After(UpTo(es, n), s));
    ApplyAllConcat(EMPTY, snaps[s], After(UpTo(es, n), s));
  }

  /** What a load up to n yields: the newest snapshot and what came after it, or all there is. */
  ghost predicate Answers(es: seq<Event>, snaps: Snapshots, n: nat, loaded: seq<Event>)
  {
    || (NoSnapshot(snaps, n) && loaded == UpTo(es, n))
    || exists s :: NewestNumber(snaps, n, s) && loaded == FromSnapshot(es, snaps, n, s)
  }

  /** Whatever is loaded rebuilds what a full replay would, but for a default location and the counter. */
  lemma AnswersRebuild(es: seq<Event>, snaps: Snapshots, n: nat, loaded: seq<Event>)
    requires Good(es, snaps) && Answers(es, snaps, n, loaded)
    ensures AcceptsAll(EMPTY, loaded)
    ensures Covers(ApplyAll(EMPTY, UpTo(es, n)), ApplyAll(EMPTY, loaded))
  {
    hide IsSnapshot, AcceptsAll, ApplyAll;
    if NoSnapshot(snaps, n) && loaded == UpTo(es, n) {
      UpToAccepted(es, n);
    } else {
      var s :| NewestNumber(snaps, n, s) && loaded == FromSnapshot(es, snaps, n, s);
      SnapshotPlusTail(es, snaps, n, s);
    }
  }

  lemma {:induction false} LastCounter(v: View, es: seq<Event>)
    requires es != []
    ensures ApplyAll(v, es).nextSequenceId == es[|es| - 1].sequenceNumber + 1
    decreases |es|
  {
    hide Apply;
    Counter(v, es[0]);
    if |es| > 1 {
      LastCounter(Apply(v, es[0]), es[1..]);
    }
  }

  /**
   * The loaded zone numbers its next event past every persisted one exactly when anything was
   * loaded, or nothing had been persisted: a snapshot of a zone with nothing in it, and no event
   * since, sets the counter back to zero.
   */
  lemma CounterPastPersistedExactly(es: seq<Event>, snaps: Snapshots, n: nat, s: nat)
    requires Good(es, snaps) && NewestNumber(snaps, n, s)
    ensures (forall e :: e in UpTo(es, n) ==>
      e.sequenceNumber < ApplyAll(EMPTY, FromSnapshot(es, snaps, n, s)).nextSequenceId)
            <==> FromSnapshot(es, snaps, n, s) != [] || UpTo(es, n) == []
  {
    var all := UpTo(es, n);
    if FromSnapshot(es, snaps, n, s) == [] {
      assert all != [] ==> all[0] in all;
    } else {
      CounterPast(es, snaps, n, s);
    }
  }

  lemma CounterPast(es: seq<Event>, snaps: Snapshots, n: nat, s: nat)
    requires Good(es, snaps) && NewestNumber(snaps, n, s) && FromSnapshot(es, snaps, n, s) != []
    ensures forall e :: e in UpTo(es, n) ==>
      e.sequenceNumber < ApplyAll(EMPTY, FromSnapshot(es, snaps, n, s)).nextSequenceId
  {
    hide AcceptsAll, IsSnapshot;
    var got, all := FromSnapshot(es, snaps, n, s), UpTo(es, n);
    var tail := After(all, s);
    SplitAt(es, s, n);
    UpToFrom(es, s);
    LastCounter(EMPTY, got);
    var last := got[|got| - 1];
    if tail != [] {
      assert last == tail[|tail| - 1] == all[|all| - 1];
      var k := UpToPrefix(es, n);
      LastIsGreatest(all);
    } else {
      assert got == snaps[s];
      SnapshotNumber(es, s, snaps[s], last);
    }
  }

  /** The counter is then past the snapshot's number too. */
  lemma CounterPastSnapshot(es: seq<Event>, snaps: Snapshots, n: nat, s: nat)
    requires Good(es, snaps) && NewestNumber(snaps, n, s) && FromSnapshot(es, snaps, n, s) != []
    ensures s < ApplyAll(EMPTY, FromSnapshot(es, snaps, n, s)).nextSequenceId
  {
    hide AcceptsAll, IsSnapshot;
    var got := FromSnapshot(es, snaps, n, s);
    var tail := After(UpTo(es, n), s);
    LastCounter(EMPTY, got);
    if tail != [] {
      AfterFrom(UpTo(es, n), s);
      assert tail[|tail| - 1] in tail;
    } else {
      assert IsSnapshot(es, s, snaps[s]);
      SnapshotNumber(es, s, snaps[s], got[|got| - 1]);
    }
  }

  lemma {:induction false} AfterFrom(es: seq<Event>, n: nat)
    ensures forall e :: e in After(es, n) <==> e in es && e.sequenceNumber > n
  {
    if es != [] {
      AfterFrom(es[1..], n);
    }
  }

  /**
   * The next event, numbered by the counter of the zone as loaded, is seen by the next load
   * exactly when that load had yielded anything: a snapshot of a zone with nothing in it, and no
   * event since, sets the counter back to zero, and the event hides behind the snapshot.
   */
  lemma NextEventSeenExactly(es: seq<Event>, snaps: Snapshots, n: nat, s: nat, e: Event)
    requires Good(es, snaps) && NewestNumber(snaps, n, s)
    requires e.sequenceNumber == ApplyAll(EMPTY, FromSnapshot(es, snaps, n, s)).nextSequenceId <= n
    ensures e in FromSnapshot(es + [e], snaps, n, s) <==> FromSnapshot(es, snaps, n, s) != []
  {
    hide Good, ApplyAll;
    AfterFrom(UpTo(es + [e], n), s);
    UpToFrom(es + [e], n);
    if FromSnapshot(es, snaps, n, s) == [] {
      NothingApplied();
    } else {
      CounterPastSnapshot(es, snaps, n, s);
      assert e in es + [e];
    }
  }

  lemma NothingApplied()
    ensures ApplyAll(EMPTY, []) == EMPTY
  {
  }

  lemma LastIsGreatest(es: seq<Event>)
    requires es != [] && Increasing(es)
    ensures forall e :: e in es ==> e.sequenceNumber <= es[|es| - 1].sequenceNumber
  {
  }

  lemma SnapshotNumber(es: seq<Event>, s: nat, evs: seq<Event>, e: Event)
    requires IsSnapshot(es, s, evs) && e in evs
    ensures e.sequenceNumber == s
  {
    var v, ord :| SnapshotOf(es, s, evs, v, ord);
    EventsNumber(v, ord, s);
  }

  lemma {:induction false} EventsNumber(v: View, ord: seq<Node>, s: nat)
    requires forall n :: n in ord ==> InZone(v, n)
    ensures forall e :: e in SnapshotEvents(v, ord, s) ==> e.sequenceNumber == s
  {
    if ord != [] {
      EventsNumber(v, ord[..|ord| - 1], s);
    }
  }

  // ---------- the store stays good ----------

  lemma {:induction false} UpToSnoc(es: seq<Event>, e: Event, n: nat)
    ensures UpTo(es + [e], n) == UpTo(es, n) + if e.sequenceNumber <= n then [e] else []
  {
    if es != [] {
      UpToSnoc(es[1..], e, n);
      assert (es + [e])[1..] == es[1..] + [e];
    }
  }

  /** Persisting one more event, numbered past all before it and past every snapshot. */
  lemma PersistKeepsGood(es: seq<Event>, snaps: Snapshots, e: Event)
    requires Good(es, snaps) && Accepts(ApplyAll(EMPTY, es), e.payload)
    requires forall f :: f in es ==> f.sequenceNumber < e.sequenceNumber
    requires forall s :: s in snaps ==> s < e.sequenceNumber
    ensures Good(es + [e], snaps)
  {
    hide Accepts, SnapshotOf;
    SnocRun(EMPTY, es, e);
    assert forall i :: 0 <= i < |es| ==> es[i] in es;
    forall s | s in snaps
      ensures IsSnapshot(es + [e], s, snaps[s])
    {
      UpToSnoc(es, e, s);
      assert IsSnapshot(es, s, snaps[s]);
      var v, ord :| SnapshotOf(es, s, snaps[s], v, ord);
      SnapshotStays(es, e, s, snaps[s], v, ord);
    }
  }

  lemma SnapshotStays(es: seq<Event>, e: Event, s: nat, evs: seq<Event>, v: View, ord: seq<Node>)
    requires SnapshotOf(es, s, evs, v, ord) && s < e.sequenceNumber
    ensures SnapshotOf(es + [e], s, evs, v, ord)
  {
    UpToSnoc(es, e, s);
    assert UpTo(es, s) + [] == UpTo(es, s);
  }

  lemma {:induction false} UpToConcat(es: seq<Event>, fs: seq<Event>, n: nat)
    requires forall f :: f in fs ==> f.sequenceNumber > n
    ensures UpTo(es + fs, n) == UpTo(es, n)
    decreases |es|
  {
    if es == [] {
      assert es + fs == fs;
      UpToNone(fs, n);
    } else {
      assert (es + fs)[1..] == es[1..] + fs;
      UpToConcat(es[1..], fs, n);
    }
  }

  /** The same for all that a command persists. */
  lemma PersistAllKeepsGood(es: seq<Event>, snaps: Snapshots, fs: seq<Event>)
    requires Good(es, snaps) && AcceptsAll(ApplyAll(EMPTY, es), fs) && Increasing(es + fs)
    requires forall s, f :: s in snaps && f in fs ==> s < f.sequenceNumber
    ensures Good(es + fs, snaps) && ApplyAll(EMPTY, es + fs) == ApplyAll(ApplyAll(EMPTY, es), fs)
  {
    hide AcceptsAll, ApplyAll, Increasing;
    ApplyAllConcat(EMPTY, es, fs);
    forall s | s in snaps
      ensures IsSnapshot(es + fs, s, snaps[s])
    {
      UpToConcat(es, fs, s);
      assert IsSnapshot(es, s, snaps[s]);
      var v, ord :| SnapshotOf(es, s, snaps[s], v, ord);
      assert SnapshotOf(es + fs, s, snaps[s], v, ord);
    }
  }

  /** Taking a snapshot of what was loaded, however it was loaded. */
  lemma SnapshotKeepsGood(es: seq<Event>, snaps: Snapshots, n: nat, loaded: seq<Event>, ord: seq<Node>)
    requires Good(es, snaps)
    requires Answers(es, snaps, n, loaded)
    requires var v := ApplyAll(EMPTY, loaded); Consistent(v) && SnapshotOrdering(v, ord)
    ensures Good(es, snaps[n := SnapshotEvents(ApplyAll(EMPTY, loaded), ord, n)])
  {
    var v := ApplyAll(EMPTY, loaded);
    var evs := SnapshotEvents(v, ord, n);
    AnswersRebuild(es, snaps, n, loaded);
    assert SnapshotOf(es, n, evs, v, ord);
  }

  /**
   * After the counter was set back, an event reuses a number the snapshot already covers, and the
   * next load does not see it: a location added and removed, a snapshot of the empty zone, a
   * restart, a new location, a restart.
   */
  lemma ReusedNumberIsLost(l: Id, m: Id, info: LocationInfo)
    ensures var es := [Event(0, LocationAddToZone(l, info)), Event(1, LocationRemoveFromZone(l))];
      && Good(es, map[1 := []]) && NewestNumber(map[1 := []], 1, 1)
      && ApplyAll(EMPTY, FromSnapshot(es, map[1 := []], 1, 1)).nextSequenceId == 0
      && FromSnapshot(es + [Event(0, LocationAddToZone(m, info))], map[1 := []], 1, 1) == []
      && After(UpTo(es + [Event(0, LocationAddToZone(m, info))], 1), 1) == []
  {
    hide Consistent, SnapshotOrdering, SnapshotEvents;
    var e0, e1 := Event(0, LocationAddToZone(l, info)), Event(1, LocationRemoveFromZone(l));
    var e2 := Event(0, LocationAddToZone(m, info));
    var es := [e0, e1];
    AddAndRemove(l, info);
    UpToAll(es, 1);
    var v := EMPTY.(nextSequenceId := 2);
    NothingToSnapshot(2);
    assert SnapshotOf(es, 1, [], v, []);
    UpToAll(es + [e2], 1);
  }

  lemma NothingToSnapshot(n: nat)
    ensures var v := EMPTY.(nextSequenceId := n);
      Consistent(v) && SnapshotOrdering(v, []) && SnapshotEvents(v, [], 1) == []
  {
  }

  lemma AddAndRemove(l: Id, info: LocationInfo)
    ensures var es := [Event(0, LocationAddToZone(l, info)), Event(1, LocationRemoveFromZone(l))];
      AcceptsAll(EMPTY, es) && ApplyAll(EMPTY, es) == EMPTY.(nextSequenceId := 2)
  {
    var e0, e1 := Event(0, LocationAddToZone(l, info)), Event(1, LocationRemoveFromZone(l));
    var v0 := Apply(EMPTY, e0);
    assert [] + [e0] == [e0] && [e0] + [e1] == [e0, e1];
    assert ApplyAll(EMPTY, []) == EMPTY && AcceptsAll(EMPTY, []);
    SnocRun(EMPTY, [], e0);
    assert Unreferenced(v0, l);
    SnocRun(EMPTY, [e0], e1);
    assert Apply(v0, e1).locations == map[];
  }
}
