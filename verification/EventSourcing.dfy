/** Rebuilding a zone from its persisted events. */
module EventSourcing {
  import opened Wrappers
  import opened ZoneViews

  // ---------- what replay may lose ----------

  /**
   * w is v, except perhaps for the sequence counter and for a default location that w has
   * forgotten.
   */
  ghost predicate Covers(v: View, w: View)
  {
    && w == v.(defaultLocation := w.defaultLocation, nextSequenceId := w.nextSequenceId)
    && (w.defaultLocation == v.defaultLocation || w.defaultLocation == None)
  }

  lemma AlikeAccepts(v: View, w: View, p: Payload)
    requires w == v.(defaultLocation := w.defaultLocation, nextSequenceId := w.nextSequenceId) && Accepts(v, p)
    ensures Accepts(w, p)
  {
    assert forall a, q :: At(w, a, q) == At(v, a, q);
    assert forall s :: Closed(v, s) ==> Closed(w, s);
  }

  /** Neither the counter nor the default location decides what a zone can take. */
  lemma CoversAccepts(v: View, w: View, p: Payload)
    requires Covers(v, w)
    ensures Accepts(v, p) <==> Accepts(w, p)
  {
    hide Accepts;
    if Accepts(v, p) {
      AlikeAccepts(v, w, p);
    }
    if Accepts(w, p) {
      AlikeAccepts(w, v, p);
    }
  }

  lemma CoversEffect(v: View, w: View, p: Payload)
    requires Covers(v, w)
    ensures ChangeOf(w, p) == ChangeOf(v, p) && Covers(Effect(v, p), Effect(w, p))
    ensures v.defaultLocation == w.defaultLocation ==> Effect(v, p).defaultLocation == Effect(w, p).defaultLocation
  {
    assert ChangeOf(w, p) == ChangeOf(v, p);
    hide ChangeOf;
  }

  lemma CoversApply(v: View, w: View, e: Event)
    requires Covers(v, w)
    ensures Accepts(v, e.payload) <==> Accepts(w, e.payload)
    ensures Covers(Apply(v, e), Apply(w, e))
    ensures v.defaultLocation == w.defaultLocation ==> Apply(v, e) == Apply(w, e)
  {
    hide Accepts, Effect;
    CoversAccepts(v, w, e.payload);
    CoversEffect(v, w, e.payload);
  }

  lemma {:induction false} CoversApplyAll(v: View, w: View, es: seq<Event>)
    requires Covers(v, w)
    ensures AcceptsAll(v, es) <==> AcceptsAll(w, es)
    ensures Covers(ApplyAll(v, es), ApplyAll(w, es))
    ensures v.defaultLocation == w.defaultLocation ==>
      ApplyAll(v, es).defaultLocation == ApplyAll(w, es).defaultLocation
    ensures es != [] ==> ApplyAll(v, es).nextSequenceId == ApplyAll(w, es).nextSequenceId
    decreases |es|
  {
    hide Accepts, Apply;
    if es != [] {
      CoversApply(v, w, es[0]);
      assert Apply(v, es[0]).nextSequenceId == es[0].sequenceNumber + 1 == Apply(w, es[0]).nextSequenceId by {
        Counter(v, es[0]);
        Counter(w, es[0]);
      }
      CoversApplyAll(Apply(v, es[0]), Apply(w, es[0]), es[1..]);
    }
  }

  lemma Counter(v: View, e: Event)
    ensures Apply(v, e).nextSequenceId == e.sequenceNumber + 1
  {
  }

  lemma {:induction false} ApplyAllConcat(v: View, es: seq<Event>, fs: seq<Event>)
    ensures ApplyAll(v, es + fs) == ApplyAll(ApplyAll(v, es), fs)
    ensures AcceptsAll(v, es + fs) <==> AcceptsAll(v, es) && AcceptsAll(ApplyAll(v, es), fs)
    decreases |es|
  {
    hide Accepts, Apply;
    if es == [] {
      assert es + fs == fs;
    } else {
      ApplyAllConcat(Apply(v, es[0]), es[1..], fs);
      assert (es + fs)[1..] == es[1..] + fs;
    }
  }

  /** One more event at the end. */
  lemma SnocRun(v: View, es: seq<Event>, e: Event)
    requires AcceptsAll(v, es) && Accepts(ApplyAll(v, es), e.payload)
    ensures AcceptsAll(v, es + [e]) && ApplyAll(v, es + [e]) == Apply(ApplyAll(v, es), e)
  {
    hide Accepts, Apply;
    ApplyAllConcat(v, es, [e]);
    var w := ApplyAll(v, es);
    assert [e][1..] == [];
    assert AcceptsAll(w, [e]) && ApplyAll(w, [e]) == Apply(w, e);
  }

  // ---------- replaying only what was persisted ----------

  function Persisted(es: seq<Event>): seq<Event>
  {
    if es == [] then []
    else if ShouldPersist(es[0]) then [es[0]] + Persisted(es[1..])
    else Persisted(es[1..])
  }

  /** The numbers processCommand gives: consecutive from n. */
  ghost predicate Numbered(n: nat, es: seq<Event>)
  {
    forall i :: 0 <= i < |es| ==> es[i].sequenceNumber == n + i
  }

  ghost predicate Increasing(es: seq<Event>)
  {
    forall i, j :: 0 <= i < j < |es| ==> es[i].sequenceNumber < es[j].sequenceNumber
  }

  lemma {:induction false} PersistedFrom(es: seq<Event>)
    ensures forall e :: e in Persisted(es) <==> e in es && ShouldPersist(e)
  {
    if es != [] {
      PersistedFrom(es[1..]);
    }
  }

  lemma PersistedIncreasing(n: nat, es: seq<Event>)
    requires Numbered(n, es)
    ensures Increasing(Persisted(es))
    ensures forall e :: e in Persisted(es) ==> n <= e.sequenceNumber < n + |es|
  {
    hide ShouldPersist, Persisted;
    PersistedOfIncreasing(es);
    PersistedFrom(es);
  }

  lemma {:induction false} PersistedConcat(es: seq<Event>, fs: seq<Event>)
    ensures Persisted(es + fs) == Persisted(es) + Persisted(fs)
  {
    hide ShouldPersist;
    if es == [] {
      assert es + fs == fs;
    } else {
      PersistedConcat(es[1..], fs);
      assert (es + fs)[1..] == es[1..] + fs && (es + fs)[0] == es[0];
      var first: seq<Event> := if ShouldPersist(es[0]) then [es[0]] else [];
      assert Persisted(es + fs) == first + Persisted(es[1..] + fs);
      assert first + (Persisted(es[1..]) + Persisted(fs)) == (first + Persisted(es[1..])) + Persisted(fs);
    }
  }

  lemma IncreasingConcat(es: seq<Event>, n: nat, fs: seq<Event>)
    requires Increasing(es) && Numbered(n, fs) && forall e :: e in es ==> e.sequenceNumber < n
    ensures Increasing(es + fs) && forall e :: e in es + fs ==> e.sequenceNumber < n + |fs|
  {
  }

  lemma {:induction false} PersistedOfIncreasing(es: seq<Event>)
    requires Increasing(es)
    ensures Increasing(Persisted(es))
  {
    if es != [] {
      PersistedOfIncreasing(es[1..]);
      PersistedFrom(es[1..]);
      var ps := Persisted(es[1..]);
      assert forall i :: 0 <= i < |ps| ==> ps[i] in ps;
      assert forall e :: e in es[1..] ==> es[0].sequenceNumber < e.sequenceNumber;
    }
  }

  /**
   * Event sourcing: replaying the persisted events of a run never fails and rebuilds the live
   * zone, but for the sequence counter, which is one past the last persisted event.
   */
  lemma {:induction false} ReplayRebuilds(v: View, w: View, es: seq<Event>)
    requires Covers(v, w) && v.defaultLocation == w.defaultLocation && AcceptsAll(v, es)
    ensures AcceptsAll(w, Persisted(es))
    ensures var live, replayed := ApplyAll(v, es), ApplyAll(w, Persisted(es));
      && replayed == live.(nextSequenceId := replayed.nextSequenceId)
      && replayed.nextSequenceId ==
         if Persisted(es) == [] then w.nextSequenceId else Persisted(es)[|Persisted(es)| - 1].sequenceNumber + 1
    decreases |es|
  {
    hide Accepts, Apply;
    if es != [] {
      var e := es[0];
      CoversApply(v, w, e);
      Counter(w, e);
      if ShouldPersist(e) {
        ReplayRebuilds(Apply(v, e), Apply(w, e), es[1..]);
        assert Persisted(es)[1..] == Persisted(es[1..]);
      } else {
        DodgeIsNothing(v, e);
        ReplayRebuilds(Apply(v, e), w, es[1..]);
      }
    }
  }

  lemma DodgeIsNothing(v: View, e: Event)
    requires !ShouldPersist(e)
    ensures Apply(v, e) == v.(nextSequenceId := e.sequenceNumber + 1)
  {
  }

  /**
   * The replayed counter equals the live one exactly when the run ends in a persisted event (or
   * has none at all): a trailing dodge's number is given out again after a restart.
   */
  lemma CounterExactly(v: View, es: seq<Event>)
    requires AcceptsAll(v, es) && Numbered(v.nextSequenceId, es)
    ensures ApplyAll(v, es).nextSequenceId == v.nextSequenceId + |es|
    ensures ApplyAll(v, Persisted(es)).nextSequenceId == ApplyAll(v, es).nextSequenceId <==>
      es == [] || ShouldPersist(es[|es| - 1])
  {
    hide ApplyAll, AcceptsAll, Persisted, ShouldPersist, Numbered;
    ReplayRebuilds(v, v, es);
    LiveCounter(v, es);
    if es == [] {
      NothingPersisted();
    } else {
      LastPersisted(v.nextSequenceId, es);
    }
  }

  lemma NothingPersisted()
    ensures Persisted([]) == []
  {
  }

  /** The last number of a run was persisted exactly when its last event was. */
  lemma LastPersisted(n: nat, es: seq<Event>)
    requires Numbered(n, es) && es != []
    ensures var ps := Persisted(es);
      ps != [] && ps[|ps| - 1].sequenceNumber == n + |es| - 1 <==> ShouldPersist(es[|es| - 1])
  {
    hide Persisted, ShouldPersist;
    PersistedIncreasing(n, es);
    PersistedFrom(es);
    var ps, last := Persisted(es), es[|es| - 1];
    if ShouldPersist(last) {
      assert last in ps;
      var i :| 0 <= i < |ps| && ps[i] == last;
      assert ps[|ps| - 1] in ps;
    } else if ps != [] {
      assert ps[|ps| - 1] in ps && ps[|ps| - 1] in es;
    }
  }

  lemma {:induction false} LiveCounter(v: View, es: seq<Event>)
    requires Numbered(v.nextSequenceId, es)
    ensures ApplyAll(v, es).nextSequenceId == v.nextSequenceId + |es|
    decreases |es|
  {
    hide Apply;
    if es != [] {
      Counter(v, es[0]);
      LiveCounter(Apply(v, es[0]), es[1..]);
    }
  }
}
