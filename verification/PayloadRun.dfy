/** Several events of one command: numbered in a row and applied in a row. */
module PayloadRuns {
  import opened ZoneViews
  import opened ZoneInvariant
  import opened EventSourcing

  /** Consecutive numbers from n on. */
  function Number(n: nat, ps: seq<Payload>): (es: seq<Event>)
    ensures |es| == |ps| && Numbered(n, es)
  {
    if ps == [] then [] else Number(n, ps[..|ps| - 1]) + [Event(n + |ps| - 1, ps[|ps| - 1])]
  }

  lemma NumberOne(n: nat, p: Payload)
    ensures Number(n, [p]) == [Event(n, p)]
  {
    assert [p][..0] == [];
  }

  function EffectAll(v: View, ps: seq<Payload>): View
  {
    if ps == [] then v else Effect(EffectAll(v, ps[..|ps| - 1]), ps[|ps| - 1])
  }

  ghost predicate AcceptsEach(v: View, ps: seq<Payload>)
  {
    ps == [] || (AcceptsEach(v, ps[..|ps| - 1]) && Accepts(EffectAll(v, ps[..|ps| - 1]), ps[|ps| - 1]))
  }

  lemma {:induction false} EachConcat(v: View, ps: seq<Payload>, qs: seq<Payload>)
    ensures EffectAll(v, ps + qs) == EffectAll(EffectAll(v, ps), qs)
    ensures AcceptsEach(v, ps + qs) <==> AcceptsEach(v, ps) && AcceptsEach(EffectAll(v, ps), qs)
  {
    hide Accepts, Effect;
    if qs == [] {
      assert ps + qs == ps;
    } else {
      EachConcat(v, ps, qs[..|qs| - 1]);
      assert (ps + qs)[..|ps + qs| - 1] == ps + qs[..|qs| - 1];
    }
  }

  lemma EachOne(v: View, p: Payload)
    ensures EffectAll(v, [p]) == Effect(v, p)
    ensures AcceptsEach(v, [p]) <==> Accepts(v, p)
  {
    hide Accepts, Effect;
    assert [p][..0] == [];
    assert EffectAll(v, []) == v;
  }

  lemma EachSnoc(v: View, ps: seq<Payload>, p: Payload)
    ensures EffectAll(v, ps + [p]) == Effect(EffectAll(v, ps), p)
    ensures AcceptsEach(v, ps + [p]) <==> AcceptsEach(v, ps) && Accepts(EffectAll(v, ps), p)
  {
    hide Accepts, Effect;
    assert (ps + [p])[..|ps|] == ps;
  }

  /** The sequence counter does not matter to an event. */
  lemma EffectAside(v: View, p: Payload, n: nat)
    ensures Effect(v.(nextSequenceId := n), p) == Effect(v, p).(nextSequenceId := n)
    ensures Effect(v, p).nextSequenceId == v.nextSequenceId
  {
    assert ChangeOf(v.(nextSequenceId := n), p) == ChangeOf(v, p);
    hide ChangeOf;
  }

  lemma AcceptsAside(v: View, p: Payload, n: nat)
    requires Accepts(v, p)
    ensures Accepts(v.(nextSequenceId := n), p)
  {
    CoversAccepts(v, v.(nextSequenceId := n), p);
  }

  /** Applying the numbered events is applying the payloads, and counting. */
  lemma {:induction false} NumberedRun(v: View, n: nat, ps: seq<Payload>)
    requires AcceptsEach(v, ps)
    ensures AcceptsAll(v, Number(n, ps))
    ensures ApplyAll(v, Number(n, ps)) ==
            EffectAll(v, ps).(nextSequenceId := if ps == [] then v.nextSequenceId else n + |ps|)
  {
    hide Accepts, Effect;
    if ps != [] {
      var init, last := ps[..|ps| - 1], ps[|ps| - 1];
      NumberedRun(v, n, init);
      EffectAllCounter(v, init);
      var es, e := Number(n, init), Event(n + |ps| - 1, last);
      var w, k := EffectAll(v, init), ApplyAll(v, es).nextSequenceId;
      AcceptsAside(w, last, k);
      EffectAside(w, last, k);
      SnocRun(v, es, e);
    }
  }

  lemma {:induction false} EffectAllCounter(v: View, ps: seq<Payload>)
    ensures EffectAll(v, ps).nextSequenceId == v.nextSequenceId
  {
    hide Effect;
    if ps != [] {
      EffectAllCounter(v, ps[..|ps| - 1]);
      EffectAside(EffectAll(v, ps[..|ps| - 1]), ps[|ps| - 1], 0);
    }
  }

  lemma {:induction false} EachKeepsSound(v: View, ps: seq<Payload>)
    requires Sound(v) && AcceptsEach(v, ps)
    ensures Sound(EffectAll(v, ps))
  {
    hide Sound, Accepts, Effect;
    if ps != [] {
      EachKeepsSound(v, ps[..|ps| - 1]);
      EffectKeepsSound(EffectAll(v, ps[..|ps| - 1]), ps[|ps| - 1]);
    }
  }
}
