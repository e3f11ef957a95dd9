/**
 * Which intents a log leaves unfinished, and what recovery does about them. `Pending` is what
 * opening a log computes entry by entry; `Outstanding` is what it is meant to be.
 */
module IntentRecovery {
  import opened Wrappers
  import opened Bytes
  import opened IntentLog
  import opened EventStream
  import opened UUIDLists

  // ---------- the meaning ----------

  predicate Confirms(es: seq<LogEntry>, id: Id)
  {
    exists i :: 0 <= i < |es| && es[i].completed && es[i].id == id
  }

  /** The intents that no later entry confirms, in the order they were written. */
  function Outstanding(es: seq<LogEntry>): seq<LogEntry>
  {
    if es == [] then []
    else if es[0].completed || Confirms(es[1..], es[0].id) then Outstanding(es[1..])
    else [es[0]] + Outstanding(es[1..])
  }

  predicate UniqueIntents(es: seq<LogEntry>)
  {
    forall i, j :: 0 <= i < j < |es| && !es[i].completed && !es[j].completed ==> es[i].id != es[j].id
  }

  // ---------- the computation ----------

  datatype Tracked = Tracked(ids: seq<Id>, entries: map<Id, LogEntry>)

  function TrackOne(t: Tracked, e: LogEntry): Tracked
  {
    if e.completed then Tracked(Remove(t.ids, e.id), t.entries - {e.id})
    else Tracked(t.ids + [e.id], t.entries[e.id := e])
  }

  function Track(es: seq<LogEntry>): Tracked
  {
    if es == [] then Tracked([], map[]) else TrackOne(Track(es[..|es| - 1]), es[|es| - 1])
  }

  /** The entry recovery finds for an ID; an ID without one yields an empty entry. */
  function Lookup(t: Tracked, id: Id): LogEntry
  {
    if id in t.entries then t.entries[id] else LogEntry(id, false, [], [])
  }

  function Pending(es: seq<LogEntry>): (p: seq<LogEntry>)
    ensures |p| == |Track(es).ids|
  {
    var t := Track(es);
    seq(|t.ids|, i requires 0 <= i < |t.ids| => Lookup(t, t.ids[i]))
  }

  // ---------- they agree ----------

  function Without(p: seq<LogEntry>, id: Id): seq<LogEntry>
  {
    if p == [] then [] else if p[0].id == id then Without(p[1..], id) else [p[0]] + Without(p[1..], id)
  }

  lemma {:induction false} OutstandingSnoc(es: seq<LogEntry>, e: LogEntry)
    ensures Outstanding(es + [e]) == if e.completed then Without(Outstanding(es), e.id) else Outstanding(es) + [e]
  {
    var all := es + [e];
    if es != [] {
      assert all[1..] == es[1..] + [e];
      OutstandingSnoc(es[1..], e);
      assert Confirms(all[1..], es[0].id) <==> Confirms(es[1..], es[0].id) || (e.completed && e.id == es[0].id) by {
        assert all[1..][|es| - 1] == e;
        assert forall i :: 0 <= i < |es| - 1 ==> all[1..][i] == es[1..][i];
      }
    }
  }

  predicate DistinctIds(p: seq<LogEntry>)
  {
    forall i, j :: 0 <= i < j < |p| ==> p[i].id != p[j].id
  }

  lemma {:induction false} OutstandingFrom(es: seq<LogEntry>)
    ensures forall x :: x in Outstanding(es) ==> x in es && !x.completed
  {
    if es != [] {
      OutstandingFrom(es[1..]);
    }
  }

  lemma {:induction false} OutstandingDistinct(es: seq<LogEntry>)
    requires UniqueIntents(es)
    ensures DistinctIds(Outstanding(es))
  {
    if es != [] {
      OutstandingDistinct(es[1..]);
      OutstandingFrom(es[1..]);
    }
  }

  lemma {:induction false} WithoutAbsent(p: seq<LogEntry>, id: Id)
    requires forall x :: x in p ==> x.id != id
    ensures Without(p, id) == p
  {
    if p != [] {
      WithoutAbsent(p[1..], id);
    }
  }

  /** With distinct IDs, dropping all entries of an ID drops the one that has it. */
  lemma {:induction false} WithoutAt(p: seq<LogEntry>, k: nat)
    requires DistinctIds(p) && k < |p|
    ensures Without(p, p[k].id) == p[..k] + p[k + 1..]
  {
    if k == 0 {
      WithoutAbsent(p[1..], p[0].id);
    } else {
      WithoutAt(p[1..], k - 1);
    }
  }

  /** t tracks exactly the entries p, in order. */
  predicate Tracks(t: Tracked, p: seq<LogEntry>)
  {
    && |t.ids| == |p|
    && forall i :: 0 <= i < |p| ==> t.ids[i] == p[i].id && t.ids[i] in t.entries && t.entries[t.ids[i]] == p[i]
  }

  lemma TrackOneStep(t: Tracked, p: seq<LogEntry>, e: LogEntry)
    requires Tracks(t, p) && DistinctIds(p)
    requires !e.completed ==> forall x :: x in p ==> x.id != e.id
    ensures Tracks(TrackOne(t, e), if e.completed then Without(p, e.id) else p + [e])
  {
    if !e.completed {
      TrackIntent(t, p, e);
    } else if k :| 0 <= k < |p| && p[k].id == e.id {
      WithoutAt(p, k);
      NotBefore(t, p, k);
      RemoveAt(t.ids, k);
      TrackConfirmed(t, p, e, k);
    } else {
      WithoutAbsent(p, e.id);
      hide DistinctIds, Without;
      TrackUnknown(t, p, e);
    }
  }

  lemma TrackIntent(t: Tracked, p: seq<LogEntry>, e: LogEntry)
    requires Tracks(t, p) && !e.completed && forall x :: x in p ==> x.id != e.id
    ensures Tracks(TrackOne(t, e), p + [e])
  {
    assert forall i :: 0 <= i < |p| ==> p[i] in p;
  }

  /** Confirming what is not tracked changes nothing. */
  lemma TrackUnknown(t: Tracked, p: seq<LogEntry>, e: LogEntry)
    requires Tracks(t, p) && e.completed && forall i :: 0 <= i < |p| ==> p[i].id != e.id
    ensures Tracks(TrackOne(t, e), p)
  {
  }

  lemma NotBefore(t: Tracked, p: seq<LogEntry>, k: nat)
    requires Tracks(t, p) && DistinctIds(p) && k < |p|
    ensures t.ids[k] == p[k].id && t.ids[k] !in t.ids[..k]
  {
  }

  lemma TrackConfirmed(t: Tracked, p: seq<LogEntry>, e: LogEntry, k: nat)
    requires Tracks(t, p) && DistinctIds(p) && e.completed && k < |p| && p[k].id == e.id
    requires TrackOne(t, e).ids == t.ids[..k] + t.ids[k + 1..]
    ensures Tracks(TrackOne(t, e), p[..k] + p[k + 1..])
  {
    hide Remove;
  }

  lemma TracksOneMore(es: seq<LogEntry>, e: LogEntry)
    requires UniqueIntents(es) && UniqueIntents(es + [e]) && Tracks(Track(es), Outstanding(es))
    ensures Tracks(Track(es + [e]), Outstanding(es + [e]))
  {
    hide UniqueIntents, DistinctIds, Outstanding, Tracks, Without, TrackOne;
    OutstandingSnoc(es, e);
    OutstandingDistinct(es);
    IntentIsNew(es, e);
    TrackOneStep(Track(es), Outstanding(es), e);
    assert (es + [e])[..|es|] == es;
  }

  /** With unique transaction IDs, opening a log finds exactly its outstanding intents, in order. */
  lemma {:induction false} PendingIsOutstanding(es: seq<LogEntry>)
    requires UniqueIntents(es)
    ensures Tracks(Track(es), Outstanding(es)) && Pending(es) == Outstanding(es)
  {
    if es != [] {
      var before, e := es[..|es| - 1], es[|es| - 1];
      assert es == before + [e];
      assert UniqueIntents(before);
      hide UniqueIntents, Outstanding, Tracks, Track;
      PendingIsOutstanding(before);
      TracksOneMore(before, e);
      PendingFrom(es, Outstanding(es));
    }
  }

  lemma IntentIsNew(es: seq<LogEntry>, e: LogEntry)
    requires UniqueIntents(es + [e])
    ensures !e.completed ==> forall x :: x in Outstanding(es) ==> x.id != e.id
  {
    OutstandingFrom(es);
    forall x | x in Outstanding(es) && !e.completed
      ensures x.id != e.id
    {
      var i :| 0 <= i < |es| && es[i] == x;
      assert (es + [e])[i] == x && (es + [e])[|es|] == e;
    }
  }

  lemma PendingFrom(es: seq<LogEntry>, p: seq<LogEntry>)
    requires Tracks(Track(es), p)
    ensures Pending(es) == p
  {
    hide Track;
  }

  // ---------- recovery ----------

  function Confirmation(id: Id): LogEntry
  {
    LogEntry(id, true, [], [])
  }

  function Confirmations(p: seq<LogEntry>): (r: seq<LogEntry>)
    ensures |r| == |p|
  {
    if p == [] then [] else [Confirmation(p[0].id)] + Confirmations(p[1..])
  }

  lemma {:induction false} ConfirmationsFit(p: seq<LogEntry>)
    ensures AllFit(Confirmations(p)) && forall x :: x in Confirmations(p) ==> x.completed
  {
    if p != [] {
      ConfirmationsFit(p[1..]);
    }
  }

  lemma {:induction false} ConfirmationsSnoc(p: seq<LogEntry>, e: LogEntry)
    ensures Confirmations(p + [e]) == Confirmations(p) + [Confirmation(e.id)]
  {
    if p != [] {
      ConfirmationsSnoc(p[1..], e);
      assert (p + [e])[1..] == p[1..] + [e];
    }
  }

  lemma ConfirmationsKeepUnique(es: seq<LogEntry>, p: seq<LogEntry>)
    requires UniqueIntents(es)
    ensures UniqueIntents(es + Confirmations(p))
  {
    ConfirmationsFit(p);
    var all := es + Confirmations(p);
    assert forall i :: 0 <= i < |all| && !all[i].completed ==> i < |es| by {
      forall i | |es| <= i < |all|
        ensures all[i].completed
      {
        assert all[i] in Confirmations(p);
      }
    }
  }

  /** Confirming the first k outstanding intents leaves exactly the others outstanding. */
  lemma {:induction false} ConfirmedPrefix(es: seq<LogEntry>, k: nat)
    requires UniqueIntents(es) && k <= |Outstanding(es)|
    ensures Outstanding(es + Confirmations(Outstanding(es)[..k])) == Outstanding(es)[k..]
  {
    hide Outstanding, Without, UniqueIntents;
    var p := Outstanding(es);
    if k == 0 {
      assert es + Confirmations(p[..0]) == es;
    } else {
      ConfirmedPrefix(es, k - 1);
      OutstandingDistinct(es);
      hide DistinctIds, Confirmations;
      ConfirmOne(es, p[..k - 1], p[k - 1]);
      assert p[..k] == p[..k - 1] + [p[k - 1]];
      WithoutFirst(p, k - 1);
    }
  }

  lemma WithoutFirst(p: seq<LogEntry>, k: nat)
    requires DistinctIds(p) && k < |p|
    ensures Without(p[k..], p[k].id) == p[k + 1..]
  {
    WithoutAt(p[k..], 0);
    assert p[k..][..0] + p[k..][1..] == p[k + 1..];
  }

  lemma ConfirmOne(es: seq<LogEntry>, p: seq<LogEntry>, e: LogEntry)
    ensures Outstanding(es + Confirmations(p + [e])) == Without(Outstanding(es + Confirmations(p)), e.id)
  {
    hide Outstanding, Without;
    ConfirmationsSnoc(p, e);
    assert es + Confirmations(p + [e]) == (es + Confirmations(p)) + [Confirmation(e.id)];
    OutstandingSnoc(es + Confirmations(p), Confirmation(e.id));
  }

  /**
   * A crash at any byte while confirmations are being written: after the whole log of es and k
   * bytes of the confirmations of its outstanding intents, reopening finds exactly the suffix of
   * intents whose confirmations are not whole.
   */
  lemma CrashDuringRecovery(es: seq<LogEntry>, k: nat)
    requires AllFit(es) && UniqueIntents(es) && k <= |SerializeAll(Confirmations(Outstanding(es)))|
    ensures var p := Outstanding(es);
      var done := WholeInside(Confirmations(p), k);
      done <= |p| &&
      Pending(ParseAll(SerializeAll(es) + SerializeAll(Confirmations(p))[..k])) == p[done..]
  {
    var p := Outstanding(es);
    var cs := Confirmations(p);
    ConfirmationsFit(p);
    CrashAnywhere(cs, k);
    ParseAppended(es, SerializeAll(cs)[..k]);
    var done := WholeInside(cs, k);
    ConfirmationsTake(p, done);
    ConfirmedPrefix(es, done);
    ConfirmationsKeepUnique(es, p[..done]);
    PendingIsOutstanding(es + cs[..done]);
  }

  lemma {:induction false} ConfirmationsTake(p: seq<LogEntry>, k: nat)
    requires k <= |p|
    ensures Confirmations(p)[..k] == Confirmations(p[..k])
  {
    if k > 0 {
      ConfirmationsTake(p[1..], k - 1);
      assert p[..k][1..] == p[1..][..k - 1];
    }
  }

  // ---------- one run of recovery ----------

  /** A call of the handler: the decoded redo and undo events. */
  type Call<B> = (seq<Event<B>>, seq<Event<B>>)

  datatype Run<B> = Run(confirmed: nat, calls: seq<Call<B>>, ok: bool)

  predicate Decodes<B>(c: Codec<B>, e: LogEntry)
  {
    ReadAll(c, e.redo).ok && ReadAll(c, e.undo).ok
  }

  function CallFor<B>(c: Codec<B>, e: LogEntry): Call<B>
  {
    (ReadAll(c, e.redo).events, ReadAll(c, e.undo).events)
  }

  /**
   * Recovery of the intents from the i-th on, where `handler` says whether the i-th call succeeds;
   * no handler at all is an error as soon as there is something to handle.
   */
  function Recover<B>(c: Codec<B>, p: seq<LogEntry>, handler: Option<nat -> bool>, i: nat): (r: Run<B>)
    requires i <= |p|
    ensures i <= r.confirmed <= |p| && (r.ok <==> r.confirmed == |p|)
    decreases |p| - i
  {
    if i == |p| then Run(i, [], true)
    else if handler.None? || !Decodes(c, p[i]) then Run(i, [], false)
    else if !handler.value(i) then Run(i, [CallFor(c, p[i])], false)
    else
      var r := Recover(c, p, handler, i + 1);
      Run(r.confirmed, [CallFor(c, p[i])] + r.calls, r.ok)
  }

  /**
   * The handler sees each confirmed intent once, in order, and at most one more, the one it failed
   * on: every time with the events to redo and the events to undo. It all stops at the first
   * intent with no handler to see it, with contents that cannot be read, or that the handler
   * failed on.
   */
  lemma {:induction false} RecoverCallsInOrder<B>(c: Codec<B>, p: seq<LogEntry>, handler: Option<nat -> bool>, i: nat)
    requires i <= |p|
    ensures var r := Recover(c, p, handler, i);
      && r.confirmed - i <= |r.calls| <= r.confirmed - i + (if r.ok then 0 else 1)
      && i + |r.calls| <= |p|
      && (forall j :: 0 <= j < |r.calls| ==>
            && ReadAll(c, p[i + j].redo) == Stream(r.calls[j].0, true)
            && ReadAll(c, p[i + j].undo) == Stream(r.calls[j].1, true))
      && (i < r.confirmed ==> handler.Some?) && (forall j: nat :: i <= j < r.confirmed ==> handler.value(j))
      && (r.ok <==> r.confirmed == |p|)
      && (!r.ok && |r.calls| == r.confirmed - i ==>
            || handler.None? || !ReadAll(c, p[r.confirmed].redo).ok || !ReadAll(c, p[r.confirmed].undo).ok)
      && (!r.ok && |r.calls| > r.confirmed - i ==> handler.Some? && !handler.value(r.confirmed))
    decreases |p| - i
  {
    hide ReadAll;
    if i < |p| {
      RecoverCallsInOrder(c, p, handler, i + 1);
      var calls, later := Recover(c, p, handler, i).calls, Recover(c, p, handler, i + 1).calls;
      forall j | 0 <= j < |calls|
        ensures ReadAll(c, p[i + j].redo) == Stream(calls[j].0, true)
        ensures ReadAll(c, p[i + j].undo) == Stream(calls[j].1, true)
      {
        if j > 0 {
          assert calls[j] == later[j - 1] && p[i + 1 + (j - 1)] == p[i + j];
        }
      }
    }
  }

  // ---------- what was written is what is redone ----------

  /** What a logger is asked to write: an intent, under an ID, or that one is completed. */
  datatype Writing<B> = Intend(id: Id, redo: seq<Event<B>>, undo: seq<Event<B>>) | Complete(id: Id)

  /** Every event can be stored compressed, and all of it fits the entry. */
  ghost predicate Writable<B>(c: Codec<B>, w: Writing<B>)
  {
    w.Intend? ==>
      && AllStorable(c, Chosen(w.redo, true)) && AllStorable(c, Chosen(w.undo, true))
      && |WriteAll(c, Chosen(w.redo, true))| < 0x1_0000_0000 && |WriteAll(c, Chosen(w.undo, true))| < 0x1_0000_0000
  }

  ghost predicate AllWritable<B>(c: Codec<B>, ws: seq<Writing<B>>)
  {
    forall i :: 0 <= i < |ws| ==> Writable(c, ws[i])
  }

  ghost function EntryFor<B>(c: Codec<B>, w: Writing<B>): LogEntry
    requires Writable(c, w)
  {
    match w
    case Intend(id, redo, undo) => LogEntry(id, false, WriteAll(c, Chosen(redo, true)), WriteAll(c, Chosen(undo, true)))
    case Complete(id) => LogEntry(id, true, [], [])
  }

  ghost function EntriesFor<B>(c: Codec<B>, ws: seq<Writing<B>>): (es: seq<LogEntry>)
    requires AllWritable(c, ws)
    ensures |es| == |ws| && forall i :: 0 <= i < |ws| ==> es[i] == EntryFor(c, ws[i])
  {
    seq(|ws|, i requires 0 <= i < |ws| => EntryFor(c, ws[i]))
  }

  /** The intents among the writings that no later one completes, in the order they were written. */
  function Unfinished<B(==)>(ws: seq<Writing<B>>): seq<Writing<B>>
  {
    if ws == [] then []
    else if ws[0].Intend? && forall i :: 1 <= i < |ws| && ws[i].Complete? ==> ws[i].id != ws[0].id
    then [ws[0]] + Unfinished(ws[1..])
    else Unfinished(ws[1..])
  }

  /** No two intents are written under the same ID. */
  predicate FreshIds<B>(ws: seq<Writing<B>>)
  {
    forall i, j :: 0 <= i < j < |ws| && ws[i].Intend? && ws[j].Intend? ==> ws[i].id != ws[j].id
  }

  /** The bytes are those the logger writes: both lists, compressed, under the ID. */
  lemma WritingBytes<B>(c: Codec<B>, id: Id, redo: seq<Event<B>>, undo: seq<Event<B>>)
    requires Writable(c, Intend(id, redo, undo))
    ensures WriteEvents(c, redo, true).Some? && WriteEvents(c, undo, true).Some?
    ensures EntryFor(c, Intend(id, redo, undo)) ==
      LogEntry(id, false, WriteEvents(c, redo, true).value, WriteEvents(c, undo, true).value)
  {
    ChosenPersistable(c, redo);
    ChosenPersistable(c, undo);
    WrittenIsAll(c, redo, true);
    WrittenIsAll(c, undo, true);
  }

  lemma ChosenPersistable<B>(c: Codec<B>, es: seq<Event<B>>)
    requires AllStorable(c, Chosen(es, true))
    ensures forall e :: e in es ==> Persistable(e.eventType)
  {
    hide Framed;
    forall i | 0 <= i < |es|
      ensures Persistable(es[i].eventType)
    {
      ChosenAt(es, true, i);
      assert Storable(c, Chosen(es, true)[i]);
    }
  }

  lemma {:induction false} WrittenOutstanding<B>(c: Codec<B>, ws: seq<Writing<B>>)
    requires AllWritable(c, ws)
    ensures AllWritable(c, Unfinished(ws))
    ensures Outstanding(EntriesFor(c, ws)) == EntriesFor(c, Unfinished(ws))
  {
    hide Writable, WriteAll;
    if ws != [] {
      var es := EntriesFor(c, ws);
      assert AllWritable(c, ws[1..]) && es[1..] == EntriesFor(c, ws[1..]);
      WrittenOutstanding(c, ws[1..]);
      WrittenConfirms(c, ws);
      UnfinishedUnfolds(ws);
      assert es[0].completed <==> ws[0].Complete?;
      hide Unfinished, Confirms;
      OneMoreWritable(c, ws[0], Unfinished(ws[1..]));
    }
  }

  lemma OneMoreWritable<B>(c: Codec<B>, w: Writing<B>, ws: seq<Writing<B>>)
    requires Writable(c, w) && AllWritable(c, ws)
    ensures AllWritable(c, [w] + ws) && EntriesFor(c, [w] + ws) == [EntryFor(c, w)] + EntriesFor(c, ws)
  {
    hide Writable, EntryFor;
  }

  lemma UnfinishedUnfolds<B>(ws: seq<Writing<B>>)
    requires ws != []
    ensures Unfinished(ws) ==
      if ws[0].Intend? && forall i :: 1 <= i < |ws| && ws[i].Complete? ==> ws[i].id != ws[0].id
      then [ws[0]] + Unfinished(ws[1..])
      else Unfinished(ws[1..])
  {
  }

  /** An entry written for an intent reads back as the intent. */
  lemma IntentReadsBack<B(!new)>(c: Codec<B>, w: Writing<B>)
    requires Invertible(c) && Writable(c, w) && w.Intend?
    ensures ReadAll(c, EntryFor(c, w).redo) == Stream(w.redo, true)
    ensures ReadAll(c, EntryFor(c, w).undo) == Stream(w.undo, true)
  {
    StreamRoundTrip(c, Chosen(w.redo, true));
    StreamRoundTrip(c, Chosen(w.undo, true));
  }

  lemma {:induction false} UnfinishedIntents<B>(ws: seq<Writing<B>>)
    ensures forall w :: w in Unfinished(ws) ==> w.Intend?
  {
    if ws != [] {
      UnfinishedIntents(ws[1..]);
    }
  }

  /** What opening a log cut at any byte finds pending: the entries of the unfinished intents. */
  lemma PendingAfterCrash<B>(c: Codec<B>, ws: seq<Writing<B>>, k: nat)
    requires AllWritable(c, ws) && FreshIds(ws) && k <= |SerializeAll(EntriesFor(c, ws))|
    ensures var left := Unfinished(ws[..WholeInside(EntriesFor(c, ws), k)]);
      AllWritable(c, left) && Pending(ParseAll(SerializeAll(EntriesFor(c, ws))[..k])) == EntriesFor(c, left)
  {
    hide *;
    var es := EntriesFor(c, ws);
    var j := WholeInside(es, k);
    EntriesFit(c, ws);
    CrashAnywhere(es, k);
    SomeWritable(c, ws, j);
    WrittenOutstanding(c, ws[..j]);
    EntriesUnique(c, ws, j);
    PendingIsOutstanding(es[..j]);
  }

  lemma EntriesFit<B>(c: Codec<B>, ws: seq<Writing<B>>)
    requires AllWritable(c, ws)
    ensures AllFit(EntriesFor(c, ws))
  {
    hide WriteAll, AllStorable;
  }

  lemma SomeWritable<B>(c: Codec<B>, ws: seq<Writing<B>>, j: nat)
    requires AllWritable(c, ws) && j <= |ws|
    ensures AllWritable(c, ws[..j]) && EntriesFor(c, ws[..j]) == EntriesFor(c, ws)[..j]
  {
    hide Writable;
  }

  lemma EntriesUnique<B>(c: Codec<B>, ws: seq<Writing<B>>, j: nat)
    requires AllWritable(c, ws) && FreshIds(ws) && j <= |ws|
    ensures UniqueIntents(EntriesFor(c, ws)[..j])
  {
    hide Writable, WriteAll;
    var es := EntriesFor(c, ws);
    assert forall i :: 0 <= i < |ws| ==> es[i].id == ws[i].id && (es[i].completed <==> ws[i].Complete?);
  }

  /**
   * Whatever was written, and at whatever byte the log was cut: opening it calls the handler, in
   * the order they were written, with just the redo and undo events of each intent that is whole
   * in the log and not completed there; and it succeeds exactly when the handler does on all.
   */
  lemma RedoneAsWritten<B(!new)>(c: Codec<B>, ws: seq<Writing<B>>, k: nat, handler: Option<nat -> bool>)
    requires Invertible(c) && AllWritable(c, ws) && FreshIds(ws) && k <= |SerializeAll(EntriesFor(c, ws))|
    ensures var left := Unfinished(ws[..WholeInside(EntriesFor(c, ws), k)]);
      var run := Recover(c, Pending(ParseAll(SerializeAll(EntriesFor(c, ws))[..k])), handler, 0);
      && |run.calls| <= |left|
      && (forall i :: 0 <= i < |run.calls| ==> left[i].Intend? && run.calls[i] == (left[i].redo, left[i].undo))
      && (run.ok <==> left == [] || (handler.Some? && forall i: nat :: i < |left| ==> handler.value(i)))
      && (run.ok ==> |run.calls| == |left|)
      && (!run.ok && handler.Some? ==> run.calls != [] && !handler.value(|run.calls| - 1))
  {
    hide *;
    PendingAfterCrash(c, ws, k);
    UnfinishedIntents(ws[..WholeInside(EntriesFor(c, ws), k)]);
    IntentsRedone(c, Unfinished(ws[..WholeInside(EntriesFor(c, ws), k)]), handler);
  }

  lemma IntentsRedone<B(!new)>(c: Codec<B>, left: seq<Writing<B>>, handler: Option<nat -> bool>)
    requires Invertible(c) && AllWritable(c, left) && forall w :: w in left ==> w.Intend?
    ensures var run := Recover(c, EntriesFor(c, left), handler, 0);
      && |run.calls| <= |left|
      && (forall i :: 0 <= i < |run.calls| ==> left[i].Intend? && run.calls[i] == (left[i].redo, left[i].undo))
      && (run.ok <==> left == [] || (handler.Some? && forall i: nat :: i < |left| ==> handler.value(i)))
      && (run.ok ==> |run.calls| == |left|)
      && (!run.ok && handler.Some? ==> run.calls != [] && !handler.value(|run.calls| - 1))
  {
    hide Recover, ReadAll, Writable, EntryFor, Invertible;
    var p := EntriesFor(c, left);
    forall i | 0 <= i < |left|
      ensures left[i].Intend?
      ensures ReadAll(c, p[i].redo) == Stream(left[i].redo, true) && ReadAll(c, p[i].undo) == Stream(left[i].undo, true)
    {
      assert left[i] in left && Writable(c, left[i]);
      IntentReadsBack(c, left[i]);
    }
    RecoverCallsInOrder(c, p, handler, 0);
  }

  lemma WrittenConfirms<B>(c: Codec<B>, ws: seq<Writing<B>>)
    requires AllWritable(c, ws) && ws != []
    ensures Confirms(EntriesFor(c, ws)[1..], ws[0].id) <==>
            exists i :: 1 <= i < |ws| && ws[i].Complete? && ws[i].id == ws[0].id
  {
    hide Writable;
    var es := EntriesFor(c, ws)[1..];
    assert forall i :: 0 <= i < |es| ==> es[i] == EntryFor(c, ws[i + 1]);
    assert forall i :: 1 <= i < |ws| ==> es[i - 1] == EntryFor(c, ws[i]);
  }
}
