/**
 * The intent logger over its file. Reads advance a position; writes always go to the end of the
 * file, which is opened for appending.
 */
module IntentLoggers {
  import opened Wrappers
  import opened Bytes
  import opened EventStream
  import opened HeaderBuffers
  import opened IntentLog
  import opened IntentRecovery
  import opened UUIDLists

  /** A log after recovery handled the first k of its pending intents. */
  function Recovered(log: seq<byte>, k: nat): seq<byte>
    requires k <= |Pending(ParseAll(log))|
  {
    log[..WholeLength(log)] + SerializeAll(Confirmations(Pending(ParseAll(log))[..k]))
  }

  class IntentLogger<B> {
    const codec: Codec<B>
    var file: seq<byte>
    var pos: nat
    var isOpen: bool

    constructor (codec: Codec<B>, file: seq<byte>)
      ensures this.codec == codec && this.file == file && !isOpen
    {
      this.codec, this.file, this.pos, this.isOpen := codec, file, 0, false;
    }

    method ReadUpTo(n: nat) returns (bytes: seq<byte>)
      requires pos <= |file|
      modifies `pos
      ensures bytes == old(LimitedRead(file, pos, n)) && pos == old(pos) + |bytes|
    {
      bytes := LimitedRead(file, pos, n);
      pos := pos + |bytes|;
    }

    method WriteEntry(e: LogEntry)
      modifies `file
      ensures file == old(file) + Serialize(e)
    {
      var hdrBytes := MarshalLogHeader(e);
      file := file + hdrBytes[..];
      if |e.redo| > 0 {
        file := file + e.redo;
      }
      if |e.undo| > 0 {
        file := file + e.undo;
      }
    }

    /** Appends an intent under the given fresh ID; an unhandled event type writes nothing. */
    method WriteIntent(redo: seq<Event<B>>, undo: seq<Event<B>>, id: Id) returns (ok: bool)
      modifies `file
      ensures ok <==> isOpen && WriteEvents(codec, redo, true).Some? && WriteEvents(codec, undo, true).Some?
      ensures file == if ok
        then old(file) +
          Serialize(LogEntry(id, false, WriteEvents(codec, redo, true).value, WriteEvents(codec, undo, true).value))
        else old(file)
    {
      if !isOpen {
        return false;
      }
      var redoBuf, undoBuf := WriteEvents(codec, redo, true), WriteEvents(codec, undo, true);
      if redoBuf.None? || undoBuf.None? {
        return false;
      }
      WriteEntry(LogEntry(id, false, redoBuf.value, undoBuf.value));
      ok := true;
    }

    method ConfirmIntentCompletion(id: Id) returns (ok: bool)
      modifies `file
      ensures ok == isOpen
      ensures file == if ok then old(file) + Serialize(LogEntry(id, true, [], [])) else old(file)
    {
      if !isOpen {
        return false;
      }
      WriteEntry(Confirmation(id));
      ok := true;
    }

    /** Reads one entry: the header, then each content in turn, giving up at the first shortfall. */
    method Deserialize() returns (r: ParseResult)
      requires pos <= |file|
      modifies `pos
      ensures r == ParseEntry(old(file[pos..]))
      ensures pos <= |file| && (r.Parsed? ==> pos == old(pos) + r.length)
    {
      hide FromLE;
      ghost var s := file[pos..];
      var hdr := ReadUpTo(HEADER_LENGTH);
      if |hdr| < HEADER_LENGTH {
        return Eof;
      }
      assert hdr == s[..HEADER_LENGTH];
      assert hdr[..16] == s[..16] && hdr[16..20] == s[16..20] && hdr[20..24] == s[20..24];
      var redoLen, undoLen := FromLE(hdr[16..20]), FromLE(hdr[20..24]);
      var redo := ReadUpTo(redoLen);
      if |redo| < redoLen {
        return Eof;
      }
      assert redo == s[HEADER_LENGTH..HEADER_LENGTH + redoLen];
      var undo := ReadUpTo(undoLen);
      if |undo| < undoLen {
        return Eof;
      }
      r := Parsed(LogEntry(hdr[..16], hdr[24] == 1, redo, undo), HEADER_LENGTH + redoLen + undoLen);
    }

    /** The first half of Open: read the whole entries and truncate the torn tail. */
    method Scan() returns (ids: seq<Id>, entries: map<Id, LogEntry>)
      requires isOpen && pos == 0
      modifies `file, `pos
      ensures file == old(file)[..WholeLength(old(file))]
      ensures Tracked(ids, entries) == Track(ParseAll(old(file)))
    {
      hide ParseEntry, Track, Remove;
      ids, entries := [], map[];
      ghost var es: seq<LogEntry> := [];
      EmptyTrack();
      assert file[0..] == file;
      while true
        invariant file == old(file) && pos <= |file|
        invariant Tracked(ids, entries) == Track(es)
        invariant ParseAll(file) == es + ParseAll(file[pos..])
        invariant WholeLength(file) == pos + WholeLength(file[pos..])
        decreases |file| - pos
      {
        var offset := pos;
        var r := Deserialize();
        if r.Eof? {
          assert ParseAll(file[offset..]) == [] && es + [] == es;
          file := file[..offset];
          pos := offset;
          break;
        }
        assert file[offset..][r.length..] == file[pos..];
        TrackSnoc(es, r.entry);
        es := es + [r.entry];
        if r.entry.completed {
          entries := entries - {r.entry.id};
          ids := RemoveId(ids, r.entry.id);
        } else {
          ids := ids + [r.entry.id];
          entries := entries[r.entry.id := r.entry];
        }
      }
    }

    /** The second half of Open: handle and confirm what is pending, in order, until one fails. */
    method HandlePending(ids: seq<Id>, entries: map<Id, LogEntry>, handler: Option<nat -> bool>, ghost p: seq<LogEntry>)
      returns (ok: bool, calls: seq<Call<B>>)
      requires isOpen && |p| == |ids|
      requires forall i :: 0 <= i < |ids| ==> p[i] == Lookup(Tracked(ids, entries), ids[i]) && p[i].id == ids[i]
      modifies `file
      ensures var run := Recover(codec, p, handler, 0);
        ok == run.ok && calls == run.calls && file == old(file) + SerializeAll(Confirmations(p[..run.confirmed]))
    {
      hide Recover, Confirmations, SerializeAll, Serialize, ReadAll, Confirmation;
      calls := [];
      NothingConfirmed();
      var i := 0;
      while i < |ids|
        invariant i <= |ids| == |p|
        invariant file == old(file) + SerializeAll(Confirmations(p[..i]))
        invariant Recover(codec, p, handler, 0) == Resume(calls, Recover(codec, p, handler, i))
      {
        RecoverUnfolds(codec, p, handler, i);
        var id := ids[i];
        var e := if id in entries then entries[id] else LogEntry(id, false, [], []);
        if handler.None? {
          return false, calls;
        }
        var redoEvents, undoEvents := ReadAll(codec, e.redo), ReadAll(codec, e.undo);
        if !redoEvents.ok || !undoEvents.ok {
          return false, calls;
        }
        calls := calls + [(redoEvents.events, undoEvents.events)];
        if !handler.value(i) {
          return false, calls;
        }
        var _ := ConfirmIntentCompletion(id);
        ConfirmationIs(id);
        ConfirmNext(p, i);
        i := i + 1;
      }
      RecoverEnds(codec, p, handler);
      ok := true;
    }

    /**
     * Opens and replays the log: reads whole entries, truncates the torn tail, then handles and
     * confirms each pending intent in order until one fails. What the calls are is in
     * RecoverCallsInOrder and, for a log that was written with intents, in RedoneAsWritten.
     */
    method Open(handler: Option<nat -> bool>) returns (ok: bool, calls: seq<Call<B>>)
      modifies this
      ensures isOpen
      ensures old(isOpen) ==> !ok && calls == [] && file == old(file)
      ensures !old(isOpen) ==>
        var run := Recover(codec, Pending(ParseAll(old(file))), handler, 0);
        ok == run.ok && calls == run.calls && file == Recovered(old(file), run.confirmed)
    {
      if isOpen {
        return false, [];
      }
      hide *;
      isOpen, pos := true, 0;
      var ids, entries := Scan();
      TrackedIds(ParseAll(old(file)));
      ok, calls := HandlePending(ids, entries, handler, Pending(ParseAll(old(file))));
      RecoveredIs(old(file), Recover(codec, Pending(ParseAll(old(file))), handler, 0).confirmed);
    }
  }

  // ---------- steps of the proof of Open ----------

  lemma RecoveredIs(log: seq<byte>, k: nat)
    requires k <= |Pending(ParseAll(log))|
    ensures Recovered(log, k) == log[..WholeLength(log)] + SerializeAll(Confirmations(Pending(ParseAll(log))[..k]))
  {
  }

  lemma EmptyTrack()
    ensures Track([]) == Tracked([], map[])
  {
  }

  lemma TrackSnoc(es: seq<LogEntry>, e: LogEntry)
    ensures Track(es + [e]) == TrackOne(Track(es), e)
  {
    assert (es + [e])[..|es|] == es;
  }

  /** Every tracked entry is filed under its own ID. */
  lemma {:induction false} TrackedIds(es: seq<LogEntry>)
    ensures var t := Track(es);
      && (forall id :: id in t.entries ==> t.entries[id].id == id)
      && forall i :: 0 <= i < |t.ids| ==> Pending(es)[i] == Lookup(t, t.ids[i]) && Pending(es)[i].id == t.ids[i]
  {
    hide Remove;
    var t := Track(es);
    if es != [] {
      TrackedIds(es[..|es| - 1]);
      assert t == TrackOne(Track(es[..|es| - 1]), es[|es| - 1]);
    }
    forall i | 0 <= i < |t.ids|
      ensures Pending(es)[i] == Lookup(t, t.ids[i]) && Pending(es)[i].id == t.ids[i]
    {
    }
  }

  lemma ConfirmationIs(id: Id)
    ensures Confirmation(id) == LogEntry(id, true, [], [])
  {
  }

  lemma NothingConfirmed()
    ensures SerializeAll(Confirmations([])) == []
  {
  }

  lemma ConfirmNext(p: seq<LogEntry>, i: nat)
    requires i < |p|
    ensures SerializeAll(Confirmations(p[..i + 1])) ==
            SerializeAll(Confirmations(p[..i])) + Serialize(Confirmation(p[i].id))
  {
    ConfirmationsSnoc(p[..i], p[i]);
    assert p[..i + 1] == p[..i] + [p[i]];
    SerializeOne(Confirmations(p[..i]), Confirmation(p[i].id));
  }

  lemma SerializeOne(es: seq<LogEntry>, e: LogEntry)
    ensures SerializeAll(es + [e]) == SerializeAll(es) + Serialize(e)
  {
    SerializeAppend(es, [e]);
    assert SerializeAll([e]) == Serialize(e) + SerializeAll([]);
  }

  /** A run of which some calls have already been made. */
  function Resume<B>(calls: seq<Call<B>>, r: Run<B>): Run<B>
  {
    Run(r.confirmed, calls + r.calls, r.ok)
  }

  lemma RecoverUnfolds<B>(c: Codec<B>, p: seq<LogEntry>, handler: Option<nat -> bool>, i: nat)
    requires i < |p|
    ensures Recover(c, p, handler, i) ==
      if handler.None? || !Decodes(c, p[i]) then Run(i, [], false)
      else if !handler.value(i) then Run(i, [CallFor(c, p[i])], false)
      else Resume([CallFor(c, p[i])], Recover(c, p, handler, i + 1))
  {
  }

  lemma RecoverEnds<B>(c: Codec<B>, p: seq<LogEntry>, handler: Option<nat -> bool>)
    ensures Recover(c, p, handler, |p|) == Run(|p|, [], true)
  {
  }

  /** The logger's file holds what was written so far; writing one thing more appends just its entry. */
  lemma OneMoreWritten<B>(c: Codec<B>, ws: seq<Writing<B>>, w: Writing<B>)
    requires AllWritable(c, ws) && Writable(c, w)
    ensures AllWritable(c, ws + [w])
    ensures w.Intend? ==> WriteEvents(c, w.redo, true).Some? && WriteEvents(c, w.undo, true).Some?
    ensures SerializeAll(EntriesFor(c, ws + [w])) == SerializeAll(EntriesFor(c, ws)) + Serialize(
      if w.Complete? then LogEntry(w.id, true, [], [])
      else LogEntry(w.id, false, WriteEvents(c, w.redo, true).value, WriteEvents(c, w.undo, true).value))
  {
    if w.Intend? {
      WritingBytes(c, w.id, w.redo, w.undo);
    }
    hide Writable, Serialize, SerializeAll;
    assert EntriesFor(c, ws + [w]) == EntriesFor(c, ws) + [EntryFor(c, w)];
    SerializeOne(EntriesFor(c, ws), EntryFor(c, w));
  }

  // ---------- reopening ----------

  /**
   * Reopening after a recovery that confirmed k intents finds exactly the other outstanding ones;
   * after a complete recovery it finds none, so the handler is not called again.
   */
  lemma Reopen(log: seq<byte>, k: nat)
    requires UniqueIntents(ParseAll(log)) && k <= |Pending(ParseAll(log))|
    ensures Pending(ParseAll(Recovered(log, k))) == Pending(ParseAll(log))[k..]
    ensures WholeLength(Recovered(log, k)) == |Recovered(log, k)|
  {
    hide ParseEntry, Outstanding, UniqueIntents, Track, Confirmations, Serialize;
    var es := ParseAll(log);
    PendingIsOutstanding(es);
    var p := Outstanding(es);
    var cs := Confirmations(p[..k]);
    ConfirmationsFit(p[..k]);
    TruncatedReads(log, SerializeAll(cs));
    ParseAppended(cs, []);
    assert SerializeAll(cs) + [] == SerializeAll(cs);
    NothingToParse();
    assert cs + [] == cs;
    ConfirmedPrefix(es, k);
    ConfirmationsKeepUnique(es, p[..k]);
    PendingIsOutstanding(es + cs);
  }

  lemma NothingToParse()
    ensures ParseAll([]) == [] && WholeLength([]) == 0
  {
  }
}
