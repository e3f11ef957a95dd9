/**
 * The event store: one file of events of all zones, appended to, and a directory of snapshot
 * files. Retrieval for a zone is the newest snapshot not past the end, then the filtered tail.
 */
module EventStores {
  import opened Wrappers
  import opened Bytes
  import opened EventStream
  import opened HeaderBuffers

  const MAX_UINT64 := 0xFFFF_FFFF_FFFF_FFFF

  datatype Response<B> = Value(event: Event<B>) | Error

  /** What reading a stream sends: its events, then an error if it broke. */
  function Responses<B>(s: Stream<B>): seq<Response<B>>
    decreases |s.events|
  {
    if s.events == [] then (if s.ok then [] else [Error])
    else [Value(s.events[0])] + Responses(Stream(s.events[1..], s.ok))
  }

  /** One past a snapshot's number, as uint64 arithmetic has it. */
  function StartAfter(n: nat): nat
  {
    (n + 1) % 0x1_0000_0000_0000_0000
  }

  function Wanted<B>(e: Event<B>, zone: Id, start: nat, end: nat): bool
  {
    e.aggregateId == zone && start <= e.sequenceNumber <= end
  }

  /** The zone's part of a response list: it stops at an error or past the end. */
  function Tail<B>(rs: seq<Response<B>>, zone: Id, start: nat, end: nat): seq<Response<B>>
  {
    if rs == [] then []
    else if rs[0].Error? then [Error]
    else if rs[0].event.aggregateId != zone || rs[0].event.sequenceNumber < start then Tail(rs[1..], zone, start, end)
    else if rs[0].event.sequenceNumber > end then []
    else [rs[0]] + Tail(rs[1..], zone, start, end)
  }

  /** The directory: one file per zone and number. */
  type Directory = map<(Id, nat), seq<byte>>

  /** The newest of the zone's snapshots not past max, if there is one. */
  ghost predicate Newest(names: set<(Id, nat)>, zone: Id, max: nat, r: Option<nat>)
  {
    match r
    case None => forall k :: k in names && k.0 == zone ==> k.1 > max
    case Some(n) => (zone, n) in names && n <= max && forall k :: k in names && k.0 == zone && k.1 <= max ==> k.1 <= n
  }

  class EventStore<B> {
    const codec: Codec<B>
    const useCompression: bool
    var file: seq<byte>
    var snapshots: Directory

    constructor (codec: Codec<B>, useCompression: bool, file: seq<byte>, snapshots: Directory)
      ensures this.codec == codec && this.useCompression == useCompression
      ensures this.file == file && this.snapshots == snapshots
    {
      this.codec, this.useCompression, this.file, this.snapshots := codec, useCompression, file, snapshots;
    }

    method PersistEvent(e: Event<B>) returns (ok: bool)
      modifies `file
      ensures ok <==> Persistable(e.eventType)
      ensures file == old(file) + if ok then WriteEvent(codec, e, useCompression).value else []
    {
      var outStream := new ByteStream(file);
      ok := WriteEventTo(codec, e, outStream, useCompression);
      file := outStream.bytes;
    }

    /** Overwrites the snapshot file; an event that cannot be written leaves those before it. */
    method PersistSnapshot(zone: Id, seqNum: nat, events: seq<Event<B>>) returns (ok: bool)
      modifies `snapshots
      ensures ok <==> WriteEvents(codec, events, useCompression).Some?
      ensures (zone, seqNum) in snapshots
      ensures !ok ==> exists k :: (
        && 0 <= k < |events| && !Persistable(events[k].eventType)
        && WriteEvents(codec, events[..k], useCompression) == Some(snapshots[(zone, seqNum)]))
      ensures ok ==> snapshots == old(snapshots)[(zone, seqNum) := WriteEvents(codec, events, useCompression).value]
      ensures forall k :: k in old(snapshots) && k != (zone, seqNum) ==>
        k in snapshots && snapshots[k] == old(snapshots)[k]
    {
      hide WriteEvent;
      var name := (zone, seqNum);
      snapshots := snapshots[name := []];
      assert events[..0] == [];
      for i := 0 to |events|
        invariant WriteEvents(codec, events[..i], useCompression).Some?
        invariant snapshots == old(snapshots)[name := WriteEvents(codec, events[..i], useCompression).value]
      {
        var bytes := WriteEvent(codec, events[i], useCompression);
        WriteEventsSnoc(codec, events[..i], events[i], useCompression);
        assert events[..i + 1] == events[..i] + [events[i]];
        if bytes.None? {
          WriteEventsPrefix(codec, events, i + 1, useCompression);
          return false;
        }
        snapshots := snapshots[name := snapshots[name] + bytes.value];
      }
      assert events[..|events|] == events;
      ok := true;
    }

    /** The directory's names come in no particular order. */
    method FindPreviousSnapshot(max: nat, zone: Id) returns (r: Option<nat>)
      ensures Newest(snapshots.Keys, zone, max, r)
      ensures r.None? ==> forall k :: k in snapshots && k.0 == zone ==> k.1 > max
      ensures r.Some? ==>
        && (zone, r.value) in snapshots && r.value <= max
        && forall k :: k in snapshots && k.0 == zone && k.1 <= max ==> k.1 <= r.value
    {
      var highest := 0;
      var selected: Option<nat> := None;
      var rest := snapshots.Keys;
      while rest != {}
        invariant rest <= snapshots.Keys
        invariant Newest(snapshots.Keys - rest, zone, max, selected)
        invariant highest == if selected.Some? then selected.value else 0
        decreases rest
      {
        var name: (Id, nat) :| name in rest;
        rest := rest - {name};
        if name.0 == zone && name.1 >= highest && name.1 <= max {
          highest, selected := name.1, Some(name.1);
        }
      }
      assert snapshots.Keys - rest == snapshots.Keys;
      r := selected;
    }

    /** What retrieval answers when the given snapshot is the newest. */
    ghost function Retrieved(zone: Id, end: nat, newest: Option<nat>): seq<Response<B>>
      reads this
      requires newest.Some? ==> (zone, newest.value) in snapshots
    {
      match newest
      case None => Tail(Responses(ReadAll(codec, file)), zone, 0, end)
      case Some(n) =>
        Responses(ReadAll(codec, snapshots[(zone, n)])) +
        Tail(Responses(ReadAll(codec, file)), zone, StartAfter(n), end)
    }

    method RetrieveEventsUpToSequenceNumForZone(end: nat,
        zone: Id) returns (out: seq<Response<B>>, ghost newest: Option<nat>)
      ensures Newest(snapshots.Keys, zone, end, newest) && (newest.Some? ==> (zone, newest.value) in snapshots)
      ensures out == Retrieved(zone, end, newest)
      ensures exists r :: (
        && Newest(snapshots.Keys, zone, end, r) && (r.Some? ==> (zone, r.value) in snapshots)
        && out == Retrieved(zone, end, r))
    {
      hide ReadAll, Newest;
      var start := 0;
      var found := FindPreviousSnapshot(end, zone);
      newest := found;
      out := [];
      NewestIsThere(snapshots.Keys, zone, end, found);
      if found.Some? {
        start := StartAfter(found.value);
        out := Responses(ReadAll(codec, snapshots[(zone, found.value)]));
      }
      ghost var before := out;
      var rs := Responses(ReadAll(codec, file));
      var i := 0;
      assert rs[0..] == rs && before + [] == before;
      while i < |rs|
        invariant i <= |rs|
        invariant before + Tail(rs, zone, start, end) == out + Tail(rs[i..], zone, start, end)
      {
        assert rs[i..][1..] == rs[i + 1..];
        if rs[i].Error? {
          out := out + [Error];
          return;
        }
        var e := rs[i].event;
        if e.aggregateId != zone || e.sequenceNumber < start {
          i := i + 1;
          continue;
        }
        if e.sequenceNumber > end {
          assert out + [] == out;
          return;
        }
        out := out + [rs[i]];
        i := i + 1;
      }
      assert out + [] == out;
    }
  }

  lemma NewestIsThere(names: set<(Id, nat)>, zone: Id, max: nat, r: Option<nat>)
    requires Newest(names, zone, max, r)
    ensures r.Some? ==> (zone, r.value) in names && r.value <= max
  {
  }

  lemma {:induction false} WriteEventsSnoc<B>(c: Codec<B>, es: seq<Event<B>>, e: Event<B>, compress: bool)
    ensures var before, one := WriteEvents(c, es, compress), WriteEvent(c, e, compress);
      WriteEvents(c, es + [e], compress) ==
      if before.None? || one.None? then None else Some(before.value + one.value)
  {
    hide WriteEvent;
    if es == [] {
      assert [] + [e] == [e] && [e][1..] == [];
      var one := WriteEvent(c, e, compress);
      assert one.Some? ==> one.value + [] == one.value && [] + one.value == one.value;
    } else {
      assert (es + [e])[1..] == es[1..] + [e];
      WriteEventsSnoc(c, es[1..], e, compress);
      var first, rest, one := WriteEvent(c, es[0], compress), WriteEvents(c, es[1..], compress),
        WriteEvent(c, e, compress);
      if first.Some? && rest.Some? && one.Some? {
        assert first.value + (rest.value + one.value) == (first.value + rest.value) + one.value;
      }
    }
  }

  /** A list with an unwritable prefix cannot be written. */
  lemma {:induction false} WriteEventsPrefix<B>(c: Codec<B>, es: seq<Event<B>>, k: nat, compress: bool)
    requires k <= |es| && WriteEvents(c, es[..k], compress).None?
    ensures WriteEvents(c, es, compress).None?
  {
    hide WriteEvent;
    if k > 0 {
      assert es[..k][1..] == es[1..][..k - 1];
      if WriteEvents(c, es[1..][..k - 1], compress).None? {
        WriteEventsPrefix(c, es[1..], k - 1, compress);
      }
    }
  }

  /** What a stream sends: each of its events, and then an error unless it ended well. */
  lemma {:induction false} ResponsesAre<B>(es: seq<Event<B>>, ok: bool, i: nat)
    ensures |Responses(Stream(es, ok))| == |es| + if ok then 0 else 1
    ensures i < |es| ==> Responses(Stream(es, ok))[i] == Value(es[i])
    ensures !ok ==> Responses(Stream(es, ok))[|es|] == Error
    decreases |es|
  {
    if es != [] {
      ResponsesAre(es[1..], ok, if i > 0 then i - 1 else 0);
    }
  }

  // ---------- the tail is a filter ----------

  function Filter<B>(es: seq<Event<B>>, zone: Id, start: nat, end: nat): seq<Event<B>>
  {
    if es == [] then []
    else if Wanted(es[0], zone, start, end) then [es[0]] + Filter(es[1..], zone, start, end)
    else Filter(es[1..], zone, start, end)
  }

  /** Per zone, numbers only grow along the log. */
  ghost predicate ZoneIncreasing<B>(es: seq<Event<B>>, zone: Id)
  {
    forall i, j :: 0 <= i < j < |es| && es[i].aggregateId == zone && es[j].aggregateId == zone ==>
      es[i].sequenceNumber < es[j].sequenceNumber
  }

  lemma {:induction false} NothingWanted<B>(es: seq<Event<B>>, zone: Id, start: nat, end: nat)
    requires forall e :: e in es && e.aggregateId == zone ==> e.sequenceNumber > end
    ensures Filter(es, zone, start, end) == []
  {
    if es != [] {
      NothingWanted(es[1..], zone, start, end);
    }
  }

  /** On a log whose numbers grow, stopping at the first event past the end loses nothing. */
  lemma {:induction false} TailIsFilter<B>(es: seq<Event<B>>, zone: Id, start: nat, end: nat)
    requires ZoneIncreasing(es, zone)
    ensures Tail(Responses(Stream(es, true)), zone, start, end) == Responses(Stream(Filter(es, zone, start, end), true))
    decreases |es|
  {
    if es != [] {
      TailIsFilter(es[1..], zone, start, end);
      if es[0].aggregateId == zone && es[0].sequenceNumber > end && start <= es[0].sequenceNumber {
        forall e | e in es[1..] && e.aggregateId == zone
          ensures e.sequenceNumber > end
        {
          var j :| 0 <= j < |es| - 1 && es[1..][j] == e;
          assert es[j + 1] == e;
        }
        NothingWanted(es[1..], zone, start, end);
      }
    }
  }

  /** A log that breaks off is reported as broken after what there is of the zone, unless that went past the end. */
  lemma {:induction false} BrokenTail<B>(es: seq<Event<B>>, zone: Id, start: nat, end: nat)
    requires forall e :: e in es && e.aggregateId == zone ==> e.sequenceNumber <= end
    ensures Tail(Responses(Stream(es, false)), zone, start, end) ==
      Responses(Stream(Filter(es, zone, start, end), false))
    decreases |es|
  {
    if es != [] {
      BrokenTail(es[1..], zone, start, end);
    }
  }
}
