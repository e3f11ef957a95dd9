/**
 * The framing of events in a stream: a fixed 48-byte header, then a body of the length the header
 * announces. What JSON and DEFLATE make of a body is left to a codec.
 */
module EventStream {
  import opened Wrappers
  import opened Bytes

  type Stamp = s: seq<byte> | |s| == 15 witness seq(15, _ => 0 as byte)

  datatype EventHeader = EventHeader(
    eventType: int, timestamp: Stamp, version: int, aggregateId: Id,
    sequenceNumber: nat, length: int, useCompression: bool)

  const EVENT_HEADER_LENGTH := 48

  /** The low bytes of a possibly negative int, in two's complement. */
  function Truncated(n: nat, x: int): nat
  {
    x % Range(n)
  }

  function MarshalHeader(h: EventHeader): (s: seq<byte>)
    ensures |s| == EVENT_HEADER_LENGTH
  {
    h.aggregateId + LE(8, h.sequenceNumber) + LE(4, Truncated(4, h.length)) +
    LE(2, Truncated(2, h.eventType)) + LE(2, Truncated(2, h.version)) +
    h.timestamp + [if h.useCompression then 1 else 0]
  }

  function UnmarshalHeader(s: seq<byte>): EventHeader
    requires |s| == EVENT_HEADER_LENGTH
  {
    EventHeader(FromLE(s[28..30]), s[32..47], FromLE(s[30..32]), s[..16],
                FromLE(s[16..24]), FromLE(s[24..28]), s[47] != 0)
  }

  /** Every field fits its slot. */
  predicate InRange(h: EventHeader)
  {
    && 0 <= h.eventType < 0x1_0000 && 0 <= h.version < 0x1_0000
    && 0 <= h.length < 0x1_0000_0000 && h.sequenceNumber < 0x1_0000_0000_0000_0000
  }

  lemma MarshalFields(h: EventHeader)
    ensures var s := MarshalHeader(h);
      && s[..16] == h.aggregateId && s[16..24] == LE(8, h.sequenceNumber)
      && s[24..28] == LE(4, Truncated(4, h.length)) && s[28..30] == LE(2, Truncated(2, h.eventType))
      && s[30..32] == LE(2, Truncated(2, h.version)) && s[32..47] == h.timestamp
      && s[47] == if h.useCompression then 1 else 0
  {
  }

  lemma SmallModulo(x: int, r: nat)
    requires 0 <= x < r
    ensures x % r == x
  {
  }

  lemma FieldRoundTrip(n: nat, x: int)
    ensures FromLE(LE(n, Truncated(n, x))) == x <==> 0 <= x < Range(n)
  {
    hide LE, FromLE, Range;
    LERoundTrip(n, Truncated(n, x));
    if 0 <= x < Range(n) {
      SmallModulo(x, Range(n));
    }
  }

  /** A header survives the 48 bytes exactly when every field fits its slot. */
  lemma HeaderRoundTrip(h: EventHeader)
    ensures UnmarshalHeader(MarshalHeader(h)) == h <==> InRange(h)
  {
    hide LE, FromLE, Range, Truncated, MarshalHeader;
    MarshalFields(h);
    LERoundTrip(8, h.sequenceNumber);
    FieldRoundTrip(4, h.length);
    FieldRoundTrip(2, h.eventType);
    FieldRoundTrip(2, h.version);
    Ranges();
  }

  // ---------- events ----------

  datatype Event<B> = Event(
    eventType: int, timestamp: Stamp, version: int, aggregateId: Id, sequenceNumber: nat, body: B)

  /**
   * JSON encoding and decoding by event type, which bodies are of a type, DEFLATE, and which bytes
   * are those of a time.
   */
  datatype Codec<!B> = Codec(
    encode: (int, B) -> seq<byte>, decode: (int, seq<byte>) -> Option<B>, isOf: (int, B) -> bool,
    deflate: seq<byte> -> seq<byte>, inflate: seq<byte> -> Option<seq<byte>>,
    isTime: seq<byte> -> bool)

  /**
   * A body is read back under its own type. Under whatever type bytes are read, what comes of them
   * is of that type, so a body filed under another type than its own does not come back.
   */
  ghost predicate Invertible<B(!new)>(c: Codec<B>)
  {
    && (forall t, b :: c.isOf(t, b) ==> c.decode(t, c.encode(t, b)) == Some(b))
    && (forall t, s :: c.decode(t, s).Some? ==> c.isOf(t, c.decode(t, s).value))
    && forall s :: c.inflate(c.deflate(s)) == Some(s)
  }

  /** The event types the store has a form for: all of them but CombatDodge. */
  predicate Persistable(eventType: int)
  {
    0 <= eventType <= 22
  }

  function Body<B>(c: Codec<B>, e: Event<B>, compress: bool): seq<byte>
  {
    var plain := c.encode(e.eventType, e.body);
    if compress then c.deflate(plain) else plain
  }

  function HeaderFor<B>(c: Codec<B>, e: Event<B>, compress: bool): EventHeader
  {
    EventHeader(e.eventType, e.timestamp, e.version, e.aggregateId, e.sequenceNumber,
                |Body(c, e, compress)|, compress)
  }

  /** The bytes of one event, or None for a type the store does not handle. */
  function WriteEvent<B>(c: Codec<B>, e: Event<B>, compress: bool): (r: Option<seq<byte>>)
    ensures r.Some? <==> Persistable(e.eventType)
    ensures r.Some? ==> |r.value| == EVENT_HEADER_LENGTH + |Body(c, e, compress)|
  {
    if !Persistable(e.eventType) then None
    else Some(MarshalHeader(HeaderFor(c, e, compress)) + Body(c, e, compress))
  }

  /** The bytes of a list of events written one after the other, or None at the first unhandled type. */
  function WriteEvents<B>(c: Codec<B>, es: seq<Event<B>>, compress: bool): Option<seq<byte>>
  {
    if es == [] then Some([])
    else
      var first := WriteEvent(c, es[0], compress);
      var rest := WriteEvents(c, es[1..], compress);
      if first.None? || rest.None? then None else Some(first.value + rest.value)
  }

  /** The 15 bytes of the time are ones that a time can be made of. */
  predicate TimeReads<B>(c: Codec<B>, header: seq<byte>)
    requires |header| == EVENT_HEADER_LENGTH
  {
    c.isTime(header[32..47])
  }

  /**
   * Where everything is: ID, sequence number, length, type, version, time and the mark of
   * compression, each at its offset, and then the body, deflated if it is marked so.
   */
  lemma EventBytes<B>(c: Codec<B>, e: Event<B>, compress: bool)
    requires Persistable(e.eventType)
    ensures var s := WriteEvent(c, e, compress).value;
      var body := if compress then c.deflate(c.encode(e.eventType, e.body)) else c.encode(e.eventType, e.body);
      && |s| == 48 + |body| && s[48..] == body
      && s[..16] == e.aggregateId && s[16..24] == LE(8, e.sequenceNumber)
      && s[24..28] == LE(4, |body| % 0x1_0000_0000)
      && s[28..30] == LE(2, e.eventType) && s[30..32] == LE(2, e.version % 0x1_0000)
      && s[32..47] == e.timestamp && s[47] == if compress then 1 else 0
  {
    var h := HeaderFor(c, e, compress);
    MarshalFields(h);
    Ranges();
    SmallModulo(e.eventType, 0x1_0000);
    hide LE, MarshalHeader, Range;
    FirstPart(MarshalHeader(h), Body(c, e, compress));
  }

  /** What comes after a header does not matter to it. */
  lemma FirstPart(m: seq<byte>, rest: seq<byte>)
    requires |m| == 48
    ensures var s := m + rest;
      && s[..16] == m[..16] && s[16..24] == m[16..24] && s[24..28] == m[24..28] && s[28..30] == m[28..30]
      && s[30..32] == m[30..32] && s[32..47] == m[32..47] && s[47] == m[47] && s[48..] == rest
  {
  }

  datatype ReadResult<B> = EndOfStream | Failed | Read(event: Event<B>, length: nat)

  /**
   * One event off the front of s. Only an empty stream is its end; a shortfall in the header, or a
   * time that is none, is a failure, and a short body is handed to the decoder as it is.
   */
  function ReadEvent<B>(c: Codec<B>, s: seq<byte>): (r: ReadResult<B>)
    ensures r.Read? ==> EVENT_HEADER_LENGTH <= r.length <= |s|
  {
    if s == [] then EndOfStream
    else if |s| < EVENT_HEADER_LENGTH || !TimeReads(c, s[..EVENT_HEADER_LENGTH]) then Failed
    else
      var h := UnmarshalHeader(s[..EVENT_HEADER_LENGTH]);
      var end := if EVENT_HEADER_LENGTH + h.length <= |s| then EVENT_HEADER_LENGTH + h.length else |s|;
      var raw := s[EVENT_HEADER_LENGTH..end];
      var plain := if h.useCompression then c.inflate(raw) else Some(raw);
      if plain.None? || !Persistable(h.eventType) then Failed
      else
        var body := c.decode(h.eventType, plain.value);
        if body.None? then Failed
        else
          Read(Event(h.eventType, h.timestamp, h.version, h.aggregateId, h.sequenceNumber, body.value), end)
  }

  /**
   * Which bytes are an event, and what it is: for any bytes at all. A body that is cut short is
   * inflated and decoded all the same.
   */
  lemma EventRead<B>(c: Codec<B>, s: seq<byte>)
    ensures ReadEvent(c, s).EndOfStream? <==> s == []
    ensures ReadEvent(c, s).Read? ==> |s| >= 48
    ensures |s| >= 48 ==>
      var end := if 48 + FromLE(s[24..28]) <= |s| then 48 + FromLE(s[24..28]) else |s|;
      var plain := if s[47] != 0 then c.inflate(s[48..end]) else Some(s[48..end]);
      var eventType := FromLE(s[28..30]);
      && (ReadEvent(c, s).Read? <==>
            && c.isTime(s[32..47]) && plain.Some? && eventType <= 22 && c.decode(eventType, plain.value).Some?)
      && (ReadEvent(c, s).Read? ==>
            ReadEvent(c, s) == Read(Event(eventType, s[32..47], FromLE(s[30..32]), s[..16], FromLE(s[16..24]),
              c.decode(eventType, plain.value).value), end))
  {
    if |s| >= 48 {
      var h := s[..48];
      assert h[28..30] == s[28..30] && h[32..47] == s[32..47] && h[30..32] == s[30..32] && h[..16] == s[..16];
      assert h[16..24] == s[16..24] && h[24..28] == s[24..28] && h[47] == s[47];
      hide FromLE;
    }
  }

  /** What is read is of the type its header names, whatever the bytes. */
  lemma ReadIsTyped<B(!new)>(c: Codec<B>, s: seq<byte>)
    requires Invertible(c) && ReadEvent(c, s).Read?
    ensures c.isOf(ReadEvent(c, s).event.eventType, ReadEvent(c, s).event.body)
  {
  }

  /** A stream read to its end, or to the first failure. */
  datatype Stream<B> = Stream(events: seq<Event<B>>, ok: bool)

  function ReadAll<B>(c: Codec<B>, s: seq<byte>): Stream<B>
    decreases |s|
  {
    match ReadEvent(c, s)
    case EndOfStream => Stream([], true)
    case Failed => Stream([], false)
    case Read(e, n) =>
      var rest := ReadAll(c, s[n..]);
      Stream([e] + rest.events, rest.ok)
  }

  /** An event together with whether it was written compressed. */
  type Choice<B> = (Event<B>, bool)

  /** Its time is one, and every header field, length included, fits. */
  predicate Framed<B>(c: Codec<B>, x: Choice<B>)
  {
    c.isTime(x.0.timestamp) && InRange(HeaderFor(c, x.0, x.1))
  }

  /** The event can be stored: its type is handled and is that of its body, and its header fits. */
  predicate Storable<B>(c: Codec<B>, x: Choice<B>)
  {
    Persistable(x.0.eventType) && c.isOf(x.0.eventType, x.0.body) && Framed(c, x)
  }

  predicate AllStorable<B>(c: Codec<B>, xs: seq<Choice<B>>)
  {
    forall i :: 0 <= i < |xs| ==> Storable(c, xs[i])
  }

  predicate AllFramed<B>(c: Codec<B>, xs: seq<Choice<B>>)
  {
    forall i :: 0 <= i < |xs| ==> Framed(c, xs[i])
  }

  function WriteAll<B>(c: Codec<B>, xs: seq<Choice<B>>): seq<byte>
    requires AllStorable(c, xs)
  {
    if xs == [] then [] else WriteEvent(c, xs[0].0, xs[0].1).value + WriteAll(c, xs[1..])
  }

  lemma {:induction false} WriteAllSnoc<B>(c: Codec<B>, xs: seq<Choice<B>>, x: Choice<B>)
    requires AllStorable(c, xs) && Storable(c, x)
    ensures AllStorable(c, xs + [x])
    ensures WriteAll(c, xs + [x]) == WriteAll(c, xs) + WriteEvent(c, x.0, x.1).value
  {
    hide WriteEvent, Framed;
    if xs == [] {
      assert [] + [x] == [x] && [x][1..] == [];
    } else {
      WriteAllSnoc(c, xs[1..], x);
      assert (xs + [x])[1..] == xs[1..] + [x];
    }
  }

  function Events<B>(xs: seq<Choice<B>>): (es: seq<Event<B>>)
    ensures |es| == |xs|
  {
    if xs == [] then [] else [xs[0].0] + Events(xs[1..])
  }

  /** Events that are all written the same way. */
  function Chosen<B>(es: seq<Event<B>>, compress: bool): (xs: seq<Choice<B>>)
    ensures |xs| == |es| && Events(xs) == es
  {
    if es == [] then [] else [(es[0], compress)] + Chosen(es[1..], compress)
  }

  lemma {:induction false} ChosenAt<B>(es: seq<Event<B>>, compress: bool, i: nat)
    requires i < |es|
    ensures Chosen(es, compress)[i] == (es[i], compress)
  {
    if i > 0 {
      ChosenAt(es[1..], compress, i - 1);
    }
  }

  lemma {:induction false} WrittenIsAll<B>(c: Codec<B>, es: seq<Event<B>>, compress: bool)
    requires forall e :: e in es ==> Persistable(e.eventType)
    ensures WriteEvents(c, es, compress).Some?
    ensures AllStorable(c, Chosen(es, compress)) ==>
      WriteEvents(c, es, compress).value == WriteAll(c, Chosen(es, compress))
  {
    hide WriteEvent, InRange, HeaderFor;
    if es != [] {
      WrittenIsAll(c, es[1..], compress);
      var xs := Chosen(es, compress);
      assert xs[1..] == Chosen(es[1..], compress);
      assert AllStorable(c, xs) ==> AllStorable(c, xs[1..]) by {
        assert forall i :: 0 <= i < |xs| - 1 ==> xs[1..][i] == xs[i + 1];
      }
    }
  }

  /** A written event reads back from the front of any bytes, compressed or not. */
  lemma EventRoundTrip<B(!new)>(c: Codec<B>, x: Choice<B>, rest: seq<byte>)
    requires Invertible(c) && Storable(c, x)
    ensures ReadEvent(c, WriteEvent(c, x.0, x.1).value + rest) == Read(x.0, |WriteEvent(c, x.0, x.1).value|)
  {
    var h := HeaderFor(c, x.0, x.1);
    HeaderRoundTrip(h);
    MarshalFields(h);
    var s := WriteEvent(c, x.0, x.1).value + rest;
    assert s[..EVENT_HEADER_LENGTH] == MarshalHeader(h);
    assert s[EVENT_HEADER_LENGTH..EVENT_HEADER_LENGTH + h.length] == Body(c, x.0, x.1);
  }

  /** With a header that fits, an event comes back exactly when the type in it is that of its body. */
  lemma RoundTripExactly<B(!new)>(c: Codec<B>, x: Choice<B>, rest: seq<byte>)
    requires Invertible(c) && Persistable(x.0.eventType) && Framed(c, x)
    ensures ReadEvent(c, WriteEvent(c, x.0, x.1).value + rest) == Read(x.0, |WriteEvent(c, x.0, x.1).value|)
            <==> c.isOf(x.0.eventType, x.0.body)
  {
    hide ReadEvent, WriteEvent, Framed;
    var s := WriteEvent(c, x.0, x.1).value + rest;
    if c.isOf(x.0.eventType, x.0.body) {
      EventRoundTrip(c, x, rest);
    } else if ReadEvent(c, s).Read? {
      ReadIsTyped(c, s);
    }
  }

  /** Whatever follows whole events is read after them. */
  lemma {:induction false} ReadAppended<B(!new)>(c: Codec<B>, xs: seq<Choice<B>>, rest: seq<byte>)
    requires Invertible(c) && AllStorable(c, xs)
    ensures ReadAll(c, WriteAll(c, xs) + rest) == Stream(Events(xs) + ReadAll(c, rest).events, ReadAll(c, rest).ok)
  {
    hide ReadEvent, WriteEvent, Invertible, InRange, HeaderFor;
    var s := WriteAll(c, xs) + rest;
    if xs == [] {
      assert s == rest;
    } else {
      var tail := WriteAll(c, xs[1..]) + rest;
      assert s == WriteEvent(c, xs[0].0, xs[0].1).value + tail;
      hide WriteAll, Storable;
      ReadOneMore(c, xs[0], tail);
      hide ReadAll;
      ReadAppended(c, xs[1..], rest);
      var more := ReadAll(c, rest).events;
      assert [xs[0].0] + (Events(xs[1..]) + more) == ([xs[0].0] + Events(xs[1..])) + more;
    }
  }

  lemma ReadOneMore<B(!new)>(c: Codec<B>, x: Choice<B>, tail: seq<byte>)
    requires Invertible(c) && Storable(c, x)
    ensures var rest := ReadAll(c, tail);
      ReadAll(c, WriteEvent(c, x.0, x.1).value + tail) == Stream([x.0] + rest.events, rest.ok)
  {
    var first := WriteEvent(c, x.0, x.1).value;
    hide ReadEvent, WriteEvent, Invertible, Storable;
    EventRoundTrip(c, x, tail);
    assert (first + tail)[|first|..] == tail;
  }

  /** Written events read back in order, with the end of the stream exactly at the end. */
  lemma StreamRoundTrip<B(!new)>(c: Codec<B>, xs: seq<Choice<B>>)
    requires Invertible(c) && AllStorable(c, xs)
    ensures ReadAll(c, WriteAll(c, xs)) == Stream(Events(xs), true)
  {
    ReadAppended(c, xs, []);
    assert WriteAll(c, xs) + [] == WriteAll(c, xs);
  }

  /** The codec refuses a body that was cut short, as JSON objects and DEFLATE streams do. */
  ghost predicate RejectsPrefixes<B(!new)>(c: Codec<B>)
  {
    && (forall t, b, k :: c.isOf(t, b) && 0 <= k < |c.encode(t, b)| ==> c.decode(t, c.encode(t, b)[..k]) == None)
    && forall s, k :: 0 <= k < |c.deflate(s)| ==> c.inflate(c.deflate(s)[..k]) == None
  }

  /**
   * Unlike the intent log, a stream cut inside an event is not repaired: the whole events are
   * read and then the cut is reported as a failure, never as the end of the stream.
   */
  lemma TornEventFails<B(!new)>(c: Codec<B>, xs: seq<Choice<B>>, x: Choice<B>, k: nat)
    requires Invertible(c) && RejectsPrefixes(c) && AllStorable(c, xs) && Storable(c, x)
    requires 0 < k < |WriteEvent(c, x.0, x.1).value|
    ensures ReadAll(c, WriteAll(c, xs) + WriteEvent(c, x.0, x.1).value[..k]) == Stream(Events(xs), false)
  {
    var torn := WriteEvent(c, x.0, x.1).value[..k];
    ReadAppended(c, xs, torn);
    if k >= EVENT_HEADER_LENGTH {
      var h := HeaderFor(c, x.0, x.1);
      HeaderRoundTrip(h);
      MarshalFields(h);
      assert torn == MarshalHeader(h) + Body(c, x.0, x.1)[..k - EVENT_HEADER_LENGTH];
      assert torn[..EVENT_HEADER_LENGTH] == MarshalHeader(h);
      var plain := c.encode(x.0.eventType, x.0.body);
      assert torn[EVENT_HEADER_LENGTH..|torn|] == Body(c, x.0, x.1)[..k - EVENT_HEADER_LENGTH];
      assert x.1 ==> c.inflate(c.deflate(plain)[..k - EVENT_HEADER_LENGTH]) == None;
      assert !x.1 ==> c.decode(x.0.eventType, plain[..k - EVENT_HEADER_LENGTH]) == None;
    }
    assert ReadEvent(c, torn) == Failed;
    assert Events(xs) + [] == Events(xs);
  }
}
