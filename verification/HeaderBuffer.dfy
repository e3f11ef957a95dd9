/**
 * Headers as they are laid out in memory: fixed-size buffers filled by offset, and the writer and
 * the reader of event streams built on them.
 */
module HeaderBuffers {
  import opened Wrappers
  import opened Bytes
  import opened EventStream
  import IntentLog

  /** copy(buf[at:], s) */
  method CopyInto(buf: array<byte>, at: nat, s: seq<byte>)
    requires at + |s| <= buf.Length
    modifies buf
    ensures buf[..] == old(buf[..at]) + s + old(buf[at + |s|..])
    ensures forall i :: at + |s| <= i < buf.Length ==> buf[i] == old(buf[i])
  {
    forall i | 0 <= i < |s| {
      buf[at + i] := s[i];
    }
  }

  /** The 48 bytes of an event's header. */
  method MarshalBinary(h: EventHeader) returns (buf: array<byte>)
    ensures fresh(buf) && buf[..] == MarshalHeader(h)
  {
    buf := new byte[EVENT_HEADER_LENGTH](_ => 0);
    CopyInto(buf, 0, h.aggregateId);
    CopyInto(buf, 16, LE(8, h.sequenceNumber));
    CopyInto(buf, 24, LE(4, Truncated(4, h.length)));
    assert buf[..28] == h.aggregateId + LE(8, h.sequenceNumber) + LE(4, Truncated(4, h.length));
    CopyInto(buf, 28, LE(2, Truncated(2, h.eventType)));
    CopyInto(buf, 30, LE(2, Truncated(2, h.version)));
    CopyInto(buf, 32, h.timestamp);
    buf[47] := if h.useCompression then 1 else 0;
  }

  /** The 32 bytes of an intent log entry's header; what is not set stays zero. */
  method MarshalLogHeader(e: IntentLog.LogEntry) returns (buf: array<byte>)
    ensures fresh(buf) && buf[..] == IntentLog.Header(e)
  {
    buf := new byte[IntentLog.HEADER_LENGTH](_ => 0);
    for i := 0 to buf.Length
      invariant forall j :: 0 <= j < i ==> buf[j] == 0
    {
      buf[i] := 0;
    }
    assert forall i :: 25 <= i < buf.Length ==> buf[i] == 0;
    CopyInto(buf, 0, e.id);
    CopyInto(buf, 16, LE(4, |e.redo|));
    CopyInto(buf, 20, LE(4, |e.undo|));
    assert buf[..24] == e.id + LE(4, |e.redo|) + LE(4, |e.undo|);
    buf[24] := if e.completed then 1 else 0;
    assert buf[25..] == IntentLog.PADDING;
    assert buf[..] == buf[..24] + [buf[24]] + buf[25..];
  }

  /** A header that is filled in when its bytes have been read. */
  class HeaderRecord {
    var eventType: int
    var timestamp: Stamp
    var version: int
    var aggregateId: Id
    var sequenceNumber: nat
    var length: int
    var useCompression: bool

    constructor ()
    {
      eventType, version, sequenceNumber, length, useCompression := 0, 0, 0, 0, false;
      aggregateId := NIL;
      timestamp := [0, 0, 0, 0, 0, 0, 0, 0, 0, 0, 0, 0, 0, 0, 0];
    }

    function Value(): EventHeader
      reads this
    {
      EventHeader(eventType, timestamp, version, aggregateId, sequenceNumber, length, useCompression)
    }

    /** Up to the time, which may turn out to be none: then that and what comes after it stay as they were. */
    method UnmarshalBinary(buf: seq<byte>, isTime: seq<byte> -> bool) returns (ok: bool)
      modifies this
      ensures ok <==> |buf| == EVENT_HEADER_LENGTH && isTime(buf[32..47])
      ensures ok ==> Value() == UnmarshalHeader(buf)
      ensures !ok && |buf| == EVENT_HEADER_LENGTH ==>
        Value() == UnmarshalHeader(buf).(timestamp := old(timestamp), useCompression := old(useCompression))
      ensures |buf| != EVENT_HEADER_LENGTH ==> Value() == old(Value())
    {
      if |buf| != EVENT_HEADER_LENGTH {
        return false;
      }
      aggregateId := buf[..16];
      sequenceNumber := FromLE(buf[16..24]);
      length := FromLE(buf[24..28]);
      eventType := FromLE(buf[28..30]);
      version := FromLE(buf[30..32]);
      if !isTime(buf[32..47]) {
        return false;
      }
      timestamp := buf[32..47];
      useCompression := buf[47] != 0;
      ok := true;
    }
  }

  /** ioutil.ReadAll of a reader limited to n bytes: fewer where the bytes end. */
  function LimitedRead(bytes: seq<byte>, pos: nat, n: nat): (s: seq<byte>)
    requires pos <= |bytes|
    ensures pos + |s| <= |bytes| && s == bytes[pos..pos + |s|]
    ensures |s| == if n <= |bytes| - pos then n else |bytes| - pos
  {
    bytes[pos..if pos + n <= |bytes| then pos + n else |bytes|]
  }

  /** A file open for appending, or for reading from a position on. */
  class ByteStream {
    var bytes: seq<byte>
    var pos: nat

    constructor (bytes: seq<byte>)
      ensures this.bytes == bytes && pos == 0
    {
      this.bytes, pos := bytes, 0;
    }

    function Rest(): seq<byte>
      reads this
      requires pos <= |bytes|
    {
      bytes[pos..]
    }

    method Write(s: seq<byte>)
      modifies `bytes
      ensures bytes == old(bytes) + s
    {
      bytes := bytes + s;
    }

    method ReadUpTo(n: nat) returns (s: seq<byte>)
      requires pos <= |bytes|
      modifies `pos
      ensures s == old(Rest())[..if n <= |old(Rest())| then n else |old(Rest())|]
      ensures pos == old(pos) + |s| && pos <= |bytes|
    {
      s := LimitedRead(bytes, pos, n);
      pos := pos + |s|;
    }
  }

  /** writeEvent: the header is patched with the body's length once that is known. */
  method WriteEventTo<B>(c: Codec<B>, e: Event<B>, outStream: ByteStream, useCompression: bool) returns (ok: bool)
    modifies outStream
    ensures ok <==> Persistable(e.eventType)
    ensures outStream.bytes == old(outStream.bytes) + (if ok then WriteEvent(c, e, useCompression).value else [])
    ensures outStream.pos == old(outStream.pos)
  {
    if !Persistable(e.eventType) {
      return false;
    }
    var bodyBytes := Encoded(c, e);
    if useCompression {
      bodyBytes := Deflated(c, bodyBytes);
    }
    var header := EventHeader(e.eventType, e.timestamp, e.version, e.aggregateId, e.sequenceNumber, 0, false);
    header := header.(length := |bodyBytes|);
    header := header.(useCompression := useCompression);
    assert bodyBytes == Body(c, e, useCompression) && header == HeaderFor(c, e, useCompression);
    var headerBytes := MarshalBinary(header);
    outStream.Write(headerBytes[..]);
    outStream.Write(bodyBytes);
    ok := true;
  }

  /** readEvent: header, then body, giving up at the first thing that is not as it should be. */
  method ReadEventFrom<B>(c: Codec<B>, inStream: ByteStream) returns (r: ReadResult<B>)
    requires inStream.pos <= |inStream.bytes|
    modifies inStream`pos
    ensures r == ReadEvent(c, old(inStream.Rest()))
    ensures inStream.pos <= |inStream.bytes| && (r.Read? ==> inStream.pos == old(inStream.pos) + r.length)
  {
    ghost var s := inStream.Rest();
    var buf := inStream.ReadUpTo(EVENT_HEADER_LENGTH);
    if |buf| == 0 {
      return EndOfStream;
    }
    var hdr := new HeaderRecord();
    var filled := hdr.UnmarshalBinary(buf, c.isTime);
    if !filled {
      return Failed;
    }
    assert buf == s[..EVENT_HEADER_LENGTH] && inStream.Rest() == s[EVENT_HEADER_LENGTH..];
    ghost var rest := inStream.Rest();
    var h := hdr.Value();
    var raw := inStream.ReadUpTo(h.length);
    assert raw == s[EVENT_HEADER_LENGTH..EVENT_HEADER_LENGTH + |raw|];
    var plain := if h.useCompression then Inflated(c, raw) else Some(raw);
    if plain.None? || !Persistable(h.eventType) {
      return Failed;
    }
    var body := Decoded(c, h.eventType, plain.value);
    if body.None? {
      return Failed;
    }
    var e := Event(h.eventType, h.timestamp, h.version, h.aggregateId, h.sequenceNumber, body.value);
    r := Read(e, EVENT_HEADER_LENGTH + |raw|);
  }

  function Encoded<B>(c: Codec<B>, e: Event<B>): seq<byte>
  {
    c.encode(e.eventType, e.body)
  }

  function Deflated<B>(c: Codec<B>, s: seq<byte>): seq<byte>
  {
    c.deflate(s)
  }

  function Inflated<B>(c: Codec<B>, s: seq<byte>): Option<seq<byte>>
  {
    c.inflate(s)
  }

  function Decoded<B>(c: Codec<B>, eventType: int, s: seq<byte>): Option<B>
  {
    c.decode(eventType, s)
  }
}
