/**
 * The byte format of the change-intent log, and what reading it back means: a header of 32 bytes
 * per entry, then the redo and undo contents. A trailing incomplete entry reads as end of file.
 */
module IntentLog {
  import opened Bytes

  datatype LogEntry = LogEntry(id: Id, completed: bool, redo: seq<byte>, undo: seq<byte>)

  const HEADER_LENGTH := 32

  const PADDING: seq<byte> := [0, 0, 0, 0, 0, 0, 0]

  function Header(e: LogEntry): (h: seq<byte>)
    ensures |h| == HEADER_LENGTH
  {
    e.id + LE(4, |e.redo|) + LE(4, |e.undo|) + [if e.completed then 1 else 0] + PADDING
  }

  function Serialize(e: LogEntry): (s: seq<byte>)
    ensures |s| == HEADER_LENGTH + |e.redo| + |e.undo|
  {
    Header(e) + e.redo + e.undo
  }

  function SerializeAll(es: seq<LogEntry>): seq<byte>
  {
    if es == [] then [] else Serialize(es[0]) + SerializeAll(es[1..])
  }

  /** Both lengths fit the header's 32-bit fields. */
  predicate Fits(e: LogEntry)
  {
    |e.redo| < 0x1_0000_0000 && |e.undo| < 0x1_0000_0000
  }

  predicate AllFit(es: seq<LogEntry>)
  {
    forall i :: 0 <= i < |es| ==> Fits(es[i])
  }

  // ---------- reading ----------

  datatype ParseResult = Eof | Parsed(entry: LogEntry, length: nat)

  function RedoLength(s: seq<byte>): nat
    requires |s| >= HEADER_LENGTH
  {
    FromLE(s[16..20])
  }

  function UndoLength(s: seq<byte>): nat
    requires |s| >= HEADER_LENGTH
  {
    FromLE(s[20..24])
  }

  /** One entry off the front of s; any shortfall, in header or contents, is end of file. */
  function ParseEntry(s: seq<byte>): (r: ParseResult)
    ensures r.Parsed? ==> HEADER_LENGTH <= r.length <= |s|
  {
    if |s| < HEADER_LENGTH then Eof
    else
      var r, u := RedoLength(s), UndoLength(s);
      if |s| < HEADER_LENGTH + r + u then Eof
      else
        Parsed(
          LogEntry(s[..16], s[24] == 1, s[HEADER_LENGTH..HEADER_LENGTH + r],
                   s[HEADER_LENGTH + r..HEADER_LENGTH + r + u]),
          HEADER_LENGTH + r + u)
  }

  /** Which bytes are an entry, and what it is: for any bytes at all. */
  lemma EntryRead(s: seq<byte>)
    ensures ParseEntry(s).Parsed? <==> |s| >= 32 && |s| >= 32 + FromLE(s[16..20]) + FromLE(s[20..24])
    ensures ParseEntry(s).Parsed? ==>
      var redoEnd := 32 + FromLE(s[16..20]);
      var end := redoEnd + FromLE(s[20..24]);
      && ParseEntry(s).length == end
      && ParseEntry(s).entry == LogEntry(s[..16], s[24] == 1, s[32..redoEnd], s[redoEnd..end])
  {
  }

  /** The entries at the front of s, as many as are whole. */
  function ParseAll(s: seq<byte>): seq<LogEntry>
  {
    var r := ParseEntry(s);
    if r.Eof? then [] else [r.entry] + ParseAll(s[r.length..])
  }

  /** How many bytes those entries take: where the log is truncated. */
  function WholeLength(s: seq<byte>): (n: nat)
    ensures n <= |s|
  {
    var r := ParseEntry(s);
    if r.Eof? then 0 else r.length + WholeLength(s[r.length..])
  }

  // ---------- one entry ----------

  lemma HeaderFields(e: LogEntry, tail: seq<byte>)
    ensures var s := Header(e) + tail;
      && s[..16] == e.id && s[16..20] == LE(4, |e.redo|) && s[20..24] == LE(4, |e.undo|)
      && s[24] == if e.completed then 1 else 0
  {
  }

  /** Where everything is: ID, both lengths, the mark of completion, zeros, the redo and then the undo contents. */
  lemma EntryBytes(e: LogEntry)
    ensures var s := Serialize(e);
      && |s| == 32 + |e.redo| + |e.undo|
      && s[..16] == e.id && s[16..20] == LE(4, |e.redo|) && s[20..24] == LE(4, |e.undo|)
      && s[24] == (if e.completed then 1 else 0) && s[25..32] == [0, 0, 0, 0, 0, 0, 0]
      && s[32..32 + |e.redo|] == e.redo && s[32 + |e.redo|..] == e.undo
  {
    hide LE;
    HeaderFields(e, e.redo + e.undo);
    assert Serialize(e) == Header(e) + (e.redo + e.undo);
    assert Header(e)[25..32] == PADDING;
  }

  /** A written entry reads back from the front of any bytes. */
  lemma EntryRoundTrip(e: LogEntry, rest: seq<byte>)
    requires Fits(e)
    ensures ParseEntry(Serialize(e) + rest) == Parsed(e, |Serialize(e)|)
  {
    var s := Serialize(e) + rest;
    assert s == Header(e) + (e.redo + e.undo + rest);
    HeaderFields(e, e.redo + e.undo + rest);
    LERoundTrip(4, |e.redo|);
    LERoundTrip(4, |e.undo|);
    Ranges();
  }

  /** Contents of 4 GiB or more overflow their length field: exactly then an entry is not read back. */
  lemma EntryRoundTripExactly(e: LogEntry)
    ensures ParseEntry(Serialize(e)) == Parsed(e, |Serialize(e)|) <==> Fits(e)
  {
    var s := Serialize(e);
    assert s == Header(e) + (e.redo + e.undo);
    HeaderFields(e, e.redo + e.undo);
    LERoundTrip(4, |e.redo|);
    LERoundTrip(4, |e.undo|);
    Ranges();
    if Fits(e) {
      EntryRoundTrip(e, []);
      assert s + [] == s;
    } else if ParseEntry(s).Parsed? {
      assert |ParseEntry(s).entry.redo| == RedoLength(s) && |ParseEntry(s).entry.undo| == UndoLength(s);
    }
  }

  /** Cut anywhere short of its end, an entry reads as end of file. */
  lemma CutEntry(e: LogEntry, k: nat)
    requires Fits(e) && k < |Serialize(e)|
    ensures ParseEntry(Serialize(e)[..k]) == Eof
  {
    if k >= HEADER_LENGTH {
      var s := Serialize(e)[..k];
      assert s == Header(e) + (e.redo + e.undo)[..k - HEADER_LENGTH];
      HeaderFields(e, (e.redo + e.undo)[..k - HEADER_LENGTH]);
      LERoundTrip(4, |e.redo|);
      LERoundTrip(4, |e.undo|);
      Ranges();
    }
  }

  // ---------- whole logs ----------

  /** Whatever follows whole entries is read after them. */
  lemma {:induction false} ParseAppended(es: seq<LogEntry>, rest: seq<byte>)
    requires AllFit(es)
    ensures ParseAll(SerializeAll(es) + rest) == es + ParseAll(rest)
    ensures WholeLength(SerializeAll(es) + rest) == |SerializeAll(es)| + WholeLength(rest)
  {
    hide ParseAll, WholeLength, Serialize;
    if es == [] {
      assert SerializeAll(es) + rest == rest;
    } else {
      var tail := SerializeAll(es[1..]) + rest;
      assert SerializeAll(es) + rest == Serialize(es[0]) + tail;
      hide SerializeAll;
      ParseOneMore(es[0], tail);
      ParseAppended(es[1..], rest);
      assert [es[0]] + (es[1..] + ParseAll(rest)) == es + ParseAll(rest);
    }
  }

  lemma ParseOneMore(e: LogEntry, tail: seq<byte>)
    requires Fits(e)
    ensures ParseAll(Serialize(e) + tail) == [e] + ParseAll(tail)
    ensures WholeLength(Serialize(e) + tail) == |Serialize(e)| + WholeLength(tail)
  {
    EntryRoundTrip(e, tail);
    hide ParseEntry, Serialize;
    assert (Serialize(e) + tail)[|Serialize(e)|..] == tail;
  }

  lemma Associative(a: seq<byte>, b: seq<byte>, c: seq<byte>)
    ensures a + (b + c) == (a + b) + c
  {
  }

  lemma SerializeStep(es: seq<LogEntry>, fs: seq<LogEntry>)
    requires es != [] && SerializeAll(es[1..] + fs) == SerializeAll(es[1..]) + SerializeAll(fs)
    ensures SerializeAll(es + fs) == SerializeAll(es) + SerializeAll(fs)
  {
    hide Serialize;
    assert (es + fs)[0] == es[0] && (es + fs)[1..] == es[1..] + fs;
    Associative(Serialize(es[0]), SerializeAll(es[1..]), SerializeAll(fs));
  }

  lemma {:induction false} SerializeAppend(es: seq<LogEntry>, fs: seq<LogEntry>)
    ensures SerializeAll(es + fs) == SerializeAll(es) + SerializeAll(fs)
  {
    hide Serialize;
    if es == [] {
      assert es + fs == fs;
    } else {
      hide SerializeAll;
      SerializeAppend(es[1..], fs);
      SerializeStep(es, fs);
    }
  }

  /** The number of entries lying wholly inside the first k bytes. */
  function WholeInside(es: seq<LogEntry>, k: nat): (j: nat)
    ensures j <= |es|
  {
    if es == [] || k < |Serialize(es[0])| then 0 else 1 + WholeInside(es[1..], k - |Serialize(es[0])|)
  }

  lemma {:induction false} WholeInsideIsMost(es: seq<LogEntry>, k: nat)
    ensures var j := WholeInside(es, k);
      |SerializeAll(es[..j])| <= k && (j < |es| ==> k < |SerializeAll(es[..j + 1])|)
  {
    var j := WholeInside(es, k);
    if es != [] && k >= |Serialize(es[0])| {
      WholeInsideIsMost(es[1..], k - |Serialize(es[0])|);
      assert es[..j] == [es[0]] + es[1..][..j - 1];
      assert j < |es| ==> es[..j + 1] == [es[0]] + es[1..][..j];
    } else if es != [] {
      assert es[..1][1..] == [];
    }
  }

  /**
   * Crash safety: a log cut at any byte reads as exactly the entries wholly inside the cut, and
   * truncation keeps exactly their bytes.
   */
  lemma {:induction false} CrashAnywhere(es: seq<LogEntry>, k: nat)
    requires AllFit(es) && k <= |SerializeAll(es)|
    ensures var j := WholeInside(es, k);
      && ParseAll(SerializeAll(es)[..k]) == es[..j]
      && WholeLength(SerializeAll(es)[..k]) == |SerializeAll(es[..j])|
      && SerializeAll(es)[..k][..WholeLength(SerializeAll(es)[..k])] == SerializeAll(es[..j])
  {
    hide ParseEntry, Serialize;
    var s := SerializeAll(es)[..k];
    if es != [] {
      var n := |Serialize(es[0])|;
      if k < n {
        assert s == Serialize(es[0])[..k];
        CutEntry(es[0], k);
      } else {
        assert s == Serialize(es[0]) + SerializeAll(es[1..])[..k - n];
        ParseOneMore(es[0], SerializeAll(es[1..])[..k - n]);
        CrashAnywhere(es[1..], k - n);
        hide *;
        OneMoreInside(es, k);
        WholeInsideOneMore(es, k);
      }
    }
  }

  lemma WholeInsideOneMore(es: seq<LogEntry>, k: nat)
    requires es != [] && k >= |Serialize(es[0])|
    ensures WholeInside(es, k) == 1 + WholeInside(es[1..], k - |Serialize(es[0])|)
  {
  }

  lemma OneMoreInside(es: seq<LogEntry>, k: nat)
    requires es != [] && k >= |Serialize(es[0])|
    ensures var j := WholeInside(es, k);
      && j > 0 && es[..j] == [es[0]] + es[1..][..j - 1]
      && SerializeAll(es[..j]) == Serialize(es[0]) + SerializeAll(es[1..][..j - 1])
  {
    hide Serialize;
    var j := WholeInside(es, k);
    assert es[..j][1..] == es[1..][..j - 1];
  }

  /** After a crash at any byte and truncation, later writes are read after the surviving entries. */
  lemma WriteAfterCrash(es: seq<LogEntry>, k: nat, more: seq<LogEntry>)
    requires AllFit(es) && AllFit(more) && k <= |SerializeAll(es)|
    ensures var s := SerializeAll(es)[..k];
      ParseAll(s[..WholeLength(s)] + SerializeAll(more)) == es[..WholeInside(es, k)] + more
  {
    CrashAnywhere(es, k);
    var j := WholeInside(es, k);
    ParseAppended(es[..j], SerializeAll(more));
    ParseAppended(more, []);
    assert SerializeAll(more) + [] == SerializeAll(more);
  }

  /**
   * For any bytes at all, truncating loses no entry, what is appended afterwards is read after
   * those entries, and truncating again changes nothing.
   */
  lemma {:induction false} TruncatedReads(s: seq<byte>, rest: seq<byte>)
    ensures ParseAll(s[..WholeLength(s)] + rest) == ParseAll(s) + ParseAll(rest)
    ensures WholeLength(s[..WholeLength(s)] + rest) == WholeLength(s) + WholeLength(rest)
    decreases |s|
  {
    hide ParseEntry;
    var n := WholeLength(s);
    var t := s[..n] + rest;
    var r := ParseEntry(s);
    if r.Eof? {
      assert t == rest;
    } else {
      var s' := s[r.length..];
      TruncatedReads(s', rest);
      assert t[r.length..] == s'[..WholeLength(s')] + rest;
      assert t[..r.length] == s[..r.length];
      ParseDependsOnPrefix(s, t, r.length);
    }
  }

  lemma ParseDependsOnPrefix(s: seq<byte>, t: seq<byte>, n: nat)
    requires n <= |s| && n <= |t| && s[..n] == t[..n]
    requires ParseEntry(s).Parsed? && ParseEntry(s).length == n
    ensures ParseEntry(t) == ParseEntry(s)
  {
    SamePart(s, t, n, 0, 16);
    SamePart(s, t, n, 16, 20);
    SamePart(s, t, n, 20, 24);
    assert s[24] == s[..n][24] && t[24] == t[..n][24];
    SamePart(s, t, n, HEADER_LENGTH, HEADER_LENGTH + RedoLength(s));
    SamePart(s, t, n, HEADER_LENGTH + RedoLength(s), n);
  }

  lemma SamePart(s: seq<byte>, t: seq<byte>, n: nat, a: nat, b: nat)
    requires a <= b <= n <= |s| && n <= |t| && s[..n] == t[..n]
    ensures s[a..b] == t[a..b]
  {
    assert s[a..b] == s[..n][a..b];
    assert t[a..b] == t[..n][a..b];
  }
}
