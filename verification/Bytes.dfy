/** Bytes, UUIDs and little-endian integers as encoding/binary writes them. */
module Bytes {
  newtype byte = x: int | 0 <= x < 256

  type Id = s: seq<byte> | |s| == 16 witness [0, 0, 0, 0, 0, 0, 0, 0, 0, 0, 0, 0, 0, 0, 0, 0]

  const NIL: Id := [0, 0, 0, 0, 0, 0, 0, 0, 0, 0, 0, 0, 0, 0, 0, 0]

  /** 256 to the n: the number of values n bytes can hold. */
  function Range(n: nat): (r: nat)
    ensures r > 0
  {
    if n == 0 then 1 else 256 * Range(n - 1)
  }

  /** PutUintN: the low n bytes of x, least significant first; higher bytes are dropped. */
  function LE(n: nat, x: nat): (s: seq<byte>)
    ensures |s| == n
  {
    if n == 0 then [] else [(x % 256) as byte] + LE(n - 1, x / 256)
  }

  /** The two lowest bytes of a number come first, the lower one before the other. */
  lemma LowBytesFirst(n: nat, x: nat)
    ensures LE(2 + n, x) == [(x % 256) as byte, (x / 256 % 256) as byte] + LE(n, x / 256 / 256) && LE(0, x) == []
  {
    assert LE(1 + n, x / 256) == [(x / 256 % 256) as byte] + LE(n, x / 256 / 256);
  }

  function FromLE(s: seq<byte>): (x: nat)
  {
    if s == [] then 0 else (s[0] as int) + 256 * FromLE(s[1..])
  }

  lemma {:induction false} FromLEBound(s: seq<byte>)
    ensures FromLE(s) < Range(|s|)
  {
    if s != [] {
      FromLEBound(s[1..]);
    }
  }

  /** Writing keeps a number exactly when it fits; otherwise it is reduced modulo the range. */
  lemma {:induction false} LERoundTrip(n: nat, x: nat)
    ensures x < Range(n) ==> FromLE(LE(n, x)) == x
    ensures FromLE(LE(n, x)) < Range(n)
  {
    FromLEBound(LE(n, x));
    if n > 0 {
      LERoundTrip(n - 1, x / 256);
      assert LE(n, x)[1..] == LE(n - 1, x / 256);
    }
  }

  lemma Ranges()
    ensures Range(2) == 0x1_0000 && Range(4) == 0x1_0000_0000 && Range(8) == 0x1_0000_0000_0000_0000
  {
    assert Range(3) == 0x100_0000;
    assert Range(4) == 0x1_0000_0000;
    assert Range(6) == 0x1_0000_0000_0000;
  }
}
