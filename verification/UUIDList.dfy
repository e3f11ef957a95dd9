/** Lists of IDs, as the intent log's recovery and the lists of a zone use them. */
module UUIDLists {
  import opened Bytes

  /** The list without the first occurrence of id. */
  function Remove(ids: seq<Id>, id: Id): (r: seq<Id>)
    ensures id !in ids ==> r == ids
    ensures id in ids ==> |r| == |ids| - 1
  {
    if ids == [] then []
    else if ids[0] == id then ids[1..]
    else [ids[0]] + Remove(ids[1..], id)
  }

  lemma {:induction false} RemoveAt(ids: seq<Id>, k: nat)
    requires k < |ids| && ids[k] !in ids[..k]
    ensures Remove(ids, ids[k]) == ids[..k] + ids[k + 1..]
  {
    if k == 0 {
      assert ids[..0] == [];
    } else {
      assert ids[..k] == [ids[0]] + ids[1..][..k - 1];
      assert ids[..k][0] == ids[0];
      RemoveAt(ids[1..], k - 1);
      assert ids[1..][k - 1] == ids[k] && ids[1..][k..] == ids[k + 1..];
      assert [ids[0]] + (ids[1..][..k - 1] + ids[k + 1..]) == ids[..k] + ids[k + 1..];
    }
  }

  method IndexOf(ids: seq<Id>, id: Id) returns (idx: int)
    ensures -1 <= idx < |ids|
    ensures idx == -1 ==> id !in ids
    ensures idx >= 0 ==> ids[idx] == id && id !in ids[..idx]
  {
    for i := 0 to |ids|
      invariant id !in ids[..i]
    {
      if id == ids[i] {
        return i;
      }
    }
    return -1;
  }

  method RemoveId(ids: seq<Id>, id: Id) returns (r: seq<Id>)
    ensures r == Remove(ids, id)
  {
    var idx := IndexOf(ids, id);
    if idx == -1 {
      return ids;
    }
    RemoveAt(ids, idx);
    return ids[..idx] + ids[idx + 1..];
  }

  /** Remove as it is done in the slice's own array: what follows the ID moves down over it. */
  method RemoveInPlace(ids: array<Id>, n: nat, id: Id) returns (m: nat)
    requires n <= ids.Length
    modifies ids
    ensures m <= n && ids[..m] == Remove(old(ids[..n]), id)
    ensures ids[n..] == old(ids[n..])
  {
    ghost var was := ids[..n];
    var idx := IndexOf(ids[..n], id);
    if idx == -1 {
      return n;
    }
    RemoveAt(was, idx);
    for i := idx to n - 1
      invariant ids[..idx] == was[..idx] && ids[n..] == old(ids[n..])
      invariant forall j :: idx <= j < i ==> ids[j] == was[j + 1]
      invariant forall j :: i < j < n ==> ids[j] == was[j]
    {
      ids[i] := ids[i + 1];
    }
    m := n - 1;
    assert ids[..m] == was[..idx] + was[idx + 1..];
  }
}
