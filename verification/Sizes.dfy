/** Total payload size of a set of stored blocks. */
module Sizes {
  import opened Types

  ghost function TotalBytes(m: map<BlockId, Bytes>): nat
  {
    if m == map[] then 0 else
      assert m.Keys != {};
      var id :| id in m;
      |m[id]| + TotalBytes(m - {id})
  }

  lemma {:induction false} TotalWithout(m: map<BlockId, Bytes>, id: BlockId)
    requires id in m
    ensures TotalBytes(m) == |m[id]| + TotalBytes(m - {id})
    decreases |m|
  {
    assert m.Keys != {};
    var pick :| pick in m && TotalBytes(m) == |m[pick]| + TotalBytes(m - {pick});
    if pick != id {
      TotalWithout(m - {pick}, id);
      assert m - {pick} - {id} == m - {id} - {pick};
      TotalWithout(m - {id}, pick);
    }
  }

  lemma TotalWith(m: map<BlockId, Bytes>, id: BlockId, data: Bytes)
    requires id !in m
    ensures TotalBytes(m[id := data]) == TotalBytes(m) + |data|
  {
    TotalWithout(m[id := data], id);
    assert m[id := data] - {id} == m;
  }
}
