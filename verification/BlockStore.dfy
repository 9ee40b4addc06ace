/** One in-memory tier (cache_server/src/block_store.cpp). */
module BlockStore {
  import opened Types
  import opened Collections
  import opened Sizes
  import opened TieredModel

  class BlockStore {
    const tier: Tier
    const capacityBytes: nat
    var blocks: map<BlockId, KvBlock>
    var usedBytes: nat

    ghost function Model(): Blocks
      reads this
    {
      map id | id in blocks :: blocks[id].data
    }

    ghost predicate Valid()
      reads this
    {
      usedBytes == TotalBytes(Model()) <= capacityBytes
    }

    constructor (tier: Tier, capacityBytes: nat)
      ensures Valid() && Model() == map[] && this.tier == tier && this.capacityBytes == capacityBytes
    {
      this.tier, this.capacityBytes := tier, capacityBytes;
      blocks, usedBytes := map[], 0;
    }

    /** Refused exactly when the block is new and would exceed the capacity; a known id is left alone. */
    method Put(block: KvBlock) returns (ok: bool)
      requires Valid()
      modifies this
      ensures Valid()
      ensures ok <==> block.id in old(Model()) || TotalBytes(old(Model())) + |block.data| <= capacityBytes
      ensures Model() == if ok && block.id !in old(Model()) then old(Model())[block.id := block.data] else old(Model())
    {
      if block.id in blocks {
        return true;
      }
      if usedBytes + |block.data| > capacityBytes {
        return false;
      }
      TotalWith(Model(), block.id, block.data);
      blocks := blocks[block.id := block.(tier := tier)];
      usedBytes := usedBytes + |block.data|;
      assert Model() == old(Model())[block.id := block.data];
      ok := true;
    }

    method Get(id: BlockId) returns (data: Option<Bytes>)
      requires Valid()
      ensures data == if id in Model() then Some(Model()[id]) else None
    {
      data := if id in blocks then Some(blocks[id].data) else None;
    }

    method Erase(id: BlockId) returns (freed: nat)
      requires Valid()
      modifies this
      ensures Valid() && Model() == old(Model()) - {id} && freed == SizeIn(old(Model()), id)
    {
      WithoutShrinks(Model(), id);
      if id !in blocks {
        assert Model() - {id} == Model();
        return 0;
      }
      freed := |blocks[id].data|;
      blocks := blocks - {id};
      usedBytes := usedBytes - freed;
      assert Model() == old(Model()) - {id};
    }

    /** Lists the blocks in whatever order the table yields them; the visited bit is painted later. */
    method Snapshot() returns (metas: seq<BlockMeta>)
      ensures IsSnapshot(metas, Model(), {})
    {
      var order := Enumerate(blocks.Keys);
      metas := [];
      for k := 0 to |order|
        invariant |metas| == k
        invariant forall i | 0 <= i < k :: metas[i] == BlockMeta(order[i], SizeIn(Model(), order[i]), false)
      {
        assert order[k] in order;
        metas := metas + [BlockMeta(order[k], |blocks[order[k]].data|, false)];
      }
      ListingIsSnapshot(order, metas, Model());
    }
  }
}
