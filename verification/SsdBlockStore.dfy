/** The slot allocator over the mapped file (cache_server/src/ssd_block_store.cpp). */
module SsdBlockStore {
  import opened Types
  import opened Collections
  import opened Sizes
  import opened SsdImage
  import opened TieredModel

  /** The index names exactly the live slots, each under its own id. */
  ghost predicate Indexed(image: Image, index: map<BlockId, nat>)
  {
    && (forall id | id in index :: index[id] < |image| && Live(image[index[id]]) && IdOf(image[index[id]]) == id)
    && (forall n | 0 <= n < |image| && Live(image[n]) :: IdOf(image[n]) in index && index[IdOf(image[n])] == n)
  }

  /** The free list names exactly the other slots, each once. */
  ghost predicate FreeList(image: Image, free: seq<nat>)
  {
    && (forall i, j | 0 <= i < j < |free| :: free[i] != free[j])
    && (forall n | n in free :: n < |image| && !Live(image[n]))
    && (forall n | 0 <= n < |image| && !Live(image[n]) :: n in free)
  }

  /** Indexed and free slots partition the file. */
  ghost predicate Consistent(image: Image, index: map<BlockId, nat>, free: seq<nat>)
  {
    && Indexed(image, index)
    && FreeList(image, free)
    && |index| + |free| == |image|
  }

  /** The block found under an id. */
  function Stored(image: Image, index: map<BlockId, nat>, id: BlockId): Option<KvBlock>
  {
    if id in index && index[id] < |image| && Live(image[index[id]]) then Some(BlockOf(image[index[id]])) else None
  }

  ghost predicate Shaped(image: Image, payloadBytes: nat)
  {
    forall i | 0 <= i < |image| :: |image[i].payload| == payloadBytes
  }

  lemma IndexedContents(image: Image, index: map<BlockId, nat>)
    requires Indexed(image, index)
    ensures DistinctIds(image)
    ensures index.Keys == Contents(image).Keys && |index| == |Contents(image)|
    ensures forall id | id in index :: Contents(image)[id] == DataOf(image[index[id]])
  {
    ScanFinds(image, |image|);
    assert index.Keys == Contents(image).Keys;
    assert |index.Keys| == |index| && |Contents(image).Keys| == |Contents(image)|;
  }

  /** The byte counter is the total size of the stored blocks. */
  lemma {:induction false} ScanBytes(image: Image, n: nat)
    requires n <= |image| && DistinctIds(image)
    ensures TotalBytes(Scan(image, n)) == LiveBytes(image[..n])
  {
    if n > 0 {
      ScanBytes(image, n - 1);
      ScanFinds(image, n - 1);
      assert image[..n][..n - 1] == image[..n - 1];
      if Live(image[n - 1]) {
        TotalWith(Scan(image, n - 1), IdOf(image[n - 1]), DataOf(image[n - 1]));
      }
    }
  }

  lemma {:induction false} LiveBytesBound(image: Image, payloadBytes: nat)
    requires Shaped(image, payloadBytes)
    ensures LiveBytes(image) <= |image| * payloadBytes
  {
    if image != [] {
      LiveBytesBound(image[..|image| - 1], payloadBytes);
      assert (|image| - 1) * payloadBytes + payloadBytes == |image| * payloadBytes;
    }
  }

  class SsdBlockStore {
    const slotPayloadBytes: nat
    const totalSlots: nat
    const slots: array<Slot>
    var index: map<BlockId, nat>
    var freeSlots: seq<nat>
    var bumpNext: nat
    var usedBytes: nat

    ghost predicate Valid()
      reads this, slots
    {
      && slots.Length == totalSlots
      && Shaped(slots[..], slotPayloadBytes)
      && Consistent(slots[..], index, freeSlots)
      && bumpNext == totalSlots
      && usedBytes == LiveBytes(slots[..])
    }

    /** The stored blocks. */
    ghost function Model(): map<BlockId, Bytes>
      reads slots
    {
      Contents(slots[..])
    }

    lemma ModelFacts()
      requires Valid()
      ensures index.Keys == Model().Keys && |Model()| + |freeSlots| == totalSlots
      ensures forall n | n in freeSlots :: n < totalSlots
      ensures forall id | id in index :: index[id] < totalSlots && |Model()[id]| == slots[index[id]].payloadSize
      ensures usedBytes == TotalBytes(Model()) <= totalSlots * slotPayloadBytes
    {
      IndexedContents(slots[..], index);
      ScanBytes(slots[..], |slots[..]|);
      assert slots[..][..|slots[..]|] == slots[..];
      LiveBytesBound(slots[..], slotPayloadBytes);
    }

    /** Opening a file: one scan of every slot header. */
    constructor (file: array<Slot>, slotPayloadBytes: nat)
      requires Shaped(file[..], slotPayloadBytes)
      ensures slots == file && this.slotPayloadBytes == slotPayloadBytes && totalSlots == file.Length
      ensures index.Keys == Contents(file[..]).Keys && usedBytes == LiveBytes(file[..])
      ensures DistinctIds(file[..]) ==> Valid()
    {
      this.slotPayloadBytes, totalSlots, slots := slotPayloadBytes, file.Length, file;
      index, freeSlots, bumpNext, usedBytes := map[], [], 0, 0;
      new;
      RebuildIndex();
    }

    method RebuildIndex()
      requires slots.Length == totalSlots && index == map[] && freeSlots == []
      requires Shaped(slots[..], slotPayloadBytes)
      modifies this
      ensures index.Keys == Contents(slots[..]).Keys && usedBytes == LiveBytes(slots[..])
      ensures DistinctIds(slots[..]) ==> Valid()
    {
      hide Scanned, Shaped, Live, Scan, LiveBytes, Consistent, DistinctIds;
      var liveBytes: nat := 0;
      ghost var image := slots[..];
      ScannedNothing(image);
      for n := 0 to totalSlots
        invariant Scanned(image, n, index, freeSlots, liveBytes)
      {
        ScannedOne(image, n, index, freeSlots, liveBytes);
        LiveHeader(image, slotPayloadBytes, n);
        if slots[n].magic != MAGIC_LIVE {
          freeSlots := freeSlots + [n];
        } else if slots[n].payloadSize > slotPayloadBytes {
          freeSlots := freeSlots + [n];
        } else {
          if IdOf(slots[n]) !in index {
            index := index[IdOf(slots[n]) := n];
          }
          liveBytes := liveBytes + slots[n].payloadSize;
        }
      }
      ScannedAll(image, index, freeSlots, liveBytes);
      usedBytes := liveBytes;
      bumpNext := totalSlots;
    }

    method AllocSlot() returns (slot: Option<nat>)
      modifies this`freeSlots, this`bumpNext
      ensures old(freeSlots) != [] ==>
                && slot == Some(old(freeSlots)[|old(freeSlots)| - 1])
                && freeSlots == old(freeSlots)[..|old(freeSlots)| - 1] && bumpNext == old(bumpNext)
      ensures old(freeSlots) == [] ==>
                && freeSlots == []
                && (if old(bumpNext) < totalSlots then slot == Some(old(bumpNext)) && bumpNext == old(bumpNext) + 1
                    else slot == None && bumpNext == old(bumpNext))
    {
      if freeSlots != [] {
        slot := Some(freeSlots[|freeSlots| - 1]);
        freeSlots := freeSlots[..|freeSlots| - 1];
      } else if bumpNext < totalSlots {
        slot := Some(bumpNext);
        bumpNext := bumpNext + 1;
      } else {
        slot := None;
      }
    }

    /** The stores of an operation, one by one; at every point the file is a prefix of them applied. */
    method Perform(n: nat, stores: seq<Store>)
      requires n < slots.Length
      modifies slots
      ensures slots[..] == old(slots[..])[n := WriteAll(old(slots[n]), stores)]
    {
      for k := 0 to |stores|
        invariant slots[..] == old(slots[..])[n := WriteAll(old(slots[n]), stores[..k])]
      {
        assert stores[..k + 1][..k] == stores[..k];
        assert slots[..][n] == slots[n];
        slots[n] := Write(slots[n], stores[k]);
      }
      assert stores[..|stores|] == stores;
    }

    method Put(block: KvBlock) returns (ok: bool)
      requires Valid()
      modifies this, slots
      ensures Valid()
      ensures ok <==> |block.data| <= slotPayloadBytes && (block.id in old(Model()) || |old(Model())| < totalSlots)
      ensures Model() == if ok && block.id !in old(Model()) then old(Model())[block.id := block.data] else old(Model())
      ensures Stored(slots[..], index, block.id) ==
              if ok && block.id !in old(Model()) then Some(block.(tier := SSD))
              else old(Stored(slots[..], index, block.id))
      ensures forall x | x != block.id :: Stored(slots[..], index, x) == old(Stored(slots[..], index, x))
      ensures ok && block.id !in old(Model()) ==>
                exists n: nat :: Performs(old(slots[..]), PutStopped(block, n, |PutStores(block)|), slots[..])
      ensures Clean(old(slots[..])) ==> Clean(slots[..])
    {
      hide Consistent, Shaped, Clean, Scan, LiveBytes, WriteAll, PutStores, Performs, Stored;
      ModelFacts();
      if |block.data| > slotPayloadBytes {
        return false;
      }
      if block.id in index {
        return true;
      }
      var slotOpt := AllocSlot();
      if slotOpt == None {
        return false;
      }
      var n := slotOpt.value;
      assert n in old(freeSlots);
      ghost var image := slots[..];
      PutKeeps(image, index, old(freeSlots), n, block, slotPayloadBytes);
      PutStored(image, index, old(freeSlots), n, block, slotPayloadBytes);
      Perform(n, PutStores(block));
      assert Performs(image, PutStopped(block, n, |PutStores(block)|), slots[..]);
      index := index[block.id := n];
      usedBytes := usedBytes + |block.data|;
      ok := true;
    }

    method GetCopy(id: BlockId) returns (out: Option<KvBlock>)
      requires Valid()
      ensures out.Some? <==> id in Model()
      ensures out.Some? ==> out.value.id == id && out.value.data == Model()[id] && out.value.tier == SSD
      ensures out == Stored(slots[..], index, id)
    {
      IndexedContents(slots[..], index);
      if id !in index {
        return None;
      }
      var n := index[id];
      assert slots[..][n] == slots[n];
      var h := slots[n];
      if h.magic != MAGIC_LIVE {
        return None;
      }
      out := Some(KvBlock(IdOf(h), h.payload[..h.payloadSize], SSD, h.insertedEpoch));
    }

    method Snapshot() returns (metas: seq<BlockMeta>)
      requires Valid()
      ensures IsSnapshot(metas, Model(), {})
    {
      ModelFacts();
      hide Valid, Scan, LiveBytes, IsSnapshot;
      var order := Enumerate(index.Keys);
      metas := Headers(order);
      ListingIsSnapshot(order, metas, Model());
    }

    /** The sizes recorded in the headers of the listed blocks. */
    method Headers(order: seq<BlockId>) returns (metas: seq<BlockMeta>)
      requires forall i | 0 <= i < |order| :: order[i] in index && index[order[i]] < slots.Length
      ensures |metas| == |order|
      ensures forall i | 0 <= i < |order| :: metas[i] == BlockMeta(order[i], slots[index[order[i]]].payloadSize, false)
    {
      metas := [];
      for k := 0 to |order|
        invariant |metas| == k
        invariant forall i | 0 <= i < k :: metas[i] == BlockMeta(order[i], slots[index[order[i]]].payloadSize, false)
      {
        metas := metas + [BlockMeta(order[k], slots[index[order[k]]].payloadSize, false)];
      }
    }

    method Erase(id: BlockId) returns (freed: nat)
      requires Valid()
      modifies this, slots
      ensures Valid()
      ensures Model() == old(Model()) - {id}
      ensures freed == if id in old(Model()) then |old(Model())[id]| else 0
      ensures forall x | x != id :: Stored(slots[..], index, x) == old(Stored(slots[..], index, x))
      ensures id in old(Model()) ==>
                exists n: nat :: Performs(old(slots[..]), EraseStopped(id, n, |ERASE_STORES|), slots[..])
      ensures Clean(old(slots[..])) ==> Clean(slots[..])
    {
      hide Consistent, Shaped, Clean, Scan, LiveBytes, WriteAll, PutStores, Performs, Stored;
      ModelFacts();
      if id !in index {
        return 0;
      }
      var n := index[id];
      ghost var image := slots[..];
      EraseKeeps(image, index, freeSlots, id, slotPayloadBytes);
      ErasePerforms(image, id, n);
      EraseStored(image, index, freeSlots, id, WriteAll(slots[n], ERASE_STORES));
      freed := slots[n].payloadSize;
      Perform(n, ERASE_STORES);
      assert Performs(image, EraseStopped(id, n, |ERASE_STORES|), slots[..]);
      index := index - {id};
      freeSlots := freeSlots + [n];
      usedBytes := usedBytes - freed;
    }
  }

  // The steps of the methods above, on values

  /** Where the opening scan stands after `n` slots. */
  ghost predicate Scanned(image: Image, n: nat, index: map<BlockId, nat>, free: seq<nat>, bytes: nat)
    requires n <= |image|
  {
    && index.Keys == Scan(image, n).Keys
    && bytes == LiveBytes(image[..n])
    && FreeList(image[..n], free)
    && (DistinctIds(image) ==> Indexed(image[..n], index) && |index| + |free| == n)
  }

  lemma LiveHeader(image: Image, payloadBytes: nat, n: nat)
    requires Shaped(image, payloadBytes) && n < |image|
    ensures Live(image[n]) <==> image[n].magic == MAGIC_LIVE && image[n].payloadSize <= payloadBytes
  {}

  lemma ScannedNothing(image: Image)
    ensures Scanned(image, 0, map[], [], 0)
  {}

  lemma ScannedOne(image: Image, n: nat, index: map<BlockId, nat>, free: seq<nat>, bytes: nat)
    requires n < |image| && Scanned(image, n, index, free, bytes)
    ensures var slot := image[n];
            Scanned(image, n + 1,
                    if Live(slot) && IdOf(slot) !in index then index[IdOf(slot) := n] else index,
                    if Live(slot) then free else free + [n],
                    if Live(slot) then bytes + slot.payloadSize else bytes)
  {
    hide FreeList, Indexed, DistinctIds;
    assert image[..n + 1][..n] == image[..n];
    FreeListExtends(image, n, free);
    if DistinctIds(image) {
      IndexExtends(image, n, index);
    }
  }

  lemma ScannedAll(image: Image, index: map<BlockId, nat>, free: seq<nat>, bytes: nat)
    requires Scanned(image, |image|, index, free, bytes)
    ensures index.Keys == Contents(image).Keys && bytes == LiveBytes(image)
    ensures DistinctIds(image) ==> Consistent(image, index, free)
  {
    hide FreeList, Indexed, DistinctIds;
    assert image[..|image|] == image;
  }

  lemma FreeListExtends(image: Image, n: nat, free: seq<nat>)
    requires n < |image| && FreeList(image[..n], free)
    ensures FreeList(image[..n + 1], if Live(image[n]) then free else free + [n])
  {
    assert forall k | 0 <= k < n :: image[..n + 1][k] == image[..n][k];
    assert n !in free;
  }

  lemma IndexExtends(image: Image, n: nat, index: map<BlockId, nat>)
    requires n < |image| && DistinctIds(image) && Indexed(image[..n], index)
    ensures Live(image[n]) ==> IdOf(image[n]) !in index
    ensures Indexed(image[..n + 1], if Live(image[n]) then index[IdOf(image[n]) := n] else index)
  {
    assert forall k | 0 <= k < n :: image[..n + 1][k] == image[..n][k];
  }

  lemma SlotTaken(image: Image, index: map<BlockId, nat>, free: seq<nat>, n: nat, slot: Slot)
    requires Consistent(image, index, free) && free != [] && n == free[|free| - 1] && n < |image|
    requires Live(slot) && IdOf(slot) !in index
    ensures Consistent(image[n := slot], index[IdOf(slot) := n], free[..|free| - 1])
  {
    assert n in free;
    FreeListShrinks(image, free, n, slot);
  }

  lemma FreeListShrinks(image: Image, free: seq<nat>, n: nat, slot: Slot)
    requires FreeList(image, free) && free != [] && n == free[|free| - 1] && n < |image| && Live(slot)
    ensures FreeList(image[n := slot], free[..|free| - 1])
  {
    var rest := free[..|free| - 1];
    assert free == rest + [n];
    assert forall k | k in rest :: k in free && k != n;
  }

  lemma SlotReleased(image: Image, index: map<BlockId, nat>, free: seq<nat>, id: BlockId, slot: Slot)
    requires Consistent(image, index, free) && id in index && index[id] < |image| && !Live(slot)
    ensures Consistent(image[index[id] := slot], index - {id}, free + [index[id]])
  {
    assert index[id] !in free;
    assert |(index - {id}).Keys| == |index.Keys - {id}|;
    FreeListGrows(image, free, index[id], slot);
    IndexShrinks(image, index, id, slot);
  }

  lemma FreeListGrows(image: Image, free: seq<nat>, n: nat, slot: Slot)
    requires FreeList(image, free) && n < |image| && Live(image[n]) && !Live(slot)
    ensures FreeList(image[n := slot], free + [n])
  {
    assert n !in free;
  }

  lemma IndexShrinks(image: Image, index: map<BlockId, nat>, id: BlockId, slot: Slot)
    requires Indexed(image, index) && id in index && index[id] < |image| && !Live(slot)
    ensures Indexed(image[index[id] := slot], index - {id})
  {
  }

  lemma ShapedUpdate(image: Image, payloadBytes: nat, n: nat, stores: seq<Store>)
    requires Shaped(image, payloadBytes) && n < |image|
    ensures |image[n].payload| == payloadBytes
    ensures Shaped(image[n := WriteAll(image[n], stores)], payloadBytes)
  {
    WriteAllKeeps(image[n], stores);
  }

  /** A completed Put into the slot on top of the free list. */
  lemma PutKeeps(image: Image, index: map<BlockId, nat>, free: seq<nat>, n: nat, block: KvBlock, payloadBytes: nat)
    requires Shaped(image, payloadBytes) && Consistent(image, index, free) && free != [] && n == free[|free| - 1]
             && n < |image|
    requires block.id !in index && |block.data| <= payloadBytes
    ensures var slot := WriteAll(image[n], PutStores(block));
            && Shaped(image[n := slot], payloadBytes)
            && Consistent(image[n := slot], index[block.id := n], free[..|free| - 1])
            && LiveBytes(image[n := slot]) == LiveBytes(image) + |block.data|
            && Contents(image[n := slot]) == Contents(image)[block.id := block.data]
            && (Clean(image) ==> Clean(image[n := slot]))
            && Performs(image, PutStopped(block, n, |PutStores(block)|), image[n := slot])
  {
    assert n in free && !Live(image[n]);
    assert PutStores(block)[..|PutStores(block)|] == PutStores(block);
    hide Indexed, FreeList, DistinctIds, Scan, LiveBytes, WriteAll, Shaped, PutStores;
    IndexedContents(image, index);
    ShapedUpdate(image, payloadBytes, n, PutStores(block));
    PutWritten(image[n], block);
    DeadToLive(image, n, WriteAll(image[n], PutStores(block)));
    SlotTaken(image, index, free, n, WriteAll(image[n], PutStores(block)));
  }

  /** A Put into a free slot stores the very block and leaves every other one. */
  lemma PutStored(image: Image, index: map<BlockId, nat>, free: seq<nat>, n: nat, block: KvBlock, payloadBytes: nat)
    requires Shaped(image, payloadBytes) && Consistent(image, index, free) && n in free && n < |image|
    requires block.id !in index && |block.data| <= payloadBytes
    ensures var after := image[n := WriteAll(image[n], PutStores(block))];
            && Stored(after, index[block.id := n], block.id) == Some(block.(tier := SSD))
            && forall x | x != block.id :: Stored(after, index[block.id := n], x) == Stored(image, index, x)
  {
    assert !Live(image[n]);
    PutWritten(image[n], block);
    hide WriteAll, PutStores, FreeList;
  }

  lemma EraseStored(image: Image, index: map<BlockId, nat>, free: seq<nat>, id: BlockId, slot: Slot)
    requires Consistent(image, index, free) && id in index && index[id] < |image|
    ensures forall x | x != id :: Stored(image[index[id] := slot], index - {id}, x) == Stored(image, index, x)
  {
    hide FreeList;
    forall x | x != id && x in index ensures index[x] != index[id] {
      assert IdOf(image[index[x]]) == x;
    }
  }

  lemma IndexedSlot(image: Image, index: map<BlockId, nat>, free: seq<nat>, id: BlockId)
    requires Consistent(image, index, free) && id in index && index[id] < |image|
    ensures Live(image[index[id]]) && IdOf(image[index[id]]) == id && Indexed(image, index)
  {}

  lemma FreedSlot(slot: Slot)
    requires slot.magic == MAGIC_FREE
    ensures !Live(slot)
  {}

  lemma ErasePerforms(image: Image, id: BlockId, n: nat)
    requires n < |image| && Live(image[n]) && IdOf(image[n]) == id
    ensures Performs(image, EraseStopped(id, n, |ERASE_STORES|), image[n := WriteAll(image[n], ERASE_STORES)])
  {
    assert ERASE_STORES[..|ERASE_STORES|] == ERASE_STORES;
  }

  lemma EraseKeeps(image: Image, index: map<BlockId, nat>, free: seq<nat>, id: BlockId, payloadBytes: nat)
    requires Shaped(image, payloadBytes) && Consistent(image, index, free) && id in index && index[id] < |image|
    ensures var slot := WriteAll(image[index[id]], ERASE_STORES);
            && Shaped(image[index[id] := slot], payloadBytes)
            && Consistent(image[index[id] := slot], index - {id}, free + [index[id]])
            && LiveBytes(image[index[id] := slot]) == LiveBytes(image) - image[index[id]].payloadSize
            && Contents(image[index[id] := slot]) == Contents(image) - {id}
            && (Clean(image) ==> Clean(image[index[id] := slot]))
            && Live(image[index[id]]) && IdOf(image[index[id]]) == id
  {
    hide Consistent, Indexed, FreeList, DistinctIds, Scan, LiveBytes, WriteAll, Shaped, Live;
    var n := index[id];
    IndexedSlot(image, index, free, id);
    IndexedContents(image, index);
    ShapedUpdate(image, payloadBytes, n, ERASE_STORES);
    assert ERASE_STORES[..2] == ERASE_STORES;
    EraseWritten(image[n], 2);
    FreedSlot(WriteAll(image[n], ERASE_STORES));
    LiveToDead(image, n, WriteAll(image[n], ERASE_STORES));
    SlotReleased(image, index, free, id, WriteAll(image[n], ERASE_STORES));
  }
}
