/**
 The bytes of the SSD tier as they sit in the mapped file (cache_server/src/ssd_block_store.cpp):
 fixed-size slots, the individual stores a Put or an Erase makes, what a restart reads back, and
 why stopping after any prefix of those stores is harmless.
 */
module SsdImage {
  import opened Types

  const MAGIC_LIVE: Byte := 0xA5
  const MAGIC_FREE: Byte := 0x00

  datatype Slot = Slot(magic: Byte, tier: Byte, flags: nat, payloadSize: nat, hash: Hash256, insertedEpoch: nat,
                       layer: U32, headGroup: U32, modelId: U32, reserved: Bytes, payload: Bytes)

  function ZeroSlot(payloadBytes: nat): Slot
  {
    Slot(0, 0, 0, 0, ZERO_HASH, 0, 0, 0, 0, [0, 0, 0, 0], seq(payloadBytes, _ => 0))
  }

  type Image = seq<Slot>

  /** One machine store into a slot. */
  datatype Store =
    | PayloadByte(at: nat, b: Byte)
    | TierStore(b: Byte)
    | FlagsStore(flags: nat)
    | SizeStore(size: nat)
    | HashByte(at: nat, b: Byte)
    | LayerStore(layer: U32)
    | HeadGroupStore(headGroup: U32)
    | ModelStore(modelId: U32)
    | EpochStore(epoch: nat)
    | ReservedByte(at: nat, b: Byte)
    | MagicStore(b: Byte)

  function Write(slot: Slot, st: Store): Slot
  {
    match st
    case PayloadByte(at, b) => if at < |slot.payload| then slot.(payload := slot.payload[at := b]) else slot
    case TierStore(b) => slot.(tier := b)
    case FlagsStore(flags) => slot.(flags := flags)
    case SizeStore(size) => slot.(payloadSize := size)
    case HashByte(at, b) => if at < 32 then slot.(hash := slot.hash[at := b]) else slot
    case LayerStore(layer) => slot.(layer := layer)
    case HeadGroupStore(headGroup) => slot.(headGroup := headGroup)
    case ModelStore(modelId) => slot.(modelId := modelId)
    case EpochStore(epoch) => slot.(insertedEpoch := epoch)
    case ReservedByte(at, b) => if at < |slot.reserved| then slot.(reserved := slot.reserved[at := b]) else slot
    case MagicStore(b) => slot.(magic := b)
  }

  function WriteAll(slot: Slot, stores: seq<Store>): Slot
  {
    if stores == [] then slot else Write(WriteAll(slot, stores[..|stores| - 1]), stores[|stores| - 1])
  }

  function PayloadStores(data: Bytes): (stores: seq<Store>)
    ensures |stores| == |data|
  {
    seq(|data|, i requires 0 <= i < |data| => PayloadByte(i, data[i]))
  }

  function HashStores(hash: Hash256): (stores: seq<Store>)
    ensures |stores| == 32
  {
    seq(32, i requires 0 <= i < 32 => HashByte(i, hash[i]))
  }

  /** Everything `Put` writes before the magic, in source order. */
  function BodyStores(block: KvBlock): seq<Store>
  {
    PayloadStores(block.data)
    + [TierStore(2), FlagsStore(0), SizeStore(|block.data|)]
    + HashStores(block.id.hash)
    + [LayerStore(block.id.layer), HeadGroupStore(block.id.headGroup), ModelStore(block.id.modelId)]
    + [EpochStore(block.insertedEpoch), ReservedByte(0, 0), ReservedByte(1, 0), ReservedByte(2, 0), ReservedByte(3, 0)]
  }

  function PutStores(block: KvBlock): seq<Store>
  {
    BodyStores(block) + [MagicStore(MAGIC_LIVE)]
  }

  const ERASE_STORES: seq<Store> := [MagicStore(MAGIC_FREE), SizeStore(0)]

  // What a restart makes of a slot

  predicate Live(slot: Slot)
  {
    slot.magic == MAGIC_LIVE && slot.payloadSize <= |slot.payload|
  }

  function IdOf(slot: Slot): BlockId
  {
    BlockId(slot.hash, slot.layer, slot.headGroup, slot.modelId)
  }

  function DataOf(slot: Slot): Bytes
    requires Live(slot)
  {
    slot.payload[..slot.payloadSize]
  }

  /** The block a live slot holds. */
  function BlockOf(slot: Slot): KvBlock
    requires Live(slot)
  {
    KvBlock(IdOf(slot), DataOf(slot), SSD, slot.insertedEpoch)
  }

  /** No two live slots claim the same block. */
  ghost predicate DistinctIds(image: Image)
  {
    forall i, j | 0 <= i < j < |image| && Live(image[i]) && Live(image[j]) :: IdOf(image[i]) != IdOf(image[j])
  }

  /** Every slot whose magic says live also has a size that fits. */
  ghost predicate NoCorruptHeader(image: Image)
  {
    forall i | 0 <= i < |image| && image[i].magic == MAGIC_LIVE :: Live(image[i])
  }

  /** The images the program itself leaves behind. */
  ghost predicate Clean(image: Image) { DistinctIds(image) && NoCorruptHeader(image) }

  /** The blocks a scan of the first `n` slots finds; a repeated id keeps its first slot. */
  function Scan(image: Image, n: nat): (m: map<BlockId, Bytes>)
    requires n <= |image|
  {
    if n == 0 then map[] else
      var m := Scan(image, n - 1);
      var slot := image[n - 1];
      if Live(slot) && IdOf(slot) !in m then m[IdOf(slot) := DataOf(slot)] else m
  }

  function Contents(image: Image): map<BlockId, Bytes> { Scan(image, |image|) }

  function SlotBytes(slot: Slot): nat { if Live(slot) then slot.payloadSize else 0 }

  /** Payload bytes in live slots. */
  function LiveBytes(image: Image): nat
  {
    if image == [] then 0 else LiveBytes(image[..|image| - 1]) + SlotBytes(image[|image| - 1])
  }

  lemma {:induction false} ScanFinds(image: Image, n: nat)
    requires n <= |image| && DistinctIds(image)
    ensures forall id :: id in Scan(image, n) <==> exists i | 0 <= i < n :: Live(image[i]) && IdOf(image[i]) == id
    ensures forall i | 0 <= i < n && Live(image[i]) ::
              IdOf(image[i]) in Scan(image, n) && Scan(image, n)[IdOf(image[i])] == DataOf(image[i])
  {
    if n > 0 {
      ScanFinds(image, n - 1);
    }
  }

  /** Contents is THE map from live ids to their bytes. */
  lemma ContentsUnique(image: Image, m: map<BlockId, Bytes>)
    requires DistinctIds(image)
    requires forall id | id in m :: exists i | 0 <= i < |image| :: Live(image[i]) && IdOf(image[i]) == id
    requires forall i | 0 <= i < |image| && Live(image[i]) ::
               IdOf(image[i]) in m && m[IdOf(image[i])] == DataOf(image[i])
    ensures Contents(image) == m
  {
    ScanFinds(image, |image|);
  }

  lemma {:induction false} LiveBytesUpdate(image: Image, n: nat, slot: Slot)
    requires n < |image|
    ensures LiveBytes(image[n := slot]) == LiveBytes(image) - SlotBytes(image[n]) + SlotBytes(slot)
  {
    var last := |image| - 1;
    if n == last {
      assert image[n := slot][..last] == image[..last];
    } else {
      assert image[n := slot][..last] == image[..last][n := slot];
      LiveBytesUpdate(image[..last], n, slot);
    }
  }

  // Replacing one slot

  lemma DeadToDead(image: Image, n: nat, slot: Slot)
    requires DistinctIds(image) && n < |image| && !Live(image[n]) && !Live(slot)
    ensures DistinctIds(image[n := slot])
    ensures Contents(image[n := slot]) == Contents(image) && LiveBytes(image[n := slot]) == LiveBytes(image)
  {
    LiveBytesUpdate(image, n, slot);
    ScanFinds(image, |image|);
    var after := image[n := slot];
    forall id | id in Contents(image) ensures exists i | 0 <= i < |after| :: Live(after[i]) && IdOf(after[i]) == id {
      var i :| 0 <= i < |image| && Live(image[i]) && IdOf(image[i]) == id;
      assert after[i] == image[i];
    }
    ContentsUnique(after, Contents(image));
  }

  lemma DeadToLive(image: Image, n: nat, slot: Slot)
    requires DistinctIds(image) && n < |image| && !Live(image[n]) && Live(slot)
    requires IdOf(slot) !in Contents(image)
    ensures DistinctIds(image[n := slot])
    ensures Contents(image[n := slot]) == Contents(image)[IdOf(slot) := DataOf(slot)]
    ensures LiveBytes(image[n := slot]) == LiveBytes(image) + slot.payloadSize
  {
    LiveBytesUpdate(image, n, slot);
    ScanFinds(image, |image|);
    var after := image[n := slot];
    var m := Contents(image)[IdOf(slot) := DataOf(slot)];
    forall id | id in m ensures exists i | 0 <= i < |after| :: Live(after[i]) && IdOf(after[i]) == id {
      if id == IdOf(slot) {
        assert after[n] == slot;
      } else {
        var i :| 0 <= i < |image| && Live(image[i]) && IdOf(image[i]) == id;
        assert after[i] == image[i];
      }
    }
    ContentsUnique(after, m);
  }

  lemma LiveToDead(image: Image, n: nat, slot: Slot)
    requires DistinctIds(image) && n < |image| && Live(image[n]) && !Live(slot)
    ensures DistinctIds(image[n := slot])
    ensures Contents(image[n := slot]) == Contents(image) - {IdOf(image[n])}
    ensures LiveBytes(image[n := slot]) == LiveBytes(image) - image[n].payloadSize
  {
    LiveBytesUpdate(image, n, slot);
    ScanFinds(image, |image|);
    var after := image[n := slot];
    var m := Contents(image) - {IdOf(image[n])};
    forall id | id in m ensures exists i | 0 <= i < |after| :: Live(after[i]) && IdOf(after[i]) == id {
      var i :| 0 <= i < |image| && Live(image[i]) && IdOf(image[i]) == id;
      assert after[i] == image[i];
    }
    ContentsUnique(after, m);
  }

  // What the stores of one operation do to a slot

  lemma {:induction false} WriteAllConcat(slot: Slot, a: seq<Store>, b: seq<Store>)
    ensures WriteAll(slot, a + b) == WriteAll(WriteAll(slot, a), b)
  {
    if b == [] {
      assert a + b == a;
    } else {
      assert (a + b)[..|a + b| - 1] == a + b[..|b| - 1];
      WriteAllConcat(slot, a, b[..|b| - 1]);
    }
  }

  lemma {:induction false} PayloadWritten(slot: Slot, data: Bytes, k: nat)
    requires k <= |data| <= |slot.payload|
    ensures WriteAll(slot, PayloadStores(data)[..k]) == slot.(payload := data[..k] + slot.payload[k..])
  {
    if k > 0 {
      var stores := PayloadStores(data);
      assert stores[..k][..k - 1] == stores[..k - 1];
      assert stores[..k][k - 1] == PayloadByte(k - 1, data[k - 1]);
      PayloadWritten(slot, data, k - 1);
      assert (data[..k - 1] + slot.payload[k - 1..])[k - 1 := data[k - 1]] == data[..k] + slot.payload[k..];
    }
  }

  lemma {:induction false} HashWritten(slot: Slot, hash: Hash256, k: nat)
    requires k <= 32
    ensures WriteAll(slot, HashStores(hash)[..k]) == slot.(hash := hash[..k] + slot.hash[k..])
  {
    if k > 0 {
      var before := HashStores(hash)[..k - 1];
      assert HashStores(hash)[..k][..k - 1] == before;
      HashWritten(slot, hash, k - 1);
      assert (hash[..k - 1] + slot.hash[k - 1..])[k - 1 := hash[k - 1]] == hash[..k] + slot.hash[k..];
    }
  }

  lemma WriteThree(slot: Slot, a: Store, b: Store, c: Store)
    ensures WriteAll(slot, [a, b, c]) == Write(Write(Write(slot, a), b), c)
  {
    assert [a, b, c] == [a] + [b] + [c];
    WriteAllConcat(slot, [a] + [b], [c]);
    WriteAllConcat(slot, [a], [b]);
  }

  lemma HeaderWritten(slot: Slot, size: nat)
    ensures WriteAll(slot, [TierStore(2), FlagsStore(0), SizeStore(size)]) ==
            slot.(tier := 2, flags := 0, payloadSize := size)
  {
    WriteThree(slot, TierStore(2), FlagsStore(0), SizeStore(size));
  }

  lemma IdWritten(slot: Slot, layer: U32, headGroup: U32, modelId: U32)
    ensures WriteAll(slot, [LayerStore(layer), HeadGroupStore(headGroup), ModelStore(modelId)]) ==
            slot.(layer := layer, headGroup := headGroup, modelId := modelId)
  {
    WriteThree(slot, LayerStore(layer), HeadGroupStore(headGroup), ModelStore(modelId));
  }

  /** Stores that touch only the epoch and the reserved bytes. */
  lemma {:induction false} RestWritten(slot: Slot, stores: seq<Store>, epoch: nat)
    requires stores != [] && stores[0] == EpochStore(epoch)
    requires forall i | 1 <= i < |stores| :: stores[i].ReservedByte?
    ensures var s := WriteAll(slot, stores);
            && s.payload == slot.payload && s.payloadSize == slot.payloadSize && IdOf(s) == IdOf(slot)
            && s.insertedEpoch == epoch && s.tier == slot.tier && s.flags == slot.flags
  {
    var last := |stores| - 1;
    if last > 0 {
      RestWritten(slot, stores[..last], epoch);
      assert stores[last].ReservedByte?;
    } else {
      assert stores[..0] == [];
      assert WriteAll(slot, stores) == Write(WriteAll(slot, stores[..0]), stores[0]);
    }
  }

  /** Everything but the magic is in place after the body stores. */
  lemma BodyWritten(slot: Slot, block: KvBlock)
    requires |block.data| <= |slot.payload|
    ensures var body := WriteAll(slot, BodyStores(block));
            && body.payloadSize == |block.data| && IdOf(body) == block.id
            && body.insertedEpoch == block.insertedEpoch && body.tier == 2 && body.flags == 0
            && body.payload == block.data + slot.payload[|block.data|..]
  {
    hide WriteAll, PayloadStores, HashStores;
    var payload, hash := PayloadStores(block.data), HashStores(block.id.hash);
    var header := [TierStore(2), FlagsStore(0), SizeStore(|block.data|)];
    var ids := [LayerStore(block.id.layer), HeadGroupStore(block.id.headGroup), ModelStore(block.id.modelId)];
    var rest := [EpochStore(block.insertedEpoch),
                 ReservedByte(0, 0), ReservedByte(1, 0), ReservedByte(2, 0), ReservedByte(3, 0)];
    BodyInParts(slot, payload, header, hash, ids, rest);
    var s1 := WriteAll(slot, payload);
    assert s1 == slot.(payload := block.data + slot.payload[|block.data|..]) by {
      assert payload[..|block.data|] == payload;
      PayloadWritten(slot, block.data, |block.data|);
    }
    var s2 := WriteAll(s1, header);
    HeaderWritten(s1, |block.data|);
    var s3 := WriteAll(s2, hash);
    assert s3 == s2.(hash := block.id.hash) by {
      assert hash[..32] == hash;
      HashWritten(s2, block.id.hash, 32);
    }
    var s4 := WriteAll(s3, ids);
    IdWritten(s3, block.id.layer, block.id.headGroup, block.id.modelId);
    RestWritten(s4, rest, block.insertedEpoch);
  }

  /** All stores of a Put, done: the slot is live and holds exactly the block, its epoch and the tier's number. */
  lemma PutWritten(slot: Slot, block: KvBlock)
    requires |block.data| <= |slot.payload|
    ensures var done := WriteAll(slot, PutStores(block));
            && Live(done) && IdOf(done) == block.id && DataOf(done) == block.data
            && BlockOf(done) == block.(tier := SSD) && done.tier == 2 && done.flags == 0
  {
    hide BodyStores;
    BodyWritten(slot, block);
    assert PutStores(block)[..|BodyStores(block)|] == BodyStores(block);
  }

  lemma BodyInParts(slot: Slot, a: seq<Store>, b: seq<Store>, c: seq<Store>, d: seq<Store>, e: seq<Store>)
    ensures WriteAll(slot, a + b + c + d + e) == WriteAll(WriteAll(WriteAll(WriteAll(WriteAll(slot, a), b), c), d), e)
  {
    WriteAllConcat(slot, a, b);
    WriteAllConcat(slot, a + b, c);
    WriteAllConcat(slot, a + b + c, d);
    WriteAllConcat(slot, a + b + c + d, e);
  }

  lemma {:induction false} WriteAllKeeps(slot: Slot, stores: seq<Store>)
    ensures |WriteAll(slot, stores).payload| == |slot.payload|
    ensures (forall st | st in stores :: !st.MagicStore?) ==> WriteAll(slot, stores).magic == slot.magic
  {
    if stores != [] {
      WriteAllKeeps(slot, stores[..|stores| - 1]);
    }
  }

  lemma BodyLeavesMagic(slot: Slot, block: KvBlock, k: nat)
    requires k <= |BodyStores(block)|
    ensures WriteAll(slot, PutStores(block)[..k]).magic == slot.magic
  {
    assert PutStores(block)[..k] == BodyStores(block)[..k];
    assert forall st | st in BodyStores(block) :: !st.MagicStore?;
    WriteAllKeeps(slot, BodyStores(block)[..k]);
  }

  // Crashes

  /** An operation of which only the first `k` stores reached the file before the process died. */
  datatype Event =
    | PutStopped(block: KvBlock, n: nat, k: nat)
    | EraseStopped(id: BlockId, n: nat, k: nat)

  /** The operation does write: the block is new and fits slot `n`, or is the one in slot `n`. */
  ghost predicate Enabled(image: Image, ev: Event)
  {
    && ev.n < |image|
    && match ev
       case PutStopped(block, n, k) =>
         && !Live(image[n]) && block.id !in Contents(image)
         && |block.data| <= |image[n].payload| && k <= |PutStores(block)|
       case EraseStopped(id, n, k) =>
         Live(image[n]) && IdOf(image[n]) == id && k <= |ERASE_STORES|
  }

  function Stores(ev: Event): seq<Store>
  {
    match ev
    case PutStopped(block, _, _) => PutStores(block)
    case EraseStopped(_, _, _) => ERASE_STORES
  }

  /** The file as the next process finds it. */
  function Stopped(image: Image, ev: Event): Image
    requires ev.n < |image| && ev.k <= |Stores(ev)|
  {
    image[ev.n := WriteAll(image[ev.n], Stores(ev)[..ev.k])]
  }

  /** The operation takes the file from `before` to `after`. */
  ghost predicate Performs(before: Image, ev: Event, after: Image)
  {
    Enabled(before, ev) && after == Stopped(before, ev)
  }

  /** The operation took effect: a Put with its last store, the magic; an Erase with its first. */
  predicate Committed(ev: Event)
  {
    match ev
    case PutStopped(block, _, k) => k == |PutStores(block)|
    case EraseStopped(_, _, k) => k >= 1
  }

  ghost function Effect(m: map<BlockId, Bytes>, ev: Event): map<BlockId, Bytes>
  {
    match ev
    case PutStopped(block, _, _) => m[block.id := block.data]
    case EraseStopped(id, _, _) => m - {id}
  }

  /** Bytes added or given back by the whole operation. */
  ghost function Delta(image: Image, ev: Event): int
    requires ev.n < |image|
  {
    if ev.PutStopped? then |ev.block.data| else 0 - image[ev.n].payloadSize
  }

  /** A restart reads back all of the operation or none of it, in the blocks and in the byte count alike. */
  ghost predicate AllOrNothing(image: Image, ev: Event)
    requires ev.n < |image| && ev.k <= |Stores(ev)|
  {
    var after := Stopped(image, ev);
    || (Contents(after) == Contents(image) && LiveBytes(after) == LiveBytes(image))
    || (Contents(after) == Effect(Contents(image), ev) && LiveBytes(after) == LiveBytes(image) + Delta(image, ev))
  }

  /**
   Crash atomicity, slot by slot: after any prefix of an operation's stores a restart reads back all
   of the operation or none of it, whatever the other slots look like, if a Put goes into a slot whose
   magic does not say live.
   */
  lemma SlotAtomic(image: Image, ev: Event)
    requires DistinctIds(image) && Enabled(image, ev) && (ev.PutStopped? ==> image[ev.n].magic != MAGIC_LIVE)
    ensures var after := Stopped(image, ev);
            && DistinctIds(after)
            && (Live(after[ev.n]) || after[ev.n].magic != MAGIC_LIVE)
            && Contents(after) == (if Committed(ev) then Effect(Contents(image), ev) else Contents(image))
            && LiveBytes(after) == LiveBytes(image) + (if Committed(ev) then Delta(image, ev) else 0)
  {
    hide WriteAll, Scan, LiveBytes, BodyStores, DistinctIds;
    var n, slot := ev.n, image[ev.n];
    var written := WriteAll(slot, Stores(ev)[..ev.k]);
    match ev
    case PutStopped(block, _, k) =>
      if k == |PutStores(block)| {
        assert PutStores(block)[..k] == PutStores(block);
        PutWritten(slot, block);
        DeadToLive(image, n, written);
      } else {
        BodyLeavesMagic(slot, block, k);
        DeadToDead(image, n, written);
      }
    case EraseStopped(_, _, k) =>
      EraseWritten(slot, k);
      if k == 0 {
        assert image[n := slot] == image;
      } else {
        LiveToDead(image, n, written);
      }
  }

  /**
   Crash atomicity of whole images: an image the program itself left behind stays one through every
   crash, with exactly the committed operation in it.
   */
  lemma CrashAtomic(image: Image, ev: Event)
    requires Clean(image) && Enabled(image, ev)
    ensures var after := Stopped(image, ev);
            && Clean(after)
            && Contents(after) == (if Committed(ev) then Effect(Contents(image), ev) else Contents(image))
            && LiveBytes(after) == LiveBytes(image) + (if Committed(ev) then Delta(image, ev) else 0)
  {
    hide WriteAll, Scan, LiveBytes, BodyStores, DistinctIds;
    SlotAtomic(image, ev);
  }

  lemma EraseWritten(slot: Slot, k: nat)
    requires k <= 2
    ensures var s := WriteAll(slot, ERASE_STORES[..k]);
            if k == 0 then s == slot else s.magic == MAGIC_FREE
  {
    if k == 2 {
      assert ERASE_STORES[..2][..1] == ERASE_STORES[..1];
    }
    if k >= 1 {
      assert ERASE_STORES[..1][..0] == [];
    }
  }

  /** Images seen by successive processes, each dying somewhere inside an operation. */
  ghost predicate IsHistory(images: seq<Image>, evs: seq<Event>)
  {
    && |images| == |evs| + 1
    && forall i | 0 <= i < |evs| :: Performs(images[i], evs[i], images[i + 1])
  }

  /** What the blocks should be after a history: the committed operations, applied in order. */
  ghost function Replay(m: map<BlockId, Bytes>, evs: seq<Event>): map<BlockId, Bytes>
  {
    if evs == [] then m else
      var before := Replay(m, evs[..|evs| - 1]);
      if Committed(evs[|evs| - 1]) then Effect(before, evs[|evs| - 1]) else before
  }

  /** Over any number of crashes and restarts the file holds exactly the committed operations. */
  lemma {:induction false} HistoryAtomic(images: seq<Image>, evs: seq<Event>)
    requires IsHistory(images, evs) && Clean(images[0])
    ensures Clean(images[|evs|])
    ensures Contents(images[|evs|]) == Replay(Contents(images[0]), evs)
  {
    if evs != [] {
      var last := |evs| - 1;
      HistoryAtomic(images[..|evs|], evs[..last]);
      assert Performs(images[last], evs[last], images[last + 1]);
      CrashAtomic(images[last], evs[last]);
    }
  }

  /** A fresh, zero-filled file is clean and empty. */
  lemma ZeroedFileIsClean(slots: nat, payloadBytes: nat)
    ensures var image := seq(slots, _ => ZeroSlot(payloadBytes));
            Clean(image) && Contents(image) == map[]
  {
    var image := seq(slots, _ => ZeroSlot(payloadBytes));
    ContentsUnique(image, map[]);
  }

  /**
   The condition on the slot is exact. A free slot takes every Put atomically, at every store, if and
   only if its magic does not say live. A slot with a live magic and an impossible size counts as free,
   but the size store of the next Put into it makes it readable again under its STALE id.
   */
  lemma PutAtomicIff(image: Image, n: nat, unused: BlockId)
    requires DistinctIds(image) && n < |image| && !Live(image[n]) && |image[n].payload| > 0
    requires unused !in Contents(image) && unused != IdOf(image[n])
    ensures (forall block, k | Enabled(image, PutStopped(block, n, k)) ::
             AllOrNothing(image, PutStopped(block, n, k))) <==>
            image[n].magic != MAGIC_LIVE
  {
    hide Scan, LiveBytes, BodyStores, DistinctIds, WriteAll, AllOrNothing;
    if image[n].magic != MAGIC_LIVE {
      forall block, k | Enabled(image, PutStopped(block, n, k)) ensures AllOrNothing(image, PutStopped(block, n, k)) {
        PutAllOrNothing(image, block, n, k);
      }
    } else {
      StaleIdResurfaces(image, n, KvBlock(unused, [0], SSD, 0));
    }
  }

  lemma PutAllOrNothing(image: Image, block: KvBlock, n: nat, k: nat)
    requires DistinctIds(image) && Enabled(image, PutStopped(block, n, k)) && image[n].magic != MAGIC_LIVE
    ensures AllOrNothing(image, PutStopped(block, n, k))
  {
    hide Scan, LiveBytes, BodyStores, DistinctIds, WriteAll;
    SlotAtomic(image, PutStopped(block, n, k));
  }

  /** After the size store of a Put into a slot with a stale live magic: neither before nor after. */
  lemma StaleIdResurfaces(image: Image, n: nat, block: KvBlock)
    requires DistinctIds(image) && n < |image| && !Live(image[n]) && image[n].magic == MAGIC_LIVE
    requires 0 < |block.data| <= |image[n].payload| && block.id !in Contents(image) && block.id != IdOf(image[n])
    ensures var k := |block.data| + 3;
            Enabled(image, PutStopped(block, n, k)) && !AllOrNothing(image, PutStopped(block, n, k))
  {
    var k := |block.data| + 3;
    SizeStored(image[n], block);
    assert k <= |PutStores(block)|;
    hide WriteAll, BodyStores, LiveBytes;
    var slot := WriteAll(image[n], PutStores(block)[..k]);
    var after := image[n := slot];
    LiveBytesUpdate(image, n, slot);
    if IdOf(slot) in Contents(image) {
      KeysStay(image, n, slot);
    } else {
      hide Scan, DistinctIds;
      DeadToLive(image, n, slot);
      assert IdOf(slot) in Contents(after) && IdOf(slot) !in Effect(Contents(image), PutStopped(block, n, k));
    }
  }

  lemma SizeStored(slot: Slot, block: KvBlock)
    requires |block.data| <= |slot.payload| && slot.magic == MAGIC_LIVE
    ensures var k := |block.data| + 3;
            && k <= |PutStores(block)|
            && var written := WriteAll(slot, PutStores(block)[..k]);
               Live(written) && IdOf(written) == IdOf(slot) && written.payloadSize == |block.data|
  {
    var k := |block.data| + 3;
    var header := [TierStore(2), FlagsStore(0), SizeStore(|block.data|)];
    assert PutStores(block)[..k] == PayloadStores(block.data) + header;
    assert PayloadStores(block.data)[..|block.data|] == PayloadStores(block.data);
    PayloadWritten(slot, block.data, |block.data|);
    WriteAllConcat(slot, PayloadStores(block.data), header);
    HeaderWritten(WriteAll(slot, PayloadStores(block.data)), |block.data|);
  }

  /** A second slot for an id that is already there adds no id. */
  lemma KeysStay(image: Image, n: nat, slot: Slot)
    requires DistinctIds(image) && n < |image| && !Live(image[n]) && IdOf(slot) in Contents(image)
    ensures Contents(image[n := slot]).Keys == Contents(image).Keys
  {
    var after := image[n := slot];
    ScanKeys(image, |image|);
    ScanKeys(after, |after|);
    forall id ensures id in Contents(after) <==> id in Contents(image) {
      if id in Contents(image) {
        var i :| 0 <= i < |image| && Live(image[i]) && IdOf(image[i]) == id;
        assert after[i] == image[i];
      }
      if id in Contents(after) {
        var i :| 0 <= i < |after| && Live(after[i]) && IdOf(after[i]) == id;
        assert i != n ==> after[i] == image[i];
      }
    }
  }

  lemma {:induction false} ScanKeys(image: Image, n: nat)
    requires n <= |image|
    ensures forall id :: id in Scan(image, n) <==> exists i | 0 <= i < n :: Live(image[i]) && IdOf(image[i]) == id
  {
    if n > 0 {
      ScanKeys(image, n - 1);
    }
  }
}
