/** The three-tier store as objects (cache_server/src/tiered_store.cpp), proved against TieredModel. */
module TieredStore {
  import opened Types
  import opened Sizes
  import M = TieredModel
  import BlockStore
  import SsdBlockStore
  import SsdImage

  class TieredStore {
    const cfg: M.Config
    const hbm: BlockStore.BlockStore?
    const dram: BlockStore.BlockStore
    const ssd: SsdBlockStore.SsdBlockStore?
    var accessCounts: map<BlockId, nat>
    var visited: set<BlockId>

    ghost function Footprint(): set<object>
    {
      {this, dram} + (if hbm != null then {hbm} else {}) + (if ssd != null then {ssd, ssd.slots} else {})
    }

    ghost predicate Valid()
      reads Footprint()
    {
      && dram.Valid() && dram.capacityBytes == cfg.dramBytes
      && (hbm == null <==> cfg.hbmBytes == 0)
      && (hbm != null ==> hbm != dram && hbm.Valid() && hbm.capacityBytes == cfg.hbmBytes)
      && (ssd == null <==> !cfg.hasSsd)
      && (ssd != null ==> ssd.Valid() && ssd.totalSlots == cfg.ssdSlots && ssd.slotPayloadBytes == cfg.ssdPayload)
    }

    ghost function Model(): M.State
      reads Footprint()
    {
      M.State(if hbm != null then hbm.Model() else map[], dram.Model(),
              if ssd != null then ssd.Model() else map[], accessCounts, visited)
    }

    /** A store over an existing SSD file, or without an SSD tier. */
    constructor (cfg: M.Config, file: array?<SsdImage.Slot>)
      requires cfg.hasSsd <==> file != null
      requires file != null ==> file.Length == cfg.ssdSlots && SsdBlockStore.Shaped(file[..], cfg.ssdPayload)
      ensures file == null || SsdImage.DistinctIds(file[..]) ==> Valid()
      ensures this.cfg == cfg && fresh(Footprint() - (if file != null then {file} else {}))
      ensures Model() == M.EMPTY.(ssd := if file != null then SsdImage.Contents(file[..]) else map[])
    {
      hide TotalBytes, SsdBlockStore.Consistent, SsdBlockStore.Shaped, SsdImage.Scan, SsdImage.LiveBytes,
           SsdImage.Clean;
      this.cfg := cfg;
      if cfg.hbmBytes > 0 {
        hbm := new BlockStore.BlockStore(HBM, cfg.hbmBytes);
      } else {
        hbm := null;
      }
      dram := new BlockStore.BlockStore(DRAM, cfg.dramBytes);
      if file != null {
        ssd := new SsdBlockStore.SsdBlockStore(file, cfg.ssdPayload);
      } else {
        ssd := null;
      }
      accessCounts, visited := map[], {};
    }

    method PutToTier(block: KvBlock, tier: Tier) returns (ok: bool)
      requires Valid()
      modifies Footprint()
      ensures Valid()
      ensures ok == M.Fits(cfg, old(Model()), tier, block.id, block.data)
      ensures Model() == M.PutTier(cfg, old(Model()), tier, block.id, block.data)
      ensures !ok ==> Model() == old(Model())
    {
      hide TotalBytes, SsdBlockStore.Consistent, SsdBlockStore.Shaped, SsdImage.Scan, SsdImage.LiveBytes,
           SsdImage.Clean;
      match tier
      case HBM =>
        if hbm != null { ok := hbm.Put(block); } else { ok := false; }
      case DRAM =>
        ok := dram.Put(block);
      case SSD =>
        if ssd != null { ok := ssd.Put(block); } else { ok := false; }
    }

    method EraseFromTier(id: BlockId, tier: Tier) returns (freed: nat)
      requires Valid()
      modifies Footprint()
      ensures Valid()
      ensures Model() == M.EraseTier(old(Model()), tier, id)
      ensures freed == M.SizeIn(M.At(old(Model()), tier), id)
    {
      hide TotalBytes, SsdBlockStore.Consistent, SsdBlockStore.Shaped, SsdImage.Scan, SsdImage.LiveBytes,
           SsdImage.Clean;
      match tier
      case HBM =>
        if hbm != null { freed := hbm.Erase(id); } else { freed := 0; }
      case DRAM =>
        freed := dram.Erase(id);
      case SSD =>
        if ssd != null { freed := ssd.Erase(id); } else { freed := 0; }
    }

    /** Reads one tier's copy of a block. */
    method Read(id: BlockId, tier: Tier) returns (data: Option<Bytes>)
      requires Valid()
      ensures data == if id in M.At(Model(), tier) then Some(M.At(Model(), tier)[id]) else None
    {
      hide TotalBytes, SsdBlockStore.Consistent, SsdBlockStore.Shaped, SsdImage.Scan, SsdImage.LiveBytes;
      data := None;
      match tier
      case HBM =>
        if hbm != null { data := hbm.Get(id); }
      case DRAM =>
        data := dram.Get(id);
      case SSD =>
        if ssd != null {
          var block := ssd.GetCopy(id);
          data := if block.Some? then Some(block.value.data) else None;
        }
    }

    /** The fastest copy that is not empty, or the last one seen. */
    method Find(id: BlockId) returns (found: Tier, bytes: Bytes)
      requires Valid()
      ensures (found, bytes) == M.Find(Model(), id)
    {
      hide TotalBytes, SsdBlockStore.Consistent, SsdBlockStore.Shaped, SsdImage.Scan, SsdImage.LiveBytes;
      found, bytes := SSD, [];
      var copy := Read(id, HBM);
      if copy.Some? { found, bytes := HBM, copy.value; }
      if bytes == [] {
        copy := Read(id, DRAM);
        if copy.Some? { found, bytes := DRAM, copy.value; }
      }
      if bytes == [] {
        copy := Read(id, SSD);
        if copy.Some? { found, bytes := SSD, copy.value; }
      }
    }

    method Get(id: BlockId) returns (r: Option<M.GetResult>)
      requires Valid()
      modifies Footprint()
      ensures Valid()
      ensures (Model(), r) == M.Get(cfg, old(Model()), id)
    {
      hide Valid, M.Fits, M.PutTier, M.EraseTier, M.Find, M.Touch, M.Promote, M.Promotes;
      var found, bytes := Find(id);
      if bytes == [] && found == SSD {
        return None;
      }
      var count := Touch(id);
      var promoted := Promote(id, found, bytes, count);
      r := Some(M.GetResult(bytes, found, promoted));
    }

    method Touch(id: BlockId) returns (count: nat)
      requires Valid()
      modifies this
      ensures Valid() && Model() == M.Touch(old(Model()), id) && count == M.Count(Model(), id)
    {
      hide TotalBytes, SsdBlockStore.Consistent, SsdBlockStore.Shaped, SsdImage.Scan, SsdImage.LiveBytes;
      count := ((if id in accessCounts then accessCounts[id] else 0) + 1) % U32_MODULUS;
      accessCounts := accessCounts[id := count];
      visited := visited + {id};
    }

    method Promote(id: BlockId, found: Tier, bytes: Bytes, count: nat) returns (promoted: bool)
      requires Valid() && count == M.Count(Model(), id)
      modifies Footprint()
      ensures Valid()
      ensures promoted == M.Promotes(cfg, old(Model()), found, id, bytes)
      ensures Model() == M.Promote(cfg, old(Model()), found, id, bytes)
    {
      assert hbm == null <==> cfg.hbmBytes == 0;
      hide Valid, M.Fits, M.PutTier, M.EraseTier;
      promoted := false;
      if cfg.enablePromotion && count >= cfg.promotionThreshold && found != HBM {
        var target := if found == SSD then DRAM else HBM;
        if target == HBM && hbm == null {
          target := DRAM;
        }
        if target != found {
          var ok := PutToTier(KvBlock(id, bytes, target, 0), target);
          if ok {
            var _ := EraseFromTier(id, found);
            promoted := true;
          }
        }
      }
    }

    method Put(block: KvBlock, hint: Tier) returns (landed: Option<Tier>)
      requires Valid()
      modifies Footprint()
      ensures Valid()
      ensures (Model(), landed) == M.Put(cfg, old(Model()), block.id, block.data, hint)
    {
      hide Valid, M.Fits, M.PutTier;
      var row := match hint case HBM => [HBM, DRAM, SSD] case DRAM => [DRAM, SSD, SSD] case SSD => [SSD, SSD, SSD];
      var k := 0;
      while k < 3
        invariant 0 <= k <= |M.Row(hint)|
        invariant Valid() && Model() == old(Model())
        invariant M.Landing(cfg, Model(), M.Row(hint), block.id, block.data)
               == M.Landing(cfg, Model(), M.Row(hint)[k..], block.id, block.data)
      {
        var ok := PutToTier(block, row[k]);
        if ok {
          return Some(row[k]);
        }
        if row[k] == SSD {
          return None;
        }
        k := k + 1;
      }
      landed := None;
    }

    method Demote(id: BlockId) returns (ok: bool)
      requires Valid()
      modifies Footprint()
      ensures Valid()
      ensures (Model(), ok) == M.Demote(cfg, old(Model()), id)
    {
      hide Valid, M.Fits, M.PutTier, M.EraseTier;
      var data := Read(id, HBM);
      if data.Some? {
        ok := PutToTier(KvBlock(id, data.value, DRAM, 0), DRAM);
        if !ok {
          ok := PutToTier(KvBlock(id, data.value, SSD, 0), SSD);
          if !ok {
            return false;
          }
        }
        var _ := EraseFromTier(id, HBM);
        return true;
      }
      data := Read(id, DRAM);
      if data.Some? {
        ok := PutToTier(KvBlock(id, data.value, SSD, 0), SSD);
        if !ok {
          return false;
        }
        var _ := EraseFromTier(id, DRAM);
        return true;
      }
      return false;
    }

    method Erase(id: BlockId) returns (freed: nat)
      requires Valid()
      modifies Footprint()
      ensures Valid()
      ensures (Model(), freed) == M.Erase(old(Model()), id)
    {
      hide Valid;
      var f1 := EraseFromTier(id, HBM);
      var f2 := EraseFromTier(id, DRAM);
      var f3 := EraseFromTier(id, SSD);
      freed := f1 + f2 + f3;
      Forget(id);
    }

    method Forget(id: BlockId)
      requires Valid()
      modifies this
      ensures Valid()
      ensures Model() == old(Model()).(counts := old(Model()).counts - {id}, visited := old(Model()).visited - {id})
    {
      hide TotalBytes, SsdBlockStore.Consistent, SsdBlockStore.Shaped, SsdImage.Scan, SsdImage.LiveBytes;
      accessCounts := accessCounts - {id};
      visited := visited - {id};
    }

    method MarkVisited(id: BlockId)
      requires Valid()
      modifies this
      ensures Valid() && Model() == old(Model()).(visited := old(Model()).visited + {id})
    {
      hide TotalBytes, SsdBlockStore.Consistent, SsdBlockStore.Shaped, SsdImage.Scan, SsdImage.LiveBytes;
      visited := visited + {id};
    }

    method ClearVisited(id: BlockId)
      requires Valid()
      modifies this
      ensures Valid() && Model() == old(Model()).(visited := old(Model()).visited - {id})
    {
      hide TotalBytes, SsdBlockStore.Consistent, SsdBlockStore.Shaped, SsdImage.Scan, SsdImage.LiveBytes;
      visited := visited - {id};
    }

    method UsedBytes(tier: Tier) returns (n: nat)
      requires Valid()
      ensures n == TotalBytes(M.At(Model(), tier))
    {
      assert TotalBytes(map[]) == 0;
      hide TotalBytes, SsdBlockStore.Consistent, SsdBlockStore.Shaped, SsdImage.Scan, SsdImage.LiveBytes;
      match tier
      case HBM => n := if hbm != null then hbm.usedBytes else 0;
      case DRAM => n := dram.usedBytes;
      case SSD =>
        n := 0;
        if ssd != null {
          ssd.ModelFacts();
          n := ssd.usedBytes;
        }
    }

    method CapacityBytes(tier: Tier) returns (n: nat)
      requires Valid()
      ensures n == M.Capacity(cfg, tier)
    {
      match tier
      case HBM => n := if hbm != null then hbm.capacityBytes else 0;
      case DRAM => n := dram.capacityBytes;
      case SSD => n := if ssd != null then ssd.totalSlots * ssd.slotPayloadBytes else 0;
    }

    method Snapshot(tier: Tier) returns (metas: seq<M.BlockMeta>)
      requires Valid()
      ensures M.IsSnapshot(metas, M.At(Model(), tier), Model().visited)
    {
      metas := Listing(tier);
      ghost var raw := metas;
      hide Valid, Model, M.IsSnapshot;
      for k := 0 to |metas|
        invariant |metas| == |raw|
        invariant forall i | 0 <= i < |raw| ::
          metas[i] == if i < k then raw[i].(visited := raw[i].id in visited) else raw[i]
      {
        metas := metas[k := metas[k].(visited := metas[k].id in visited)];
      }
      M.PaintedSnapshot(raw, metas, M.At(Model(), tier), visited);
      assert Model().visited == visited by { VisitedField(); }
    }

    lemma VisitedField()
      ensures Model().visited == visited
    {}

    method Listing(tier: Tier) returns (metas: seq<M.BlockMeta>)
      requires Valid()
      ensures M.IsSnapshot(metas, M.At(Model(), tier), {})
    {
      hide TotalBytes, SsdBlockStore.Consistent, SsdBlockStore.Shaped, SsdImage.Scan, SsdImage.LiveBytes;
      metas := [];
      match tier
      case HBM =>
        if hbm != null { metas := hbm.Snapshot(); }
      case DRAM =>
        metas := dram.Snapshot();
      case SSD =>
        if ssd != null { metas := ssd.Snapshot(); }
    }
  }
}
