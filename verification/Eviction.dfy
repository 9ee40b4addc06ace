/** The evictor's pass over one tier (cache_server/src/eviction.cpp), proved against EvictionPass. */
module Eviction {
  import opened Types
  import opened Sizes
  import M = TieredModel
  import opened EvictionPass
  import EvictionExamples
  import TieredStore

  datatype PassResult = PassResult(hbmEvicted: nat, dramEvicted: nat, ssdEvicted: nat, bytesFreed: nat,
                                   blocksBroadcast: nat)

  const NOTHING := PassResult(0, 0, 0, 0, 0)

  function Watermark(capacity: nat, percent: nat): nat { capacity * percent / 100 }

  /** Unsigned subtraction: with a low watermark above the usage it wraps. */
  function Need(used: nat, low: nat): nat
    requires low <= used + U64_MODULUS
  {
    if used >= low then used - low else used - low + U64_MODULUS
  }

  class Evictor {
    const highPercent: nat
    const lowPercent: nat
    const broadcastEvictions: bool
    const store: TieredStore.TieredStore
    var hand: map<Tier, nat>

    ghost predicate Valid()
      reads this, store.Footprint()
    {
      this !in store.Footprint() && store.Valid() && hand.Keys == {HBM, DRAM, SSD}
    }

    constructor (store: TieredStore.TieredStore, highPercent: nat, lowPercent: nat, broadcastEvictions: bool)
      requires store.Valid()
      ensures Valid() && this.store == store && this.highPercent == highPercent && this.lowPercent == lowPercent
      ensures this.broadcastEvictions == broadcastEvictions
      ensures hand == map[HBM := 0, DRAM := 0, SSD := 0] && store.Model() == old(store.Model())
    {
      hide TieredStore.TieredStore.Valid, TieredStore.TieredStore.Model;
      this.store, this.highPercent, this.lowPercent := store, highPercent, lowPercent;
      this.broadcastEvictions := broadcastEvictions;
      hand := map[HBM := 0, DRAM := 0, SSD := 0];
    }

    /** A pass does nothing at or below the high watermark; above it, it is exactly Finish. */
    method RunPassForTier(tier: Tier) returns (r: PassResult, ghost metas: seq<M.BlockMeta>)
      requires Valid()
      requires Watermark(M.Capacity(store.cfg, tier), lowPercent) <= U64_MODULUS
      modifies this, store.Footprint()
      ensures Valid()
      ensures var cap := M.Capacity(store.cfg, tier);
              var s0 := old(store.Model());
              var used := TotalBytes(M.At(s0, tier));
              if cap == 0 || used == 0 || used <= Watermark(cap, highPercent) then
                store.Model() == s0 && hand == old(hand) && r == NOTHING
              else
                var end := Finish(store.cfg, tier, Pass(s0, metas, old(hand)[tier], 0, 0, []),
                                  Need(used, Watermark(cap, lowPercent)));
                && metas != [] && M.IsSnapshot(metas, M.At(s0, tier), s0.visited)
                && store.Model() == end.store && hand == old(hand)[tier := end.hand]
                && r.hbmEvicted == (if tier == HBM then |end.evicted| else 0)
                && r.dramEvicted == (if tier == DRAM then |end.evicted| else 0)
                && r.ssdEvicted == (if tier == SSD then |end.evicted| else 0)
                && r.bytesFreed == end.freed && r.blocksBroadcast == (if broadcastEvictions then |end.evicted| else 0)
    {
      hide TieredStore.TieredStore.Valid, TieredStore.TieredStore.Model;
      hide TotalBytes, M.IsSnapshot, Watermark, Need, M.Capacity, Finish;
      metas := [];
      r := NOTHING;
      var cap := store.CapacityBytes(tier);
      var used := store.UsedBytes(tier);
      if cap == 0 || used == 0 {
        return;
      }
      var high := Watermark(cap, highPercent);
      var low := Watermark(cap, lowPercent);
      if used <= high {
        return;
      }
      var blocks := store.Snapshot(tier);
      metas := blocks;
      ghost var s0 := store.Model();
      SnapshotNonEmpty(blocks, M.At(s0, tier), s0.visited);
      var h, freed, evicted := Sweep(tier, blocks, hand[tier], Need(used, low));
      hand := hand[tier := h];
      match tier {
        case HBM => r := r.(hbmEvicted := evicted);
        case DRAM => r := r.(dramEvicted := evicted);
        case SSD => r := r.(ssdEvicted := evicted);
      }
      r := r.(bytesFreed := freed);
      if broadcastEvictions && evicted > 0 {
        r := r.(blocksBroadcast := evicted);
      }
    }

    /** The walk: at most two rounds over the snapshot, stopping once enough is freed. */
    method Sweep(tier: Tier, metas: seq<M.BlockMeta>, start: nat, need: nat) returns (h: nat, freed: nat, evicted: nat)
      requires store.Valid()
      modifies store.Footprint()
      ensures store.Valid()
      ensures var end := Finish(store.cfg, tier, Pass(old(store.Model()), metas, start, 0, 0, []), need);
              store.Model() == end.store && h == end.hand && freed == end.freed && evicted == |end.evicted|
    {
      hide TieredStore.TieredStore.Valid, TieredStore.TieredStore.Model, Remove, Finish;
      ghost var first := Pass(store.Model(), metas, start, 0, 0, []);
      var blocks, ids: seq<BlockId>, steps: nat := metas, [], 0;
      h, freed := start, 0;
      while freed < need && steps < 2 * |blocks|
        invariant store.Valid()
        invariant Finish(store.cfg, tier, Pass(store.Model(), blocks, h, steps, freed, ids), need)
               == Finish(store.cfg, tier, first, need)
        decreases 2 * |blocks| - steps
      {
        ghost var p := Pass(store.Model(), blocks, h, steps, freed, ids);
        FinishUnfolds(store.cfg, tier, p, need);
        if h >= |blocks| { h := 0; }
        var meta := blocks[h];
        if meta.visited {
          store.ClearVisited(meta.id);
          blocks := blocks[h := meta.(visited := false)];
        } else {
          var bytes := RemoveBlock(tier, meta);
          freed := freed + bytes;
          ids := ids + [meta.id];
        }
        h := h + 1;
        steps := steps + 1;
        assert Pass(store.Model(), blocks, h, steps, freed, ids) == Step(store.cfg, tier, p);
      }
      FinishUnfolds(store.cfg, tier, Pass(store.Model(), blocks, h, steps, freed, ids), need);
      evicted := |ids|;
    }

    method RemoveBlock(tier: Tier, meta: M.BlockMeta) returns (bytes: nat)
      requires store.Valid()
      modifies store.Footprint()
      ensures store.Valid() && (store.Model(), bytes) == Remove(store.cfg, tier, old(store.Model()), meta)
    {
      hide M.Demote, M.Erase, TieredStore.TieredStore.Valid, TieredStore.TieredStore.Model;
      var demoted := false;
      if tier != SSD {
        M.DemoteRefused(store.cfg, store.Model(), meta.id);
        demoted := store.Demote(meta.id);
      }
      if demoted {
        bytes := meta.sizeBytes;
      } else {
        bytes := store.Erase(meta.id);
      }
    }
  }

  /**
   At the default watermarks of 90 and 75 percent, 100 bytes of DRAM and an SSD with room for both: a
   pass over a 15-byte block and a visited 80-byte block ends above the low watermark and has destroyed
   the small one.
   */
  lemma DefaultWatermarksLoseABlock(cfg: M.Config, a: BlockId, da: Bytes, b: BlockId, db: Bytes)
    requires a != b && |da| == 15 && |db| == 80 && cfg.dramBytes == 100
    requires cfg.hasSsd && cfg.ssdSlots >= 2 && cfg.ssdPayload >= 80
    ensures var s0 := EvictionExamples.Pair(DRAM, a, da, b, db);
            var cap := M.Capacity(cfg, DRAM);
            var used, low := TotalBytes(M.At(s0, DRAM)), Watermark(cap, 75);
            var end := Finish(cfg, DRAM, Pass(s0, EvictionExamples.PairListed(a, da, b, db), 0, 0, 0, []),
                              Need(used, low)).store;
            && used > Watermark(cap, 90)
            && TotalBytes(M.At(end, DRAM)) > low
            && a in M.Present(s0) && a !in M.Present(end)
  {
    hide Finish, TotalBytes, M.At, M.Present, EvictionExamples.Pair, EvictionExamples.Means, M.Inv;
    EvictionExamples.PairHeld(cfg, DRAM, a, da, b, db);
    EvictionExamples.PairFacts(cfg, DRAM, a, da, b, db);
    EvictionExamples.SecondRoundDestroys(cfg, a, da, b, db, 75);
  }

  /** A watermark is the given part of the capacity, rounded down. */
  lemma WatermarkExact(capacity: nat, percent: nat)
    ensures var w := Watermark(capacity, percent); 100 * w <= capacity * percent < 100 * (w + 1)
  {}

  /** A pass that runs needs just the bytes above the low watermark, unless that lies above the high one. */
  lemma NeedsTheExcess(capacity: nat, used: nat, highPercent: nat, lowPercent: nat)
    requires lowPercent <= highPercent && used > Watermark(capacity, highPercent)
    ensures var low := Watermark(capacity, lowPercent);
            low <= used + U64_MODULUS && Need(used, low) == used - low > 0
  {
    MulMonotone(lowPercent, highPercent, capacity);
    assert capacity * lowPercent <= capacity * highPercent;
    WatermarkExact(capacity, lowPercent);
    WatermarkExact(capacity, highPercent);
  }

  /** A low watermark above the usage wraps around. */
  lemma NeedWraps(used: nat, low: nat)
    requires used < low <= used + U64_MODULUS
    ensures Need(used, low) + low == used + U64_MODULUS
  {}

  lemma SnapshotNonEmpty(metas: seq<M.BlockMeta>, m: M.Blocks, visited: set<BlockId>)
    requires M.IsSnapshot(metas, m, visited) && TotalBytes(m) > 0
    ensures metas != []
  {
    assert m != map[];
    assert m.Keys != {};
    var id :| id in m;
  }
}
