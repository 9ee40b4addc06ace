/**
 Families of inputs on which a pass of the evictor ends above its target or loses a block
 (cache_server/src/eviction.cpp), each one a state that the store can be in.
 */
module EvictionExamples {
  import opened Types
  import opened Sizes
  import opened TieredModel
  import opened EvictionPass
  import opened EvictionRounds
  import opened EvictionOutcome
  import opened EvictionLosses

  /** What the ids of two blocks stand for. */
  function Means(a: BlockId, da: Bytes, db: Bytes): BlockId -> Bytes { (id: BlockId) => if id == a then da else db }

  function Listing(a: BlockId, da: Bytes, b: BlockId, db: Bytes, visited: bool): seq<BlockMeta>
  {
    [BlockMeta(a, |da|, false), BlockMeta(b, |db|, visited)]
  }

  function PairListed(a: BlockId, da: Bytes, b: BlockId, db: Bytes): seq<BlockMeta> { Listing(a, da, b, db, true) }

  lemma TwoListed(a: BlockId, da: Bytes, b: BlockId, db: Bytes, visited: set<BlockId>)
    requires a != b && a !in visited
    ensures IsSnapshot(Listing(a, da, b, db, b in visited), map[a := da, b := db], visited)
  {
    var m0 := Listing(a, da, b, db, b in visited);
    assert m0[0].id == a && m0[1].id == b;
  }

  lemma TwoBlocks(a: BlockId, da: Bytes, b: BlockId, db: Bytes, visited: set<BlockId>)
    requires a != b && a !in visited
    ensures var m := map[a := da, b := db];
            && TotalBytes(m) == |da| + |db| && |m| == 2
            && TotalBytes(Part(m, visited)) == (if b in visited then |db| else 0)
  {
    NoBlocks();
    hide TotalBytes;
    var m := map[a := da, b := db];
    assert m == map[a := da][b := db] && map[][a := da] == map[a := da];
    assert Part(m, visited) == if b in visited then map[][b := db] else map[];
    assert |m| == |m.Keys| && m.Keys == {a, b};
    TotalWith(map[], a, da);
    TotalWith(map[], b, db);
    TotalWith(map[a := da], b, db);
  }

  lemma NoBlocks()
    ensures TotalBytes(map[]) == 0
  {}

  lemma OneBlock(a: BlockId, da: Bytes)
    ensures TotalBytes(map[a := da]) == |da|
  {
    NoBlocks();
    hide TotalBytes;
    assert map[][a := da] == map[a := da];
    TotalWith(map[], a, da);
  }

  // When tiers with none, one and two blocks are in order

  lemma NoneOk(cfg: Config, content: BlockId -> Bytes, t: Tier)
    ensures TierOk(cfg, content, t, map[])
  {
    NoBlocks();
    hide TotalBytes;
  }

  lemma OneOk(cfg: Config, t: Tier, a: BlockId, da: Bytes, db: Bytes)
    requires t != SSD && 0 < |da| <= Capacity(cfg, t)
    ensures TierOk(cfg, Means(a, da, db), t, map[a := da])
  {
    OneBlock(a, da);
    hide TotalBytes;
  }

  lemma TwoOk(cfg: Config, t: Tier, a: BlockId, da: Bytes, b: BlockId, db: Bytes)
    requires a != b && |da| + |db| > 0 && (t != SSD ==> |da| + |db| <= Capacity(cfg, t))
    requires t == SSD ==> cfg.hasSsd && cfg.ssdSlots >= 2 && |da| <= cfg.ssdPayload && |db| <= cfg.ssdPayload
    ensures TierOk(cfg, Means(a, da, db), t, map[a := da, b := db])
  {
    TwoBlocks(a, da, b, db, {});
    hide TotalBytes;
  }

  /** The sums over two blocks, with the hand at the first. */
  lemma TwoSums(m0: seq<BlockMeta>, f: Measure, amount: int)
    requires |m0| == 2
    ensures Sum(m0, 0, f, 0) == 0 && Sum(m0, 0, f, 1) == f(m0[0])
    ensures 0 < amount <= f(m0[0]) ==> Least(m0, 0, f, amount, 0) == 1
  {
    assert Pos(0, 0, 2) == 0;
    assert Sum(m0, 0, f, 1) == Sum(m0, 0, f, 0) + f(m0[0]);
    if 0 < amount <= f(m0[0]) {
      assert Least(m0, 0, f, amount, 0) == Least(m0, 0, f, amount, 1);
    }
  }

  // The second round meets blocks the first has demoted

  /** A tier `t` with an unvisited block `a` and a visited block `b`, met in that order. */
  function Pair(t: Tier, a: BlockId, da: Bytes, b: BlockId, db: Bytes): State
  {
    WithTier(EMPTY.(visited := {b}), t, map[a := da, b := db])
  }

  lemma PairTier(t: Tier, a: BlockId, da: Bytes, b: BlockId, db: Bytes)
    ensures var s0 := Pair(t, a, da, b, db);
            && At(s0, t) == map[a := da, b := db] && s0.visited == {b} && a in Present(s0)
            && forall u: Tier | u != t :: At(s0, u) == map[]
  {}

  lemma PairFacts(cfg: Config, t: Tier, a: BlockId, da: Bytes, b: BlockId, db: Bytes)
    requires a != b && Inv(cfg, Means(a, da, db), Pair(t, a, da, b, db))
    ensures var s0 := Pair(t, a, da, b, db);
            && Ready(cfg, Means(a, da, db), t, s0, PairListed(a, da, b, db))
            && TotalBytes(At(s0, t)) == |da| + |db| && VisitedBytes(s0, t) == |db| && s0.visited == {b}
            && At(s0, t).Keys == {a, b}
  {
    hide TotalBytes, Inv, IsSnapshot, At, Pair, Present, Part;
    PairTier(t, a, da, b, db);
    TwoListed(a, da, b, db, {b});
    TwoBlocks(a, da, b, db, {b});
  }

  /** A pair that fits its tier is a state the store can be in. */
  lemma PairHeld(cfg: Config, t: Tier, a: BlockId, da: Bytes, b: BlockId, db: Bytes)
    requires a != b && t != SSD && 0 < |da| + |db| <= Capacity(cfg, t)
    ensures Inv(cfg, Means(a, da, db), Pair(t, a, da, b, db))
  {
    hide TierOk, Present;
    TwoOk(cfg, t, a, da, b, db);
    NoneOk(cfg, Means(a, da, db), HBM);
    NoneOk(cfg, Means(a, da, db), DRAM);
    NoneOk(cfg, Means(a, da, db), SSD);
  }

  /** In such a tier no block is in HBM too, and the SSD has none. */
  lemma PairOnce(cfg: Config, t: Tier, a: BlockId, da: Bytes, b: BlockId, db: Bytes, spared: set<BlockId>)
    ensures forall id | id in At(Pair(t, a, da, b, db), t) :: !Twice(t, Pair(t, a, da, b, db), id)
    ensures RoomFor(cfg, Pair(t, a, da, b, db), t, spared) ==> t != SSD
  {}

  /** The first block is met first, and again at step 2. */
  lemma PairMet(a: BlockId, da: Bytes, b: BlockId, db: Bytes)
    ensures var m0 := PairListed(a, da, b, db);
            && Met(m0, 0, 0) == m0[0] == Met(m0, 0, 2) && m0[0].id == a && !m0[0].visited
            && !Stays(Pair(DRAM, a, da, b, db), m0, 0, 0)
  {}

  lemma PairLeast(a: BlockId, da: Bytes, b: BlockId, db: Bytes, low: nat)
    requires a != b && low < |db| <= low + |da|
    ensures var m0 := PairListed(a, da, b, db);
            Least(m0, 0, Sized({a, b}), |db| - low, 0) == 1 && Sum(m0, 0, Sized({b}), 1) == 0
  {
    var m0 := PairListed(a, da, b, db);
    TwoSums(m0, Sized({a, b}), |db| - low);
    TwoSums(m0, Sized({b}), 0);
  }

  /**
   Passes that stop above `low`: in the second round the block demoted in the first is met again and
   its bytes are counted again, so the visited one never leaves.
   */
  lemma SecondRoundCountsTwice(cfg: Config, t: Tier, a: BlockId, da: Bytes, b: BlockId, db: Bytes, low: nat)
    requires a != b && low < |db| <= low + |da|
    requires Inv(cfg, Means(a, da, db), Pair(t, a, da, b, db)) && RoomFor(cfg, Pair(t, a, da, b, db), t, {b})
    ensures var s0 := Pair(t, a, da, b, db);
            var end := Finish(cfg, t, Begin(s0, PairListed(a, da, b, db), 0), |da| + |db| - low);
            TotalBytes(At(end.store, t)) > low && end.steps == 3
  {
    hide TotalBytes, Ready, Finish, Least, Sum, At, VisitedBytes, Pair, Inv, RoomFor, Removed, Twice, Means, Sized;
    var s0, m0 := Pair(t, a, da, b, db), PairListed(a, da, b, db);
    PairOnce(cfg, t, a, da, b, db, {b});
    PairFacts(cfg, t, a, da, b, db);
    PairLeast(a, da, b, db, low);
    MeetsLowWhenAcceptedIff(cfg, Means(a, da, db), t, s0, m0, 0, low);
  }

  /** In a DRAM pass the same meeting destroys the demoted block, although the SSD has room for the whole tier. */
  lemma SecondRoundDestroys(cfg: Config, a: BlockId, da: Bytes, b: BlockId, db: Bytes, low: nat)
    requires a != b && low < |db| <= low + |da| && |da| + |db| <= cfg.dramBytes
    requires cfg.hasSsd && cfg.ssdSlots >= 2 && |da| <= cfg.ssdPayload && |db| <= cfg.ssdPayload
    ensures var s0 := Pair(DRAM, a, da, b, db);
            var end := Finish(cfg, DRAM, Begin(s0, PairListed(a, da, b, db), 0), |da| + |db| - low).store;
            a in Present(s0) && a !in Present(end) && TotalBytes(At(end, DRAM)) > low
  {
    hide TotalBytes, Ready, Finish, Least, At, VisitedBytes, Pair, Inv, RoomFor, Means, Sized, Present, Stays, Met, Sum;
    var s0, m0 := Pair(DRAM, a, da, b, db), PairListed(a, da, b, db);
    PairTier(DRAM, a, da, b, db);
    PairMet(a, da, b, db);
    PairHeld(cfg, DRAM, a, da, b, db);
    PairRoom(cfg, a, da, b, db);
    PairFacts(cfg, DRAM, a, da, b, db);
    PairLeast(a, da, b, db, low);
    RoomForFewer(cfg, s0, DRAM, {b});
    SecondRoundCountsTwice(cfg, DRAM, a, da, b, db, low);
    DramKeepsIff(cfg, Means(a, da, db), s0, m0, 0, low);
  }

  lemma PairRoom(cfg: Config, a: BlockId, da: Bytes, b: BlockId, db: Bytes)
    requires a != b && cfg.hasSsd && cfg.ssdSlots >= 2 && |da| <= cfg.ssdPayload && |db| <= cfg.ssdPayload
    ensures RoomFor(cfg, Pair(DRAM, a, da, b, db), DRAM, {})
  {
    var s0 := Pair(DRAM, a, da, b, db);
    var m := Rest(s0, DRAM, {});
    assert m == map[a := da, b := db];
    assert s0.ssd.Keys + m.Keys == {a, b};
  }

  /** An HBM pass with no SSD below loses the demoted block the same way, although DRAM has room for the whole tier. */
  lemma HbmSecondRoundDestroys(cfg: Config, a: BlockId, da: Bytes, b: BlockId, db: Bytes, low: nat)
    requires a != b && low < |db| <= low + |da| && !cfg.hasSsd
    requires |da| + |db| <= cfg.hbmBytes && |da| + |db| <= cfg.dramBytes
    ensures var s0 := Pair(HBM, a, da, b, db);
            var end := Finish(cfg, HBM, Begin(s0, PairListed(a, da, b, db), 0), |da| + |db| - low).store;
            a in Present(s0) && a !in Present(end) && TotalBytes(At(end, HBM)) > low
  {
    hide TotalBytes, Ready, Finish, At, VisitedBytes, Pair, Inv, RoomFor, Means, Sized, Present, Met, Sum, DramRoom;
    hide TakenAt, Iter, AllTaken, Spared;
    var s0, m0 := Pair(HBM, a, da, b, db), PairListed(a, da, b, db);
    PairTier(HBM, a, da, b, db);
    PairMet(a, da, b, db);
    PairHeld(cfg, HBM, a, da, b, db);
    PairFacts(cfg, HBM, a, da, b, db);
    PairDram(cfg, a, da, b, db);
    HbmRoom(cfg, s0);
    RoomForFewer(cfg, s0, HBM, {b});
    SecondRoundCountsTwice(cfg, HBM, a, da, b, db, low);
    LosesNothingIff(cfg, Means(a, da, db), HBM, s0, m0, 0, |da| + |db| - low);
    FromDram(cfg, Means(a, da, db), s0, m0, 0, 0);
  }

  lemma PairDram(cfg: Config, a: BlockId, da: Bytes, b: BlockId, db: Bytes)
    requires a != b && |da| + |db| <= cfg.dramBytes
    ensures var s0 := Pair(HBM, a, da, b, db); DramRoom(cfg, s0, s0.hbm)
  {
    hide TotalBytes;
    var s0 := Pair(HBM, a, da, b, db);
    assert s0.hbm - s0.dram.Keys == s0.hbm == map[a := da, b := db];
    NoBlocks();
    TwoBlocks(a, da, b, db, {});
  }

  // A block in two tiers

  /** A block in HBM and DRAM, and another in DRAM, none visited. */
  function DramCopy(a: BlockId, da: Bytes, b: BlockId, db: Bytes): State
  {
    EMPTY.(hbm := map[a := da], dram := map[a := da, b := db])
  }

  /**
   A DRAM pass whose first removal takes the HBM copy and counts it: it stops there, with nothing
   taken from DRAM, although no block is visited.
   */
  lemma DramPassTakesHbmCopy(cfg: Config, a: BlockId, da: Bytes, b: BlockId, db: Bytes, low: nat)
    requires a != b && |db| <= low < |da| + |db| <= cfg.dramBytes && |da| <= cfg.hbmBytes
    ensures var s0 := DramCopy(a, da, b, db);
            var end := Finish(cfg, DRAM, Begin(s0, Listing(a, da, b, db, false), 0), |da| + |db| - low);
            && Inv(cfg, Means(a, da, db), s0)
            && end.steps == 1 && TotalBytes(At(end.store, DRAM)) == TotalBytes(At(s0, DRAM)) > low
  {
    hide TotalBytes, Inv, Ready, Finish, Least, Sum, Counted, Sized, Gone1, VisitedBytes, Topmost, Gone2, AfterFirst;
    hide At, Means, DramCopy;
    var s0, m0 := DramCopy(a, da, b, db), Listing(a, da, b, db, false);
    var first := Counted(DRAM, s0, {});
    DramCopyFacts(cfg, a, da, b, db);
    DramCopyCounts(a, da, b, db);
    TwoSums(m0, first, |da| + |db| - low);
    TwoSums(m0, Sized(Gone1(DRAM, s0)), 0);
    MeetsLowInOneRoundIff(cfg, Means(a, da, db), DRAM, s0, m0, 0, low);
  }

  lemma DramCopyFacts(cfg: Config, a: BlockId, da: Bytes, b: BlockId, db: Bytes)
    requires a != b && |da| + |db| <= cfg.dramBytes && 0 < |da| <= cfg.hbmBytes
    ensures var s0 := DramCopy(a, da, b, db);
            && Ready(cfg, Means(a, da, db), DRAM, s0, Listing(a, da, b, db, false)) && Inv(cfg, Means(a, da, db), s0)
            && TotalBytes(At(s0, DRAM)) == |da| + |db| && VisitedBytes(s0, DRAM) == 0 && s0.visited == {}
  {
    hide TotalBytes, TierOk, IsSnapshot, Part, Means;
    OneOk(cfg, HBM, a, da, db);
    TwoOk(cfg, DRAM, a, da, b, db);
    NoneOk(cfg, Means(a, da, db), SSD);
    TwoListed(a, da, b, db, {});
    TwoBlocks(a, da, b, db, {});
  }

  /** The first removal counts the size and takes nothing from DRAM. */
  lemma DramCopyCounts(a: BlockId, da: Bytes, b: BlockId, db: Bytes)
    ensures var s0, meta := DramCopy(a, da, b, db), BlockMeta(a, |da|, false);
            Counted(DRAM, s0, {})(meta) == |da| && Sized(Gone1(DRAM, s0))(meta) == 0
  {}

  /** A block in DRAM and on the SSD, and another on the SSD, none visited. */
  function SsdCopy(a: BlockId, da: Bytes, b: BlockId, db: Bytes): State
  {
    EMPTY.(dram := map[a := da], ssd := map[a := da, b := db])
  }

  /**
   An SSD pass whose first removal counts the DRAM copy with the SSD one: it stops above `low`, and
   the block is gone from DRAM too.
   */
  lemma SsdPassCountsBothCopies(cfg: Config, a: BlockId, da: Bytes, b: BlockId, db: Bytes, low: nat)
    requires a != b && |da| < |da| + |db| - low <= 2 * |da| && |da| <= cfg.dramBytes
    requires cfg.hasSsd && cfg.ssdSlots >= 2 && |da| <= cfg.ssdPayload && |db| <= cfg.ssdPayload
    ensures var s0 := SsdCopy(a, da, b, db);
            var end := Finish(cfg, SSD, Begin(s0, Listing(a, da, b, db, false), 0), |da| + |db| - low);
            && Inv(cfg, Means(a, da, db), s0)
            && end.steps == 1 && TotalBytes(At(end.store, SSD)) == |db| > low
            && a in s0.dram && a !in Present(end.store)
  {
    hide TotalBytes, Inv, Ready, Finish, Least, Sum, Counted, Sized, Gone1, VisitedBytes, Topmost, Gone2, AfterFirst;
    hide At, Means, SsdCopy, Present, TakenAt, AllTaken, Met;
    var s0, m0 := SsdCopy(a, da, b, db), Listing(a, da, b, db, false);
    var first := Counted(SSD, s0, {});
    SsdCopyFacts(cfg, a, da, b, db);
    SsdCopyCounts(cfg, a, da, b, db);
    TwoSums(m0, first, |da| + |db| - low);
    TwoSums(m0, Sized(Gone1(SSD, s0)), 0);
    MeetsLowInOneRoundIff(cfg, Means(a, da, db), SSD, s0, m0, 0, low);
    LosesNothingIff(cfg, Means(a, da, db), SSD, s0, m0, 0, |da| + |db| - low);
  }

  lemma SsdCopyFacts(cfg: Config, a: BlockId, da: Bytes, b: BlockId, db: Bytes)
    requires a != b && 0 < |da| <= cfg.dramBytes
    requires cfg.hasSsd && cfg.ssdSlots >= 2 && |da| <= cfg.ssdPayload && |db| <= cfg.ssdPayload
    ensures var s0 := SsdCopy(a, da, b, db);
            && Ready(cfg, Means(a, da, db), SSD, s0, Listing(a, da, b, db, false)) && Inv(cfg, Means(a, da, db), s0)
            && TotalBytes(At(s0, SSD)) == |da| + |db| && VisitedBytes(s0, SSD) == 0 && s0.visited == {} && a in s0.dram
  {
    hide TotalBytes, TierOk, IsSnapshot, Part, Means;
    OneOk(cfg, DRAM, a, da, db);
    TwoOk(cfg, SSD, a, da, b, db);
    NoneOk(cfg, Means(a, da, db), HBM);
    TwoListed(a, da, b, db, {});
    TwoBlocks(a, da, b, db, {});
  }

  /** The first removal counts the size twice, takes it from the SSD once and is not a demotion. */
  lemma SsdCopyCounts(cfg: Config, a: BlockId, da: Bytes, b: BlockId, db: Bytes)
    ensures var s0, m0 := SsdCopy(a, da, b, db), Listing(a, da, b, db, false);
            && Counted(SSD, s0, {})(m0[0]) == 2 * |da| && Sized(Gone1(SSD, s0))(m0[0]) == |da|
            && !TakenAt(cfg, SSD, s0, m0, 0, 0) && Met(m0, 0, 0).id == a
  {}
}
