/**
 What a pass of the evictor loses (cache_server/src/eviction.cpp): a block it removes stays in the
 store exactly when a slower tier takes it at that step, and a block met again in the second round
 is removed once more, from where the first round put it.
 */
module EvictionLosses {
  import opened Types
  import opened Sizes
  import opened TieredModel
  import opened EvictionPass
  import opened EvictionRounds
  import opened EvictionOutcome

  // No loss, step by step

  /** Step `j` spares its block, or a slower tier takes it. */
  ghost predicate TakenAt(cfg: Config, t: Tier, s0: State, m0: seq<BlockMeta>, hand: nat, j: nat)
    requires m0 != [] && j < 2 * |m0|
  {
    Spared(m0, hand, j) || Taken(cfg, t, Iter(cfg, t, Begin(s0, m0, hand), j).store, Met(m0, hand, j).id)
  }

  ghost predicate AllTaken(cfg: Config, t: Tier, s0: State, m0: seq<BlockMeta>, hand: nat, k: nat)
    requires m0 != [] && k <= 2 * |m0|
  {
    forall j | 0 <= j < k :: TakenAt(cfg, t, s0, m0, hand, j)
  }

  /** The blocks that no slower tier took. */
  ghost function LostIds(cfg: Config, t: Tier, s0: State, m0: seq<BlockMeta>, hand: nat, k: nat): set<BlockId>
    requires m0 != [] && k <= 2 * |m0|
  {
    set j | 0 <= j < k && !TakenAt(cfg, t, s0, m0, hand, j) :: Met(m0, hand, j).id
  }

  lemma LostNext(cfg: Config, t: Tier, s0: State, m0: seq<BlockMeta>, hand: nat, k: nat)
    requires m0 != [] && 0 < k <= 2 * |m0|
    ensures LostIds(cfg, t, s0, m0, hand, k) == LostIds(cfg, t, s0, m0, hand, k - 1)
              + if TakenAt(cfg, t, s0, m0, hand, k - 1) then {} else {Met(m0, hand, k - 1).id}
  {
    hide TakenAt, Met;
  }

  lemma {:induction false} Keeps(cfg: Config, content: BlockId -> Bytes, t: Tier, s0: State, m0: seq<BlockMeta>,
                                 hand: nat, k: nat)
    requires m0 != [] && Ready(cfg, content, t, s0, m0) && k <= 2 * |m0|
    ensures Present(Iter(cfg, t, Begin(s0, m0, hand), k).store) == Present(s0) - LostIds(cfg, t, s0, m0, hand, k)
  {
    hide Ready, Step, Present, TotalBytes, Weight, Taken, Twice, At, Alike, Met, Spared;
    if k > 0 {
      hide LostIds;
      Keeps(cfg, content, t, s0, m0, hand, k - 1);
      StepLaw(cfg, content, t, s0, m0, hand, k - 1);
      LostNext(cfg, t, s0, m0, hand, k);
    }
  }

  /** Everything lost was there, so nothing is lost exactly when everything is taken. */
  lemma KeptIff(cfg: Config, content: BlockId -> Bytes, t: Tier, s0: State, m0: seq<BlockMeta>, hand: nat, k: nat)
    requires m0 != [] && Ready(cfg, content, t, s0, m0) && k <= 2 * |m0|
    ensures Present(Iter(cfg, t, Begin(s0, m0, hand), k).store) == Present(s0) <==> AllTaken(cfg, t, s0, m0, hand, k)
  {
    hide Ready, Iter, Present, At, Met, TakenAt;
    Keeps(cfg, content, t, s0, m0, hand, k);
    forall j | 0 <= j < k && !TakenAt(cfg, t, s0, m0, hand, j)
      ensures Met(m0, hand, j).id in Present(s0) && Met(m0, hand, j).id in LostIds(cfg, t, s0, m0, hand, k)
    {
      MetPresent(cfg, content, t, s0, m0, hand, j);
    }
  }

  lemma AllTakenNext(cfg: Config, t: Tier, s0: State, m0: seq<BlockMeta>, hand: nat, k: nat)
    requires m0 != [] && 0 < k <= 2 * |m0|
    ensures AllTaken(cfg, t, s0, m0, hand, k) <==>
            AllTaken(cfg, t, s0, m0, hand, k - 1) && TakenAt(cfg, t, s0, m0, hand, k - 1)
  {
    hide TakenAt;
  }

  lemma MetPresent(cfg: Config, content: BlockId -> Bytes, t: Tier, s0: State, m0: seq<BlockMeta>, hand: nat, k: nat)
    requires Ready(cfg, content, t, s0, m0) && k < 2 * |m0|
    ensures var meta := Met(m0, hand, k);
            meta.id in At(s0, t) && meta.id in Present(s0) && meta.sizeBytes == |At(s0, t)[meta.id]|
    ensures Met(m0, hand, k).visited <==> Met(m0, hand, k).id in s0.visited
  {
    HandAt(Wrap(hand, |m0|), k, |m0|);
    hide Inv, Pos, Off;
  }

  /**
   What is lost: a pass over any tier, to any target, ends with the ids it began with less those it
   removed, in either round, when no slower tier took them; so it loses none exactly when slower tiers
   took every block it removed as the hand came to it.
   */
  lemma LosesNothingIff(cfg: Config, content: BlockId -> Bytes, t: Tier, s0: State, m0: seq<BlockMeta>, hand: nat,
                        need: nat)
    requires m0 != [] && Ready(cfg, content, t, s0, m0)
    ensures var end := Finish(cfg, t, Begin(s0, m0, hand), need);
            && end.steps <= 2 * |m0|
            && Present(end.store) == Present(s0) - LostIds(cfg, t, s0, m0, hand, end.steps)
            && (Present(end.store) == Present(s0) <==> AllTaken(cfg, t, s0, m0, hand, end.steps))
  {
    hide Ready, Step, Present, Finish, AllTaken, Stops, LostIds;
    FinishIsIter(cfg, t, Begin(s0, m0, hand), need, 0);
    var n :| 0 <= n <= 2 * |m0| && Finish(cfg, t, Begin(s0, m0, hand), need) == Iter(cfg, t, Begin(s0, m0, hand), n);
    IterSteps(cfg, t, Begin(s0, m0, hand), n);
    Keeps(cfg, content, t, s0, m0, hand, n);
    KeptIff(cfg, content, t, s0, m0, hand, n);
  }

  /**
   One removal, whatever copies there are: what it counts, and that it loses the block exactly when
   nothing takes it.
   */
  lemma RemoveDemotes(cfg: Config, content: BlockId -> Bytes, t: Tier, s: State, meta: BlockMeta)
    requires Inv(cfg, content, s) && meta.id in Present(s) && meta.sizeBytes == |content(meta.id)|
    ensures var (s', bytes) := Remove(cfg, t, s, meta);
            && (Present(s') == Present(s) <==> Taken(cfg, t, s, meta.id))
            && (Taken(cfg, t, s, meta.id) ==> s' == Demote(cfg, s, meta.id).0)
            && bytes == Weight(t, s, meta)
  {
    hide Inv, Demote, Erase, Present, Weight, Demotable;
    DemoteIff(cfg, s, meta.id);
    RemovePresent(cfg, t, s, meta);
    RemoveCounts(cfg, content, t, s, meta);
  }

  // Room for the victims

  /** The blocks of tier `t` outside `spared`. */
  ghost function Rest(s: State, t: Tier, spared: set<BlockId>): Blocks
  {
    map id | id in At(s, t) && id !in spared :: At(s, t)[id]
  }

  /** The SSD tier has a slot for every block of `m` that it has not got. */
  ghost predicate SsdRoom(cfg: Config, s: State, m: Blocks)
  {
    cfg.hasSsd && |s.ssd.Keys + m.Keys| <= cfg.ssdSlots && forall id | id in m :: |m[id]| <= cfg.ssdPayload
  }

  /** The DRAM tier has the bytes for every block of `m` that it has not got. */
  ghost predicate DramRoom(cfg: Config, s: State, m: Blocks)
  {
    TotalBytes(s.dram) + TotalBytes(m - s.dram.Keys) <= cfg.dramBytes
  }

  /** Slower tiers have room for every block of `t` outside `spared`. */
  ghost predicate RoomFor(cfg: Config, s: State, t: Tier, spared: set<BlockId>)
  {
    var m := Rest(s, t, spared);
    match t
    case HBM => DramRoom(cfg, s, m) || SsdRoom(cfg, s, m)
    case DRAM => SsdRoom(cfg, s, m)
    case SSD => false
  }

  lemma SsdRoomFits(cfg: Config, s: State, m: Blocks, id: BlockId)
    requires SsdRoom(cfg, s, m) && id in m
    ensures Fits(cfg, s, SSD, id, m[id])
  {
    SubsetSize(s.ssd.Keys + {id}, s.ssd.Keys + m.Keys);
    assert |s.ssd| == |s.ssd.Keys|;
  }

  lemma DramRoomFits(cfg: Config, s: State, m: Blocks, id: BlockId)
    requires DramRoom(cfg, s, m) && id in m
    ensures Fits(cfg, s, DRAM, id, m[id])
  {
    hide TotalBytes;
    if id !in s.dram {
      TotalWithout(m - s.dram.Keys, id);
    }
  }

  /** A block moved to the SSD still leaves room for the others. */
  lemma SsdRoomStays(cfg: Config, s: State, s': State, m: Blocks, id: BlockId)
    requires SsdRoom(cfg, s, m) && id in m && s'.ssd.Keys <= s.ssd.Keys + {id}
    ensures SsdRoom(cfg, s', m - {id})
  {
    SubsetSize(s'.ssd.Keys + (m - {id}).Keys, s.ssd.Keys + m.Keys);
  }

  lemma DramRoomStays(cfg: Config, s: State, s': State, m: Blocks, id: BlockId)
    requires DramRoom(cfg, s, m) && id in m && s'.dram == if id in s.dram then s.dram else s.dram[id := m[id]]
    ensures DramRoom(cfg, s', m - {id})
  {
    hide TotalBytes;
    var others := m - s.dram.Keys;
    if id in s.dram {
      assert (m - {id}) - s.dram.Keys == others;
    } else {
      TotalWithout(others, id);
      TotalWith(s.dram, id, m[id]);
      assert (m - {id}) - s'.dram.Keys == others - {id};
    }
  }

  lemma RestWithout(s: State, s': State, t: Tier, spared: set<BlockId>, id: BlockId)
    requires At(s', t) == At(s, t) - {id}
    ensures Rest(s', t, spared) == Rest(s, t, spared) - {id}
  {}

  /** What a demotion does to each tier. */
  lemma DemoteTiers(cfg: Config, s: State, from: Tier, to: Tier, id: BlockId, data: Bytes)
    requires from != to && from != SSD && to != HBM && Fits(cfg, s, to, id, data)
    ensures var s' := EraseTier(PutTier(cfg, s, to, id, data), from, id);
            && At(s', from) == At(s, from) - {id}
            && At(s', to) == (if id in At(s, to) then At(s, to) else At(s, to)[id := data])
            && (from == HBM && to == DRAM ==> s'.ssd == s.ssd) && (from == HBM && to == SSD ==> s'.dram == s.dram)
            && (from == DRAM ==> s'.hbm == s.hbm)
  {
    hide Fits, PutTier, EraseTier;
    var s' := EraseTier(PutTier(cfg, s, to, id, data), from, id);
    MoveTakes(cfg, s, from, to, id, data);
    assert At(s', HBM) == s'.hbm && At(s', DRAM) == s'.dram && At(s', SSD) == s'.ssd;
    assert At(s, HBM) == s.hbm && At(s, DRAM) == s.dram && At(s, SSD) == s.ssd;
    hide At;
  }

  /** With room for it a victim is taken, and there is still room for the others. */
  lemma RoomTakes(cfg: Config, t: Tier, s: State, spared: set<BlockId>, id: BlockId)
    requires RoomFor(cfg, s, t, spared) && id in At(s, t) && id !in spared
    ensures Taken(cfg, t, s, id) && RoomFor(cfg, Demote(cfg, s, id).0, t, spared)
  {
    if t == HBM {
      HbmRoomTakes(cfg, s, spared, id);
    } else {
      DramRoomTakes(cfg, s, spared, id);
    }
  }

  lemma HbmRoomTakes(cfg: Config, s: State, spared: set<BlockId>, id: BlockId)
    requires RoomFor(cfg, s, HBM, spared) && id in s.hbm && id !in spared
    ensures Demotable(cfg, s, id) && RoomFor(cfg, Demote(cfg, s, id).0, HBM, spared)
  {
    hide TotalBytes, Fits, SsdRoom, DramRoom, PutTier, EraseTier;
    var m, data, s' := Rest(s, HBM, spared), s.hbm[id], Demote(cfg, s, id).0;
    assert id in m && m[id] == data;
    if DramRoom(cfg, s, m) { DramRoomFits(cfg, s, m, id); }
    if SsdRoom(cfg, s, m) { SsdRoomFits(cfg, s, m, id); }
    if Fits(cfg, s, DRAM, id, data) {
      DemoteTiers(cfg, s, HBM, DRAM, id, data);
      RestWithout(s, s', HBM, spared, id);
      if DramRoom(cfg, s, m) {
        DramRoomStays(cfg, s, s', m, id);
      } else {
        SsdRoomStays(cfg, s, s', m, id);
      }
    } else {
      DemoteTiers(cfg, s, HBM, SSD, id, data);
      RestWithout(s, s', HBM, spared, id);
      SsdRoomStays(cfg, s, s', m, id);
    }
  }

  lemma DramRoomTakes(cfg: Config, s: State, spared: set<BlockId>, id: BlockId)
    requires RoomFor(cfg, s, DRAM, spared) && id in s.dram && id !in spared
    ensures Demotable(cfg, s, id) && RoomFor(cfg, Demote(cfg, s, id).0, DRAM, spared)
  {
    var m, data, s' := Rest(s, DRAM, spared), s.dram[id], Demote(cfg, s, id).0;
    assert id in m && m[id] == data;
    SsdRoomFits(cfg, s, m, id);
    if id in s.hbm {
      assert Fits(cfg, s, DRAM, id, s.hbm[id]);
      DemoteTiers(cfg, s, HBM, DRAM, id, s.hbm[id]);
      hide TotalBytes, Fits, PutTier, EraseTier;
      assert Rest(s', DRAM, spared) == m && s'.ssd == s.ssd;
    } else {
      DemoteTiers(cfg, s, DRAM, SSD, id, data);
      RestWithout(s, s', DRAM, spared, id);
      hide TotalBytes, Fits, PutTier, EraseTier, SsdRoom;
      SsdRoomStays(cfg, s, s', m, id);
    }
  }

  // A pass with room for its victims

  /** Step `j` spares its block, or removes one that is in the tier then and outside `spared`. */
  ghost predicate InTier(cfg: Config, t: Tier, s0: State, m0: seq<BlockMeta>, hand: nat, spared: set<BlockId>, j: nat)
    requires m0 != [] && j < 2 * |m0|
  {
    var id := Met(m0, hand, j).id;
    Spared(m0, hand, j) || (id in At(Iter(cfg, t, Begin(s0, m0, hand), j).store, t) && id !in spared)
  }

  /** With room for all it removes, each still in the tier when met, a pass loses nothing. */
  lemma {:induction false} RoomRuns(cfg: Config, t: Tier, s0: State, m0: seq<BlockMeta>, hand: nat,
                                    spared: set<BlockId>, k: nat)
    requires m0 != [] && RoomFor(cfg, s0, t, spared) && k <= 2 * |m0|
    requires forall j | 0 <= j < k :: InTier(cfg, t, s0, m0, hand, spared, j)
    ensures AllTaken(cfg, t, s0, m0, hand, k) && RoomFor(cfg, Iter(cfg, t, Begin(s0, m0, hand), k).store, t, spared)
  {
    hide Step, RoomFor, Taken, Met, Spared, Remove, Demote;
    if k > 0 {
      RoomRuns(cfg, t, s0, m0, hand, spared, k - 1);
      var s := Iter(cfg, t, Begin(s0, m0, hand), k - 1).store;
      var meta := Met(m0, hand, k - 1);
      StepStore(cfg, t, s0, m0, hand, k - 1);
      assert InTier(cfg, t, s0, m0, hand, spared, k - 1);
      if Spared(m0, hand, k - 1) {
        SpareRoom(cfg, s, t, spared, s.visited - {meta.id});
      } else {
        RoomTakes(cfg, t, s, spared, meta.id);
        TakenDemotes(cfg, t, s, meta);
      }
    }
  }

  lemma TakenDemotes(cfg: Config, t: Tier, s: State, meta: BlockMeta)
    requires Taken(cfg, t, s, meta.id)
    ensures Remove(cfg, t, s, meta).0 == Demote(cfg, s, meta.id).0
  {
    hide Fits, PutTier, EraseTier;
  }

  lemma SpareRoom(cfg: Config, s: State, t: Tier, spared: set<BlockId>, cleared: set<BlockId>)
    requires RoomFor(cfg, s, t, spared)
    ensures RoomFor(cfg, s.(visited := cleared), t, spared)
  {
    assert Rest(s.(visited := cleared), t, spared) == Rest(s, t, spared);
  }

  /** In the first round every block is in the tier when met. */
  lemma FirstInTier(cfg: Config, content: BlockId -> Bytes, t: Tier, s0: State, m0: seq<BlockMeta>, hand: nat,
                    spared: set<BlockId>, k: nat)
    requires m0 != [] && Ready(cfg, content, t, s0, m0) && k <= |m0| && spared <= s0.visited
    ensures forall j | 0 <= j < k :: InTier(cfg, t, s0, m0, hand, spared, j)
  {
    hide Ready, Step, At, Alike, Twice, Weight, Present;
    forall j | 0 <= j < k ensures InTier(cfg, t, s0, m0, hand, spared, j) {
      var i := Pos(Wrap(hand, |m0|), j, |m0|);
      HandAt(Wrap(hand, |m0|), j, |m0|);
      MetPresent(cfg, content, t, s0, m0, hand, j);
      Unmet(cfg, content, t, s0, m0, hand, i, j);
      AlikeCounts(t, s0, Iter(cfg, t, Begin(s0, m0, hand), j).store, m0[i]);
    }
  }

  /** Nothing is lost with room below for the victims, if the visited blocks alone fit under `low`: they need none. */
  lemma LosesNothing(cfg: Config, content: BlockId -> Bytes, t: Tier, s0: State, m0: seq<BlockMeta>, hand: nat,
                     low: nat)
    requires m0 != [] && Ready(cfg, content, t, s0, m0) && VisitedBytes(s0, t) <= low < TotalBytes(At(s0, t))
    requires RoomFor(cfg, s0, t, s0.visited)
    ensures Present(Finish(cfg, t, Begin(s0, m0, hand), TotalBytes(At(s0, t)) - low).store) == Present(s0)
  {
    hide Ready, TotalBytes, At, Present, Finish, RoomFor, AllTaken, InTier, VisitedBytes, Least, Counted, Sized, Gone1,
         Topmost;
    var need := TotalBytes(At(s0, t)) - low;
    var n := Least(m0, Wrap(hand, |m0|), Counted(t, s0, s0.visited), need, 0);
    MeetsLowInOneRoundIff(cfg, content, t, s0, m0, hand, low);
    LosesNothingIff(cfg, content, t, s0, m0, hand, need);
    FirstInTier(cfg, content, t, s0, m0, hand, s0.visited, n);
    RoomRuns(cfg, t, s0, m0, hand, s0.visited, n);
  }

  // When slower tiers take every victim of the first round

  lemma AllPresent(cfg: Config, content: BlockId -> Bytes, t: Tier, s0: State, m0: seq<BlockMeta>, hand: nat)
    requires m0 != [] && Ready(cfg, content, t, s0, m0)
    requires AllTaken(cfg, t, s0, m0, hand, |m0|) || RoomFor(cfg, s0, t, s0.visited)
    ensures Present(AfterFirst(cfg, t, s0, m0, hand)) == Present(s0)
  {
    hide Ready, Step, Present, RoomFor, AllTaken, InTier;
    KeptIff(cfg, content, t, s0, m0, hand, |m0|);
    if RoomFor(cfg, s0, t, s0.visited) {
      FirstInTier(cfg, content, t, s0, m0, hand, s0.visited, |m0|);
      RoomRuns(cfg, t, s0, m0, hand, s0.visited, |m0|);
    }
  }

  /** Then both rounds count sizes: the first of the unvisited blocks, the second of all. */
  lemma CountsSizes(cfg: Config, content: BlockId -> Bytes, t: Tier, s0: State, m0: seq<BlockMeta>, hand: nat)
    requires m0 != [] && Ready(cfg, content, t, s0, m0) && t != SSD
    requires Present(AfterFirst(cfg, t, s0, m0, hand)) == Present(s0)
    ensures var all := At(s0, t).Keys;
            && (forall i | 0 <= i < |m0| :: Counted(t, s0, s0.visited)(m0[i]) == Sized(all - s0.visited)(m0[i]))
            && (forall i | 0 <= i < |m0| ::
                  Counted(t, AfterFirst(cfg, t, s0, m0, hand), {})(m0[i]) == Sized(all)(m0[i]))
  {
    hide Ready, AfterFirst, Weight, IsSnapshot, Inv;
    ReadyFacts(cfg, content, t, s0, m0);
    forall i | 0 <= i < |m0| ensures m0[i].id in Present(s0) {
      InPresent(t, s0, m0[i].id);
    }
    hide Present, At;
    forall i | 0 <= i < |m0|
      ensures Counted(t, s0, s0.visited)(m0[i]) == Sized(At(s0, t).Keys - s0.visited)(m0[i])
      ensures Counted(t, AfterFirst(cfg, t, s0, m0, hand), {})(m0[i]) == Sized(At(s0, t).Keys)(m0[i])
    {
      WeighsItsSize(t, s0, m0[i]);
      WeighsItsSize(t, AfterFirst(cfg, t, s0, m0, hand), m0[i]);
    }
  }

  lemma InPresent(t: Tier, s: State, id: BlockId)
    requires id in At(s, t)
    ensures id in Present(s)
  {}

  /**
   When slower tiers took every victim of the first round, both rounds count sizes: the pass ends with
   the first block in hand order whose sizes come to the visited bytes above `low`. With no block of
   the tier in HBM too, it then meets its target exactly when the visited ones alone come to that much.
   */
  lemma MeetsLowWhenAcceptedIff(cfg: Config, content: BlockId -> Bytes, t: Tier, s0: State, m0: seq<BlockMeta>,
                                hand: nat, low: nat)
    requires m0 != [] && Ready(cfg, content, t, s0, m0) && low < TotalBytes(At(s0, t)) && t != SSD
    requires AllTaken(cfg, t, s0, m0, hand, |m0|) || RoomFor(cfg, s0, t, s0.visited)
    ensures var h, need, above := Wrap(hand, |m0|), TotalBytes(At(s0, t)) - low, VisitedBytes(s0, t) - low;
            var end := Finish(cfg, t, Begin(s0, m0, hand), need);
            var used, k := TotalBytes(At(end.store, t)), Least(m0, h, Sized(At(s0, t).Keys), above, 0);
            && (above > 0 ==> end.steps == |m0| + k && (used <= low <==> Removed(t, s0, m0, h, true, k) >= need))
            && ((forall id | id in At(s0, t) :: !Twice(t, s0, id)) ==>
                  (used <= low <==> above <= 0 || Sum(m0, h, Sized(s0.visited), k) >= above))
  {
    hide Ready, TotalBytes, At, Present, Finish, RoomFor, AllTaken, AfterFirst, VisitedBytes, Least, Counted, Sized;
    hide Sum, Topmost, Removed, Twice, Gone1, Gone2;
    var h, need, above := Wrap(hand, |m0|), TotalBytes(At(s0, t)) - low, VisitedBytes(s0, t) - low;
    var all, after := At(s0, t).Keys, AfterFirst(cfg, t, s0, m0, hand);
    AllPresent(cfg, content, t, s0, m0, hand);
    CountsSizes(cfg, content, t, s0, m0, hand);
    WholeSums(cfg, content, t, s0, m0, h);
    SumAgree(m0, h, Counted(t, s0, s0.visited), Sized(all - s0.visited), |m0|);
    LeastAgree(m0, h, Counted(t, after, {}), Sized(all), above, 0);
    MeetsLowIff(cfg, content, t, s0, m0, hand, low);
    if forall id | id in At(s0, t) :: !Twice(t, s0, id) {
      if above > 0 {
        OnceRemoved(cfg, content, t, s0, m0, h, Least(m0, h, Sized(all), above, 0));
      } else {
        OnceTopmost(t, s0);
        MeetsLowInOneRoundIff(cfg, content, t, s0, m0, hand, low);
      }
    }
  }

  lemma OnceTopmost(t: Tier, s: State)
    requires t != SSD && forall id | id in At(s, t) :: !Twice(t, s, id)
    ensures Topmost(t, s)
  {}

  lemma OnceRemoved(cfg: Config, content: BlockId -> Bytes, t: Tier, s0: State, m0: seq<BlockMeta>, h: nat, k: nat)
    requires Ready(cfg, content, t, s0, m0) && h < |m0| && k <= |m0| && forall id | id in At(s0, t) :: !Twice(t, s0, id)
    ensures Removed(t, s0, m0, h, true, k) ==
            TotalBytes(At(s0, t)) - VisitedBytes(s0, t) + Sum(m0, h, Sized(s0.visited), k)
  {
    hide Ready, TotalBytes, VisitedBytes, Sum, Twice, Gone1, Gone2, At;
    ReadyFacts(cfg, content, t, s0, m0);
    WholeSums(cfg, content, t, s0, m0, h);
    var all := At(s0, t).Keys;
    forall i | 0 <= i < |m0|
      ensures Sized(Gone1(t, s0))(m0[i]) == Sized(all - s0.visited)(m0[i])
      ensures Sized(Gone2(t, s0))(m0[i]) == Sized(s0.visited)(m0[i])
    {
      GoneIff(t, s0, m0[i].id);
    }
    SumAgree(m0, h, Sized(Gone1(t, s0)), Sized(all - s0.visited), |m0|);
    SumAgree(m0, h, Sized(Gone2(t, s0)), Sized(s0.visited), k);
  }

  // The DRAM pass

  /** The block met at step `j` is still in DRAM after the first round: it was spared, or its HBM copy went instead. */
  ghost predicate Stays(s0: State, m0: seq<BlockMeta>, hand: nat, j: nat)
    requires m0 != [] && j < |m0|
  {
    Met(m0, hand, j).visited || Twice(DRAM, s0, Met(m0, hand, j).id)
  }

  /** Where a DRAM pass meets a block again: in DRAM if it stayed, and otherwise on the SSD at best. */
  lemma MetAgain(cfg: Config, content: BlockId -> Bytes, s0: State, m0: seq<BlockMeta>, hand: nat, j: nat)
    requires m0 != [] && Ready(cfg, content, DRAM, s0, m0) && j < |m0|
    ensures var s, id := Iter(cfg, DRAM, Begin(s0, m0, hand), |m0| + j).store, Met(m0, hand, j).id;
            && Met(m0, hand, |m0| + j) == Met(m0, hand, j) && !Spared(m0, hand, |m0| + j)
            && (id in s.dram <==> Stays(s0, m0, hand, j)) && (!Stays(s0, m0, hand, j) ==> id !in s.hbm)
  {
    hide Ready, Step, Present, Inv;
    var i := Pos(Wrap(hand, |m0|), j, |m0|);
    HandAt(Wrap(hand, |m0|), j, |m0|);
    MetPresent(cfg, content, DRAM, s0, m0, hand, j);
    AfterFirstFate(cfg, content, DRAM, s0, m0, hand, i);
    UnmetAgain(cfg, content, DRAM, s0, m0, hand, i, j);
  }

  /** A block that did not stay is erased when it is met again, and is nowhere from then on. */
  lemma MetAgainIsErased(cfg: Config, content: BlockId -> Bytes, s0: State, m0: seq<BlockMeta>, hand: nat, j: nat,
                         k: nat)
    requires m0 != [] && Ready(cfg, content, DRAM, s0, m0) && j < k <= |m0| && !Stays(s0, m0, hand, j)
    ensures !TakenAt(cfg, DRAM, s0, m0, hand, |m0| + j)
    ensures Met(m0, hand, j).id !in Present(Iter(cfg, DRAM, Begin(s0, m0, hand), |m0| + k).store)
  {
    hide Ready, Step, Present, Stays, Met, Spared, Taken;
    MetAgain(cfg, content, s0, m0, hand, j);
    NowhereToTake(cfg, DRAM, Iter(cfg, DRAM, Begin(s0, m0, hand), |m0| + j).store, Met(m0, hand, j).id);
    Keeps(cfg, content, DRAM, s0, m0, hand, |m0| + k);
  }

  lemma NowhereToTake(cfg: Config, t: Tier, s: State, id: BlockId)
    requires id !in s.hbm && id !in s.dram
    ensures !Taken(cfg, t, s, id)
  {}

  ghost predicate AllStay(s0: State, m0: seq<BlockMeta>, hand: nat, k: nat)
    requires m0 != [] && k <= |m0|
  {
    forall j | 0 <= j < k :: Stays(s0, m0, hand, j)
  }

  /** The others of the first `k` blocks in hand order are nowhere in the store. */
  ghost predicate OthersLost(s0: State, m0: seq<BlockMeta>, hand: nat, k: nat, s: State)
    requires m0 != [] && k <= |m0|
  {
    forall j | 0 <= j < k :: Stays(s0, m0, hand, j) || Met(m0, hand, j).id !in Present(s)
  }

  lemma DramTakenIff(cfg: Config, content: BlockId -> Bytes, s0: State, m0: seq<BlockMeta>, hand: nat, k: nat)
    requires m0 != [] && Ready(cfg, content, DRAM, s0, m0) && RoomFor(cfg, s0, DRAM, {}) && k <= |m0|
    ensures AllTaken(cfg, DRAM, s0, m0, hand, |m0| + k) <==> AllStay(s0, m0, hand, k)
    ensures OthersLost(s0, m0, hand, k, Iter(cfg, DRAM, Begin(s0, m0, hand), |m0| + k).store)
  {
    hide Ready, Step, Present, RoomFor, Stays, TakenAt, Met;
    forall j | 0 <= j < k && !Stays(s0, m0, hand, j)
      ensures !TakenAt(cfg, DRAM, s0, m0, hand, |m0| + j)
      ensures Met(m0, hand, j).id !in Present(Iter(cfg, DRAM, Begin(s0, m0, hand), |m0| + k).store)
    {
      MetAgainIsErased(cfg, content, s0, m0, hand, j, k);
    }
    if AllStay(s0, m0, hand, k) {
      StayInTier(cfg, content, s0, m0, hand, k);
      RoomRuns(cfg, DRAM, s0, m0, hand, {}, |m0| + k);
    }
  }

  lemma StayInTier(cfg: Config, content: BlockId -> Bytes, s0: State, m0: seq<BlockMeta>, hand: nat, k: nat)
    requires m0 != [] && Ready(cfg, content, DRAM, s0, m0) && k <= |m0| && AllStay(s0, m0, hand, k)
    ensures forall j | 0 <= j < |m0| + k :: InTier(cfg, DRAM, s0, m0, hand, {}, j)
  {
    hide Ready, Step, Stays, Met, Spared;
    FirstInTier(cfg, content, DRAM, s0, m0, hand, {}, |m0|);
    forall j | |m0| <= j < |m0| + k ensures InTier(cfg, DRAM, s0, m0, hand, {}, j) {
      MetAgain(cfg, content, s0, m0, hand, j - |m0|);
    }
  }

  lemma RoomForFewer(cfg: Config, s: State, t: Tier, spared: set<BlockId>)
    requires RoomFor(cfg, s, t, {})
    ensures RoomFor(cfg, s, t, spared)
  {
    hide TotalBytes;
    var all, m := Rest(s, t, {}), Rest(s, t, spared);
    TotalSubset(m - s.dram.Keys, all - s.dram.Keys);
    SubsetSize(s.ssd.Keys + m.Keys, s.ssd.Keys + all.Keys);
  }

  lemma {:induction false} TotalSubset(a: Blocks, b: Blocks)
    requires forall id | id in a :: id in b && b[id] == a[id]
    ensures TotalBytes(a) <= TotalBytes(b)
    decreases |a|
  {
    if a != map[] {
      assert a.Keys != {};
      var id :| id in a;
      TotalWithout(a, id);
      TotalWithout(b, id);
      TotalSubset(a - {id}, b - {id});
    } else {
      assert TotalBytes(a) == 0;
    }
  }

  /** A pass that ends in its first round, with room for all of the tier, loses nothing. */
  lemma OneRoundKeeps(cfg: Config, content: BlockId -> Bytes, t: Tier, s0: State, m0: seq<BlockMeta>, hand: nat,
                      low: nat)
    requires m0 != [] && Ready(cfg, content, t, s0, m0) && VisitedBytes(s0, t) <= low < TotalBytes(At(s0, t))
    requires RoomFor(cfg, s0, t, {})
    ensures Present(Finish(cfg, t, Begin(s0, m0, hand), TotalBytes(At(s0, t)) - low).store) == Present(s0)
  {
    RoomForFewer(cfg, s0, t, s0.visited);
    LosesNothing(cfg, content, t, s0, m0, hand, low);
  }

  /**
   What a DRAM pass loses although the SSD has room for the whole tier: of the first blocks in hand
   order whose sizes come to the visited bytes above `low`, those that are neither visited nor in HBM
   too, and only if there are some.
   */
  lemma DramKeepsIff(cfg: Config, content: BlockId -> Bytes, s0: State, m0: seq<BlockMeta>, hand: nat, low: nat)
    requires m0 != [] && Ready(cfg, content, DRAM, s0, m0) && RoomFor(cfg, s0, DRAM, {})
    requires low < TotalBytes(At(s0, DRAM))
    ensures var end := Finish(cfg, DRAM, Begin(s0, m0, hand), TotalBytes(At(s0, DRAM)) - low);
            var above := VisitedBytes(s0, DRAM) - low;
            var k := Least(m0, Wrap(hand, |m0|), Sized(At(s0, DRAM).Keys), above, 0);
            && (Present(end.store) == Present(s0) <==> above <= 0 || AllStay(s0, m0, hand, k))
            && (above > 0 ==> OthersLost(s0, m0, hand, k, end.store))
  {
    hide Ready, TotalBytes, At, Present, Finish, RoomFor, AllTaken, VisitedBytes, Least, Sized, Sum, Removed, AllStay;
    hide Iter, Twice, OthersLost;
    var need, above := TotalBytes(At(s0, DRAM)) - low, VisitedBytes(s0, DRAM) - low;
    if above <= 0 {
      OneRoundKeeps(cfg, content, DRAM, s0, m0, hand, low);
    } else {
      var k := Least(m0, Wrap(hand, |m0|), Sized(At(s0, DRAM).Keys), above, 0);
      RoomForFewer(cfg, s0, DRAM, s0.visited);
      MeetsLowWhenAcceptedIff(cfg, content, DRAM, s0, m0, hand, low);
      LosesNothingIff(cfg, content, DRAM, s0, m0, hand, need);
      EndState(cfg, DRAM, s0, m0, hand, need, |m0| + k);
      DramTakenIff(cfg, content, s0, m0, hand, k);
    }
  }

  lemma EndState(cfg: Config, t: Tier, s0: State, m0: seq<BlockMeta>, hand: nat, need: nat, n: nat)
    requires m0 != [] && Finish(cfg, t, Begin(s0, m0, hand), need).steps == n
    ensures Finish(cfg, t, Begin(s0, m0, hand), need) == Iter(cfg, t, Begin(s0, m0, hand), n)
  {
    hide Step, Finish, Stops;
    FinishIsIter(cfg, t, Begin(s0, m0, hand), need, 0);
    var k :| 0 <= k <= 2 * |m0| && Finish(cfg, t, Begin(s0, m0, hand), need) == Iter(cfg, t, Begin(s0, m0, hand), k);
    IterSteps(cfg, t, Begin(s0, m0, hand), k);
  }

  // The HBM pass

  /** A removal of an HBM pass keeps the room that DRAM has for all of HBM. */
  lemma HbmRemoveKeepsRoom(cfg: Config, s: State, meta: BlockMeta)
    requires DramRoom(cfg, s, s.hbm)
    ensures var s' := Remove(cfg, HBM, s, meta).0;
            && DramRoom(cfg, s', s'.hbm)
            && (meta.id in s.hbm ==> Taken(cfg, HBM, s, meta.id) && s'.ssd == s.ssd && meta.id in s'.dram)
  {
    var id, s' := meta.id, Remove(cfg, HBM, s, meta).0;
    hide TotalBytes, Fits, DramRoom, PutTier, EraseTier;
    if id in s.hbm {
      DramRoomFits(cfg, s, s.hbm, id);
      DemoteTiers(cfg, s, HBM, DRAM, id, s.hbm[id]);
      DramRoomStays(cfg, s, s', s.hbm, id);
    } else if id in s.dram && Fits(cfg, s, SSD, id, s.dram[id]) {
      DemoteTiers(cfg, s, DRAM, SSD, id, s.dram[id]);
      DramShrinks(cfg, s, s', id);
    } else {
      assert s.hbm - {id} == s.hbm;
      DramShrinks(cfg, s, s', id);
    }
  }

  lemma DramShrinks(cfg: Config, s: State, s': State, id: BlockId)
    requires DramRoom(cfg, s, s.hbm) && id !in s.hbm && s'.hbm == s.hbm && s'.dram == s.dram - {id}
    ensures DramRoom(cfg, s', s'.hbm)
  {
    hide TotalBytes;
    WithoutShrinks(s.dram, id);
    assert s'.hbm - s'.dram.Keys == s.hbm - s.dram.Keys;
  }

  lemma {:induction false} HbmRoomLasts(cfg: Config, s0: State, m0: seq<BlockMeta>, hand: nat, k: nat)
    requires m0 != [] && DramRoom(cfg, s0, s0.hbm) && k <= 2 * |m0|
    ensures var s := Iter(cfg, HBM, Begin(s0, m0, hand), k).store; DramRoom(cfg, s, s.hbm)
  {
    hide Step, DramRoom, Remove, Met, Spared;
    if k > 0 {
      HbmRoomLasts(cfg, s0, m0, hand, k - 1);
      var s, meta := Iter(cfg, HBM, Begin(s0, m0, hand), k - 1).store, Met(m0, hand, k - 1);
      StepStore(cfg, HBM, s0, m0, hand, k - 1);
      HbmRemoveKeepsRoom(cfg, s, meta);
      SpareDram(cfg, s, s.visited - {meta.id});
    }
  }

  lemma SpareDram(cfg: Config, s: State, cleared: set<BlockId>)
    requires DramRoom(cfg, s, s.hbm)
    ensures DramRoom(cfg, s.(visited := cleared), s.hbm)
  {}

  /** Step `k` of the first round, and any step that meets a visited block, demotes from HBM to DRAM. */
  lemma FromHbm(cfg: Config, content: BlockId -> Bytes, s0: State, m0: seq<BlockMeta>, hand: nat, k: nat)
    requires m0 != [] && Ready(cfg, content, HBM, s0, m0) && DramRoom(cfg, s0, s0.hbm) && k < 2 * |m0|
    requires k < |m0| || Met(m0, hand, k).visited
    ensures var s, s' := Iter(cfg, HBM, Begin(s0, m0, hand), k).store, Iter(cfg, HBM, Begin(s0, m0, hand), k + 1).store;
            && TakenAt(cfg, HBM, s0, m0, hand, k) && s'.ssd == s.ssd
            && (!Spared(m0, hand, k) ==> Met(m0, hand, k).id in s'.dram)
  {
    hide Ready, Step, DramRoom, Remove, Inv, Present, IsSnapshot, Taken;
    StillInHbm(cfg, content, s0, m0, hand, k);
    HbmRoomLasts(cfg, s0, m0, hand, k);
    StepStore(cfg, HBM, s0, m0, hand, k);
    HbmRemoveKeepsRoom(cfg, Iter(cfg, HBM, Begin(s0, m0, hand), k).store, Met(m0, hand, k));
  }

  lemma StillInHbm(cfg: Config, content: BlockId -> Bytes, s0: State, m0: seq<BlockMeta>, hand: nat, k: nat)
    requires m0 != [] && Ready(cfg, content, HBM, s0, m0) && k < 2 * |m0|
    ensures k < |m0| || Met(m0, hand, k).visited <==>
            Met(m0, hand, k).id in Iter(cfg, HBM, Begin(s0, m0, hand), k).store.hbm
  {
    hide Step, Inv, Present;
    HandAt(Wrap(hand, |m0|), k, |m0|);
    IterFate(cfg, HBM, s0, m0, hand, Pos(Wrap(hand, |m0|), k, |m0|), k);
  }

  /** The first round leaves the SSD alone and every unvisited block in DRAM. */
  lemma {:induction false} FirstToDram(cfg: Config, content: BlockId -> Bytes, s0: State, m0: seq<BlockMeta>, hand: nat,
                                       i: nat, k: nat)
    requires m0 != [] && Ready(cfg, content, HBM, s0, m0) && DramRoom(cfg, s0, s0.hbm) && i < |m0| && k <= |m0|
    ensures var s := Iter(cfg, HBM, Begin(s0, m0, hand), k).store;
            s.ssd == s0.ssd && (Off(Wrap(hand, |m0|), i, |m0|) < k && !m0[i].visited ==> m0[i].id in s.dram)
  {
    hide Ready, Step, DramRoom, Present, TotalBytes, Weight, Taken, Twice, At, TakenAt;
    if k > 0 {
      FirstToDram(cfg, content, s0, m0, hand, i, k - 1);
      FromHbm(cfg, content, s0, m0, hand, k - 1);
      MetOnce(cfg, content, HBM, s0, m0, hand, i, k - 1);
      StepLaw(cfg, content, HBM, s0, m0, hand, k - 1);
      assert m0[i].id != Met(m0, hand, k - 1).id ==>
          Alike(Iter(cfg, HBM, Begin(s0, m0, hand), k - 1).store, Iter(cfg, HBM, Begin(s0, m0, hand), k).store,
                m0[i].id);
    }
  }

  /** The unvisited ones of the first `k` blocks in hand order. */
  ghost function Unspared(s0: State, m0: seq<BlockMeta>, hand: nat, k: nat): Blocks
    requires m0 != [] && k <= |m0|
  {
    Seen(m0, Wrap(hand, |m0|), s0.hbm, s0.hbm.Keys - s0.visited, k)
  }

  lemma UnsparedFrom(s0: State, m0: seq<BlockMeta>, hand: nat, k: nat)
    requires m0 != [] && k <= |m0|
    ensures forall id | id in Unspared(s0, m0, hand, k) :: id in s0.hbm && Unspared(s0, m0, hand, k)[id] == s0.hbm[id]
    ensures Unspared(s0, m0, hand, 0) == map[]
  {}

  lemma UnsparedNext(cfg: Config, content: BlockId -> Bytes, s0: State, m0: seq<BlockMeta>, hand: nat, j: nat)
    requires m0 != [] && Ready(cfg, content, HBM, s0, m0) && j < |m0|
    ensures var meta, before := Met(m0, hand, j), Unspared(s0, m0, hand, j);
            && meta.id in s0.hbm && s0.hbm[meta.id] == content(meta.id) && meta.id !in before
            && Unspared(s0, m0, hand, j + 1) == if meta.visited then before else before[meta.id := content(meta.id)]
    ensures Met(m0, hand, |m0| + j) == Met(m0, hand, j) && !Spared(m0, hand, |m0| + j)
  {
    hide Seen, Inv, Ready, IsSnapshot;
    HandAt(Wrap(hand, |m0|), j, |m0|);
    ReadyFacts(cfg, content, HBM, s0, m0);
    InvContent(cfg, content, s0);
    assert At(s0, HBM) == s0.hbm;
    SeenNext(m0, Wrap(hand, |m0|), s0.hbm, s0.visited, s0.hbm.Keys - s0.visited, j + 1);
  }

  /** An HBM pass meets a block again that it has demoted to DRAM: the SSD takes it or it is lost. */
  lemma FromDram(cfg: Config, content: BlockId -> Bytes, s0: State, m0: seq<BlockMeta>, hand: nat, j: nat)
    requires m0 != [] && Ready(cfg, content, HBM, s0, m0) && DramRoom(cfg, s0, s0.hbm)
    requires j < |m0| && !Met(m0, hand, j).visited
    ensures var s, s' := Iter(cfg, HBM, Begin(s0, m0, hand), |m0| + j).store,
                         Iter(cfg, HBM, Begin(s0, m0, hand), |m0| + j + 1).store;
            var id := Met(m0, hand, j).id;
            && (TakenAt(cfg, HBM, s0, m0, hand, |m0| + j) <==> Fits(cfg, s, SSD, id, content(id)))
            && (TakenAt(cfg, HBM, s0, m0, hand, |m0| + j) ==> s'.ssd.Keys == s.ssd.Keys + {id})
  {
    hide Ready, Step, DramRoom, Inv, Present, IsSnapshot, Taken, Fits, Met, Spared, Pos, Off, Remove, TotalBytes,
         Alike, At;
    UnsparedNext(cfg, content, s0, m0, hand, j);
    var s, meta := Iter(cfg, HBM, Begin(s0, m0, hand), |m0| + j).store, Met(m0, hand, j);
    NowInDram(cfg, content, s0, m0, hand, j);
    StepStore(cfg, HBM, s0, m0, hand, |m0| + j);
    IterSound(cfg, content, HBM, Begin(s0, m0, hand), |m0| + j) by {
      ReadyFacts(cfg, content, HBM, s0, m0);
    }
    DramToSsd(cfg, content, s, meta);
  }

  lemma NowInDram(cfg: Config, content: BlockId -> Bytes, s0: State, m0: seq<BlockMeta>, hand: nat, j: nat)
    requires m0 != [] && Ready(cfg, content, HBM, s0, m0) && DramRoom(cfg, s0, s0.hbm)
    requires j < |m0| && !Met(m0, hand, j).visited
    ensures var s := Iter(cfg, HBM, Begin(s0, m0, hand), |m0| + j).store;
            Met(m0, hand, j).id !in s.hbm && Met(m0, hand, j).id in s.dram
  {
    hide Ready, Step, DramRoom, Inv;
    var i := Pos(Wrap(hand, |m0|), j, |m0|);
    HandAt(Wrap(hand, |m0|), j, |m0|);
    StillInHbm(cfg, content, s0, m0, hand, |m0| + j);
    FirstToDram(cfg, content, s0, m0, hand, i, |m0|);
    UnmetAgain(cfg, content, HBM, s0, m0, hand, i, j);
  }

  lemma DramToSsd(cfg: Config, content: BlockId -> Bytes, s: State, meta: BlockMeta)
    requires Inv(cfg, content, s) && meta.id !in s.hbm && meta.id in s.dram
    ensures Taken(cfg, HBM, s, meta.id) <==> Fits(cfg, s, SSD, meta.id, content(meta.id))
    ensures Taken(cfg, HBM, s, meta.id) ==> Remove(cfg, HBM, s, meta).0.ssd.Keys == s.ssd.Keys + {meta.id}
  {
    InvContent(cfg, content, s);
    assert At(s, DRAM) == s.dram;
    hide Inv, Fits, PutTier, EraseTier;
    if Taken(cfg, HBM, s, meta.id) {
      DemoteTiers(cfg, s, DRAM, SSD, meta.id, s.dram[meta.id]);
    }
  }

  /** As long as nothing is lost, the SSD gains the unvisited blocks met again. */
  lemma {:induction false} SsdGrows(cfg: Config, content: BlockId -> Bytes, s0: State, m0: seq<BlockMeta>, hand: nat,
                                    k: nat)
    requires m0 != [] && Ready(cfg, content, HBM, s0, m0) && DramRoom(cfg, s0, s0.hbm) && k <= |m0|
    requires AllTaken(cfg, HBM, s0, m0, hand, |m0| + k)
    ensures Iter(cfg, HBM, Begin(s0, m0, hand), |m0| + k).store.ssd.Keys == s0.ssd.Keys + Unspared(s0, m0, hand, k).Keys
  {
    hide Ready, Step, DramRoom, TakenAt, Met, Spared, Fits, Unspared;
    if k == 0 {
      FirstToDram(cfg, content, s0, m0, hand, 0, |m0|);
      UnsparedFrom(s0, m0, hand, 0);
    } else {
      SsdGrows(cfg, content, s0, m0, hand, k - 1);
      UnsparedNext(cfg, content, s0, m0, hand, k - 1);
      if Met(m0, hand, k - 1).visited {
        FromHbm(cfg, content, s0, m0, hand, |m0| + k - 1);
      } else {
        assert TakenAt(cfg, HBM, s0, m0, hand, |m0| + k - 1);
        FromDram(cfg, content, s0, m0, hand, k - 1);
      }
    }
  }

  lemma {:induction false} UnsparedGrows(cfg: Config, content: BlockId -> Bytes, s0: State, m0: seq<BlockMeta>,
                                         hand: nat, j: nat, k: nat)
    requires m0 != [] && Ready(cfg, content, HBM, s0, m0) && j <= k <= |m0|
    ensures forall id | id in Unspared(s0, m0, hand, j) ::
              id in Unspared(s0, m0, hand, k) && Unspared(s0, m0, hand, k)[id] == Unspared(s0, m0, hand, j)[id]
  {
    hide Ready, Unspared, Met, Spared;
    if j < k {
      UnsparedGrows(cfg, content, s0, m0, hand, j, k - 1);
      UnsparedNext(cfg, content, s0, m0, hand, k - 1);
    }
  }

  /** With slots for all of them, none is lost. */
  lemma {:induction false} SsdTakesAll(cfg: Config, content: BlockId -> Bytes, s0: State, m0: seq<BlockMeta>, hand: nat,
                                       j: nat, k: nat)
    requires m0 != [] && Ready(cfg, content, HBM, s0, m0) && DramRoom(cfg, s0, s0.hbm) && j <= k <= |m0|
    requires var m := Unspared(s0, m0, hand, k); m == map[] || SsdRoom(cfg, s0, m)
    ensures AllTaken(cfg, HBM, s0, m0, hand, |m0| + j)
  {
    hide Ready, Step, DramRoom, TakenAt, Met, Spared, Fits, Unspared, SsdRoom;
    if j == 0 {
      forall i | 0 <= i < |m0| ensures TakenAt(cfg, HBM, s0, m0, hand, i) {
        FromHbm(cfg, content, s0, m0, hand, i);
      }
    } else {
      SsdTakesAll(cfg, content, s0, m0, hand, j - 1, k);
      AllTakenNext(cfg, HBM, s0, m0, hand, |m0| + j);
      UnsparedNext(cfg, content, s0, m0, hand, j - 1);
      if Met(m0, hand, j - 1).visited {
        FromHbm(cfg, content, s0, m0, hand, |m0| + j - 1);
      } else {
        FromDram(cfg, content, s0, m0, hand, j - 1);
        SlotLeft(cfg, content, s0, m0, hand, j - 1, k);
      }
    }
  }

  lemma SlotLeft(cfg: Config, content: BlockId -> Bytes, s0: State, m0: seq<BlockMeta>, hand: nat, j: nat, k: nat)
    requires m0 != [] && Ready(cfg, content, HBM, s0, m0) && DramRoom(cfg, s0, s0.hbm) && j < k <= |m0|
    requires !Met(m0, hand, j).visited && AllTaken(cfg, HBM, s0, m0, hand, |m0| + j)
    requires var m := Unspared(s0, m0, hand, k); m == map[] || SsdRoom(cfg, s0, m)
    ensures var s, id := Iter(cfg, HBM, Begin(s0, m0, hand), |m0| + j).store, Met(m0, hand, j).id;
            Fits(cfg, s, SSD, id, content(id))
  {
    hide Ready, Step, DramRoom, Met, Spared, Unspared, AllTaken, TotalBytes;
    SsdGrows(cfg, content, s0, m0, hand, j);
    UnsparedNext(cfg, content, s0, m0, hand, j);
    UnsparedGrows(cfg, content, s0, m0, hand, j + 1, k);
    UnsparedGrows(cfg, content, s0, m0, hand, j, k);
    var s, id, m := Iter(cfg, HBM, Begin(s0, m0, hand), |m0| + j).store, Met(m0, hand, j).id, Unspared(s0, m0, hand, k);
    assert id in m && m[id] == content(id);
    SubsetSize(s.ssd.Keys + {id}, s0.ssd.Keys + m.Keys);
    assert |s.ssd| == |s.ssd.Keys|;
  }

  /** If none is lost, there were slots for all of them. */
  lemma SsdTookAll(cfg: Config, content: BlockId -> Bytes, s0: State, m0: seq<BlockMeta>, hand: nat, k: nat)
    requires m0 != [] && Ready(cfg, content, HBM, s0, m0) && DramRoom(cfg, s0, s0.hbm) && k <= |m0|
    requires AllTaken(cfg, HBM, s0, m0, hand, |m0| + k)
    ensures var m := Unspared(s0, m0, hand, k); m == map[] || SsdRoom(cfg, s0, m)
  {
    hide Ready, Iter, DramRoom, SsdRoom, AllTaken, TotalBytes, Inv, Seen, IsSnapshot;
    UnsparedFrom(s0, m0, hand, k);
    SsdGrows(cfg, content, s0, m0, hand, k);
    ReadyFacts(cfg, content, HBM, s0, m0);
    IterSound(cfg, content, HBM, Begin(s0, m0, hand), |m0| + k);
    SsdHolds(cfg, content, s0, Iter(cfg, HBM, Begin(s0, m0, hand), |m0| + k).store, Unspared(s0, m0, hand, k));
  }

  lemma SsdHolds(cfg: Config, content: BlockId -> Bytes, s0: State, s: State, m: Blocks)
    requires Inv(cfg, content, s0) && Inv(cfg, content, s) && s.ssd.Keys == s0.ssd.Keys + m.Keys
    requires forall id | id in m :: id in s0.hbm && m[id] == s0.hbm[id]
    ensures m == map[] || SsdRoom(cfg, s0, m)
  {
    hide TotalBytes;
    assert |s.ssd| == |s.ssd.Keys|;
    if m != map[] {
      assert m.Keys != {};
      forall id | id in m ensures cfg.hasSsd && |m[id]| <= cfg.ssdPayload {
        assert id in s.ssd;
      }
    }
  }

  /**
   What an HBM pass loses although DRAM has room for the whole tier: nothing exactly when the visited
   blocks fit under `low`, or when, of the first blocks in hand order whose sizes come to the visited
   bytes above `low`, the SSD has room for the unvisited ones: the second round pushes them on to it.
   */
  lemma HbmKeepsIff(cfg: Config, content: BlockId -> Bytes, s0: State, m0: seq<BlockMeta>, hand: nat, low: nat)
    requires m0 != [] && Ready(cfg, content, HBM, s0, m0) && low < TotalBytes(s0.hbm) && DramRoom(cfg, s0, s0.hbm)
    ensures var end := Finish(cfg, HBM, Begin(s0, m0, hand), TotalBytes(s0.hbm) - low);
            var above := VisitedBytes(s0, HBM) - low;
            var k := Least(m0, Wrap(hand, |m0|), Sized(s0.hbm.Keys), above, 0);
            var m := Unspared(s0, m0, hand, k);
            Present(end.store) == Present(s0) <==> above <= 0 || m == map[] || SsdRoom(cfg, s0, m)
  {
    hide Ready, TotalBytes, At, Present, Finish, RoomFor, AllTaken, VisitedBytes, Least, Sized, Sum, Removed, DramRoom;
    hide Iter, Twice, Unspared, SsdRoom;
    HbmRoom(cfg, s0);
    var need, above := TotalBytes(s0.hbm) - low, VisitedBytes(s0, HBM) - low;
    if above <= 0 {
      OneRoundKeeps(cfg, content, HBM, s0, m0, hand, low);
    } else {
      var k := Least(m0, Wrap(hand, |m0|), Sized(s0.hbm.Keys), above, 0);
      RoomForFewer(cfg, s0, HBM, s0.visited);
      MeetsLowWhenAcceptedIff(cfg, content, HBM, s0, m0, hand, low);
      LosesNothingIff(cfg, content, HBM, s0, m0, hand, need);
      HbmTakenIff(cfg, content, s0, m0, hand, k);
    }
  }

  lemma HbmRoom(cfg: Config, s: State)
    requires DramRoom(cfg, s, s.hbm)
    ensures RoomFor(cfg, s, HBM, {}) && At(s, HBM) == s.hbm
  {
    assert Rest(s, HBM, {}) == s.hbm;
  }

  lemma HbmTakenIff(cfg: Config, content: BlockId -> Bytes, s0: State, m0: seq<BlockMeta>, hand: nat, k: nat)
    requires m0 != [] && Ready(cfg, content, HBM, s0, m0) && DramRoom(cfg, s0, s0.hbm) && k <= |m0|
    ensures var m := Unspared(s0, m0, hand, k);
            AllTaken(cfg, HBM, s0, m0, hand, |m0| + k) <==> m == map[] || SsdRoom(cfg, s0, m)
  {
    hide Ready, AllTaken, DramRoom, SsdRoom, Unspared;
    var m := Unspared(s0, m0, hand, k);
    if m == map[] || SsdRoom(cfg, s0, m) {
      SsdTakesAll(cfg, content, s0, m0, hand, k, k);
    } else if AllTaken(cfg, HBM, s0, m0, hand, |m0| + k) {
      SsdTookAll(cfg, content, s0, m0, hand, k);
    }
  }
}
