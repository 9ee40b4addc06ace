/**
 The two rounds of an eviction pass, exactly (cache_server/src/eviction.cpp): what each step counts,
 what it takes from the tier and what it takes from the store, wherever else a block has copies.
 */
module EvictionRounds {
  import opened Types
  import opened Sizes
  import opened TieredModel
  import opened EvictionPass

  /** A pass about to start. */
  function Begin(s0: State, m0: seq<BlockMeta>, hand: nat): Pass { Pass(s0, m0, hand, 0, 0, []) }

  /** The listing of a tier of a store whose blocks are what their ids stand for. */
  ghost predicate Ready(cfg: Config, content: BlockId -> Bytes, t: Tier, s0: State, m0: seq<BlockMeta>)
  {
    IsSnapshot(m0, At(s0, t), s0.visited) && m0 != [] && Inv(cfg, content, s0)
  }

  lemma ReadyFacts(cfg: Config, content: BlockId -> Bytes, t: Tier, s0: State, m0: seq<BlockMeta>)
    requires Ready(cfg, content, t, s0, m0)
    ensures m0 != [] && IsSnapshot(m0, At(s0, t), s0.visited) && Inv(cfg, content, s0)
    ensures forall i | 0 <= i < |m0| :: m0[i].id in At(s0, t) && m0[i].sizeBytes == |content(m0[i].id)|
    ensures forall i | 0 <= i < |m0| :: m0[i].visited <==> m0[i].id in s0.visited
  {
    InvContent(cfg, content, s0);
    hide Inv;
  }

  lemma NotEmpty(cfg: Config, content: BlockId -> Bytes, t: Tier, s0: State, m0: seq<BlockMeta>)
    requires Ready(cfg, content, t, s0, m0)
    ensures m0 != []
  {}

  // Sums over the blocks in hand order

  type Measure = BlockMeta -> nat

  /** The sizes of the blocks in `these`. */
  function Sized(these: set<BlockId>): Measure { (meta: BlockMeta) => if meta.id in these then meta.sizeBytes else 0 }

  /** `f` over the first `j` blocks in hand order. */
  ghost function Sum(m0: seq<BlockMeta>, h: nat, f: Measure, j: nat): nat
    requires h < |m0| && j <= |m0|
  {
    if j == 0 then 0 else Sum(m0, h, f, j - 1) + f(m0[Pos(h, j - 1, |m0|)])
  }

  /** The least number of blocks in hand order, from `j` on, that come to `amount`; all if none do. */
  ghost function Least(m0: seq<BlockMeta>, h: nat, f: Measure, amount: int, j: nat): (k: nat)
    requires h < |m0| && j <= |m0|
    ensures j <= k <= |m0| && forall i | j <= i < k :: Sum(m0, h, f, i) < amount
    ensures k == |m0| || Sum(m0, h, f, k) >= amount
    decreases |m0| - j
  {
    if j == |m0| || Sum(m0, h, f, j) >= amount then j else Least(m0, h, f, amount, j + 1)
  }

  lemma {:induction false} SumAgree(m0: seq<BlockMeta>, h: nat, f: Measure, g: Measure, j: nat)
    requires h < |m0| && j <= |m0| && forall i | 0 <= i < |m0| :: f(m0[i]) == g(m0[i])
    ensures Sum(m0, h, f, j) == Sum(m0, h, g, j)
  {
    if j > 0 {
      SumAgree(m0, h, f, g, j - 1);
    }
  }

  lemma {:induction false} LeastAgree(m0: seq<BlockMeta>, h: nat, f: Measure, g: Measure, amount: int, j: nat)
    requires h < |m0| && j <= |m0| && forall i | 0 <= i < |m0| :: f(m0[i]) == g(m0[i])
    ensures Least(m0, h, f, amount, j) == Least(m0, h, g, amount, j)
    decreases |m0| - j
  {
    SumAgree(m0, h, f, g, j);
    if j < |m0| {
      LeastAgree(m0, h, f, g, amount, j + 1);
    }
  }

  lemma {:induction false} SumAdds(m0: seq<BlockMeta>, h: nat, f: Measure, g: Measure, e: Measure, j: nat)
    requires h < |m0| && j <= |m0| && forall i | 0 <= i < |m0| :: f(m0[i]) + g(m0[i]) == e(m0[i])
    ensures Sum(m0, h, f, j) + Sum(m0, h, g, j) == Sum(m0, h, e, j)
  {
    if j > 0 {
      SumAdds(m0, h, f, g, e, j - 1);
    }
  }

  lemma {:induction false} SumGrows(m0: seq<BlockMeta>, h: nat, f: Measure, g: Measure, j: nat)
    requires h < |m0| && j <= |m0| && forall i | 0 <= i < |m0| :: f(m0[i]) <= g(m0[i])
    ensures Sum(m0, h, f, j) <= Sum(m0, h, g, j)
  {
    if j > 0 {
      SumGrows(m0, h, f, g, j - 1);
    }
  }

  /** The blocks of a tier that are in `these`. */
  ghost function Part(m: Blocks, these: set<BlockId>): Blocks { map id | id in m && id in these :: m[id] }

  /** Those of them that are among the first `j` in hand order. */
  ghost function Seen(m0: seq<BlockMeta>, h: nat, m: Blocks, these: set<BlockId>, j: nat): Blocks
    requires h < |m0| && j <= |m0|
  {
    map id | id in m && id in these && Among(m0, h, id, j) :: m[id]
  }

  ghost predicate Among(m0: seq<BlockMeta>, h: nat, id: BlockId, j: nat)
    requires h < |m0| && j <= |m0|
  {
    exists i | 0 <= i < j :: m0[Pos(h, i, |m0|)].id == id
  }

  lemma {:induction false} SeenTotal(m0: seq<BlockMeta>, h: nat, m: Blocks, v: set<BlockId>, these: set<BlockId>,
                                     j: nat)
    requires IsSnapshot(m0, m, v) && h < |m0| && j <= |m0|
    ensures Sum(m0, h, Sized(these), j) == TotalBytes(Seen(m0, h, m, these, j))
  {
    hide TotalBytes, IsSnapshot, Seen;
    if j == 0 {
      SeenNone(m0, h, m, these);
    } else {
      SeenTotal(m0, h, m, v, these, j - 1);
      SeenNext(m0, h, m, v, these, j);
      var id := m0[Pos(h, j - 1, |m0|)].id;
      if id in these {
        TotalWith(Seen(m0, h, m, these, j - 1), id, m[id]);
      }
    }
  }

  lemma SeenNone(m0: seq<BlockMeta>, h: nat, m: Blocks, these: set<BlockId>)
    requires h < |m0|
    ensures TotalBytes(Seen(m0, h, m, these, 0)) == 0
  {
    assert Seen(m0, h, m, these, 0) == map[];
  }

  lemma SeenNext(m0: seq<BlockMeta>, h: nat, m: Blocks, v: set<BlockId>, these: set<BlockId>, j: nat)
    requires IsSnapshot(m0, m, v) && h < |m0| && 0 < j <= |m0|
    ensures var meta, before := m0[Pos(h, j - 1, |m0|)], Seen(m0, h, m, these, j - 1);
            && meta.id in m && meta.sizeBytes == |m[meta.id]| && meta.id !in before
            && Seen(m0, h, m, these, j) == if meta.id in these then before[meta.id := m[meta.id]] else before
  {
    var last := Pos(h, j - 1, |m0|);
    HandAt(h, j - 1, |m0|);
    var id := m0[last].id;
    assert id in m && m0[last].sizeBytes == |m[id]|;
    hide IsSnapshot, Pos;
    forall i | 0 <= i < j - 1 ensures m0[Pos(h, i, |m0|)].id != id {
      HandAt(h, i, |m0|);
      SnapshotDistinct(m0, m, v, Pos(h, i, |m0|), last);
    }
    forall x ensures Among(m0, h, x, j) <==> Among(m0, h, x, j - 1) || x == id {
      AmongNext(m0, h, x, j);
    }
    assert !Among(m0, h, id, j - 1);
    hide Among;
  }

  lemma AmongNext(m0: seq<BlockMeta>, h: nat, x: BlockId, j: nat)
    requires h < |m0| && 0 < j <= |m0|
    ensures Among(m0, h, x, j) <==> Among(m0, h, x, j - 1) || x == m0[Pos(h, j - 1, |m0|)].id
  {
    if Among(m0, h, x, j - 1) {
      var i :| 0 <= i < j - 1 && m0[Pos(h, i, |m0|)].id == x;
      assert i < j;
    }
  }

  /** Over the whole listing a sum of sizes is a total of bytes. */
  lemma SumTotal(m0: seq<BlockMeta>, h: nat, m: Blocks, v: set<BlockId>, these: set<BlockId>)
    requires IsSnapshot(m0, m, v) && h < |m0|
    ensures Sum(m0, h, Sized(these), |m0|) == TotalBytes(Part(m, these))
  {
    hide IsSnapshot, TotalBytes, Among, Sum, Sized;
    SeenTotal(m0, h, m, v, these, |m0|);
    forall id | id in m ensures Among(m0, h, id, |m0|) {
      AllAmong(m0, h, m, v, id);
    }
    assert Seen(m0, h, m, these, |m0|) == Part(m, these);
  }

  lemma AllAmong(m0: seq<BlockMeta>, h: nat, m: Blocks, v: set<BlockId>, id: BlockId)
    requires IsSnapshot(m0, m, v) && h < |m0| && id in m
    ensures Among(m0, h, id, |m0|)
  {
    var i :| 0 <= i < |m0| && m0[i].id == id;
    var j := Off(h, i, |m0|);
    assert 0 <= j < |m0| && Pos(h, j, |m0|) == i;
  }

  // What one removal does

  /**
   What a removal counts: an SSD pass erases and counts every copy, the others count a block that is
   anywhere once.
   */
  function Weight(t: Tier, s: State, meta: BlockMeta): nat
  {
    if t == SSD then Sized(s.hbm.Keys)(meta) + Sized(s.dram.Keys)(meta) + Sized(s.ssd.Keys)(meta)
    else if meta.id in Present(s) then meta.sizeBytes else 0
  }

  /** Demote finds a place for the block: below its fastest copy. */
  ghost predicate Demotable(cfg: Config, s: State, id: BlockId)
  {
    if id in s.hbm then Fits(cfg, s, DRAM, id, s.hbm[id]) || Fits(cfg, s, SSD, id, s.hbm[id])
    else id in s.dram && Fits(cfg, s, SSD, id, s.dram[id])
  }

  /** A removal that loses nothing. */
  ghost predicate Taken(cfg: Config, t: Tier, s: State, id: BlockId) { t != SSD && Demotable(cfg, s, id) }

  /** A block that Demote finds no place for has one copy at most, so erasing it counts it once. */
  lemma RemoveCounts(cfg: Config, content: BlockId -> Bytes, t: Tier, s: State, meta: BlockMeta)
    requires Inv(cfg, content, s) && meta.sizeBytes == |content(meta.id)|
    ensures Remove(cfg, t, s, meta).1 == Weight(t, s, meta)
  {
    hide Inv, Demote, Erase, Demotable, Weight, Present;
    DemoteIff(cfg, s, meta.id);
    if t != SSD && Demotable(cfg, s, meta.id) {
      WeighsItsSize(t, s, meta);
    } else {
      ErasedWeighs(cfg, content, t, s, meta);
    }
  }

  lemma ErasedWeighs(cfg: Config, content: BlockId -> Bytes, t: Tier, s: State, meta: BlockMeta)
    requires Inv(cfg, content, s) && meta.sizeBytes == |content(meta.id)| && (t == SSD || !Demotable(cfg, s, meta.id))
    ensures Erase(s, meta.id).1 == Weight(t, s, meta)
  {
    hide Inv, Demotable;
    CopiesSized(cfg, content, s, meta.id);
    if t != SSD {
      StuckIsSingle(cfg, content, s, meta.id);
    }
  }

  /** A block of the tier weighs at least its size, and just that in an HBM or a DRAM pass. */
  lemma WeighsItsSize(t: Tier, s: State, meta: BlockMeta)
    ensures meta.id in At(s, t) ==> Weight(t, s, meta) >= meta.sizeBytes
    ensures t != SSD && meta.id in Present(s) ==> Weight(t, s, meta) == meta.sizeBytes
  {}

  lemma DemoteIff(cfg: Config, s: State, id: BlockId)
    ensures Demote(cfg, s, id).1 <==> Demotable(cfg, s, id)
    ensures Demotable(cfg, s, id) ==> id in Present(s)
  {
    hide Fits, PutTier, EraseTier;
  }

  lemma CopiesSized(cfg: Config, content: BlockId -> Bytes, s: State, id: BlockId)
    requires Inv(cfg, content, s)
    ensures SizeIn(s.hbm, id) == if id in s.hbm then |content(id)| else 0
    ensures SizeIn(s.dram, id) == if id in s.dram then |content(id)| else 0
    ensures SizeIn(s.ssd, id) == if id in s.ssd then |content(id)| else 0
  {}

  lemma StuckIsSingle(cfg: Config, content: BlockId -> Bytes, s: State, id: BlockId)
    requires Inv(cfg, content, s) && !Demotable(cfg, s, id)
    ensures id in s.hbm ==> id !in s.dram && id !in s.ssd
    ensures id in s.dram ==> id !in s.ssd
  {
    hide TotalBytes;
  }

  lemma RemovePresent(cfg: Config, t: Tier, s: State, meta: BlockMeta)
    ensures Present(Remove(cfg, t, s, meta).0) ==
            if Taken(cfg, t, s, meta.id) then Present(s) else Present(s) - {meta.id}
  {
    if Taken(cfg, t, s, meta.id) {
      DemotePresent(cfg, s, meta.id);
    }
    hide Fits;
  }

  lemma DemotePresent(cfg: Config, s: State, id: BlockId)
    ensures Present(Demote(cfg, s, id).0) == Present(s)
  {
    hide Fits, PutTier, EraseTier, Present;
    if id in s.hbm {
      MovePresent(cfg, s, HBM, DRAM, id, s.hbm[id]);
      MovePresent(cfg, s, HBM, SSD, id, s.hbm[id]);
    } else if id in s.dram {
      MovePresent(cfg, s, DRAM, SSD, id, s.dram[id]);
    }
  }

  lemma MovePresent(cfg: Config, s: State, from: Tier, to: Tier, id: BlockId, data: Bytes)
    requires from != to && id in At(s, from)
    ensures Fits(cfg, s, to, id, data) ==> Present(EraseTier(PutTier(cfg, s, to, id, data), from, id)) == Present(s)
  {
    if Fits(cfg, s, to, id, data) {
      PutPresent(cfg, s, to, id, data);
      EraseElsewhere(PutTier(cfg, s, to, id, data), from, to, id);
      assert id in Present(s);
      hide Fits, PutTier, EraseTier, Present, At;
    }
  }

  lemma PutPresent(cfg: Config, s: State, t: Tier, id: BlockId, data: Bytes)
    requires Fits(cfg, s, t, id, data)
    ensures Present(PutTier(cfg, s, t, id, data)) == Present(s) + {id} && id in At(PutTier(cfg, s, t, id, data), t)
  {
    hide Fits;
  }

  /** The same tiers hold the block. */
  predicate Alike(s: State, s': State, id: BlockId)
  {
    (id in s'.hbm <==> id in s.hbm) && (id in s'.dram <==> id in s.dram) && (id in s'.ssd <==> id in s.ssd)
  }

  lemma RemoveAlike(cfg: Config, t: Tier, s: State, meta: BlockMeta, id: BlockId)
    requires id != meta.id
    ensures Alike(s, Remove(cfg, t, s, meta).0, id)
  {
    hide Remove;
    RemoveOther(cfg, t, s, meta);
    assert forall m: Blocks :: id in m <==> id in m - {meta.id};
  }

  lemma RemoveInv(cfg: Config, content: BlockId -> Bytes, t: Tier, s: State, meta: BlockMeta)
    requires Inv(cfg, content, s)
    ensures Inv(cfg, content, Remove(cfg, t, s, meta).0)
  {
    hide Inv, Demote, Erase;
    DemoteRefines(cfg, content, s, meta.id);
    EraseRefines(cfg, content, s, meta.id);
  }

  /** The bytes a removal takes from the tier: none if it takes an HBM copy instead. */
  lemma RemoveTakes(cfg: Config, t: Tier, s: State, meta: BlockMeta)
    requires Twice(t, s, meta.id) ==> meta.id in At(s, t)
    ensures TotalBytes(At(Remove(cfg, t, s, meta).0, t)) ==
            TotalBytes(At(s, t)) - if Twice(t, s, meta.id) then 0 else SizeIn(At(s, t), meta.id)
  {
    hide TotalBytes;
    RemoveFromTier(cfg, t, s, meta);
    WithoutShrinks(At(s, t), meta.id);
  }

  lemma RemoveFromTier(cfg: Config, t: Tier, s: State, meta: BlockMeta)
    requires Twice(t, s, meta.id) ==> meta.id in At(s, t)
    ensures At(Remove(cfg, t, s, meta).0, t) == if Twice(t, s, meta.id) then At(s, t) else At(s, t) - {meta.id}
  {
    var id := meta.id;
    assert id in s.dram && id in s.hbm ==> Fits(cfg, s, DRAM, id, s.hbm[id]);
    if t != SSD && Demote(cfg, s, id).1 {
      assert At(s, HBM) == s.hbm && At(s, DRAM) == s.dram;
      hide Fits, PutTier, EraseTier, At;
      if id in s.hbm {
        MoveTakes(cfg, s, HBM, DRAM, id, s.hbm[id]);
        MoveTakes(cfg, s, HBM, SSD, id, s.hbm[id]);
      } else {
        assert s.hbm - {id} == s.hbm;
        MoveTakes(cfg, s, DRAM, SSD, id, s.dram[id]);
      }
    }
  }

  /** What a move does to each tier. */
  lemma MoveTakes(cfg: Config, s: State, from: Tier, to: Tier, id: BlockId, data: Bytes)
    requires from != to
    ensures var s' := EraseTier(PutTier(cfg, s, to, id, data), from, id);
            && At(s', from) == At(s, from) - {id}
            && (forall u: Tier | u != from && u != to :: At(s', u) == At(s, u))
            && (id in At(s, to) ==> At(s', to) == At(s, to))
            && (Fits(cfg, s, to, id, data) && id !in At(s, to) ==> At(s', to) == At(s, to)[id := data])
  {
    hide Fits, PutTier, EraseTier, At;
    PutTiers(cfg, s, to, id, data);
    EraseTiers(PutTier(cfg, s, to, id, data), from, id);
  }

  lemma PutTiers(cfg: Config, s: State, to: Tier, id: BlockId, data: Bytes)
    ensures var s' := PutTier(cfg, s, to, id, data);
            && (forall u: Tier | u != to :: At(s', u) == At(s, u))
            && At(s', to) == if Fits(cfg, s, to, id, data) && id !in At(s, to) then At(s, to)[id := data] else At(s, to)
  {
    hide Fits;
  }

  lemma EraseTiers(s: State, from: Tier, id: BlockId)
    ensures At(EraseTier(s, from, id), from) == At(s, from) - {id}
    ensures forall u: Tier | u != from :: At(EraseTier(s, from, id), u) == At(s, u)
  {}

  // One step of a pass, and what it leaves alone

  lemma {:induction false} IterSound(cfg: Config, content: BlockId -> Bytes, t: Tier, p: Pass, k: nat)
    requires p.metas != [] && Inv(cfg, content, p.store)
    ensures Inv(cfg, content, Iter(cfg, t, p, k).store)
  {
    hide Inv, Remove;
    if k > 0 {
      IterSound(cfg, content, t, p, k - 1);
      var q := Iter(cfg, t, p, k - 1);
      var meta := q.metas[Wrap(q.hand, |q.metas|)];
      RemoveInv(cfg, content, t, q.store, meta);
      SpareSound(cfg, content, q.store, q.store.visited - {meta.id});
    }
  }

  lemma SpareSound(cfg: Config, content: BlockId -> Bytes, s: State, cleared: set<BlockId>)
    requires Inv(cfg, content, s)
    ensures Inv(cfg, content, s.(visited := cleared))
  {}

  /** The block under the hand at step `k`, and whether the step spares it. */
  function Met(m0: seq<BlockMeta>, hand: nat, k: nat): BlockMeta
    requires m0 != [] && k < 2 * |m0|
  {
    HandAt(Wrap(hand, |m0|), k, |m0|);
    m0[Pos(Wrap(hand, |m0|), k, |m0|)]
  }

  predicate Spared(m0: seq<BlockMeta>, hand: nat, k: nat)
    requires m0 != [] && k < 2 * |m0|
  {
    Met(m0, hand, k).visited && k < |m0|
  }

  /** What a step does to the pass. */
  lemma StepStore(cfg: Config, t: Tier, s0: State, m0: seq<BlockMeta>, hand: nat, k: nat)
    requires m0 != [] && k < 2 * |m0|
    ensures var p, q := Iter(cfg, t, Begin(s0, m0, hand), k), Iter(cfg, t, Begin(s0, m0, hand), k + 1);
            var meta := Met(m0, hand, k);
            && (Spared(m0, hand, k) ==>
                  && q.store == p.store.(visited := p.store.visited - {meta.id})
                  && q.freed == p.freed && q.evicted == p.evicted)
            && (!Spared(m0, hand, k) ==>
                  && q.store == Remove(cfg, t, p.store, meta).0 && q.freed == p.freed + Remove(cfg, t, p.store, meta).1
                  && q.evicted == p.evicted + [meta.id])
  {
    var h, p := Wrap(hand, |m0|), Iter(cfg, t, Begin(s0, m0, hand), k);
    hide HandInv, Demote, Erase;
    IterHand(cfg, t, s0, m0, hand, k);
    HandStep(cfg, t, m0, h, p, k);
    assert Iter(cfg, t, Begin(s0, m0, hand), k + 1) == Step(cfg, t, p);
  }

  /** The blocks of the first `k` steps that are not spared, in the order in which the hand meets them. */
  function Victims(m0: seq<BlockMeta>, hand: nat, k: nat): seq<BlockId>
    requires m0 != [] && k <= 2 * |m0|
  {
    if k == 0 then [] else
      Victims(m0, hand, k - 1) + if Spared(m0, hand, k - 1) then [] else [Met(m0, hand, k - 1).id]
  }

  lemma {:induction false} IterEvicted(cfg: Config, t: Tier, s0: State, m0: seq<BlockMeta>, hand: nat, k: nat)
    requires m0 != [] && k <= 2 * |m0|
    ensures Iter(cfg, t, Begin(s0, m0, hand), k).evicted == Victims(m0, hand, k)
  {
    hide Step, Met, Spared, Remove;
    if k > 0 {
      IterEvicted(cfg, t, s0, m0, hand, k - 1);
      StepStore(cfg, t, s0, m0, hand, k - 1);
    }
  }

  /**
   What a pass evicts is every block it met and did not spare, in hand order: in the first round the
   unvisited ones, in the second all. It leaves the hand behind the last block met.
   */
  lemma EvictedInOrder(cfg: Config, t: Tier, s0: State, m0: seq<BlockMeta>, hand: nat, need: nat)
    requires m0 != []
    ensures var end := Finish(cfg, t, Begin(s0, m0, hand), need);
            && end.steps <= 2 * |m0| && end.evicted == Victims(m0, hand, end.steps)
            && Wrap(end.hand, |m0|) == Pos(Wrap(hand, |m0|), end.steps, |m0|)
  {
    hide Iter, Finish, Stops, Victims, Pos;
    FinishIsIter(cfg, t, Begin(s0, m0, hand), need, 0);
    var n :| 0 <= n <= 2 * |m0| && Finish(cfg, t, Begin(s0, m0, hand), need) == Iter(cfg, t, Begin(s0, m0, hand), n);
    IterSteps(cfg, t, Begin(s0, m0, hand), n);
    IterEvicted(cfg, t, s0, m0, hand, n);
    IterHand(cfg, t, s0, m0, hand, n);
  }

  /** What step `k` counts, takes from the tier and takes from the store. */
  lemma StepLaw(cfg: Config, content: BlockId -> Bytes, t: Tier, s0: State, m0: seq<BlockMeta>, hand: nat, k: nat)
    requires Ready(cfg, content, t, s0, m0) && k < 2 * |m0|
    ensures var p, q := Iter(cfg, t, Begin(s0, m0, hand), k), Iter(cfg, t, Begin(s0, m0, hand), k + 1);
            var meta, spared := Met(m0, hand, k), Spared(m0, hand, k);
            && q.freed == p.freed + (if spared then 0 else Weight(t, p.store, meta))
            && q.evicted == p.evicted + (if spared then [] else [meta.id])
            && TotalBytes(At(q.store, t)) == TotalBytes(At(p.store, t))
                 - (if spared || Twice(t, p.store, meta.id) || meta.id !in At(p.store, t) then 0 else meta.sizeBytes)
            && Present(q.store) ==
                 (if spared || Taken(cfg, t, p.store, meta.id) then Present(p.store) else Present(p.store) - {meta.id})
            && forall id | spared || id != meta.id :: Alike(p.store, q.store, id)
  {
    hide Ready, Inv, TotalBytes, Remove, At, Present, Fate, Weight, Taken, Twice, Alike, IsSnapshot, Step, Pos;
    ReadyFacts(cfg, content, t, s0, m0);
    var h, start, meta := Wrap(hand, |m0|), Begin(s0, m0, hand), Met(m0, hand, k);
    var s := Iter(cfg, t, start, k).store;
    HandAt(h, k, |m0|);
    IterSound(cfg, content, t, start, k);
    StepStore(cfg, t, s0, m0, hand, k);
    if Spared(m0, hand, k) {
      SparedAlike(s, t, s.visited - {meta.id});
    } else {
      IterFate(cfg, t, s0, m0, hand, Pos(h, k, |m0|), k);
      TwiceInTier(t, s0, m0, h, Pos(h, k, |m0|), s, k);
      RemovalLaw(cfg, content, t, s, meta);
    }
  }

  lemma SparedAlike(s: State, t: Tier, cleared: set<BlockId>)
    ensures var s' := s.(visited := cleared);
            At(s', t) == At(s, t) && Present(s') == Present(s) && forall id :: Alike(s, s', id)
  {}

  lemma TwiceInTier(t: Tier, s0: State, m0: seq<BlockMeta>, h: nat, i: nat, s: State, j: nat)
    requires i < |m0| && Fate(t, s0, m0, h, i, s, j)
    ensures Twice(t, s, m0[i].id) ==> m0[i].id in At(s, t)
  {}

  lemma RemovalLaw(cfg: Config, content: BlockId -> Bytes, t: Tier, s: State, meta: BlockMeta)
    requires Inv(cfg, content, s) && meta.sizeBytes == |content(meta.id)|
    requires Twice(t, s, meta.id) ==> meta.id in At(s, t)
    ensures var (s', bytes) := Remove(cfg, t, s, meta);
            && bytes == Weight(t, s, meta)
            && TotalBytes(At(s', t)) == TotalBytes(At(s, t))
                 - (if Twice(t, s, meta.id) || meta.id !in At(s, t) then 0 else meta.sizeBytes)
            && Present(s') == (if Taken(cfg, t, s, meta.id) then Present(s) else Present(s) - {meta.id})
            && forall id | id != meta.id :: Alike(s, s', id)
  {
    RemoveCounts(cfg, content, t, s, meta);
    RemoveTakes(cfg, t, s, meta);
    RemovePresent(cfg, t, s, meta);
    InvContent(cfg, content, s);
    hide Inv, TotalBytes, Remove, Present, Taken, Alike, Twice, At;
    forall id | id != meta.id ensures Alike(s, Remove(cfg, t, s, meta).0, id) {
      RemoveAlike(cfg, t, s, meta, id);
    }
  }

  // The first round

  lemma {:induction false} Unmet(cfg: Config, content: BlockId -> Bytes, t: Tier, s0: State, m0: seq<BlockMeta>,
                                 hand: nat, i: nat, k: nat)
    requires Ready(cfg, content, t, s0, m0) && i < |m0| && k <= |m0|
    requires Off(Wrap(hand, |m0|), i, |m0|) >= k || m0[i].visited
    ensures Alike(s0, Iter(cfg, t, Begin(s0, m0, hand), k).store, m0[i].id)
  {
    hide Ready, Step, Present, TotalBytes, Weight, Taken, Twice, At;
    if k > 0 {
      Unmet(cfg, content, t, s0, m0, hand, i, k - 1);
      StepLaw(cfg, content, t, s0, m0, hand, k - 1);
      MetOnce(cfg, content, t, s0, m0, hand, i, k - 1);
      AlikeTrans(s0, Iter(cfg, t, Begin(s0, m0, hand), k - 1).store, Iter(cfg, t, Begin(s0, m0, hand), k).store,
                 m0[i].id);
    }
  }

  lemma AlikeTrans(a: State, b: State, c: State, id: BlockId)
    requires Alike(a, b, id) && Alike(b, c, id)
    ensures Alike(a, c, id)
  {}

  /** Blocks met at other steps of the same round are other blocks. */
  lemma MetOnce(cfg: Config, content: BlockId -> Bytes, t: Tier, s0: State, m0: seq<BlockMeta>, hand: nat, i: nat,
                k: nat)
    requires Ready(cfg, content, t, s0, m0) && i < |m0| && k < 2 * |m0|
    ensures Off(Wrap(hand, |m0|), i, |m0|) != (if k < |m0| then k else k - |m0|) ==> Met(m0, hand, k).id != m0[i].id
    ensures Off(Wrap(hand, |m0|), i, |m0|) == (if k < |m0| then k else k - |m0|) ==> Met(m0, hand, k) == m0[i]
  {
    hide Inv, At;
    HandAt(Wrap(hand, |m0|), k, |m0|);
  }

  lemma AlikeCounts(t: Tier, s: State, s': State, meta: BlockMeta)
    requires Alike(s, s', meta.id)
    ensures Weight(t, s', meta) == Weight(t, s, meta) && (Twice(t, s', meta.id) <==> Twice(t, s, meta.id))
    ensures (meta.id in At(s', t) <==> meta.id in At(s, t)) && (meta.id in Present(s') <==> meta.id in Present(s))
  {}

  /** What a pass counts for the blocks it does not skip. */
  function Counted(t: Tier, s: State, skip: set<BlockId>): Measure
  {
    (meta: BlockMeta) => if meta.id in skip then 0 else Weight(t, s, meta)
  }

  /** Ids that leave the tier in the first round, and in the second. */
  function Gone1(t: Tier, s0: State): set<BlockId>
  {
    set id | id in At(s0, t) && id !in s0.visited && !Twice(t, s0, id)
  }

  function Gone2(t: Tier, s0: State): set<BlockId>
  {
    set id | id in At(s0, t) && (id in s0.visited <==> !Twice(t, s0, id))
  }

  /**
   The first round: a removal counts what Weight says, and takes the block from the tier unless it is
   a DRAM pass and HBM has a copy.
   */
  lemma {:induction false} FirstRound(cfg: Config, content: BlockId -> Bytes, t: Tier, s0: State, m0: seq<BlockMeta>,
                                      hand: nat, k: nat)
    requires Ready(cfg, content, t, s0, m0) && k <= |m0|
    ensures var p, h := Iter(cfg, t, Begin(s0, m0, hand), k), Wrap(hand, |m0|);
            && p.freed == Sum(m0, h, Counted(t, s0, s0.visited), k)
            && TotalBytes(At(p.store, t)) == TotalBytes(At(s0, t)) - Sum(m0, h, Sized(Gone1(t, s0)), k)
  {
    hide Ready, Step, TotalBytes, At, Counted, Sized, Gone1;
    if k > 0 {
      FirstRound(cfg, content, t, s0, m0, hand, k - 1);
      FirstStep(cfg, content, t, s0, m0, hand, k - 1);
    }
  }

  lemma FirstStep(cfg: Config, content: BlockId -> Bytes, t: Tier, s0: State, m0: seq<BlockMeta>, hand: nat, k: nat)
    requires Ready(cfg, content, t, s0, m0) && k < |m0|
    ensures var p, q := Iter(cfg, t, Begin(s0, m0, hand), k), Iter(cfg, t, Begin(s0, m0, hand), k + 1);
            && q.freed == p.freed + Counted(t, s0, s0.visited)(Met(m0, hand, k))
            && TotalBytes(At(q.store, t)) == TotalBytes(At(p.store, t)) - Sized(Gone1(t, s0))(Met(m0, hand, k))
  {
    hide Ready, Iter, Present, TotalBytes, Weight, Taken, Twice, At, Alike, IsSnapshot, Gone1;
    var i := Pos(Wrap(hand, |m0|), k, |m0|);
    HandAt(Wrap(hand, |m0|), k, |m0|);
    StepLaw(cfg, content, t, s0, m0, hand, k);
    Unmet(cfg, content, t, s0, m0, hand, i, k);
    AlikeCounts(t, s0, Iter(cfg, t, Begin(s0, m0, hand), k).store, m0[i]);
    ReadyFacts(cfg, content, t, s0, m0);
    GoneIff(t, s0, m0[i].id);
  }

  lemma GoneIff(t: Tier, s0: State, id: BlockId)
    requires id in At(s0, t)
    ensures id in Gone1(t, s0) <==> id !in s0.visited && !Twice(t, s0, id)
    ensures id in Gone2(t, s0) <==> (id in s0.visited <==> !Twice(t, s0, id))
  {}

  // The second round

  /** The store after the first round. */
  ghost function AfterFirst(cfg: Config, t: Tier, s0: State, m0: seq<BlockMeta>, hand: nat): State
    requires m0 != []
  {
    Iter(cfg, t, Begin(s0, m0, hand), |m0|).store
  }

  lemma {:induction false} UnmetAgain(cfg: Config, content: BlockId -> Bytes, t: Tier, s0: State, m0: seq<BlockMeta>,
                                      hand: nat, i: nat, j: nat)
    requires Ready(cfg, content, t, s0, m0) && i < |m0| && j <= |m0| && Off(Wrap(hand, |m0|), i, |m0|) >= j
    ensures Alike(AfterFirst(cfg, t, s0, m0, hand), Iter(cfg, t, Begin(s0, m0, hand), |m0| + j).store, m0[i].id)
  {
    hide Ready, Step, Present, TotalBytes, Weight, Taken, Twice, At;
    if j > 0 {
      UnmetAgain(cfg, content, t, s0, m0, hand, i, j - 1);
      StepLaw(cfg, content, t, s0, m0, hand, |m0| + j - 1);
      MetOnce(cfg, content, t, s0, m0, hand, i, |m0| + j - 1);
      AlikeTrans(AfterFirst(cfg, t, s0, m0, hand), Iter(cfg, t, Begin(s0, m0, hand), |m0| + j - 1).store,
                 Iter(cfg, t, Begin(s0, m0, hand), |m0| + j).store, m0[i].id);
    }
  }

  /** After the first round a block is still in the tier if it was spared or its HBM copy went instead. */
  lemma AfterFirstFate(cfg: Config, content: BlockId -> Bytes, t: Tier, s0: State, m0: seq<BlockMeta>, hand: nat,
                       i: nat)
    requires Ready(cfg, content, t, s0, m0) && i < |m0|
    ensures var s, id := AfterFirst(cfg, t, s0, m0, hand), m0[i].id;
            && (id in At(s, t) <==> id in s0.visited || Twice(t, s0, id))
            && (Twice(t, s, id) <==> id in s0.visited && Twice(t, s0, id))
  {
    hide Step, Inv, At;
    IterFate(cfg, t, s0, m0, hand, i, |m0|);
  }

  /**
   The second round: every block met that the store still has is counted, again if it was counted
   before, but only what is still in the tier leaves it.
   */
  lemma {:induction false} SecondRound(cfg: Config, content: BlockId -> Bytes, t: Tier, s0: State, m0: seq<BlockMeta>,
                                       hand: nat, j: nat)
    requires Ready(cfg, content, t, s0, m0) && j <= |m0|
    ensures var p, h := Iter(cfg, t, Begin(s0, m0, hand), |m0| + j), Wrap(hand, |m0|);
            && p.freed == Sum(m0, h, Counted(t, s0, s0.visited), |m0|)
                          + Sum(m0, h, Counted(t, AfterFirst(cfg, t, s0, m0, hand), {}), j)
            && TotalBytes(At(p.store, t)) ==
               TotalBytes(At(s0, t)) - Sum(m0, h, Sized(Gone1(t, s0)), |m0|) - Sum(m0, h, Sized(Gone2(t, s0)), j)
  {
    hide Ready, Step, TotalBytes, At, Counted, Sized, Gone1, Gone2, AfterFirst;
    if j == 0 {
      FirstRound(cfg, content, t, s0, m0, hand, |m0|);
    } else {
      SecondRound(cfg, content, t, s0, m0, hand, j - 1);
      SecondStep(cfg, content, t, s0, m0, hand, j - 1);
    }
  }

  /** The second round spares no block. */
  lemma SecondRemoves(cfg: Config, content: BlockId -> Bytes, t: Tier, s0: State, m0: seq<BlockMeta>, hand: nat, j: nat)
    requires Ready(cfg, content, t, s0, m0) && j < |m0|
    ensures var p, q := Iter(cfg, t, Begin(s0, m0, hand), |m0| + j), Iter(cfg, t, Begin(s0, m0, hand), |m0| + j + 1);
            var meta := Met(m0, hand, j);
            && q.freed == p.freed + Weight(t, p.store, meta)
            && TotalBytes(At(q.store, t)) == TotalBytes(At(p.store, t))
                 - (if Twice(t, p.store, meta.id) || meta.id !in At(p.store, t) then 0 else meta.sizeBytes)
  {
    hide Ready, Iter, Present, TotalBytes, Weight, Taken, Twice, At, Alike;
    HandAt(Wrap(hand, |m0|), j, |m0|);
    StepLaw(cfg, content, t, s0, m0, hand, |m0| + j);
  }

  lemma SecondStep(cfg: Config, content: BlockId -> Bytes, t: Tier, s0: State, m0: seq<BlockMeta>, hand: nat, j: nat)
    requires Ready(cfg, content, t, s0, m0) && j < |m0|
    ensures var p, q := Iter(cfg, t, Begin(s0, m0, hand), |m0| + j), Iter(cfg, t, Begin(s0, m0, hand), |m0| + j + 1);
            && q.freed == p.freed + Counted(t, AfterFirst(cfg, t, s0, m0, hand), {})(Met(m0, hand, j))
            && TotalBytes(At(q.store, t)) == TotalBytes(At(p.store, t)) - Sized(Gone2(t, s0))(Met(m0, hand, j))
  {
    hide Ready, Iter, Present, TotalBytes, Weight, Taken, Twice, At, Alike, IsSnapshot, Gone2, AfterFirst;
    var i := Pos(Wrap(hand, |m0|), j, |m0|);
    HandAt(Wrap(hand, |m0|), j, |m0|);
    SecondRemoves(cfg, content, t, s0, m0, hand, j);
    UnmetAgain(cfg, content, t, s0, m0, hand, i, j);
    AlikeCounts(t, AfterFirst(cfg, t, s0, m0, hand), Iter(cfg, t, Begin(s0, m0, hand), |m0| + j).store, m0[i]);
    AfterFirstFate(cfg, content, t, s0, m0, hand, i);
    ReadyFacts(cfg, content, t, s0, m0);
    GoneIff(t, s0, m0[i].id);
  }
}
