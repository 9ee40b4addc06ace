/**
 One eviction pass over one tier as a value (cache_server/src/eviction.cpp): the hand walks the
 tier's snapshot for at most two rounds, sparing visited blocks once and removing the others.
 */
module EvictionPass {
  import opened Types
  import opened Sizes
  import opened TieredModel

  datatype Pass = Pass(store: State, metas: seq<BlockMeta>, hand: nat, steps: nat, freed: nat, evicted: seq<BlockId>)

  /** Where the hand really points: past the end it wraps to the start. */
  function Wrap(hand: nat, n: nat): nat { if hand >= n then 0 else hand }

  /** Removing one block: demote it if a slower tier takes it, else erase it everywhere. */
  ghost function Remove(cfg: Config, t: Tier, s: State, meta: BlockMeta): (State, nat)
  {
    if t != SSD && Demote(cfg, s, meta.id).1 then (Demote(cfg, s, meta.id).0, meta.sizeBytes) else Erase(s, meta.id)
  }

  ghost function Step(cfg: Config, t: Tier, p: Pass): Pass
    requires p.metas != []
  {
    var h := Wrap(p.hand, |p.metas|);
    var meta := p.metas[h];
    if meta.visited then
      p.(store := p.store.(visited := p.store.visited - {meta.id}), metas := p.metas[h := meta.(visited := false)],
         hand := h + 1, steps := p.steps + 1)
    else
      var (store, bytes) := Remove(cfg, t, p.store, meta);
      p.(store := store, hand := h + 1, steps := p.steps + 1, freed := p.freed + bytes,
         evicted := p.evicted + [meta.id])
  }

  /** The loop: until enough is freed, for at most two rounds. */
  ghost function Finish(cfg: Config, t: Tier, p: Pass, need: nat): Pass
    decreases 2 * |p.metas| - p.steps
  {
    if p.freed < need && p.steps < 2 * |p.metas| then Finish(cfg, t, Step(cfg, t, p), need) else p
  }

  lemma FinishUnfolds(cfg: Config, t: Tier, p: Pass, need: nat)
    ensures Finish(cfg, t, p, need) ==
            if p.freed < need && p.steps < 2 * |p.metas| then Finish(cfg, t, Step(cfg, t, p), need) else p
  {}

  // Where the hand is

  /** Index visited at step `j` of a walk that starts at `h`. */
  function Pos(h: nat, j: nat, n: nat): nat
  {
    if h + j < n then h + j else if h + j < 2 * n then h + j - n else if h + j < 3 * n then h + j - 2 * n else 0
  }

  /** How many steps after the start index `i` is first visited. */
  function Off(h: nat, i: nat, n: nat): int
  {
    if i >= h then i - h else i + n - h
  }

  /** The walk itself after `j` steps: where the hand is and which visited bits are left. */
  ghost predicate HandInv(m0: seq<BlockMeta>, h: nat, p: Pass, j: nat)
  {
    && h < |m0| && j <= 2 * |m0| && p.steps == j && |p.metas| == |m0| && Wrap(p.hand, |m0|) == Pos(h, j, |m0|)
    && (forall i | 0 <= i < |m0| :: p.metas[i] == m0[i].(visited := m0[i].visited && Off(h, i, |m0|) >= j))
  }

  /** The block under the hand at step `j` is met for the first time, or again a round later. */
  lemma HandAt(h: nat, j: nat, n: nat)
    requires h < n && j < 2 * n
    ensures Pos(h, j, n) < n && Off(h, Pos(h, j, n), n) == if j < n then j else j - n
    ensures j < n ==> Pos(h, n + j, n) == Pos(h, j, n)
  {}

  lemma HandStep(cfg: Config, t: Tier, m0: seq<BlockMeta>, h: nat, p: Pass, j: nat)
    requires j < 2 * |m0| && HandInv(m0, h, p, j)
    ensures HandInv(m0, h, Step(cfg, t, p), j + 1)
    ensures var i := Pos(h, j, |m0|);
            && h < |m0| && Wrap(p.hand, |m0|) == i < |m0| == |p.metas|
            && p.metas[i] == m0[i].(visited := m0[i].visited && j < |m0|)
  {
    hide Remove;
    HandAt(h, j, |m0|);
  }

  lemma SnapshotDistinct(metas: seq<BlockMeta>, m: Blocks, visited: set<BlockId>, i: nat, k: nat)
    requires IsSnapshot(metas, m, visited) && i < |metas| && k < |metas| && i != k
    ensures metas[i].id != metas[k].id
  {}

  // Second chance

  /** The pass after `k` steps. */
  ghost function Iter(cfg: Config, t: Tier, p: Pass, k: nat): (q: Pass)
    requires p.metas != []
    ensures |q.metas| == |p.metas|
  {
    if k == 0 then p else Step(cfg, t, Iter(cfg, t, p, k - 1))
  }

  lemma HandStart(s0: State, m0: seq<BlockMeta>, hand: nat)
    requires m0 != []
    ensures HandInv(m0, Wrap(hand, |m0|), Pass(s0, m0, hand, 0, 0, []), 0)
  {}

  lemma {:induction false} IterHand(cfg: Config, t: Tier, s0: State, m0: seq<BlockMeta>, hand: nat, k: nat)
    requires m0 != [] && k <= 2 * |m0|
    ensures HandInv(m0, Wrap(hand, |m0|), Iter(cfg, t, Pass(s0, m0, hand, 0, 0, []), k), k)
  {
    hide Step, HandInv;
    if k == 0 {
      HandStart(s0, m0, hand);
    } else {
      IterHand(cfg, t, s0, m0, hand, k - 1);
      HandStep(cfg, t, m0, Wrap(hand, |m0|), Iter(cfg, t, Pass(s0, m0, hand, 0, 0, []), k - 1), k - 1);
    }
  }

  /** A DRAM pass meets a block that HBM has too: the first removal takes the HBM copy. */
  predicate Twice(t: Tier, s: State, id: BlockId) { t == DRAM && id in s.hbm }

  /** The step that takes block `i`: its first meeting, one round later if spared, one more for each `extra`. */
  function Due(m0: seq<BlockMeta>, h: nat, i: nat, extra: bool): int
    requires i < |m0|
  {
    Off(h, i, |m0|) + (if m0[i].visited then |m0| else 0) + if extra then |m0| else 0
  }

  /** Where block `i` is after `j` steps, whatever other tiers hold. */
  ghost predicate Fate(t: Tier, s0: State, m0: seq<BlockMeta>, h: nat, i: nat, s: State, j: nat)
    requires i < |m0|
  {
    var id := m0[i].id;
    && (t == DRAM ==> (id in s.hbm <==> id in s0.hbm && Due(m0, h, i, false) >= j))
    && (id in At(s, t) <==> Due(m0, h, i, Twice(t, s0, id)) >= j)
  }

  /** What a removal does to the tier of the pass and to HBM. */
  lemma RemoveFate(cfg: Config, t: Tier, s: State, meta: BlockMeta, id: BlockId)
    ensures var s' := Remove(cfg, t, s, meta).0;
            && (id != meta.id ==>
                  (id in At(s', t) <==> id in At(s, t)) && (t == DRAM ==> (id in s'.hbm <==> id in s.hbm)))
            && (id == meta.id && Twice(t, s, id) && id in At(s, t) ==> id in At(s', t) && id !in s'.hbm)
            && (id == meta.id && !Twice(t, s, id) ==> id !in At(s', t) && !Twice(t, s', id))
  {
    if id != meta.id {
      RemoveOther(cfg, t, s, meta);
      hide Remove;
      assert forall m: Blocks :: id in m <==> id in m - {meta.id};
    } else {
      RemoveOwn(cfg, t, s, meta);
    }
  }

  lemma RemoveOther(cfg: Config, t: Tier, s: State, meta: BlockMeta)
    ensures var s' := Remove(cfg, t, s, meta).0;
            && s'.hbm - {meta.id} == s.hbm - {meta.id} && s'.dram - {meta.id} == s.dram - {meta.id}
            && s'.ssd - {meta.id} == s.ssd - {meta.id}
  {
    var id := meta.id;
    if t != SSD && Demote(cfg, s, id).1 {
      hide Fits, PutTier, EraseTier;
      if id in s.hbm {
        MoveStays(cfg, s, HBM, DRAM, id, s.hbm[id]);
        MoveStays(cfg, s, HBM, SSD, id, s.hbm[id]);
      } else {
        MoveStays(cfg, s, DRAM, SSD, id, s.dram[id]);
      }
    }
  }

  lemma RemoveOwn(cfg: Config, t: Tier, s: State, meta: BlockMeta)
    ensures var s' := Remove(cfg, t, s, meta).0;
            && (Twice(t, s, meta.id) && meta.id in At(s, t) ==> meta.id in At(s', t) && meta.id !in s'.hbm)
            && (!Twice(t, s, meta.id) ==> meta.id !in At(s', t) && !Twice(t, s', meta.id))
  {
    if Twice(t, s, meta.id) && meta.id in s.dram {
      assert Fits(cfg, s, DRAM, meta.id, s.hbm[meta.id]);
    }
    hide Fits;
  }

  lemma FateStart(t: Tier, s0: State, m0: seq<BlockMeta>, h: nat, i: nat)
    requires IsSnapshot(m0, At(s0, t), s0.visited) && i < |m0| && h < |m0|
    ensures Fate(t, s0, m0, h, i, s0, 0)
  {
    assert m0[i].id in At(s0, t);
  }

  lemma SameTiers(s: State, t: Tier, cleared: set<BlockId>)
    ensures At(s.(visited := cleared), t) == At(s, t) && Present(s.(visited := cleared)) == Present(s)
  {}

  lemma {:induction false} IterFate(cfg: Config, t: Tier, s0: State, m0: seq<BlockMeta>, hand: nat, i: nat, k: nat)
    requires IsSnapshot(m0, At(s0, t), s0.visited) && i < |m0| && k <= 2 * |m0|
    ensures Fate(t, s0, m0, Wrap(hand, |m0|), i, Iter(cfg, t, Pass(s0, m0, hand, 0, 0, []), k).store, k)
  {
    hide Step, HandInv, IsSnapshot, Fate;
    if k == 0 {
      FateStart(t, s0, m0, Wrap(hand, |m0|), i);
    } else {
      var p := Iter(cfg, t, Pass(s0, m0, hand, 0, 0, []), k - 1);
      IterHand(cfg, t, s0, m0, hand, k - 1);
      IterFate(cfg, t, s0, m0, hand, i, k - 1);
      StepFate(cfg, t, s0, m0, Wrap(hand, |m0|), i, p, k - 1);
    }
  }

  lemma StepFate(cfg: Config, t: Tier, s0: State, m0: seq<BlockMeta>, h: nat, i: nat, p: Pass, j: nat)
    requires IsSnapshot(m0, At(s0, t), s0.visited) && i < |m0| && j < 2 * |m0|
    requires HandInv(m0, h, p, j) && Fate(t, s0, m0, h, i, p.store, j)
    ensures p.metas != [] && Fate(t, s0, m0, h, i, Step(cfg, t, p).store, j + 1)
  {
    hide HandInv, IsSnapshot, Remove, At;
    HandStep(cfg, t, m0, h, p, j);
    HandAt(h, j, |m0|);
    var met := Pos(h, j, |m0|);
    var meta := p.metas[met];
    if met != i { SnapshotDistinct(m0, At(s0, t), s0.visited, i, met); }
    if meta.visited {
      SameTiers(p.store, t, p.store.visited - {meta.id});
    } else {
      RemoveFate(cfg, t, p.store, meta, m0[i].id);
    }
  }

  /**
   Second chance, exactly. At every moment of a pass a visited block is out of the tier only if a
   given unvisited one is, except in a DRAM pass that meets the visited one first when HBM has a copy
   of the unvisited one: its first removal then takes the HBM copy, and it is still there when the
   visited block goes.
   */
  lemma SecondChanceIff(cfg: Config, t: Tier, s0: State, m0: seq<BlockMeta>, hand: nat, spared: nat, other: nat)
    requires IsSnapshot(m0, At(s0, t), s0.visited)
    requires spared < |m0| && other < |m0| && m0[spared].visited && !m0[other].visited
    ensures (forall k | 0 <= k <= 2 * |m0| ::
               Fair(t, m0, spared, other, Iter(cfg, t, Pass(s0, m0, hand, 0, 0, []), k).store)) <==>
            !(&& Twice(t, s0, m0[other].id) && !Twice(t, s0, m0[spared].id)
              && Off(Wrap(hand, |m0|), spared, |m0|) < Off(Wrap(hand, |m0|), other, |m0|))
  {
    hide IsSnapshot, Step, Fair;
    var h, p := Wrap(hand, |m0|), Pass(s0, m0, hand, 0, 0, []);
    forall k | 0 <= k <= 2 * |m0|
      ensures Fair(t, m0, spared, other, Iter(cfg, t, p, k).store) <==>
              (Due(m0, h, spared, Twice(t, s0, m0[spared].id)) < k ==>
               Due(m0, h, other, Twice(t, s0, m0[other].id)) < k)
    {
      FairDue(cfg, t, s0, m0, hand, spared, other, k);
    }
    hide Twice;
    var k := Off(h, spared, |m0|) + |m0| + 1;
    assert 0 <= k <= 2 * |m0|;
    assert Twice(t, s0, m0[other].id) && !Twice(t, s0, m0[spared].id) && Off(h, spared, |m0|) < Off(h, other, |m0|) ==>
             !Fair(t, m0, spared, other, Iter(cfg, t, p, k).store);
  }

  /** The spared block is out of the tier only if the other one is. */
  ghost predicate Fair(t: Tier, m0: seq<BlockMeta>, spared: nat, other: nat, now: State)
    requires spared < |m0| && other < |m0|
  {
    m0[spared].id !in At(now, t) ==> m0[other].id !in At(now, t)
  }

  lemma FairDue(cfg: Config, t: Tier, s0: State, m0: seq<BlockMeta>, hand: nat, spared: nat, other: nat, k: nat)
    requires IsSnapshot(m0, At(s0, t), s0.visited) && spared < |m0| && other < |m0| && k <= 2 * |m0|
    ensures var h := Wrap(hand, |m0|);
            Fair(t, m0, spared, other, Iter(cfg, t, Pass(s0, m0, hand, 0, 0, []), k).store) <==>
            (Due(m0, h, spared, Twice(t, s0, m0[spared].id)) < k ==> Due(m0, h, other, Twice(t, s0, m0[other].id)) < k)
  {
    hide IsSnapshot, Step, At, Twice, Due;
    IterFate(cfg, t, s0, m0, hand, spared, k);
    IterFate(cfg, t, s0, m0, hand, other, k);
  }

  /** Every pass is such a moment: the loop stops after the first step that frees enough, or after two rounds. */
  lemma {:induction false} FinishIsIter(cfg: Config, t: Tier, p: Pass, need: nat, k: nat)
    requires p.metas != [] && p.steps == 0 && k <= 2 * |p.metas|
    requires forall j | 0 <= j < k :: Iter(cfg, t, p, j).freed < need
    ensures exists n ::
              k <= n <= 2 * |p.metas| && Stops(cfg, t, p, need, n) && Finish(cfg, t, p, need) == Iter(cfg, t, p, n)
    decreases 2 * |p.metas| - k
  {
    hide Step;
    if Iter(cfg, t, p, k).freed < need && k < 2 * |p.metas| {
      FinishIsIter(cfg, t, p, need, k + 1);
    } else {
      FinishAt(cfg, t, p, need, k);
    }
  }

  /** `n` is the number of steps after which the loop condition first fails. */
  ghost predicate Stops(cfg: Config, t: Tier, p: Pass, need: nat, n: nat)
    requires p.metas != []
  {
    && n <= 2 * |p.metas|
    && (forall j | 0 <= j < n :: Iter(cfg, t, p, j).freed < need)
    && (n == 2 * |p.metas| || Iter(cfg, t, p, n).freed >= need)
  }

  lemma StopsJust(cfg: Config, t: Tier, p: Pass, need: nat, n: nat)
    requires p.metas != [] && Stops(cfg, t, p, need, n) && p.freed < need
    ensures n > 0 && Iter(cfg, t, p, n - 1).freed < need && (n < 2 * |p.metas| ==> Iter(cfg, t, p, n).freed >= need)
  {
    hide Step;
  }

  lemma {:induction false} IterSteps(cfg: Config, t: Tier, p: Pass, k: nat)
    requires p.metas != []
    ensures Iter(cfg, t, p, k).steps == p.steps + k
  {
    hide Step;
    if k > 0 {
      IterSteps(cfg, t, p, k - 1);
      StepCounts(cfg, t, Iter(cfg, t, p, k - 1));
    }
  }

  /** The state the loop ends in, named by its number of steps. */
  lemma FinishAt(cfg: Config, t: Tier, p: Pass, need: nat, n: nat)
    requires p.metas != [] && p.steps == 0 && Stops(cfg, t, p, need, n)
    ensures Finish(cfg, t, p, need) == Iter(cfg, t, p, n)
  {
    FinishFrom(cfg, t, p, need, n, 0);
  }

  lemma {:induction false} FinishFrom(cfg: Config, t: Tier, p: Pass, need: nat, n: nat, j: nat)
    requires p.metas != [] && p.steps == 0 && Stops(cfg, t, p, need, n) && j <= n
    ensures Finish(cfg, t, Iter(cfg, t, p, j), need) == Iter(cfg, t, p, n)
    decreases n - j
  {
    hide Step;
    IterSteps(cfg, t, p, j);
    if j < n {
      assert Iter(cfg, t, p, j + 1) == Step(cfg, t, Iter(cfg, t, p, j));
      FinishFrom(cfg, t, p, need, n, j + 1);
    }
  }

  lemma StepCounts(cfg: Config, t: Tier, p: Pass)
    requires p.metas != []
    ensures Step(cfg, t, p).steps == p.steps + 1
  {}
}
