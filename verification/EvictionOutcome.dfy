/**
 What a pass of the evictor achieves, exactly (cache_server/src/eviction.cpp): when it ends at or
 below its target, as a condition on the snapshot, the hand and the target, wherever else a block
 has copies.
 */
module EvictionOutcome {
  import opened Types
  import opened Sizes
  import opened TieredModel
  import opened EvictionPass
  import opened EvictionRounds

  /** Bytes of the tier's visited blocks. */
  ghost function VisitedBytes(s0: State, t: Tier): nat { TotalBytes(Part(At(s0, t), s0.visited)) }

  // What the whole listing comes to

  lemma {:induction false} SumMonotone(m0: seq<BlockMeta>, h: nat, f: Measure, j: nat, k: nat)
    requires h < |m0| && j <= k <= |m0|
    ensures Sum(m0, h, f, j) <= Sum(m0, h, f, k)
  {
    if j < k {
      SumMonotone(m0, h, f, j, k - 1);
    }
  }

  /** The sizes of all blocks listed, and of the visited and the unvisited ones. */
  lemma WholeSums(cfg: Config, content: BlockId -> Bytes, t: Tier, s0: State, m0: seq<BlockMeta>, h: nat)
    requires Ready(cfg, content, t, s0, m0) && h < |m0|
    ensures var all := At(s0, t).Keys;
            && Sum(m0, h, Sized(all), |m0|) == TotalBytes(At(s0, t))
            && Sum(m0, h, Sized(s0.visited), |m0|) == VisitedBytes(s0, t)
            && Sum(m0, h, Sized(all - s0.visited), |m0|) == TotalBytes(At(s0, t)) - VisitedBytes(s0, t)
  {
    hide Ready, Inv, TotalBytes, Sum, IsSnapshot, At;
    ReadyFacts(cfg, content, t, s0, m0);
    var all := At(s0, t).Keys;
    SumTotal(m0, h, At(s0, t), s0.visited, all);
    PartWhole(At(s0, t));
    SumTotal(m0, h, At(s0, t), s0.visited, s0.visited);
    SumAdds(m0, h, Sized(s0.visited), Sized(all - s0.visited), Sized(all), |m0|);
  }

  lemma PartWhole(m: Blocks)
    ensures Part(m, m.Keys) == m
  {}

  /** The first round counts at least the unvisited bytes, the second at least the visited ones. */
  lemma CountsEnough(cfg: Config, content: BlockId -> Bytes, t: Tier, s0: State, m0: seq<BlockMeta>, hand: nat)
    requires Ready(cfg, content, t, s0, m0)
    ensures Sum(m0, Wrap(hand, |m0|), Counted(t, s0, s0.visited), |m0|) >= TotalBytes(At(s0, t)) - VisitedBytes(s0, t)
    ensures Sum(m0, Wrap(hand, |m0|), Counted(t, AfterFirst(cfg, t, s0, m0, hand), {}), |m0|) >= VisitedBytes(s0, t)
  {
    hide Ready, Inv, TotalBytes, Sum, IsSnapshot, Weight, AfterFirst, VisitedBytes, At, Twice;
    ReadyFacts(cfg, content, t, s0, m0);
    var h, after := Wrap(hand, |m0|), AfterFirst(cfg, t, s0, m0, hand);
    WholeSums(cfg, content, t, s0, m0, h);
    forall i | 0 <= i < |m0|
      ensures Sized(At(s0, t).Keys - s0.visited)(m0[i]) <= Counted(t, s0, s0.visited)(m0[i])
      ensures Sized(s0.visited)(m0[i]) <= Counted(t, after, {})(m0[i])
    {
      WeighsItsSize(t, s0, m0[i]);
      WeighsItsSize(t, after, m0[i]);
      AfterFirstFate(cfg, content, t, s0, m0, hand, i);
    }
    hide Sized, Counted;
    SumGrows(m0, h, Sized(At(s0, t).Keys - s0.visited), Counted(t, s0, s0.visited), |m0|);
    SumGrows(m0, h, Sized(s0.visited), Counted(t, after, {}), |m0|);
  }

  // When the target is met

  /** The step the pass ends with, when the first round counts enough and when it does not. */
  lemma EndsInFirst(cfg: Config, content: BlockId -> Bytes, t: Tier, s0: State, m0: seq<BlockMeta>, hand: nat,
                    need: nat)
    requires Ready(cfg, content, t, s0, m0) && need <= Sum(m0, Wrap(hand, |m0|), Counted(t, s0, s0.visited), |m0|)
    ensures var k := Least(m0, Wrap(hand, |m0|), Counted(t, s0, s0.visited), need, 0);
            Finish(cfg, t, Begin(s0, m0, hand), need) == Iter(cfg, t, Begin(s0, m0, hand), k)
  {
    hide Ready, Inv, TotalBytes, Sum, At, Iter, Counted, Finish, Least, Sized, Gone1;
    NotEmpty(cfg, content, t, s0, m0);
    var h, first := Wrap(hand, |m0|), Counted(t, s0, s0.visited);
    var k := Least(m0, h, first, need, 0);
    forall j | 0 <= j <= k ensures Iter(cfg, t, Begin(s0, m0, hand), j).freed == Sum(m0, h, first, j) {
      FirstRound(cfg, content, t, s0, m0, hand, j);
    }
    FinishAt(cfg, t, Begin(s0, m0, hand), need, k);
  }

  lemma EndsInSecond(cfg: Config, content: BlockId -> Bytes, t: Tier, s0: State, m0: seq<BlockMeta>, hand: nat,
                     need: nat)
    requires Ready(cfg, content, t, s0, m0) && need > Sum(m0, Wrap(hand, |m0|), Counted(t, s0, s0.visited), |m0|)
    ensures var h := Wrap(hand, |m0|);
            var left := need - Sum(m0, h, Counted(t, s0, s0.visited), |m0|);
            var k := Least(m0, h, Counted(t, AfterFirst(cfg, t, s0, m0, hand), {}), left, 0);
            Finish(cfg, t, Begin(s0, m0, hand), need) == Iter(cfg, t, Begin(s0, m0, hand), |m0| + k)
  {
    hide Ready, Inv, TotalBytes, Sum, At, Iter, Counted, Finish, Least, Sized, Gone1, Gone2, AfterFirst;
    NotEmpty(cfg, content, t, s0, m0);
    var h, first := Wrap(hand, |m0|), Counted(t, s0, s0.visited);
    var again := Counted(t, AfterFirst(cfg, t, s0, m0, hand), {});
    var total := Sum(m0, h, first, |m0|);
    var k := Least(m0, h, again, need - total, 0);
    forall j | 0 <= j < |m0| + k ensures Iter(cfg, t, Begin(s0, m0, hand), j).freed < need {
      if j < |m0| {
        FirstRound(cfg, content, t, s0, m0, hand, j);
        SumMonotone(m0, h, first, j, |m0|);
      } else {
        SecondRound(cfg, content, t, s0, m0, hand, j - |m0|);
      }
    }
    SecondRound(cfg, content, t, s0, m0, hand, k);
    FinishAt(cfg, t, Begin(s0, m0, hand), need, |m0| + k);
  }

  /** What has left the tier when a pass ends in its first round after `k` steps, or `k` steps into the second. */
  ghost function Removed(t: Tier, s0: State, m0: seq<BlockMeta>, h: nat, again: bool, k: nat): nat
    requires h < |m0| && k <= |m0|
  {
    if again then Sum(m0, h, Sized(Gone1(t, s0)), |m0|) + Sum(m0, h, Sized(Gone2(t, s0)), k)
    else Sum(m0, h, Sized(Gone1(t, s0)), k)
  }

  /**
   When a pass meets its target. It always counts enough: it ends with the first block in hand order
   whose counted bytes come to the need, in the first round or, after all the first round counts, in
   the second. But what it counts is not what leaves the tier, and the tier ends at or below `low`
   exactly when enough of what was met by then does leave it: unvisited blocks in the first round,
   visited ones in the second, and a block that HBM has too one round later than that.
   */
  lemma MeetsLowIff(cfg: Config, content: BlockId -> Bytes, t: Tier, s0: State, m0: seq<BlockMeta>, hand: nat, low: nat)
    requires Ready(cfg, content, t, s0, m0) && low < TotalBytes(At(s0, t))
    ensures var h, need := Wrap(hand, |m0|), TotalBytes(At(s0, t)) - low;
            var end := Finish(cfg, t, Begin(s0, m0, hand), need);
            var first, second := Counted(t, s0, s0.visited), Counted(t, AfterFirst(cfg, t, s0, m0, hand), {});
            var total := Sum(m0, h, first, |m0|);
            var again := total < need;
            var k := if again then Least(m0, h, second, need - total, 0) else Least(m0, h, first, need, 0);
            && end.steps == (if again then |m0| + k else k)
            && end.freed >= need
            && TotalBytes(At(end.store, t)) == TotalBytes(At(s0, t)) - Removed(t, s0, m0, h, again, k)
            && (TotalBytes(At(end.store, t)) <= low <==> Removed(t, s0, m0, h, again, k) >= need)
  {
    hide Ready, Inv, TotalBytes, Sum, At, Iter, Counted, Finish, Least, Sized, Gone1, Gone2, AfterFirst, VisitedBytes;
    NotEmpty(cfg, content, t, s0, m0);
    var h, need := Wrap(hand, |m0|), TotalBytes(At(s0, t)) - low;
    var first, second := Counted(t, s0, s0.visited), Counted(t, AfterFirst(cfg, t, s0, m0, hand), {});
    var total := Sum(m0, h, first, |m0|);
    CountsEnough(cfg, content, t, s0, m0, hand);
    if total < need {
      var k := Least(m0, h, second, need - total, 0);
      EndsInSecond(cfg, content, t, s0, m0, hand, need);
      SecondRound(cfg, content, t, s0, m0, hand, k);
      IterSteps(cfg, t, Begin(s0, m0, hand), |m0| + k);
    } else {
      var k := Least(m0, h, first, need, 0);
      EndsInFirst(cfg, content, t, s0, m0, hand, need);
      FirstRound(cfg, content, t, s0, m0, hand, k);
      IterSteps(cfg, t, Begin(s0, m0, hand), k);
    }
  }

  /** No unvisited block of the tier has a copy in a faster one. */
  ghost predicate Topmost(t: Tier, s: State)
  {
    forall id, u: Tier | id in At(s, t) && id !in s.visited && Rank(u) < Rank(t) :: id !in At(s, u)
  }

  /**
   If the visited blocks alone fit under `low`, a pass ends in its first round, and meets its target
   exactly when the unvisited blocks met, not counting in a DRAM pass those that HBM has too, come to
   the need. They do if no unvisited block of the tier has a faster copy: always so in an HBM pass.
   */
  lemma MeetsLowInOneRoundIff(cfg: Config, content: BlockId -> Bytes, t: Tier, s0: State, m0: seq<BlockMeta>, hand: nat,
                              low: nat)
    requires Ready(cfg, content, t, s0, m0) && VisitedBytes(s0, t) <= low < TotalBytes(At(s0, t))
    ensures var h, need := Wrap(hand, |m0|), TotalBytes(At(s0, t)) - low;
            var end := Finish(cfg, t, Begin(s0, m0, hand), need);
            var n := Least(m0, h, Counted(t, s0, s0.visited), need, 0);
            && end.steps == n <= |m0|
            && TotalBytes(At(end.store, t)) == TotalBytes(At(s0, t)) - Sum(m0, h, Sized(Gone1(t, s0)), n)
            && (TotalBytes(At(end.store, t)) <= low <==> Sum(m0, h, Sized(Gone1(t, s0)), n) >= need)
            && (Topmost(t, s0) ==> TotalBytes(At(end.store, t)) <= low)
  {
    hide Ready, Inv, TotalBytes, Sum, At, Iter, Counted, Finish, Sized, Gone1, Gone2, AfterFirst, VisitedBytes, Topmost;
    NotEmpty(cfg, content, t, s0, m0);
    CountsEnough(cfg, content, t, s0, m0, hand);
    MeetsLowIff(cfg, content, t, s0, m0, hand, low);
    if Topmost(t, s0) {
      var h, need, first := Wrap(hand, |m0|), TotalBytes(At(s0, t)) - low, Counted(t, s0, s0.visited);
      TopmostCounts(cfg, content, t, s0, m0);
      SumAgree(m0, h, first, Sized(Gone1(t, s0)), Least(m0, h, first, need, 0));
    }
  }

  lemma TopmostCounts(cfg: Config, content: BlockId -> Bytes, t: Tier, s0: State, m0: seq<BlockMeta>)
    requires Ready(cfg, content, t, s0, m0) && Topmost(t, s0)
    ensures forall i | 0 <= i < |m0| :: Counted(t, s0, s0.visited)(m0[i]) == Sized(Gone1(t, s0))(m0[i])
  {
    hide Ready, IsSnapshot, Inv, Topmost;
    ReadyFacts(cfg, content, t, s0, m0);
    forall i | 0 <= i < |m0| ensures Counted(t, s0, s0.visited)(m0[i]) == Sized(Gone1(t, s0))(m0[i]) {
      if !m0[i].visited {
        NoneFaster(t, s0, m0[i].id);
      }
    }
  }

  lemma NoneFaster(t: Tier, s: State, id: BlockId)
    requires Topmost(t, s) && id in At(s, t) && id !in s.visited
    ensures t != HBM ==> id !in s.hbm
    ensures t == SSD ==> id !in s.dram
  {
    assert t != HBM ==> id !in At(s, HBM);
    assert t == SSD ==> id !in At(s, DRAM);
  }

  // Reaching the target when nothing can be demoted

  /** No block of the tier has a copy in another one. */
  ghost predicate Alone(t: Tier, s: State) { forall id, u: Tier | id in At(s, t) && u != t :: id !in At(s, u) }

  /** No block of the tier would be taken by a slower one. */
  ghost predicate NoRoomBelow(cfg: Config, s: State, t: Tier)
  {
    match t
    case HBM => forall id | id in s.hbm :: !Fits(cfg, s, DRAM, id, s.hbm[id]) && !Fits(cfg, s, SSD, id, s.hbm[id])
    case DRAM => forall id | id in s.dram :: !Fits(cfg, s, SSD, id, s.dram[id])
    case SSD => true
  }

  /** Only the tier itself has changed, and it has only lost blocks. */
  ghost predicate Erasing(t: Tier, s0: State, s: State)
  {
    && (forall u: Tier | u != t :: At(s, u) == At(s0, u))
    && (forall id | id in At(s, t) :: id in At(s0, t) && At(s, t)[id] == At(s0, t)[id])
  }

  lemma CannotDemote(cfg: Config, t: Tier, s0: State, s: State, id: BlockId)
    requires NoRoomBelow(cfg, s0, t) && t != SSD && Erasing(t, s0, s) && Alone(t, s0) && id in At(s0, t)
    ensures !Demote(cfg, s, id).1
  {
    hide TotalBytes, Alone;
    OnlyHere(t, s0, id);
    assert At(s, SSD) == s.ssd && At(s0, SSD) == s0.ssd;
    if t == HBM {
      assert At(s, DRAM) == s.dram && At(s0, DRAM) == s0.dram;
    } else {
      assert At(s, HBM) == s.hbm && At(s0, HBM) == s0.hbm;
    }
  }

  lemma OnlyHere(t: Tier, s: State, id: BlockId)
    requires Alone(t, s) && id in At(s, t)
    ensures forall u: Tier | u != t :: id !in At(s, u)
  {}

  /** An erase of a block that is nowhere else moves the byte counts exactly. */
  lemma EraseMoves(t: Tier, s: State, id: BlockId)
    requires forall u: Tier | u != t :: id !in At(s, u)
    ensures Erase(s, id).1 == TotalBytes(At(s, t)) - TotalBytes(At(Erase(s, id).0, t)) == SizeIn(At(s, t), id)
    ensures forall u: Tier | u != t :: At(Erase(s, id).0, u) == At(s, u)
    ensures At(Erase(s, id).0, t) == At(s, t) - {id}
  {
    hide TotalBytes;
    WithoutShrinks(At(s, t), id);
    forall u: Tier | u != t ensures At(Erase(s, id).0, u) == At(s, u) {
      assert At(s, u) - {id} == At(s, u);
    }
    assert SizeIn(At(s, HBM), id) + SizeIn(At(s, DRAM), id) + SizeIn(At(s, SSD), id) == SizeIn(At(s, t), id);
  }

  /** With no room below, a removal is an erase. */
  lemma RemoveErases(cfg: Config, t: Tier, s0: State, s: State, meta: BlockMeta)
    requires NoRoomBelow(cfg, s0, t) && Erasing(t, s0, s) && Alone(t, s0) && meta.id in At(s0, t)
    ensures var (s', bytes) := Remove(cfg, t, s, meta);
            && Erasing(t, s0, s') && bytes == TotalBytes(At(s, t)) - TotalBytes(At(s', t))
            && bytes <= SizeIn(At(s0, t), meta.id)
  {
    hide NoRoomBelow, TotalBytes, Demote, Erase, Alone;
    if t != SSD {
      CannotDemote(cfg, t, s0, s, meta.id);
    }
    OnlyHere(t, s0, meta.id);
    EraseMoves(t, s, meta.id);
  }

  lemma Listed(t: Tier, s0: State, m0: seq<BlockMeta>, hand: nat, k: nat)
    requires IsSnapshot(m0, At(s0, t), s0.visited) && m0 != [] && k < 2 * |m0|
    ensures Met(m0, hand, k).id in At(s0, t)
  {
    HandAt(Wrap(hand, |m0|), k, |m0|);
  }

  lemma {:induction false} EraseRuns(cfg: Config, t: Tier, s0: State, m0: seq<BlockMeta>, hand: nat, k: nat)
    requires IsSnapshot(m0, At(s0, t), s0.visited) && m0 != [] && k <= 2 * |m0|
    requires Alone(t, s0) && NoRoomBelow(cfg, s0, t)
    ensures var p := Iter(cfg, t, Begin(s0, m0, hand), k);
            Erasing(t, s0, p.store) && p.freed == TotalBytes(At(s0, t)) - TotalBytes(At(p.store, t))
    ensures k > 0 ==>
              var p, q := Iter(cfg, t, Begin(s0, m0, hand), k - 1), Iter(cfg, t, Begin(s0, m0, hand), k);
              q.freed > p.freed ==>
                q.evicted != [] && q.freed <= p.freed + SizeIn(At(s0, t), q.evicted[|q.evicted| - 1])
  {
    hide IsSnapshot, Alone, NoRoomBelow, TotalBytes, Step, Remove, Erasing, Met, Spared, At;
    if k == 0 {
      NothingErased(t, s0);
    } else {
      EraseRuns(cfg, t, s0, m0, hand, k - 1);
      StepStore(cfg, t, s0, m0, hand, k - 1);
      Listed(t, s0, m0, hand, k - 1);
      var s, meta := Iter(cfg, t, Begin(s0, m0, hand), k - 1).store, Met(m0, hand, k - 1);
      if Spared(m0, hand, k - 1) {
        SpareErasing(t, s0, s, s.visited - {meta.id});
      } else {
        RemoveErases(cfg, t, s0, s, meta);
      }
    }
  }

  lemma NothingErased(t: Tier, s: State)
    ensures Erasing(t, s, s)
  {}

  lemma SpareErasing(t: Tier, s0: State, s: State, cleared: set<BlockId>)
    requires Erasing(t, s0, s)
    ensures Erasing(t, s0, s.(visited := cleared)) && At(s.(visited := cleared), t) == At(s, t)
  {
    assert forall u: Tier :: At(s.(visited := cleared), u) == At(s, u);
  }

  /** Two rounds empty the tier. */
  lemma AllErased(cfg: Config, t: Tier, s0: State, m0: seq<BlockMeta>, hand: nat)
    requires IsSnapshot(m0, At(s0, t), s0.visited) && m0 != [] && Alone(t, s0)
    requires Erasing(t, s0, Iter(cfg, t, Begin(s0, m0, hand), 2 * |m0|).store)
    ensures TotalBytes(At(Iter(cfg, t, Begin(s0, m0, hand), 2 * |m0|).store, t)) == 0
  {
    assert TotalBytes(map[]) == 0;
    hide TotalBytes, Iter, At, Alone, IsSnapshot;
    var s := Iter(cfg, t, Begin(s0, m0, hand), 2 * |m0|).store;
    forall id | id in At(s0, t) ensures id !in At(s, t) {
      GoneAtTheEnd(cfg, t, s0, m0, hand, id);
    }
    assert At(s, t) == map[];
  }

  lemma GoneAtTheEnd(cfg: Config, t: Tier, s0: State, m0: seq<BlockMeta>, hand: nat, id: BlockId)
    requires IsSnapshot(m0, At(s0, t), s0.visited) && m0 != [] && Alone(t, s0) && id in At(s0, t)
    ensures id !in At(Iter(cfg, t, Begin(s0, m0, hand), 2 * |m0|).store, t)
  {
    hide Iter, At, Alone;
    var i :| 0 <= i < |m0| && m0[i].id == id;
    IterFate(cfg, t, s0, m0, hand, i, 2 * |m0|);
    AloneOnce(t, s0, id);
  }

  lemma AloneOnce(t: Tier, s: State, id: BlockId)
    requires Alone(t, s) && id in At(s, t)
    ensures !Twice(t, s, id)
  {
    OnlyHere(t, s, id);
    assert At(s, HBM) == s.hbm;
  }

  /**
   Eviction reaches its target. If no block of the tier has another copy and no slower tier takes a
   victim, a pass that starts above `low` ends, from any hand position and within two rounds, with the
   tier at or below `low` and not lower than the last removal made necessary.
   */
  lemma ReachesLowWatermark(cfg: Config, t: Tier, s0: State, m0: seq<BlockMeta>, hand: nat, low: nat)
    requires IsSnapshot(m0, At(s0, t), s0.visited) && m0 != [] && Alone(t, s0) && NoRoomBelow(cfg, s0, t)
    requires low < TotalBytes(At(s0, t))
    ensures var end := Finish(cfg, t, Begin(s0, m0, hand), TotalBytes(At(s0, t)) - low);
            var used := TotalBytes(At(end.store, t));
            && end.steps <= 2 * |m0|
            && used <= low
            && end.evicted != []
            && used + SizeIn(At(s0, t), end.evicted[|end.evicted| - 1]) > low
            && end.freed == TotalBytes(At(s0, t)) - used
  {
    hide IsSnapshot, Alone, NoRoomBelow, TotalBytes, Iter, Finish, Erasing, At, Stops;
    var p, need := Begin(s0, m0, hand), TotalBytes(At(s0, t)) - low;
    FinishIsIter(cfg, t, p, need, 0);
    var n :| 0 <= n <= 2 * |m0| && Stops(cfg, t, p, need, n) && Finish(cfg, t, p, need) == Iter(cfg, t, p, n);
    IterSteps(cfg, t, p, n);
    StopsJust(cfg, t, p, need, n);
    EraseRuns(cfg, t, s0, m0, hand, n);
    if n == 2 * |m0| {
      AllErased(cfg, t, s0, m0, hand);
    }
  }
}
