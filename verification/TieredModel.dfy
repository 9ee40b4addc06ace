/**
 The tiered store as a value: three maps and the access bookkeeping, with one function per
 operation (cache_server/src/tiered_store.cpp). The classes in BlockStore and TieredStore are
 proved against these functions; what the store promises is proved about them here.
 */
module TieredModel {
  import opened Types
  import opened Sizes

  type Blocks = map<BlockId, Bytes>

  /** A zero HBM capacity means the tier does not exist; `hasSsd` says whether the SSD tier does. */
  datatype Config = Config(hbmBytes: nat, dramBytes: nat, hasSsd: bool, ssdSlots: nat, ssdPayload: nat,
                           enablePromotion: bool, promotionThreshold: nat)

  datatype State = State(hbm: Blocks, dram: Blocks, ssd: Blocks, counts: map<BlockId, nat>, visited: set<BlockId>)

  datatype GetResult = GetResult(data: Bytes, tierFound: Tier, promoted: bool)

  /** One block as the evictor sees it. */
  datatype BlockMeta = BlockMeta(id: BlockId, sizeBytes: nat, visited: bool)

  /** A listing of the blocks of one tier, in any order, with their visited bits. */
  ghost predicate IsSnapshot(metas: seq<BlockMeta>, m: Blocks, visited: set<BlockId>)
  {
    && (forall i, j | 0 <= i < j < |metas| :: metas[i].id != metas[j].id)
    && (forall i | 0 <= i < |metas| :: metas[i].id in m && metas[i].sizeBytes == |m[metas[i].id]|)
    && (forall i | 0 <= i < |metas| :: metas[i].visited <==> metas[i].id in visited)
    && (forall id | id in m :: exists i | 0 <= i < |metas| :: metas[i].id == id)
  }

  lemma PaintedSnapshot(raw: seq<BlockMeta>, metas: seq<BlockMeta>, m: Blocks, visited: set<BlockId>)
    requires IsSnapshot(raw, m, {}) && |metas| == |raw|
    requires forall i | 0 <= i < |raw| :: metas[i] == raw[i].(visited := raw[i].id in visited)
    ensures IsSnapshot(metas, m, visited)
  {
    forall id | id in m ensures exists i | 0 <= i < |metas| :: metas[i].id == id {
      var i :| 0 <= i < |raw| && raw[i].id == id;
      assert metas[i].id == id;
    }
  }

  lemma ListingIsSnapshot(order: seq<BlockId>, metas: seq<BlockMeta>, m: Blocks)
    requires forall i, j | 0 <= i < j < |order| :: order[i] != order[j]
    requires forall id :: id in order <==> id in m
    requires |metas| == |order|
    requires forall i | 0 <= i < |order| :: metas[i] == BlockMeta(order[i], SizeIn(m, order[i]), false)
    ensures IsSnapshot(metas, m, {})
  {
    assert forall i | 0 <= i < |order| :: order[i] in order;
    forall id | id in m ensures exists i | 0 <= i < |metas| :: metas[i].id == id {
      var i :| 0 <= i < |order| && order[i] == id;
      assert metas[i].id == id;
    }
  }

  const EMPTY := State(map[], map[], map[], map[], {})

  function At(s: State, t: Tier): Blocks
  {
    match t case HBM => s.hbm case DRAM => s.dram case SSD => s.ssd
  }

  function WithTier(s: State, t: Tier, m: Blocks): State
  {
    match t case HBM => s.(hbm := m) case DRAM => s.(dram := m) case SSD => s.(ssd := m)
  }

  function Capacity(cfg: Config, t: Tier): nat
  {
    match t
    case HBM => cfg.hbmBytes
    case DRAM => cfg.dramBytes
    case SSD => if cfg.hasSsd then cfg.ssdSlots * cfg.ssdPayload else 0
  }

  /** Ids held by some tier. */
  function Present(s: State): set<BlockId> { s.hbm.Keys + s.dram.Keys + s.ssd.Keys }

  /** Ids that Get finds: a block whose SSD copy is all there is to read, and empty, reads as absent. */
  function Readable(s: State): set<BlockId> { set id | id in Present(s) && Find(s, id) != (SSD, []) }

  /** Whether a tier accepts the block: it is already there, or there is room for it. */
  ghost predicate Fits(cfg: Config, s: State, t: Tier, id: BlockId, data: Bytes)
  {
    match t
    case HBM => cfg.hbmBytes > 0 && (id in s.hbm || TotalBytes(s.hbm) + |data| <= cfg.hbmBytes)
    case DRAM => id in s.dram || TotalBytes(s.dram) + |data| <= cfg.dramBytes
    case SSD => cfg.hasSsd && |data| <= cfg.ssdPayload && (id in s.ssd || |s.ssd| < cfg.ssdSlots)
  }

  ghost function PutTier(cfg: Config, s: State, t: Tier, id: BlockId, data: Bytes): State
  {
    if Fits(cfg, s, t, id, data) && id !in At(s, t) then WithTier(s, t, At(s, t)[id := data]) else s
  }

  function EraseTier(s: State, t: Tier, id: BlockId): State { WithTier(s, t, At(s, t) - {id}) }

  /** The tiers a hinted insert may land in: the hint, then slower ones. */
  function Row(hint: Tier): seq<Tier>
  {
    match hint case HBM => [HBM, DRAM, SSD] case DRAM => [DRAM, SSD] case SSD => [SSD]
  }

  ghost function Landing(cfg: Config, s: State, row: seq<Tier>, id: BlockId, data: Bytes): Option<Tier>
  {
    if row == [] then None else
      if Fits(cfg, s, row[0], id, data) then Some(row[0]) else Landing(cfg, s, row[1..], id, data)
  }

  ghost function Put(cfg: Config, s: State, id: BlockId, data: Bytes, hint: Tier): (State, Option<Tier>)
  {
    match Landing(cfg, s, Row(hint), id, data)
    case None => (s, None)
    case Some(t) => (PutTier(cfg, s, t, id, data), Some(t))
  }

  /** The lookup loop: a tier whose copy is empty does not stop the search. */
  function Find(s: State, id: BlockId): (Tier, Bytes)
  {
    var (t1, b1) := if id in s.hbm then (HBM, s.hbm[id]) else (SSD, []);
    var (t2, b2) := if b1 == [] && id in s.dram then (DRAM, s.dram[id]) else (t1, b1);
    if b2 == [] && id in s.ssd then (SSD, s.ssd[id]) else (t2, b2)
  }

  function PromotionTarget(cfg: Config, found: Tier): Tier
  {
    match found
    case SSD => DRAM
    case DRAM => if cfg.hbmBytes > 0 then HBM else DRAM
    case HBM => HBM
  }

  function Count(s: State, id: BlockId): nat { if id in s.counts then s.counts[id] else 0 }

  /** Every hit bumps the access count, in 32 bits, and sets the visited bit. */
  function Touch(s: State, id: BlockId): State
  {
    s.(counts := s.counts[id := (Count(s, id) + 1) % U32_MODULUS], visited := s.visited + {id})
  }

  /** The promotion rule: hot enough, a faster tier exists, and it has room. */
  ghost predicate Promotes(cfg: Config, s: State, found: Tier, id: BlockId, data: Bytes)
  {
    && cfg.enablePromotion && Count(s, id) >= cfg.promotionThreshold
    && PromotionTarget(cfg, found) != found && Fits(cfg, s, PromotionTarget(cfg, found), id, data)
  }

  ghost function Promote(cfg: Config, s: State, found: Tier, id: BlockId, data: Bytes): State
  {
    if Promotes(cfg, s, found, id, data) then
      EraseTier(PutTier(cfg, s, PromotionTarget(cfg, found), id, data), found, id)
    else s
  }

  ghost function Get(cfg: Config, s: State, id: BlockId): (State, Option<GetResult>)
  {
    var (found, data) := Find(s, id);
    if data == [] && found == SSD then (s, None) else
      var touched := Touch(s, id);
      (Promote(cfg, touched, found, id, data), Some(GetResult(data, found, Promotes(cfg, touched, found, id, data))))
  }

  ghost function Demote(cfg: Config, s: State, id: BlockId): (State, bool)
  {
    if id in s.hbm then
      var data := s.hbm[id];
      if Fits(cfg, s, DRAM, id, data) then (EraseTier(PutTier(cfg, s, DRAM, id, data), HBM, id), true)
      else if Fits(cfg, s, SSD, id, data) then (EraseTier(PutTier(cfg, s, SSD, id, data), HBM, id), true)
      else (s, false)
    else if id in s.dram then
      var data := s.dram[id];
      if Fits(cfg, s, SSD, id, data) then (EraseTier(PutTier(cfg, s, SSD, id, data), DRAM, id), true)
      else (s, false)
    else (s, false)
  }

  lemma DemoteRefused(cfg: Config, s: State, id: BlockId)
    ensures !Demote(cfg, s, id).1 ==> Demote(cfg, s, id).0 == s
  {}

  function SizeIn(m: Blocks, id: BlockId): nat { if id in m then |m[id]| else 0 }

  function Erase(s: State, id: BlockId): (State, nat)
  {
    (State(s.hbm - {id}, s.dram - {id}, s.ssd - {id}, s.counts - {id}, s.visited - {id}),
     SizeIn(s.hbm, id) + SizeIn(s.dram, id) + SizeIn(s.ssd, id))
  }

  // What holds in every reachable state

  /**
   A tier's blocks are what their ids stand for (an id is a content hash), and they fit: no tier
   holds more than its capacity, and a tier that does not exist holds nothing.
   */
  ghost predicate TierOk(cfg: Config, content: BlockId -> Bytes, t: Tier, m: Blocks)
  {
    && (forall id | id in m :: m[id] == content(id))
    && match t
       case HBM => TotalBytes(m) <= cfg.hbmBytes && (cfg.hbmBytes == 0 ==> m == map[])
       case DRAM => TotalBytes(m) <= cfg.dramBytes
       case SSD =>
         && |m| <= cfg.ssdSlots && (!cfg.hasSsd ==> m == map[])
         && forall id | id in m :: |m[id]| <= cfg.ssdPayload
  }

  ghost predicate Inv(cfg: Config, content: BlockId -> Bytes, s: State)
  {
    TierOk(cfg, content, HBM, s.hbm) && TierOk(cfg, content, DRAM, s.dram) && TierOk(cfg, content, SSD, s.ssd)
  }

  /** Each id lives in at most one tier. */
  ghost predicate Exclusive(s: State)
  {
    s.hbm.Keys !! s.dram.Keys && s.hbm.Keys !! s.ssd.Keys && s.dram.Keys !! s.ssd.Keys
  }

  datatype Op = PutOp(id: BlockId, hint: Tier) | GetOp(id: BlockId) | DemoteOp(id: BlockId) | EraseOp(id: BlockId)
              | MarkOp(id: BlockId) | ClearOp(id: BlockId)

  ghost function Apply(cfg: Config, content: BlockId -> Bytes, s: State, op: Op): State
  {
    match op
    case PutOp(id, hint) => Put(cfg, s, id, content(id), hint).0
    case GetOp(id) => Get(cfg, s, id).0
    case DemoteOp(id) => Demote(cfg, s, id).0
    case EraseOp(id) => Erase(s, id).0
    case MarkOp(id) => s.(visited := s.visited + {id})
    case ClearOp(id) => s.(visited := s.visited - {id})
  }

  ghost function Run(cfg: Config, content: BlockId -> Bytes, s: State, ops: seq<Op>): State
    decreases |ops|
  {
    if ops == [] then s else Run(cfg, content, Apply(cfg, content, s, ops[0]), ops[1..])
  }

  lemma {:induction false} RunSnoc(cfg: Config, content: BlockId -> Bytes, s: State, ops: seq<Op>, op: Op)
    ensures Run(cfg, content, s, ops + [op]) == Apply(cfg, content, Run(cfg, content, s, ops), op)
    decreases |ops|
  {
    hide Apply;
    if ops == [] {
      assert ([] + [op])[1..] == [];
    } else {
      assert (ops + [op])[1..] == ops[1..] + [op];
      RunSnoc(cfg, content, Apply(cfg, content, s, ops[0]), ops[1..], op);
    }
  }

  // The plain store: a set of ids

  ghost predicate Lands(cfg: Config, content: BlockId -> Bytes, s: State, op: Op)
  {
    op.PutOp? && Landing(cfg, s, Row(op.hint), op.id, content(op.id)).Some?
  }

  ghost function PlainApply(present: set<BlockId>, op: Op, landed: bool): set<BlockId>
  {
    match op
    case PutOp(id, _) => if landed then present + {id} else present
    case EraseOp(id) => present - {id}
    case _ => present
  }

  /** What the plain store holds after `ops`, told only which inserts were accepted. */
  ghost function PlainRun(present: set<BlockId>, ops: seq<Op>, landed: seq<bool>): set<BlockId>
    requires |ops| == |landed|
    decreases |ops|
  {
    if ops == [] then present else PlainRun(PlainApply(present, ops[0], landed[0]), ops[1..], landed[1..])
  }

  ghost function Landed(cfg: Config, content: BlockId -> Bytes, s: State, ops: seq<Op>): (r: seq<bool>)
    ensures |r| == |ops|
    decreases |ops|
  {
    if ops == [] then [] else
      [Lands(cfg, content, s, ops[0])] + Landed(cfg, content, Apply(cfg, content, s, ops[0]), ops[1..])
  }

  // Lemmas about one tier

  lemma AddOk(cfg: Config, content: BlockId -> Bytes, s: State, t: Tier, id: BlockId)
    requires TierOk(cfg, content, t, At(s, t)) && Fits(cfg, s, t, id, content(id)) && id !in At(s, t)
    ensures TierOk(cfg, content, t, At(s, t)[id := content(id)])
  {
    hide TotalBytes;
    var m := At(s, t);
    TotalWith(m, id, content(id));
    assert m[id := content(id)].Keys == m.Keys + {id};
    assert |m[id := content(id)].Keys| == |m[id := content(id)]| && |m.Keys| == |m|;
  }

  lemma WithoutShrinks(m: Blocks, id: BlockId)
    ensures TotalBytes(m - {id}) == TotalBytes(m) - SizeIn(m, id)
    ensures |m - {id}| <= |m|
  {
    hide TotalBytes;
    if id in m {
      TotalWithout(m, id);
    } else {
      assert m - {id} == m;
    }
    assert (m - {id}).Keys == m.Keys - {id};
    assert |m - {id}| == |(m - {id}).Keys| && |m| == |m.Keys|;
  }

  lemma RemoveOk(cfg: Config, content: BlockId -> Bytes, t: Tier, m: Blocks, id: BlockId)
    requires TierOk(cfg, content, t, m)
    ensures TierOk(cfg, content, t, m - {id})
  {
    hide TotalBytes;
    WithoutShrinks(m, id);
  }

  lemma PutTierInv(cfg: Config, content: BlockId -> Bytes, s: State, t: Tier, id: BlockId)
    requires Inv(cfg, content, s) && Fits(cfg, s, t, id, content(id))
    ensures var s' := PutTier(cfg, s, t, id, content(id));
            Inv(cfg, content, s') && id in At(s', t) && Present(s') == Present(s) + {id}
  {
    hide TierOk, Fits;
    if id !in At(s, t) {
      AddOk(cfg, content, s, t, id);
    }
  }

  lemma EraseTierInv(cfg: Config, content: BlockId -> Bytes, s: State, t: Tier, id: BlockId)
    requires Inv(cfg, content, s)
    ensures Inv(cfg, content, EraseTier(s, t, id))
  {
    hide TierOk;
    RemoveOk(cfg, content, t, At(s, t), id);
  }

  /** Moving a block between tiers keeps the invariant and loses nothing. */
  lemma MoveInv(cfg: Config, content: BlockId -> Bytes, s: State, from: Tier, to: Tier, id: BlockId)
    requires Inv(cfg, content, s) && from != to && Fits(cfg, s, to, id, content(id)) && id in At(s, from)
    ensures var s' := EraseTier(PutTier(cfg, s, to, id, content(id)), from, id);
            Inv(cfg, content, s') && Present(s') == Present(s)
  {
    hide Inv, Fits, PutTier;
    var mid := PutTier(cfg, s, to, id, content(id));
    PutTierInv(cfg, content, s, to, id);
    EraseTierInv(cfg, content, mid, from, id);
    EraseElsewhere(mid, from, to, id);
    assert id in Present(s);
  }

  lemma EraseElsewhere(s: State, from: Tier, to: Tier, id: BlockId)
    requires from != to && id in At(s, to)
    ensures Present(EraseTier(s, from, id)) == Present(s)
  {}

  lemma {:induction false} LandingFits(cfg: Config, s: State, row: seq<Tier>, id: BlockId, data: Bytes)
    ensures match Landing(cfg, s, row, id, data)
            case Some(t) => t in row && Fits(cfg, s, t, id, data)
            case None => forall t | t in row :: !Fits(cfg, s, t, id, data)
  {
    hide Fits;
    if row != [] && !Fits(cfg, s, row[0], id, data) {
      LandingFits(cfg, s, row[1..], id, data);
      assert row == [row[0]] + row[1..];
    }
  }

  lemma FindAnswers(content: BlockId -> Bytes, s: State, id: BlockId)
    requires forall t: Tier, id | id in At(s, t) :: At(s, t)[id] == content(id)
    ensures var (found, data) := Find(s, id);
            && (data == [] && found == SSD <==> id !in Present(s) || (content(id) == [] && id in s.ssd))
            && (!(data == [] && found == SSD) ==> data == content(id) && id in At(s, found))
  {
    assert At(s, HBM) == s.hbm && At(s, DRAM) == s.dram && At(s, SSD) == s.ssd;
  }

  lemma InvContent(cfg: Config, content: BlockId -> Bytes, s: State)
    requires Inv(cfg, content, s)
    ensures forall t: Tier, id | id in At(s, t) :: At(s, t)[id] == content(id)
  {}

  /** No tier ever holds more than its capacity. */
  lemma WithinCapacity(cfg: Config, content: BlockId -> Bytes, s: State, t: Tier)
    requires Inv(cfg, content, s)
    ensures TotalBytes(At(s, t)) <= Capacity(cfg, t)
  {
    hide TotalBytes;
    if t == SSD {
      TotalAtMost(s.ssd, cfg.ssdPayload);
      MulMonotone(|s.ssd|, cfg.ssdSlots, cfg.ssdPayload);
      if !cfg.hasSsd { NoTotal(); }
    }
  }

  lemma OneFewer(m: Blocks, id: BlockId)
    requires id in m
    ensures |m - {id}| == |m| - 1
  {
    assert (m - {id}).Keys == m.Keys - {id};
    assert |m - {id}| == |(m - {id}).Keys| && |m| == |m.Keys| && |m.Keys - {id}| == |m| - 1;
  }

  lemma NoTotal()
    ensures TotalBytes(map[]) == 0
  {}

  lemma {:induction false} TotalAtMost(m: Blocks, each: nat)
    requires forall id | id in m :: |m[id]| <= each
    ensures TotalBytes(m) <= |m| * each
    decreases |m|
  {
    hide TotalBytes;
    if m == map[] {
      NoTotal();
    } else {
      assert m.Keys != {};
      var id :| id in m;
      TotalWithout(m, id);
      OneFewer(m, id);
      TotalAtMost(m - {id}, each);
      OneMore(|m| - 1, each);
    }
  }

  lemma OneMore(k: nat, each: nat)
    ensures (k + 1) * each == k * each + each
  {}

  /** And a new block fits HBM or DRAM exactly when it stays within that capacity, which for HBM is not zero. */
  lemma FitsWithinCapacity(cfg: Config, s: State, t: Tier, id: BlockId, data: Bytes)
    requires t != SSD && id !in At(s, t)
    ensures Fits(cfg, s, t, id, data) <==>
            TotalBytes(At(s, t)) + |data| <= Capacity(cfg, t) && (t == HBM ==> Capacity(cfg, t) > 0)
  {
    hide TotalBytes;
  }

  // The operations

  /** Fastest first. */
  function Rank(t: Tier): nat { match t case HBM => 0 case DRAM => 1 case SSD => 2 }

  /**
   An insert lands in the fastest tier that takes it, among the hinted one and those slower. There it
   adds the block if there is none, and it changes nothing else.
   */
  lemma LandsInFastestThatFits(cfg: Config, s: State, id: BlockId, data: Bytes, hint: Tier)
    ensures var (s', landed) := Put(cfg, s, id, data, hint);
            match landed
            case None => s' == s && forall t: Tier | Rank(hint) <= Rank(t) :: !Fits(cfg, s, t, id, data)
            case Some(t) =>
              && Rank(hint) <= Rank(t) && Fits(cfg, s, t, id, data)
              && (forall u: Tier | Rank(hint) <= Rank(u) < Rank(t) :: !Fits(cfg, s, u, id, data))
              && At(s', t) == (if id in At(s, t) then At(s, t) else At(s, t)[id := data])
              && (forall u: Tier | u != t :: At(s', u) == At(s, u)) && s'.counts == s.counts && s'.visited == s.visited
  {
    hide Fits, Landing, At, PutTier, Row;
    LandingIsFastest(cfg, s, id, data, hint);
    if landing: Tier :| Landing(cfg, s, Row(hint), id, data) == Some(landing) {
      PutAdds(cfg, s, landing, id, data);
    }
  }

  lemma PutAdds(cfg: Config, s: State, t: Tier, id: BlockId, data: Bytes)
    requires Fits(cfg, s, t, id, data)
    ensures var s' := PutTier(cfg, s, t, id, data);
            && At(s', t) == (if id in At(s, t) then At(s, t) else At(s, t)[id := data])
            && (forall u: Tier | u != t :: At(s', u) == At(s, u)) && s'.counts == s.counts && s'.visited == s.visited
  {
    hide Fits;
  }

  lemma LandingIsFastest(cfg: Config, s: State, id: BlockId, data: Bytes, hint: Tier)
    ensures match Landing(cfg, s, Row(hint), id, data)
            case None => forall t: Tier | Rank(hint) <= Rank(t) :: !Fits(cfg, s, t, id, data)
            case Some(t) =>
              && Rank(hint) <= Rank(t) && Fits(cfg, s, t, id, data)
              && forall u: Tier | Rank(hint) <= Rank(u) < Rank(t) :: !Fits(cfg, s, u, id, data)
  {
    hide Fits, Landing;
    LandingCons(cfg, s, HBM, [DRAM, SSD], id, data);
    LandingCons(cfg, s, DRAM, [SSD], id, data);
    LandingCons(cfg, s, SSD, [], id, data);
    assert [HBM] + [DRAM, SSD] == [HBM, DRAM, SSD] && [DRAM] + [SSD] == [DRAM, SSD] && [SSD] + [] == [SSD];
  }

  lemma LandingCons(cfg: Config, s: State, t: Tier, rest: seq<Tier>, id: BlockId, data: Bytes)
    ensures Landing(cfg, s, [t] + rest, id, data) ==
            if Fits(cfg, s, t, id, data) then Some(t) else Landing(cfg, s, rest, id, data)
    ensures Landing(cfg, s, [], id, data) == None
  {}

  /** The same copies of every other block in every tier. */
  ghost predicate OthersStay(s: State, s': State, id: BlockId)
  {
    && s'.hbm - {id} == s.hbm - {id} && s'.dram - {id} == s.dram - {id} && s'.ssd - {id} == s.ssd - {id}
    && s'.counts - {id} == s.counts - {id} && s'.visited - {id} == s.visited - {id}
  }

  /** A hit counts one access and sets the visited bit; a miss changes nothing; other blocks never notice. */
  lemma GetBookkeeping(cfg: Config, s: State, id: BlockId)
    ensures var (s', r) := Get(cfg, s, id);
            && (r == None ==> s' == s)
            && (r.Some? ==> Count(s', id) == (Count(s, id) + 1) % U32_MODULUS && id in s'.visited)
            && OthersStay(s, s', id)
  {
    hide Fits, Find;
    var (found, data) := Find(s, id);
    if !(data == [] && found == SSD) {
      var touched := Touch(s, id);
      assert OthersStay(s, touched, id);
      MoveStays(cfg, touched, found, PromotionTarget(cfg, found), id, data);
    }
  }

  lemma AddThenDrop(m: Blocks, id: BlockId, data: Bytes)
    ensures m[id := data] - {id} == m - {id} && m - {id} - {id} == m - {id}
  {}

  lemma MoveStays(cfg: Config, s: State, from: Tier, to: Tier, id: BlockId, data: Bytes)
    ensures var s' := EraseTier(PutTier(cfg, s, to, id, data), from, id);
            OthersStay(s, s', id) && s'.counts == s.counts && s'.visited == s.visited
  {
    hide Fits;
    AddThenDrop(s.hbm, id, data);
    AddThenDrop(s.dram, id, data);
    AddThenDrop(s.ssd, id, data);
    var put := PutTier(cfg, s, to, id, data);
    assert OthersStay(s, put, id);
    AddThenDrop(At(put, from), id, data);
  }

  /** The block has gone from one tier to another; what else has a copy keeps it. */
  ghost predicate Moved(s: State, s': State, from: Tier, to: Tier, id: BlockId)
  {
    forall t: Tier :: id in At(s', t) <==> t == to || (t != from && id in At(s, t))
  }

  lemma MoveLands(cfg: Config, s: State, from: Tier, to: Tier, id: BlockId, data: Bytes)
    requires from != to && Fits(cfg, s, to, id, data)
    ensures Moved(s, EraseTier(PutTier(cfg, s, to, id, data), from, id), from, to, id)
  {
    hide Fits;
  }

  lemma TouchFits(cfg: Config, s: State, t: Tier, id: BlockId, data: Bytes)
    ensures Fits(cfg, Touch(s, id), t, id, data) == Fits(cfg, s, t, id, data)
    ensures Count(Touch(s, id), id) == (Count(s, id) + 1) % U32_MODULUS
  {}

  /**
   A promotion moves a block up by exactly one tier that exists, and happens exactly when it is hot and
   fits there. Copies in other tiers stay.
   */
  lemma PromotionMoves(cfg: Config, content: BlockId -> Bytes, s: State, id: BlockId)
    requires Inv(cfg, content, s) && Get(cfg, s, id).1.Some?
    ensures var (s', r) := Get(cfg, s, id);
            var from := r.value.tierFound;
            var to := if from == SSD then DRAM else HBM;
            && id in At(s, from)
            && (r.value.promoted <==>
                  && cfg.enablePromotion && (Count(s, id) + 1) % U32_MODULUS >= cfg.promotionThreshold
                  && from != HBM && Fits(cfg, s, to, id, content(id)))
            && if r.value.promoted then Moved(s, s', from, to, id) else forall t: Tier :: At(s', t) == At(s, t)
  {
    hide Inv, Find, Fits, PutTier, EraseTier, Touch, Count, Moved, At;
    InvContent(cfg, content, s);
    FindAnswers(content, s, id);
    var (from, data) := Find(s, id);
    var to := PromotionTarget(cfg, from);
    NoHbmNoFit(cfg, s, id, data);
    TouchFits(cfg, s, to, id, data);
    TouchKeeps(cfg, content, s, id);
    if Promotes(cfg, Touch(s, id), from, id, data) {
      MoveLands(cfg, Touch(s, id), from, to, id, data);
      MovedAlike(Touch(s, id), s, Get(cfg, s, id).0, from, to, id);
    }
  }

  lemma MovedAlike(a: State, b: State, s: State, from: Tier, to: Tier, id: BlockId)
    requires Moved(a, s, from, to, id) && forall t: Tier :: At(a, t) == At(b, t)
    ensures Moved(b, s, from, to, id)
  {}

  lemma NoHbmNoFit(cfg: Config, s: State, id: BlockId, data: Bytes)
    ensures Fits(cfg, s, HBM, id, data) ==> cfg.hbmBytes > 0
  {}

  /** The fastest tier slower than `from` that takes the block. */
  ghost predicate Below(cfg: Config, s: State, from: Tier, to: Tier, id: BlockId, data: Bytes)
  {
    && Rank(from) < Rank(to) && Fits(cfg, s, to, id, data)
    && (to == SSD && from == HBM ==> !Fits(cfg, s, DRAM, id, data))
  }

  /** The fastest tier with a copy of the block. */
  ghost predicate Fastest(s: State, t: Tier, id: BlockId)
  {
    id in At(s, t) && forall u: Tier | Rank(u) < Rank(t) :: id !in At(s, u)
  }

  lemma FastestIs(s: State, from: Tier, id: BlockId)
    requires Fastest(s, from, id)
    ensures (from == HBM <==> id in s.hbm) && (from == DRAM ==> id in s.dram) && (from == SSD ==> id !in s.dram)
    ensures from == HBM ==> At(s, from) == s.hbm
    ensures from == DRAM ==> At(s, from) == s.dram
  {
    assert At(s, HBM) == s.hbm && At(s, DRAM) == s.dram;
  }

  lemma DemoteGoesBelow(cfg: Config, s: State, id: BlockId, from: Tier, to: Tier)
    requires Fastest(s, from, id) && Below(cfg, s, from, to, id, At(s, from)[id])
    ensures Demote(cfg, s, id) == (EraseTier(PutTier(cfg, s, to, id, At(s, from)[id]), from, id), true)
  {
    FastestIs(s, from, id);
    hide Fits, PutTier, EraseTier, Fastest, At;
  }

  lemma DemoteStaysPut(cfg: Config, s: State, id: BlockId, from: Tier)
    requires Fastest(s, from, id)
    requires !Below(cfg, s, from, DRAM, id, At(s, from)[id]) && !Below(cfg, s, from, SSD, id, At(s, from)[id])
    ensures Demote(cfg, s, id) == (s, false)
  {
    FastestIs(s, from, id);
    hide Fits, PutTier, EraseTier, Fastest, At;
  }

  /**
   A demotion takes a block from the fastest tier that has it to the fastest slower one that takes it,
   and fails exactly when there is none. Copies in other tiers stay.
   */
  lemma DemoteMoves(cfg: Config, s: State, id: BlockId, from: Tier)
    requires Fastest(s, from, id)
    ensures var (s', ok) := Demote(cfg, s, id);
            && OthersStay(s, s', id) && s'.counts == s.counts && s'.visited == s.visited
            && (!ok ==> s' == s && forall to: Tier :: !Below(cfg, s, from, to, id, At(s, from)[id]))
            && (ok ==> exists to: Tier :: Below(cfg, s, from, to, id, At(s, from)[id]) && Moved(s, s', from, to, id))
  {
    var data := At(s, from)[id];
    assert !Below(cfg, s, from, HBM, id, data);
    hide Demote, Below, Fastest, OthersStay, At, PutTier, EraseTier, Moved;
    if to: Tier :| Below(cfg, s, from, to, id, data) {
      DemoteGoesBelow(cfg, s, id, from, to);
      MoveStays(cfg, s, from, to, id, data);
      MovedBelow(cfg, s, from, to, id, data);
    } else {
      DemoteStaysPut(cfg, s, id, from);
      NothingMoved(s, id);
    }
  }

  lemma MovedBelow(cfg: Config, s: State, from: Tier, to: Tier, id: BlockId, data: Bytes)
    requires Below(cfg, s, from, to, id, data)
    ensures Moved(s, EraseTier(PutTier(cfg, s, to, id, data), from, id), from, to, id)
  {
    hide Fits;
    MoveLands(cfg, s, from, to, id, data);
  }

  lemma NothingMoved(s: State, id: BlockId)
    ensures OthersStay(s, s, id)
  {}

  lemma TouchKeeps(cfg: Config, content: BlockId -> Bytes, s: State, id: BlockId)
    requires Inv(cfg, content, s)
    ensures Inv(cfg, content, Touch(s, id)) && Present(Touch(s, id)) == Present(s)
    ensures forall t: Tier :: At(Touch(s, id), t) == At(s, t)
  {
    hide TierOk;
  }

  lemma PromoteRefines(cfg: Config, content: BlockId -> Bytes, s: State, found: Tier, id: BlockId)
    requires Inv(cfg, content, s) && id in At(s, found)
    ensures var s' := Promote(cfg, s, found, id, content(id));
            Inv(cfg, content, s') && Present(s') == Present(s)
  {
    hide Inv, Fits, PutTier, EraseTier, Present;
    if Promotes(cfg, s, found, id, content(id)) {
      MoveInv(cfg, content, s, found, PromotionTarget(cfg, found), id);
    }
  }

  lemma ReadableIff(cfg: Config, content: BlockId -> Bytes, s: State, id: BlockId)
    requires Inv(cfg, content, s)
    ensures id in Readable(s) <==> id in Present(s) && (content(id) != [] || id !in s.ssd)
  {
    InvContent(cfg, content, s);
    FindAnswers(content, s, id);
    hide Inv, Find, Present;
  }

  /** A promotion takes only nonempty blocks off the SSD. */
  lemma GetSsd(cfg: Config, s: State, id: BlockId)
    ensures var s' := Get(cfg, s, id).0;
            forall x | x in s.ssd && s.ssd[x] == [] :: x in s'.ssd
    ensures Get(cfg, s, id).0.ssd.Keys <= s.ssd.Keys
  {
    hide Fits;
  }

  lemma GetKeepsReadable(cfg: Config, content: BlockId -> Bytes, s: State, id: BlockId)
    requires Inv(cfg, content, s)
    ensures Readable(Get(cfg, s, id).0) == Readable(s)
    ensures Get(cfg, s, id).1.Some? <==> id in Readable(s)
  {
    hide Get, Inv, Readable, Present, Find;
    GetRefines(cfg, content, s, id);
    ReadableIff(cfg, content, s, id);
    GetSsd(cfg, s, id);
    var s' := Get(cfg, s, id).0;
    forall x ensures x in Readable(s') <==> x in Readable(s) {
      ReadableIff(cfg, content, s, x);
      ReadableIff(cfg, content, s', x);
      SsdContent(cfg, content, s, x);
    }
  }

  lemma SsdContent(cfg: Config, content: BlockId -> Bytes, s: State, id: BlockId)
    requires Inv(cfg, content, s)
    ensures id in s.ssd ==> s.ssd[id] == content(id)
  {}

  lemma GetRefines(cfg: Config, content: BlockId -> Bytes, s: State, id: BlockId)
    requires Inv(cfg, content, s)
    ensures var (s', r) := Get(cfg, s, id);
            && Inv(cfg, content, s') && Present(s') == Present(s)
            && (r.Some? <==> id in Present(s) && (content(id) != [] || id !in s.ssd))
            && (r.Some? ==> r.value.data == content(id) && id in At(s, r.value.tierFound))
  {
    InvContent(cfg, content, s);
    FindAnswers(content, s, id);
    hide Inv, Find, Touch, Promote, Promotes, Present;
    TouchKeeps(cfg, content, s, id);
    var (found, data) := Find(s, id);
    if !(data == [] && found == SSD) {
      PromoteRefines(cfg, content, Touch(s, id), found, id);
    }
  }

  /**
   A Get reads the fastest copy. Only an empty payload is looked for further down, so then it is the
   slowest copy that is found. Hence a block with an HBM copy is never promoted, and no tier changes.
   */
  lemma GetFindsFastest(cfg: Config, content: BlockId -> Bytes, s: State, id: BlockId)
    requires Inv(cfg, content, s) && Get(cfg, s, id).1.Some?
    ensures var (s', r) := Get(cfg, s, id);
            var found := r.value.tierFound;
            && (content(id) != [] ==> Fastest(s, found, id))
            && (content(id) == [] ==> id in At(s, found) && forall t: Tier | Rank(found) < Rank(t) :: id !in At(s, t))
            && (content(id) != [] && id in s.hbm ==> !r.value.promoted && forall t: Tier :: At(s', t) == At(s, t))
  {
    FoundWhere(cfg, content, s, id);
    hide Inv, Get, Find, Fastest, Fits, At;
    PromotionMoves(cfg, content, s, id);
  }

  lemma FoundWhere(cfg: Config, content: BlockId -> Bytes, s: State, id: BlockId)
    requires Inv(cfg, content, s) && Get(cfg, s, id).1.Some?
    ensures var found := Get(cfg, s, id).1.value.tierFound;
            && (content(id) != [] ==> Fastest(s, found, id) && (id in s.hbm ==> found == HBM))
            && (content(id) == [] ==> id in At(s, found) && forall t: Tier | Rank(found) < Rank(t) :: id !in At(s, t))
  {
    InvContent(cfg, content, s);
    assert At(s, HBM) == s.hbm && At(s, DRAM) == s.dram && At(s, SSD) == s.ssd;
    hide Inv, Promote, Promotes, Touch;
  }

  lemma DemoteRefines(cfg: Config, content: BlockId -> Bytes, s: State, id: BlockId)
    requires Inv(cfg, content, s)
    ensures Inv(cfg, content, Demote(cfg, s, id).0) && Present(Demote(cfg, s, id).0) == Present(s)
  {
    InvContent(cfg, content, s);
    assert At(s, HBM) == s.hbm && At(s, DRAM) == s.dram;
    hide Inv, Fits, PutTier, EraseTier;
    if id in s.hbm {
      if Fits(cfg, s, DRAM, id, s.hbm[id]) {
        MoveInv(cfg, content, s, HBM, DRAM, id);
      } else if Fits(cfg, s, SSD, id, s.hbm[id]) {
        MoveInv(cfg, content, s, HBM, SSD, id);
      }
    } else if id in s.dram && Fits(cfg, s, SSD, id, s.dram[id]) {
      MoveInv(cfg, content, s, DRAM, SSD, id);
    }
  }

  lemma EraseRefines(cfg: Config, content: BlockId -> Bytes, s: State, id: BlockId)
    requires Inv(cfg, content, s)
    ensures var s' := Erase(s, id).0;
            && Inv(cfg, content, s') && Present(s') == Present(s) - {id}
            && id !in s'.counts && id !in s'.visited
    ensures Erase(s, id).1 == AllBytes(s) - AllBytes(Erase(s, id).0)
    ensures OthersStay(s, Erase(s, id).0, id)
  {
    EraseBytes(s, id);
    EraseSpares(s, id);
    hide TierOk, TotalBytes, AllBytes, OthersStay;
    RemoveOk(cfg, content, HBM, s.hbm, id);
    RemoveOk(cfg, content, DRAM, s.dram, id);
    RemoveOk(cfg, content, SSD, s.ssd, id);
  }

  lemma EraseSpares(s: State, id: BlockId)
    ensures OthersStay(s, Erase(s, id).0, id)
  {}

  /** Bytes held over all tiers. */
  ghost function AllBytes(s: State): nat { TotalBytes(s.hbm) + TotalBytes(s.dram) + TotalBytes(s.ssd) }

  lemma AddBytes(s: State, t: Tier, id: BlockId, data: Bytes)
    requires id !in At(s, t)
    ensures AllBytes(WithTier(s, t, At(s, t)[id := data])) == AllBytes(s) + |data|
  {
    hide TotalBytes;
    TotalWith(At(s, t), id, data);
  }

  lemma EraseBytes(s: State, id: BlockId)
    ensures Erase(s, id).1 == AllBytes(s) - AllBytes(Erase(s, id).0)
  {
    hide TotalBytes;
    WithoutShrinks(s.hbm, id);
    WithoutShrinks(s.dram, id);
    WithoutShrinks(s.ssd, id);
  }

  /** Every operation does to the set of ids what it would do to a plain set. */
  lemma ApplyRefines(cfg: Config, content: BlockId -> Bytes, s: State, op: Op)
    requires Inv(cfg, content, s)
    ensures Inv(cfg, content, Apply(cfg, content, s, op))
    ensures Present(Apply(cfg, content, s, op)) == PlainApply(Present(s), op, Lands(cfg, content, s, op))
  {
    hide TierOk, Fits, Get, Demote;
    match op
    case PutOp(id, hint) =>
      LandingFits(cfg, s, Row(hint), id, content(id));
      var landing := Landing(cfg, s, Row(hint), id, content(id));
      if landing.Some? {
        PutTierInv(cfg, content, s, landing.value, id);
      }
    case GetOp(id) => GetRefines(cfg, content, s, id);
    case DemoteOp(id) => DemoteRefines(cfg, content, s, id);
    case EraseOp(id) => EraseRefines(cfg, content, s, id);
    case MarkOp(_) =>
    case ClearOp(_) =>
  }

  /**
   The tiered store refines a plain set of content-addressed blocks: after any operations it holds
   the ids the plain set holds, whatever was promoted and demoted, and Get answers from it.
   */
  lemma {:induction false} RunRefines(cfg: Config, content: BlockId -> Bytes, s: State, ops: seq<Op>, id: BlockId)
    requires Inv(cfg, content, s)
    ensures var end := Run(cfg, content, s, ops);
            && Inv(cfg, content, end)
            && Present(end) == PlainRun(Present(s), ops, Landed(cfg, content, s, ops))
            && (content(id) != [] ==>
                  Get(cfg, end, id).1.Some? == (id in PlainRun(Present(s), ops, Landed(cfg, content, s, ops))))
            && (Get(cfg, end, id).1.Some? ==> Get(cfg, end, id).1.value.data == content(id))
    decreases |ops|
  {
    hide Inv, Get, Apply, Lands;
    if ops == [] {
      GetRefines(cfg, content, s, id);
    } else {
      ApplyRefines(cfg, content, s, ops[0]);
      RunRefines(cfg, content, Apply(cfg, content, s, ops[0]), ops[1..], id);
      var landed := Landed(cfg, content, s, ops);
      assert landed[1..] == Landed(cfg, content, Apply(cfg, content, s, ops[0]), ops[1..]);
    }
  }

  /** The one way a present block reads as a miss: its payload is empty and the SSD tier has a copy. */
  lemma EmptySsdBlockReadsAsMiss(cfg: Config, content: BlockId -> Bytes, s: State, id: BlockId)
    requires Inv(cfg, content, s) && id in Present(s)
    ensures Get(cfg, s, id).1 == None <==> content(id) == [] && id in s.ssd
  {
    GetRefines(cfg, content, s, id);
  }

  /**
   Put never looks at other tiers, so it is the one operation that can leave an id in two of them,
   and it does so exactly when the id already sits in a tier other than the one it lands in.
   */
  lemma PutExclusive(cfg: Config, s: State, id: BlockId, data: Bytes, hint: Tier)
    requires Exclusive(s)
    ensures var (s', landed) := Put(cfg, s, id, data, hint);
            Exclusive(s') <==> landed.Some? ==> forall t | t != landed.value :: id !in At(s, t)
  {
    var landing := Landing(cfg, s, Row(hint), id, data);
    LandingFits(cfg, s, Row(hint), id, data);
    hide Fits;
    if landing.Some? {
      AddExclusive(s, landing.value, id, data);
    }
  }

  lemma AddExclusive(s: State, t: Tier, id: BlockId, data: Bytes)
    requires Exclusive(s)
    ensures var s' := if id in At(s, t) then s else WithTier(s, t, At(s, t)[id := data]);
            Exclusive(s') <==> forall u: Tier | u != t :: id !in At(s, u)
  {
    assert At(s, HBM) == s.hbm && At(s, DRAM) == s.dram && At(s, SSD) == s.ssd;
  }

  lemma MoveExclusive(cfg: Config, s: State, from: Tier, to: Tier, id: BlockId, data: Bytes)
    requires Exclusive(s) && id in At(s, from)
    ensures Exclusive(EraseTier(PutTier(cfg, s, to, id, data), from, id))
  {
    hide Fits;
  }

  lemma GetExclusive(cfg: Config, content: BlockId -> Bytes, s: State, id: BlockId)
    requires Inv(cfg, content, s) && Exclusive(s)
    ensures Exclusive(Get(cfg, s, id).0)
  {
    InvContent(cfg, content, s);
    FindAnswers(content, s, id);
    hide Inv, Fits, PutTier, EraseTier, Find, Exclusive, Touch, Promotes;
    var (found, data) := Find(s, id);
    if !(data == [] && found == SSD) {
      TouchExclusive(s, id, found);
      MoveExclusive(cfg, Touch(s, id), found, PromotionTarget(cfg, found), id, data);
    }
  }

  lemma DemoteExclusive(cfg: Config, s: State, id: BlockId)
    requires Exclusive(s)
    ensures Exclusive(Demote(cfg, s, id).0)
  {
    assert At(s, HBM) == s.hbm && At(s, DRAM) == s.dram;
    hide Fits, PutTier, EraseTier, Exclusive;
    if id in s.hbm {
      MoveExclusive(cfg, s, HBM, DRAM, id, s.hbm[id]);
      MoveExclusive(cfg, s, HBM, SSD, id, s.hbm[id]);
    } else if id in s.dram {
      MoveExclusive(cfg, s, DRAM, SSD, id, s.dram[id]);
    }
  }

  /** No other operation ever puts an id into two tiers. */
  lemma OthersExclusive(cfg: Config, content: BlockId -> Bytes, s: State, op: Op)
    requires Inv(cfg, content, s) && Exclusive(s) && !op.PutOp?
    ensures Exclusive(Apply(cfg, content, s, op))
  {
    hide Inv, Exclusive, Get, Demote;
    match op
    case GetOp(id) => GetExclusive(cfg, content, s, id);
    case DemoteOp(id) => DemoteExclusive(cfg, s, id);
    case _ => SubsetExclusive(s, Apply(cfg, content, s, op));
  }

  lemma TouchExclusive(s: State, id: BlockId, t: Tier)
    requires Exclusive(s)
    ensures Exclusive(Touch(s, id)) && At(Touch(s, id), t) == At(s, t)
  {}

  lemma SubsetExclusive(s: State, s': State)
    requires Exclusive(s) && s'.hbm.Keys <= s.hbm.Keys && s'.dram.Keys <= s.dram.Keys && s'.ssd.Keys <= s.ssd.Keys
    ensures Exclusive(s')
  {}
}
