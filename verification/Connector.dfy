/** Scheduler-side planning of the vLLM connector (client/lethe_client/vllm_hook.py). */
module Connector {
  import opened Types
  import opened PrefixChain

  /** One block to load or store: its hash, the paged-KV slot it belongs to, and whether it is a hit. */
  datatype BlockSpec = BlockSpec(chainedHash: Hash256, vllmBlockId: int, isHit: bool)

  /** A scheduled request; `groups` are its KV slots per cache group, of which only the first is used. */
  datatype Request = Request(id: string, tokens: seq<U32>, groups: seq<seq<int>>)

  datatype Payload = Payload(requestId: string, blocks: seq<BlockSpec>)
  datatype Meta = Meta(loads: seq<Payload>, stores: seq<Payload>)

  datatype Pending = Pending(nBlocks: nat, slots: seq<int>)
  type Waiting = map<string, Pending>

  function FirstGroup(groups: seq<seq<int>>): seq<int> { if groups == [] then [] else groups[0] }

  // Counting what the cache can supply

  /** `k` is the length of the longest run of hits that starts at the first block. */
  ghost predicate LongestHits(h: Hash, tokens: seq<U32>, size: nat, n: nat, hits: set<Hash256>, k: nat)
  {
    && k <= n
    && (forall i | 1 <= i <= k :: Chain(h, tokens, size, i) in hits)
    && (k < n ==> Chain(h, tokens, size, k + 1) !in hits)
  }

  function HitBlocks(h: Hash, tokens: seq<U32>, size: nat, n: nat, hits: set<Hash256>): (k: nat)
    ensures LongestHits(h, tokens, size, n, hits, k)
  {
    if n == 0 then 0 else
      var k := HitBlocks(h, tokens, size, n - 1, hits);
      if k == n - 1 && Chain(h, tokens, size, n) in hits then n else k
  }

  lemma OneLongestRun(h: Hash, tokens: seq<U32>, size: nat, n: nat, hits: set<Hash256>, k: nat)
    requires LongestHits(h, tokens, size, n, hits, k)
    ensures k == HitBlocks(h, tokens, size, n, hits)
  {
    var r := HitBlocks(h, tokens, size, n, hits);
    var next := Chain(h, tokens, size, Min(r, k) + 1);
  }

  /** Tokens of `k` hit blocks; the last block is held back when they would be the whole prompt. */
  function HitTokens(len: nat, size: nat, k: nat): nat
  {
    if k * size >= len then Max(0, k * size - size) else k * size
  }

  /** Tokens the cache supplies beyond the `computed` ones; `lookup` is None when the cache is unreachable. */
  function NewTokens(h: Hash, size: nat, tokens: seq<U32>, computed: nat, lookup: Option<set<Hash256>>): nat
    requires size > 0
  {
    if lookup == None then 0
    else Max(0, HitTokens(|tokens|, size, HitBlocks(h, tokens, size, |tokens| / size, lookup.value)) - computed)
  }

  // Planning loads and stores

  /** A load waits for a request once slots for at least one block were handed out. */
  function Record(size: nat, waiting: Waiting, id: string, slots: seq<int>, external: int): Waiting
    requires size > 0
  {
    if external <= 0 || slots == [] || external / size == 0 then waiting
    else
      var n := Min(external / size, |slots|);
      waiting[id := Pending(n, slots[..n])]
  }

  function LoadCount(waiting: Waiting, id: string): nat { if id in waiting then waiting[id].nBlocks else 0 }

  predicate Skipped(req: Request) { req.tokens == [] || FirstGroup(req.groups) == [] }

  function WholeBlocks(size: nat, req: Request): nat
    requires size > 0
  {
    if Skipped(req) then 0 else Min(|req.tokens| / size, |FirstGroup(req.groups)|)
  }

  /** The plan of one request: its whole blocks in order, the first `nLoad` of them as hits. */
  function Specs(h: Hash, size: nat, req: Request, nLoad: nat): seq<BlockSpec>
    requires size > 0
  {
    seq(WholeBlocks(size, req), i requires 0 <= i < WholeBlocks(size, req) =>
      BlockSpec(Chain(h, req.tokens, size, i + 1), FirstGroup(req.groups)[i], i < nLoad))
  }

  function Split(h: Hash, size: nat, req: Request, nLoad: nat): (seq<BlockSpec>, seq<BlockSpec>)
    requires size > 0
  {
    var specs, n := Specs(h, size, req, nLoad), Min(nLoad, WholeBlocks(size, req));
    (specs[..n], specs[n..])
  }

  function Append(out: seq<Payload>, id: string, specs: seq<BlockSpec>): seq<Payload>
  {
    if specs == [] then out else out + [Payload(id, specs)]
  }

  /** The metadata of one scheduler step, and the loads still waiting afterwards. */
  function Build(h: Hash, size: nat, waiting: Waiting, reqs: seq<Request>): (Waiting, Meta)
    requires size > 0
  {
    if reqs == [] then (waiting, Meta([], [])) else
      var n := |reqs| - 1;
      var (w, meta), req := Build(h, size, waiting, reqs[..n]), reqs[n];
      if Skipped(req) then (w, meta) else
        var (loads, stores) := Split(h, size, req, LoadCount(w, req.id));
        (w - {req.id}, Meta(Append(meta.loads, req.id, loads), Append(meta.stores, req.id, stores)))
  }

  class Connector {
    const blockSize: nat
    const hash: Hash
    var requestsNeedLoad: Waiting

    constructor (blockSize: nat, hash: Hash)
      requires blockSize > 0
      ensures this.blockSize == blockSize && this.hash == hash && requestsNeedLoad == map[]
    {
      this.blockSize, this.hash, requestsNeedLoad := blockSize, hash, map[];
    }

    /** Hash chain of the first blocks of a prompt. */
    method BlockHashes(tokens: seq<U32>, nBlocks: nat) returns (hashes: seq<Hash256>)
      requires blockSize > 0 && nBlocks * blockSize <= |tokens|
      ensures |hashes| == nBlocks && forall i | 0 <= i < nBlocks :: hashes[i] == Chain(hash, tokens, blockSize, i + 1)
    {
      hashes := [];
      var running := ZERO_HASH;
      for i := 0 to nBlocks
        invariant |hashes| == i && running == Chain(hash, tokens, blockSize, i)
        invariant forall j | 0 <= j < i :: hashes[j] == Chain(hash, tokens, blockSize, j + 1)
      {
        WholeBlock(tokens, blockSize, i, nBlocks);
        ChainNext(hash, ZERO_HASH, tokens, blockSize, i);
        var start := i * blockSize;
        running := ChainedBlockHash(hash, running, tokens[start..start + blockSize]);
        hashes := hashes + [running];
      }
    }

    method GetNumNewMatchedTokens(tokens: seq<U32>, computed: nat, lookup: Option<set<Hash256>>) returns (r: nat)
      requires blockSize > 0
      ensures r == NewTokens(hash, blockSize, tokens, computed, lookup)
    {
      hide Chain, HitBlocks;
      var nBlocks := |tokens| / blockSize;
      if |tokens| == 0 || nBlocks == 0 {
        return 0;
      }
      FloorDiv(|tokens|, blockSize);
      var hashes := BlockHashes(tokens, nBlocks);
      if lookup == None {
        return 0;
      }
      var contiguous: nat := 0;
      while contiguous < |hashes| && hashes[contiguous] in lookup.value
        invariant contiguous <= nBlocks
        invariant forall i | 1 <= i <= contiguous :: Chain(hash, tokens, blockSize, i) in lookup.value
      {
        contiguous := contiguous + 1;
      }
      OneLongestRun(hash, tokens, blockSize, nBlocks, lookup.value, contiguous);
      var hitTokens := contiguous * blockSize;
      if hitTokens >= |tokens| {
        hitTokens := Max(0, hitTokens - blockSize);
      }
      r := Max(0, hitTokens - computed);
    }

    method UpdateStateAfterAlloc(requestId: string, groups: seq<seq<int>>, externalTokens: int)
      requires blockSize > 0
      modifies this
      ensures requestsNeedLoad == Record(blockSize, old(requestsNeedLoad), requestId, FirstGroup(groups),
                                         externalTokens)
    {
      if externalTokens <= 0 {
        return;
      }
      if groups == [] || groups[0] == [] {
        return;
      }
      var n := externalTokens / blockSize;
      if n == 0 {
        return;
      }
      n := Min(n, |groups[0]|);
      requestsNeedLoad := requestsNeedLoad[requestId := Pending(n, groups[0][..n])];
    }

    /** Splits the whole blocks of one request into those to load and those to store. */
    method SplitRequest(req: Request, nLoad: nat) returns (loads: seq<BlockSpec>, stores: seq<BlockSpec>)
      requires blockSize > 0 && !Skipped(req)
      ensures (loads, stores) == Split(hash, blockSize, req, nLoad)
    {
      loads, stores := [], [];
      var slots := FirstGroup(req.groups);
      var n := Min(|req.tokens| / blockSize, |slots|);
      FloorDiv(|req.tokens|, blockSize);
      MulMonotone(n, |req.tokens| / blockSize, blockSize);
      var hashes := BlockHashes(req.tokens, n);
      ghost var specs := Specs(hash, blockSize, req, nLoad);
      for i := 0 to n
        invariant loads == specs[..Min(i, nLoad)]
        invariant stores == specs[Min(i, nLoad)..i]
      {
        var spec := BlockSpec(hashes[i], slots[i], i < nLoad);
        assert spec == specs[i];
        if i < nLoad {
          loads := loads + [spec];
        } else {
          stores := stores + [spec];
        }
      }
      assert specs[Min(n, nLoad)..n] == specs[Min(nLoad, n)..];
    }

    method BuildConnectorMeta(reqs: seq<Request>) returns (meta: Meta)
      requires blockSize > 0
      modifies this
      ensures (requestsNeedLoad, meta) == Build(hash, blockSize, old(requestsNeedLoad), reqs)
    {
      hide Split;
      meta := Meta([], []);
      for i := 0 to |reqs|
        invariant (requestsNeedLoad, meta) == Build(hash, blockSize, old(requestsNeedLoad), reqs[..i])
      {
        var req := reqs[i];
        assert reqs[..i + 1][..i] == reqs[..i];
        if !Skipped(req) {
          var nLoad := LoadCount(requestsNeedLoad, req.id);
          requestsNeedLoad := requestsNeedLoad - {req.id};
          var loads, stores := SplitRequest(req, nLoad);
          meta := Meta(Append(meta.loads, req.id, loads), Append(meta.stores, req.id, stores));
        }
      }
      assert reqs[..|reqs|] == reqs;
    }
  }

  lemma FloorDiv(len: nat, size: nat)
    requires size > 0
    ensures len / size * size <= len < len / size * size + size
  {}

  lemma MulDiv(a: nat, w: nat)
    requires w > 0
    ensures a * w / w == a
  {
    var q := a * w / w;
    FloorDiv(a * w, w);
    assert (a - q) * w == a * w - q * w;
    if q < a {
      MulMonotone(1, a - q, w);
    } else {
      MulMonotone(0, q - a, w);
    }
  }

  lemma WholeBlock(tokens: seq<U32>, size: nat, i: nat, n: nat)
    requires i < n && n * size <= |tokens|
    ensures i * size + size <= |tokens| && tokens[i * size..i * size + size] == Block(tokens, size, i + 1)
  {
    MulMonotone(i + 1, n, size);
    assert (i + 1) * size == i * size + size;
  }

  // What the plan is worth

  /** Blocks reported as cached: whole hit blocks, never the whole prompt. */
  function Counted(len: nat, size: nat, k: nat): nat { if k * size >= len then Max(0, k - 1) else k }

  lemma HoldsBack(len: nat, size: nat, k: nat)
    requires size > 0 && len > 0 && k <= len / size
    ensures HitTokens(len, size, k) == Counted(len, size, k) * size < len
    ensures Counted(len, size, k) < k ==> len == k * size
  {
    FloorDiv(len, size);
    MulMonotone(k, len / size, size);
    if k > 0 {
      assert (k - 1) * size == k * size - size;
    }
  }

  /**
   What the cache is said to supply: nothing when it is unreachable, and otherwise the tokens of the
   longest run of hits, less its last block when that run is the whole prompt, beyond the computed ones.
   */
  lemma NewTokensExact(h: Hash, size: nat, tokens: seq<U32>, computed: nat, lookup: Option<set<Hash256>>, k: nat)
    requires size > 0
    ensures lookup == None ==> NewTokens(h, size, tokens, computed, lookup) == 0
    ensures lookup.Some? && LongestHits(h, tokens, size, |tokens| / size, lookup.value, k) ==>
              NewTokens(h, size, tokens, computed, lookup) ==
              Max(0, (if k > 0 && k * size == |tokens| then k - 1 else k) * size - computed)
  {
    if lookup.Some? && LongestHits(h, tokens, size, |tokens| / size, lookup.value, k) {
      OneLongestRun(h, tokens, size, |tokens| / size, lookup.value, k);
      hide HitBlocks, LongestHits, Chain;
      if |tokens| > 0 {
        HoldsBack(|tokens|, size, k);
      } else {
        assert |tokens| / size == 0;
      }
    }
  }

  /**
   A load is recorded for as many blocks as the promised tokens fill and slots were handed out for, with
   just those slots, and only for a request that is promised a block and has a slot.
   */
  lemma RecordExact(size: nat, waiting: Waiting, id: string, slots: seq<int>, external: int)
    requires size > 0
    ensures var w := Record(size, waiting, id, slots, external);
            && w - {id} == waiting - {id}
            && (external < size || slots == [] ==> w == waiting)
            && (external >= size && slots != [] ==>
                  && id in w && 1 <= w[id].nBlocks <= |slots| && w[id].slots == slots[..w[id].nBlocks]
                  && w[id].nBlocks * size <= external
                  && (w[id].nBlocks < |slots| ==> external < (w[id].nBlocks + 1) * size))
  {
    if external > 0 {
      Quotient(external, size);
      MulMonotone(Min(external / size, |slots|), external / size, size);
    }
  }

  lemma Quotient(a: nat, size: nat)
    requires size > 0
    ensures var q := a / size; q * size <= a < (q + 1) * size && (q == 0 <==> a < size)
  {
    var q := a / size;
    FloorDiv(a, size);
    assert (q + 1) * size == q * size + size;
    if q > 0 {
      MulMonotone(1, q, size);
    }
  }

  /** The scheduler always has a token left to compute. */
  lemma LeavesATokenToCompute(h: Hash, size: nat, tokens: seq<U32>, computed: nat, lookup: Option<set<Hash256>>)
    requires size > 0 && computed < |tokens|
    ensures computed + NewTokens(h, size, tokens, computed, lookup) < |tokens|
  {
    if lookup.Some? {
      HoldsBack(|tokens|, size, HitBlocks(h, tokens, size, |tokens| / size, lookup.value));
    }
  }

  /** Loads followed by stores are the hash chain of the whole blocks, each with its own slot; the loads come first. */
  lemma PlanIsChain(h: Hash, size: nat, req: Request, nLoad: nat)
    requires size > 0
    ensures var (loads, stores) := Split(h, size, req, nLoad);
            && |loads + stores| == WholeBlocks(size, req)
            && (forall i | 0 <= i < |loads + stores| ::
                  (loads + stores)[i] == BlockSpec(Chain(h, req.tokens, size, i + 1), FirstGroup(req.groups)[i],
                                                   i < |loads|))
            && (stores != [] ==> |loads| == nLoad)
  {
    var (loads, stores) := Split(h, size, req, nLoad);
    assert loads + stores == Specs(h, size, req, nLoad);
  }

  /** Block `i` is one of `lo`, ..., `hi - 1`. */
  predicate Among(i: nat, lo: nat, hi: nat) { lo <= i < hi }

  // The plan of a whole step

  /** The blocks planned for a request. */
  function Under(out: seq<Payload>, id: string): seq<BlockSpec>
  {
    if out == [] then [] else
      var last := out[|out| - 1];
      Under(out[..|out| - 1], id) + if last.requestId == id then last.blocks else []
  }

  lemma UnderAppend(out: seq<Payload>, id: string, specs: seq<BlockSpec>, other: string)
    ensures Under(Append(out, id, specs), other) == if other == id then Under(out, other) + specs else Under(out, other)
  {
    assert Under(out, other) + [] == Under(out, other);
    if specs != [] {
      UnderSnoc(out, Payload(id, specs), other);
      hide Under;
    }
  }

  lemma UnderSnoc(out: seq<Payload>, last: Payload, id: string)
    ensures Under(out + [last], id) == Under(out, id) + if last.requestId == id then last.blocks else []
  {
    assert (out + [last])[..|out|] == out;
  }

  predicate DistinctIds(reqs: seq<Request>) { forall i, j | 0 <= i < j < |reqs| :: reqs[i].id != reqs[j].id }

  /** What the last request of a step adds. */
  lemma BuildUnder(h: Hash, size: nat, waiting: Waiting, reqs: seq<Request>, id: string)
    requires size > 0 && reqs != []
    ensures var meta, req := Build(h, size, waiting, reqs).1, reqs[|reqs| - 1];
            var (w, before) := Build(h, size, waiting, reqs[..|reqs| - 1]);
            var (loads, stores) := Split(h, size, req, LoadCount(w, req.id));
            (Under(meta.loads, id), Under(meta.stores, id)) ==
            if Skipped(req) || req.id != id then (Under(before.loads, id), Under(before.stores, id))
            else (Under(before.loads, id) + loads, Under(before.stores, id) + stores)
  {
    hide Split, Append, Under;
    var req := reqs[|reqs| - 1];
    var (w, before) := Build(h, size, waiting, reqs[..|reqs| - 1]);
    var (loads, stores) := Split(h, size, req, LoadCount(w, req.id));
    UnderAppend(before.loads, req.id, loads, id);
    UnderAppend(before.stores, req.id, stores, id);
  }

  lemma {:induction false} NotPlanned(h: Hash, size: nat, waiting: Waiting, reqs: seq<Request>, id: string)
    requires size > 0 && forall i | 0 <= i < |reqs| :: reqs[i].id != id
    ensures var meta := Build(h, size, waiting, reqs).1; Under(meta.loads, id) == [] == Under(meta.stores, id)
  {
    if reqs != [] {
      hide Split, Build, Under;
      NotPlanned(h, size, waiting, reqs[..|reqs| - 1], id);
      BuildUnder(h, size, waiting, reqs, id);
    }
  }

  lemma {:induction false} PlanOf(h: Hash, size: nat, waiting: Waiting, reqs: seq<Request>, i: nat)
    requires size > 0 && DistinctIds(reqs) && i < |reqs| && !Skipped(reqs[i])
    ensures var meta, req := Build(h, size, waiting, reqs).1, reqs[i];
            (Under(meta.loads, req.id), Under(meta.stores, req.id)) == Split(h, size, req, LoadCount(waiting, req.id))
  {
    hide Split, Build, Under;
    var n := |reqs| - 1;
    BuildUnder(h, size, waiting, reqs, reqs[i].id);
    if i < n {
      PlanOf(h, size, waiting, reqs[..n], i);
    } else {
      NotPlanned(h, size, waiting, reqs[..n], reqs[n].id);
      StillWaiting(h, size, waiting, reqs[..n], reqs[n].id);
      var (loads, stores) := Split(h, size, reqs[n], LoadCount(waiting, reqs[n].id));
      assert [] + loads == loads && [] + stores == stores;
    }
  }

  lemma StillWaiting(h: Hash, size: nat, waiting: Waiting, reqs: seq<Request>, id: string)
    requires size > 0 && forall i | 0 <= i < |reqs| :: reqs[i].id != id
    ensures LoadCount(Build(h, size, waiting, reqs).0, id) == LoadCount(waiting, id)
  {
    hide Build;
    BuildConsumes(h, size, waiting, reqs);
  }

  /**
   A whole step plans every request that is not skipped: the blocks waiting for it, as far as it has
   whole blocks with a slot, are loads and marked as hits, and its other whole blocks are stores; each
   is the block of the hash chain with the slot of its index.
   */
  lemma BuildLoadsWhatWaits(h: Hash, size: nat, waiting: Waiting, reqs: seq<Request>, i: nat)
    requires size > 0 && DistinctIds(reqs) && i < |reqs| && !Skipped(reqs[i])
    ensures var meta, req := Build(h, size, waiting, reqs).1, reqs[i];
            var whole := Min(|req.tokens| / size, |req.groups[0]|);
            var n := if req.id in waiting then Min(waiting[req.id].nBlocks, whole) else 0;
            var loads, stores := Under(meta.loads, req.id), Under(meta.stores, req.id);
            && |loads| == n && |stores| == whole - n
            && (forall k | 0 <= k < n ::
                  loads[k] == BlockSpec(Chain(h, req.tokens, size, k + 1), req.groups[0][k], true))
            && (forall k | n <= k < whole ::
                  stores[k - n] == BlockSpec(Chain(h, req.tokens, size, k + 1), req.groups[0][k], false))
  {
    hide Build, Under;
    PlanOf(h, size, waiting, reqs, i);
  }

  /** What a request loads when it is counted with `c` blocks computed, given its slots, and then scheduled. */
  function Loaded(h: Hash, size: nat, waiting: Waiting, reqs: seq<Request>, i: nat, c: nat, hits: set<Hash256>):
    seq<BlockSpec>
    requires size > 0 && i < |reqs|
  {
    var req := reqs[i];
    var external := NewTokens(h, size, req.tokens, c * size, Some(hits));
    Under(Build(h, size, Record(size, waiting, req.id, FirstGroup(req.groups), external), reqs).1.loads, req.id)
  }

  function Reported(h: Hash, size: nat, req: Request, hits: set<Hash256>): nat
    requires size > 0
  {
    Counted(|req.tokens|, size, HitBlocks(h, req.tokens, size, |req.tokens| / size, hits))
  }

  lemma NewBlocks(h: Hash, size: nat, req: Request, c: nat, hits: set<Hash256>)
    requires size > 0 && req.tokens != []
    ensures var m := Reported(h, size, req, hits);
            && m <= |req.tokens| / size
            && NewTokens(h, size, req.tokens, c * size, Some(hits)) == Max(0, m - c) * size
            && Max(0, m - c) * size / size == Max(0, m - c)
  {
    var k := HitBlocks(h, req.tokens, size, |req.tokens| / size, hits);
    HoldsBack(|req.tokens|, size, k);
    var m := Counted(|req.tokens|, size, k);
    MulDiv(Max(0, m - c), size);
    if m >= c {
      assert (m - c) * size == m * size - c * size;
    } else {
      MulMonotone(m, c, size);
    }
  }

  lemma LoadedShape(h: Hash, size: nat, waiting: Waiting, reqs: seq<Request>, i: nat, c: nat, hits: set<Hash256>)
    requires size > 0 && DistinctIds(reqs) && i < |reqs| && !Skipped(reqs[i])
    ensures var req, loads := reqs[i], Loaded(h, size, waiting, reqs, i, c, hits);
            var m := Reported(h, size, req, hits);
            && |loads| == (if c < m then Min(m - c, |FirstGroup(req.groups)|)
                           else Min(LoadCount(waiting, req.id), WholeBlocks(size, req)))
            && |loads| <= WholeBlocks(size, req)
            && forall k | 0 <= k < |loads| ::
                 loads[k] == BlockSpec(Chain(h, req.tokens, size, k + 1), FirstGroup(req.groups)[k], true)
  {
    hide HitBlocks, HitTokens, Counted, Build, Under, NewTokens, Chain;
    var req, n := reqs[i], Max(0, Reported(h, size, reqs[i], hits) - c);
    NewBlocks(h, size, req, c, hits);
    if n > 0 {
      assert n * size > 0;
    } else {
      assert n * size == 0;
    }
    BuildLoadsWhatWaits(h, size, Record(size, waiting, req.id, FirstGroup(req.groups), n * size), reqs, i);
  }

  /** A request with nothing left waiting from before only ever loads blocks the cache reported, each into its slot. */
  lemma LoadsOnlyHits(h: Hash, size: nat, waiting: Waiting, reqs: seq<Request>, i: nat, c: nat, hits: set<Hash256>)
    requires size > 0 && DistinctIds(reqs) && i < |reqs| && !Skipped(reqs[i]) && LoadCount(waiting, reqs[i].id) == 0
    ensures var loads, slots := Loaded(h, size, waiting, reqs, i, c, hits), FirstGroup(reqs[i].groups);
            && |loads| <= |slots|
            && forall k | 0 <= k < |loads| ::
                 && loads[k].chainedHash in hits
                 && loads[k] == BlockSpec(Chain(h, reqs[i].tokens, size, k + 1), slots[k], true)
  {
    LoadedShape(h, size, waiting, reqs, i, c, hits);
    hide Loaded;
    assert Reported(h, size, reqs[i], hits) <= HitBlocks(h, reqs[i].tokens, size, |reqs[i].tokens| / size, hits);
  }

  /**
   From the count through the allocation to the step's plan: the blocks loaded are the ones promised to
   the scheduler exactly when nothing was computed beforehand and every promised block has a slot, or
   nothing was promised and nothing is left waiting from before that the request has blocks for.
   */
  lemma LoadsWhatWasPromisedIff(h: Hash, size: nat, waiting: Waiting, reqs: seq<Request>, i: nat, c: nat,
                                hits: set<Hash256>)
    requires size > 0 && DistinctIds(reqs) && i < |reqs| && !Skipped(reqs[i])
    ensures var req, m := reqs[i], Reported(h, size, reqs[i], hits);
            (forall k: nat :: Among(k, 0, |Loaded(h, size, waiting, reqs, i, c, hits)|) <==> Among(k, c, m)) <==>
            if c < m then c == 0 && m <= |FirstGroup(req.groups)|
            else Min(LoadCount(waiting, req.id), WholeBlocks(size, req)) == 0
  {
    LoadedShape(h, size, waiting, reqs, i, c, hits);
    hide HitBlocks, HitTokens, Counted, Reported, Loaded, Specs;
    var m, n := Reported(h, size, reqs[i], hits), |Loaded(h, size, waiting, reqs, i, c, hits)|;
    assert n > 0 ==> Among(0, 0, n);
    if c < m {
      assert Among(m - 1, c, m);
      assert c > 0 && n > 0 ==> !Among(0, c, m);
    }
  }

  /** A prompt whose first block is already computed: the promised second block is stored, not loaded. */
  lemma PromisedBlockIsStored(h: Hash)
    ensures var req := Request("r", [7, 8, 9], [[0, 1, 2]]);
            var hits := {Chain(h, [7, 8, 9], 1, 1), Chain(h, [7, 8, 9], 1, 2), Chain(h, [7, 8, 9], 1, 3)};
            var waiting := Record(1, map[], "r", [0, 1, 2], 1);
            && NewTokens(h, 1, req.tokens, 1, Some(hits)) == 1
            && Loaded(h, 1, map[], [req], 0, 1, hits) == [BlockSpec(Chain(h, req.tokens, 1, 1), 0, true)]
            && BlockSpec(Chain(h, req.tokens, 1, 2), 1, false) in Under(Build(h, 1, waiting, [req]).1.stores, "r")
  {
    var req := Request("r", [7, 8, 9], [[0, 1, 2]]);
    var hits := {Chain(h, [7, 8, 9], 1, 1), Chain(h, [7, 8, 9], 1, 2), Chain(h, [7, 8, 9], 1, 3)};
    OneLongestRun(h, req.tokens, 1, 3, hits, 3);
    var waiting := Record(1, map[], "r", [0, 1, 2], 1);
    LoadedShape(h, 1, map[], [req], 0, 1, hits);
    hide Build, Under, Loaded, Chain;
    assert !Skipped(req) && WholeBlocks(1, req) == 3;
    BuildLoadsWhatWaits(h, 1, waiting, [req], 0);
    assert Under(Build(h, 1, waiting, [req]).1.stores, "r")[0] == BlockSpec(Chain(h, req.tokens, 1, 2), 1, false);
  }

  /** A block as planned: for which request, under which hash, for which slot. */
  type Item = (string, Hash256, int)

  function Items(id: string, specs: seq<BlockSpec>): (items: seq<Item>)
    ensures |items| == |specs|
  {
    seq(|specs|, i requires 0 <= i < |specs| => (id, specs[i].chainedHash, specs[i].vllmBlockId))
  }

  /** The whole blocks of a request: each block of the hash chain with the slot of its index. */
  function WholeItems(h: Hash, size: nat, req: Request): seq<Item>
    requires size > 0
  {
    seq(WholeBlocks(size, req), i requires 0 <= i < WholeBlocks(size, req) =>
      (req.id, Chain(h, req.tokens, size, i + 1), FirstGroup(req.groups)[i]))
  }

  function Planned(out: seq<Payload>): multiset<Item>
  {
    if out == [] then multiset{} else
      var last := out[|out| - 1];
      Planned(out[..|out| - 1]) + multiset(Items(last.requestId, last.blocks))
  }

  function AllWholeItems(h: Hash, size: nat, reqs: seq<Request>): multiset<Item>
    requires size > 0
  {
    if reqs == [] then multiset{} else
      AllWholeItems(h, size, reqs[..|reqs| - 1]) + multiset(WholeItems(h, size, reqs[|reqs| - 1]))
  }

  lemma PlannedAppend(out: seq<Payload>, id: string, specs: seq<BlockSpec>)
    ensures Planned(Append(out, id, specs)) == Planned(out) + multiset(Items(id, specs))
  {
    if specs == [] {
      assert Items(id, specs) == [];
    } else {
      assert (out + [Payload(id, specs)])[..|out|] == out;
    }
  }

  lemma SplitItems(h: Hash, size: nat, req: Request, nLoad: nat)
    requires size > 0
    ensures var (loads, stores) := Split(h, size, req, nLoad);
            Items(req.id, loads) + Items(req.id, stores) == WholeItems(h, size, req)
  {
    PlanIsChain(h, size, req, nLoad);
    var (loads, stores) := Split(h, size, req, nLoad);
    hide Split, WholeBlocks;
    assert forall i | 0 <= i < |loads| :: (loads + stores)[i] == loads[i];
    assert forall i | 0 <= i < |stores| :: (loads + stores)[|loads| + i] == stores[i];
  }

  /**
   Every whole block of every scheduled request is planned exactly once, as a load or as a store, and
   nothing else is.
   */
  lemma {:induction false} BuildPlansEachBlockOnce(h: Hash, size: nat, waiting: Waiting, reqs: seq<Request>)
    requires size > 0
    ensures var meta := Build(h, size, waiting, reqs).1;
            Planned(meta.loads) + Planned(meta.stores) == AllWholeItems(h, size, reqs)
  {
    if reqs != [] {
      hide Split, Items, WholeItems, Append;
      var n := |reqs| - 1;
      var req := reqs[n];
      BuildPlansEachBlockOnce(h, size, waiting, reqs[..n]);
      var (w, meta) := Build(h, size, waiting, reqs[..n]);
      if Skipped(req) {
        NoWholeItems(h, size, req);
      } else {
        var nLoad := LoadCount(w, req.id);
        var (loads, stores) := Split(h, size, req, nLoad);
        SplitItems(h, size, req, nLoad);
        assert multiset(Items(req.id, loads) + Items(req.id, stores)) ==
          multiset(Items(req.id, loads)) + multiset(Items(req.id, stores));
        PlannedAppend(meta.loads, req.id, loads);
        PlannedAppend(meta.stores, req.id, stores);
      }
    }
  }

  lemma NoWholeItems(h: Hash, size: nat, req: Request)
    requires size > 0 && Skipped(req)
    ensures WholeItems(h, size, req) == []
  {}

  /** Building the metadata consumes the waiting loads of the requests it plans, and no others. */
  lemma {:induction false} BuildConsumes(h: Hash, size: nat, waiting: Waiting, reqs: seq<Request>)
    requires size > 0
    ensures Build(h, size, waiting, reqs).0 == waiting - (set req | req in reqs && !Skipped(req) :: req.id)
  {
    hide Split, Append;
    if reqs != [] {
      var n := |reqs| - 1;
      BuildConsumes(h, size, waiting, reqs[..n]);
      assert reqs == reqs[..n] + [reqs[n]];
    }
  }

  /** A second call on the same requests plans no load at all. */
  lemma {:induction false} SecondBuildLoadsNothing(h: Hash, size: nat, waiting: Waiting, reqs: seq<Request>)
    requires size > 0
    ensures Build(h, size, Build(h, size, waiting, reqs).0, reqs).1.loads == []
  {
    BuildConsumes(h, size, waiting, reqs);
    NothingWaiting(h, size, Build(h, size, waiting, reqs).0, reqs);
  }

  lemma {:induction false} NothingWaiting(h: Hash, size: nat, waiting: Waiting, reqs: seq<Request>)
    requires size > 0
    requires forall req | req in reqs :: !Skipped(req) ==> req.id !in waiting
    ensures Build(h, size, waiting, reqs).1.loads == []
  {
    if reqs != [] {
      var n := |reqs| - 1;
      NothingWaiting(h, size, waiting, reqs[..n]);
      BuildConsumes(h, size, waiting, reqs[..n]);
    }
  }
}
