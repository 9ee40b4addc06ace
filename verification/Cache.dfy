/** The cache node: its ring, Lookup and Insert (cache_server/src/cache.cpp). */
module Cache {
  import opened Types
  import opened SuccessorOrder
  import C = Cluster
  import D = FailureDetector
  import M = TieredModel
  import R = ReReplication
  import Replicator
  import Routing
  import SsdBlockStore
  import SsdImage
  import TieredStore

  /** A remote hit is only a hint where to ask: the named node may not have the block. */
  datatype Place = LocalHit(tier: Tier, data: Bytes) | RemoteHit(node: Peer) | Miss
  datatype Entry = Entry(id: BlockId, place: Place)

  // Lookup

  ghost function Classify(node: R.Node, ring: set<Peer>, id: BlockId, got: Option<M.GetResult>): Place
  {
    if got.Some? then LocalHit(got.value.tierFound, got.value.data) else
      var route := R.RouteOf(node, ring, id);
      if route != [] && route[0] != node.self then RemoteHit(route[0]) else Miss
  }

  ghost function LookupAll(cfg: M.Config, node: R.Node, ring: set<Peer>, s: M.State, ids: seq<BlockId>):
    (M.State, seq<Entry>)
  {
    if ids == [] then (s, []) else
      var (mid, entries) := LookupAll(cfg, node, ring, s, ids[..|ids| - 1]);
      var id := ids[|ids| - 1];
      var (end, got) := M.Get(cfg, mid, id);
      (end, entries + [Entry(id, Classify(node, ring, id, got))])
  }

  function Hits(entries: seq<Entry>): nat
  {
    if entries == [] then 0 else Hits(entries[..|entries| - 1]) + if entries[|entries| - 1].place.Miss? then 0 else 1
  }

  /** A local hit has the block's bytes; any other answer means the node cannot read the block. */
  ghost predicate Truthful(content: BlockId -> Bytes, node: R.Node, ring: set<Peer>, readable: set<BlockId>, e: Entry)
  {
    var route := R.RouteOf(node, ring, e.id);
    match e.place
    case LocalHit(_, data) => e.id in readable && data == content(e.id)
    case RemoteHit(p) => e.id !in readable && p in ring && p != node.self && [p] <= route
    case Miss => e.id !in readable && (route == [] || route[0] == node.self)
  }

  /**
   Lookup of a batch answers every id by what the node can read when the batch arrives, although the
   lookups themselves move blocks between tiers; and no lookup changes what the node holds or can read.
   */
  lemma {:induction false} LookupAnswers(cfg: M.Config, content: BlockId -> Bytes, node: R.Node, ring: set<Peer>,
                                         s: M.State, ids: seq<BlockId>)
    requires M.Inv(cfg, content, s)
    ensures var (end, entries) := LookupAll(cfg, node, ring, s, ids);
            && M.Inv(cfg, content, end) && M.Present(end) == M.Present(s) && M.Readable(end) == M.Readable(s)
            && |entries| == |ids|
            && forall i | 0 <= i < |ids| ::
                 entries[i].id == ids[i] && Truthful(content, node, ring, M.Readable(s), entries[i])
  {
    hide M.Inv, M.Get, M.Present, M.Readable, R.RouteOf;
    if ids != [] {
      var last := |ids| - 1;
      LookupAnswers(cfg, content, node, ring, s, ids[..last]);
      M.GetRefines(cfg, content, LookupAll(cfg, node, ring, s, ids[..last]).0, ids[last]);
      M.GetKeepsReadable(cfg, content, LookupAll(cfg, node, ring, s, ids[..last]).0, ids[last]);
      RouteWithin(node, ring, ids[last]);
    }
  }

  /** Looking up ids is a sequence of Gets. */
  function Gets(ids: seq<BlockId>): (ops: seq<M.Op>)
    ensures |ops| == |ids|
  {
    seq(|ids|, i requires 0 <= i < |ids| => M.GetOp(ids[i]))
  }

  /** The block's primary is another node. */
  ghost predicate Elsewhere(node: R.Node, ring: set<Peer>, id: BlockId)
  {
    var route := R.RouteOf(node, ring, id);
    route != [] && route[0] != node.self
  }

  lemma {:induction false} LookupRuns(cfg: M.Config, content: BlockId -> Bytes, node: R.Node, ring: set<Peer>,
                                      s: M.State, ids: seq<BlockId>)
    requires M.Inv(cfg, content, s)
    ensures LookupAll(cfg, node, ring, s, ids).0 == M.Run(cfg, content, s, Gets(ids))
  {
    hide M.Inv, M.Get, Classify;
    if ids != [] {
      var last := |ids| - 1;
      LookupRuns(cfg, content, node, ring, s, ids[..last]);
      assert Gets(ids) == Gets(ids[..last]) + [M.GetOp(ids[last])];
      M.RunSnoc(cfg, content, s, Gets(ids[..last]), M.GetOp(ids[last]));
    }
  }

  lemma {:induction false} EntryOf(cfg: M.Config, node: R.Node, ring: set<Peer>, s: M.State, ids: seq<BlockId>, i: nat)
    requires i < |ids|
    ensures var entries := LookupAll(cfg, node, ring, s, ids).1;
            && |entries| == |ids|
            && entries[i].id == ids[i]
            && entries[i].place ==
               Classify(node, ring, ids[i], M.Get(cfg, LookupAll(cfg, node, ring, s, ids[..i]).0, ids[i]).1)
  {
    hide M.Get, Classify;
    var last := |ids| - 1;
    if last > 0 {
      EntryOf(cfg, node, ring, s, ids[..last], if i < last then i else 0);
    }
    if i < last {
      assert ids[..last][..i] == ids[..i];
    }
  }

  /**
   A local hit names the fastest tier that has the block when its turn comes, after the promotions of
   the ids before it; for an empty block the slowest.
   */
  lemma HitNamesFastest(cfg: M.Config, content: BlockId -> Bytes, node: R.Node, ring: set<Peer>, s: M.State,
                        ids: seq<BlockId>, i: nat)
    requires M.Inv(cfg, content, s) && i < |ids|
    ensures var entries, now := LookupAll(cfg, node, ring, s, ids).1, M.Run(cfg, content, s, Gets(ids[..i]));
            && |entries| == |ids|
            && (entries[i].place.LocalHit? ==>
                  var t := entries[i].place.tier;
                  && (content(ids[i]) != [] ==> M.Fastest(now, t, ids[i]))
                  && (content(ids[i]) == [] ==>
                        ids[i] in M.At(now, t) && forall u: Tier | M.Rank(t) < M.Rank(u) :: ids[i] !in M.At(now, u)))
  {
    hide M.Inv, M.Get, M.Run, LookupAll, M.Fastest, M.At, M.Present, M.Readable, R.RouteOf;
    EntryOf(cfg, node, ring, s, ids, i);
    LookupRuns(cfg, content, node, ring, s, ids[..i]);
    LookupAnswers(cfg, content, node, ring, s, ids[..i]);
    var now := LookupAll(cfg, node, ring, s, ids[..i]).0;
    if M.Get(cfg, now, ids[i]).1.Some? {
      M.GetFindsFastest(cfg, content, now, ids[i]);
    }
  }

  lemma HitIff(content: BlockId -> Bytes, node: R.Node, ring: set<Peer>, readable: set<BlockId>, e: Entry)
    requires Truthful(content, node, ring, readable, e)
    ensures !e.place.Miss? <==> e.id in readable || Elsewhere(node, ring, e.id)
  {
    hide R.RouteOf;
  }

  /** The ids the node can read, and those whose primary is another node. */
  ghost function Answered(node: R.Node, ring: set<Peer>, readable: set<BlockId>, ids: seq<BlockId>): set<nat>
  {
    set i: nat | i < |ids| && (ids[i] in readable || Elsewhere(node, ring, ids[i]))
  }

  lemma AnsweredNext(node: R.Node, ring: set<Peer>, readable: set<BlockId>, ids: seq<BlockId>)
    requires ids != []
    ensures var last := |ids| - 1;
            |Answered(node, ring, readable, ids)| == |Answered(node, ring, readable, ids[..last])| +
              if ids[last] in readable || Elsewhere(node, ring, ids[last]) then 1 else 0
  {
    hide Elsewhere;
    var last := |ids| - 1;
    var before := Answered(node, ring, readable, ids[..last]);
    assert Answered(node, ring, readable, ids) ==
      before + if ids[last] in readable || Elsewhere(node, ring, ids[last]) then {last} else {};
  }

  /** The hits of a batch are counted as those, by what the node can read when the batch arrives. */
  lemma {:induction false} HitsCount(cfg: M.Config, content: BlockId -> Bytes, node: R.Node, ring: set<Peer>,
                                     s: M.State, ids: seq<BlockId>)
    requires M.Inv(cfg, content, s)
    ensures Hits(LookupAll(cfg, node, ring, s, ids).1) == |Answered(node, ring, M.Readable(s), ids)|
  {
    hide M.Inv, M.Get, M.Present, M.Readable, Truthful, Elsewhere, Classify;
    if ids != [] {
      hide Answered;
      HitsCount(cfg, content, node, ring, s, ids[..|ids| - 1]);
      LookupAnswers(cfg, content, node, ring, s, ids);
      HitIff(content, node, ring, M.Readable(s), LookupAll(cfg, node, ring, s, ids).1[|ids| - 1]);
      AnsweredNext(node, ring, M.Readable(s), ids);
    }
  }

  lemma RouteWithin(node: R.Node, ring: set<Peer>, id: BlockId)
    ensures forall p | p in R.RouteOf(node, ring, id) :: p in ring
  {}

  /** After any membership history, a remote hit names a peer believed alive, never this node. */
  lemma RemoteHitsAreAlive(dcfg: D.Config, seeds: set<Peer>, t0: int, evs: seq<D.Event>,
                           cfg: M.Config, content: BlockId -> Bytes, node: R.Node, s: M.State, ids: seq<BlockId>,
                           i: nat)
    requires D.FromSeeds(node.self, seeds, evs) && M.Inv(cfg, content, s) && i < |ids|
    ensures var d := D.Run(dcfg, D.Start(node.self, seeds, t0), evs);
            var entries := LookupAll(cfg, node, d.ring, s, ids).1;
            && |entries| == |ids|
            && (entries[i].place.RemoteHit? ==>
                  var p := entries[i].place.node; p != node.self && p in d.peers && d.peers[p].alive)
  {
    hide M.Inv, M.Present, M.Readable, LookupAll, R.RouteOf, D.Run, D.Start;
    var d := D.Run(dcfg, D.Start(node.self, seeds, t0), evs);
    D.RunAgrees(dcfg, node.self, seeds, t0, evs);
    D.RunKeeps(dcfg, D.Start(node.self, seeds, t0), evs);
    SelfOfStart(node.self, seeds, t0);
    LookupAnswers(cfg, content, node, d.ring, s, ids);
  }

  lemma SelfOfStart(self: Peer, seeds: set<Peer>, t0: int)
    ensures D.Start(self, seeds, t0).self == self
  {}

  // Insert

  /** The store and replication queue after one insert, and whether it was counted as accepted. */
  ghost function InsertOne(cfg: M.Config, node: R.Node, ring: set<Peer>, s: M.State, queue: seq<R.Task>,
                           block: KvBlock):
    (M.State, seq<R.Task>, bool)
  {
    var (s', landed) := M.Put(cfg, s, block.id, block.data, block.tier);
    if landed.Some? && M.AllBytes(s') > M.AllBytes(s) then
      (s', R.EnqueueAll(queue, R.Tasks(R.Replicas(node, ring, block.id), block.id)), true)
    else (s', queue, false)
  }

  ghost function InsertAll(cfg: M.Config, node: R.Node, ring: set<Peer>, s: M.State, queue: seq<R.Task>,
                           blocks: seq<KvBlock>):
    (M.State, seq<R.Task>, nat)
  {
    if blocks == [] then (s, queue, 0) else
      var (s1, q1, n) := InsertAll(cfg, node, ring, s, queue, blocks[..|blocks| - 1]);
      var (s2, q2, ok) := InsertOne(cfg, node, ring, s1, q1, blocks[|blocks| - 1]);
      (s2, q2, if ok then (n + 1) % U32_MODULUS else n)
  }

  /** An insert counts exactly when it puts a nonempty copy into a tier that had none. */
  lemma AcceptedIff(cfg: M.Config, node: R.Node, ring: set<Peer>, s: M.State, queue: seq<R.Task>, block: KvBlock)
    ensures var landing := M.Landing(cfg, s, M.Row(block.tier), block.id, block.data);
            InsertOne(cfg, node, ring, s, queue, block).2 <==>
            landing.Some? && block.id !in M.At(s, landing.value) && block.data != []
  {
    hide M.Fits;
    var landing := M.Landing(cfg, s, M.Row(block.tier), block.id, block.data);
    M.LandingFits(cfg, s, M.Row(block.tier), block.id, block.data);
    if landing.Some? && block.id !in M.At(s, landing.value) {
      M.AddBytes(s, landing.value, block.id, block.data);
    }
  }

  /** Inserting blocks is a sequence of Puts. */
  function Puts(blocks: seq<KvBlock>): (ops: seq<M.Op>)
    ensures |ops| == |blocks|
  {
    seq(|blocks|, i requires 0 <= i < |blocks| => M.PutOp(blocks[i].id, blocks[i].tier))
  }

  /** Putting the block adds a nonempty copy to the tier it lands in. */
  ghost predicate Adds(cfg: M.Config, s: M.State, block: KvBlock)
  {
    var landed := M.Put(cfg, s, block.id, block.data, block.tier).1;
    landed.Some? && block.id !in M.At(s, landed.value) && block.data != []
  }

  /** Which blocks of a batch add a copy, each put into the store as the blocks before it left it. */
  ghost function Added(cfg: M.Config, content: BlockId -> Bytes, s: M.State, blocks: seq<KvBlock>): set<nat>
  {
    set k: nat | k < |blocks| && Adds(cfg, M.Run(cfg, content, s, Puts(blocks[..k])), blocks[k])
  }

  /** The pushes of those blocks, in order. */
  ghost function Pushes(node: R.Node, ring: set<Peer>, blocks: seq<KvBlock>, added: set<nat>): seq<R.Task>
  {
    if blocks == [] then [] else
      var last := |blocks| - 1;
      var id := blocks[last].id;
      Pushes(node, ring, blocks[..last], added) + if last in added then R.Tasks(R.Replicas(node, ring, id), id) else []
  }

  lemma {:induction false} PushesAgree(node: R.Node, ring: set<Peer>, blocks: seq<KvBlock>, a: set<nat>, b: set<nat>)
    requires forall k: nat | k < |blocks| :: k in a <==> k in b
    ensures Pushes(node, ring, blocks, a) == Pushes(node, ring, blocks, b)
  {
    if blocks != [] {
      PushesAgree(node, ring, blocks[..|blocks| - 1], a, b);
    }
  }

  lemma AddedNext(cfg: M.Config, content: BlockId -> Bytes, s: M.State, blocks: seq<KvBlock>)
    requires blocks != []
    ensures var last := |blocks| - 1;
            Added(cfg, content, s, blocks) == Added(cfg, content, s, blocks[..last]) +
              if Adds(cfg, M.Run(cfg, content, s, Puts(blocks[..last])), blocks[last]) then {last} else {}
  {
    hide M.Run, Adds;
    var last := |blocks| - 1;
    assert forall k: nat | k <= last :: blocks[..last][..k] == blocks[..k];
  }

  lemma InsertOneIs(cfg: M.Config, content: BlockId -> Bytes, node: R.Node, ring: set<Peer>, s: M.State,
                    queue: seq<R.Task>, block: KvBlock)
    requires block.data == content(block.id)
    ensures var (s', queue', ok) := InsertOne(cfg, node, ring, s, queue, block);
            && s' == M.Apply(cfg, content, s, M.PutOp(block.id, block.tier)) && (ok <==> Adds(cfg, s, block))
            && queue' == R.EnqueueAll(queue, if ok then R.Tasks(R.Replicas(node, ring, block.id), block.id) else [])
  {
    AcceptedIff(cfg, node, ring, s, queue, block);
    hide M.Landing, M.AllBytes, R.Replicas, R.Tasks, M.PutTier;
  }

  /**
   Insert of a batch. The store ends as after a Put of each block in order. What is counted, modulo
   2^32, is the blocks that each add a nonempty copy to the tier they land in. Those blocks and no
   others are pushed, in order, as far as the queue takes them.
   */
  lemma {:induction false} InsertIsPuts(cfg: M.Config, content: BlockId -> Bytes, node: R.Node, ring: set<Peer>,
                                        s: M.State, queue: seq<R.Task>, blocks: seq<KvBlock>)
    requires M.Inv(cfg, content, s) && forall k | 0 <= k < |blocks| :: blocks[k].data == content(blocks[k].id)
    ensures var (end, queue', accepted) := InsertAll(cfg, node, ring, s, queue, blocks);
            var added := Added(cfg, content, s, blocks);
            var pushes := Pushes(node, ring, blocks, added);
            && end == M.Run(cfg, content, s, Puts(blocks))
            && accepted == |added| % U32_MODULUS
            && queue' == queue + pushes[..R.Room(queue, pushes)]
  {
    hide M.Inv, M.Run, InsertOne, R.Replicas, R.Tasks, Adds, R.EnqueueAll, Added, M.Apply, R.Room;
    if blocks == [] {
      NothingInserted(cfg, content, s, queue);
    } else {
      var last := |blocks| - 1;
      var before, block := blocks[..last], blocks[last];
      InsertIsPuts(cfg, content, node, ring, s, queue, before);
      var (mid, queue', _) := InsertAll(cfg, node, ring, s, queue, before);
      InsertOneIs(cfg, content, node, ring, mid, queue', block);
      assert Puts(blocks) == Puts(before) + [M.PutOp(block.id, block.tier)];
      M.RunSnoc(cfg, content, s, Puts(before), M.PutOp(block.id, block.tier));
      AddedGrows(cfg, content, node, ring, s, blocks);
      var tasks := if Adds(cfg, mid, block) then R.Tasks(R.Replicas(node, ring, block.id), block.id) else [];
      R.EnqueueMore(queue, Pushes(node, ring, before, Added(cfg, content, s, before)), tasks);
    }
  }

  lemma AddedGrows(cfg: M.Config, content: BlockId -> Bytes, node: R.Node, ring: set<Peer>, s: M.State,
                   blocks: seq<KvBlock>)
    requires blocks != []
    ensures var last := |blocks| - 1;
            var before, block := blocks[..last], blocks[last];
            var was, added := Added(cfg, content, s, before), Added(cfg, content, s, blocks);
            var adds := Adds(cfg, M.Run(cfg, content, s, Puts(before)), block);
            && |added| % U32_MODULUS == (if adds then (|was| % U32_MODULUS + 1) % U32_MODULUS else |was| % U32_MODULUS)
            && Pushes(node, ring, blocks, added) == Pushes(node, ring, before, was) +
                 if adds then R.Tasks(R.Replicas(node, ring, block.id), block.id) else []
  {
    hide M.Run, R.Replicas, R.Tasks, Adds, Added;
    var before := blocks[..|blocks| - 1];
    var was, added := Added(cfg, content, s, before), Added(cfg, content, s, blocks);
    AddedNext(cfg, content, s, blocks);
    AddedBelow(cfg, content, s, before);
    PushesAgree(node, ring, before, was, added);
    CountNext(|was|);
  }

  lemma NothingInserted(cfg: M.Config, content: BlockId -> Bytes, s: M.State, queue: seq<R.Task>)
    ensures M.Run(cfg, content, s, Puts([])) == s && Added(cfg, content, s, []) == {}
    ensures queue + [][..R.Room(queue, [])] == queue
  {}

  lemma AddedBelow(cfg: M.Config, content: BlockId -> Bytes, s: M.State, blocks: seq<KvBlock>)
    ensures forall k | k in Added(cfg, content, s, blocks) :: k < |blocks|
  {
    hide M.Run, Adds;
  }

  lemma CountNext(n: nat)
    ensures (n % U32_MODULUS + 1) % U32_MODULUS == (n + 1) % U32_MODULUS
  {}

  /** So the ids it holds afterwards are what a plain set would hold, told only which blocks were taken. */
  lemma InsertHolds(cfg: M.Config, content: BlockId -> Bytes, node: R.Node, ring: set<Peer>, s: M.State,
                    queue: seq<R.Task>, blocks: seq<KvBlock>)
    requires M.Inv(cfg, content, s) && forall k | 0 <= k < |blocks| :: blocks[k].data == content(blocks[k].id)
    ensures var end, ops := InsertAll(cfg, node, ring, s, queue, blocks).0, Puts(blocks);
            && M.Inv(cfg, content, end)
            && M.Present(end) == M.PlainRun(M.Present(s), ops, M.Landed(cfg, content, s, ops))
  {
    hide M.Inv, M.Run, InsertAll, M.Present, M.PlainRun, M.Landed, M.Get, Added, Pushes;
    InsertIsPuts(cfg, content, node, ring, s, queue, blocks);
    M.RunRefines(cfg, content, s, Puts(blocks), BlockId(ZERO_HASH, 0, 0, 0));
  }

  /** Inserting a block again right away changes nothing, replicates nothing and is not counted. */
  lemma RepeatedInsertIsIdempotent(cfg: M.Config, node: R.Node, ring: set<Peer>, s: M.State, queue: seq<R.Task>,
                                   block: KvBlock)
    ensures var (s', queue', _) := InsertOne(cfg, node, ring, s, queue, block);
            InsertOne(cfg, node, ring, s', queue', block) == (s', queue', false)
  {
    var landing := M.Landing(cfg, s, M.Row(block.tier), block.id, block.data);
    M.LandingFits(cfg, s, M.Row(block.tier), block.id, block.data);
    if landing.Some? {
      LandsAgain(cfg, s, M.Row(block.tier), block.id, block.data, landing.value);
    }
  }

  lemma {:induction false} LandsAgain(cfg: M.Config, s: M.State, row: seq<Tier>, id: BlockId, data: Bytes, t: Tier)
    requires M.Landing(cfg, s, row, id, data) == Some(t)
    ensures M.Landing(cfg, M.PutTier(cfg, s, t, id, data), row, id, data) == Some(t)
    ensures id in M.At(M.PutTier(cfg, s, t, id, data), t)
  {
    if M.Fits(cfg, s, row[0], id, data) {
    } else {
      LandsAgain(cfg, s, row[1..], id, data, t);
      assert row[0] != t by { M.LandingFits(cfg, s, row[1..], id, data); }
    }
  }

  /** A block that sits in another tier than the one it lands in is counted again. */
  lemma PresentBlockAcceptedAgain(node: R.Node, ring: set<Peer>, queue: seq<R.Task>, id: BlockId)
    ensures var cfg := M.Config(1, 1, false, 0, 0, false, 0);
            var s := M.EMPTY.(dram := map[id := [7]]);
            InsertOne(cfg, node, ring, s, queue, KvBlock(id, [7], HBM, 0)).2
  {
    var cfg := M.Config(1, 1, false, 0, 0, false, 0);
    var s := M.EMPTY.(dram := map[id := [7]]);
    assert M.Fits(cfg, s, HBM, id, [7]);
    AcceptedIff(cfg, node, ring, s, queue, KvBlock(id, [7], HBM, 0));
  }

  /**
   An accepted insert, with room in the queue, is pushed to every other member of the block's route
   exactly when this node is its primary or there is no route: a node that is not never pushes to the
   primary.
   */
  lemma InsertReachesRouteIff(cfg: M.Config, node: R.Node, ring: set<Peer>, s: M.State, queue: seq<R.Task>,
                              block: KvBlock)
    requires InsertOne(cfg, node, ring, s, queue, block).2 && |queue| + R.Want(node) <= R.QUEUE_MAX
    ensures var queue', route := InsertOne(cfg, node, ring, s, queue, block).1, R.RouteOf(node, ring, block.id);
            && queue <= queue'
            && ((forall p | p in route && p != node.self :: R.Task(p, block.id) in queue'[|queue|..]) <==>
                route == [] || route[0] == node.self)
  {
    var route, replicas := R.RouteOf(node, ring, block.id), R.Replicas(node, ring, block.id);
    hide M.Put, M.AllBytes, R.RouteOf, R.Tasks, R.EnqueueAll;
    R.EnqueueTakes(queue, R.Tasks(replicas, block.id));
    R.TasksAt(replicas, block.id);
    if route != [] {
      PrimaryIsNoReplica(node, ring, block.id);
      assert route == [route[0]] + route[1..];
    }
  }

  /**
   What an accepted insert appends to the queue, with room for it: a push to each member of the route
   after the first, in route order and once, and none to this node.
   */
  lemma InsertPushes(cfg: M.Config, node: R.Node, ring: set<Peer>, s: M.State, queue: seq<R.Task>, block: KvBlock)
    requires InsertOne(cfg, node, ring, s, queue, block).2 && |queue| + R.Want(node) <= R.QUEUE_MAX
    ensures var queue', route := InsertOne(cfg, node, ring, s, queue, block).1, R.RouteOf(node, ring, block.id);
            exists others: seq<Peer> ::
              && (if route == [] then others == [] else R.CutOut(route[1..], node.self, others)) && node.self !in others
              && |queue'| == |queue| + |others| && queue <= queue'
              && forall i | 0 <= i < |others| :: queue'[|queue| + i] == R.Task(others[i], block.id)
  {
    hide M.Put, M.AllBytes, R.RouteOf, R.Tasks, R.EnqueueAll, R.CutOut;
    var route, others := R.RouteOf(node, ring, block.id), R.Replicas(node, ring, block.id);
    R.PushesAre(node, ring, block.id);
    R.TasksAt(others, block.id);
    R.EnqueueTakes(queue, R.Tasks(others, block.id));
    assert |others| <= R.Want(node);
  }

  lemma PrimaryIsNoReplica(node: R.Node, ring: set<Peer>, id: BlockId)
    requires R.RouteOf(node, ring, id) != []
    ensures R.RouteOf(node, ring, id)[0] !in R.RouteOf(node, ring, id)[1..]
  {
    R.RouteDistinct(node, ring, id);
  }

  /** The copies a tiered store holds, as the cluster model sees them. */
  function Copies(s: M.State): set<C.Copy>
  {
    (set id | id in s.hbm :: (id, HBM)) + (set id | id in s.dram :: (id, DRAM)) + (set id | id in s.ssd :: (id, SSD))
  }

  lemma CopiesAt(s: M.State)
    ensures forall id: BlockId, t: Tier :: (id, t) in Copies(s) <==> id in M.At(s, t)
  {}

  /** What Insert does to a node is the landing step of the cluster model. */
  lemma InsertIsLand(c: C.Params, cfg: M.Config, s: M.State, n: C.NodeState, m: Peer, block: KvBlock, t: Tier)
    requires n.copies == Copies(s) && block.data != []
    requires M.Landing(cfg, s, M.Row(block.tier), block.id, block.data) == Some(t)
    ensures var (s', queue, _) := InsertOne(cfg, C.Self(c, m), n.ring, s, n.queue, block);
            C.Land(c, m, n, block.id, t) == n.(copies := Copies(s'), queue := queue)
  {
    AcceptedIff(cfg, C.Self(c, m), n.ring, s, n.queue, block);
    M.LandingFits(cfg, s, M.Row(block.tier), block.id, block.data);
    CopiesAt(s);
    hide M.Fits, M.AllBytes, R.Replicas, R.Tasks, R.EnqueueAll, Copies;
    if block.id !in M.At(s, t) {
      CopiesAdd(s, t, block.id, block.data);
    }
  }

  lemma CopiesAdd(s: M.State, t: Tier, id: BlockId, data: Bytes)
    ensures Copies(M.WithTier(s, t, M.At(s, t)[id := data])) == Copies(s) + {(id, t)}
  {}

  /** This node once and first, then every other listed peer in order. */
  method WithSelf(nodeId: Peer, seeds: seq<Peer>) returns (ids: seq<Peer>)
    ensures ids == [nodeId] + R.Without(seeds, nodeId) && nodeId !in ids[1..]
    ensures Elems(ids) == {nodeId} + Elems(seeds) && forall p :: p in ids <==> p == nodeId || p in seeds
  {
    ids := [nodeId];
    for k := 0 to |seeds|
      invariant ids == [nodeId] + R.Without(seeds[..k], nodeId)
    {
      assert seeds[..k + 1] == seeds[..k] + [seeds[k]];
      Replicator.WithoutSnoc(seeds[..k], seeds[k], nodeId);
      if seeds[k] != nodeId {
        ids := ids + [seeds[k]];
      }
    }
    assert seeds[..|seeds|] == seeds;
  }

  /** What a Get does to the copies of a node is nothing, or one promotion as in the cluster model. */
  lemma GetIsMove(cfg: M.Config, content: BlockId -> Bytes, s: M.State, n: C.NodeState, id: BlockId)
    requires M.Inv(cfg, content, s) && n.copies == Copies(s)
    ensures var (s', got) := M.Get(cfg, s, id);
            if got.Some? && got.value.promoted then
              exists shift :: C.CanShift(n, id, shift) && C.Shifted(n, id, shift).copies == Copies(s')
            else Copies(s') == n.copies
  {
    hide M.Inv, M.Fits, M.Find, M.PutTier, M.EraseTier, Copies, M.Touch, M.At, M.Count;
    FoundIn(cfg, content, s, id);
    var (found, data) := M.Find(s, id);
    if !(data == [] && found == SSD) {
      var touched, to := M.Touch(s, id), M.PromotionTarget(cfg, found);
      TouchCopies(s, id);
      CopiesAt(s);
      if M.Promotes(cfg, touched, found, id, data) {
        MoveCopies(cfg, touched, found, to, id, data);
        assert C.CanShift(n, id, C.Shift(found, to));
      }
    }
  }

  /** What a demotion does to the copies of a node is nothing, or one move. */
  lemma DemoteIsMove(cfg: M.Config, s: M.State, n: C.NodeState, id: BlockId)
    requires n.copies == Copies(s)
    ensures var (s', ok) := M.Demote(cfg, s, id);
            if ok then exists shift :: C.CanShift(n, id, shift) && C.Shifted(n, id, shift).copies == Copies(s')
            else Copies(s') == n.copies
  {
    CopiesAt(s);
    hide M.Fits, M.PutTier, M.EraseTier, Copies;
    if M.Demote(cfg, s, id).1 {
      var from := if id in s.hbm then HBM else DRAM;
      var data := M.At(s, from)[id];
      var to := if from == HBM && M.Fits(cfg, s, DRAM, id, data) then DRAM else SSD;
      MoveCopies(cfg, s, from, to, id, data);
      assert C.CanShift(n, id, C.Shift(from, to));
    }
  }

  lemma FoundIn(cfg: M.Config, content: BlockId -> Bytes, s: M.State, id: BlockId)
    requires M.Inv(cfg, content, s)
    ensures var (found, data) := M.Find(s, id); !(data == [] && found == SSD) ==> id in M.At(s, found)
  {
    M.InvContent(cfg, content, s);
    M.FindAnswers(content, s, id);
    hide M.Inv, M.Find, M.At;
  }

  lemma TouchCopies(s: M.State, id: BlockId)
    ensures Copies(M.Touch(s, id)) == Copies(s)
  {}

  lemma MoveCopies(cfg: M.Config, s: M.State, from: Tier, to: Tier, id: BlockId, data: Bytes)
    requires from != to && M.Fits(cfg, s, to, id, data)
    ensures Copies(M.EraseTier(M.PutTier(cfg, s, to, id, data), from, id)) == Copies(s) - {(id, from)} + {(id, to)}
  {
    hide M.Fits, Copies, M.At, M.WithTier;
    var put := M.PutTier(cfg, s, to, id, data);
    assert Copies(put) == Copies(s) + {(id, to)} by {
      CopiesAt(s);
      CopiesAdd(s, to, id, data);
    }
    CopiesDrop(put, from, id);
    assert Copies(s) + {(id, to)} - {(id, from)} == Copies(s) - {(id, from)} + {(id, to)};
  }

  lemma CopiesDrop(s: M.State, t: Tier, id: BlockId)
    ensures Copies(M.WithTier(s, t, M.At(s, t) - {id})) == Copies(s) - {(id, t)}
  {}

  class Cache {
    const nodeId: Peer
    const router: Routing.Router
    const store: TieredStore.TieredStore
    const replicator: Replicator.Replicator
    ghost const content: BlockId -> Bytes

    ghost predicate Valid()
      reads replicator, router, store.Footprint()
    {
      && replicator.store == store && replicator.router == router
      && replicator.localNodeId == nodeId && replicator.content == content
      && replicator.Valid()
    }

    /** The ring starts as this node and all seed peers, whether or not the seeds name this node. */
    constructor (nodeId: Peer, seeds: seq<Peer>, vnodes: nat, replicationFactor: nat, vh: VnodeHash,
                 cfg: M.Config, file: array?<SsdImage.Slot>, ghost content: BlockId -> Bytes)
      requires nodeId != "" && "" !in seeds && NoCrossTies(vh, vnodes, {nodeId} + Elems(seeds))
      requires cfg.hasSsd <==> file != null
      requires file != null ==> file.Length == cfg.ssdSlots && SsdBlockStore.Shaped(file[..], cfg.ssdPayload)
      ensures (file == null || SsdImage.DistinctIds(file[..])) && M.Inv(cfg, content, store.Model()) ==> Valid()
      ensures this.nodeId == nodeId && this.content == content
      ensures Elems(router.peers) == D.Start(nodeId, Elems(seeds), 0).ring
      ensures store.Model() == M.EMPTY.(ssd := if file != null then SsdImage.Contents(file[..]) else map[])
    {
      hide NoCrossTies, M.Inv, SsdBlockStore.Shaped, SsdImage.DistinctIds, SsdImage.Contents,
           TieredStore.TieredStore.Valid;
      hide Routing.EntriesOf, Routing.HashSorted, Routing.Entries, Replicator.Replicator.RouterOk, Replicator.Faithful;
      hide R.Without;
      this.nodeId, this.content := nodeId, content;
      var tiers := new TieredStore.TieredStore(cfg, file);
      var ring := new Routing.Router(nodeId, vnodes, replicationFactor, vh);
      var ids := WithSelf(nodeId, seeds);
      ring.SetPeers(ids);
      store, router := tiers, ring;
      replicator := new Replicator.Replicator(nodeId, ring, tiers, content);
    }

    /** One id of a lookup: the local store first, then the ring. */
    method LookupOne(id: BlockId) returns (place: Place)
      requires Valid()
      modifies store.Footprint()
      ensures Valid()
      ensures var (end, got) := M.Get(store.cfg, old(store.Model()), id);
              store.Model() == end && place == Classify(replicator.Node(), Elems(router.peers), id, got)
    {
      hide TieredStore.TieredStore.Valid, TieredStore.TieredStore.Model, M.Inv, M.Get, M.Present, Replicator.Faithful;
      hide Replicator.Replicator.RouterOk, R.RouteOf;
      M.GetRefines(store.cfg, content, store.Model(), id);
      var got := store.Get(id);
      if got.Some? {
        return LocalHit(got.value.tierFound, got.value.data);
      }
      var members := replicator.Members(id);
      if members != [] && members[0] != nodeId {
        return RemoteHit(members[0]);
      }
      return Miss;
    }

    method Lookup(ids: seq<BlockId>) returns (entries: seq<Entry>, hits: nat, misses: nat)
      requires Valid()
      modifies store.Footprint()
      ensures Valid()
      ensures (store.Model(), entries) == LookupAll(store.cfg, replicator.Node(), Elems(router.peers),
                                                    old(store.Model()), ids)
      ensures hits == Hits(entries) && hits + misses == |ids|
    {
      hide TieredStore.TieredStore.Valid, TieredStore.TieredStore.Model, M.Inv, M.Get, Replicator.Faithful, Classify;
      hide Replicator.Replicator.RouterOk;
      entries, hits, misses := [], 0, 0;
      for k := 0 to |ids|
        invariant Valid() && hits == Hits(entries) && hits + misses == k
        invariant (store.Model(), entries) ==
                  LookupAll(store.cfg, replicator.Node(), Elems(router.peers), old(store.Model()), ids[..k])
      {
        assert ids[..k + 1][..k] == ids[..k];
        var place := LookupOne(ids[k]);
        if place.Miss? { misses := misses + 1; } else { hits := hits + 1; }
        assert (entries + [Entry(ids[k], place)])[..|entries|] == entries;
        entries := entries + [Entry(ids[k], place)];
      }
      assert ids[..|ids|] == ids;
    }

    method TotalUsed() returns (n: nat)
      requires store.Valid()
      ensures n == M.AllBytes(store.Model())
    {
      var hbm := store.UsedBytes(HBM);
      var dram := store.UsedBytes(DRAM);
      var ssd := store.UsedBytes(SSD);
      n := hbm + dram + ssd;
    }

    /** One block of an insert: stored by its tier hint, and replicated when the bytes held have grown. */
    method InsertBlock(block: KvBlock) returns (ok: bool)
      requires Valid() && block.data == content(block.id)
      modifies store.Footprint(), replicator`queue
      ensures Valid()
      ensures (store.Model(), Replicator.Names(replicator.queue), ok) ==
              InsertOne(store.cfg, replicator.Node(), Elems(router.peers), old(store.Model()),
                        Replicator.Names(old(replicator.queue)), block)
    {
      hide TieredStore.TieredStore.Valid, TieredStore.TieredStore.Model, M.Inv, M.Put, M.AllBytes, R.Replicas;
      hide Replicator.Faithful, R.EnqueueAll, Replicator.Replicator.RouterOk, R.Tasks, Replicator.Names, M.Present;
      var before := TotalUsed();
      PutKeeps(store.cfg, content, store.Model(), block);
      var landed := store.Put(block, block.tier);
      var after := TotalUsed();
      ok := landed.Some? && after > before;
      if ok {
        var _ := replicator.ReplicateOut(block);
      }
    }

    method Insert(blocks: seq<KvBlock>) returns (accepted: nat)
      requires Valid() && forall i | 0 <= i < |blocks| :: blocks[i].data == content(blocks[i].id)
      modifies store.Footprint(), replicator`queue
      ensures Valid()
      ensures (store.Model(), Replicator.Names(replicator.queue), accepted) ==
              InsertAll(store.cfg, replicator.Node(), Elems(router.peers), old(store.Model()),
                        Replicator.Names(old(replicator.queue)), blocks)
    {
      hide TieredStore.TieredStore.Valid, TieredStore.TieredStore.Model, M.Inv, InsertOne;
      hide Replicator.Faithful, Replicator.Replicator.RouterOk;
      accepted := 0;
      for k := 0 to |blocks|
        invariant Valid()
        invariant (store.Model(), Replicator.Names(replicator.queue), accepted) ==
                  InsertAll(store.cfg, replicator.Node(), Elems(router.peers), old(store.Model()),
                            Replicator.Names(old(replicator.queue)), blocks[..k])
      {
        assert blocks[..k + 1][..k] == blocks[..k];
        var ok := InsertBlock(blocks[k]);
        if ok { accepted := (accepted + 1) % U32_MODULUS; }
      }
      assert blocks[..|blocks|] == blocks;
    }
  }

  lemma PutKeeps(cfg: M.Config, content: BlockId -> Bytes, s: M.State, block: KvBlock)
    requires M.Inv(cfg, content, s) && block.data == content(block.id)
    ensures M.Inv(cfg, content, M.Put(cfg, s, block.id, block.data, block.tier).0)
  {
    hide M.Inv, M.Put;
    M.ApplyRefines(cfg, content, s, M.PutOp(block.id, block.tier));
  }
}
