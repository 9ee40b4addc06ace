/** The replicator object (cache_server/src/replication.cpp), proved against ReReplication. */
module Replicator {
  import opened Types
  import opened SuccessorOrder
  import opened Routing
  import R = ReReplication
  import M = TieredModel
  import TieredStore

  datatype ReplicateTask = ReplicateTask(peerId: Peer, block: KvBlock)

  function Names(queue: seq<ReplicateTask>): (ts: seq<R.Task>)
    ensures |ts| == |queue|
    ensures forall i | 0 <= i < |queue| :: ts[i] == R.Task(queue[i].peerId, queue[i].block.id)
  {
    if queue == [] then [] else [R.Task(queue[0].peerId, queue[0].block.id)] + Names(queue[1..])
  }

  lemma NamesAppend(queue: seq<ReplicateTask>, targets: seq<Peer>, block: KvBlock, k: nat, pushed: seq<ReplicateTask>)
    requires k <= |targets| && |pushed| == k && forall i | 0 <= i < k :: pushed[i] == ReplicateTask(targets[i], block)
    ensures Names(queue + pushed) == Names(queue) + R.Tasks(targets[..k], block.id)
  {
    R.TasksAt(targets[..k], block.id);
  }

  /**
   Nothing without lost peers; otherwise a new round over exactly the held blocks whose route contains
   this node, and one drain of it.
   */
  ghost predicate Triggered(n: R.Node, before: R.State, present: set<BlockId>, lost: seq<Peer>,
                            candidates: seq<BlockId>, after: R.State)
    requires before.pc == R.Idle
  {
    if lost == [] then after == before
    else
      && (forall id :: id in candidates <==> id in present && n.self in R.RouteOf(n, before.ring, id))
      && after == R.Drain(n, R.Step(n, before, R.Trigger(candidates))).(dispatched := 0)
  }

  lemma NothingTriggered(n: R.Node, before: R.State, present: set<BlockId>, candidates: seq<BlockId>, after: R.State)
    requires before.pc == R.Idle
    ensures Triggered(n, before, present, [], candidates, after) <==> after == before
  {}

  class Replicator {
    const localNodeId: Peer
    const router: Router
    const store: TieredStore.TieredStore
    ghost const content: BlockId -> Bytes
    var queue: seq<ReplicateTask>
    var round: seq<BlockId>
    var cursor: nat
    var active: bool

    ghost predicate Valid()
      reads this, router, store.Footprint()
    {
      && router !in store.Footprint() && this !in store.Footprint()
      && store.Valid() && M.Inv(store.cfg, content, store.Model())
      && RouterOk()
      && cursor <= |round|
      && Faithful(queue, content)
    }

    /** Node ids are not empty, and no two nodes share a ring position. */
    ghost predicate RouterOk()
      reads router
    {
      && router.Valid() && router.localNodeId == localNodeId && "" !in router.peers
      && NoCrossTies(router.vnodeHash, router.vnodesPerPeer, Elems(router.peers))
    }

    ghost function Node(): R.Node
    {
      R.Node(localNodeId, router.vnodeHash, router.vnodesPerPeer, router.replicationFactor)
    }

    ghost function Model(): R.State
      reads this, router, store.Footprint()
    {
      R.State(Names(queue), round, cursor, active, R.Idle, 0, Elems(router.peers), M.Readable(store.Model()))
    }

    constructor (localNodeId: Peer, router: Router, store: TieredStore.TieredStore, ghost content: BlockId -> Bytes)
      requires router !in store.Footprint()
      requires router.Valid() && router.localNodeId == localNodeId && "" !in router.peers
      requires NoCrossTies(router.vnodeHash, router.vnodesPerPeer, Elems(router.peers))
      ensures store.Valid() && M.Inv(store.cfg, content, store.Model()) ==> Valid()
      ensures queue == [] && !active
      ensures this.localNodeId == localNodeId && this.router == router && this.store == store && this.content == content
    {
      hide M.Inv, NoCrossTies, TieredStore.TieredStore.Valid, TieredStore.TieredStore.Model;
      this.localNodeId, this.router, this.store, this.content := localNodeId, router, store, content;
      queue, round, cursor, active := [], [], 0, false;
    }

    /** A new ring in the shared router changes the ring of the machine and nothing else. */
    twostate lemma RingChanged()
      requires old(Valid()) && unchanged(this) && unchanged(store.Footprint()) && RouterOk()
      ensures Valid() && Model() == old(Model()).(ring := Elems(router.peers))
      ensures M.Present(store.Model()) == old(M.Present(store.Model()))
    {
      hide M.Inv, Faithful, Names, RouterOk, M.Readable, M.Present;
    }

    lemma RingField()
      ensures Model().ring == Elems(router.peers) && Model().pc == R.Idle
    {}

    lemma Separate()
      requires Valid()
      ensures router !in store.Footprint() && this !in store.Footprint() && router.localNodeId == localNodeId
    {}

    /** The route as one list, empty when there is none. */
    method Members(id: BlockId) returns (members: seq<Peer>)
      requires RouterOk()
      ensures members == R.RouteOf(Node(), Elems(router.peers), id)
    {
      var route := router.Route(id);
      if router.peers != [] {
        assert router.peers[0] in Elems(router.peers);
      }
      members := if route == NO_ROUTE then [] else [route.primary] + route.replicas;
    }

    /** Primary first, then replicas, without this node. */
    method TargetsOf(id: BlockId) returns (targets: seq<Peer>)
      requires RouterOk()
      ensures targets == R.Targets(Node(), Elems(router.peers), id)
    {
      hide R.RouteOf, RouterOk;
      var members := Members(id);
      targets := Filter(members, localNodeId);
    }

    /** Pushes a block to the replicas of its route; a full queue drops the push. */
    method ReplicateOut(block: KvBlock) returns (submitted: seq<Peer>)
      requires Valid() && block.data == content(block.id)
      modifies this`queue
      ensures Valid()
      ensures submitted == R.Replicas(Node(), Elems(router.peers), block.id) && localNodeId !in submitted
      ensures Model() == old(Model()).(queue := R.EnqueueAll(old(Model()).queue, R.Tasks(submitted, block.id)))
    {
      hide R.RouteOf, R.Without, RouterOk, M.Inv, M.Present, R.Tasks, R.EnqueueAll, Faithful, Names, M.Readable;
      hide TieredStore.TieredStore.Valid, TieredStore.TieredStore.Model;
      var members := Members(block.id);
      submitted := [];
      if members != [] {
        submitted := Filter(members[1..], localNodeId);
      }
      queue := Submit(queue, submitted, block, content);
    }

    /** The candidate under the cursor: skip it, push it, or find no room for it. */
    method Serve() returns (progress: bool, sent: bool)
      requires Valid() && cursor < |round|
      modifies this`queue, this`cursor, store.Footprint()
      ensures Valid()
      ensures progress == !R.NoRoom(Node(), old(Model()))
      ensures Model() == if progress then R.ServeOne(Node(), old(Model())).(dispatched := 0) else old(Model())
      ensures sent <==> R.ServeOne(Node(), old(Model())).dispatched == 1 && progress
    {
      hide R.Targets, RouterOk, M.Inv, R.Tasks, M.Get, M.Present, M.Readable, Faithful, Names;
      hide TieredStore.TieredStore.Valid, TieredStore.TieredStore.Model;
      var id := round[cursor];
      var targets := TargetsOf(id);
      if targets == [] {
        cursor := cursor + 1;
        return true, false;
      }
      if |queue| + |targets| > R.QUEUE_MAX {
        return false, false;
      }
      M.GetRefines(store.cfg, content, store.Model(), id);
      M.GetKeepsReadable(store.cfg, content, store.Model(), id);
      var got := store.Get(id);
      if got == None {
        cursor := cursor + 1;
        return true, false;
      }
      var block := KvBlock(id, got.value.data, got.value.tierFound, 0);
      queue := PushAll(queue, targets, block, content);
      cursor := cursor + 1;
      return true, true;
    }

    /** One sweep: exactly the undisturbed drain of the machine. */
    method DrainReReplication()
      requires Valid()
      modifies this, store.Footprint()
      ensures Valid()
      ensures Model() == R.Drain(Node(), old(Model())).(dispatched := 0)
    {
      hide R.Targets, RouterOk, M.Inv, R.Tasks, M.Readable, R.ServeOne, R.NoRoom, R.DrainLoop, Faithful;
      hide TieredStore.TieredStore.Valid, TieredStore.TieredStore.Model;
      if !active {
        return;
      }
      var dispatched: nat := 0;
      ghost var first := Model();
      while dispatched < R.BATCH && cursor < |round|
        invariant Valid() && router.peers == old(router.peers)
        invariant round == old(round) && cursor <= |round| && active
        invariant R.DrainLoop(Node(), Model().(dispatched := dispatched)) == R.DrainLoop(Node(), first)
        decreases |round| - cursor
      {
        ghost var s := Model();
        R.LoopUnfolds(Node(), s.(dispatched := dispatched));
        R.ServeShift(Node(), s, dispatched);
        var progress, sent := Serve();
        if !progress { break; }
        if sent { dispatched := dispatched + 1; }
      }
      R.LoopUnfolds(Node(), Model().(dispatched := dispatched));
      if cursor >= |round| {
        active := false;
      }
    }

    /** The blocks of one tier whose route contains this node. */
    method InRoute(tier: Tier) returns (ids: seq<BlockId>)
      requires RouterOk() && store.Valid()
      ensures forall id :: id in ids <==>
                id in M.At(store.Model(), tier) && localNodeId in R.RouteOf(Node(), Elems(router.peers), id)
    {
      hide R.RouteOf, RouterOk, M.IsSnapshot, M.At, Ids;
      var metas := store.Snapshot(tier);
      SnapshotLists(metas, M.At(store.Model(), tier), store.Model().visited);
      ids := [];
      assert Ids(metas[..0]) == {} by { NoIds(metas); }
      for k := 0 to |metas|
        invariant forall id :: id in ids <==>
          id in Ids(metas[..k]) && localNodeId in R.RouteOf(Node(), Elems(router.peers), id)
      {
        IdsSnoc(metas, k);
        var members := Members(metas[k].id);
        if localNodeId in members {
          ids := ids + [metas[k].id];
        }
      }
      assert metas[..|metas|] == metas;
    }

    method Candidates() returns (ids: seq<BlockId>)
      requires RouterOk() && store.Valid()
      ensures forall id :: id in ids <==>
                id in M.Present(store.Model()) && localNodeId in R.RouteOf(Node(), Elems(router.peers), id)
    {
      hide R.RouteOf, RouterOk, M.At, M.Present;
      var hbm := InRoute(HBM);
      var dram := InRoute(DRAM);
      var ssd := InRoute(SSD);
      PresentMeans(store.Model());
      ids := hbm + dram + ssd;
    }

    /** After peers were lost: a new round over everything held and in-route, and a first drain at once. */
    method TriggerReReplication(lostPeers: seq<Peer>) returns (ghost candidates: seq<BlockId>)
      requires Valid()
      modifies this, store.Footprint()
      ensures Valid()
      ensures router.peers == old(router.peers)
      ensures Triggered(Node(), old(Model()), old(M.Present(store.Model())), lostPeers, candidates, Model())
    {
      hide R.RouteOf, RouterOk, R.Drain, M.Inv, Faithful, M.Present, M.Readable, Names;
      hide TieredStore.TieredStore.Valid, TieredStore.TieredStore.Model;
      candidates := [];
      if lostPeers == [] {
        return;
      }
      round := Candidates();
      candidates := round;
      cursor := 0;
      active := round != [];
      DrainReReplication();
    }
  }

  lemma SnapshotLists(metas: seq<M.BlockMeta>, m: M.Blocks, visited: set<BlockId>)
    requires M.IsSnapshot(metas, m, visited)
    ensures Ids(metas) == m.Keys
  {}

  function Ids(metas: seq<M.BlockMeta>): set<BlockId> { set i | 0 <= i < |metas| :: metas[i].id }

  lemma NoIds(metas: seq<M.BlockMeta>)
    ensures Ids(metas[..0]) == {}
  {}

  lemma IdsSnoc(metas: seq<M.BlockMeta>, k: nat)
    requires k < |metas|
    ensures Ids(metas[..k + 1]) == Ids(metas[..k]) + {metas[k].id}
  {
    forall id | id in Ids(metas[..k + 1]) ensures id in Ids(metas[..k]) + {metas[k].id} {
      var i :| 0 <= i < k + 1 && metas[..k + 1][i].id == id;
      assert i < k ==> metas[..k][i].id == id;
    }
    forall id | id in Ids(metas[..k]) + {metas[k].id} ensures id in Ids(metas[..k + 1]) {
      if id != metas[k].id {
        var i :| 0 <= i < k && metas[..k][i].id == id;
        assert metas[..k + 1][i].id == id;
      } else {
        assert metas[..k + 1][k].id == id;
      }
    }
  }

  lemma PresentMeans(s: M.State)
    ensures forall id :: id in M.Present(s) <==> id in M.At(s, HBM) || id in M.At(s, DRAM) || id in M.At(s, SSD)
  {}

  /** Every queued block carries the bytes its id stands for. */
  ghost predicate Faithful(queue: seq<ReplicateTask>, content: BlockId -> Bytes)
  {
    forall i | 0 <= i < |queue| :: queue[i].block.data == content(queue[i].block.id)
  }

  /** Pushes under the queue lock, one at a time, dropping those that find the queue full. */
  method Submit(queue: seq<ReplicateTask>, targets: seq<Peer>, block: KvBlock, ghost content: BlockId -> Bytes)
    returns (q: seq<ReplicateTask>)
    requires Faithful(queue, content) && block.data == content(block.id)
    ensures Faithful(q, content) && Names(q) == R.EnqueueAll(Names(queue), R.Tasks(targets, block.id))
  {
    hide Names, R.EnqueueAll, R.Tasks;
    q := queue;
    assert targets[0..] == targets;
    for k := 0 to |targets|
      invariant Faithful(q, content)
      invariant R.EnqueueAll(Names(q), R.Tasks(targets[k..], block.id)) ==
                R.EnqueueAll(Names(queue), R.Tasks(targets, block.id))
    {
      EnqueueFirst(q, targets[k..], block);
      assert targets[k..][1..] == targets[k + 1..];
      if |q| < R.QUEUE_MAX {
        q := q + [ReplicateTask(targets[k], block)];
      }
    }
    NothingToEnqueue(Names(q), targets[|targets|..], block.id);
  }

  lemma NothingToEnqueue(names: seq<R.Task>, targets: seq<Peer>, id: BlockId)
    requires targets == []
    ensures R.EnqueueAll(names, R.Tasks(targets, id)) == names
  {}

  lemma EnqueueFirst(q: seq<ReplicateTask>, targets: seq<Peer>, block: KvBlock)
    requires targets != []
    ensures R.EnqueueAll(Names(q), R.Tasks(targets, block.id)) ==
            R.EnqueueAll(Names(if |q| < R.QUEUE_MAX then q + [ReplicateTask(targets[0], block)] else q),
                         R.Tasks(targets[1..], block.id))
  {
    assert Names(q + [ReplicateTask(targets[0], block)]) == Names(q) + [R.Task(targets[0], block.id)];
  }

  /** All pushes of one block in a single critical section. */
  method PushAll(queue: seq<ReplicateTask>, targets: seq<Peer>, block: KvBlock, ghost content: BlockId -> Bytes)
    returns (q: seq<ReplicateTask>)
    requires Faithful(queue, content) && block.data == content(block.id)
    ensures Faithful(q, content) && Names(q) == Names(queue) + R.Tasks(targets, block.id)
  {
    var pushed: seq<ReplicateTask> := [];
    for k := 0 to |targets|
      invariant |pushed| == k && forall i | 0 <= i < k :: pushed[i] == ReplicateTask(targets[i], block)
    {
      pushed := pushed + [ReplicateTask(targets[k], block)];
    }
    q := queue + pushed;
    assert targets[..|targets|] == targets;
    NamesAppend(queue, targets, block, |targets|, pushed);
  }

  method Filter(members: seq<Peer>, self: Peer) returns (others: seq<Peer>)
    ensures others == R.Without(members, self)
  {
    others := [];
    for k := 0 to |members|
      invariant others == R.Without(members[..k], self)
    {
      WithoutSnoc(members[..k], members[k], self);
      assert members[..k + 1] == members[..k] + [members[k]];
      if members[k] != self {
        others := others + [members[k]];
      }
    }
    assert members[..|members|] == members;
  }

  lemma {:induction false} WithoutSnoc(s: seq<Peer>, q: Peer, p: Peer)
    ensures R.Without(s + [q], p) == R.Without(s, p) + if q == p then [] else [q]
  {
    if s != [] {
      assert (s + [q])[1..] == s[1..] + [q];
      WithoutSnoc(s[1..], q, p);
    } else {
      assert s + [q] == [q];
    }
  }
}
