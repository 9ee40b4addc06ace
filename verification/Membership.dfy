/** The membership object (cache_server/src/membership.cpp), proved against FailureDetector. */
module Membership {
  import opened Types
  import opened Collections
  import D = FailureDetector
  import SuccessorOrder
  import Routing
  import Replicator
  import M = TieredModel
  import TieredStore

  /** One line of a heartbeat reply. */
  datatype PeerStatus = PeerStatus(nodeId: Peer, lastSeenEpoch: nat, suspected: bool)
  datatype HeartbeatReply = HeartbeatReply(alivePeers: seq<PeerStatus>, clusterEpoch: nat)

  /** One line for each alive peer and no other. */
  ghost predicate Lists(lines: seq<PeerStatus>, peers: map<Peer, D.PeerInfo>)
  {
    && (forall i, j | 0 <= i < j < |lines| :: lines[i].nodeId != lines[j].nodeId)
    && (forall i | 0 <= i < |lines| :: var p := lines[i].nodeId;
          p in peers && peers[p].alive && lines[i] == PeerStatus(p, peers[p].lastSeenEpoch, peers[p].suspected))
    && (forall p | p in peers && peers[p].alive :: exists i | 0 <= i < |lines| :: lines[i].nodeId == p)
  }

  class Membership {
    const cfg: D.Config
    const localNodeId: Peer
    const router: Routing.Router
    const replicator: Replicator.Replicator?
    ghost const everyone: set<Peer>  // all node ids that may ever turn up
    var peers: map<Peer, D.PeerInfo>
    var epoch: nat

    ghost function Model(): D.State
      reads this, router
    {
      D.State(localNodeId, peers, epoch, SuccessorOrder.Elems(router.peers))
    }

    ghost function Frame(): set<object>
    {
      if replicator != null then {replicator} + replicator.store.Footprint() else {}
    }

    /** The replicator, if there is one, shares this node's router, and no two nodes share a ring position. */
    ghost predicate Wired()
      reads this, router, Frame()
    {
      && router.Valid()
      && (replicator != null ==>
            && replicator.router == router && replicator.localNodeId == localNodeId
            && this !in replicator.store.Footprint() && replicator.Valid()
            && peers.Keys + {localNodeId} <= everyone && "" !in everyone
            && SuccessorOrder.NoCrossTies(router.vnodeHash, router.vnodesPerPeer, everyone))
    }

    /** Seed peers start alive but never seen. */
    constructor (cfg: D.Config, localNodeId: Peer, seeds: seq<Peer>, router: Routing.Router,
                 replicator: Replicator.Replicator?, now: int, ghost everyone: set<Peer>)
      ensures this.cfg == cfg && this.localNodeId == localNodeId && this.router == router
              && router.peers == old(router.peers)
      ensures this.replicator == replicator && this.everyone == everyone
      ensures Model() ==
              D.Start(localNodeId, SuccessorOrder.Elems(seeds), now).(ring := SuccessorOrder.Elems(router.peers))
    {
      this.cfg, this.localNodeId, this.router, epoch := cfg, localNodeId, router, 0;
      this.replicator, this.everyone := replicator, everyone;
      var table: map<Peer, D.PeerInfo> := map[];
      for k := 0 to |seeds|
        invariant table == map p | p in SuccessorOrder.Elems(seeds[..k]) :: D.PeerInfo(now, 0, false, true, false)
      {
        assert SuccessorOrder.Elems(seeds[..k + 1]) == SuccessorOrder.Elems(seeds[..k]) + {seeds[k]};
        if seeds[k] !in table {
          table := table[seeds[k] := D.PeerInfo(now, 0, false, true, false)];
        }
      }
      assert seeds[..|seeds|] == seeds;
      peers := table;
    }

    method JudgeOne(info: D.PeerInfo, now: int) returns (next: D.PeerInfo)
      ensures next == D.Judge(cfg, info, now)
    {
      next := info;
      if info.alive && info.everSeen {
        var since := now - info.lastSeen;
        if since > cfg.deadAfter {
          next := info.(alive := false, suspected := true);
        } else if since > cfg.suspectAfter {
          next := info.(suspected := true);
        } else {
          next := info.(suspected := false);
        }
      }
    }

    /** Judges every other alive peer that has ever been heard from; returns the newly dead. */
    method EvaluateSuspicions(now: int) returns (newlyDead: seq<Peer>)
      modifies this`peers
      ensures peers == D.JudgeAll(cfg, old(Model()), now) && peers.Keys == old(peers.Keys)
      ensures SuccessorOrder.Elems(newlyDead) == D.Died(old(peers), peers)
    {
      hide D.Judge;
      newlyDead := [];
      var order := Enumerate(peers.Keys);
      ghost var was := peers;
      for k := 0 to |order|
        invariant peers.Keys == was.Keys
        invariant forall p | p in was ::
          peers[p] == if p in order[..k] && p != localNodeId then D.Judge(cfg, was[p], now) else was[p]
        invariant forall p :: p in newlyDead <==> p in order[..k] && was[p].alive && !peers[p].alive
      {
        var id := order[k];
        assert id in order && id !in order[..k] && order[..k + 1] == order[..k] + [id];
        if id != localNodeId {
          var next := JudgeOne(peers[id], now);
          if peers[id].alive && !next.alive {
            newlyDead := newlyDead + [id];
          }
          peers := peers[id := next];
        }
      }
      assert order[..|order|] == order;
    }

    lemma NewRingOk()
      requires replicator != null && replicator.router == router && router.Valid()
               && router.localNodeId == replicator.localNodeId
      requires SuccessorOrder.Elems(router.peers) <= everyone && "" !in everyone
      requires SuccessorOrder.NoCrossTies(router.vnodeHash, router.vnodesPerPeer, everyone)
      ensures replicator.RouterOk()
    {
      assert forall p :: p in router.peers <==> p in SuccessorOrder.Elems(router.peers);
    }

    /** This node and its alive peers. */
    method AliveIds() returns (aliveIds: seq<Peer>)
      ensures SuccessorOrder.Elems(aliveIds) == D.View(Model())
    {
      aliveIds := [localNodeId];
      var order := Enumerate(peers.Keys);
      for k := 0 to |order|
        invariant forall p :: p in aliveIds <==> p == localNodeId || (p in order[..k] && peers[p].alive)
      {
        assert order[k] in order && order[..k + 1] == order[..k] + [order[k]];
        if peers[order[k]].alive {
          aliveIds := aliveIds + [order[k]];
        }
      }
      assert order[..|order|] == order;
    }

    /**
     Bumps the epoch, rebuilds the ring over this node and the alive peers, and, if peers were lost,
     starts re-replication on the new ring.
     */
    method OnMembershipChange(lost: seq<Peer>) returns (ghost candidates: seq<BlockId>)
      requires Wired()
      modifies this`epoch, router, Frame()
      ensures Wired() && Model() == D.OnMembershipChange(old(Model()))
      ensures replicator != null ==>
                Replicator.Triggered(replicator.Node(), old(replicator.Model()).(ring := Model().ring),
                                     old(M.Present(replicator.store.Model())), lost, candidates, replicator.Model())
    {
      hide Replicator.Replicator.Valid, Replicator.Replicator.Model, Replicator.Triggered, SuccessorOrder.NoCrossTies;
      hide Routing.Router.Valid, Replicator.Replicator.RouterOk, TieredStore.TieredStore.Model, M.Present;
      candidates := [];
      if replicator != null {
        replicator.Separate();
      }
      epoch := epoch + 1;
      var aliveIds := AliveIds();
      router.SetPeers(aliveIds);
      if replicator != null {
        NewRingOk();
        replicator.RingChanged();
        candidates := replicator.TriggerReReplication(lost);
      }
    }

    /** A membership change that lost nobody. */
    method ChangeRing()
      requires Wired()
      modifies this`epoch, router, Frame()
      ensures Wired() && Model() == D.OnMembershipChange(old(Model()))
      ensures replicator != null ==> replicator.Model() == old(replicator.Model()).(ring := Model().ring)
    {
      hide Replicator.Replicator.Valid, Replicator.Replicator.Model, Replicator.Triggered, SuccessorOrder.NoCrossTies;
      hide Routing.Router.Valid, Replicator.Replicator.RouterOk, TieredStore.TieredStore.Model, M.Present;
      if replicator != null {
        replicator.RingField();
      }
      ghost var candidates := OnMembershipChange([]);
      if replicator != null {
        Replicator.NothingTriggered(replicator.Node(), old(replicator.Model()).(ring := Model().ring),
                                    old(M.Present(replicator.store.Model())), candidates, replicator.Model());
      }
    }

    /** One turn of the heartbeat loop after the replies are in. */
    method Tick(now: int) returns (lost: seq<Peer>, ghost candidates: seq<BlockId>)
      requires Wired()
      modifies this, router, Frame()
      ensures Wired() && Model() == D.Step(cfg, old(Model()), D.Tick(now))
      ensures SuccessorOrder.Elems(lost) == D.Died(old(peers), peers)
      ensures replicator != null ==>
                Replicator.Triggered(replicator.Node(), old(replicator.Model()).(ring := Model().ring),
                                     old(M.Present(replicator.store.Model())), lost, candidates, replicator.Model())
    {
      hide Replicator.Replicator.Valid, Replicator.Replicator.Model, Replicator.Triggered, SuccessorOrder.NoCrossTies;
      hide Routing.Router.Valid, Replicator.Replicator.RouterOk, TieredStore.TieredStore.Model, M.Present;
      hide D.Judge, D.JudgeAll, D.View;
      lost := EvaluateSuspicions(now);
      candidates := [];
      if lost != [] {
        assert lost[0] in SuccessorOrder.Elems(lost);
        candidates := OnMembershipChange(lost);
      } else if replicator != null {
        replicator.RingField();
        Replicator.NothingTriggered(replicator.Node(), replicator.Model(), M.Present(replicator.store.Model()), [],
                                    replicator.Model());
      }
    }

    /** The peers that answered this round's heartbeats; a revival changes the ring but starts no round. */
    method OnReplies(now: int, succeeded: seq<Peer>)
      requires Wired() && localNodeId !in succeeded
      modifies this, router, Frame()
      ensures Wired()
      ensures Model() == D.Step(cfg, old(Model()), D.Replies(now, SuccessorOrder.Elems(succeeded)))
      ensures replicator != null ==> replicator.Model() == old(replicator.Model()).(ring := Model().ring)
    {
      hide Replicator.Replicator.Valid, Replicator.Replicator.Model, Replicator.Triggered, SuccessorOrder.NoCrossTies;
      hide Routing.Router.Valid, Replicator.Replicator.RouterOk, TieredStore.TieredStore.Model, M.Present;
      hide D.RefreshAll;
      var revived := Refresh(now, succeeded);
      if replicator != null {
        replicator.RingField();
      }
      if revived {
        ChangeRing();
      }
    }

    method Refresh(now: int, succeeded: seq<Peer>) returns (revived: bool)
      requires localNodeId !in succeeded
      modifies this`peers
      ensures peers == D.RefreshAll(old(Model()), SuccessorOrder.Elems(succeeded), now)
      ensures peers.Keys == old(peers.Keys) && (revived <==> D.Died(peers, old(peers)) != {})
    {
      var resurrected: seq<Peer> := [];
      ghost var was := peers;
      for k := 0 to |succeeded|
        invariant peers.Keys == was.Keys
        invariant forall p | p in was ::
          peers[p] == if p in succeeded[..k] then D.Refresh(was[p], now, epoch) else was[p]
        invariant forall p :: p in resurrected <==> p in was && !was[p].alive && peers[p].alive
      {
        var id := succeeded[k];
        assert succeeded[..k + 1] == succeeded[..k] + [id];
        if id in peers {
          var info := peers[id];
          peers := peers[id := info.(lastSeen := now, lastSeenEpoch := epoch, suspected := false, everSeen := true)];
          if !info.alive {
            peers := peers[id := peers[id].(alive := true)];
            resurrected := resurrected + [id];
          }
        }
      }
      assert succeeded[..|succeeded|] == succeeded;
      assert forall p :: p in resurrected <==> p in D.Died(peers, was);
      revived := resurrected != [];
      if revived {
        assert resurrected[0] in D.Died(peers, was);
      }
    }

    /** An incoming heartbeat; a peer that was believed dead comes back. */
    method OnHeartbeat(now: int, peerId: Peer) returns (reply: HeartbeatReply)
      requires Wired() && (replicator != null ==> peerId in everyone)
      modifies this, router, Frame()
      ensures Wired() && Model() == D.Step(cfg, old(Model()), D.Heartbeat(now, peerId))
      ensures reply.clusterEpoch == old(epoch) && Lists(reply.alivePeers, peers)
      ensures replicator != null ==> replicator.Model() == old(replicator.Model()).(ring := Model().ring)
    {
      hide Replicator.Replicator.Valid, Replicator.Replicator.Model, Replicator.Triggered, SuccessorOrder.NoCrossTies;
      hide Routing.Router.Valid, Replicator.Replicator.RouterOk, TieredStore.TieredStore.Model, M.Present;
      hide Lists;
      if peerId !in peers {
        peers := peers[peerId := D.NEW_PEER];
      }
      var wasDead := !peers[peerId].alive;
      peers := peers[peerId := D.Refresh(peers[peerId], now, epoch)];
      var lines := AliveLines();
      reply := HeartbeatReply(lines, epoch);
      if replicator != null {
        replicator.RingField();
      }
      if wasDead {
        ChangeRing();
      }
    }

    method AliveLines() returns (lines: seq<PeerStatus>)
      ensures Lists(lines, peers)
    {
      lines := [];
      var order := Enumerate(peers.Keys);
      for k := 0 to |order|
        invariant forall i, j | 0 <= i < j < |lines| :: lines[i].nodeId != lines[j].nodeId
        invariant forall i | 0 <= i < |lines| ::
          var p := lines[i].nodeId;
          && p in order[..k] && p in peers && peers[p].alive
          && lines[i] == PeerStatus(p, peers[p].lastSeenEpoch, peers[p].suspected)
        invariant forall p | p in order[..k] && peers[p].alive :: exists i | 0 <= i < |lines| :: lines[i].nodeId == p
      {
        var p := order[k];
        assert p in order && p !in order[..k] && order[..k + 1] == order[..k] + [p];
        if peers[p].alive {
          ghost var before := lines;
          lines := lines + [PeerStatus(p, peers[p].lastSeenEpoch, peers[p].suspected)];
          assert lines[|before|].nodeId == p;
          assert forall i | 0 <= i < |before| :: lines[i] == before[i];
        }
      }
      assert order[..|order|] == order;
    }
  }
}
