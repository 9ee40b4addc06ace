/** The server's consistent-hash router (cache_server/src/routing.cpp). */
module Routing {
  import opened Types
  import opened SuccessorOrder
  import opened Ring

  datatype RingEntry = RingEntry(hash: U64, peerIdx: nat)

  predicate HashLe(a: RingEntry, b: RingEntry) { a.hash <= b.hash }

  /** One entry for every virtual node of each of the first `n` listed peers. */
  ghost function Entries(vh: VnodeHash, vnodes: nat, peers: seq<Peer>, n: nat): seq<RingEntry>
    requires n <= |peers|
  {
    if n == 0 then [] else Entries(vh, vnodes, peers, n - 1) + PeerEntries(vh, peers[n - 1], n - 1, vnodes)
  }

  ghost function PeerEntries(vh: VnodeHash, peer: Peer, idx: nat, k: nat): seq<RingEntry>
  {
    if k == 0 then [] else PeerEntries(vh, peer, idx, k - 1) + [RingEntry(vh(peer, k - 1), idx)]
  }

  /** `primary` is empty when nothing could be routed. */
  datatype RouteResult = RouteResult(primary: Peer, replicas: seq<Peer>)

  const NO_ROUTE := RouteResult("", [])

  /** First eight bytes of the content hash; layer, head group and model take no part. */
  function HashBlock(id: BlockId): U64 { RingTarget(id.hash) }

  /** Blocks share a ring position exactly when the first eight bytes of their hashes agree. */
  lemma OnlyTheHashRoutes(a: BlockId, b: BlockId)
    ensures HashBlock(a) == HashBlock(b) <==> a.hash[..8] == b.hash[..8]
  {
    RingTargetExact(a.hash, b.hash);
  }

  /** What `Route` has to return, as a function of the SET of peers. */
  ghost function RouteSpec(vh: VnodeHash, vnodes: nat, replicationFactor: nat, peers: set<Peer>, target: U64)
    : (route: seq<Peer>)
    ensures forall p | p in route :: p in peers
    ensures |route| == if vnodes == 0 then 0 else Min(Max(1, replicationFactor), |peers|)
  {
    if vnodes == 0 then [] else Nearest(Dist(vh, vnodes, target), peers, Max(1, replicationFactor))
  }

  lemma PrefixMembers(a: seq<Peer>, b: seq<Peer>)
    requires a <= b
    ensures forall p | p in a :: p in b
  {}

  /** Minimal disruption for routes: see SuccessorOrder.RouteAfterRemoval. */
  lemma RouteSurvivesRemoval(vh: VnodeHash, vnodes: nat, replicationFactor: nat, peers: set<Peer>,
                             survivors: set<Peer>, target: U64)
    requires NoCrossTies(vh, vnodes, peers) && survivors <= peers
    ensures var before := RouteSpec(vh, vnodes, replicationFactor, peers, target);
            var after := RouteSpec(vh, vnodes, replicationFactor, survivors, target);
            && Restrict(before, survivors) <= after
            && |after| <= |before|
            && (Restrict(before, survivors) == before ==> after == before)
            && (forall p | p in before && p in survivors :: p in after)
  {
    var before := RouteSpec(vh, vnodes, replicationFactor, peers, target);
    var after := RouteSpec(vh, vnodes, replicationFactor, survivors, target);
    if vnodes > 0 {
      RouteAfterRemoval(Dist(vh, vnodes, target), peers, survivors, Max(1, replicationFactor)) by {
        DistancesDistinct(vh, vnodes, peers, target);
      }
      PrefixMembers(Restrict(before, survivors), after);
    }
  }

  /** The entries of a ring with their indices replaced by the peers they stand for. */
  ghost function Vnodes(ring: seq<RingEntry>, peers: seq<Peer>): (vs: seq<Vnode>)
    requires forall e | e in ring :: e.peerIdx < |peers|
    ensures |vs| == |ring|
    ensures forall i | 0 <= i < |vs| :: vs[i] == Vnode(ring[i].hash, peers[ring[i].peerIdx])
  {
    seq(|ring|, i requires 0 <= i < |ring| => Vnode(ring[i].hash, peers[ring[i].peerIdx]))
  }

  ghost predicate HashSorted(ring: seq<RingEntry>)
  {
    forall i, j | 0 <= i < j < |ring| :: ring[i].hash <= ring[j].hash
  }

  /** `ring` holds an entry for every virtual node of every listed peer, and no other entry. */
  ghost predicate EntriesOf(ring: seq<RingEntry>, vh: VnodeHash, vnodes: nat, peers: seq<Peer>)
  {
    && (forall e | e in ring ::
          e.peerIdx < |peers| && exists vn | 0 <= vn < vnodes :: e.hash == vh(peers[e.peerIdx], vn))
    && (forall i, vn {:trigger RingEntry(vh(peers[i], vn), i)} | 0 <= i < |peers| && 0 <= vn < vnodes ::
          RingEntry(vh(peers[i], vn), i) in ring)
  }

  lemma EntriesExist(ring: seq<RingEntry>, vh: VnodeHash, vnodes: nat, peers: seq<Peer>)
    requires EntriesOf(ring, vh, vnodes, peers) && peers != [] && vnodes > 0
    ensures ring != []
  {
    assert RingEntry(vh(peers[0], 0), 0) in ring;
  }

  lemma SortedEntriesAreRing(ring: seq<RingEntry>, vh: VnodeHash, vnodes: nat, peers: seq<Peer>)
    requires EntriesOf(ring, vh, vnodes, peers) && HashSorted(ring)
    ensures RingOf(Vnodes(ring, peers), vh, vnodes, Elems(peers))
  {
    var vs := Vnodes(ring, peers);
    assert forall i | 0 <= i < |ring| :: ring[i] in ring;
    forall p, vn | p in Elems(peers) && 0 <= vn < vnodes ensures Vnode(vh(p, vn), p) in vs {
      var i :| 0 <= i < |peers| && peers[i] == p;
      var k :| 0 <= k < |ring| && ring[k] == RingEntry(vh(peers[i], vn), i);
      assert vs[k] == Vnode(vh(p, vn), p);
    }
  }

  /** A walk from the search point, stopped as `Route` stops it, is the route. */
  lemma RouteCorrect(ring: seq<RingEntry>, vh: VnodeHash, vnodes: nat, replicationFactor: nat, peers: seq<Peer>,
                     target: U64, lo: nat, steps: nat)
    requires EntriesOf(ring, vh, vnodes, peers) && HashSorted(ring) && ring != []
    requires SearchPoint(Vnodes(ring, peers), target, lo) && steps <= |ring|
    requires var picked := Collect(Rotate(Vnodes(ring, peers), lo % |ring|), steps);
             && |picked| <= Max(1, replicationFactor)
             && (steps == |ring| || |picked| == Max(1, replicationFactor))
    ensures var picked := Collect(Rotate(Vnodes(ring, peers), lo % |ring|), steps);
            && |picked| == Min(Max(1, replicationFactor), |Elems(peers)|) > 0
            && (NoCrossTies(vh, vnodes, Elems(peers)) ==>
                  picked == RouteSpec(vh, vnodes, replicationFactor, Elems(peers), target))
  {
    assert ring[0] in ring;
    assert peers[0] in Elems(peers);
    var vs := Vnodes(ring, peers);
    var cw := Rotate(vs, lo % |ring|);
    assert Reading(cw, vh, vnodes, Elems(peers), target) by {
      SortedEntriesAreRing(ring, vh, vnodes, peers);
      RotationIsReading(vs, vh, vnodes, Elems(peers), target, lo);
    }
    WalkEnds(cw, steps, Max(1, replicationFactor), vh, vnodes, Elems(peers), target);
  }

  class Router {
    const localNodeId: Peer
    const vnodesPerPeer: nat
    const replicationFactor: nat
    const vnodeHash: VnodeHash
    var peers: seq<Peer>
    var ring: seq<RingEntry>

    ghost predicate Valid()
      reads this
    {
      && EntriesOf(ring, vnodeHash, vnodesPerPeer, peers)
      && HashSorted(ring)
    }

    constructor (localNodeId: Peer, vnodesPerPeer: nat, replicationFactor: nat, vnodeHash: VnodeHash)
      ensures Valid() && peers == []
      ensures this.localNodeId == localNodeId && this.vnodesPerPeer == vnodesPerPeer
      ensures this.replicationFactor == replicationFactor && this.vnodeHash == vnodeHash
    {
      this.localNodeId, this.vnodesPerPeer := localNodeId, vnodesPerPeer;
      this.replicationFactor, this.vnodeHash := replicationFactor, vnodeHash;
      peers, ring := [], [];
    }

    method SetPeers(peerIds: seq<Peer>)
      modifies this
      ensures Valid() && peers == peerIds
      ensures multiset(ring) == multiset(Entries(vnodeHash, vnodesPerPeer, peerIds, |peerIds|))
    {
      var entries: seq<RingEntry> := [];
      for i := 0 to |peerIds|
        invariant EntriesOf(entries, vnodeHash, vnodesPerPeer, peerIds[..i])
        invariant entries == Entries(vnodeHash, vnodesPerPeer, peerIds, i)
      {
        entries := AddPeer(entries, peerIds, i);
      }
      assert peerIds[..|peerIds|] == peerIds;
      var sorted := SortBy(entries, HashLe);
      assert HashSorted(sorted) by {
        assert forall i, j | 0 <= i < j < |sorted| :: HashLe(sorted[i], sorted[j]);
      }
      assert forall e :: e in sorted <==> e in multiset(sorted);
      assert forall e :: e in entries <==> e in multiset(entries);
      peers, ring := peerIds, sorted;
    }

    method AddPeer(entries: seq<RingEntry>, peerIds: seq<Peer>, i: nat) returns (r: seq<RingEntry>)
      requires i < |peerIds| && EntriesOf(entries, vnodeHash, vnodesPerPeer, peerIds[..i])
      ensures EntriesOf(r, vnodeHash, vnodesPerPeer, peerIds[..i + 1])
      ensures r == entries + PeerEntries(vnodeHash, peerIds[i], i, vnodesPerPeer)
    {
      r := entries;
      for vn := 0 to vnodesPerPeer
        invariant entries <= r && r == entries + PeerEntries(vnodeHash, peerIds[i], i, vn)
        invariant forall v | 0 <= v < vn :: RingEntry(vnodeHash(peerIds[i], v), i) in r
        invariant forall e | e in r ::
          e in entries || (e.peerIdx == i && exists v | 0 <= v < vnodesPerPeer :: e.hash == vnodeHash(peerIds[i], v))
      {
        r := r + [RingEntry(vnodeHash(peerIds[i], vn), i)];
      }
      assert forall k | 0 <= k < i :: peerIds[..i][k] == peerIds[..i + 1][k];
    }

    /** Binary search for the first entry with hash >= target. */
    method Search(target: U64) returns (lo: nat)
      requires Valid()
      ensures SearchPoint(Vnodes(ring, peers), target, lo)
    {
      lo := 0;
      var hi := |ring|;
      while lo < hi
        invariant 0 <= lo <= hi <= |ring|
        invariant forall i | 0 <= i < lo :: ring[i].hash < target
        invariant forall i | hi <= i < |ring| :: ring[i].hash >= target
      {
        var mid := lo + (hi - lo) / 2;
        if ring[mid].hash < target {
          lo := mid + 1;
        } else {
          hi := mid;
        }
      }
    }

    /** Clockwise walk from index `idx`, collecting distinct peers until there are enough. */
    method Walk(idx: nat) returns (picked: seq<Peer>, ghost steps: nat)
      requires idx < |ring| && forall e | e in ring :: e.peerIdx < |peers|
      ensures steps <= |ring| && picked == Collect(Rotate(Vnodes(ring, peers), idx), steps)
      ensures |picked| <= Max(1, replicationFactor)
      ensures steps == |ring| || |picked| == Max(1, replicationFactor)
    {
      ghost var vs := Vnodes(ring, peers);
      var want := Max(1, replicationFactor);
      picked := [];
      var seen: set<Peer> := {};
      var step := 0;
      while step < |ring| && |picked| < want
        invariant 0 <= step <= |ring| && |picked| <= want && seen == Elems(picked)
        invariant picked == Collect(Rotate(vs, idx), step)
      {
        RotateAt(vs, idx, step);
        var peer := peers[ring[(idx + step) % |ring|].peerIdx];
        if peer !in seen {
          seen := seen + {peer};
          picked := picked + [peer];
        }
        step := step + 1;
      }
      steps := step;
    }

    /** The route of a block: the nearest max(1, R) distinct peers clockwise, or all there are. */
    method Route(id: BlockId) returns (out: RouteResult)
      requires Valid()
      ensures peers == [] || vnodesPerPeer == 0 ==> out == NO_ROUTE
      ensures peers != [] && vnodesPerPeer > 0 ==>
                |[out.primary] + out.replicas| == Min(Max(1, replicationFactor), |Elems(peers)|)
      ensures peers != [] && vnodesPerPeer > 0 && NoCrossTies(vnodeHash, vnodesPerPeer, Elems(peers)) ==>
                [out.primary] + out.replicas ==
                RouteSpec(vnodeHash, vnodesPerPeer, replicationFactor, Elems(peers), HashBlock(id))
    {
      if ring == [] || peers == [] {
        if peers != [] && vnodesPerPeer > 0 {
          EntriesExist(ring, vnodeHash, vnodesPerPeer, peers);
          assert false;
        }
        return NO_ROUTE;
      }
      var target := HashBlock(id);
      var lo := Search(target);
      var picked, steps := Walk(lo % |ring|);
      RouteCorrect(ring, vnodeHash, vnodesPerPeer, replicationFactor, peers, target, lo, steps);
      out := RouteResult(picked[0], picked[1..]);
      assert [out.primary] + out.replicas == picked;
    }
  }
}
