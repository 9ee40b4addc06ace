/** The client's mirror of the server ring (client/lethe_client/routing.py). */
module ClientRouting {
  import opened Types
  import opened SuccessorOrder
  import opened Ring
  import opened Routing

  /** How Python orders strings: by code point, a prefix first. */
  predicate StringLe(a: string, b: string)
  {
    a == [] || (b != [] && (a[0] < b[0] || (a[0] == b[0] && StringLe(a[1..], b[1..]))))
  }

  lemma {:induction false} StringTotal(a: string, b: string)
    ensures StringLe(a, b) || StringLe(b, a)
  {
    if a != [] && b != [] {
      StringTotal(a[1..], b[1..]);
    }
  }

  lemma {:induction false} StringTransitive(a: string, b: string, c: string)
    requires StringLe(a, b) && StringLe(b, c)
    ensures StringLe(a, c)
  {
    if a != [] && a[0] == b[0] == c[0] {
      StringTransitive(a[1..], b[1..], c[1..]);
    }
  }

  /** How Python orders the pairs of the ring: by hash, then by peer. */
  predicate PairLe(a: Vnode, b: Vnode) { a.hash < b.hash || (a.hash == b.hash && StringLe(a.peer, b.peer)) }

  lemma PairOrder()
    ensures TotalOrder(PairLe)
  {
    forall a, b ensures PairLe(a, b) || PairLe(b, a) {
      StringTotal(a.peer, b.peer);
    }
    forall a, b, c | PairLe(a, b) && PairLe(b, c) ensures PairLe(a, c) {
      if a.hash == b.hash == c.hash {
        StringTransitive(a.peer, b.peer, c.peer);
      }
    }
  }

  /** One pair for every virtual node of each of the first `n` listed peers. */
  ghost function Pairs(vh: VnodeHash, vnodes: nat, peers: seq<Peer>, n: nat): seq<Vnode>
    requires n <= |peers|
  {
    if n == 0 then [] else Pairs(vh, vnodes, peers, n - 1) + PeerPairs(vh, peers[n - 1], vnodes)
  }

  ghost function PeerPairs(vh: VnodeHash, peer: Peer, k: nat): seq<Vnode>
  {
    if k == 0 then [] else PeerPairs(vh, peer, k - 1) + [Vnode(vh(peer, k - 1), peer)]
  }

  /** How many peers the client's loop collects when it stops: the two guards together. */
  function Wanted(nReplicas: int, vnodes: nat): nat { Max(0, Min(nReplicas, 32 * vnodes)) }

  /** The two loop conditions, one of them no longer met. */
  predicate Exits(out: seq<Peer>, nReplicas: int, vnodes: nat) { |out| >= nReplicas || |Elems(out)| >= vnodes * 32 }

  /** The loop's list and index after any number of turns, whether or not it would have stopped. */
  function Turns(ring: seq<Vnode>, idx: nat, k: nat): (r: (seq<Peer>, nat))
    requires idx < |ring|
    ensures r.1 < |ring|
  {
    if k == 0 then ([], idx) else
      var (out, i) := Turns(ring, idx, k - 1);
      (if ring[i].peer in out then out else out + [ring[i].peer], (i + 1) % |ring|)
  }

  lemma {:induction false} TurnsDistinct(ring: seq<Vnode>, idx: nat, k: nat, peers: set<Peer>)
    requires idx < |ring| && forall v | v in ring :: v.peer in peers
    ensures var out := Turns(ring, idx, k).0; Elems(out) <= peers && |out| == |Elems(out)| <= |peers|
  {
    if k > 0 {
      TurnsDistinct(ring, idx, k - 1, peers);
      var (out, i) := Turns(ring, idx, k - 1);
      assert ring[i] in ring;
      ElemsSnoc(out, ring[i].peer);
    } else {
      assert Elems([]) == {};
    }
    SubsetSize(Elems(Turns(ring, idx, k).0), peers);
  }

  lemma ElemsSnoc(s: seq<Peer>, p: Peer)
    ensures Elems(s + [p]) == Elems(s) + {p} && (p in Elems(s) <==> p in s)
  {}

  /** The first lap reads the ring clockwise. */
  lemma {:induction false} FirstLap(ring: seq<Vnode>, idx: nat, k: nat)
    requires idx < |ring| && k <= |ring|
    ensures Turns(ring, idx, k) ==
            (Collect(Rotate(ring, idx), k), if idx + k < |ring| then idx + k else idx + k - |ring|)
  {
    if k > 0 {
      FirstLap(ring, idx, k - 1);
      ModOnce(Turns(ring, idx, k - 1).1 + 1, |ring|);
    }
  }

  lemma {:induction false} CollectHas(cw: seq<Vnode>, k: nat, i: nat)
    requires i < k <= |cw|
    ensures cw[i].peer in Collect(cw, k)
  {
    if i < k - 1 {
      CollectHas(cw, k - 1, i);
    }
  }

  /** After one lap the list never changes again. */
  lemma {:induction false} Settled(ring: seq<Vnode>, idx: nat, k: nat)
    requires idx < |ring| <= k
    ensures Turns(ring, idx, k).0 == Collect(Rotate(ring, idx), |ring|)
  {
    var cw := Rotate(ring, idx);
    if k == |ring| {
      FirstLap(ring, idx, k);
    } else {
      Settled(ring, idx, k - 1);
      var v := ring[Turns(ring, idx, k - 1).1];
      assert v in cw;
      var i :| 0 <= i < |cw| && cw[i] == v;
      CollectHas(cw, |cw|, i);
    }
  }

  /**
   The loop comes to an end if and only if it wants no more peers than there are. Asked for more it
   circles the ring for ever.
   */
  lemma LoopEndsIff(ring: seq<Vnode>, idx: nat, nReplicas: int, vh: VnodeHash, vnodes: nat, peers: set<Peer>)
    requires RingOf(ring, vh, vnodes, peers) && idx < |ring|
    ensures (exists k: nat :: Exits(Turns(ring, idx, k).0, nReplicas, vnodes)) <==> Wanted(nReplicas, vnodes) <= |peers|
  {
    assert forall v | v in ring :: v.peer in peers;
    OneLapMeetsAll(ring, idx, vh, vnodes, peers);
    TurnsDistinct(ring, idx, |ring|, peers);
    hide RingOf, Turns, Elems;
    if Wanted(nReplicas, vnodes) <= |peers| {
      assert Exits(Turns(ring, idx, |ring|).0, nReplicas, vnodes);
    } else {
      forall k: nat ensures !Exits(Turns(ring, idx, k).0, nReplicas, vnodes) {
        TurnsDistinct(ring, idx, k, peers);
      }
    }
  }

  lemma OneLapMeetsAll(ring: seq<Vnode>, idx: nat, vh: VnodeHash, vnodes: nat, peers: set<Peer>)
    requires RingOf(ring, vh, vnodes, peers) && idx < |ring|
    ensures Elems(Turns(ring, idx, |ring|).0) == peers
  {
    assert ring[0] in ring && vnodes > 0;
    TurnsDistinct(ring, idx, |ring|, peers);
    FirstLap(ring, idx, |ring|);
    var cw := Rotate(ring, idx);
    forall p | p in peers ensures p in Elems(Collect(cw, |ring|)) {
      assert Vnode(vh(p, 0), p) in cw;
      var i :| 0 <= i < |cw| && cw[i] == Vnode(vh(p, 0), p);
      CollectHas(cw, |cw|, i);
    }
  }

  class HashRing {
    const vnodesPerPeer: nat
    const vnodeHash: VnodeHash
    var ring: seq<Vnode>
    ghost var peers: set<Peer>

    ghost predicate Valid()
      reads this
    {
      RingOf(ring, vnodeHash, vnodesPerPeer, peers) && SortedBy(ring, PairLe)
    }

    constructor (peerIds: seq<Peer>, vnodesPerPeer: nat, vnodeHash: VnodeHash)
      ensures Valid() && peers == Elems(peerIds)
      ensures this.vnodesPerPeer == vnodesPerPeer && this.vnodeHash == vnodeHash
    {
      this.vnodesPerPeer, this.vnodeHash := vnodesPerPeer, vnodeHash;
      new;
      SetPeers(peerIds);
    }

    method SetPeers(peerIds: seq<Peer>)
      modifies this
      ensures Valid() && peers == Elems(peerIds)
      ensures multiset(ring) == multiset(Pairs(vnodeHash, vnodesPerPeer, peerIds, |peerIds|))
    {
      hide TotalOrder, SortedBy, RingOf, NodesOf, PeerPairs, PairLe;
      var nodes: seq<Vnode> := [];
      NoNodes(vnodeHash, vnodesPerPeer, peerIds[..0]);
      for i := 0 to |peerIds|
        invariant NodesOf(nodes, vnodeHash, vnodesPerPeer, Elems(peerIds[..i]))
        invariant nodes == Pairs(vnodeHash, vnodesPerPeer, peerIds, i)
      {
        nodes := AddPeer(nodes, peerIds[i], Elems(peerIds[..i]));
        assert Elems(peerIds[..i + 1]) == Elems(peerIds[..i]) + {peerIds[i]};
      }
      assert peerIds[..|peerIds|] == peerIds;
      PairOrder();
      ring := SortBy(nodes, PairLe);
      peers := Elems(peerIds);
      SortedPairsAreRing(ring, nodes, vnodeHash, vnodesPerPeer, peers);
    }

    method AddPeer(nodes: seq<Vnode>, peer: Peer, ghost before: set<Peer>) returns (r: seq<Vnode>)
      requires NodesOf(nodes, vnodeHash, vnodesPerPeer, before)
      ensures NodesOf(r, vnodeHash, vnodesPerPeer, before + {peer})
      ensures r == nodes + PeerPairs(vnodeHash, peer, vnodesPerPeer)
    {
      r := nodes;
      for vn := 0 to vnodesPerPeer
        invariant nodes <= r && r == nodes + PeerPairs(vnodeHash, peer, vn)
        invariant forall k | 0 <= k < vn :: Vnode(vnodeHash(peer, k), peer) in r
        invariant forall v | v in r ::
          v in nodes || (v.peer == peer && exists k | 0 <= k < vnodesPerPeer :: v.hash == vnodeHash(peer, k))
      {
        r := r + [Vnode(vnodeHash(peer, vn), peer)];
      }
    }

    method Search(target: U64) returns (lo: nat)
      requires Valid()
      ensures SearchPoint(ring, target, lo)
    {
      lo := 0;
      var hi := |ring|;
      while lo < hi
        invariant 0 <= lo <= hi <= |ring|
        invariant forall i | 0 <= i < lo :: ring[i].hash < target
        invariant forall i | hi <= i < |ring| :: ring[i].hash >= target
      {
        var mid := (lo + hi) / 2;
        if ring[mid].hash < target {
          lo := mid + 1;
        } else {
          hi := mid;
        }
      }
    }

    /**
     The route for a block hash. The precondition is what the loop needs to stop: its guards count
     distinct peers, so with too few of them it circles the ring for ever (see LoopEndsIff).
     */
    method Route(blockHash: Hash256, nReplicas: int) returns (out: seq<Peer>)
      requires Valid()
      requires ring != [] ==> Wanted(nReplicas, vnodesPerPeer) <= |peers|
      ensures ring == [] ==> out == []
      ensures ring != [] ==> |out| == Wanted(nReplicas, vnodesPerPeer)
      ensures ring != [] && NoCrossTies(vnodeHash, vnodesPerPeer, peers) ==>
                vnodesPerPeer > 0 &&
                out == Nearest(Dist(vnodeHash, vnodesPerPeer, RingTarget(blockHash)), peers,
                               Wanted(nReplicas, vnodesPerPeer))
    {
      if ring == [] {
        return [];
      }
      assert ring[0] in ring;
      var target := RingTarget(blockHash);
      var lo := Search(target);
      ghost var steps;
      RotationIsReading(ring, vnodeHash, vnodesPerPeer, peers, target, lo);
      WalkCount(Rotate(ring, lo % |ring|), |ring|, vnodeHash, vnodesPerPeer, peers, target);
      out, steps := Walk(lo % |ring|, nReplicas);
      WalkEnds(Rotate(ring, lo % |ring|), steps, |out|, vnodeHash, vnodesPerPeer, peers, target);
    }

    /** The loop stops after the first turn that meets one of its conditions. */
    method Walk(idx: nat, nReplicas: int) returns (out: seq<Peer>, ghost steps: nat)
      requires idx < |ring|
      requires Wanted(nReplicas, vnodesPerPeer) <= |Collect(Rotate(ring, idx), |ring|)|
      ensures out == Turns(ring, idx, steps).0 && Exits(out, nReplicas, vnodesPerPeer)
      ensures forall k | 0 <= k < steps :: !Exits(Turns(ring, idx, k).0, nReplicas, vnodesPerPeer)
      ensures steps <= |ring| && out == Collect(Rotate(ring, idx), steps)
      ensures |out| == Wanted(nReplicas, vnodesPerPeer)
    {
      hide Rotate, Collect, Elems, Turns, Exits, Wanted;
      assert Elems([]) == {} by { NoElems(); }
      TurnsNext(ring, idx, 0);
      FirstLap(ring, idx, |ring|);
      out := [];
      var seen: set<Peer> := {};
      var i := idx;
      steps := 0;
      while |out| < nReplicas && |seen| < vnodesPerPeer * 32
        invariant 0 <= steps <= |ring| && seen == Elems(out) && |seen| == |out|
        invariant (out, i) == Turns(ring, idx, steps)
        invariant forall k | 0 <= k < steps :: !Exits(Turns(ring, idx, k).0, nReplicas, vnodesPerPeer)
        invariant |out| <= Wanted(nReplicas, vnodesPerPeer)
        decreases |ring| - steps
      {
        ElemsSnoc(out, ring[i].peer);
        TurnsNext(ring, idx, steps);
        GoesOn(out, nReplicas, vnodesPerPeer);
        var peer := ring[i].peer;
        if peer !in seen {
          out := out + [peer];
          seen := seen + {peer};
        }
        i := (i + 1) % |ring|;
        steps := steps + 1;
      }
      FirstLap(ring, idx, steps);
      ComesToAnEnd(out, nReplicas, vnodesPerPeer);
    }
  }

  lemma TurnsNext(ring: seq<Vnode>, idx: nat, k: nat)
    requires idx < |ring|
    ensures var (out, i) := Turns(ring, idx, k);
            Turns(ring, idx, k + 1) == (if ring[i].peer in out then out else out + [ring[i].peer], (i + 1) % |ring|)
    ensures Turns(ring, idx, 0) == ([], idx)
  {}

  lemma GoesOn(out: seq<Peer>, nReplicas: int, vnodes: nat)
    requires |out| < nReplicas && |Elems(out)| == |out| < vnodes * 32
    ensures !Exits(out, nReplicas, vnodes) && |out| < Wanted(nReplicas, vnodes)
  {}

  lemma ComesToAnEnd(out: seq<Peer>, nReplicas: int, vnodes: nat)
    requires |out| >= nReplicas || |Elems(out)| >= vnodes * 32
    requires |Elems(out)| == |out| <= Wanted(nReplicas, vnodes)
    ensures Exits(out, nReplicas, vnodes) && |out| == Wanted(nReplicas, vnodes)
  {}

  lemma SortedPairsAreRing(ring: seq<Vnode>, nodes: seq<Vnode>, vh: VnodeHash, vnodes: nat, peers: set<Peer>)
    requires NodesOf(nodes, vh, vnodes, peers) && multiset(ring) == multiset(nodes) && SortedBy(ring, PairLe)
    ensures RingOf(ring, vh, vnodes, peers)
  {
    assert forall v :: v in ring <==> v in multiset(ring);
    assert forall v :: v in nodes <==> v in multiset(nodes);
    assert forall i, j | 0 <= i < j < |ring| :: PairLe(ring[i], ring[j]);
  }

  lemma NoNodes(vh: VnodeHash, vnodes: nat, none: seq<Peer>)
    requires none == []
    ensures NodesOf([], vh, vnodes, Elems(none))
  {}

  lemma NoElems()
    ensures Elems([]) == {}
  {}

  /** `nodes` holds exactly the virtual nodes of `peers`, in any order. */
  ghost predicate NodesOf(nodes: seq<Vnode>, vh: VnodeHash, vnodes: nat, peers: set<Peer>)
  {
    && (forall v | v in nodes :: v.peer in peers && exists vn | 0 <= vn < vnodes :: v.hash == vh(v.peer, vn))
    && (forall p, vn {:trigger Vnode(vh(p, vn), p)} | p in peers && 0 <= vn < vnodes :: Vnode(vh(p, vn), p) in nodes)
  }

  /**
   Whenever the client loop ends, client and server agree exactly when the client asks for at least one
   peer, and for at most 32 * vnodes unless there are just that many. Otherwise they differ for every
   ring and every block: asked for none the client returns none where the server still returns a
   primary, and past 32 * vnodes the client stops early.
   */
  lemma ClientMatchesServer(vh: VnodeHash, vnodes: nat, n: nat, peers: set<Peer>, target: U64)
    requires vnodes > 0 && peers != {} && Wanted(n, vnodes) <= |peers|
    ensures Nearest(Dist(vh, vnodes, target), peers, Wanted(n, vnodes)) == RouteSpec(vh, vnodes, n, peers, target)
            <==> 1 <= n && (n <= 32 * vnodes || |peers| == 32 * vnodes)
  {
    assert |peers| >= 1;
  }
}
