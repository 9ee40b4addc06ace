/**
 The virtual-node ring both routers build, and why walking it clockwise visits peers in
 successor order. Shared by the server's Router and the client's HashRing.
 */
module Ring {
  import opened Types
  import opened SuccessorOrder

  datatype Vnode = Vnode(hash: U64, peer: Peer)

  ghost predicate TotalOrder<T(!new)>(le: (T, T) -> bool)
  {
    && (forall a, b :: le(a, b) || le(b, a))
    && (forall a, b, c :: le(a, b) && le(b, c) ==> le(a, c))
  }

  ghost predicate SortedBy<T(!new)>(s: seq<T>, le: (T, T) -> bool)
  {
    forall i, j | 0 <= i < j < |s| :: le(s[i], s[j])
  }

  /** A sort that promises only what `std::sort` does: ordered, same elements, ties in any order. */
  method SortBy<T(!new)>(s: seq<T>, le: (T, T) -> bool) returns (r: seq<T>)
    requires TotalOrder(le)
    ensures multiset(r) == multiset(s)
    ensures SortedBy(r, le)
  {
    r := [];
    assert SortedBy(r, le);
    hide SortedBy, TotalOrder;
    for n := 0 to |s|
      invariant multiset(r) == multiset(s[..n])
      invariant SortedBy(r, le)
    {
      r := InsertBy(r, s[n], le);
      assert s[..n + 1] == s[..n] + [s[n]];
    }
    assert s[..|s|] == s;
  }

  method InsertBy<T(!new)>(s: seq<T>, x: T, le: (T, T) -> bool) returns (r: seq<T>)
    requires TotalOrder(le) && SortedBy(s, le)
    ensures multiset(r) == multiset(s) + multiset{x}
    ensures SortedBy(r, le)
  {
    var k := |s|;
    while k > 0 && !le(s[k - 1], x)
      invariant 0 <= k <= |s|
      invariant forall i | k <= i < |s| :: le(x, s[i])
    {
      k := k - 1;
    }
    assert forall i | 0 <= i < k :: le(s[i], x);
    InsertionOrdered(s[..k], x, s[k..], le);
    assert s == s[..k] + s[k..];
    r := s[..k] + [x] + s[k..];
  }

  lemma InsertionOrdered<T(!new)>(a: seq<T>, x: T, b: seq<T>, le: (T, T) -> bool)
    requires TotalOrder(le) && SortedBy(a, le) && SortedBy(b, le)
    requires forall i | 0 <= i < |a| :: le(a[i], x)
    requires forall i | 0 <= i < |b| :: le(x, b[i])
    ensures SortedBy(a + [x] + b, le)
  {
    var r := a + [x] + b;
    forall i, j | 0 <= i < j < |r| ensures le(r[i], r[j]) {
      if i < |a| {
        assert r[i] == a[i];
      }
      if j > |a| {
        assert r[j] == b[j - |a| - 1];
      }
      if i > |a| {
        assert r[i] == b[i - |a| - 1];
      }
    }
  }

  /** `vs` holds exactly the virtual nodes of `peers`, in hash order. */
  ghost predicate RingOf(vs: seq<Vnode>, vh: VnodeHash, vnodes: nat, peers: set<Peer>)
  {
    && (forall i, j | 0 <= i < j < |vs| :: vs[i].hash <= vs[j].hash)
    && (forall v | v in vs :: v.peer in peers && exists vn | 0 <= vn < vnodes :: v.hash == vh(v.peer, vn))
    && (forall p, vn {:trigger Vnode(vh(p, vn), p)} | p in peers && 0 <= vn < vnodes :: Vnode(vh(p, vn), p) in vs)
  }

  /** The ring read clockwise starting at index `idx`. */
  function Rotate(s: seq<Vnode>, idx: nat): (r: seq<Vnode>)
    requires idx <= |s|
    ensures |r| == |s|
    ensures forall x :: x in r <==> x in s
  {
    assert s == s[..idx] + s[idx..];
    s[idx..] + s[..idx]
  }

  lemma ModOnce(a: nat, n: nat)
    requires 0 < n && a < 2 * n
    ensures a % n == if a < n then a else a - n
  {
    if a < n {
      assert a == 0 * n + a;
    } else {
      assert a == 1 * n + (a - n);
    }
  }

  lemma RotateAt(s: seq<Vnode>, idx: nat, step: nat)
    requires idx < |s| && step < |s|
    ensures Rotate(s, idx)[step] == s[(idx + step) % |s|]
  {
    ModOnce(idx + step, |s|);
  }

  /** `idx` is where a search for the first hash >= target ends: all before are smaller, none after. */
  ghost predicate SearchPoint(vs: seq<Vnode>, target: U64, idx: nat)
  {
    && idx <= |vs|
    && (forall i | 0 <= i < idx :: vs[i].hash < target)
    && (forall i | idx <= i < |vs| :: vs[i].hash >= target)
  }

  /** Never closer as we go. */
  ghost predicate ClockwiseFrom(cw: seq<Vnode>, target: U64)
  {
    forall i, j | 0 <= i < j < |cw| :: Clockwise(cw[i].hash, target) <= Clockwise(cw[j].hash, target)
  }

  lemma RotationIsClockwise(vs: seq<Vnode>, target: U64, lo: nat)
    requires forall i, j | 0 <= i < j < |vs| :: vs[i].hash <= vs[j].hash
    requires vs != [] && SearchPoint(vs, target, lo)
    ensures lo % |vs| < |vs| && ClockwiseFrom(Rotate(vs, lo % |vs|), target)
  {
    ModOnce(lo, |vs|);
  }

  /** Peers among the first `k` nodes of `cw`. */
  ghost function Met(cw: seq<Vnode>, k: nat): (m: set<Peer>)
    requires k <= |cw|
  {
    set i | 0 <= i < k :: cw[i].peer
  }

  /** The distinct peers among the first `k` nodes of `cw`, in the order they are met. */
  function Collect(cw: seq<Vnode>, k: nat): (picked: seq<Peer>)
    requires k <= |cw|
  {
    if k == 0 then [] else
      var picked := Collect(cw, k - 1);
      if cw[k - 1].peer in picked then picked else picked + [cw[k - 1].peer]
  }

  /**
   The state of a walk that has read the first `k` nodes of `cw`: the peers met so far, each once,
   nearest first, and nobody still unmet is nearer than anybody met.
   */
  ghost predicate Walked(cw: seq<Vnode>, k: nat, picked: seq<Peer>, dist: Peer -> nat, peers: set<Peer>)
    requires k <= |cw|
  {
    && Elems(picked) == Met(cw, k)
    && Met(cw, k) <= peers
    && (forall i, j | 0 <= i < j < |picked| :: picked[i] != picked[j] && dist(picked[i]) <= dist(picked[j]))
    && (forall p, q | p in picked && q in peers && q !in picked :: dist(p) <= dist(q))
  }

  /** A clockwise reading of all virtual nodes of `peers`. */
  ghost predicate Reading(cw: seq<Vnode>, vh: VnodeHash, vnodes: nat, peers: set<Peer>, target: U64)
  {
    && ClockwiseFrom(cw, target)
    && (forall v | v in cw :: v.peer in peers && exists vn | 0 <= vn < vnodes :: v.hash == vh(v.peer, vn))
    && (forall p, vn {:trigger Vnode(vh(p, vn), p)} | p in peers && 0 <= vn < vnodes :: Vnode(vh(p, vn), p) in cw)
  }

  lemma RotationIsReading(vs: seq<Vnode>, vh: VnodeHash, vnodes: nat, peers: set<Peer>, target: U64, lo: nat)
    requires vs != [] && RingOf(vs, vh, vnodes, peers) && SearchPoint(vs, target, lo)
    ensures lo % |vs| < |vs| && Reading(Rotate(vs, lo % |vs|), vh, vnodes, peers, target)
  {
    RotationIsClockwise(vs, target, lo);
  }

  /** A peer not met in the first `k` nodes has no virtual node nearer than node `k`. */
  lemma UnmetIsFarther(cw: seq<Vnode>, k: nat, vh: VnodeHash, vnodes: nat, peers: set<Peer>, target: U64, q: Peer)
    requires vnodes > 0 && Reading(cw, vh, vnodes, peers, target)
    requires k <= |cw| && q in peers && q !in Met(cw, k)
    ensures k < |cw| && Clockwise(cw[k].hash, target) <= Distance(vh, vnodes, q, target)
  {
    var vn :| 0 <= vn < vnodes && Distance(vh, vnodes, q, target) == Clockwise(vh(q, vn), target);
    assert Vnode(vh(q, vn), q) in cw;
    var i :| 0 <= i < |cw| && cw[i] == Vnode(vh(q, vn), q);
    assert i >= k;
  }

  /** The node just reached is at least as near as any peer not met once it has been read. */
  lemma ReachedBeforeUnmet(cw: seq<Vnode>, k: nat, vh: VnodeHash, vnodes: nat, peers: set<Peer>, target: U64, q: Peer)
    requires vnodes > 0 && Reading(cw, vh, vnodes, peers, target)
    requires k < |cw| && q in peers && q !in Met(cw, k)
    ensures Dist(vh, vnodes, target)(cw[k].peer) <= Dist(vh, vnodes, target)(q)
  {
    assert cw[k] in cw;
    UnmetIsFarther(cw, k, vh, vnodes, peers, target, q);
  }

  lemma MetGrows(cw: seq<Vnode>, k: nat)
    requires k < |cw|
    ensures Met(cw, k + 1) == Met(cw, k) + {cw[k].peer}
  {}

  lemma PickNext(cw: seq<Vnode>, k: nat, picked: seq<Peer>, dist: Peer -> nat, peers: set<Peer>)
    requires k < |cw| && Walked(cw, k, picked, dist, peers)
    requires cw[k].peer in peers
    requires forall q | q in peers && q !in Met(cw, k) :: dist(cw[k].peer) <= dist(q)
    ensures var p := cw[k].peer;
            Walked(cw, k + 1, if p in picked then picked else picked + [p], dist, peers)
  {
    var p := cw[k].peer;
    MetGrows(cw, k);
    if p in picked {
      assert p in Elems(picked);
    } else {
      var grown := picked + [p];
      assert Elems(grown) == Elems(picked) + {p};
      forall i, j | 0 <= i < j < |grown|
        ensures grown[i] != grown[j] && dist(grown[i]) <= dist(grown[j])
      {
        assert grown[i] == picked[i] && picked[i] in picked;
      }
      forall a, q | a in grown && q in peers && q !in grown ensures dist(a) <= dist(q) {
        assert q !in Elems(grown);
      }
    }
  }

  lemma NothingWalked(cw: seq<Vnode>, dist: Peer -> nat, peers: set<Peer>)
    ensures Walked(cw, 0, [], dist, peers)
  {}

  lemma ReadingPeer(cw: seq<Vnode>, i: nat, vh: VnodeHash, vnodes: nat, peers: set<Peer>, target: U64)
    requires Reading(cw, vh, vnodes, peers, target) && i < |cw|
    ensures cw[i].peer in peers
  {
    assert cw[i] in cw;
  }

  lemma {:induction false} CollectWalks(cw: seq<Vnode>, k: nat, vh: VnodeHash, vnodes: nat, peers: set<Peer>,
                                        target: U64)
    requires vnodes > 0 && Reading(cw, vh, vnodes, peers, target) && k <= |cw|
    ensures Walked(cw, k, Collect(cw, k), Dist(vh, vnodes, target), peers)
  {
    hide Walked, Reading, Met, Dist;
    if k == 0 {
      NothingWalked(cw, Dist(vh, vnodes, target), peers);
    } else {
      CollectWalks(cw, k - 1, vh, vnodes, peers, target);
      var dist := Dist(vh, vnodes, target);
      ReadingPeer(cw, k - 1, vh, vnodes, peers, target);
      forall q | q in peers && q !in Met(cw, k - 1) ensures dist(cw[k - 1].peer) <= dist(q) {
        ReachedBeforeUnmet(cw, k - 1, vh, vnodes, peers, target, q);
      }
      PickNext(cw, k - 1, Collect(cw, k - 1), dist, peers);
    }
  }

  /** A walk that stopped because it had enough peers, or ran out of nodes, holds the route. */
  lemma WalkEnds(cw: seq<Vnode>, k: nat, want: nat, vh: VnodeHash, vnodes: nat, peers: set<Peer>, target: U64)
    requires vnodes > 0 && Reading(cw, vh, vnodes, peers, target) && k <= |cw|
    requires |Collect(cw, k)| <= want && (k == |cw| || |Collect(cw, k)| == want)
    ensures |Collect(cw, k)| == Min(want, |peers|)
    ensures NoCrossTies(vh, vnodes, peers) ==> Collect(cw, k) == Nearest(Dist(vh, vnodes, target), peers, want)
  {
    WalkCount(cw, k, vh, vnodes, peers, target);
    if NoCrossTies(vh, vnodes, peers) {
      WalkedIsNearest(cw, k, Collect(cw, k), want, Dist(vh, vnodes, target), peers) by {
        CollectWalks(cw, k, vh, vnodes, peers, target);
        DistancesDistinct(vh, vnodes, peers, target);
      }
    }
  }

  lemma WalkCount(cw: seq<Vnode>, k: nat, vh: VnodeHash, vnodes: nat, peers: set<Peer>, target: U64)
    requires vnodes > 0 && Reading(cw, vh, vnodes, peers, target) && k <= |cw|
    ensures |Collect(cw, k)| == |Elems(Collect(cw, k))| <= |peers|
    ensures k == |cw| ==> |Collect(cw, k)| == |peers|
  {
    CollectWalks(cw, k, vh, vnodes, peers, target);
    DistinctCount(Collect(cw, k));
    SubsetSize(Elems(Collect(cw, k)), peers);
    if k == |cw| {
      AllMet(cw, vh, vnodes, peers, target);
      assert Elems(Collect(cw, k)) == peers;
    }
  }

  lemma WalkedIsNearest(cw: seq<Vnode>, k: nat, picked: seq<Peer>, want: nat, dist: Peer -> nat, peers: set<Peer>)
    requires k <= |cw| && Walked(cw, k, picked, dist, peers)
    requires DistinctDistances(dist, peers) && |picked| == Min(want, |peers|)
    ensures picked == Nearest(dist, peers, want)
  {
    assert forall p | p in picked :: p in Elems(picked);
    AscendingIsPrefix(dist, peers, picked);
  }

  lemma AllMet(cw: seq<Vnode>, vh: VnodeHash, vnodes: nat, peers: set<Peer>, target: U64)
    requires vnodes > 0 && Reading(cw, vh, vnodes, peers, target)
    ensures peers <= Met(cw, |cw|)
  {
    forall q | q in peers ensures q in Met(cw, |cw|) {
      if q !in Met(cw, |cw|) {
        UnmetIsFarther(cw, |cw|, vh, vnodes, peers, target, q);
      }
    }
  }

  /**
   The hypothesis is exact: when two different peers do share a position, sorting by hash leaves two
   rings possible, and on some target they disagree about the very first peer.
   */
  lemma TiesLeaveThePrimaryOpen(vs: seq<Vnode>, vh: VnodeHash, vnodes: nat, peers: set<Peer>)
    requires RingOf(vs, vh, vnodes, peers) && !NoCrossTies(vh, vnodes, peers)
    ensures exists other: seq<Vnode>, target: U64, lo: nat ::
              && RingOf(other, vh, vnodes, peers) && |other| == |vs| && lo < |vs|
              && SearchPoint(vs, target, lo) && SearchPoint(other, target, lo)
              && vs[lo].peer != other[lo].peer
  {
    var x, y := CrossTie(vs, vh, vnodes, peers);
    var target := vs[x].hash;
    var lo := FirstAtOrAbove(vs, target);
    var z := if vs[lo].peer == vs[x].peer then y else x;
    var other := vs[lo := vs[z]][z := vs[lo]];
    SwapEqualKeepsRing(vs, lo, z, vh, vnodes, peers);
    assert SearchPoint(other, target, lo);
  }

  lemma CrossTie(vs: seq<Vnode>, vh: VnodeHash, vnodes: nat, peers: set<Peer>) returns (x: nat, y: nat)
    requires RingOf(vs, vh, vnodes, peers) && !NoCrossTies(vh, vnodes, peers)
    ensures x < |vs| && y < |vs| && vs[x].hash == vs[y].hash && vs[x].peer != vs[y].peer
  {
    var p, q, i: nat, j: nat :| p in peers && q in peers && i < vnodes && j < vnodes && vh(p, i) == vh(q, j) && p != q;
    assert Vnode(vh(p, i), p) in vs && Vnode(vh(q, j), q) in vs;
    x :| 0 <= x < |vs| && vs[x] == Vnode(vh(p, i), p);
    y :| 0 <= y < |vs| && vs[y] == Vnode(vh(q, j), q);
  }

  lemma FirstAtOrAbove(vs: seq<Vnode>, target: U64) returns (lo: nat)
    requires forall i, j | 0 <= i < j < |vs| :: vs[i].hash <= vs[j].hash
    requires exists i | 0 <= i < |vs| :: vs[i].hash == target
    ensures lo < |vs| && SearchPoint(vs, target, lo) && vs[lo].hash == target
  {
    lo := 0;
    while vs[lo].hash < target
      invariant lo < |vs| && forall i | 0 <= i < lo :: vs[i].hash < target
      decreases |vs| - lo
    {
      lo := lo + 1;
    }
  }

  lemma SwapEqualKeepsRing(vs: seq<Vnode>, a: nat, b: nat, vh: VnodeHash, vnodes: nat, peers: set<Peer>)
    requires RingOf(vs, vh, vnodes, peers) && a < |vs| && b < |vs| && vs[a].hash == vs[b].hash
    ensures RingOf(vs[a := vs[b]][b := vs[a]], vh, vnodes, peers)
  {
    var other := vs[a := vs[b]][b := vs[a]];
    forall v ensures v in other <==> v in vs {
      assert other[a] == vs[b] && other[b] == vs[a];
      if v in vs {
        var k :| 0 <= k < |vs| && vs[k] == v;
        assert other[if k == a then b else if k == b then a else k] == v;
      }
    }
  }
}
