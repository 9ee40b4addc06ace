/**
 What a consistent-hash route means, said without a ring: every peer sits at the clockwise
 distance of its nearest virtual node from the target, and a route is the first few peers in
 order of that distance. Nothing here mentions sorting virtual nodes, binary search or walking.
 */
module SuccessorOrder {
  import opened Types

  /** The hash of virtual node `vn` of a peer (BLAKE3 of "peer#vn", first eight bytes). */
  type VnodeHash = (Peer, nat) -> U64

  /** How far clockwise from `target` the position `h` lies on the 64-bit ring. */
  function Clockwise(h: U64, target: U64): (d: nat)
    ensures d < U64_MODULUS
  {
    if h >= target then h - target else h + U64_MODULUS - target
  }

  /** Distance of the nearest of the first `vnodes` virtual nodes of `p`. */
  function Distance(vh: VnodeHash, vnodes: nat, p: Peer, target: U64): (d: nat)
    requires vnodes > 0
    ensures forall vn | 0 <= vn < vnodes :: d <= Clockwise(vh(p, vn), target)
    ensures exists vn | 0 <= vn < vnodes :: d == Clockwise(vh(p, vn), target)
  {
    var last := Clockwise(vh(p, vnodes - 1), target);
    if vnodes == 1 then last else Min(last, Distance(vh, vnodes - 1, p, target))
  }

  /** The nearest-virtual-node distance as a function of the peer alone. */
  ghost function Dist(vh: VnodeHash, vnodes: nat, target: U64): Peer -> nat
    requires vnodes > 0
  {
    p => Distance(vh, vnodes, p, target)
  }

  /** No two different peers own virtual nodes at the same position. */
  ghost predicate NoCrossTies(vh: VnodeHash, vnodes: nat, peers: set<Peer>)
  {
    forall p, q, i: nat, j: nat {:trigger vh(p, i), vh(q, j)} ::
      p in peers && q in peers && i < vnodes && j < vnodes && vh(p, i) == vh(q, j) ==> p == q
  }

  /** Distinct distances for every pair of peers. */
  ghost predicate DistinctDistances(dist: Peer -> nat, peers: set<Peer>)
  {
    forall p, q | p in peers && q in peers && dist(p) == dist(q) :: p == q
  }

  lemma DistancesDistinct(vh: VnodeHash, vnodes: nat, peers: set<Peer>, target: U64)
    requires vnodes > 0 && NoCrossTies(vh, vnodes, peers)
    ensures DistinctDistances(Dist(vh, vnodes, target), peers)
  {
    forall p, q | p in peers && q in peers && Distance(vh, vnodes, p, target) == Distance(vh, vnodes, q, target)
      ensures p == q
    {
      var i :| 0 <= i < vnodes && Distance(vh, vnodes, p, target) == Clockwise(vh(p, i), target);
      var j :| 0 <= j < vnodes && Distance(vh, vnodes, q, target) == Clockwise(vh(q, j), target);
    }
  }

  lemma {:induction false} NearestExists(dist: Peer -> nat, peers: set<Peer>)
    requires peers != {}
    ensures exists p :: p in peers && forall q | q in peers :: dist(p) <= dist(q)
  {
    var p :| p in peers;
    if peers != {p} {
      NearestExists(dist, peers - {p});
      var m :| m in peers - {p} && forall q | q in peers - {p} :: dist(m) <= dist(q);
      assert forall q | q in peers :: q == p || q in peers - {p};
      var best := if dist(p) <= dist(m) then p else m;
      assert best in peers && forall q | q in peers :: dist(best) <= dist(q);
    } else {
      assert forall q | q in peers :: q == p;
    }
  }

  /** All peers, nearest first. */
  ghost function Order(dist: Peer -> nat, peers: set<Peer>): (order: seq<Peer>)
    ensures |order| == |peers|
    ensures forall p :: p in order <==> p in peers
  {
    if peers == {} then [] else
      NearestExists(dist, peers);
      var p :| p in peers && forall q | q in peers :: dist(p) <= dist(q);
      [p] + Order(dist, peers - {p})
  }

  /** The route: the nearest `want` peers, or all of them when there are fewer. */
  ghost function Nearest(dist: Peer -> nat, peers: set<Peer>, want: nat): (route: seq<Peer>)
    ensures |route| == Min(want, |peers|)
    ensures forall p | p in route :: p in peers
  {
    Order(dist, peers)[..Min(want, |peers|)]
  }

  /** Strictly nearest-first. */
  ghost predicate Ascending(dist: Peer -> nat, s: seq<Peer>)
  {
    forall i, j | 0 <= i < j < |s| :: dist(s[i]) < dist(s[j])
  }

  lemma OrderUnfolds(dist: Peer -> nat, peers: set<Peer>)
    requires peers != {}
    ensures var order := Order(dist, peers);
            && order[0] in peers
            && (forall q | q in peers :: dist(order[0]) <= dist(q))
            && order == [order[0]] + Order(dist, peers - {order[0]})
  {}

  lemma {:induction false} OrderDistinct(dist: Peer -> nat, peers: set<Peer>)
    ensures forall i, j | 0 <= i < j < |peers| :: Order(dist, peers)[i] != Order(dist, peers)[j]
  {
    if peers != {} {
      OrderUnfolds(dist, peers);
      var order := Order(dist, peers);
      var rest := Order(dist, peers - {order[0]});
      OrderDistinct(dist, peers - {order[0]});
      forall i, j | 0 <= i < j < |peers| ensures order[i] != order[j] {
        assert order[j] == rest[j - 1] && rest[j - 1] in rest;
        assert i > 0 ==> order[i] == rest[i - 1];
      }
    }
  }

  lemma AscendingCons(dist: Peer -> nat, p: Peer, s: seq<Peer>)
    requires Ascending(dist, s) && forall q | q in s :: dist(p) < dist(q)
    ensures Ascending(dist, [p] + s)
  {
    forall i, j | 0 <= i < j < |[p] + s| ensures dist(([p] + s)[i]) < dist(([p] + s)[j]) {
      assert ([p] + s)[j] == s[j - 1] && s[j - 1] in s;
    }
  }

  /** Everything `s` leaves out of `peers` is farther than everything in it. */
  ghost predicate Beats(dist: Peer -> nat, s: seq<Peer>, peers: set<Peer>)
  {
    && (forall p | p in s :: p in peers)
    && (forall p, q | p in s && q in peers && q !in s :: dist(p) < dist(q))
  }

  lemma HeadIsNearest(dist: Peer -> nat, peers: set<Peer>, s: seq<Peer>)
    requires s != [] && Ascending(dist, s) && Beats(dist, s, peers)
    ensures peers != {} && Order(dist, peers)[0] == s[0]
  {
    assert s[0] in s;
    assert forall i | 0 < i < |s| :: dist(s[0]) < dist(s[i]);
    assert forall q | q in peers && q != s[0] :: dist(s[0]) < dist(q);
    OrderUnfolds(dist, peers);
  }

  lemma TailBeats(dist: Peer -> nat, peers: set<Peer>, s: seq<Peer>)
    requires s != [] && Ascending(dist, s) && Beats(dist, s, peers)
    ensures Ascending(dist, s[1..]) && Beats(dist, s[1..], peers - {s[0]})
  {
    assert forall q | q in s[1..] :: q in s && q != s[0];
  }

  lemma PrefixCons(s: seq<Peer>, order: seq<Peer>, rest: seq<Peer>)
    requires s != [] && order == [s[0]] + rest && s[1..] <= rest
    ensures s <= order
  {}

  /** A nearest-first sequence that beats everybody it leaves out is an initial part of the order. */
  lemma {:induction false} AscendingIsPrefix(dist: Peer -> nat, peers: set<Peer>, s: seq<Peer>)
    requires Ascending(dist, s) && Beats(dist, s, peers)
    ensures s <= Order(dist, peers)
  {
    if s != [] {
      HeadIsNearest(dist, peers, s);
      TailBeats(dist, peers, s);
      AscendingIsPrefix(dist, peers - {s[0]}, s[1..]);
      PrefixCons(s, Order(dist, peers), Order(dist, peers - {s[0]})) by {
        OrderUnfolds(dist, peers);
      }
    }
  }

  lemma {:induction false} OrderAscending(dist: Peer -> nat, peers: set<Peer>)
    requires DistinctDistances(dist, peers)
    ensures Ascending(dist, Order(dist, peers))
  {
    if peers != {} {
      OrderUnfolds(dist, peers);
      var first := Order(dist, peers)[0];
      OrderAscending(dist, peers - {first});
      AscendingCons(dist, first, Order(dist, peers - {first}));
    }
  }

  /** `s` without the members outside `keep`, in the same order. */
  ghost function Restrict(s: seq<Peer>, keep: set<Peer>): (r: seq<Peer>)
    ensures forall p :: p in r <==> p in s && p in keep
    ensures |r| <= |s|
  {
    if s == [] then [] else
      if s[0] in keep then [s[0]] + Restrict(s[1..], keep) else Restrict(s[1..], keep)
  }

  lemma {:induction false} RestrictAscending(dist: Peer -> nat, s: seq<Peer>, keep: set<Peer>)
    requires Ascending(dist, s)
    ensures Ascending(dist, Restrict(s, keep))
  {
    if s != [] {
      RestrictAscending(dist, s[1..], keep);
      if s[0] in keep {
        AscendingCons(dist, s[0], Restrict(s[1..], keep));
      }
    }
  }

  lemma {:induction false} RestrictConcat(a: seq<Peer>, b: seq<Peer>, keep: set<Peer>)
    ensures Restrict(a + b, keep) == Restrict(a, keep) + Restrict(b, keep)
  {
    if a == [] {
      assert a + b == b;
    } else {
      assert (a + b)[1..] == a[1..] + b;
      RestrictConcat(a[1..], b, keep);
    }
  }

  function Elems(s: seq<Peer>): set<Peer> { set p | p in s }

  lemma {:induction false} DistinctCount(s: seq<Peer>)
    requires forall i, j | 0 <= i < j < |s| :: s[i] != s[j]
    ensures |Elems(s)| == |s|
  {
    if s != [] {
      DistinctCount(s[1..]);
      assert Elems(s) == {s[0]} + Elems(s[1..]);
    }
  }

  lemma AscendingIsAll(dist: Peer -> nat, peers: set<Peer>, s: seq<Peer>)
    requires Ascending(dist, s) && forall p :: p in s <==> p in peers
    ensures s == Order(dist, peers)
  {
    AscendingIsPrefix(dist, peers, s);
    DistinctCount(s);
    assert Elems(s) == peers;
  }

  /** Removing peers deletes them from the successor order and moves nobody else. */
  lemma OrderAfterRemoval(dist: Peer -> nat, peers: set<Peer>, survivors: set<Peer>)
    requires DistinctDistances(dist, peers) && survivors <= peers
    ensures Order(dist, survivors) == Restrict(Order(dist, peers), survivors)
  {
    var r := Restrict(Order(dist, peers), survivors);
    OrderAscending(dist, peers);
    RestrictAscending(dist, Order(dist, peers), survivors);
    AscendingIsAll(dist, survivors, r);
  }

  /**
   Exact minimal disruption. After any set of peers leaves, the surviving members of a route stay
   in it, first and in the same order; newcomers only fill the places of members that left; and a
   route that lost nobody does not change at all.
   */
  lemma RouteAfterRemoval(dist: Peer -> nat, peers: set<Peer>, survivors: set<Peer>, want: nat)
    requires DistinctDistances(dist, peers) && survivors <= peers
    ensures var before, after := Nearest(dist, peers, want), Nearest(dist, survivors, want);
            var kept := Restrict(before, survivors);
            && kept <= after
            && |after| <= |before|
            && (kept == before ==> after == before)
  {
    hide Order, Restrict, DistinctDistances;
    var order := Order(dist, peers);
    var k := Min(want, |peers|);
    OrderAfterRemoval(dist, peers, survivors);
    assert order == order[..k] + order[k..];
    RestrictConcat(order[..k], order[k..], survivors);
    SubsetSize(survivors, peers);
  }

  /** The one-peer case: the departed peer's place is taken by at most one newcomer, at the end. */
  lemma RouteAfterOneRemoval(dist: Peer -> nat, peers: set<Peer>, gone: Peer, want: nat)
    requires DistinctDistances(dist, peers)
    ensures var before, after := Nearest(dist, peers, want), Nearest(dist, peers - {gone}, want);
            && (gone !in before ==> after == before)
            && Restrict(before, peers - {gone}) <= after
            && |after| <= |Restrict(before, peers - {gone})| + 1
  {
    var before := Nearest(dist, peers, want);
    OrderAscending(dist, peers);
    assert Ascending(dist, before);
    RestrictLosesAtMostOne(dist, before, peers, gone);
    RouteAfterRemoval(dist, peers, peers - {gone}, want);
  }

  lemma {:induction false} RestrictLosesAtMostOne(dist: Peer -> nat, s: seq<Peer>, peers: set<Peer>, gone: Peer)
    requires Ascending(dist, s) && forall p | p in s :: p in peers
    ensures |s| <= |Restrict(s, peers - {gone})| + 1
    ensures gone !in s ==> Restrict(s, peers - {gone}) == s
  {
    if s != [] {
      RestrictLosesAtMostOne(dist, s[1..], peers, gone);
      if s[0] == gone {
        assert gone !in s[1..];
      }
    }
  }
}
