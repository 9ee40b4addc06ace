/**
 The surviving nodes of a cluster after some have died: each installs its reduced ring, sweeps its
 re-replication round, and pushes queued blocks to its peers, in any interleaving
 (cache_server/src/replication.cpp, membership.cpp and cache.cpp together). Copies may be promoted and
 demoted between tiers at any time; none is evicted.
 */
module Cluster {
  import opened Types
  import opened SuccessorOrder
  import opened Routing
  import R = ReReplication

  datatype Params = Params(vh: VnodeHash, vnodes: nat, replicationFactor: nat)

  /** One copy of a block in one tier of a node. */
  type Copy = (BlockId, Tier)

  /** A copy moves from one tier to another. */
  datatype Shift = Shift(from: Tier, to: Tier)

  /** `sending` is what the workers have taken off the queue and not yet delivered. */
  datatype NodeState = NodeState(ring: set<Peer>, copies: set<Copy>, queue: seq<R.Task>, sending: multiset<R.Task>,
                                 round: seq<BlockId>, cursor: nat, active: bool)

  const WORKERS := 4

  type State = map<Peer, NodeState>

  datatype Label =
    | Install(m: Peer, ring: set<Peer>, candidates: seq<BlockId>)  // peers lost: new ring, new round
    | Rejoin(m: Peer, ring: set<Peer>)                             // peers back: new ring only
    | Serve(m: Peer, shift: Option<Shift>)                         // one candidate of a sweep; its Get may promote it
    | Move(m: Peer, id: BlockId, way: Shift)                       // any other promotion or demotion
    | EndRound(m: Peer)
    | Take(m: Peer)                                                // a free worker takes the oldest push
    | Arrive(m: Peer, task: R.Task, landing: Option<Tier>)         // a push taken before arrives, or is lost
    | Insert(m: Peer, id: BlockId, tier: Tier)                     // a client insert that found room

  function Self(c: Params, m: Peer): R.Node { R.Node(m, c.vh, c.vnodes, c.replicationFactor) }

  predicate Holds(n: NodeState, id: BlockId)
  {
    (id, HBM) in n.copies || (id, DRAM) in n.copies || (id, SSD) in n.copies
  }

  ghost function Route(c: Params, ring: set<Peer>, id: BlockId): seq<Peer>
  {
    RouteSpec(c.vh, c.vnodes, c.replicationFactor, ring, HashBlock(id))
  }

  /** This node as its replicator sees it. */
  ghost function Sweep(n: NodeState): R.State
  {
    R.State(n.queue, n.round, n.cursor, n.active, R.Idle, 0, n.ring, set x | x in n.copies :: x.0)
  }

  /** An accepted insert that adds a copy is replicated; one that finds the copy there is not. */
  ghost function Land(c: Params, m: Peer, n: NodeState, id: BlockId, tier: Tier): NodeState
  {
    if (id, tier) in n.copies then n
    else n.(copies := n.copies + {(id, tier)},
            queue := R.EnqueueAll(n.queue, R.Tasks(R.Replicas(Self(c, m), n.ring, id), id)))
  }

  predicate CanShift(n: NodeState, id: BlockId, shift: Shift) { (id, shift.from) in n.copies && shift.from != shift.to }

  function Shifted(n: NodeState, id: BlockId, shift: Shift): NodeState
  {
    n.(copies := n.copies - {(id, shift.from)} + {(id, shift.to)})
  }

  /** A node after serving the candidate under its cursor. */
  ghost function Served(c: Params, m: Peer, n: NodeState, shift: Option<Shift>): NodeState
    requires n.cursor < |n.round|
  {
    var served := R.ServeOne(Self(c, m), Sweep(n));
    var n' := n.(queue := served.queue, cursor := served.cursor);
    if shift.Some? then Shifted(n', n.round[n.cursor], shift.value) else n'
  }

  /** A node after a worker has taken the oldest push, and after one taken is out. */
  function Taken(n: NodeState): NodeState
    requires n.queue != []
  {
    n.(queue := n.queue[1..], sending := n.sending + multiset{n.queue[0]})
  }

  function Sent(n: NodeState, task: R.Task): NodeState { n.(sending := n.sending - multiset{task}) }

  ghost function Send(c: Params, s: State, p: Peer, id: BlockId, landing: Option<Tier>): State
  {
    if p in s && landing.Some? then s[p := Land(c, p, s[p], id, landing.value)] else s
  }

  ghost predicate Enabled(c: Params, s: State, l: Label)
  {
    && l.m in s
    && match l
       case Install(m, ring, candidates) =>
         forall id :: id in candidates <==> Holds(s[m], id) && m in Route(c, ring, id)
       case Rejoin(_, _) => true
       case Serve(m, shift) =>
         && s[m].active && s[m].cursor < |s[m].round| && !R.NoRoom(Self(c, m), Sweep(s[m]))
         && (shift.Some? ==> CanShift(s[m], s[m].round[s[m].cursor], shift.value))
       case Move(m, id, shift) => CanShift(s[m], id, shift)
       case EndRound(m) => s[m].active && s[m].cursor >= |s[m].round|
       case Take(m) => s[m].queue != [] && |s[m].sending| < WORKERS
       case Arrive(m, task, _) => task in s[m].sending
       case Insert(_, _, _) => true
  }

  ghost function Step(c: Params, s: State, l: Label): State
    requires Enabled(c, s, l)
  {
    match l
    case Install(m, ring, candidates) =>
      s[m := s[m].(ring := ring, round := candidates, cursor := 0, active := candidates != [])]
    case Rejoin(m, ring) => s[m := s[m].(ring := ring)]
    case Serve(m, shift) => s[m := Served(c, m, s[m], shift)]
    case Move(m, id, shift) => s[m := Shifted(s[m], id, shift)]
    case EndRound(m) => s[m := s[m].(active := false)]
    case Take(m) => s[m := Taken(s[m])]
    case Arrive(m, task, landing) => Send(c, s[m := Sent(s[m], task)], task.peer, task.id, landing)
    case Insert(m, id, tier) => s[m := Land(c, m, s[m], id, tier)]
  }

  ghost predicate IsRun(c: Params, ss: seq<State>, ls: seq<Label>)
  {
    && |ss| == |ls| + 1
    && forall i | 0 <= i < |ls| :: Enabled(c, ss[i], ls[i]) && ss[i + 1] == Step(c, ss[i], ls[i])
  }

  /** A worker's take is that of the replicator's own machine. */
  lemma TakeIsWorkers(c: Params, m: Peer, n: NodeState)
    requires n.queue != []
    ensures Sweep(Taken(n)) == R.Step(Self(c, m), Sweep(n), R.WorkerTakes)
    ensures n.sending <= Taken(n).sending && n.queue == [n.queue[0]] + Taken(n).queue
    ensures Taken(n).sending == n.sending + multiset(n.queue) - multiset(Taken(n).queue)
  {
    assert n.queue == [n.queue[0]] + n.queue[1..];
  }

  /** Installing a reduced ring is the machine's ring change and trigger; a rejoin is the ring change alone. */
  lemma InstallIsTrigger(c: Params, s: State, m: Peer, ring: set<Peer>, candidates: seq<BlockId>)
    requires Enabled(c, s, Install(m, ring, candidates))
    ensures var before := R.Step(Self(c, m), Sweep(s[m]), R.SetRing(ring));
            && Sweep(Step(c, s, Install(m, ring, candidates))[m]) == R.Step(Self(c, m), before, R.Trigger(candidates))
            && Sweep(Step(c, s, Rejoin(m, ring))[m]) == before
            && Step(c, s, Install(m, ring, candidates))[m].copies == s[m].copies
            && Step(c, s, Install(m, ring, candidates))[m].sending == s[m].sending
  {
    hide Route, Holds;
  }

  // Reconvergence

  /**
   `m` holds `id` under ring `ring`, and every other member of the route has it, is about to be sent
   it, or is yet to be served by the sweep.
   */
  ghost predicate Spreading(c: Params, s: State, m: Peer, ring: set<Peer>, id: BlockId)
  {
    && m in s && s[m].ring == ring && Holds(s[m], id)
    && (PendingIn(s[m], id) ||
        forall p | p in Route(c, ring, id) && p != m && p in s :: Holds(s[p], id) || Bound(s[m], R.Task(p, id)))
  }

  /** The push is queued, or a worker has it. */
  ghost predicate Bound(n: NodeState, task: R.Task) { task in n.queue || task in n.sending }

  /** The sweep has the block still ahead of it. */
  ghost predicate PendingIn(n: NodeState, id: BlockId)
  {
    n.active && exists i | n.cursor <= i < |n.round| :: n.round[i] == id
  }

  /** Whatever `n` holds in some tier, `n'` does. */
  ghost predicate Keeps(n: NodeState, n': NodeState) { forall id | Holds(n, id) :: Holds(n', id) }

  lemma ShiftKeeps(n: NodeState, id: BlockId, shift: Shift)
    requires CanShift(n, id, shift)
    ensures Keeps(n, Shifted(n, id, shift))
  {}

  /** `n'` is `n` with perhaps more blocks and more queued pushes. */
  ghost predicate Grown(n: NodeState, n': NodeState)
  {
    && n'.ring == n.ring && n'.round == n.round && n'.cursor == n.cursor && n'.active == n.active
    && Keeps(n, n') && n.queue <= n'.queue && n'.sending == n.sending
  }

  lemma LandGrows(c: Params, m: Peer, n: NodeState, id: BlockId, tier: Tier)
    ensures Grown(n, Land(c, m, n, id, tier)) && Holds(Land(c, m, n, id, tier), id)
  {
    hide R.Replicas, R.EnqueueAll;
    R.EnqueueTakes(n.queue, R.Tasks(R.Replicas(Self(c, m), n.ring, id), id));
  }

  lemma SendGrows(c: Params, s: State, p: Peer, id: BlockId, landing: Option<Tier>)
    ensures Send(c, s, p, id, landing).Keys == s.Keys
    ensures forall q | q in s :: Grown(s[q], Send(c, s, p, id, landing)[q])
    ensures p in s && landing.Some? ==> Holds(Send(c, s, p, id, landing)[p], id)
  {
    hide Land;
    if p in s && landing.Some? {
      LandGrows(c, p, s[p], id, landing.value);
    }
  }

  /** No step loses a block, and a node's own sweep state changes only in its own steps. */
  lemma StepEffects(c: Params, s: State, l: Label)
    requires Enabled(c, s, l)
    ensures var s' := Step(c, s, l);
            && s'.Keys == s.Keys
            && (forall q | q in s :: Keeps(s[q], s'[q]))
            && (forall q | q in s && q != l.m :: Grown(s[q], s'[q]))
            && (l.Insert? || l.Move? ==> Grown(s[l.m], s'[l.m]))
  {
    match l
    case Arrive(m, task, landing) =>
      hide Send, Keeps, Grown;
      ArriveEffects(c, s, m, task, landing);
    case Insert(m, id, tier) =>
      hide Land, Holds;
      LandGrows(c, m, s[m], id, tier);
    case Serve(m, shift) =>
      hide Served, Holds, R.NoRoom, R.ServeOne;
      ServedKeeps(c, m, s[m], shift);
    case Move(m, id, shift) =>
      ShiftKeeps(s[m], id, shift);
      hide Holds;
    case _ =>
      hide R.ServeOne, R.NoRoom, Holds;
      SameCopies(s[l.m], Step(c, s, l)[l.m]);
  }

  lemma ArriveEffects(c: Params, s: State, m: Peer, task: R.Task, landing: Option<Tier>)
    requires m in s
    ensures var s' := Send(c, s[m := Sent(s[m], task)], task.peer, task.id, landing);
            && s'.Keys == s.Keys && (forall q | q in s :: Keeps(s[q], s'[q]))
            && forall q | q in s && q != m :: Grown(s[q], s'[q])
  {
    hide Send, Holds;
    var without := s[m := Sent(s[m], task)];
    SendGrows(c, without, task.peer, task.id, landing);
    assert forall q | q in s && q != m :: without[q] == s[q];
    SameCopies(s[m], without[m]);
  }

  lemma SameCopies(n: NodeState, n': NodeState)
    requires n.copies == n'.copies
    ensures Keeps(n, n')
  {}

  lemma ServedKeeps(c: Params, m: Peer, n: NodeState, shift: Option<Shift>)
    requires n.cursor < |n.round| && (shift.Some? ==> CanShift(n, n.round[n.cursor], shift.value))
    ensures Keeps(n, Served(c, m, n, shift))
  {
    hide R.ServeOne;
  }

  lemma GrownSpreads(c: Params, s: State, s': State, m: Peer, ring: set<Peer>, id: BlockId)
    requires Spreading(c, s, m, ring, id) && s'.Keys == s.Keys && Grown(s[m], s'[m])
    requires forall q | q in s :: Keeps(s[q], s'[q])
    ensures Spreading(c, s', m, ring, id)
  {
    hide Route, Holds;
    if !PendingIn(s[m], id) {
      forall p | p in Route(c, ring, id) && p != m && p in s' ensures Holds(s'[p], id) || Bound(s'[m], R.Task(p, id)) {
        assert Holds(s[p], id) || Bound(s[m], R.Task(p, id));
        assert Keeps(s[p], s'[p]);
      }
    }
  }

  /** Serving the block queues it for every other member; serving another block changes nothing for it. */
  lemma ServeSpreads(c: Params, s: State, m: Peer, shift: Option<Shift>, ring: set<Peer>, id: BlockId)
    requires Spreading(c, s, m, ring, id) && Enabled(c, s, Serve(m, shift))
    ensures Spreading(c, Step(c, s, Serve(m, shift)), m, ring, id)
  {
    hide R.ServeOne, R.NoRoom, Route, Holds;
    ServeEffect(c, m, s[m], shift);
    ServedKeeps(c, m, s[m], shift);
    ServedSpreads(c, s, m, ring, id, Served(c, m, s[m], shift));
  }

  lemma ServedSpreads(c: Params, s: State, m: Peer, ring: set<Peer>, id: BlockId, n': NodeState)
    requires Spreading(c, s, m, ring, id) && s[m].cursor < |s[m].round| && Keeps(s[m], n')
    requires n' == s[m].(queue := n'.queue, cursor := s[m].cursor + 1, copies := n'.copies) && s[m].queue <= n'.queue
    requires s[m].round[s[m].cursor] == id ==> forall p | p in Route(c, ring, id) && p != m :: R.Task(p, id) in n'.queue
    ensures Spreading(c, s[m := n'], m, ring, id)
  {
    hide Route, Holds;
    var n := s[m];
    if PendingIn(n, id) && n.round[n.cursor] != id {
      var i :| n.cursor <= i < |n.round| && n.round[i] == id;
      assert n'.cursor <= i < |n'.round| && n'.round[i] == id;
    } else if !PendingIn(n, id) {
      forall p | p in Route(c, ring, id) && p != m && p in s ensures Holds(s[p], id) || Bound(n', R.Task(p, id)) {
        assert Holds(s[p], id) || Bound(n, R.Task(p, id));
      }
    }
  }

  /** Serving appends the pushes of a held block to its targets, or nothing. */
  lemma ServedQueue(c: Params, m: Peer, n: NodeState, shift: Option<Shift>)
    requires n.cursor < |n.round|
    ensures var served, id := Served(c, m, n, shift), n.round[n.cursor];
            var targets := R.Targets(Self(c, m), n.ring, id);
            && served == n.(queue := served.queue, cursor := n.cursor + 1, copies := served.copies)
            && served.queue == n.queue + if id in Sweep(n).held then R.Tasks(targets, id) else []
  {
    hide R.Targets;
  }

  lemma HeldWhenHolds(n: NodeState, id: BlockId)
    requires Holds(n, id)
    ensures id in Sweep(n).held
  {
    var x :| x in n.copies && x.0 == id;
  }

  lemma TargetsAre(c: Params, m: Peer, ring: set<Peer>, id: BlockId)
    ensures forall p | p in Route(c, ring, id) && p != m :: p in R.Targets(Self(c, m), ring, id)
    ensures |R.Targets(Self(c, m), ring, id)| <= R.Want(Self(c, m))
  {}

  lemma ServeEffect(c: Params, m: Peer, n: NodeState, shift: Option<Shift>)
    requires n.cursor < |n.round|
    ensures var served := Served(c, m, n, shift);
            && served == n.(queue := served.queue, cursor := n.cursor + 1, copies := served.copies)
            && n.queue <= served.queue
            && |served.queue| <= |n.queue| + R.Want(Self(c, m))
            && (Holds(n, n.round[n.cursor]) ==>
                  forall p | p in Route(c, n.ring, n.round[n.cursor]) && p != m ::
                    R.Task(p, n.round[n.cursor]) in served.queue)
  {
    hide Served, R.Targets, R.Tasks, Route, Holds, Sweep, R.Want;
    var id := n.round[n.cursor];
    ServedQueue(c, m, n, shift);
    TargetsAre(c, m, n.ring, id);
    if Holds(n, id) {
      HeldWhenHolds(n, id);
    }
  }

  lemma TakeSpreads(c: Params, s: State, m: Peer, ring: set<Peer>, id: BlockId)
    requires Spreading(c, s, m, ring, id) && s[m].queue != []
    ensures Spreading(c, s[m := Taken(s[m])], m, ring, id)
  {
    hide Route, Holds;
    var n := Taken(s[m]);
    SameCopies(s[m], n);
    assert s[m].queue == [s[m].queue[0]] + n.queue;
    if !PendingIn(s[m], id) {
      forall p | p in Route(c, ring, id) && p != m && p in s ensures Holds(s[p], id) || Bound(n, R.Task(p, id)) {
        assert Holds(s[p], id) || Bound(s[m], R.Task(p, id));
      }
    }
  }

  lemma ArriveSpreads(c: Params, s: State, m: Peer, task: R.Task, landing: Option<Tier>, ring: set<Peer>, id: BlockId)
    requires Spreading(c, s, m, ring, id) && Enabled(c, s, Arrive(m, task, landing)) && landing.Some?
    ensures Spreading(c, Step(c, s, Arrive(m, task, landing)), m, ring, id)
  {
    hide Send, Route, Holds, Spreading;
    SendGrows(c, s[m := Sent(s[m], task)], task.peer, task.id, landing);
    StepEffects(c, s, Arrive(m, task, landing));
    ArrivedSpreads(c, s, Step(c, s, Arrive(m, task, landing)), m, task, ring, id);
  }

  lemma ArrivedSpreads(c: Params, s: State, s': State, m: Peer, task: R.Task, ring: set<Peer>, id: BlockId)
    requires Spreading(c, s, m, ring, id) && s'.Keys == s.Keys && task in s[m].sending
    requires Grown(Sent(s[m], task), s'[m]) && forall q | q in s :: Keeps(s[q], s'[q])
    requires task.peer in s ==> Holds(s'[task.peer], task.id)
    ensures Spreading(c, s', m, ring, id)
  {
    hide Route, Holds;
    assert Keeps(s[m], s'[m]);
    if !PendingIn(s[m], id) {
      forall p | p in Route(c, ring, id) && p != m && p in s' ensures Holds(s'[p], id) || Bound(s'[m], R.Task(p, id)) {
        assert Keeps(s[p], s'[p]);
        if !Holds(s[p], id) && R.Task(p, id) != task {
          assert Bound(s[m], R.Task(p, id));
        }
      }
    }
  }

  lemma SpreadingStep(c: Params, s: State, l: Label, m: Peer, ring: set<Peer>, id: BlockId)
    requires Spreading(c, s, m, ring, id) && Enabled(c, s, l)
    requires l.m == m ==> !l.Install? && !l.Rejoin?
    requires l.Arrive? ==> l.landing.Some?
    ensures Spreading(c, Step(c, s, l), m, ring, id)
  {
    StepEffects(c, s, l);
    if l.m == m && l.Serve? {
      ServeSpreads(c, s, m, l.shift, ring, id);
    } else if l.m == m && l.Take? {
      TakeSpreads(c, s, m, ring, id);
    } else if l.m == m && l.Arrive? {
      ArriveSpreads(c, s, m, l.task, l.landing, ring, id);
    } else if l.m == m && l.EndRound? {
      hide Route, Holds, Keeps;
      EndSpreads(c, s, m, ring, id);
    } else {
      GrownSpreads(c, s, Step(c, s, l), m, ring, id);
    }
  }

  lemma EndSpreads(c: Params, s: State, m: Peer, ring: set<Peer>, id: BlockId)
    requires Spreading(c, s, m, ring, id) && s[m].cursor >= |s[m].round|
    ensures Spreading(c, s[m := s[m].(active := false)], m, ring, id)
  {
    hide Route;
  }

  lemma {:induction false} SpreadingRun(c: Params, ss: seq<State>, ls: seq<Label>, a: nat, b: nat, m: Peer,
                                        ring: set<Peer>, id: BlockId)
    requires IsRun(c, ss, ls) && a <= b <= |ls| && Spreading(c, ss[a], m, ring, id)
    requires forall k | a <= k < b && ls[k].m == m :: !ls[k].Install? && !ls[k].Rejoin?
    requires forall k | a <= k < b && ls[k].Arrive? :: ls[k].landing.Some?
    ensures Spreading(c, ss[b], m, ring, id)
  {
    hide Spreading, Enabled, Step;
    if a < b {
      SpreadingRun(c, ss, ls, a, b - 1, m, ring, id);
      SpreadingStep(c, ss[b - 1], ls[b - 1], m, ring, id);
    }
  }

  /** Installing the reduced ring puts every held in-route block ahead of the sweep. */
  lemma InstallSpreads(c: Params, s: State, m: Peer, ring: set<Peer>, candidates: seq<BlockId>, id: BlockId)
    requires Enabled(c, s, Install(m, ring, candidates)) && Holds(s[m], id) && m in Route(c, ring, id)
    ensures Spreading(c, Step(c, s, Install(m, ring, candidates)), m, ring, id)
  {
    hide Route;
    assert id in candidates;
  }

  /**
   Reconvergence. Let `survivors` be what is left of `peers`, and let `m` be a survivor that was in
   a block's route before the deaths and holds the block when it installs the reduced ring. Whatever
   the other nodes do, once `m` has no round, no queued push and no push with a worker left, every
   member of the block's new route holds it. (No evictions; receivers have room; `m` sees no further membership change.)
   */
  lemma Reconverges(c: Params, ss: seq<State>, ls: seq<Label>, a: nat, b: nat, m: Peer, peers: set<Peer>,
                    survivors: set<Peer>, candidates: seq<BlockId>, id: BlockId, p: Peer)
    requires IsRun(c, ss, ls) && a < b <= |ls| < |ss| && ls[a] == Install(m, survivors, candidates)
    requires NoCrossTies(c.vh, c.vnodes, peers) && survivors <= peers && ss[a].Keys == survivors
    requires m in Route(c, peers, id) && m in ss[a] && Holds(ss[a][m], id)
    requires forall k | a < k < b && ls[k].m == m :: !ls[k].Install? && !ls[k].Rejoin?
    requires forall k | a <= k < b && ls[k].Arrive? :: ls[k].landing.Some?
    requires m in ss[b] && Idle(ss[b][m])
    requires p in Route(c, survivors, id)
    ensures p in ss[b] && Holds(ss[b][p], id)
  {
    hide Enabled, Step, Route, Spreading, IsRun, NoCrossTies, Holds;
    StaysInRoute(c, peers, survivors, id, m);
    RunKeys(c, ss, ls, a, b);
    RunStep(c, ss, ls, a);
    InstallSpreads(c, ss[a], m, survivors, candidates, id);
    SpreadingRun(c, ss, ls, a + 1, b, m, survivors, id);
    RouteAmong(c, survivors, id);
    SpreadDone(c, ss[b], m, survivors, id, p);
  }

  lemma StaysInRoute(c: Params, peers: set<Peer>, survivors: set<Peer>, id: BlockId, m: Peer)
    requires NoCrossTies(c.vh, c.vnodes, peers) && survivors <= peers && m in Route(c, peers, id) && m in survivors
    ensures m in Route(c, survivors, id)
  {
    hide NoCrossTies, RouteSpec;
    RouteSurvivesRemoval(c.vh, c.vnodes, c.replicationFactor, peers, survivors, HashBlock(id));
  }

  lemma RouteAmong(c: Params, ring: set<Peer>, id: BlockId)
    ensures forall p | p in Route(c, ring, id) :: p in ring
  {}

  lemma RunStep(c: Params, ss: seq<State>, ls: seq<Label>, i: nat)
    requires IsRun(c, ss, ls) && i < |ls|
    ensures |ss| == |ls| + 1 && Enabled(c, ss[i], ls[i]) && ss[i + 1] == Step(c, ss[i], ls[i])
  {}

  /** No round left, nothing queued and nothing being sent. */
  predicate Idle(n: NodeState) { !n.active && n.queue == [] && n.sending == multiset{} }

  lemma SpreadDone(c: Params, s: State, m: Peer, ring: set<Peer>, id: BlockId, p: Peer)
    requires Spreading(c, s, m, ring, id) && Idle(s[m]) && p in Route(c, ring, id) && p in s
    ensures Holds(s[p], id)
  {
    hide Route;
  }

  lemma {:induction false} RunKeys(c: Params, ss: seq<State>, ls: seq<Label>, a: nat, b: nat)
    requires IsRun(c, ss, ls) && a <= b <= |ls|
    ensures ss[b].Keys == ss[a].Keys
  {
    hide Enabled, Step;
    if a < b {
      RunKeys(c, ss, ls, a, b - 1);
      StepEffects(c, ss[b - 1], ls[b - 1]);
    }
  }

  // No node pushes to itself

  ghost predicate NoneToSelf(m: Peer, n: NodeState) { forall task | Bound(n, task) :: task.peer != m }

  lemma LandNoneToSelf(c: Params, m: Peer, n: NodeState, id: BlockId, tier: Tier)
    requires NoneToSelf(m, n)
    ensures NoneToSelf(m, Land(c, m, n, id, tier))
  {
    hide R.Replicas, R.EnqueueAll, R.Tasks, R.RouteOf;
    var replicas := R.Replicas(Self(c, m), n.ring, id);
    R.PushesAre(Self(c, m), n.ring, id);
    R.TasksAt(replicas, id);
    R.EnqueueTakes(n.queue, R.Tasks(replicas, id));
  }

  lemma ServeNoneToSelf(c: Params, m: Peer, n: NodeState, shift: Option<Shift>)
    requires NoneToSelf(m, n) && n.cursor < |n.round|
    ensures NoneToSelf(m, Served(c, m, n, shift))
  {
    hide Served, R.Targets, R.Tasks, R.RouteOf, Sweep;
    var id := n.round[n.cursor];
    ServedQueue(c, m, n, shift);
    R.PushesAre(Self(c, m), n.ring, id);
    R.TasksAt(R.Targets(Self(c, m), n.ring, id), id);
  }

  lemma StepNoneToSelf(c: Params, s: State, l: Label, m: Peer)
    requires Enabled(c, s, l) && m in s && NoneToSelf(m, s[m])
    ensures m in Step(c, s, l) && NoneToSelf(m, Step(c, s, l)[m])
  {
    hide NoneToSelf, Served, Land, Route, Holds, R.NoRoom, Send, Taken, Sent, CanShift;
    match l
    case Serve(p, shift) =>
      if p == m { ServeNoneToSelf(c, m, s[m], shift); }
    case Insert(p, id, tier) =>
      if p == m { LandNoneToSelf(c, m, s[m], id, tier); }
    case Arrive(p, task, landing) => ArriveNoneToSelf(c, s, p, task, landing, m);
    case Take(p) =>
      if p == m { TakeNoneToSelf(m, s[m]); }
    case _ => SamePushes(m, s[m], Step(c, s, l)[m]);
  }

  lemma SamePushes(m: Peer, n: NodeState, n': NodeState)
    requires NoneToSelf(m, n) && n'.queue == n.queue && n'.sending == n.sending
    ensures NoneToSelf(m, n')
  {
    assert forall task | Bound(n', task) :: Bound(n, task);
  }

  lemma ArriveNoneToSelf(c: Params, s: State, p: Peer, task: R.Task, landing: Option<Tier>, m: Peer)
    requires p in s && m in s && NoneToSelf(m, s[m])
    ensures var s' := Send(c, s[p := Sent(s[p], task)], task.peer, task.id, landing);
            m in s' && NoneToSelf(m, s'[m])
  {
    hide NoneToSelf, Land, Sent;
    SentNoneToSelf(m, s[m], task);
    var without := s[p := Sent(s[p], task)];
    if task.peer == m && landing.Some? { LandNoneToSelf(c, m, without[m], task.id, landing.value); }
  }

  lemma TakeNoneToSelf(m: Peer, n: NodeState)
    requires NoneToSelf(m, n) && n.queue != []
    ensures NoneToSelf(m, Taken(n))
  {
    assert Bound(n, n.queue[0]);
    forall task | Bound(Taken(n), task) ensures task.peer != m {
      assert Bound(n, task);
    }
  }

  lemma SentNoneToSelf(m: Peer, n: NodeState, task: R.Task)
    requires NoneToSelf(m, n)
    ensures NoneToSelf(m, Sent(n, task))
  {
    forall x | Bound(Sent(n, task), x) ensures x.peer != m {
      assert Bound(n, x);
    }
  }

  /** Along every run no push of a node, queued or with a worker, is addressed to that node, if none was at first. */
  lemma {:induction false} NeverToSelf(c: Params, ss: seq<State>, ls: seq<Label>, k: nat, m: Peer)
    requires IsRun(c, ss, ls) && k <= |ls| && m in ss[0] && NoneToSelf(m, ss[0][m])
    ensures m in ss[k] && NoneToSelf(m, ss[k][m])
  {
    hide Enabled, Step, NoneToSelf;
    if k > 0 {
      NeverToSelf(c, ss, ls, k - 1, m);
      StepNoneToSelf(c, ss[k - 1], ls[k - 1], m);
    }
  }

  // Termination of the insert and replicate bounce

  /** The steps a cluster takes on its own, with no client and no membership change. */
  predicate Internal(l: Label) { l.Serve? || l.EndRound? || l.Take? || l.Arrive? }

  function AllTiers(id: BlockId): set<Copy> { {(id, HBM), (id, DRAM), (id, SSD)} }

  /** Every block still queued, being sent or in a round is one of the blocks of `universe`. */
  ghost predicate NodeWithin(universe: set<Copy>, n: NodeState)
  {
    && (forall i | 0 <= i < |n.queue| :: AllTiers(n.queue[i].id) <= universe)
    && (forall task | task in n.sending :: AllTiers(task.id) <= universe)
    && (forall i | 0 <= i < |n.round| :: AllTiers(n.round[i]) <= universe)
  }

  ghost predicate Within(universe: set<Copy>, s: State) { forall m | m in s :: NodeWithin(universe, s[m]) }

  function Ahead(n: NodeState): nat
  {
    (if n.cursor < |n.round| then |n.round| - n.cursor else 0) + if n.active then 1 else 0
  }

  /**
   What a node has left to do: copies it lacks, each worth a few pushes, candidates to serve, each worth
   twice that because serving one may also move its copy, and pushes, each to be taken and to arrive.
   */
  function Work(w: nat, universe: set<Copy>, n: NodeState): nat
  {
    Weigh(w, |universe - n.copies| + 2 * Ahead(n), Moves(n))
  }

  function Moves(n: NodeState): nat { 2 * |n.queue| + |n.sending| }

  function Weigh(w: nat, jobs: nat, moves: nat): nat { (2 * w + 1) * jobs + moves }

  ghost function TotalWork(w: nat, universe: set<Copy>, s: State): nat
    decreases |s|
  {
    if s == map[] then 0 else
      assert s.Keys != {};
      var p :| p in s;
      Work(w, universe, s[p]) + TotalWork(w, universe, s - {p})
  }

  lemma {:induction false} WorkWithout(w: nat, universe: set<Copy>, s: State, p: Peer)
    requires p in s
    ensures TotalWork(w, universe, s) == Work(w, universe, s[p]) + TotalWork(w, universe, s - {p})
    decreases |s|
  {
    hide Work;
    assert s.Keys != {};
    var q :| q in s && TotalWork(w, universe, s) == Work(w, universe, s[q]) + TotalWork(w, universe, s - {q});
    if q != p {
      WorkWithout(w, universe, s - {q}, p);
      assert s - {q} - {p} == s - {p} - {q};
      WorkWithout(w, universe, s - {p}, q);
    }
  }

  lemma WorkUpdate(w: nat, universe: set<Copy>, s: State, p: Peer, n: NodeState)
    requires p in s
    ensures TotalWork(w, universe, s[p := n]) ==
            TotalWork(w, universe, s) - Work(w, universe, s[p]) + Work(w, universe, n)
  {
    hide Work, TotalWork;
    WorkWithout(w, universe, s, p);
    WorkWithout(w, universe, s[p := n], p);
    assert s[p := n] - {p} == s - {p};
  }

  /** A copy that is new takes a bounded number of pushes with it: less work in all. */
  lemma LandWork(c: Params, universe: set<Copy>, m: Peer, n: NodeState, id: BlockId, tier: Tier)
    requires AllTiers(id) <= universe && NodeWithin(universe, n)
    ensures var w := R.Want(Self(c, m));
            Work(w, universe, Land(c, m, n, id, tier)) <= Work(w, universe, n)
    ensures NodeWithin(universe, Land(c, m, n, id, tier))
  {
    hide Weigh, R.Replicas, R.Want, R.EnqueueAll, R.Tasks, AllTiers;
    var w := R.Want(Self(c, m));
    if (id, tier) !in n.copies {
      assert (id, tier) in universe by { TierAmong(id, tier); }
      var replicas := R.Replicas(Self(c, m), n.ring, id);
      var tasks := R.Tasks(replicas, id);
      ReplicasBound(c, m, n.ring, id);
      R.EnqueueTakes(n.queue, tasks);
      R.TasksAt(replicas, id);
      var fewer := universe - (n.copies + {(id, tier)});
      assert universe - n.copies == fewer + {(id, tier)};
      WorkDrops(w, |fewer| + 2 * Ahead(n) + 1, |fewer| + 2 * Ahead(n), Moves(n), Moves(Land(c, m, n, id, tier)));
    }
  }

  lemma TierAmong(id: BlockId, tier: Tier)
    ensures (id, tier) in AllTiers(id)
  {}

  lemma WorkDrops(w: nat, k: nat, k': nat, q: nat, q': nat)
    requires k' < k && q' <= q + 2 * w
    ensures Weigh(w, k', q') < Weigh(w, k, q)
  {
    MulMonotone(k' + 1, k, 2 * w + 1);
    assert (k' + 1) * (2 * w + 1) == k' * (2 * w + 1) + 2 * w + 1;
  }

  lemma ReplicasBound(c: Params, m: Peer, ring: set<Peer>, id: BlockId)
    ensures |R.Replicas(Self(c, m), ring, id)| <= R.Want(Self(c, m))
  {}

  lemma ServeWork(c: Params, universe: set<Copy>, m: Peer, n: NodeState, shift: Option<Shift>)
    requires NodeWithin(universe, n) && n.cursor < |n.round|
    ensures var w, n' := R.Want(Self(c, m)), Served(c, m, n, shift);
            Work(w, universe, n') < Work(w, universe, n) && NodeWithin(universe, n')
  {
    hide R.Want, Weigh, AllTiers, Route, Holds, Served;
    ServeEffect(c, m, n, shift);
    ServeWithin(c, universe, m, n, shift);
    ShiftMissing(c, universe, m, n, shift);
    var w, n' := R.Want(Self(c, m)), Served(c, m, n, shift);
    assert Ahead(n) == Ahead(n') + 1;
    WorkDrops(w, |universe - n.copies| + 2 * Ahead(n), |universe - n'.copies| + 2 * Ahead(n'), Moves(n), Moves(n'));
  }

  /** Moving a copy makes at most one copy missing. */
  lemma ShiftMissing(c: Params, universe: set<Copy>, m: Peer, n: NodeState, shift: Option<Shift>)
    requires n.cursor < |n.round|
    ensures |universe - Served(c, m, n, shift).copies| <= |universe - n.copies| + 1
  {
    hide R.ServeOne;
    var missing, missing' := universe - n.copies, universe - Served(c, m, n, shift).copies;
    if shift.Some? {
      var gone := (n.round[n.cursor], shift.value.from);
      assert missing' <= missing + {gone};
      SubsetSize(missing', missing + {gone});
    }
  }

  lemma ServeWithin(c: Params, universe: set<Copy>, m: Peer, n: NodeState, shift: Option<Shift>)
    requires NodeWithin(universe, n) && n.cursor < |n.round|
    ensures NodeWithin(universe, Served(c, m, n, shift))
  {
    hide AllTiers, Served, R.Targets, R.Tasks, Sweep;
    var id := n.round[n.cursor];
    ServedQueue(c, m, n, shift);
    R.TasksAt(R.Targets(Self(c, m), n.ring, id), id);
  }

  /** Every step the cluster takes on its own leaves strictly less to do. */
  lemma InternalStep(c: Params, universe: set<Copy>, s: State, l: Label)
    requires Within(universe, s) && Enabled(c, s, l) && Internal(l)
    ensures var w := Max(1, c.replicationFactor);
            TotalWork(w, universe, Step(c, s, l)) < TotalWork(w, universe, s) && Within(universe, Step(c, s, l))
  {
    hide NodeWithin, TotalWork, Work, R.ServeOne, R.NoRoom, Sweep, Send;
    var w, m := Max(1, c.replicationFactor), l.m;
    match l
    case Serve(_, shift) =>
      ServeStepWork(c, universe, s, m, shift);
    case EndRound(_) =>
      EndWork(w, universe, s[m]);
      WorkUpdate(w, universe, s, m, s[m].(active := false));
    case Take(_) =>
      TakeWork(w, universe, s[m]);
      WorkUpdate(w, universe, s, m, Taken(s[m]));
    case Arrive(_, task, landing) =>
      SentWork(w, universe, s[m], task);
      WorkUpdate(w, universe, s, m, Sent(s[m], task));
      SendWork(c, universe, s[m := Sent(s[m], task)], task.peer, task.id, landing);
  }

  lemma ServeStepWork(c: Params, universe: set<Copy>, s: State, m: Peer, shift: Option<Shift>)
    requires Within(universe, s) && Enabled(c, s, Serve(m, shift))
    ensures var w := Max(1, c.replicationFactor);
            var s' := Step(c, s, Serve(m, shift));
            TotalWork(w, universe, s') < TotalWork(w, universe, s) && Within(universe, s')
  {
    hide NodeWithin, TotalWork, Work, R.NoRoom, Served;
    ServeWork(c, universe, m, s[m], shift);
    WorkUpdate(Max(1, c.replicationFactor), universe, s, m, Served(c, m, s[m], shift));
  }

  lemma EndWork(w: nat, universe: set<Copy>, n: NodeState)
    requires n.active && NodeWithin(universe, n)
    ensures Work(w, universe, n.(active := false)) < Work(w, universe, n) && NodeWithin(universe, n.(active := false))
  {
    var jobs := |universe - n.copies| + 2 * Ahead(n);
    WorkDrops(w, jobs, jobs - 2, Moves(n), Moves(n));
  }

  lemma TakeWork(w: nat, universe: set<Copy>, n: NodeState)
    requires n.queue != [] && NodeWithin(universe, n)
    ensures Work(w, universe, Taken(n)) < Work(w, universe, n) && NodeWithin(universe, Taken(n))
  {
    hide AllTiers;
    assert AllTiers(n.queue[0].id) <= universe;
  }

  lemma SentWork(w: nat, universe: set<Copy>, n: NodeState, task: R.Task)
    requires task in n.sending && NodeWithin(universe, n)
    ensures Work(w, universe, Sent(n, task)) < Work(w, universe, n) && NodeWithin(universe, Sent(n, task))
    ensures AllTiers(task.id) <= universe
  {
    hide AllTiers;
    assert forall x | x in Sent(n, task).sending :: x in n.sending;
  }

  lemma SendWork(c: Params, universe: set<Copy>, s: State, p: Peer, id: BlockId, landing: Option<Tier>)
    requires Within(universe, s) && AllTiers(id) <= universe
    ensures var w := Max(1, c.replicationFactor);
            TotalWork(w, universe, Send(c, s, p, id, landing)) <= TotalWork(w, universe, s)
    ensures Within(universe, Send(c, s, p, id, landing))
  {
    hide NodeWithin, TotalWork, Work, Land, AllTiers;
    if p in s && landing.Some? {
      LandWork(c, universe, p, s[p], id, landing.value);
      WorkUpdate(Max(1, c.replicationFactor), universe, s, p, Land(c, p, s[p], id, landing.value));
    }
  }

  /** So a run without clients and membership changes has at most as many steps as there is work. */
  lemma {:induction false} InternalRunBound(c: Params, universe: set<Copy>, ss: seq<State>, ls: seq<Label>)
    requires IsRun(c, ss, ls) && Within(universe, ss[0]) && forall i | 0 <= i < |ls| :: Internal(ls[i])
    ensures var w := Max(1, c.replicationFactor);
            |ls| + TotalWork(w, universe, ss[|ls|]) <= TotalWork(w, universe, ss[0]) && Within(universe, ss[|ls|])
  {
    hide Enabled, Step, Within, TotalWork;
    if ls != [] {
      var last := |ls| - 1;
      InternalRunBound(c, universe, ss[..|ls|], ls[..last]);
      InternalStep(c, universe, ss[last], ls[last]);
    }
  }

  /** Every state has a universe. */
  ghost function Universe(s: State): set<Copy>
  {
    (set m, i, t: Tier | m in s && 0 <= i < |s[m].queue| && t in {HBM, DRAM, SSD} :: (s[m].queue[i].id, t))
    + (set m, task, t: Tier | m in s && task in s[m].sending && t in {HBM, DRAM, SSD} :: (task.id, t))
    + (set m, i, t: Tier | m in s && 0 <= i < |s[m].round| && t in {HBM, DRAM, SSD} :: (s[m].round[i], t))
  }

  lemma UniverseCovers(s: State)
    ensures Within(Universe(s), s)
  {}

  /** Nothing left to do anywhere. */
  predicate Quiescent(s: State) { forall m | m in s :: Idle(s[m]) }

  /** No candidate still to serve has more targets than a queue holds. */
  ghost predicate Roomy(c: Params, s: State)
  {
    forall m | m in s && s[m].active :: R.Narrow(Self(c, m), Sweep(s[m]), R.QUEUE_MAX)
  }

  /** That is so for R up to 1024, and for R of 1025 when every candidate's route contains the node. */
  lemma RoomyForMembers(c: Params, s: State)
    requires forall m, i | m in s && 0 <= i < |s[m].round| :: FewTargets(c, m, s[m], s[m].round[i])
    ensures Roomy(c, s)
  {
    forall m, i | m in s && s[m].cursor <= i < |s[m].round|
      ensures |R.Targets(Self(c, m), Sweep(s[m]).ring, s[m].round[i])| <= R.QUEUE_MAX
    {
      assert FewTargets(c, m, s[m], s[m].round[i]);
      R.TargetsBound(Self(c, m), s[m].ring, s[m].round[i]);
      hide R.Targets, Sweep;
      assert Sweep(s[m]).ring == s[m].ring by { SweepRing(s[m]); }
    }
  }

  ghost predicate FewTargets(c: Params, m: Peer, n: NodeState, id: BlockId)
  {
    || R.Want(Self(c, m)) <= R.QUEUE_MAX
    || (R.Want(Self(c, m)) == R.QUEUE_MAX + 1 && m in R.RouteOf(Self(c, m), n.ring, id))
  }

  lemma SweepRing(n: NodeState)
    ensures Sweep(n).ring == n.ring
  {}

  lemma RoomyStep(c: Params, s: State, l: Label)
    requires Roomy(c, s) && Enabled(c, s, l) && Internal(l)
    ensures Roomy(c, Step(c, s, l))
  {
    var s' := Step(c, s, l);
    StepKeeps(c, s, l);
    hide Step, Enabled, R.Targets;
    forall m | m in s' && s'[m].active ensures R.Narrow(Self(c, m), Sweep(s'[m]), R.QUEUE_MAX) {
      assert R.Narrow(Self(c, m), Sweep(s[m]), R.QUEUE_MAX);
    }
  }

  /** Same ring and round, and the cursor no further back. */
  predicate Forward(n: NodeState, n': NodeState)
  {
    n'.ring == n.ring && n'.round == n.round && n.cursor <= n'.cursor && (n'.active ==> n.active)
  }

  /** A cluster's own steps change no ring and no round, and move cursors forward only. */
  lemma StepKeeps(c: Params, s: State, l: Label)
    requires Enabled(c, s, l) && Internal(l)
    ensures Step(c, s, l).Keys == s.Keys && forall m | m in s :: Forward(s[m], Step(c, s, l)[m])
  {
    match l
    case Serve(m, shift) =>
      hide R.ServeOne, R.NoRoom;
      ServeEffect(c, m, s[m], shift);
    case Arrive(m, task, landing) =>
      ArriveKeeps(c, s, m, task, landing);
      hide R.NoRoom, Send, Forward;
    case _ =>
      hide R.NoRoom;
  }

  lemma ArriveKeeps(c: Params, s: State, m: Peer, task: R.Task, landing: Option<Tier>)
    requires m in s
    ensures var s' := Send(c, s[m := Sent(s[m], task)], task.peer, task.id, landing);
            s'.Keys == s.Keys && forall q | q in s :: Forward(s[q], s'[q])
  {
    hide Send, Keeps;
    SendGrows(c, s[m := Sent(s[m], task)], task.peer, task.id, landing);
  }

  lemma {:induction false} RoomyRun(c: Params, ss: seq<State>, ls: seq<Label>, a: nat, b: nat)
    requires IsRun(c, ss, ls) && a <= b <= |ls| && Roomy(c, ss[a]) && forall k | a <= k < b :: Internal(ls[k])
    ensures Roomy(c, ss[b])
  {
    hide Roomy, Enabled, Step;
    if a < b {
      RoomyRun(c, ss, ls, a, b - 1);
      RoomyStep(c, ss[b - 1], ls[b - 1]);
    }
  }

  /** A cluster that can do nothing more is done, unless a candidate's route does not fit the queue. */
  lemma StuckIsQuiescent(c: Params, s: State)
    requires Roomy(c, s)
    requires forall l | Internal(l) :: !Enabled(c, s, l)
    ensures Quiescent(s)
  {
    forall m | m in s ensures Idle(s[m]) {
      if s[m].sending != multiset{} {
        var arrival := SomeArrival(c, s, m);
      }
      assert !Enabled(c, s, Take(m));
      assert !Enabled(c, s, EndRound(m));
      assert !Enabled(c, s, Serve(m, None));
      if s[m].active && s[m].queue == [] {
        RoomForNext(c, m, s[m]);
      }
    }
  }

  lemma SomeArrival(c: Params, s: State, m: Peer) returns (l: Label)
    requires m in s && s[m].sending != multiset{}
    ensures Internal(l) && Enabled(c, s, l)
  {
    var task :| task in s[m].sending;
    l := Arrive(m, task, None);
  }

  lemma RoomForNext(c: Params, m: Peer, n: NodeState)
    requires n.queue == [] && n.cursor < |n.round| ==> R.Narrow(Self(c, m), Sweep(n), R.QUEUE_MAX)
    ensures n.queue == [] && n.cursor < |n.round| ==> !R.NoRoom(Self(c, m), Sweep(n))
  {
    hide R.Targets;
  }

  /**
   Recovery is always possible: from every state the nodes' own steps, with every push received, lead
   to a state with nothing left to do, and there no step of their own is possible any more.
   */
  lemma {:induction false} RunsToQuiescence(c: Params, s: State, universe: set<Copy>)
    returns (ss: seq<State>, ls: seq<Label>)
    requires Roomy(c, s) && Within(universe, s)
    ensures IsRun(c, ss, ls) && |ss| == |ls| + 1 && ss[0] == s
    ensures forall k | 0 <= k < |ls| :: Internal(ls[k]) && (ls[k].Arrive? ==> ls[k].landing.Some?)
    ensures Quiescent(ss[|ls|]) && forall l | Internal(l) :: !Enabled(c, ss[|ls|], l)
    decreases TotalWork(Max(1, c.replicationFactor), universe, s)
  {
    hide Enabled, Step, Within, TotalWork, Quiescent, IsRun, Roomy;
    if Quiescent(s) {
      QuiescentIsStuck(c, s);
      return [s], [];
    }
    var l := SomeStep(c, s);
    InternalStep(c, universe, s, l);
    RoomyStep(c, s, l);
    var rest, more := RunsToQuiescence(c, Step(c, s, l), universe);
    RunCons(c, s, l, rest, more);
    ss, ls := [s] + rest, [l] + more;
  }

  lemma QuiescentIsStuck(c: Params, s: State)
    requires Quiescent(s)
    ensures IsRun(c, [s], []) && forall l | Internal(l) :: !Enabled(c, s, l)
  {}

  lemma RunCons(c: Params, s: State, l: Label, ss: seq<State>, ls: seq<Label>)
    requires Enabled(c, s, l) && IsRun(c, ss, ls) && ss[0] == Step(c, s, l)
    ensures IsRun(c, [s] + ss, [l] + ls)
  {
    hide Enabled, Step;
  }

  lemma SomeStep(c: Params, s: State) returns (l: Label)
    requires Roomy(c, s) && !Quiescent(s)
    ensures Internal(l) && Enabled(c, s, l) && (l.Arrive? ==> l.landing.Some?)
  {
    hide Roomy, Quiescent;
    if forall l | Internal(l) :: !Enabled(c, s, l) {
      StuckIsQuiescent(c, s);
      assert false;
    }
    l :| Internal(l) && Enabled(c, s, l);
    if l.Arrive? {
      l := Arrive(l.m, l.task, Some(DRAM));
    }
  }

  /**
   Recovery. From the moment only the survivors' own steps are left (index `e`), the number of steps
   is bounded; and when no step is left, every block that a surviving member of its old route held
   when it installed the reduced ring is held by every member of its new route.
   */
  lemma ClusterRecovers(c: Params, ss: seq<State>, ls: seq<Label>, a: nat, e: nat, m: Peer, peers: set<Peer>,
                        survivors: set<Peer>, candidates: seq<BlockId>, id: BlockId)
    requires IsRun(c, ss, ls) && a < e <= |ls| < |ss| && ls[a] == Install(m, survivors, candidates)
    requires NoCrossTies(c.vh, c.vnodes, peers) && survivors <= peers && ss[a].Keys == survivors
    requires m in Route(c, peers, id) && m in ss[a] && Holds(ss[a][m], id)
    requires forall k | a < k < e && ls[k].m == m :: !ls[k].Install? && !ls[k].Rejoin?
    requires forall k | e <= k < |ls| :: Internal(ls[k])
    requires forall k | a <= k < |ls| && ls[k].Arrive? :: ls[k].landing.Some?
    requires Roomy(c, ss[e])
    ensures |ls| - e <= TotalWork(Max(1, c.replicationFactor), Universe(ss[e]), ss[e])
    ensures (forall l | Internal(l) :: !Enabled(c, ss[|ls|], l)) ==>
              forall p | p in Route(c, survivors, id) :: p in ss[|ls|] && Holds(ss[|ls|][p], id)
  {
    hide Enabled, Step, Route, Holds, NoCrossTies, TotalWork, Universe, Within, Roomy;
    RoomyRun(c, ss, ls, e, |ls|);
    UniverseCovers(ss[e]);
    InternalRunBound(c, Universe(ss[e]), ss[e..], ls[e..]);
    if forall l | Internal(l) :: !Enabled(c, ss[|ls|], l) {
      StuckIsQuiescent(c, ss[|ls|]);
      RunKeys(c, ss, ls, a, |ls|);
      forall p | p in Route(c, survivors, id) ensures p in ss[|ls|] && Holds(ss[|ls|][p], id) {
        Reconverges(c, ss, ls, a, |ls|, m, peers, survivors, candidates, id, p);
      }
    }
  }
}
