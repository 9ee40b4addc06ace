/**
 The re-replication protocol of one node (cache_server/src/replication.cpp) as a step machine. Each
 step is one critical section of the source: the sweep holds the round lock from DrainBegin to
 DrainEnd but takes the queue lock separately to check for room and to push, so inserts and workers
 may run in between.
 */
module ReReplication {
  import opened Types
  import opened SuccessorOrder
  import opened Routing

  const QUEUE_MAX := 1024
  const BATCH := 256

  /** The fixed parameters of a node. */
  datatype Node = Node(self: Peer, vh: VnodeHash, vnodes: nat, replicationFactor: nat)

  datatype Task = Task(peer: Peer, id: BlockId)

  /** Where the sweep is: between ticks, at the loop head, or inside one candidate. */
  datatype Pc =
    | Idle
    | Head
    | Routed(targets: seq<Peer>)
    | HasRoom(targets: seq<Peer>)
    | Fetched(targets: seq<Peer>)
    | Stopping

  datatype State = State(queue: seq<Task>, round: seq<BlockId>, cursor: nat, active: bool, pc: Pc, dispatched: nat,
                         ring: set<Peer>, held: set<BlockId>)

  datatype Label =
    | SetRing(ring: set<Peer>)          // the router is given a new peer set
    | StoreChanges(held: set<BlockId>)  // inserts and evictions
    | Enqueue(task: Task)               // one push of ReplicateOut
    | WorkerTakes
    | Trigger(candidates: seq<BlockId>)
    | DrainBegin
    | ReadRoute
    | CheckRoom
    | Fetch
    | Push
    | DrainEnd

  function Want(n: Node): nat { Max(1, n.replicationFactor) }

  /** The members of a block's route under a peer set. */
  ghost function RouteOf(n: Node, ring: set<Peer>, id: BlockId): (route: seq<Peer>)
    ensures |route| <= Want(n)
  {
    RouteSpec(n.vh, n.vnodes, n.replicationFactor, ring, HashBlock(id))
  }

  function Without(s: seq<Peer>, p: Peer): (r: seq<Peer>)
    ensures |r| <= |s|
    ensures forall q :: q in r <==> q in s && q != p
  {
    if s == [] then [] else if s[0] == p then Without(s[1..], p) else [s[0]] + Without(s[1..], p)
  }

  /** Every member of the route except this node. */
  ghost function Targets(n: Node, ring: set<Peer>, id: BlockId): (t: seq<Peer>)
    ensures |t| <= Want(n)
  {
    Without(RouteOf(n, ring, id), n.self)
  }

  function Tasks(targets: seq<Peer>, id: BlockId): (ts: seq<Task>)
    ensures |ts| == |targets|
    ensures forall p | p in targets :: Task(p, id) in ts
  {
    if targets == [] then [] else [Task(targets[0], id)] + Tasks(targets[1..], id)
  }

  lemma {:induction false} TasksAt(targets: seq<Peer>, id: BlockId)
    ensures forall i | 0 <= i < |targets| :: Tasks(targets, id)[i] == Task(targets[i], id)
    ensures forall p :: Task(p, id) in Tasks(targets, id) <==> p in targets
  {
    if targets != [] {
      TasksAt(targets[1..], id);
    }
  }

  /** The replicas of the route except this node: whom an insert is pushed to. */
  ghost function Replicas(n: Node, ring: set<Peer>, id: BlockId): seq<Peer>
  {
    var route := RouteOf(n, ring, id);
    if route == [] then [] else Without(route[1..], n.self)
  }

  /** Pushes one by one, each dropped when it finds the queue full. */
  function EnqueueAll(queue: seq<Task>, tasks: seq<Task>): seq<Task>
    decreases |tasks|
  {
    if tasks == [] then queue
    else EnqueueAll(if |queue| >= QUEUE_MAX then queue else queue + [tasks[0]], tasks[1..])
  }

  // Whom a node pushes to

  /** `rest` is `s` with `p` cut out, if it is there. */
  ghost predicate CutOut(s: seq<Peer>, p: Peer, rest: seq<Peer>)
  {
    if p in s then exists i | 0 <= i < |s| :: s[i] == p && rest == s[..i] + s[i + 1..] else rest == s
  }

  lemma {:induction false} WithoutCuts(s: seq<Peer>, p: Peer)
    requires forall i, j | 0 <= i < j < |s| :: s[i] != s[j]
    ensures CutOut(s, p, Without(s, p))
  {
    if s != [] {
      if s[0] == p {
        assert forall i | 0 <= i < |s[1..]| :: s[1..][i] == s[i + 1];
        WithoutNone(s[1..], p);
        assert s[..0] + s[0 + 1..] == s[1..];
      } else {
        WithoutCuts(s[1..], p);
        hide CutOut;
        CutCons(s[0], s[1..], p, Without(s[1..], p));
        assert [s[0]] + s[1..] == s;
      }
    }
  }

  lemma CutCons(x: Peer, s: seq<Peer>, p: Peer, rest: seq<Peer>)
    requires CutOut(s, p, rest) && x != p
    ensures CutOut([x] + s, p, [x] + rest)
  {
    if p in s {
      var i :| 0 <= i < |s| && s[i] == p && rest == s[..i] + s[i + 1..];
      assert ([x] + s)[i + 1] == p && [x] + rest == ([x] + s)[..i + 1] + ([x] + s)[i + 1 + 1..];
    }
  }

  lemma {:induction false} WithoutNone(s: seq<Peer>, p: Peer)
    requires p !in s
    ensures Without(s, p) == s
  {
    if s != [] {
      WithoutNone(s[1..], p);
    }
  }

  lemma RouteDistinct(n: Node, ring: set<Peer>, id: BlockId)
    ensures forall i, j | 0 <= i < j < |RouteOf(n, ring, id)| :: RouteOf(n, ring, id)[i] != RouteOf(n, ring, id)[j]
  {
    if n.vnodes > 0 {
      OrderDistinct(Dist(n.vh, n.vnodes, HashBlock(id)), ring);
    }
  }

  /**
   An insert goes to the route after its first member, a sweep to the whole route, in route order and
   each member once, with this node cut out: no node ever pushes to itself.
   */
  lemma PushesAre(n: Node, ring: set<Peer>, id: BlockId)
    ensures var route := RouteOf(n, ring, id);
            && CutOut(route, n.self, Targets(n, ring, id))
            && (if route == [] then Replicas(n, ring, id) == [] else CutOut(route[1..], n.self, Replicas(n, ring, id)))
            && n.self !in Targets(n, ring, id) && n.self !in Replicas(n, ring, id)
  {
    hide RouteOf, CutOut;
    var route := RouteOf(n, ring, id);
    RouteDistinct(n, ring, id);
    WithoutCuts(route, n.self);
    if route != [] {
      WithoutCuts(route[1..], n.self);
    }
  }

  /** How many of `tasks` the queue takes. */
  function Room(queue: seq<Task>, tasks: seq<Task>): (k: nat)
    ensures k <= |tasks|
  {
    Max(0, Min(|tasks|, QUEUE_MAX - |queue|))
  }

  /** Pushes are taken in order until the queue is full, and dropped from then on. */
  lemma {:induction false} EnqueueTakes(queue: seq<Task>, tasks: seq<Task>)
    ensures EnqueueAll(queue, tasks) == queue + tasks[..Room(queue, tasks)]
    decreases |tasks|
  {
    if tasks == [] {
      assert queue + tasks[..0] == queue;
    } else if |queue| >= QUEUE_MAX {
      EnqueueTakes(queue, tasks[1..]);
      assert tasks[1..][..0] == tasks[..0];
    } else {
      var k := Room(queue, tasks);
      EnqueueTakes(queue + [tasks[0]], tasks[1..]);
      assert queue + [tasks[0]] + tasks[1..][..k - 1] == queue + tasks[..k];
    }
  }

  lemma EnqueueMore(queue: seq<Task>, first: seq<Task>, more: seq<Task>)
    ensures EnqueueAll(queue + first[..Room(queue, first)], more) == queue + (first + more)[..Room(queue, first + more)]
  {
    var q := queue + first[..Room(queue, first)];
    EnqueueTakes(q, more);
    if Room(queue, first) < |first| {
      assert (first + more)[..Room(queue, first)] == first[..Room(queue, first)];
    } else {
      assert first + more[..Room(q, more)] == (first + more)[..|first| + Room(q, more)];
    }
  }

  /** The loop guard of a drain. */
  predicate More(s: State) { s.dispatched < BATCH && s.cursor < |s.round| }

  ghost predicate Enabled(s: State, l: Label)
  {
    match l
    case SetRing(_) => true
    case StoreChanges(_) => true
    case Enqueue(_) => true
    case WorkerTakes => s.queue != []
    case Trigger(_) => s.pc == Idle
    case DrainBegin => s.pc == Idle && s.active
    case ReadRoute => s.pc == Head && More(s)
    case CheckRoom => s.pc.Routed?
    case Fetch => s.pc.HasRoom? && s.cursor < |s.round|
    case Push => s.pc.Fetched? && s.cursor < |s.round|
    case DrainEnd => s.pc == Stopping || (s.pc == Head && !More(s))
  }

  ghost function Step(n: Node, s: State, l: Label): State
    requires Enabled(s, l)
  {
    match l
    case SetRing(ring) => s.(ring := ring)
    case StoreChanges(held) => s.(held := held)
    case Enqueue(task) => if |s.queue| >= QUEUE_MAX then s else s.(queue := s.queue + [task])
    case WorkerTakes => s.(queue := s.queue[1..])
    case Trigger(candidates) => s.(round := candidates, cursor := 0, active := candidates != [])
    case DrainBegin => s.(pc := Head, dispatched := 0)
    case ReadRoute =>
      var targets := Targets(n, s.ring, s.round[s.cursor]);
      if targets == [] then s.(cursor := s.cursor + 1) else s.(pc := Routed(targets))
    case CheckRoom =>
      if |s.queue| + |s.pc.targets| > QUEUE_MAX then s.(pc := Stopping) else s.(pc := HasRoom(s.pc.targets))
    case Fetch =>
      if s.round[s.cursor] in s.held then s.(pc := Fetched(s.pc.targets)) else s.(cursor := s.cursor + 1, pc := Head)
    case Push =>
      s.(queue := s.queue + Tasks(s.pc.targets, s.round[s.cursor]), cursor := s.cursor + 1,
         dispatched := s.dispatched + 1, pc := Head)
    case DrainEnd => s.(active := s.cursor < |s.round|, pc := Idle)
  }

  const INITIAL := State([], [], 0, false, Idle, 0, {}, {})

  /** A run: states linked by enabled steps, in any interleaving. */
  ghost predicate IsRun(n: Node, ss: seq<State>, ls: seq<Label>)
  {
    && |ss| == |ls| + 1
    && forall i | 0 <= i < |ls| :: Enabled(ss[i], ls[i]) && ss[i + 1] == Step(n, ss[i], ls[i])
  }

  // The queue bound

  /** Between check and push inserts may fill the queue to the brim, but no further. */
  ghost predicate QueueInv(n: Node, s: State)
  {
    && |s.queue| <= QUEUE_MAX + Want(n)
    && (s.pc.Routed? || s.pc.HasRoom? || s.pc.Fetched? ==> |s.pc.targets| <= Want(n))
    && (s.pc.HasRoom? || s.pc.Fetched? ==> |s.queue| <= QUEUE_MAX)
  }

  lemma QueueStep(n: Node, s: State, l: Label)
    requires QueueInv(n, s) && Enabled(s, l)
    ensures QueueInv(n, Step(n, s, l))
  {}

  /** However inserts, sweeps and workers interleave, the queue never exceeds 1024 + max(1, R). */
  lemma {:induction false} QueueBound(n: Node, ss: seq<State>, ls: seq<Label>)
    requires IsRun(n, ss, ls) && QueueInv(n, ss[0])
    ensures forall i | 0 <= i < |ss| :: |ss[i].queue| <= QUEUE_MAX + Want(n)
    ensures QueueInv(n, ss[|ls|])
  {
    if ls != [] {
      var last := |ls| - 1;
      hide QueueInv, Enabled, Step;
      QueueBound(n, ss[..|ls|], ls[..last]);
      QueueStep(n, ss[last], ls[last]);
      assert forall i | 0 <= i < |ls| :: ss[..|ls|][i] == ss[i];
      QueueInvBounds(n, ss[|ls|]);
    }
    QueueInvBounds(n, ss[|ls|]);
  }

  lemma QueueInvBounds(n: Node, s: State)
    requires QueueInv(n, s)
    ensures |s.queue| <= QUEUE_MAX + Want(n)
  {}

  /** The bound is attained: whenever a held block's route has `k` other members, some run gets to 1024 + k. */
  lemma QueueBoundAttained(n: Node, ring: set<Peer>, id: BlockId)
    requires 1 <= |Targets(n, ring, id)| <= QUEUE_MAX
    ensures exists ss: seq<State>, ls: seq<Label> ::
              IsRun(n, ss, ls) && ss[0] == INITIAL && |ss[|ls|].queue| == QUEUE_MAX + |Targets(n, ring, id)|
  {
    hide IsRun, Targets, Tasks;
    var t := Targets(n, ring, id);
    var ss, ls := ToTheCheck(n, ring, id);
    ss, ls := Fill(n, ss, ls, Task(t[0], id), QUEUE_MAX);
    ss, ls := Extend(n, ss, ls, Fetch);
    ss, ls := Extend(n, ss, ls, Push);
  }

  lemma ToTheCheck(n: Node, ring: set<Peer>, id: BlockId) returns (ss: seq<State>, ls: seq<Label>)
    requires 1 <= |Targets(n, ring, id)| <= QUEUE_MAX
    ensures IsRun(n, ss, ls) && |ss| == |ls| + 1 && ss[0] == INITIAL
    ensures var s := ss[|ls|];
            && |s.queue| <= QUEUE_MAX && s.round == [id] && s.cursor == 0 && id in s.held
            && s.pc == HasRoom(Targets(n, ring, id))
  {
    var t := Targets(n, ring, id);
    var s0 := INITIAL.(ring := ring, held := {id}, round := [id], active := true);
    ss, ls := Prepared(n, ring, id);
    hide IsRun, Targets;
    ss, ls := Extend(n, ss, ls, DrainBegin);
    assert ss[|ls|] == s0.(pc := Head);
    ss, ls := Extend(n, ss, ls, ReadRoute);
    assert ss[|ls|] == s0.(pc := Routed(t));
    ss, ls := Extend(n, ss, ls, CheckRoom);
  }

  lemma Prepared(n: Node, ring: set<Peer>, id: BlockId) returns (ss: seq<State>, ls: seq<Label>)
    ensures IsRun(n, ss, ls) && |ss| == |ls| + 1 && ss[0] == INITIAL
    ensures ss[|ls|] == INITIAL.(ring := ring, held := {id}, round := [id], active := true)
  {
    ss, ls := [INITIAL], [];
    assert IsRun(n, ss, ls);
    hide IsRun;
    ss, ls := Extend(n, ss, ls, SetRing(ring));
    ss, ls := Extend(n, ss, ls, StoreChanges({id}));
    ss, ls := Extend(n, ss, ls, Trigger([id]));
  }

  lemma Extend(n: Node, ss: seq<State>, ls: seq<Label>, l: Label) returns (ss': seq<State>, ls': seq<Label>)
    requires IsRun(n, ss, ls) && Enabled(ss[|ls|], l)
    ensures IsRun(n, ss', ls') && |ss'| == |ls'| + 1 && ss'[0] == ss[0] && ss'[|ls'|] == Step(n, ss[|ls|], l)
    ensures ss <= ss' && ls <= ls'
  {
    hide Enabled, Step;
    ss', ls' := ss + [Step(n, ss[|ls|], l)], ls + [l];
  }

  lemma {:induction false} Fill(n: Node, ss: seq<State>, ls: seq<Label>, task: Task, goal: nat)
    returns (ss': seq<State>, ls': seq<Label>)
    requires IsRun(n, ss, ls) && |ss[|ls|].queue| <= goal <= QUEUE_MAX
    ensures IsRun(n, ss', ls') && |ss'| == |ls'| + 1 && ss'[0] == ss[0] && |ss'[|ls'|].queue| == goal
    ensures ss'[|ls'|] == ss[|ls|].(queue := ss'[|ls'|].queue)
    decreases goal - |ss[|ls|].queue|
  {
    if |ss[|ls|].queue| == goal {
      ss', ls' := ss, ls;
    } else {
      ss', ls' := Extend(n, ss, ls, Enqueue(task));
      ss', ls' := Fill(n, ss', ls', task, goal);
    }
  }

  // First in, first out

  /** What a step adds to the queue: an insert's push if there is room, a sweep's pushes in any case. */
  function Adds(s: State, l: Label): seq<Task>
  {
    match l
    case Enqueue(task) => if |s.queue| < QUEUE_MAX then [task] else []
    case Push => if s.pc.Fetched? && s.cursor < |s.round| then Tasks(s.pc.targets, s.round[s.cursor]) else []
    case _ => []
  }

  function Added(ss: seq<State>, ls: seq<Label>): seq<Task>
    requires |ss| == |ls| + 1
  {
    if ls == [] then [] else
      var last := |ls| - 1;
      Added(ss[..|ls|], ls[..last]) + Adds(ss[last], ls[last])
  }

  /** How often a worker took a push. */
  function Takes(ls: seq<Label>): nat
  {
    if ls == [] then 0 else Takes(ls[..|ls| - 1]) + if ls[|ls| - 1] == WorkerTakes then 1 else 0
  }

  /**
   In every run the queue is what was in it and everything added since, in order, less as many from the
   front as workers took: pushes are taken in the order in which they were queued.
   */
  lemma {:induction false} FirstInFirstOut(n: Node, ss: seq<State>, ls: seq<Label>)
    requires IsRun(n, ss, ls)
    ensures var all := ss[0].queue + Added(ss, ls);
            Takes(ls) <= |all| && ss[|ls|].queue == all[Takes(ls)..]
  {
    hide Enabled, Step, Adds;
    if ls != [] {
      var last := |ls| - 1;
      FirstInFirstOut(n, ss[..|ls|], ls[..last]);
      QueueAfter(n, ss[last], ls[last]);
      var before, adds := ss[0].queue + Added(ss[..|ls|], ls[..last]), Adds(ss[last], ls[last]);
      SuffixMoves(before, Takes(ls[..last]), ss[last].queue, adds, ls[last] == WorkerTakes);
      assert ss[0].queue + Added(ss, ls) == before + adds;
    }
  }

  lemma SuffixMoves(all: seq<Task>, k: nat, queue: seq<Task>, adds: seq<Task>, took: bool)
    requires k <= |all| && queue == all[k..] && (took ==> queue != [] && adds == [])
    ensures var k' := if took then k + 1 else k;
            k' <= |all + adds| && (if took then queue[1..] else queue + adds) == (all + adds)[k'..]
  {
    if took {
      assert all + adds == all;
    }
  }

  lemma QueueAfter(n: Node, s: State, l: Label)
    requires Enabled(s, l)
    ensures Step(n, s, l).queue == (if l == WorkerTakes then s.queue[1..] else s.queue + Adds(s, l))
    ensures l == WorkerTakes ==> s.queue != [] && Adds(s, l) == []
  {
    hide Tasks, Targets;
  }

  // No candidate is skipped

  /** Step `r` read the route of candidate `i`, the block `id`. */
  ghost predicate ReadAt(ss: seq<State>, ls: seq<Label>, r: nat, i: nat, id: BlockId)
  {
    r < |ls| < |ss| && ls[r] == ReadRoute && ss[r].cursor == i < |ss[r].round| && ss[r].round[i] == id
  }

  /** Step `f` found candidate `i`, the block `id`, gone from the store. */
  ghost predicate MissedAt(ss: seq<State>, ls: seq<Label>, f: nat, i: nat, id: BlockId)
  {
    f < |ls| < |ss| && ls[f] == Fetch && ss[f].cursor == i && id !in ss[f].held
  }

  /** Step `f` appended a push of candidate `i`, the block `id`, for each of `targets` to the queue. */
  ghost predicate PushedAt(ss: seq<State>, ls: seq<Label>, f: nat, i: nat, id: BlockId, targets: seq<Peer>)
  {
    f < |ls| < |ss| && ls[f] == Push && ss[f].cursor == i && ss[f + 1].queue == ss[f].queue + Tasks(targets, id)
  }

  /**
   Candidate `i`, the block `id`, was dealt with between steps `a` and `b`: its route was read, and it
   had no other member then, or the block was gone when looked up, or it was pushed to every other
   member of that very route.
   */
  ghost predicate Covered(n: Node, ss: seq<State>, ls: seq<Label>, a: nat, b: nat, i: nat, id: BlockId)
  {
    exists r :: a <= r < b && ReadAt(ss, ls, r, i, id) && CoveredFrom(n, ss, ls, r, b, i, id)
  }

  ghost predicate CoveredFrom(n: Node, ss: seq<State>, ls: seq<Label>, r: nat, b: nat, i: nat, id: BlockId)
    requires r < |ss|
  {
    var targets := Targets(n, ss[r].ring, id);
    || targets == []
    || exists f :: r < f < b && (MissedAt(ss, ls, f, i, id) || PushedAt(ss, ls, f, i, id, targets))
  }

  function Held(pc: Pc): seq<Peer>
  {
    match pc
    case Routed(t) => t
    case HasRoom(t) => t
    case Fetched(t) => t
    case _ => []
  }

  predicate Inside(pc: Pc) { pc.Routed? || pc.HasRoom? || pc.Fetched? }

  /** Since step `a` the sweep has read the targets it holds for the candidate under the cursor. */
  ghost predicate Holding(n: Node, ss: seq<State>, ls: seq<Label>, a: nat, b: nat, id: BlockId)
    requires b < |ss| && Inside(ss[b].pc)
  {
    exists r :: a <= r < b && ReadAt(ss, ls, r, ss[b].cursor, id) && Held(ss[b].pc) == Targets(n, ss[r].ring, id)
  }

  /** The round installed at step `a` is still in place before step `b`, and covered up to the cursor. */
  ghost predicate RoundInv(n: Node, ss: seq<State>, ls: seq<Label>, a: nat, b: nat, round: seq<BlockId>)
    requires b < |ss|
  {
    && ss[b].round == round && ss[b].cursor <= |round|
    && (forall i | 0 <= i < ss[b].cursor :: Covered(n, ss, ls, a, b, i, round[i]))
    && (Inside(ss[b].pc) ==> ss[b].cursor < |round| && Holding(n, ss, ls, a, b, round[ss[b].cursor]))
    && (ss[b].active || ss[b].cursor == |round|)
  }

  lemma CoveredStays(n: Node, ss: seq<State>, ls: seq<Label>, a: nat, b: nat, i: nat, id: BlockId)
    requires Covered(n, ss, ls, a, b, i, id)
    ensures Covered(n, ss, ls, a, b + 1, i, id)
  {
    var r :| a <= r < b && ReadAt(ss, ls, r, i, id) && CoveredFrom(n, ss, ls, r, b, i, id);
    hide MissedAt, PushedAt, Targets;
    assert CoveredFrom(n, ss, ls, r, b + 1, i, id);
  }

  lemma HoldingStays(n: Node, ss: seq<State>, ls: seq<Label>, a: nat, b: nat, id: BlockId)
    requires b + 1 < |ss| && Inside(ss[b].pc) && Inside(ss[b + 1].pc) && Holding(n, ss, ls, a, b, id)
    requires ss[b + 1].cursor == ss[b].cursor && Held(ss[b + 1].pc) == Held(ss[b].pc)
    ensures Holding(n, ss, ls, a, b + 1, id)
  {
    hide Targets, ReadAt;
    var r :| a <= r < b && ReadAt(ss, ls, r, ss[b].cursor, id) && Held(ss[b].pc) == Targets(n, ss[r].ring, id);
  }

  /** A Trigger starts a round with nothing covered yet. */
  lemma RoundStarts(n: Node, ss: seq<State>, ls: seq<Label>, a: nat, round: seq<BlockId>)
    requires IsRun(n, ss, ls) && a < |ls| && ls[a] == Trigger(round)
    ensures RoundInv(n, ss, ls, a, a + 1, round)
  {
    assert Enabled(ss[a], ls[a]) && ss[a + 1] == Step(n, ss[a], ls[a]);
  }

  /** A miss or a push covers the candidate whose targets the sweep holds. */
  lemma CoversHeld(n: Node, ss: seq<State>, ls: seq<Label>, a: nat, b: nat, id: BlockId)
    requires IsRun(n, ss, ls) && b < |ls| && Inside(ss[b].pc) && Holding(n, ss, ls, a, b, id)
    requires ss[b].cursor < |ss[b].round| && ss[b].round[ss[b].cursor] == id
    requires (ls[b] == Fetch && id !in ss[b].held) || ls[b] == Push
    ensures Covered(n, ss, ls, a, b + 1, ss[b].cursor, id)
  {
    hide Targets;
    assert Enabled(ss[b], ls[b]) && ss[b + 1] == Step(n, ss[b], ls[b]);
    var i := ss[b].cursor;
    var r :| a <= r < b && ReadAt(ss, ls, r, i, id) && Held(ss[b].pc) == Targets(n, ss[r].ring, id);
    assert MissedAt(ss, ls, b, i, id) || PushedAt(ss, ls, b, i, id, Targets(n, ss[r].ring, id));
    assert CoveredFrom(n, ss, ls, r, b + 1, i, id);
  }

  lemma CoversTargetless(n: Node, ss: seq<State>, ls: seq<Label>, a: nat, b: nat, id: BlockId)
    requires a <= b < |ss| && ReadAt(ss, ls, b, ss[b].cursor, id) && Targets(n, ss[b].ring, id) == []
    ensures Covered(n, ss, ls, a, b + 1, ss[b].cursor, id)
  {
    hide Targets;
    assert CoveredFrom(n, ss, ls, b, b + 1, ss[b].cursor, id);
  }

  /** A step that leaves the sweep where it is. */
  lemma RoundIdles(n: Node, ss: seq<State>, ls: seq<Label>, a: nat, b: nat, round: seq<BlockId>)
    requires b + 1 < |ss| && RoundInv(n, ss, ls, a, b, round)
    requires ss[b + 1].round == ss[b].round && ss[b + 1].cursor == ss[b].cursor
    requires Inside(ss[b + 1].pc) ==> Inside(ss[b].pc) && Held(ss[b + 1].pc) == Held(ss[b].pc)
    requires ss[b + 1].active || ss[b].cursor == |round|
    ensures RoundInv(n, ss, ls, a, b + 1, round)
  {
    hide Covered, Holding;
    forall i | 0 <= i < ss[b].cursor ensures Covered(n, ss, ls, a, b + 1, i, round[i]) {
      CoveredStays(n, ss, ls, a, b, i, round[i]);
    }
    if Inside(ss[b + 1].pc) {
      HoldingStays(n, ss, ls, a, b, round[ss[b].cursor]);
    }
  }

  /** A step that moves on to the next candidate, the current one being covered. */
  lemma RoundAdvances(n: Node, ss: seq<State>, ls: seq<Label>, a: nat, b: nat, round: seq<BlockId>)
    requires b + 1 < |ss| && RoundInv(n, ss, ls, a, b, round) && ss[b].cursor < |round|
    requires ss[b + 1].round == ss[b].round && ss[b + 1].cursor == ss[b].cursor + 1
    requires ss[b + 1].active == ss[b].active && !Inside(ss[b + 1].pc)
    requires Covered(n, ss, ls, a, b + 1, ss[b].cursor, round[ss[b].cursor])
    ensures RoundInv(n, ss, ls, a, b + 1, round)
  {
    hide Covered, Holding;
    forall i | 0 <= i < ss[b].cursor ensures Covered(n, ss, ls, a, b + 1, i, round[i]) {
      CoveredStays(n, ss, ls, a, b, i, round[i]);
    }
  }

  lemma RoundReads(n: Node, ss: seq<State>, ls: seq<Label>, a: nat, b: nat, round: seq<BlockId>)
    requires IsRun(n, ss, ls) && a < b < |ls| && ls[b] == ReadRoute && RoundInv(n, ss, ls, a, b, round)
    ensures RoundInv(n, ss, ls, a, b + 1, round)
  {
    var s, s' := ss[b], ss[b + 1];
    assert Enabled(s, ls[b]) && s' == Step(n, s, ls[b]);
    assert ReadAt(ss, ls, b, s.cursor, round[s.cursor]);
    hide Covered, Holding, Targets, IsRun, ReadAt;
    if Targets(n, s.ring, round[s.cursor]) == [] {
      CoversTargetless(n, ss, ls, a, b, round[s.cursor]);
      RoundAdvances(n, ss, ls, a, b, round);
    } else {
      HoldsNow(n, ss, ls, a, b, round[s.cursor]);
      forall i | 0 <= i < s.cursor ensures Covered(n, ss, ls, a, b + 1, i, round[i]) {
        CoveredStays(n, ss, ls, a, b, i, round[i]);
      }
    }
  }

  lemma RoundStep(n: Node, ss: seq<State>, ls: seq<Label>, a: nat, b: nat, round: seq<BlockId>)
    requires IsRun(n, ss, ls) && a < b < |ls| && !ls[b].Trigger? && RoundInv(n, ss, ls, a, b, round)
    ensures RoundInv(n, ss, ls, a, b + 1, round)
  {
    var s, s', l := ss[b], ss[b + 1], ls[b];
    assert Enabled(s, l) && s' == Step(n, s, l);
    hide Covered, Holding, Targets, Tasks, IsRun;
    if l == ReadRoute {
      RoundReads(n, ss, ls, a, b, round);
    } else if l == Push || (l == Fetch && s.round[s.cursor] !in s.held) {
      CoversHeld(n, ss, ls, a, b, round[s.cursor]);
      RoundAdvances(n, ss, ls, a, b, round);
    } else {
      RoundIdles(n, ss, ls, a, b, round);
    }
  }

  lemma HoldsNow(n: Node, ss: seq<State>, ls: seq<Label>, a: nat, b: nat, id: BlockId)
    requires a <= b && b + 1 < |ss| && ReadAt(ss, ls, b, ss[b].cursor, id)
    requires ss[b + 1].pc == Routed(Targets(n, ss[b].ring, id)) && ss[b + 1].cursor == ss[b].cursor
    ensures Holding(n, ss, ls, a, b + 1, id)
  {
    hide Targets;
  }

  lemma {:induction false} RoundKeeps(n: Node, ss: seq<State>, ls: seq<Label>, a: nat, b: nat, round: seq<BlockId>)
    requires IsRun(n, ss, ls) && a < b <= |ls| && ls[a] == Trigger(round)
    requires forall k | a < k < b :: !ls[k].Trigger?
    ensures RoundInv(n, ss, ls, a, b, round)
  {
    hide RoundInv;
    if b == a + 1 {
      RoundStarts(n, ss, ls, a, round);
    } else {
      RoundKeeps(n, ss, ls, a, b - 1, round);
      RoundStep(n, ss, ls, a, b - 1, round);
    }
  }

  /**
   No block is skipped. In every interleaving, when a round that nobody replaced goes inactive, each
   of its candidates has been covered.
   */
  lemma NeverSkips(n: Node, ss: seq<State>, ls: seq<Label>, a: nat, b: nat, round: seq<BlockId>, i: nat)
    requires IsRun(n, ss, ls) && a < b <= |ls| && ls[a] == Trigger(round)
    requires forall k | a < k < b :: !ls[k].Trigger?
    requires !ss[b].active && i < |round|
    ensures Covered(n, ss, ls, a, b, i, round[i])
  {
    hide Covered, Holding;
    RoundKeeps(n, ss, ls, a, b, round);
  }

  // One undisturbed drain

  /** The drain loop with nobody else running. */
  ghost function DrainLoop(n: Node, s: State): State
    decreases |s.round| - s.cursor
  {
    if !More(s) || NoRoom(n, s) then s else DrainLoop(n, ServeOne(n, s))
  }

  /** Serving the candidate under the cursor: nothing to push to, nothing to push, or pushed. */
  ghost function ServeOne(n: Node, s: State): State
    requires s.cursor < |s.round|
  {
    var id := s.round[s.cursor];
    var targets := Targets(n, s.ring, id);
    if targets == [] || id !in s.held then s.(cursor := s.cursor + 1)
    else s.(queue := s.queue + Tasks(targets, id), cursor := s.cursor + 1, dispatched := s.dispatched + 1)
  }

  ghost predicate NoRoom(n: Node, s: State)
    requires s.cursor < |s.round|
  {
    var targets := Targets(n, s.ring, s.round[s.cursor]);
    targets != [] && |s.queue| + |targets| > QUEUE_MAX
  }

  ghost function Drain(n: Node, s: State): State
  {
    if !s.active then s else
      var end := DrainLoop(n, s.(dispatched := 0));
      end.(active := end.cursor < |end.round|)
  }

  lemma LoopUnfolds(n: Node, s: State)
    ensures DrainLoop(n, s) == if !More(s) || NoRoom(n, s) then s else DrainLoop(n, ServeOne(n, s))
  {}

  lemma ServeShift(n: Node, s: State, d: nat)
    requires s.cursor < |s.round| && s.dispatched == 0
    ensures NoRoom(n, s.(dispatched := d)) == NoRoom(n, s)
    ensures ServeOne(n, s.(dispatched := d)) == ServeOne(n, s).(dispatched := d + ServeOne(n, s).dispatched)
    ensures ServeOne(n, s).cursor == s.cursor + 1 && ServeOne(n, s).round == s.round && ServeOne(n, s).dispatched <= 1
    ensures ServeOne(n, s).ring == s.ring && ServeOne(n, s).active == s.active
  {
    hide Targets, Tasks;
  }

  /** It is a run of the machine: the same steps, with none of the others in between. */
  lemma DrainIsRun(n: Node, ss: seq<State>, ls: seq<Label>) returns (ss': seq<State>, ls': seq<Label>)
    requires IsRun(n, ss, ls) && |ss| == |ls| + 1 && ss[|ls|].pc == Idle && ss[|ls|].active
    ensures IsRun(n, ss', ls') && ss <= ss' && ls <= ls' && ss'[|ls'|] == Drain(n, ss[|ls|])
  {
    hide IsRun, Targets, DrainLoop;
    ss', ls' := Extend(n, ss, ls, DrainBegin);
    ss', ls' := LoopIsRun(n, ss', ls');
    LoopKeepsPc(n, ss[|ls|].(dispatched := 0), Head);
    ss', ls' := Extend(n, ss', ls', DrainEnd);
  }

  /** The loop only looks at the queue, the round and the environment. */
  lemma {:induction false} LoopKeepsPc(n: Node, s: State, pc: Pc)
    ensures DrainLoop(n, s.(pc := pc)) == DrainLoop(n, s).(pc := pc) && DrainLoop(n, s).pc == s.pc
    decreases |s.round| - s.cursor
  {
    hide Targets, Tasks;
    if More(s) && !NoRoom(n, s) {
      LoopKeepsPc(n, ServeOne(n, s), pc);
      assert ServeOne(n, s.(pc := pc)) == ServeOne(n, s).(pc := pc);
    }
  }

  lemma {:induction false} LoopIsRun(n: Node, ss: seq<State>, ls: seq<Label>) returns (ss': seq<State>, ls': seq<Label>)
    requires IsRun(n, ss, ls) && |ss| == |ls| + 1 && ss[|ls|].pc == Head
    ensures IsRun(n, ss', ls') && ss <= ss' && ls <= ls' && |ss'| == |ls'| + 1
    ensures var end := ss'[|ls'|];
            && end.(pc := Head) == DrainLoop(n, ss[|ls|])
            && (end.pc == Stopping || (end.pc == Head && !More(end)))
    decreases |ss[|ls|].round| - ss[|ls|].cursor
  {
    hide IsRun, Targets, Tasks;
    var s := ss[|ls|];
    ss', ls' := ss, ls;
    if More(s) {
      ss', ls' := ServeIsRun(n, ss, ls);
      hide Enabled, Step, ServeOne, NoRoom;
      if !NoRoom(n, s) {
        ss', ls' := LoopIsRun(n, ss', ls');
      }
    }
  }

  lemma ServeIsRun(n: Node, ss: seq<State>, ls: seq<Label>) returns (ss': seq<State>, ls': seq<Label>)
    requires IsRun(n, ss, ls) && |ss| == |ls| + 1 && ss[|ls|].pc == Head && More(ss[|ls|])
    ensures IsRun(n, ss', ls') && ss <= ss' && ls <= ls' && |ss'| == |ls'| + 1
    ensures var s := ss[|ls|];
            ss'[|ls'|] == if NoRoom(n, s) then s.(pc := Stopping) else ServeOne(n, s)
    ensures !NoRoom(n, ss[|ls|]) ==> ss'[|ls'|].cursor == ss[|ls|].cursor + 1
  {
    hide IsRun, Targets, Tasks;
    var s := ss[|ls|];
    ss', ls' := Extend(n, ss, ls, ReadRoute);
    if ss'[|ls'|].pc.Routed? {
      ss', ls' := Extend(n, ss', ls', CheckRoom);
      if ss'[|ls'|].pc.HasRoom? {
        ss', ls' := Extend(n, ss', ls', Fetch);
        if s.round[s.cursor] in s.held {
          ss', ls' := Extend(n, ss', ls', Push);
        }
      }
    }
  }

  // How many drains a round takes

  /** Every candidate still to serve has at most `w` targets. */
  ghost predicate Narrow(n: Node, s: State, w: nat)
  {
    forall i | s.cursor <= i < |s.round| :: |Targets(n, s.ring, s.round[i])| <= w
  }

  /** Blocks of at most `w` targets that one drain can dispatch into an empty queue. */
  function PerDrain(w: nat): nat
    requires w > 0
  {
    Min(BATCH, QUEUE_MAX / w)
  }

  lemma {:induction false} LoopProgress(n: Node, s: State, from: nat, w: nat)
    requires 0 < w <= QUEUE_MAX && Narrow(n, s, w) && |s.queue| <= s.dispatched * w
             && from + s.dispatched <= s.cursor <= |s.round|
    ensures var end := DrainLoop(n, s);
            && end.round == s.round && end.ring == s.ring && s.cursor <= end.cursor <= |s.round|
            && (end.cursor == |s.round| || end.cursor >= from + PerDrain(w))
    decreases |s.round| - s.cursor
  {
    hide Targets, Tasks;
    if More(s) {
      var k := s.dispatched;
      if NoRoom(n, s) {
        FullMeans(k, w);
      } else {
        assert (k + 1) * w == k * w + w;
        LoopProgress(n, ServeOne(n, s), from, w);
      }
    }
  }

  lemma FullMeans(k: nat, w: nat)
    requires w > 0 && k * w + w > QUEUE_MAX
    ensures k >= QUEUE_MAX / w
  {
    if k + 1 <= QUEUE_MAX / w {
      MulMonotone(k + 1, QUEUE_MAX / w, w);
    }
  }

  lemma CeilingCovers(x: nat, b: nat)
    requires b > 0
    ensures (x + b - 1) / b * b >= x
  {
    var q, r := (x + b - 1) / b, (x + b - 1) % b;
    assert x + b - 1 == q * b + r && r <= b - 1;
  }

  /** The state after `k` drains when the workers empty the queue before each and nothing else runs. */
  ghost function AfterTicks(n: Node, s: State, k: nat): State
  {
    if k == 0 then s else Drain(n, AfterTicks(n, s, k - 1).(queue := []))
  }

  /** A round is active exactly while it has candidates left. */
  predicate Tidy(s: State) { s.cursor <= |s.round| && (s.active <==> s.cursor < |s.round|) }

  lemma {:induction false} TicksProgress(n: Node, s: State, k: nat, w: nat)
    requires 0 < w <= QUEUE_MAX && Tidy(s) && Narrow(n, s, w)
    ensures var end := AfterTicks(n, s, k);
            && end.round == s.round && end.ring == s.ring && s.cursor <= end.cursor && Tidy(end)
            && end.cursor >= Min(|s.round|, s.cursor + k * PerDrain(w))
  {
    hide Drain, PerDrain, Targets;
    if k > 0 {
      TicksProgress(n, s, k - 1, w);
      DrainProgress(n, AfterTicks(n, s, k - 1).(queue := []), w);
      assert k * PerDrain(w) == (k - 1) * PerDrain(w) + PerDrain(w);
    }
  }

  lemma DrainProgress(n: Node, s: State, w: nat)
    requires 0 < w <= QUEUE_MAX && s.queue == [] && Tidy(s) && Narrow(n, s, w)
    ensures var end := Drain(n, s);
            && end.round == s.round && end.ring == s.ring && s.cursor <= end.cursor && Tidy(end)
            && end.cursor >= Min(|s.round|, s.cursor + PerDrain(w))
  {
    hide DrainLoop, PerDrain, Targets;
    if s.active {
      LoopProgress(n, s.(dispatched := 0), s.cursor, w);
    }
  }

  lemma PerDrainPositive(w: nat)
    requires 0 < w <= QUEUE_MAX
    ensures PerDrain(w) > 0
  {
    assert QUEUE_MAX / w >= 1;
  }

  /**
   A round of N candidates left, none with more than `w` targets, is over after ceil(N / PerDrain)
   drains, the first one included.
   */
  lemma RoundEnds(n: Node, s: State, w: nat)
    requires 0 < w <= QUEUE_MAX && Tidy(s) && Narrow(n, s, w)
    ensures PerDrain(w) > 0
    ensures !AfterTicks(n, s, (|s.round| - s.cursor + PerDrain(w) - 1) / PerDrain(w)).active
  {
    PerDrainPositive(w);
    hide AfterTicks, PerDrain, Narrow;
    CeilingCovers(|s.round| - s.cursor, PerDrain(w));
    TicksProgress(n, s, (|s.round| - s.cursor + PerDrain(w) - 1) / PerDrain(w), w);
  }

  /** No route has more than max(1, R) targets, and one that contains this node has one fewer. */
  lemma TargetsBound(n: Node, ring: set<Peer>, id: BlockId)
    ensures |Targets(n, ring, id)| <= Want(n)
    ensures n.self in RouteOf(n, ring, id) ==> |Targets(n, ring, id)| < Want(n)
  {
    hide RouteOf;
    if n.self in RouteOf(n, ring, id) {
      WithoutShrinks(RouteOf(n, ring, id), n.self);
    }
  }

  lemma {:induction false} WithoutShrinks(s: seq<Peer>, p: Peer)
    requires p in s
    ensures |Without(s, p)| < |s|
  {
    if s[0] != p {
      WithoutShrinks(s[1..], p);
    }
  }

  /** At the default replication factor, and up to four, a drain is a full batch of 256. */
  lemma DefaultBatch(n: Node)
    requires n.replicationFactor <= 4
    ensures PerDrain(Want(n)) == 256
  {}

  /** And no drain dispatches more than that. */
  lemma {:induction false} BatchBound(n: Node, s: State)
    requires s.dispatched <= 256
    ensures DrainLoop(n, s).dispatched <= 256
    decreases |s.round| - s.cursor
  {
    hide Targets, Tasks, NoRoom;
    if More(s) && !NoRoom(n, s) {
      BatchBound(n, ServeOne(n, s));
    }
  }

  lemma {:induction false} LoopNeverPasses(n: Node, s: State, i: nat)
    requires s.cursor <= i < |s.round| && |Targets(n, s.ring, s.round[i])| > QUEUE_MAX
    ensures var end := DrainLoop(n, s); end.round == s.round && end.ring == s.ring && end.cursor <= i
    decreases |s.round| - s.cursor
  {
    hide Targets, Tasks;
    if More(s) && !NoRoom(n, s) {
      LoopNeverPasses(n, ServeOne(n, s), i);
    }
  }

  lemma {:induction false} TicksNeverPass(n: Node, s: State, i: nat, k: nat)
    requires Tidy(s) && s.cursor <= i < |s.round| && |Targets(n, s.ring, s.round[i])| > QUEUE_MAX
    ensures var end := AfterTicks(n, s, k); end.round == s.round && end.ring == s.ring && end.cursor <= i && end.active
  {
    hide Targets, DrainLoop;
    if k > 0 {
      TicksNeverPass(n, s, i, k - 1);
      LoopNeverPasses(n, AfterTicks(n, s, k - 1).(queue := [], dispatched := 0), i);
    }
  }

  /** A round ends if and only if none of its remaining candidates has more targets than the queue holds. */
  lemma RoundEndsIff(n: Node, s: State)
    requires Tidy(s)
    ensures (exists k :: !AfterTicks(n, s, k).active) <==> Narrow(n, s, QUEUE_MAX)
  {
    hide AfterTicks, Targets;
    if Narrow(n, s, QUEUE_MAX) {
      RoundEnds(n, s, QUEUE_MAX);
    } else {
      var i :| s.cursor <= i < |s.round| && |Targets(n, s.ring, s.round[i])| > QUEUE_MAX;
      forall k: nat ensures AfterTicks(n, s, k).active {
        TicksNeverPass(n, s, i, k);
      }
    }
  }
}
