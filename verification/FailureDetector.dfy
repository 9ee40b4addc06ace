/**
 Membership as a timed state machine (cache_server/src/membership.cpp). One step per completed
 handler: a suspicion tick with the membership change it fires, a batch of heartbeat replies, or an
 incoming heartbeat. Runs are judged against their event history, not against the state.
 */
module FailureDetector {
  import opened Types

  datatype Config = Config(suspectAfter: nat, deadAfter: nat)

  datatype PeerInfo = PeerInfo(lastSeen: int, lastSeenEpoch: nat, suspected: bool, alive: bool, everSeen: bool)

  /** `ring` is the peer set last installed in the router. */
  datatype State = State(self: Peer, peers: map<Peer, PeerInfo>, epoch: nat, ring: set<Peer>)

  datatype Event =
    | Tick(now: int)
    | Replies(now: int, from: set<Peer>)
    | Heartbeat(now: int, sender: Peer)

  /** What this node should route over: itself and the peers it believes alive. */
  function View(s: State): set<Peer> { {s.self} + set p | p in s.peers && s.peers[p].alive }

  // The handlers

  function Judge(cfg: Config, info: PeerInfo, now: int): PeerInfo
  {
    if !info.alive || !info.everSeen then info
    else if now - info.lastSeen > cfg.deadAfter then info.(alive := false, suspected := true)
    else info.(suspected := now - info.lastSeen > cfg.suspectAfter)
  }

  function Refresh(info: PeerInfo, now: int, epoch: nat): PeerInfo
  {
    info.(lastSeen := now, lastSeenEpoch := epoch, suspected := false, everSeen := true, alive := true)
  }

  function JudgeAll(cfg: Config, s: State, now: int): map<Peer, PeerInfo>
  {
    map p | p in s.peers :: if p == s.self then s.peers[p] else Judge(cfg, s.peers[p], now)
  }

  function RefreshAll(s: State, from: set<Peer>, now: int): map<Peer, PeerInfo>
  {
    map p | p in s.peers :: if p in from && p != s.self then Refresh(s.peers[p], now, s.epoch) else s.peers[p]
  }

  /** Bump the epoch and install self plus the alive peers in the router. */
  function OnMembershipChange(s: State): State
  {
    s.(epoch := s.epoch + 1, ring := View(s))
  }

  /** Peers that were alive in `before` and are not in `after`. */
  function Died(before: map<Peer, PeerInfo>, after: map<Peer, PeerInfo>): set<Peer>
  {
    set p | p in before && p in after && before[p].alive && !after[p].alive
  }

  /** A peer heard from for the first time starts out alive, so its arrival is not a resurrection. */
  const NEW_PEER := PeerInfo(0, 0, false, true, false)

  function Known(s: State, p: Peer): PeerInfo { if p in s.peers then s.peers[p] else NEW_PEER }

  function Step(cfg: Config, s: State, ev: Event): State
  {
    match ev
    case Tick(now) =>
      var judged := s.(peers := JudgeAll(cfg, s, now));
      if Died(s.peers, judged.peers) != {} then OnMembershipChange(judged) else judged
    case Replies(now, from) =>
      var heard := s.(peers := RefreshAll(s, from, now));
      if Died(heard.peers, s.peers) != {} then OnMembershipChange(heard) else heard
    case Heartbeat(now, sender) =>
      var heard := s.(peers := s.peers[sender := Refresh(Known(s, sender), now, s.epoch)]);
      if !Known(s, sender).alive then OnMembershipChange(heard) else heard
  }

  function Start(self: Peer, seeds: set<Peer>, now: int): State
  {
    State(self, map p | p in seeds :: PeerInfo(now, 0, false, true, false), 0, {self} + seeds)
  }

  function Run(cfg: Config, s: State, evs: seq<Event>): State
  {
    if evs == [] then s else Step(cfg, Run(cfg, s, evs[..|evs| - 1]), evs[|evs| - 1])
  }

  // Failure detection judged against the history

  predicate Contact(self: Peer, ev: Event, p: Peer)
  {
    match ev
    case Tick(_) => false
    case Replies(_, from) => p in from && p != self
    case Heartbeat(_, sender) => p == sender
  }

  /** When `p` was last heard from in a history, if ever. */
  function LastContact(self: Peer, evs: seq<Event>, p: Peer): Option<int>
  {
    if evs == [] then None
    else if Contact(self, evs[|evs| - 1], p) then Some(evs[|evs| - 1].now)
    else LastContact(self, evs[..|evs| - 1], p)
  }

  /** Event `i` is a tick that finds `p` heard from once, but not within `deadAfter`. */
  predicate Overdue(cfg: Config, self: Peer, evs: seq<Event>, i: nat, p: Peer)
    requires i < |evs|
  {
    && evs[i].Tick? && LastContact(self, evs[..i], p).Some?
    && evs[i].now - LastContact(self, evs[..i], p).value > cfg.deadAfter
  }

  /** Some tick found `p` overdue and nothing has been heard from it since. */
  ghost predicate Silent(cfg: Config, self: Peer, evs: seq<Event>, p: Peer)
  {
    exists i :: 0 <= i < |evs| && Overdue(cfg, self, evs, i, p) && forall k | i < k < |evs| :: !Contact(self, evs[k], p)
  }

  lemma SilentStep(cfg: Config, self: Peer, evs: seq<Event>, p: Peer)
    requires evs != []
    ensures var last := |evs| - 1;
            Silent(cfg, self, evs, p) <==>
            Overdue(cfg, self, evs, last, p) || (Silent(cfg, self, evs[..last], p) && !Contact(self, evs[last], p))
  {
    var last := |evs| - 1;
    var before := evs[..last];
    assert forall i | 0 <= i < last :: evs[..i] == before[..i];
    assert forall i | 0 <= i < last :: Overdue(cfg, self, evs, i, p) == Overdue(cfg, self, before, i, p);
    if Silent(cfg, self, before, p) && !Contact(self, evs[last], p) {
      var i :| 0 <= i < last && Overdue(cfg, self, before, i, p)
        && forall k | i < k < last :: !Contact(self, before[k], p);
      assert Overdue(cfg, self, evs, i, p);
    }
    if Silent(cfg, self, evs, p) && !Overdue(cfg, self, evs, last, p) {
      var i :| 0 <= i < |evs| && Overdue(cfg, self, evs, i, p) && forall k | i < k < |evs| :: !Contact(self, evs[k], p);
      assert Overdue(cfg, self, before, i, p);
    }
  }

  lemma {:induction false} RunKeeps(cfg: Config, s: State, evs: seq<Event>)
    ensures Run(cfg, s, evs).self == s.self && s.peers.Keys <= Run(cfg, s, evs).peers.Keys
  {
    if evs != [] {
      RunKeeps(cfg, s, evs[..|evs| - 1]);
    }
  }

  /** What one step does to one peer's record. */
  lemma StepPeer(cfg: Config, s: State, ev: Event, p: Peer)
    requires p in s.peers && p != s.self
    ensures p in Step(cfg, s, ev).peers
    ensures Step(cfg, s, ev).peers[p] ==
            if Contact(s.self, ev, p) then Refresh(s.peers[p], ev.now, s.epoch)
            else if ev.Tick? then Judge(cfg, s.peers[p], ev.now) else s.peers[p]
  {}

  /**
   The detector is exact. In every run a seed peer is not alive exactly when some tick found it
   overdue, having been heard from before, and nothing has been heard from it since; its record
   holds the time of the last contact; and a peer that is not alive is suspected and was once seen.
   */
  lemma {:induction false} DetectorExact(cfg: Config, self: Peer, seeds: set<Peer>, t0: int, evs: seq<Event>, p: Peer)
    requires p in seeds && p != self
    ensures var s := Run(cfg, Start(self, seeds, t0), evs);
            && p in s.peers
            && (!s.peers[p].alive <==> Silent(cfg, self, evs, p))
            && (s.peers[p].everSeen <==> LastContact(self, evs, p).Some?)
            && (s.peers[p].everSeen ==> s.peers[p].lastSeen == LastContact(self, evs, p).value)
            && (!s.peers[p].alive ==> s.peers[p].suspected && s.peers[p].everSeen)
            && (s.peers[p].suspected ==> s.peers[p].everSeen)
  {
    if evs != [] {
      var last := |evs| - 1;
      hide Step, Silent;
      DetectorExact(cfg, self, seeds, t0, evs[..last], p);
      var before := Run(cfg, Start(self, seeds, t0), evs[..last]);
      RunKeeps(cfg, Start(self, seeds, t0), evs[..last]);
      StepPeer(cfg, before, evs[last], p);
      SilentStep(cfg, self, evs, p);
    } else {
      assert !Silent(cfg, self, evs, p);
    }
  }

  /** Accuracy: never heard from, or heard from often enough for every tick so far: alive. */
  lemma NeverFalselyDead(cfg: Config, self: Peer, seeds: set<Peer>, t0: int, evs: seq<Event>, p: Peer)
    requires p in seeds && p != self
    requires forall i | 0 <= i < |evs| && evs[i].Tick? && LastContact(self, evs[..i], p).Some? ::
               evs[i].now - LastContact(self, evs[..i], p).value <= cfg.deadAfter
    ensures p in Run(cfg, Start(self, seeds, t0), evs).peers && Run(cfg, Start(self, seeds, t0), evs).peers[p].alive
  {
    hide Run;
    DetectorExact(cfg, self, seeds, t0, evs, p);
  }

  /** Completeness: the first tick past the deadline declares the peer dead. */
  lemma SilenceIsDetected(cfg: Config, self: Peer, seeds: set<Peer>, t0: int, evs: seq<Event>, now: int, p: Peer)
    requires p in seeds && p != self
    requires LastContact(self, evs, p).Some? && now - LastContact(self, evs, p).value > cfg.deadAfter
    ensures var s := Run(cfg, Start(self, seeds, t0), evs + [Tick(now)]);
            p in s.peers && !s.peers[p].alive && s.peers[p].suspected
  {
    hide Run;
    var all := evs + [Tick(now)];
    assert all[..|evs|] == evs;
    assert Overdue(cfg, self, all, |evs|, p);
    DetectorExact(cfg, self, seeds, t0, all, p);
  }

  /** Suspicion: right after a tick an alive peer is suspected exactly when its last contact is too long ago. */
  lemma SuspectedExactly(cfg: Config, self: Peer, seeds: set<Peer>, t0: int, evs: seq<Event>, now: int, p: Peer)
    requires p in seeds && p != self
    ensures var s := Run(cfg, Start(self, seeds, t0), evs + [Tick(now)]);
            && p in s.peers
            && (s.peers[p].alive ==>
                  (s.peers[p].suspected <==>
                     LastContact(self, evs, p).Some? && now - LastContact(self, evs, p).value > cfg.suspectAfter))
  {
    var s0, all := Start(self, seeds, t0), evs + [Tick(now)];
    assert all[..|evs|] == evs;
    DetectorExact(cfg, self, seeds, t0, evs, p);
    RunKeeps(cfg, s0, evs);
    StepPeer(cfg, Run(cfg, s0, evs), Tick(now), p);
    hide Step, LastContact;
  }

  /** Event `i` is a tick that finds `p` heard from once, but not within `suspectAfter`. */
  predicate Late(cfg: Config, self: Peer, evs: seq<Event>, i: nat, p: Peer)
    requires i < |evs|
  {
    && evs[i].Tick? && LastContact(self, evs[..i], p).Some?
    && evs[i].now - LastContact(self, evs[..i], p).value > cfg.suspectAfter
  }

  /** The latest tick found `p` late, and nothing has been heard from it since. */
  ghost predicate Doubted(cfg: Config, self: Peer, evs: seq<Event>, p: Peer)
  {
    exists i :: 0 <= i < |evs| && Late(cfg, self, evs, i, p) && Quiet(self, evs, i, p)
  }

  /** After event `i` there was neither a tick nor a contact. */
  predicate Quiet(self: Peer, evs: seq<Event>, i: nat, p: Peer)
  {
    forall k | i < k < |evs| :: !evs[k].Tick? && !Contact(self, evs[k], p)
  }

  lemma DoubtedStep(cfg: Config, self: Peer, evs: seq<Event>, p: Peer)
    requires evs != []
    ensures var last := |evs| - 1;
            Doubted(cfg, self, evs, p) <==>
            || Late(cfg, self, evs, last, p)
            || (Doubted(cfg, self, evs[..last], p) && !evs[last].Tick? && !Contact(self, evs[last], p))
  {
    var last := |evs| - 1;
    var before := evs[..last];
    assert forall i | 0 <= i < last :: evs[..i] == before[..i];
    assert forall i | 0 <= i < last :: Late(cfg, self, evs, i, p) == Late(cfg, self, before, i, p);
    hide Late;
    if Doubted(cfg, self, before, p) && !evs[last].Tick? && !Contact(self, evs[last], p) {
      var i :| 0 <= i < last && Late(cfg, self, before, i, p) && Quiet(self, before, i, p);
      assert Late(cfg, self, evs, i, p) && Quiet(self, evs, i, p);
    }
    if Late(cfg, self, evs, last, p) {
      assert Quiet(self, evs, last, p);
    }
    if Doubted(cfg, self, evs, p) && !Late(cfg, self, evs, last, p) {
      var i :| 0 <= i < |evs| && Late(cfg, self, evs, i, p) && Quiet(self, evs, i, p);
      assert Late(cfg, self, before, i, p) && Quiet(self, before, i, p);
    }
  }

  /**
   Suspicion over whole runs. A seed peer is suspected exactly when it is dead, or the latest tick found
   its last contact too long ago and nothing has been heard from it since. So no peer is suspected right
   after a contact, a revived one included.
   */
  lemma {:induction false} SuspectedIff(cfg: Config, self: Peer, seeds: set<Peer>, t0: int, evs: seq<Event>, p: Peer)
    requires p in seeds && p != self
    ensures var s := Run(cfg, Start(self, seeds, t0), evs);
            p in s.peers && (s.peers[p].suspected <==> Silent(cfg, self, evs, p) || Doubted(cfg, self, evs, p))
    ensures evs != [] && Contact(self, evs[|evs| - 1], p) ==>
              !Silent(cfg, self, evs, p) && !Doubted(cfg, self, evs, p)
  {
    if evs != [] {
      var last := |evs| - 1;
      hide Step, Silent, Doubted;
      SuspectedIff(cfg, self, seeds, t0, evs[..last], p);
      DetectorExact(cfg, self, seeds, t0, evs[..last], p);
      RunKeeps(cfg, Start(self, seeds, t0), evs[..last]);
      StepPeer(cfg, Run(cfg, Start(self, seeds, t0), evs[..last]), evs[last], p);
      SilentStep(cfg, self, evs, p);
      DoubtedStep(cfg, self, evs, p);
    }
  }

  /** The record of a seed peer holds the epoch in force when its last contact came in. */
  lemma {:induction false} SeenEpochExact(cfg: Config, self: Peer, seeds: set<Peer>, t0: int, evs: seq<Event>, p: Peer,
                                          i: nat)
    requires p in seeds && p != self && i < |evs| && LastAt(self, evs, i, p)
    ensures var s0 := Start(self, seeds, t0);
            var s := Run(cfg, s0, evs);
            p in s.peers && s.peers[p].lastSeenEpoch == Run(cfg, s0, evs[..i]).epoch
  {
    hide Run, Step, Contact;
    var s0, last := Start(self, seeds, t0), |evs| - 1;
    RunLast(cfg, s0, evs);
    RunKeeps(cfg, s0, evs[..last]);
    StepPeer(cfg, Run(cfg, s0, evs[..last]), evs[last], p);
    if i < last {
      assert evs[..last][..i] == evs[..i];
      SeenEpochExact(cfg, self, seeds, t0, evs[..last], p, i);
    }
  }

  lemma RunLast(cfg: Config, s: State, evs: seq<Event>)
    requires evs != []
    ensures Run(cfg, s, evs) == Step(cfg, Run(cfg, s, evs[..|evs| - 1]), evs[|evs| - 1])
  {}

  /** Before the first contact it is 0. */
  lemma {:induction false} UnseenEpoch(cfg: Config, self: Peer, seeds: set<Peer>, t0: int, evs: seq<Event>, p: Peer)
    requires p in seeds && p != self && LastContact(self, evs, p) == None
    ensures var s := Run(cfg, Start(self, seeds, t0), evs);
            p in s.peers && s.peers[p].lastSeenEpoch == 0
  {
    if evs != [] {
      var s0, last := Start(self, seeds, t0), |evs| - 1;
      UnseenEpoch(cfg, self, seeds, t0, evs[..last], p);
      RunKeeps(cfg, s0, evs[..last]);
      StepPeer(cfg, Run(cfg, s0, evs[..last]), evs[last], p);
      hide Step;
    }
  }

  /** Event `i` is the last contact with `p`. */
  predicate LastAt(self: Peer, evs: seq<Event>, i: nat, p: Peer)
    requires i < |evs|
  {
    Contact(self, evs[i], p) && forall k | i < k < |evs| :: !Contact(self, evs[k], p)
  }

  /** Event `i` reports `p` lost: it is a tick, and `p` goes from alive to dead in it. */
  ghost predicate Reported(cfg: Config, s: State, evs: seq<Event>, i: nat, p: Peer)
    requires i < |evs|
  {
    evs[i].Tick? && p in Died(Run(cfg, s, evs[..i]).peers, Run(cfg, s, evs[..i + 1]).peers)
  }

  /** A peer is reported lost at most once per silence: between two reports it was heard from. */
  lemma ReportedOncePerSilence(cfg: Config, self: Peer, seeds: set<Peer>, t0: int, evs: seq<Event>, i: nat, j: nat,
                               p: Peer)
    requires p in seeds && p != self && i < j < |evs|
    requires Reported(cfg, Start(self, seeds, t0), evs, i, p) && Reported(cfg, Start(self, seeds, t0), evs, j, p)
    ensures exists k :: i < k < j && Contact(self, evs[k], p)
  {
    DetectorExact(cfg, self, seeds, t0, evs[..i + 1], p);
    DetectorExact(cfg, self, seeds, t0, evs[..j], p);
    hide Run, Overdue;
    assert Silent(cfg, self, evs[..i + 1], p) && !Silent(cfg, self, evs[..j], p);
    if forall k | i < k < j :: !Contact(self, evs[k], p) {
      SilenceLasts(cfg, self, evs, i + 1, j, p);
    }
  }

  lemma SilenceLasts(cfg: Config, self: Peer, evs: seq<Event>, a: nat, b: nat, p: Peer)
    requires a <= b <= |evs| && Silent(cfg, self, evs[..a], p)
    requires forall k | a <= k < b :: !Contact(self, evs[k], p)
    ensures Silent(cfg, self, evs[..b], p)
  {
    var i :| 0 <= i < a && Overdue(cfg, self, evs[..a], i, p) && forall k | i < k < a :: !Contact(self, evs[..a][k], p);
    assert evs[..a][..i] == evs[..b][..i];
    assert Overdue(cfg, self, evs[..b], i, p);
    assert forall k | i < k < a :: evs[..b][k] == evs[..a][k];
  }

  /** Event `i` reported `p` lost and nothing has been heard from it since. */
  ghost predicate StandingReport(cfg: Config, s: State, evs: seq<Event>, i: nat, p: Peer)
  {
    i < |evs| && Reported(cfg, s, evs, i, p) && forall k | i < k < |evs| :: !Contact(s.self, evs[k], p)
  }

  lemma ReportStands(cfg: Config, s: State, evs: seq<Event>, i: nat, p: Peer)
    requires evs != [] && StandingReport(cfg, s, evs[..|evs| - 1], i, p) && !Contact(s.self, evs[|evs| - 1], p)
    ensures StandingReport(cfg, s, evs, i, p)
  {
    hide Run;
    var before := evs[..|evs| - 1];
    assert before[..i] == evs[..i] && before[..i + 1] == evs[..i + 1];
  }

  /** And a peer that is dead was reported by the tick that found it overdue. */
  lemma {:induction false} DeadWasReported(cfg: Config, self: Peer, seeds: set<Peer>, t0: int, evs: seq<Event>, p: Peer)
    requires p in seeds && p != self && Silent(cfg, self, evs, p)
    ensures exists i :: StandingReport(cfg, Start(self, seeds, t0), evs, i, p)
  {
    assert evs != [];
    var s0, last := Start(self, seeds, t0), |evs| - 1;
    SilentStep(cfg, self, evs, p);
    hide Overdue, Silent, Reported;
    if Silent(cfg, self, evs[..last], p) {
      if Overdue(cfg, self, evs, last, p) { OverdueIsTick(cfg, self, evs, last, p); }
      DeadWasReported(cfg, self, seeds, t0, evs[..last], p);
      var i :| StandingReport(cfg, s0, evs[..last], i, p);
      ReportStands(cfg, s0, evs, i, p);
    } else {
      DeathIsReported(cfg, self, seeds, t0, evs, p);
      assert StandingReport(cfg, s0, evs, last, p);
    }
  }

  lemma OverdueIsTick(cfg: Config, self: Peer, evs: seq<Event>, i: nat, p: Peer)
    requires i < |evs| && Overdue(cfg, self, evs, i, p)
    ensures !Contact(self, evs[i], p)
  {}

  lemma DeathIsReported(cfg: Config, self: Peer, seeds: set<Peer>, t0: int, evs: seq<Event>, p: Peer)
    requires p in seeds && p != self && evs != [] && Overdue(cfg, self, evs, |evs| - 1, p)
    requires Silent(cfg, self, evs, p) && !Silent(cfg, self, evs[..|evs| - 1], p)
    ensures Reported(cfg, Start(self, seeds, t0), evs, |evs| - 1, p)
  {
    hide Run, Silent;
    DetectorExact(cfg, self, seeds, t0, evs[..|evs| - 1], p);
    DetectorExact(cfg, self, seeds, t0, evs, p);
    assert evs[..|evs|] == evs;
  }

  // Ring and epoch over whole runs

  /** The router's peer set is what it should be. */
  predicate Agrees(s: State) { s.ring == View(s) }

  /** A heartbeat from a peer this node has never heard of. */
  predicate Stranger(s: State, ev: Event) { ev.Heartbeat? && ev.sender != s.self && ev.sender !in s.peers }

  /** A node never judges itself, so its own record, if it has one, stays alive. */
  predicate SelfAlive(s: State) { s.self in s.peers ==> s.peers[s.self].alive }

  lemma StepAgrees(cfg: Config, s: State, ev: Event)
    requires Agrees(s) && SelfAlive(s)
    ensures SelfAlive(Step(cfg, s, ev))
    ensures Agrees(Step(cfg, s, ev)) <==> !Stranger(s, ev)
    ensures !Stranger(s, ev) ==> Step(cfg, s, ev).epoch == s.epoch + if View(Step(cfg, s, ev)) != View(s) then 1 else 0
  {
    match ev
    case Tick(now) => TickView(cfg, s, now);
    case Replies(now, from) => RepliesView(s, from, now);
    case Heartbeat(now, sender) => HeartbeatView(cfg, s, ev);
  }

  lemma TickView(cfg: Config, s: State, now: int)
    ensures var judged := s.(peers := JudgeAll(cfg, s, now));
            View(judged) == View(s) <==> Died(s.peers, judged.peers) == {}
  {
    var judged := s.(peers := JudgeAll(cfg, s, now));
    forall p | p in Died(s.peers, judged.peers) ensures p in View(s) && p !in View(judged) {}
    if Died(s.peers, judged.peers) == {} {
      forall p ensures p in View(judged) <==> p in View(s) {
        if p in View(s) && p != s.self {
          assert p !in Died(s.peers, judged.peers);
        }
      }
    }
  }

  lemma RepliesView(s: State, from: set<Peer>, now: int)
    ensures var heard := s.(peers := RefreshAll(s, from, now));
            View(heard) == View(s) <==> Died(heard.peers, s.peers) == {}
  {
    var heard := s.(peers := RefreshAll(s, from, now));
    forall p | p in Died(heard.peers, s.peers) ensures p in View(heard) && p !in View(s) {}
    if Died(heard.peers, s.peers) == {} {
      forall p ensures p in View(heard) <==> p in View(s) {
        if p in View(heard) && p != s.self {
          assert p !in Died(heard.peers, s.peers);
        }
      }
    }
  }

  lemma HeartbeatView(cfg: Config, s: State, ev: Event)
    requires ev.Heartbeat?
    ensures View(Step(cfg, s, ev)) == View(s) + {ev.sender}
    ensures Step(cfg, s, ev).ring == if !Known(s, ev.sender).alive then View(Step(cfg, s, ev)) else s.ring
    ensures Known(s, ev.sender).alive && !Stranger(s, ev) ==> ev.sender in View(s)
    ensures ev.sender in s.peers && !s.peers[ev.sender].alive && ev.sender != s.self ==> ev.sender !in View(s)
    ensures Stranger(s, ev) ==> ev.sender !in View(s)
  {}

  /** How often the set of alive peers changed in a run. */
  ghost function Changes(cfg: Config, s: State, evs: seq<Event>): nat
  {
    if evs == [] then 0 else
      var before := evs[..|evs| - 1];
      Changes(cfg, s, before) + if View(Run(cfg, s, evs)) != View(Run(cfg, s, before)) then 1 else 0
  }

  predicate FromSeeds(self: Peer, seeds: set<Peer>, evs: seq<Event>)
  {
    forall i | 0 <= i < |evs| && evs[i].Heartbeat? :: evs[i].sender in seeds || evs[i].sender == self
  }

  /** In a run with heartbeats from seed peers only, ring, epoch and alive peers agree at the end. */
  lemma {:induction false} RunAgrees(cfg: Config, self: Peer, seeds: set<Peer>, t0: int, evs: seq<Event>)
    requires FromSeeds(self, seeds, evs)
    ensures var s := Run(cfg, Start(self, seeds, t0), evs);
            && Agrees(s) && SelfAlive(s) && s.self == self && seeds <= s.peers.Keys <= seeds + {self}
            && s.epoch == Changes(cfg, Start(self, seeds, t0), evs)
  {
    if evs != [] {
      var last := |evs| - 1;
      hide Step, Agrees, View, SelfAlive;
      RunAgrees(cfg, self, seeds, t0, evs[..last]);
      var before := Run(cfg, Start(self, seeds, t0), evs[..last]);
      StepAgrees(cfg, before, evs[last]);
      StepKeys(cfg, before, evs[last]);
    }
  }

  lemma StepKeys(cfg: Config, s: State, ev: Event)
    ensures Step(cfg, s, ev).self == s.self
    ensures Step(cfg, s, ev).peers.Keys == s.peers.Keys + if ev.Heartbeat? then {ev.sender} else {}
  {}

  /**
   The restriction to seed peers is exact: ring and alive peers agree after every step of a run if
   and only if no heartbeat came from a peer outside the seed list. A stranger is believed alive at
   once but never reaches the ring.
   */
  lemma {:induction false} AgreesThroughoutIff(cfg: Config, self: Peer, seeds: set<Peer>, t0: int, evs: seq<Event>)
    ensures (forall k | 0 <= k <= |evs| :: Agrees(Run(cfg, Start(self, seeds, t0), evs[..k]))) <==>
            FromSeeds(self, seeds, evs)
  {
    var s0 := Start(self, seeds, t0);
    hide Run, Step, Agrees, Start;
    if FromSeeds(self, seeds, evs) {
      forall k | 0 <= k <= |evs| ensures Agrees(Run(cfg, s0, evs[..k])) {
        RunAgrees(cfg, self, seeds, t0, evs[..k]);
      }
    } else {
      var last := |evs| - 1;
      if FromSeeds(self, seeds, evs[..last]) {
        StrangerBreaks(cfg, self, seeds, t0, evs);
        assert evs[..|evs|] == evs;
      } else {
        AgreesThroughoutIff(cfg, self, seeds, t0, evs[..last]);
        var k :| 0 <= k <= last && !Agrees(Run(cfg, s0, evs[..last][..k]));
        assert evs[..last][..k] == evs[..k];
      }
    }
  }

  lemma StrangerBreaks(cfg: Config, self: Peer, seeds: set<Peer>, t0: int, evs: seq<Event>)
    requires evs != [] && FromSeeds(self, seeds, evs[..|evs| - 1]) && !FromSeeds(self, seeds, evs)
    ensures !Agrees(Run(cfg, Start(self, seeds, t0), evs))
  {
    var last := |evs| - 1;
    hide Step, Agrees, SelfAlive, View;
    RunAgrees(cfg, self, seeds, t0, evs[..last]);
    StepAgrees(cfg, Run(cfg, Start(self, seeds, t0), evs[..last]), evs[last]);
    var i :| 0 <= i < |evs| && evs[i].Heartbeat? && evs[i].sender !in seeds && evs[i].sender != self;
    assert i == last;
  }
}
