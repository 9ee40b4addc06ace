/**
 The send side of one RDMA connection (cache_server/src/ibverbs_transport.cpp) as a step machine:
 any number of senders and the completion poller share a free list of buffers, a table of pending
 promises and a counter, each step being one critical section or one call to the hardware.
 */
module SendRing {
  import opened Types

  const SEND_LIMIT: int := 0x1_0000_0000_0000   // 2^48
  const TAG_BITS: int := 0x1_0000               // 2^16

  type Promise = nat

  datatype State = State(free: seq<nat>, pending: map<U64, Promise>, nextWr: nat,
                         sending: map<U64, Promise>,    // acquired, not yet handed to the hardware
                         posted: set<U64>,              // every request ever handed to the hardware
                         issued: set<U64>,              // every request id ever made
                         promises: nat,                 // promises made so far are 0 .. promises-1
                         resolved: seq<(Promise, bool)>)

  datatype Label =
    | Acquire
    | GiveUp                          // too big, no connection, or no buffer in time
    | PostOk(wr: U64)
    | PostFail(wr: U64)
    | Complete(wr: U64, ok: bool)     // the poller gets a request id, possibly again, possibly an unknown one

  /** (n << 16) | buf in 64 bits. */
  function WrId(n: nat, buf: nat): U64 { n * TAG_BITS % U64_MODULUS + buf % TAG_BITS }

  function BufOf(wr: U64): nat { wr % TAG_BITS }

  predicate Enabled(s: State, l: Label)
  {
    match l
    case Acquire => s.free != []
    case GiveUp => true
    case PostOk(wr) => wr in s.sending
    case PostFail(wr) => wr in s.sending
    case Complete(wr, _) => wr in s.posted || wr !in s.pending
  }

  function Step(s: State, l: Label): State
    requires Enabled(s, l)
  {
    match l
    case Acquire =>
      var buf := s.free[|s.free| - 1];
      var wr := WrId(s.nextWr, buf);
      s.(free := s.free[..|s.free| - 1], nextWr := s.nextWr + 1, pending := s.pending[wr := s.promises],
         sending := s.sending[wr := s.promises], issued := s.issued + {wr}, promises := s.promises + 1)
    case GiveUp => s.(promises := s.promises + 1, resolved := s.resolved + [(s.promises, false)])
    case PostOk(wr) => s.(sending := s.sending - {wr}, posted := s.posted + {wr})
    case PostFail(wr) =>
      s.(pending := s.pending - {wr}, free := s.free + [BufOf(wr)], sending := s.sending - {wr},
         resolved := s.resolved + [(s.sending[wr], false)])
    case Complete(wr, ok) =>
      if wr in s.pending then
        s.(pending := s.pending - {wr}, free := s.free + [BufOf(wr)], resolved := s.resolved + [(s.pending[wr], ok)])
      else s
  }

  function Fresh(n: nat): State { State(seq(n, i => i), map[], 1, map[], {}, {}, 0, []) }

  /** Free buffers and the buffers of pending requests are all the buffers, each once. */
  ghost predicate Partition(n: nat, free: seq<nat>, pending: map<U64, Promise>)
  {
    && (forall i, j | 0 <= i < j < |free| :: free[i] != free[j])
    && (forall i | 0 <= i < |free| :: free[i] < n && forall wr | wr in pending :: BufOf(wr) != free[i])
    && (forall w, v | w in pending && v in pending && BufOf(w) == BufOf(v) :: w == v)
    && (forall wr | wr in pending :: BufOf(wr) < n)
    && |free| + |pending| == n
  }

  /** Requests: pending ones were issued, and those a sender still holds are pending and unposted. */
  ghost predicate Requests(s: State)
  {
    && s.pending.Keys <= s.issued && s.posted <= s.issued
    && (forall wr | wr in s.sending :: wr in s.pending && wr !in s.posted && s.pending[wr] == s.sending[wr])
    && (forall wr | wr in s.issued :: exists k, b | 0 <= k < s.nextWr && 0 <= b < TAG_BITS :: wr == WrId(k, b))
  }

  /** Promises: each is pending once or resolved once, never both, and none is forgotten. */
  ghost predicate Promises(pending: map<U64, Promise>, promises: nat, resolved: seq<(Promise, bool)>)
  {
    && (forall i, j | 0 <= i < j < |resolved| :: resolved[i].0 != resolved[j].0)
    && (forall i | 0 <= i < |resolved| :: resolved[i].0 < promises)
    && (forall wr | wr in pending :: pending[wr] < promises)
    && (forall wr, i | wr in pending && 0 <= i < |resolved| :: resolved[i].0 != pending[wr])
    && (forall w, v | w in pending && v in pending && pending[w] == pending[v] :: w == v)
    && |pending| + |resolved| == promises
  }

  ghost predicate Inv(n: nat, s: State)
  {
    Partition(n, s.free, s.pending) && Requests(s) && Promises(s.pending, s.promises, s.resolved)
  }

  /** Below 2^48 sends a request id determines its counter value and its buffer. */
  lemma WrIdInjective(n: nat, b: nat, m: nat, c: nat)
    requires n < SEND_LIMIT && m < SEND_LIMIT && b < TAG_BITS && c < TAG_BITS
    ensures WrId(n, b) == WrId(m, c) ==> n == m && b == c
    ensures BufOf(WrId(n, b)) == b
  {
    assert n * TAG_BITS < U64_MODULUS && m * TAG_BITS < U64_MODULUS;
    assert WrId(n, b) == n * TAG_BITS + b && WrId(m, c) == m * TAG_BITS + c;
  }

  /** And the limit is exact: ids repeat with period 2^48. */
  lemma WrIdPeriod(n: nat, b: nat)
    ensures WrId(n + SEND_LIMIT, b) == WrId(n, b)
  {
    assert (n + SEND_LIMIT) * TAG_BITS == n * TAG_BITS + U64_MODULUS;
  }

  lemma FreshInv(n: nat)
    ensures Inv(n, Fresh(n))
  {}

  /** A new request id was never issued before. */
  lemma NewRequest(s: State, buf: nat)
    requires Requests(s) && s.nextWr < SEND_LIMIT && buf < TAG_BITS
    ensures WrId(s.nextWr, buf) !in s.issued && WrId(s.nextWr, buf) !in s.pending && BufOf(WrId(s.nextWr, buf)) == buf
  {
    hide WrId;
    WrIdInjective(s.nextWr, buf, 0, 0);
    if WrId(s.nextWr, buf) in s.issued {
      var k, b :| 0 <= k < s.nextWr && 0 <= b < TAG_BITS && WrId(s.nextWr, buf) == WrId(k, b);
      WrIdInjective(s.nextWr, buf, k, b);
    }
  }

  lemma TopOfFreeList(n: nat, s: State)
    requires Inv(n, s) && s.free != [] && s.nextWr < SEND_LIMIT && n <= TAG_BITS
    ensures var buf := s.free[|s.free| - 1];
            var wr := WrId(s.nextWr, buf);
            buf < n && wr !in s.issued && wr !in s.pending && BufOf(wr) == buf
  {
    hide WrId, BufOf;
    NewRequest(s, s.free[|s.free| - 1]);
  }

  lemma AcquireShape(s: State)
    requires s.free != []
    ensures var s' := Step(s, Acquire);
            && s'.free == s.free[..|s.free| - 1] && s'.nextWr == s.nextWr + 1
            && s'.pending == s.pending[WrId(s.nextWr, s.free[|s.free| - 1]) := s.promises]
  {}

  lemma AcquireKeeps(n: nat, s: State)
    requires Inv(n, s) && s.free != [] && s.nextWr < SEND_LIMIT && n <= TAG_BITS
    ensures Inv(n, Step(s, Acquire))
  {
    hide WrId, Partition, Promises, Requests, BufOf;
    TopOfFreeList(n, s);
    var buf := s.free[|s.free| - 1];
    var wr := WrId(s.nextWr, buf);
    AcquirePartition(n, s.free, s.pending, wr, s.promises);
    AcquirePromises(s.pending, s.promises, s.resolved, wr);
    AcquireRequests(s, buf);
  }

  lemma AcquirePartition(n: nat, free: seq<nat>, pending: map<U64, Promise>, wr: U64, p: Promise)
    requires Partition(n, free, pending) && free != [] && wr !in pending && BufOf(wr) == free[|free| - 1]
    ensures Partition(n, free[..|free| - 1], pending[wr := p])
  {
    hide BufOf;
    SizeWith(pending, wr, p);
    var rest, buf := free[..|free| - 1], free[|free| - 1];
    assert forall i | 0 <= i < |rest| :: rest[i] == free[i] && rest[i] != buf;
  }

  lemma AcquirePromises(pending: map<U64, Promise>, promises: nat, resolved: seq<(Promise, bool)>, wr: U64)
    requires Promises(pending, promises, resolved) && wr !in pending
    ensures Promises(pending[wr := promises], promises + 1, resolved)
  {
    SizeWith(pending, wr, promises);
  }

  lemma AcquireRequests(s: State, buf: nat)
    requires Requests(s) && s.free != [] && buf == s.free[|s.free| - 1] < TAG_BITS && WrId(s.nextWr, buf) !in s.issued
    ensures Requests(Step(s, Acquire))
  {
    hide WrId;
    var s' := Step(s, Acquire);
    forall wr | wr in s'.issued ensures exists k, b | 0 <= k < s'.nextWr && 0 <= b < TAG_BITS :: wr == WrId(k, b) {
      if wr in s.issued {
        var k, b :| 0 <= k < s.nextWr && 0 <= b < TAG_BITS && wr == WrId(k, b);
      }
    }
  }

  /** A pending request ends: its buffer is free again and its promise resolved, once. */
  lemma ReleaseKeeps(n: nat, s: State, wr: U64, ok: bool)
    requires Inv(n, s) && wr in s.pending
    ensures Inv(n, s.(pending := s.pending - {wr}, free := s.free + [BufOf(wr)], sending := s.sending - {wr},
                      resolved := s.resolved + [(s.pending[wr], ok)]))
  {
    hide BufOf, Partition, Promises, WrId;
    ReleasePartition(n, s.free, s.pending, wr);
    ReleasePromises(s.pending, s.promises, s.resolved, wr, ok);
  }

  lemma ReleasePartition(n: nat, free: seq<nat>, pending: map<U64, Promise>, wr: U64)
    requires Partition(n, free, pending) && wr in pending
    ensures Partition(n, free + [BufOf(wr)], pending - {wr})
  {
    hide BufOf;
    assert (pending - {wr}).Keys == pending.Keys - {wr};
    assert |pending - {wr}| == |(pending - {wr}).Keys| && |pending| == |pending.Keys|;
  }

  lemma ReleasePromises(pending: map<U64, Promise>, promises: nat, resolved: seq<(Promise, bool)>, wr: U64, ok: bool)
    requires Promises(pending, promises, resolved) && wr in pending
    ensures Promises(pending - {wr}, promises, resolved + [(pending[wr], ok)])
  {
    assert (pending - {wr}).Keys == pending.Keys - {wr};
    assert |pending - {wr}| == |(pending - {wr}).Keys| && |pending| == |pending.Keys|;
  }

  lemma StepKeeps(n: nat, s: State, l: Label)
    requires Inv(n, s) && Enabled(s, l) && (l.Acquire? ==> s.nextWr < SEND_LIMIT) && n <= TAG_BITS
    ensures Inv(n, Step(s, l))
  {
    hide Partition, BufOf, WrId, Requests, Promises;
    match l
    case Acquire => AcquireKeeps(n, s);
    case PostFail(wr) =>
      SendingIsPending(s, wr);
      ReleaseKeeps(n, s, wr, false);
    case Complete(wr, ok) =>
      if wr in s.pending {
        ReleaseKeeps(n, s, wr, ok);
        PostedNotSending(s, wr);
      }
    case GiveUp => GiveUpKeeps(s);
    case PostOk(wr) => PostKeeps(s, wr);
  }

  lemma SendingIsPending(s: State, wr: U64)
    requires Requests(s) && wr in s.sending
    ensures wr in s.pending && s.pending[wr] == s.sending[wr]
  {}

  lemma PostedNotSending(s: State, wr: U64)
    requires Requests(s) && wr in s.posted
    ensures s.sending - {wr} == s.sending
  {}

  lemma GiveUpKeeps(s: State)
    requires Requests(s) && Promises(s.pending, s.promises, s.resolved)
    ensures Requests(Step(s, GiveUp)) && Promises(s.pending, s.promises + 1, s.resolved + [(s.promises, false)])
  {
    hide WrId;
  }

  lemma PostKeeps(s: State, wr: U64)
    requires Requests(s) && wr in s.sending
    ensures Requests(Step(s, PostOk(wr)))
  {
    hide WrId;
  }

  lemma SendsCount(s: State, l: Label)
    requires Enabled(s, l)
    ensures Step(s, l).nextWr == s.nextWr + if l.Acquire? then 1 else 0
  {
    hide WrId, BufOf;
  }

  ghost predicate IsRun(ss: seq<State>, ls: seq<Label>)
  {
    && |ss| == |ls| + 1
    && forall i | 0 <= i < |ls| :: Enabled(ss[i], ls[i]) && ss[i + 1] == Step(ss[i], ls[i])
  }

  /**
   In every interleaving of senders, failed posts and completions, even repeated ones, and below 2^48
   sends: free and pending buffers partition the ring, request ids are never reused, a request id
   gives back its buffer, and no promise is resolved twice.
   */
  lemma {:induction false} RunSafe(n: nat, ss: seq<State>, ls: seq<Label>)
    requires IsRun(ss, ls) && ss[0] == Fresh(n) && n <= TAG_BITS && ss[|ls|].nextWr <= SEND_LIMIT
    ensures Inv(n, ss[|ls|])
  {
    hide Inv, Enabled, Step;
    if ls == [] {
      FreshInv(n);
    } else {
      var last := |ls| - 1;
      SendsCount(ss[last], ls[last]);
      RunSafe(n, ss[..|ls|], ls[..last]);
      StepKeeps(n, ss[last], ls[last]);
    }
  }

  // What a resolved promise says

  /** Step `a` made request `wr` for promise `q`. */
  ghost predicate MadeAt(ss: seq<State>, ls: seq<Label>, a: nat, wr: U64, q: Promise)
  {
    && a < |ls| < |ss| && ls[a] == Acquire && ss[a].promises == q && ss[a].free != []
    && wr == WrId(ss[a].nextWr, ss[a].free[|ss[a].free| - 1])
  }

  lemma {:induction false} PendingWasMade(ss: seq<State>, ls: seq<Label>, wr: U64)
    requires IsRun(ss, ls) && ss[0].pending == map[] && wr in ss[|ls|].pending
    ensures exists a :: MadeAt(ss, ls, a, wr, ss[|ls|].pending[wr])
  {
    hide WrId, BufOf;
    var last := |ls| - 1;
    if ls[last] == Acquire && wr == WrId(ss[last].nextWr, ss[last].free[|ss[last].free| - 1]) {
      assert MadeAt(ss, ls, last, wr, ss[|ls|].pending[wr]);
    } else {
      PendingWasMade(ss[..|ls|], ls[..last], wr);
      var a :| MadeAt(ss[..|ls|], ls[..last], a, wr, ss[last].pending[wr]);
      assert MadeAt(ss, ls, a, wr, ss[|ls|].pending[wr]);
    }
  }

  /** Step `i` resolves promise `q`, to say whether its block was sent. */
  ghost predicate ResolvesAt(ss: seq<State>, ls: seq<Label>, i: nat, q: Promise, sent: bool)
  {
    && i < |ls| < |ss|
    && match ls[i]
       case GiveUp => q == ss[i].promises && !sent
       case PostFail(wr) => wr in ss[i].sending && q == ss[i].sending[wr] && !sent
       case Complete(wr, ok) => wr in ss[i].posted && wr in ss[i].pending && q == ss[i].pending[wr] && sent == ok
       case _ => false
  }

  lemma {:induction false} ResolvedAtStep(ss: seq<State>, ls: seq<Label>, j: nat)
    requires IsRun(ss, ls) && ss[0].resolved == [] && j < |ss[|ls|].resolved|
    ensures exists i :: ResolvesAt(ss, ls, i, ss[|ls|].resolved[j].0, ss[|ls|].resolved[j].1)
  {
    hide WrId, BufOf;
    var last := |ls| - 1;
    var (q, sent) := ss[|ls|].resolved[j];
    if j < |ss[last].resolved| {
      ResolvedAtStep(ss[..|ls|], ls[..last], j);
      var i :| ResolvesAt(ss[..|ls|], ls[..last], i, q, sent);
      assert ResolvesAt(ss, ls, i, q, sent);
    } else {
      assert ResolvesAt(ss, ls, last, q, sent);
    }
  }

  /**
   A promise says its block was sent only if the hardware took a request made for that very promise and
   completed it well.
   */
  lemma PromisesAreHonest(ss: seq<State>, ls: seq<Label>, j: nat)
    requires IsRun(ss, ls) && ss[0].resolved == [] && ss[0].pending == map[] && j < |ss[|ls|].resolved|
    ensures var (q, sent) := ss[|ls|].resolved[j];
            sent ==> exists a: nat, i: nat, wr ::
              a < i < |ls| && MadeAt(ss, ls, a, wr, q) && ls[i] == Complete(wr, true) && wr in ss[i].posted
  {
    hide Enabled, Step, MadeAt;
    var (q, sent) := ss[|ls|].resolved[j];
    ResolvedAtStep(ss, ls, j);
    if sent {
      var i: nat :| ResolvesAt(ss, ls, i, q, sent);
      var wr := ls[i].wr;
      PendingWasMade(ss[..i + 1], ls[..i], wr);
      var a :| MadeAt(ss[..i + 1], ls[..i], a, wr, q);
      MadeBefore(ss, ls, i, a, wr, q);
    }
  }

  lemma MadeBefore(ss: seq<State>, ls: seq<Label>, i: nat, a: nat, wr: U64, q: Promise)
    requires i < |ls| < |ss| && MadeAt(ss[..i + 1], ls[..i], a, wr, q)
    ensures a < i && MadeAt(ss, ls, a, wr, q)
  {}

  /** And what the hardware says of a pending request is what its promise says from then on. */
  lemma {:induction false} CompletionsAreTold(ss: seq<State>, ls: seq<Label>, i: nat, wr: U64, ok: bool)
    requires IsRun(ss, ls) && i < |ls| && ls[i] == Complete(wr, ok) && wr in ss[i].pending
    ensures (ss[i].pending[wr], ok) in ss[|ls|].resolved
  {
    hide WrId, BufOf;
    var last := |ls| - 1;
    if i < last {
      CompletionsAreTold(ss[..|ls|], ls[..last], i, wr, ok);
    }
  }
}
