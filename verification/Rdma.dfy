/**
 The RDMA connection object and the wire format of a pushed block
 (cache_server/src/ibverbs_transport.cpp).
 */
module Rdma {
  import opened Types
  import R = SendRing

  // The wire format: a 60-byte header, then the payload

  const MAGIC: U32 := 0x4C455448
  const BLOCK_PUSH: U32 := 1
  const HEADER_BYTES := 60

  datatype Push = Push(id: BlockId, purpose: U32, payload: Bytes)

  function Header(p: Push): (h: Bytes)
    requires |p.payload| < U32_MODULUS
    ensures |h| == HEADER_BYTES
  {
    Le32(MAGIC) + Le32(BLOCK_PUSH) + Le32(p.purpose) + Le32(|p.payload|) + p.id.hash
    + Le32(p.id.layer) + Le32(p.id.headGroup) + Le32(p.id.modelId)
  }

  function Frame(p: Push): (f: Bytes)
    requires |p.payload| < U32_MODULUS
    ensures |f| == HEADER_BYTES + |p.payload|
  {
    Header(p) + p.payload
  }

  /** What a receiver makes of the first `byteLen` bytes of a receive buffer. */
  function HandleRecv(mem: Bytes, byteLen: nat): Option<Push>
    requires byteLen <= |mem|
  {
    if byteLen < HEADER_BYTES then None else
      var magic, kind, purpose, len := Value32(mem[..4]), Value32(mem[4..8]), Value32(mem[8..12]), Value32(mem[12..16]);
      if magic != MAGIC || kind != BLOCK_PUSH then None
      else if HEADER_BYTES + len > byteLen then None
      else
        var id := BlockId(mem[16..48], Value32(mem[48..52]), Value32(mem[52..56]), Value32(mem[56..60]));
        Some(Push(id, purpose, mem[HEADER_BYTES..HEADER_BYTES + len]))
  }

  /** Where each field lies in the header. */
  lemma HeaderFields(p: Push)
    requires |p.payload| < U32_MODULUS
    ensures var h := Header(p);
            && h[..4] == Le32(MAGIC) && h[4..8] == Le32(BLOCK_PUSH) && h[8..12] == Le32(p.purpose)
            && h[12..16] == Le32(|p.payload|) && h[16..48] == p.id.hash
            && h[48..52] == Le32(p.id.layer) && h[52..56] == Le32(p.id.headGroup) && h[56..60] == Le32(p.id.modelId)
  {
    hide Le32;
  }

  /**
   A pushed block arrives as it was sent, whatever an earlier message left behind it in the buffer and
   however much of that counts as received.
   */
  lemma FrameArrives(p: Push, stale: Bytes, byteLen: nat)
    requires |p.payload| < U32_MODULUS && |Frame(p)| <= byteLen <= |Frame(p)| + |stale|
    ensures HandleRecv(Frame(p) + stale, byteLen) == Some(p)
  {
    var mem := Frame(p) + stale;
    HeaderFields(p);
    hide Le32, Header, Value32;
    var any := [0, 0, 0, 0];
    Le32RoundTrip(MAGIC, any);
    Le32RoundTrip(BLOCK_PUSH, any);
    Le32RoundTrip(p.purpose, any);
    Le32RoundTrip(|p.payload|, any);
    Le32RoundTrip(p.id.layer, any);
    Le32RoundTrip(p.id.headGroup, any);
    Le32RoundTrip(p.id.modelId, any);
    assert forall a, b | 0 <= a <= b <= HEADER_BYTES :: mem[a..b] == Header(p)[a..b];
    assert mem[HEADER_BYTES..HEADER_BYTES + |p.payload|] == p.payload;
  }

  /** And nothing else arrives: an accepted message begins with the frame of the block it yields. */
  lemma AcceptedIsFrame(mem: Bytes, byteLen: nat)
    requires byteLen <= |mem| && HandleRecv(mem, byteLen).Some?
    ensures var p := HandleRecv(mem, byteLen).value;
            && |p.payload| < U32_MODULUS && |Frame(p)| <= byteLen
            && Frame(p) == mem[..|Frame(p)|]
  {
    var p := HandleRecv(mem, byteLen).value;
    var f := Frame(p);
    Le32RoundTrip(0, mem[..4]);
    Le32RoundTrip(0, mem[4..8]);
    Le32RoundTrip(0, mem[8..12]);
    Le32RoundTrip(0, mem[12..16]);
    Le32RoundTrip(0, mem[48..52]);
    Le32RoundTrip(0, mem[52..56]);
    Le32RoundTrip(0, mem[56..60]);
    hide Le32, Value32;
    assert mem[..|f|] == mem[..4] + mem[4..8] + mem[8..12] + mem[12..16] + mem[16..48] + mem[48..52] + mem[52..56]
                         + mem[56..60] + mem[60..|f|];
  }

  // The connection

  /** One outbound connection; `machine` is the run of SendRing it is carrying out. */
  class Conn {
    const buffers: nat
    var freeSend: seq<nat>
    var pending: map<U64, R.Promise>
    var nextWr: nat
    ghost var machine: R.State

    ghost predicate Valid()
      reads this
    {
      && machine.free == freeSend && machine.pending == pending && machine.nextWr == nextWr
      && buffers <= R.TAG_BITS && R.Inv(buffers, machine)
    }

    constructor (buffers: nat)
      requires buffers <= R.TAG_BITS
      ensures Valid() && this.buffers == buffers && machine == R.Fresh(buffers)
    {
      R.FreshInv(buffers);
      this.buffers := buffers;
      freeSend, pending, nextWr, machine := seq(buffers, i => i), map[], 1, R.Fresh(buffers);
    }

    /** One attempt of Send to get a buffer, under the send lock. */
    method TryAcquire(promise: R.Promise) returns (got: Option<(nat, U64)>)
      requires Valid() && nextWr < R.SEND_LIMIT && promise == machine.promises
      modifies this
      ensures Valid()
      ensures got == None <==> old(freeSend) == []
      ensures got == None ==> machine == old(machine)
      ensures got.Some? ==> machine == R.Step(old(machine), R.Acquire) && got.value.1 !in old(machine).issued
                            && got.value.0 == R.BufOf(got.value.1) && got.value.0 < buffers
    {
      hide R.Inv, R.WrId, R.BufOf, R.Step;
      if freeSend == [] {
        return None;
      }
      var buf := freeSend[|freeSend| - 1];
      R.TopOfFreeList(buffers, machine);
      R.StepKeeps(buffers, machine, R.Acquire);
      R.AcquireShape(machine);
      freeSend := freeSend[..|freeSend| - 1];
      var wr := R.WrId(nextWr, buf);
      nextWr := nextWr + 1;
      pending := pending[wr := promise];
      machine := R.Step(machine, R.Acquire);
      got := Some((buf, wr));
    }

    /** The failure path of Send after the hardware refused the request. */
    method PostFailed(wr: U64, buf: nat)
      requires Valid() && wr in machine.sending && buf == R.BufOf(wr)
      modifies this
      ensures Valid() && machine == R.Step(old(machine), R.PostFail(wr))
    {
      hide R.Inv, R.BufOf;
      R.StepKeeps(buffers, machine, R.PostFail(wr));
      pending := pending - {wr};
      freeSend := freeSend + [buf];
      machine := R.Step(machine, R.PostFail(wr));
    }

    /** One completion taken by the poller; an unknown request id is ignored. */
    method OnCompletion(wr: U64, ok: bool) returns (resolved: Option<R.Promise>)
      requires Valid() && (wr in machine.posted || wr !in pending)
      modifies this
      ensures Valid() && machine == R.Step(old(machine), R.Complete(wr, ok))
      ensures resolved == if wr in old(pending) then Some(old(pending)[wr]) else None
    {
      hide R.Inv;
      R.StepKeeps(buffers, machine, R.Complete(wr, ok));
      resolved := None;
      if wr in pending {
        resolved := Some(pending[wr]);
        freeSend := freeSend + [wr % 0x1_0000];
        pending := pending - {wr};
      }
      machine := R.Step(machine, R.Complete(wr, ok));
    }
  }
}
