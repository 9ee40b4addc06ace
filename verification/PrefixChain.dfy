/** Prefix-chained block hashes (client/lethe_client/routing.py). */
module PrefixChain {
  import opened Types

  type Hash = Bytes -> Hash256

  /** Tokens as the hash sees them: four little-endian bytes each. */
  function Pack(tokens: seq<U32>): (b: Bytes)
    ensures |b| == 4 * |tokens|
  {
    if tokens == [] then [] else Le32(tokens[0]) + Pack(tokens[1..])
  }

  function ChainedBlockHash(h: Hash, prev: Hash256, tokens: seq<U32>): Hash256 { h(prev + Pack(tokens)) }

  /** Where block `n` of a prompt ends; the last block may be short. */
  function End(tokens: seq<U32>, size: nat, n: nat): (e: nat)
    ensures e <= |tokens|
  {
    Min(|tokens|, n * size)
  }

  lemma EndGrows(tokens: seq<U32>, size: nat, n: nat)
    requires n > 0
    ensures End(tokens, size, n - 1) <= End(tokens, size, n)
  {
    assert n * size == (n - 1) * size + size;
  }

  function Block(tokens: seq<U32>, size: nat, n: nat): seq<U32>
    requires n > 0
  {
    EndGrows(tokens, size, n);
    tokens[End(tokens, size, n - 1)..End(tokens, size, n)]
  }

  /** The hash of the first `n` blocks, chained from `seed`. */
  function ChainFrom(h: Hash, seed: Hash256, tokens: seq<U32>, size: nat, n: nat): Hash256
    decreases n, 1
  {
    if n == 0 then seed else h(Input(h, seed, tokens, size, n))
  }

  /** What block `n` feeds to the hash: the chain so far, then its tokens. */
  function Input(h: Hash, seed: Hash256, tokens: seq<U32>, size: nat, n: nat): Bytes
    requires n > 0
    decreases n, 0
  {
    ChainFrom(h, seed, tokens, size, n - 1) + Pack(Block(tokens, size, n))
  }

  /** The chain as servers and clients start it: from an all-zero hash. */
  function Chain(h: Hash, tokens: seq<U32>, size: nat, n: nat): Hash256 { ChainFrom(h, ZERO_HASH, tokens, size, n) }

  lemma ChainStart(h: Hash, seed: Hash256, tokens: seq<U32>, size: nat)
    ensures ChainFrom(h, seed, tokens, size, 0) == seed
  {}

  lemma BlockAt(tokens: seq<U32>, size: nat, n: nat)
    requires n > 0 && (n - 1) * size <= |tokens|
    ensures Block(tokens, size, n) == tokens[(n - 1) * size..Min(|tokens|, (n - 1) * size + size)]
  {
    assert n * size == (n - 1) * size + size;
  }

  lemma ChainNext(h: Hash, seed: Hash256, tokens: seq<U32>, size: nat, n: nat)
    ensures ChainFrom(h, seed, tokens, size, n + 1) ==
            ChainedBlockHash(h, ChainFrom(h, seed, tokens, size, n), Block(tokens, size, n + 1))
  {}

  /** No two different inputs of the same block collide in these two chains. */
  ghost predicate CollisionFree(h: Hash, seed: Hash256, a: seq<U32>, b: seq<U32>, size: nat, n: nat)
  {
    forall k | 1 <= k <= n ::
      h(Input(h, seed, a, size, k)) == h(Input(h, seed, b, size, k)) ==>
        Input(h, seed, a, size, k) == Input(h, seed, b, size, k)
  }

  lemma {:induction false} PackInjective(a: seq<U32>, b: seq<U32>)
    requires Pack(a) == Pack(b)
    ensures a == b
  {
    assert |a| == |b|;
    if a != [] {
      hide Le32, Value32;
      var x, y := Le32(a[0]), Le32(b[0]);
      assert Pack(a)[..4] == x && Pack(b)[..4] == y;
      assert Pack(a)[4..] == Pack(a[1..]) && Pack(b)[4..] == Pack(b[1..]);
      Le32RoundTrip(a[0], x);
      Le32RoundTrip(b[0], y);
      PackInjective(a[1..], b[1..]);
      assert a == [a[0]] + a[1..] && b == [b[0]] + b[1..];
    }
  }

  lemma {:induction false} PackAt(tokens: seq<U32>, i: nat)
    requires i < |tokens|
    ensures Pack(tokens)[4 * i..4 * i + 4] == Le32(tokens[i])
  {
    hide Le32;
    if i > 0 {
      PackAt(tokens[1..], i - 1);
      assert Pack(tokens)[4..] == Pack(tokens[1..]);
      assert Pack(tokens)[4 * i..4 * i + 4] == Pack(tokens)[4..][4 * (i - 1)..4 * (i - 1) + 4];
    }
  }

  /** `input` is a hash followed by the tokens of a block, four bytes each, least significant first. */
  ghost predicate Feeds(prev: Hash256, block: seq<U32>, input: Bytes)
  {
    && |input| == 32 + 4 * |block| && input[..32] == prev
    && forall i | 0 <= i < |block| :: LittleEndian(input[32 + 4 * i..32 + 4 * i + 4]) == block[i]
  }

  /** The bytes behind a block's hash: the hash before it, all zero at first, and its tokens. */
  lemma HashedBytes(h: Hash, tokens: seq<U32>, size: nat, n: nat)
    requires n * size <= |tokens|
    ensures Chain(h, tokens, size, 0) == ZERO_HASH
    ensures exists input: Bytes ::
              && Chain(h, tokens, size, n + 1) == h(input)
              && Feeds(Chain(h, tokens, size, n), tokens[n * size..Min(|tokens|, n * size + size)], input)
  {
    ChainNext(h, ZERO_HASH, tokens, size, n);
    BlockAt(tokens, size, n + 1);
    hide ChainFrom, Pack, Block, Feeds;
    ChainStart(h, ZERO_HASH, tokens, size);
    BlockFeeds(Chain(h, tokens, size, n), Block(tokens, size, n + 1));
  }

  lemma BlockFeeds(prev: Hash256, block: seq<U32>)
    ensures Feeds(prev, block, prev + Pack(block))
  {
    hide Pack, LittleEndian;
    forall i | 0 <= i < |block| ensures LittleEndian((prev + Pack(block))[32 + 4 * i..32 + 4 * i + 4]) == block[i] {
      TokenBytes(prev, block, i);
    }
  }

  lemma TokenBytes(prev: Hash256, block: seq<U32>, i: nat)
    requires i < |block|
    ensures LittleEndian((prev + Pack(block))[32 + 4 * i..32 + 4 * i + 4]) == block[i]
  {
    hide Pack, Le32, LittleEndian;
    PackAt(block, i);
    assert (prev + Pack(block))[32 + 4 * i..32 + 4 * i + 4] == Pack(block)[4 * i..4 * i + 4];
    Le32RoundTrip(block[i], [0, 0, 0, 0]);
  }

  lemma PrefixExtends(tokens: seq<U32>, size: nat, n: nat)
    requires n > 0
    ensures End(tokens, size, n - 1) <= End(tokens, size, n)
    ensures tokens[..End(tokens, size, n)] == tokens[..End(tokens, size, n - 1)] + Block(tokens, size, n)
  {
    EndGrows(tokens, size, n);
  }

  /** Two prompts that both reach block `n`. */
  predicate BothReach(a: seq<U32>, b: seq<U32>, size: nat, n: nat)
  {
    n > 0 ==> (n - 1) * size < |a| && (n - 1) * size < |b|
  }

  /**
   The hash of block `n` of two prompts is the same exactly when the prompts agree on all tokens up
   to the end of that block, as long as the hash does not collide on the inputs involved.
   */
  lemma {:induction false} SameHashIffSamePrefix(h: Hash, seed: Hash256, a: seq<U32>, b: seq<U32>, size: nat, n: nat)
    requires size > 0 && BothReach(a, b, size, n) && CollisionFree(h, seed, a, b, size, n)
    ensures ChainFrom(h, seed, a, size, n) == ChainFrom(h, seed, b, size, n) <==>
            a[..End(a, size, n)] == b[..End(b, size, n)]
  {
    if n > 0 {
      ReachBefore(a, b, size, n);
      SameHashIffSamePrefix(h, seed, a, b, size, n - 1);
      PrefixExtends(a, size, n);
      PrefixExtends(b, size, n);
      SplitsAgree(ChainFrom(h, seed, a, size, n - 1), ChainFrom(h, seed, b, size, n - 1), Block(a, size, n),
                  Block(b, size, n));
      hide End, Block, Pack;
      var ea, eb := End(a, size, n - 1), End(b, size, n - 1);
      assert |a[..ea]| == |b[..eb]|;
      assert ChainFrom(h, seed, a, size, n) == ChainFrom(h, seed, b, size, n) <==>
        Input(h, seed, a, size, n) == Input(h, seed, b, size, n);
    }
  }

  /** Earlier blocks are full in both prompts, so their ends are at the same place. */
  lemma ReachBefore(a: seq<U32>, b: seq<U32>, size: nat, n: nat)
    requires n > 0 && size > 0 && BothReach(a, b, size, n)
    ensures BothReach(a, b, size, n - 1) && End(a, size, n - 1) == End(b, size, n - 1) == (n - 1) * size
  {
    if n > 1 {
      assert (n - 1) * size == (n - 2) * size + size;
    }
  }

  lemma SplitsAgree(p: Hash256, q: Hash256, x: seq<U32>, y: seq<U32>)
    ensures p + Pack(x) == q + Pack(y) <==> p == q && x == y
  {
    if p + Pack(x) == q + Pack(y) {
      assert (p + Pack(x))[..32] == p && (q + Pack(y))[..32] == q;
      assert (p + Pack(x))[32..] == Pack(x) && (q + Pack(y))[32..] == Pack(y);
      PackInjective(x, y);
    }
  }

  /** The chain of a whole prompt, the short trailing block included. */
  method PrefixBlockIds(h: Hash, tokens: seq<U32>, size: nat, initialHash: Hash256) returns (out: seq<Hash256>)
    requires size > 0
    ensures forall i | 0 <= i < |out| :: out[i] == ChainFrom(h, initialHash, tokens, size, i + 1)
    ensures |tokens| <= |out| * size < |tokens| + size
  {
    hide ChainFrom, Pack, Block;
    out := [];
    ChainStart(h, initialHash, tokens, size);
    var running := initialHash;
    var start := 0;
    while start < |tokens|
      invariant start == |out| * size < |tokens| + size
      invariant running == ChainFrom(h, initialHash, tokens, size, |out|)
      invariant forall i | 0 <= i < |out| :: out[i] == ChainFrom(h, initialHash, tokens, size, i + 1)
      decreases |tokens| - start
    {
      var n := |out| + 1;
      assert n * size == |out| * size + size;
      var block := tokens[start..Min(|tokens|, start + size)];
      assert block == Block(tokens, size, n) by { BlockAt(tokens, size, n); }
      ChainNext(h, initialHash, tokens, size, |out|);
      running := ChainedBlockHash(h, running, block);
      out := out + [running];
      start := start + size;
    }
  }
}
