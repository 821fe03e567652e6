/** Bytes and the cutting of a byte string into fixed-size blocks. */
module Bytes {

  newtype byte = x: int | 0 <= x < 0x100

  /** `n` zero bytes: what an unread block reads as. */
  function Zeros(n: nat): (z: seq<byte>)
    ensures |z| == n
    ensures forall i :: 0 <= i < n ==> z[i] == 0
  {
    seq(n, _ => 0)
  }

  /** Block `k` of `d` cut into blocks of `size` bytes; empty past the end of `d`. */
  function Chunk(d: seq<byte>, k: nat, size: nat): seq<byte>
  {
    var lo := k * size;
    if lo + size <= |d| then d[lo..lo + size] else []
  }

  /** The first `n` blocks of `d`. */
  function Chunks(d: seq<byte>, n: nat, size: nat): seq<seq<byte>>
  {
    seq(n, k requires 0 <= k => Chunk(d, k, size))
  }

  /** The blocks, concatenated in order. */
  function Flatten(blocks: seq<seq<byte>>): seq<byte>
  {
    if blocks == [] then [] else blocks[0] + Flatten(blocks[1..])
  }

  /** Every block has `size` bytes. */
  ghost predicate Uniform(blocks: seq<seq<byte>>, size: nat)
  {
    forall i :: 0 <= i < |blocks| ==> |blocks[i]| == size
  }

  lemma MulSucc(a: nat, b: nat)
    ensures (a + 1) * b == a * b + b
  {
  }

  lemma MulMono(a: nat, c: nat, b: nat)
    requires a <= c
    ensures a * b <= c * b
  {
  }

  /** A block of `d` inside its first `n * size` bytes has exactly `size` bytes. */
  lemma ChunkLength(d: seq<byte>, k: nat, n: nat, size: nat)
    requires k < n && n * size <= |d|
    ensures |Chunk(d, k, size)| == size
  {
    MulSucc(k, size);
    MulMono(k + 1, n, size);
  }

  lemma {:induction false} FlattenLength(blocks: seq<seq<byte>>, size: nat)
    requires Uniform(blocks, size)
    ensures |Flatten(blocks)| == |blocks| * size
  {
    if blocks != [] {
      FlattenLength(blocks[1..], size);
      MulSucc(|blocks| - 1, size);
    }
  }

  /** Block `k` of a concatenation of equal-size blocks is the `k`-th block. */
  lemma {:induction false} FlattenChunk(blocks: seq<seq<byte>>, size: nat, k: nat)
    requires Uniform(blocks, size) && k < |blocks|
    ensures Chunk(Flatten(blocks), k, size) == blocks[k]
  {
    var f := Flatten(blocks);
    FlattenLength(blocks, size);
    FlattenLength(blocks[1..], size);
    if k == 0 {
      assert f == blocks[0] + Flatten(blocks[1..]);
      assert f[0..size] == blocks[0];
    } else {
      FlattenChunk(blocks[1..], size, k - 1);
      MulSucc(k - 1, size);
      MulSucc(|blocks| - 1, size);
      MulMono(k + 1, |blocks|, size);
      MulSucc(k, size);
      var lo := (k - 1) * size;
      assert k * size == lo + size;
      assert f == blocks[0] + Flatten(blocks[1..]);
      assert f[k * size..k * size + size] == Flatten(blocks[1..])[lo..lo + size];
    }
  }

  /** Block `k + 1` of `d` is block `k` of `d` without its first block. */
  lemma ChunkShift(d: seq<byte>, k: nat, size: nat)
    requires size <= |d|
    ensures Chunk(d, k + 1, size) == Chunk(d[size..], k, size)
  {
    MulSucc(k, size);
  }

  /** Cutting `n * size` bytes into `n` blocks and concatenating them gives the bytes back. */
  lemma {:induction false} FlattenChunks(d: seq<byte>, n: nat, size: nat)
    requires |d| == n * size
    ensures Flatten(Chunks(d, n, size)) == d
  {
    if n > 0 {
      MulSucc(n - 1, size);
      var rest := d[size..];
      var cs, rs := Chunks(d, n, size), Chunks(rest, n - 1, size);
      forall k | 0 <= k < n - 1
        ensures cs[1..][k] == rs[k]
      {
        assert cs[1..][k] == Chunk(d, k + 1, size);
        ChunkShift(d, k, size);
      }
      assert cs[1..] == rs;
      FlattenChunks(rest, n - 1, size);
      assert Flatten(cs) == cs[0] + Flatten(rs);
      assert cs[0] == d[..size];
      assert d == d[..size] + rest;
    }
  }

  /** Two strings of `n * size` bytes that agree block by block are equal. */
  lemma ChunksDetermine(d: seq<byte>, e: seq<byte>, n: nat, size: nat)
    requires |d| == n * size && |e| == n * size
    requires forall k :: 0 <= k < n ==> Chunk(d, k, size) == Chunk(e, k, size)
    ensures d == e
  {
    FlattenChunks(d, n, size);
    FlattenChunks(e, n, size);
    assert Chunks(d, n, size) == Chunks(e, n, size);
  }
}
