/** hash_tree_root as the consensus-specs define it ("Simple Serialize", section "Merkleization"):
    the plain binary tree over zero-padded chunks. The 64-byte hash is a parameter. */
module Merkle {
  import opened Bytes
  import opened Ssz

  type Hash = (Chunk, Chunk) -> Chunk

  function Pow2(d: nat): (p: nat)
    ensures p > 0
  {
    if d == 0 then 1 else 2 * Pow2(d - 1)
  }

  /** The depth of the smallest power-of-two tree with at least n leaves. */
  function Depth(n: nat): (d: nat)
    ensures n <= Pow2(d)
    ensures d > 0 ==> Pow2(d - 1) < n
  {
    if n <= 1 then 0 else 1 + Depth((n + 1) / 2)
  }

  /** Chunk i of a byte string, zero-padded on the right. */
  function ChunkAt(b: seq<Byte>, i: nat): Chunk
    requires 32 * i < |b|
  {
    var c := if 32 * i + 32 <= |b| then b[32 * i..32 * i + 32] else b[32 * i..];
    c + Zeros(32 - |c|)
  }

  function Pack(b: seq<Byte>): (cs: seq<Chunk>)
    ensures |cs| == (|b| + 31) / 32
  {
    seq((|b| + 31) / 32, (i: nat) requires 32 * i < |b| => ChunkAt(b, i))
  }

  /** Exactly n leaves: zero chunks are appended. SSZ gives a list beyond its limit no root; the
      code keeps the first n chunks of one, so the model does too. */
  function Fit(cs: seq<Chunk>, n: nat): (r: seq<Chunk>)
    ensures |r| == n
  {
    if n <= |cs| then cs[..n] else cs + seq(n - |cs|, _ => ZERO_CHUNK)
  }

  /** The root of a full binary tree. */
  function Tree(h: Hash, cs: seq<Chunk>, d: nat): Chunk
    requires |cs| == Pow2(d)
    decreases d
  {
    if d == 0 then cs[0]
    else h(Tree(h, cs[..Pow2(d - 1)], d - 1), Tree(h, cs[Pow2(d - 1)..], d - 1))
  }

  function Merkleize(h: Hash, cs: seq<Chunk>, d: nat): Chunk {
    Tree(h, Fit(cs, Pow2(d)), d)
  }

  /** The uint256 length that is mixed into the root of a list. */
  function LenChunk(n: nat): Chunk {
    Le(n, 32)
  }

  function MixInLength(h: Hash, root: Chunk, n: nat): Chunk {
    h(root, LenChunk(n))
  }

  /** hash_tree_root. Every element of a list contributes one chunk: lists of uintN or boolean, which SSZ packs
      instead, are outside the model, and no type that is hashed here has one. */
  ghost function Root(h: Hash, v: Val): Chunk
    decreases v, 1
  {
    match v
    case Vec(b) => Merkleize(h, Pack(b), Depth(|Pack(b)|))
    case ByteList(b, limit) => MixInLength(h, Merkleize(h, Pack(b), Depth((limit + 31) / 32)), |b|)
    case List(vs, limit) => MixInLength(h, Merkleize(h, Roots(h, vs), Depth(limit)), |vs|)
    case Container(vs) => Merkleize(h, Roots(h, vs), Depth(|vs|))
  }

  ghost function Roots(h: Hash, vs: seq<Val>): (cs: seq<Chunk>)
    ensures |cs| == |vs|
    decreases vs, 0
  {
    seq(|vs|, i requires 0 <= i < |vs| => Root(h, vs[i]))
  }

  lemma {:induction false} Pow2Mono(a: nat, b: nat)
    requires a <= b
    ensures Pow2(a) <= Pow2(b)
    decreases b
  {
    if a < b {
      Pow2Mono(a, b - 1);
    }
  }
}
