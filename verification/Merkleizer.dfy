/** core/include/z6m/ssz.hpp: the merkleizer with its zero-subtree shortcut and lazily filled table. */
module Merkleizer {
  import opened Bytes
  import opened Ssz
  import opened Merkle

  /** Root of a tree of 2^d zero chunks. */
  function ZeroRoot(h: Hash, d: nat): Chunk {
    if d == 0 then ZERO_CHUNK else h(ZeroRoot(h, d - 1), ZeroRoot(h, d - 1))
  }

  lemma {:induction false} TreeOfZeros(h: Hash, cs: seq<Chunk>, d: nat)
    requires |cs| == Pow2(d) && forall i :: 0 <= i < |cs| ==> cs[i] == ZERO_CHUNK
    ensures Tree(h, cs, d) == ZeroRoot(h, d)
    decreases d
  {
    if d > 0 {
      TreeOfZeros(h, cs[..Pow2(d - 1)], d - 1);
      TreeOfZeros(h, cs[Pow2(d - 1)..], d - 1);
    }
  }

  /** The bytes under the left and the right child of a node with 2 * half leaves. */
  function LeftBytes(data: seq<Byte>, half: nat): seq<Byte> {
    if |data| > 32 * half then data[..32 * half] else data
  }

  function RightBytes(data: seq<Byte>, half: nat): seq<Byte> {
    if |data| > 32 * half then data[32 * half..] else []
  }

  lemma PackLeft(data: seq<Byte>, half: nat)
    requires |data| > 32 * half
    ensures Pack(data)[..half] == Pack(data[..32 * half])
  {
    forall i | 0 <= i < half
      ensures Pack(data)[i] == Pack(data[..32 * half])[i]
    {
      assert data[32 * i..32 * i + 32] == data[..32 * half][32 * i..32 * i + 32];
    }
  }

  lemma PackRight(data: seq<Byte>, half: nat)
    requires |data| > 32 * half
    ensures Pack(data)[half..] == Pack(data[32 * half..])
  {
    forall i | 0 <= i < |Pack(data[32 * half..])|
      ensures Pack(data)[half + i] == Pack(data[32 * half..])[i]
    {
      ChunkShift(data, 32 * half, half, i);
    }
  }

  /** Chunks that reach into the right half fill the left one; fewer leave the right one empty. */
  lemma FitHalvesBoth(cs: seq<Chunk>, half: nat)
    requires half <= |cs|
    ensures Fit(cs, 2 * half)[..half] == Fit(cs[..half], half)
    ensures Fit(cs, 2 * half)[half..] == Fit(cs[half..], half)
  {
  }

  lemma FitHalvesLeft(cs: seq<Chunk>, half: nat)
    requires |cs| <= half
    ensures Fit(cs, 2 * half)[..half] == Fit(cs, half)
    ensures Fit(cs, 2 * half)[half..] == Fit([], half)
  {
  }

  /** The two halves of the data are the two halves of the padded leaves. */
  lemma FitSplit(data: seq<Byte>, half: nat)
    requires half > 0
    ensures Fit(Pack(data), 2 * half)[..half] == Fit(Pack(LeftBytes(data, half)), half)
    ensures Fit(Pack(data), 2 * half)[half..] == Fit(Pack(RightBytes(data, half)), half)
  {
    hide Fit, ChunkAt;
    if |data| > 32 * half {
      PackLeft(data, half);
      PackRight(data, half);
      FitHalvesBoth(Pack(data), half);
    } else {
      FitHalvesLeft(Pack(data), half);
    }
  }

  lemma NodeRoot(h: Hash, data: seq<Byte>, d: nat)
    requires d > 0
    ensures Merkleize(h, Pack(data), d) ==
            h(Merkleize(h, Pack(LeftBytes(data, Pow2(d - 1))), d - 1),
              Merkleize(h, Pack(RightBytes(data, Pow2(d - 1))), d - 1))
  {
    FitSplit(data, Pow2(d - 1));
  }

  lemma LeafRoot(h: Hash, data: seq<Byte>)
    requires data != []
    ensures Merkleize(h, Pack(data), 0) == if |data| >= 32 then data[..32] else data + Zeros(32 - |data|)
  {
    assert Fit(Pack(data), 1)[0] == ChunkAt(data, 0);
    assert Pow2(0) == 1;
  }

  lemma EmptyRoot(h: Hash, d: nat)
    ensures Merkleize(h, Pack([]), d) == ZeroRoot(h, d)
  {
    TreeOfZeros(h, Fit(Pack([]), Pow2(d)), d);
  }

  lemma ChunkShift(data: seq<Byte>, n: nat, half: nat, i: nat)
    requires n == 32 * half <= |data| && 32 * i < |data| - n
    ensures ChunkAt(data, half + i) == ChunkAt(data[n..], i)
  {
    assert 32 * (half + i) == n + 32 * i;
    if 32 * i + 32 <= |data| - n {
      assert data[n + 32 * i..n + 32 * i + 32] == data[n..][32 * i..32 * i + 32];
    } else {
      assert data[n + 32 * i..] == data[n..][32 * i..];
    }
  }

  function Flatten(cs: seq<Chunk>): (b: seq<Byte>)
    ensures |b| == 32 * |cs|
  {
    if cs == [] then [] else Flatten(cs[..|cs| - 1]) + cs[|cs| - 1]
  }

  lemma {:induction false} FlattenAt(cs: seq<Chunk>, i: nat)
    requires i < |cs|
    ensures Flatten(cs)[32 * i..32 * i + 32] == cs[i]
    decreases |cs|
  {
    var k := |cs| - 1;
    if i < k {
      FlattenAt(cs[..k], i);
      assert Flatten(cs)[32 * i..32 * i + 32] == Flatten(cs[..k])[32 * i..32 * i + 32];
    }
  }

  lemma PackFlatten(cs: seq<Chunk>)
    ensures Pack(Flatten(cs)) == cs
  {
    forall i | 0 <= i < |cs|
      ensures Pack(Flatten(cs))[i] == cs[i]
    {
      FlattenAt(cs, i);
    }
  }

  /** Hashes the recursion makes over m chunks in a tree of depth d, the zero table apart. */
  function PairCost(m: nat, d: nat): nat
    decreases d
  {
    if m == 0 || d == 0 then 0
    else if m <= Pow2(d - 1) then 1 + PairCost(m, d - 1)
    else 1 + PairCost(Pow2(d - 1), d - 1) + PairCost(m - Pow2(d - 1), d - 1)
  }

  lemma CostSplit(data: seq<Byte>, d: nat)
    requires data != [] && d > 0
    ensures var half := Pow2(d - 1);
            PairCost(|Pack(data)|, d) ==
            1 + PairCost(|Pack(LeftBytes(data, half))|, d - 1) + PairCost(|Pack(RightBytes(data, half))|, d - 1)
  {
  }

  function BitCeil(n: nat): nat {
    Pow2(Depth(n))
  }

  class Merkleizer {
    const h: Hash
    const table: array<Chunk>
    var filled: nat
    ghost var tableHashes: nat  // hashes spent on the zero table since the start
    ghost var pairHashes: nat   // hashes of other tree nodes since the start

    ghost predicate Valid()
      reads this, table
    {
      && table.Length == 64
      && filled <= 64
      && (forall i :: 0 <= i < filled ==> table[i] == ZeroRoot(h, i))
      && tableHashes == if filled == 0 then 0 else filled - 1
    }

    constructor (h: Hash)
      ensures Valid() && this.h == h && fresh(table) && filled == 0 && pairHashes == 0
    {
      this.h := h;
      table := new Chunk[64](_ => ZERO_CHUNK);
      filled, tableHashes, pairHashes := 0, 0, 0;
    }

    method ZeroSubtreeRoot(depth: nat) returns (root: Chunk)
      requires Valid()
      modifies this, table
      ensures Valid() && pairHashes == old(pairHashes)
      ensures var d := if depth < 64 then depth else 63;
              root == ZeroRoot(h, d) && filled == if old(filled) <= d then d + 1 else old(filled)
    {
      var d := if depth >= 64 then 63 else depth;
      while filled <= d
        invariant Valid() && pairHashes == old(pairHashes)
        invariant old(filled) <= filled && (filled == old(filled) || filled <= d + 1)
        decreases 64 - filled
      {
        if filled == 0 {
          table[0] := ZERO_CHUNK;
        } else {
          table[filled] := h(table[filled - 1], table[filled - 1]);
          tableHashes := tableHashes + 1;
        }
        filled := filled + 1;
      }
      root := table[d];
    }

    /** Merkleizes data padded to total leaves; ghost d names the depth of total. */
    method MerkleizePowerOfTwo(data: seq<Byte>, total: nat, ghost d: nat) returns (out: Chunk)
      requires Valid() && d < 64 && total == Pow2(d)
      modifies this, table
      ensures Valid() && old(filled) <= filled && (filled == old(filled) || filled <= d + 1)
      ensures out == Merkleize(h, Pack(data), d)
      ensures pairHashes == old(pairHashes) + PairCost(|Pack(data)|, d)
      decreases d
    {
      hide Merkleize, ZeroRoot, ChunkAt;
      if |data| == 0 {
        var depth := DepthOf(total, d);
        out := ZeroSubtreeRoot(depth);
        EmptyRoot(h, d);
        return;
      }
      if total == 1 {
        LeafRoot(h, data);
        if |data| >= 32 {
          out := data[..32];
        } else {
          out := data + Zeros(32 - |data|);
        }
        return;
      }
      var half := total / 2;
      var halfBytes := half * 32;
      NodeRoot(h, data, d);
      CostSplit(data, d);
      var leftLen := if |data| > halfBytes then halfBytes else |data|;
      var rightLen := if |data| > halfBytes then |data| - halfBytes else 0;
      assert data[..leftLen] == LeftBytes(data, half);
      assert data[|data| - rightLen..] == RightBytes(data, half);
      var left := MerkleizePowerOfTwo(data[..leftLen], half, d - 1);
      var right := MerkleizePowerOfTwo(data[|data| - rightLen..], half, d - 1);
      out := h(left, right);
      pairHashes := pairHashes + 1;
    }

    /** The shift loop that recovers the depth of an all-zero subtree. */
    method DepthOf(total: nat, ghost d: nat) returns (depth: nat)
      requires total == Pow2(d)
      ensures depth == d
    {
      depth := 0;
      var p := 1;
      while p < total
        invariant p == Pow2(depth) && depth <= d
        decreases d - depth
      {
        if depth == d { assert false; }
        Pow2Mono(depth + 1, d);
        depth, p := depth + 1, 2 * p;
      }
      if depth < d { Pow2Mono(depth + 1, d); }
    }

    method MerkleizeChunks(chunks: seq<Chunk>) returns (out: Chunk)
      requires Valid() && Depth(|chunks|) < 64
      modifies this, table
      ensures Valid() && old(filled) <= filled && (filled == old(filled) || filled <= Depth(|chunks|) + 1)
      ensures out == if chunks == [] then h(ZERO_CHUNK, ZERO_CHUNK) else Merkleize(h, chunks, Depth(|chunks|))
      ensures pairHashes == old(pairHashes) + if chunks == [] then 1 else PairCost(|chunks|, Depth(|chunks|))
    {
      if |chunks| == 0 {
        out := h(ZERO_CHUNK, ZERO_CHUNK);
        pairHashes := pairHashes + 1;
        return;
      }
      PackFlatten(chunks);
      out := MerkleizePowerOfTwo(Flatten(chunks), BitCeil(|chunks|), Depth(|chunks|));
    }

    method MerkleizeLimit(data: seq<Byte>, limit: nat) returns (out: Chunk)
      requires Valid() && Depth(limit) < 64
      modifies this, table
      ensures Valid() && old(filled) <= filled && (filled == old(filled) || filled <= Depth(limit) + 1)
      ensures out == if limit == 0 then ZERO_CHUNK else Merkleize(h, Pack(data), Depth(limit))
      ensures pairHashes == old(pairHashes) + if limit == 0 then 0 else PairCost(|Pack(data)|, Depth(limit))
    {
      if limit == 0 {
        out := ZERO_CHUNK;
        return;
      }
      out := MerkleizePowerOfTwo(data, BitCeil(limit), Depth(limit));
    }

    /** Any run of calls: every answer is right and the table is hashed at most 63 times in all. */
    method ZeroRootRun(depths: seq<nat>) returns (roots: seq<Chunk>)
      requires Valid() && filled == 0 && forall i :: 0 <= i < |depths| ==> depths[i] < 64
      modifies this, table
      ensures Valid() && tableHashes <= 63 && pairHashes == old(pairHashes)
      ensures |roots| == |depths| && forall i :: 0 <= i < |depths| ==> roots[i] == ZeroRoot(h, depths[i])
      ensures depths != [] ==> exists i :: 0 <= i < |depths| && tableHashes == depths[i]
      ensures forall i :: 0 <= i < |depths| ==> depths[i] <= tableHashes
    {
      roots := [];
      while |roots| < |depths|
        invariant Valid() && pairHashes == old(pairHashes) && |roots| <= |depths|
        invariant forall i :: 0 <= i < |roots| ==> roots[i] == ZeroRoot(h, depths[i]) && depths[i] < filled
        invariant if roots == [] then filled == 0 else exists i :: 0 <= i < |roots| && filled == depths[i] + 1
      {
        var r := ZeroSubtreeRoot(depths[|roots|]);
        roots := roots + [r];
      }
    }
  }
}
