/** core/src/stateless.cpp and core/include/z6m/ssz.hpp: the htr_* functions compute hash_tree_root. */
module Htr {
  import opened Bytes
  import opened Spans
  import opened Ssz
  import opened Merkle
  import opened Merkleizer
  import opened Schema

  function HtrUint64(x: u64): Chunk {
    Le(x, 8) + Zeros(24)
  }

  lemma UintRoot(h: Hash, x: u64)
    ensures Root(h, Uint(x)) == HtrUint64(x)
  {
    LeafRoot(h, Le(x, 8));
  }

  lemma ChunkRoot(h: Hash, c: Chunk)
    ensures Root(h, Vec(c)) == c
  {
    LeafRoot(h, c);
  }

  lemma ShortRoot(h: Hash, b: seq<Byte>)
    requires |b| <= 32
    ensures Root(h, Vec(b)) == b + Zeros(32 - |b|)
  {
    if b == [] {
      EmptyRoot(h, 0);
    } else {
      LeafRoot(h, b);
    }
  }

  /** mix_in_length writes eight length bytes into a zeroed block: a uint256 for any size_t. */
  method MixIn(z: Merkleizer, root: Chunk, n: nat) returns (out: Chunk)
    requires n < U64
    ensures out == MixInLength(z.h, root, n)
  {
    Pow256Values();
    LeWiden(n, 8, 24);
    out := z.h(root, Le(n, 8) + Zeros(24));
  }

  lemma DepthSmall(n: nat)
    requires n < U64
    ensures Depth(n) < 65 && (n <= 0x8000_0000 ==> Depth(n) < 64)
  {
    if n > 1 {
      if Depth(n) > 31 { Pow2Mono(31, Depth(n) - 1); Pow2Of31(); }
      if Depth(n) > 64 { Pow2Mono(64, Depth(n) - 1); Pow2Of31(); }
    }
  }

  lemma Pow2Of31()
    ensures Pow2(31) == 0x8000_0000 && Pow2(64) == U64
  {
    assert Pow2(8) == 256;
    assert Pow2(16) == 65536;
    assert Pow2(24) == 0x100_0000;
    assert Pow2(31) == 0x8000_0000;
    assert Pow2(40) == 0x100_0000_0000;
    assert Pow2(48) == 0x1_0000_0000_0000;
    assert Pow2(56) == 0x100_0000_0000_0000;
  }

  const MAX_CHUNKS := 8

  method HtrByteVector(z: Merkleizer, data: seq<Byte>) returns (out: Chunk)
    requires z.Valid() && |data| <= 32 * MAX_CHUNKS
    modifies z, z.table
    ensures z.Valid() && out == Root(z.h, Vec(data))
  {
    var n := |data|;
    if n <= 32 {
      ShortRoot(z.h, data);
      out := data + Zeros(32 - n);
      return;
    }
    var nchunks := (n + 31) / 32;
    var chunks := new Chunk[MAX_CHUNKS](_ => ZERO_CHUNK);
    var i := 0;
    while i < nchunks && i < MAX_CHUNKS
      invariant i <= nchunks && z.Valid()
      invariant forall k :: 0 <= k < i ==> chunks[k] == ChunkAt(data, k)
    {
      var off := i * 32;
      var copy := if off + 32 <= n then 32 else n - off;
      chunks[i] := data[off..off + copy] + Zeros(32 - copy);
      assert data[off..off + copy] == if 32 * i + 32 <= n then data[32 * i..32 * i + 32] else data[32 * i..];
      i := i + 1;
    }
    assert chunks[..nchunks] == Pack(data);
    DepthSmall(nchunks);
    out := z.MerkleizeChunks(chunks[..nchunks]);
  }

  method HtrByteList(z: Merkleizer, data: seq<Byte>, limitBytes: nat) returns (out: Chunk)
    requires z.Valid() && 0 < limitBytes <= 0x4000_0000 && |data| < U64
    modifies z, z.table
    ensures z.Valid() && out == Root(z.h, ByteList(data, limitBytes))
  {
    hide Merkleize, Pack, Depth, MixInLength, Le;
    var limitChunks := (limitBytes + 31) / 32;
    DepthSmall(limitChunks);
    var root := z.MerkleizeLimit(data, limitChunks);
    out := MixIn(z, root, |data|);
  }

  /** A container's root from the roots of its fields. */
  method HtrContainer(z: Merkleizer, roots: seq<Chunk>, ghost vs: seq<Val>) returns (out: Chunk)
    requires z.Valid() && 0 < |roots| <= 0x8000_0000 && roots == Roots(z.h, vs)
    modifies z, z.table
    ensures z.Valid() && out == Root(z.h, Container(vs))
  {
    DepthSmall(|roots|);
    out := z.MerkleizeChunks(roots);
  }

  method HtrWithdrawal(z: Merkleizer, w: Item) returns (out: Chunk)
    requires z.Valid() && w.Withdrawal?
    modifies z, z.table
    ensures z.Valid() && out == Root(z.h, ItemVal(w))
  {
    hide Root, Le, Merkleizer.Valid;
    var f2 := HtrByteVector(z, w.address);
    UintRoot(z.h, w.index);
    UintRoot(z.h, w.validatorIndex);
    UintRoot(z.h, w.amount);
    out := HtrContainer(z, [HtrUint64(w.index), HtrUint64(w.validatorIndex), f2, HtrUint64(w.amount)], ItemVal(w).fields);
  }

  method HtrDepositRequest(z: Merkleizer, d: Item) returns (out: Chunk)
    requires z.Valid() && d.DepositRequest?
    modifies z, z.table
    ensures z.Valid() && out == Root(z.h, ItemVal(d))
  {
    hide Root, Le, Merkleizer.Valid;
    var f0 := HtrByteVector(z, d.pubkey);
    var f3 := HtrByteVector(z, d.signature);
    ChunkRoot(z.h, d.credentials);
    UintRoot(z.h, d.amount);
    UintRoot(z.h, d.depositIndex);
    out := HtrContainer(z, [f0, d.credentials, HtrUint64(d.amount), f3, HtrUint64(d.depositIndex)], ItemVal(d).fields);
  }

  method HtrWithdrawalRequest(z: Merkleizer, w: Item) returns (out: Chunk)
    requires z.Valid() && w.WithdrawalRequest?
    modifies z, z.table
    ensures z.Valid() && out == Root(z.h, ItemVal(w))
  {
    hide Root, Le, Merkleizer.Valid;
    var f0 := HtrByteVector(z, w.source);
    var f1 := HtrByteVector(z, w.pubkey);
    UintRoot(z.h, w.amount);
    out := HtrContainer(z, [f0, f1, HtrUint64(w.amount)], ItemVal(w).fields);
  }

  method HtrConsolidationRequest(z: Merkleizer, c: Item) returns (out: Chunk)
    requires z.Valid() && c.ConsolidationRequest?
    modifies z, z.table
    ensures z.Valid() && out == Root(z.h, ItemVal(c))
  {
    hide Root, Le, Merkleizer.Valid;
    var f0 := HtrByteVector(z, c.source);
    var f1 := HtrByteVector(z, c.pubkey);
    var f2 := HtrByteVector(z, c.targetPubkey);
    out := HtrContainer(z, [f0, f1, f2], ItemVal(c).fields);
  }

  method HtrBuilderDepositRequest(z: Merkleizer, d: Item) returns (out: Chunk)
    requires z.Valid() && d.BuilderDepositRequest?
    modifies z, z.table
    ensures z.Valid() && out == Root(z.h, ItemVal(d))
  {
    hide Root, Le, Merkleizer.Valid;
    var f0 := HtrByteVector(z, d.pubkey);
    var f3 := HtrByteVector(z, d.signature);
    ChunkRoot(z.h, d.credentials);
    UintRoot(z.h, d.amount);
    out := HtrContainer(z, [f0, d.credentials, HtrUint64(d.amount), f3], ItemVal(d).fields);
  }

  method HtrBuilderExitRequest(z: Merkleizer, e: Item) returns (out: Chunk)
    requires z.Valid() && e.BuilderExitRequest?
    modifies z, z.table
    ensures z.Valid() && out == Root(z.h, ItemVal(e))
  {
    hide Root, Le, Merkleizer.Valid;
    var f0 := HtrByteVector(z, e.source);
    var f1 := HtrByteVector(z, e.pubkey);
    out := HtrContainer(z, [f0, f1], ItemVal(e).fields);
  }

  method HtrItem(z: Merkleizer, it: Item) returns (out: Chunk)
    requires z.Valid()
    modifies z, z.table
    ensures z.Valid() && out == Root(z.h, ItemVal(it))
  {
    match it
    case Withdrawal(_, _, _, _) => out := HtrWithdrawal(z, it);
    case DepositRequest(_, _, _, _, _) => out := HtrDepositRequest(z, it);
    case WithdrawalRequest(_, _, _) => out := HtrWithdrawalRequest(z, it);
    case ConsolidationRequest(_, _, _) => out := HtrConsolidationRequest(z, it);
    case BuilderDepositRequest(_, _, _, _) => out := HtrBuilderDepositRequest(z, it);
    case BuilderExitRequest(_, _) => out := HtrBuilderExitRequest(z, it);
  }

  /** The chunks of a list's elements, merkleized up to the list's limit with the length mixed in. */
  method HtrList(z: Merkleizer, chunks: seq<Chunk>, limit: nat, ghost vs: seq<Val>) returns (out: Chunk)
    requires z.Valid() && 0 < limit <= 0x8000_0000 && |chunks| < U64 && chunks == Roots(z.h, vs)
    modifies z, z.table
    ensures z.Valid() && out == Root(z.h, List(vs, limit))
  {
    DepthSmall(limit);
    PackFlatten(chunks);
    var root := z.MerkleizeLimit(Flatten(chunks), limit);
    out := MixIn(z, root, |chunks|);
  }

  method HtrContainerList(z: Merkleizer, items: seq<Item>, limit: nat) returns (out: Chunk)
    requires z.Valid() && 0 < limit <= 0x8000_0000 && |items| < U64
    modifies z, z.table
    ensures z.Valid() && out == Root(z.h, List(ItemVals(items), limit))
  {
    hide Root, ItemVal, Merkleizer.Valid;
    var n := |items|;
    var chunks := new Chunk[n](_ => ZERO_CHUNK);
    var i := 0;
    while i < n
      invariant i <= n && z.Valid()
      invariant forall k :: 0 <= k < i ==> chunks[k] == Root(z.h, ItemVal(items[k]))
    {
      var c := HtrItem(z, items[i]);
      chunks[i] := c;
      i := i + 1;
    }
    out := HtrList(z, chunks[..], limit, ItemVals(items));
  }

  method HtrByteLists(z: Merkleizer, m: Memory, spans: seq<ByteSpan>, itemLimit: nat, limit: nat) returns (out: Chunk)
    requires z.Valid() && 0 < itemLimit <= 0x4000_0000 && 0 < limit <= 0x8000_0000 && |spans| < U64
    requires forall i :: 0 <= i < |spans| ==> spans[i].len < U64
    modifies z, z.table
    ensures z.Valid() && out == Root(z.h, List(ByteListVals(m, spans, itemLimit), limit))
  {
    hide Root, Merkleizer.Valid;
    var n := |spans|;
    var chunks := new Chunk[n](_ => ZERO_CHUNK);
    var i := 0;
    while i < n
      invariant i <= n && z.Valid()
      invariant forall k :: 0 <= k < i ==> chunks[k] == Root(z.h, ByteList(spans[k].Get(m), itemLimit))
    {
      var c := HtrByteList(z, spans[i].Get(m), itemLimit);
      chunks[i] := c;
      i := i + 1;
    }
    out := HtrList(z, chunks[..], limit, ByteListVals(m, spans, itemLimit));
  }

  method HtrExecutionRequests(z: Merkleizer, er: Requests) returns (out: Chunk)
    requires z.Valid() && RequestsFit(er)
    modifies z, z.table
    ensures z.Valid() && out == Root(z.h, RequestsVal(er))
  {
    hide Root, ItemVals, Merkleizer.Valid;
    var f0 := HtrContainerList(z, er.deposits, MAX_DEPOSIT_REQUESTS_PER_PAYLOAD);
    var f1 := HtrContainerList(z, er.withdrawals, MAX_WITHDRAWAL_REQUESTS_PER_PAYLOAD);
    var f2 := HtrContainerList(z, er.consolidations, MAX_CONSOLIDATION_REQUESTS_PER_PAYLOAD);
    if !er.hasBuilderRequests {
      out := HtrContainer(z, [f0, f1, f2], RequestsVal(er).fields);
      return;
    }
    var f3 := HtrContainerList(z, er.builderDeposits, MAX_BUILDER_DEPOSIT_REQUESTS_PER_PAYLOAD);
    var f4 := HtrContainerList(z, er.builderExits, MAX_BUILDER_EXIT_REQUESTS_PER_PAYLOAD);
    out := HtrContainer(z, [f0, f1, f2, f3, f4], RequestsVal(er).fields);
  }

  /** Counts and lengths are size_t values. */
  ghost predicate RequestsFit(er: Requests) {
    && |er.deposits| < U64 && |er.withdrawals| < U64 && |er.consolidations| < U64
    && |er.builderDeposits| < U64 && |er.builderExits| < U64
  }

  ghost predicate PayloadFits(p: Payload) {
    && p.extraData.len < U64 && p.blockAccessList.len < U64 && 0 < p.balHtrLimit <= 0x4000_0000
    && |p.transactions| < U64 && |p.withdrawals| < U64
    && forall i :: 0 <= i < |p.transactions| ==> p.transactions[i].len < U64
  }

  method HtrExecutionPayload(z: Merkleizer, m: Memory, p: Payload) returns (out: Chunk)
    requires z.Valid() && PayloadFits(p)
    modifies z, z.table
    ensures z.Valid() && out == Root(z.h, PayloadVal(m, p))
  {
    hide Root, Merkleizer.Valid, ItemVals, ByteListVals, View, Le;
    var f1 := HtrByteVector(z, p.feeRecipient);
    var f4 := HtrByteVector(z, p.logsBloom);
    var f10 := HtrByteList(z, p.extraData.Get(m), MAX_EXTRA_DATA_BYTES);
    var f13 := HtrByteLists(z, m, p.transactions, MAX_BYTES_PER_TRANSACTION, MAX_TRANSACTIONS_PER_PAYLOAD);
    var f14 := HtrContainerList(z, p.withdrawals, MAX_WITHDRAWALS_PER_PAYLOAD);
    var f := [p.parentHash, f1, p.stateRoot, p.receiptsRoot, f4, p.prevRandao, HtrUint64(p.blockNumber),
              HtrUint64(p.gasLimit), HtrUint64(p.gasUsed), HtrUint64(p.timestamp), f10, p.baseFeePerGas, p.blockHash,
              f13, f14, HtrUint64(p.blobGasUsed), HtrUint64(p.excessBlobGas)];
    if p.shape.Gloas? {
      var f17 := HtrByteList(z, p.blockAccessList.Get(m), p.balHtrLimit);
      f := f + [f17, HtrUint64(p.slotNumber)];
    }
    FixedFieldRoots(z.h, m, p);
    out := HtrContainer(z, f, PayloadVal(m, p).fields);
  }

  /** The roots of the fields that are a chunk or a uint64. */
  lemma FixedFieldRoots(h: Hash, m: Memory, p: Payload)
    ensures forall i :: i in {0, 2, 3, 5, 11, 12} ==> PayloadFieldVal(m, p, i).Vec? && Root(h, PayloadFieldVal(m, p, i)) == PayloadFieldVal(m, p, i).bytes
    ensures forall i :: i in {6, 7, 8, 9, 15, 16, 18} ==> PayloadFieldVal(m, p, i).Vec? && Root(h, PayloadFieldVal(m, p, i)) == PayloadFieldVal(m, p, i).bytes + Zeros(24)
  {
  }

  method HtrNewPayloadRequest(z: Merkleizer, m: Memory, r: NewPayloadRequest) returns (out: Chunk)
    requires z.Valid() && PayloadFits(r.payload) && RequestsFit(r.requests) && |r.versionedHashes| < U64
    modifies z, z.table
    ensures z.Valid() && out == Root(z.h, RequestVal(m, r))
  {
    hide Root, Merkleizer.Valid, PayloadVal, RequestsVal;
    var f0 := HtrExecutionPayload(z, m, r.payload);
    var n := |r.versionedHashes|;
    var chunks := new Chunk[n](_ => ZERO_CHUNK);
    var i := 0;
    while i < n
      invariant i <= n && z.Valid()
      invariant forall k :: 0 <= k < i ==> chunks[k] == r.versionedHashes[k]
    {
      chunks[i] := r.versionedHashes[i];
      i := i + 1;
    }
    ChunkRoots(z.h, r.versionedHashes);
    var f1 := HtrList(z, chunks[..], MAX_BLOB_COMMITMENTS_PER_BLOCK, ChunkVals(r.versionedHashes));
    var f3 := HtrExecutionRequests(z, r.requests);
    ChunkRoot(z.h, r.parentBeaconBlockRoot);
    out := HtrContainer(z, [f0, f1, r.parentBeaconBlockRoot, f3], RequestVal(m, r).fields);
  }

  lemma ChunkRoots(h: Hash, cs: seq<Chunk>)
    ensures Roots(h, ChunkVals(cs)) == cs
  {
    forall i | 0 <= i < |cs|
      ensures Roots(h, ChunkVals(cs))[i] == cs[i]
    {
      ChunkRoot(h, cs[i]);
    }
  }
}
