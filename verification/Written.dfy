/** The wire types and the roots of the request, written out in numerals and names, apart from the tables they are
    otherwise computed from. */
module Written {
  import opened Bytes
  import opened Spans
  import opened Ssz
  import opened Merkle
  import opened Merkleizer
  import opened Schema
  import opened Htr
  import opened Commitment

  /** Left to right, padded on the right with zero chunks. */
  lemma TreesWritten(h: Hash, a: Chunk, b: Chunk, c: Chunk, d: Chunk, e: Chunk)
    ensures Merkleize(h, [a, b], 1) == h(a, b)
    ensures Merkleize(h, [a, b, c], 2) == h(h(a, b), h(c, Zeros(32)))
    ensures Merkleize(h, [a, b, c, d], 2) == h(h(a, b), h(c, d))
    ensures Merkleize(h, [a, b, c, d, e], 3) ==
            h(h(h(a, b), h(c, d)), h(h(e, Zeros(32)), h(Zeros(32), Zeros(32))))
  {
    Pow2Small();
    TwoLeaves(h, [a, b]);
    FourLeaves(h, [a, b, c, Zeros(32)]);
    FourLeaves(h, [a, b, c, d]);
    EightLeaves(h, [a, b, c, d, e, Zeros(32), Zeros(32), Zeros(32)]);
    assert Fit([a, b], 2) == [a, b];
    assert Fit([a, b, c], 4) == [a, b, c, Zeros(32)];
    assert Fit([a, b, c, d], 4) == [a, b, c, d];
    assert Fit([a, b, c, d, e], 8) == [a, b, c, d, e, Zeros(32), Zeros(32), Zeros(32)];
  }

  lemma Pow2Small()
    ensures Pow2(0) == 1 && Pow2(1) == 2 && Pow2(2) == 4 && Pow2(3) == 8
  {
  }

  lemma TwoLeaves(h: Hash, cs: seq<Chunk>)
    requires |cs| == Pow2(1)
    ensures |cs| == 2 && Tree(h, cs, 1) == h(cs[0], cs[1])
  {
  }

  lemma FourLeaves(h: Hash, cs: seq<Chunk>)
    requires |cs| == Pow2(2)
    ensures |cs| == 4 && Tree(h, cs, 2) == h(h(cs[0], cs[1]), h(cs[2], cs[3]))
  {
    Pow2Small();
    TwoLeaves(h, cs[..2]);
    TwoLeaves(h, cs[2..]);
  }

  lemma EightLeaves(h: Hash, cs: seq<Chunk>)
    requires |cs| == Pow2(3)
    ensures |cs| == 8
    ensures Tree(h, cs, 3) == h(h(h(cs[0], cs[1]), h(cs[2], cs[3])), h(h(cs[4], cs[5]), h(cs[6], cs[7])))
  {
    Pow2Small();
    FourLeaves(h, cs[..4]);
    FourLeaves(h, cs[4..]);
  }

  /** A chunk that starts with b and is zero after it. */
  function Padded(b: seq<Byte>): Chunk
    requires |b| <= 32
  {
    b + Zeros(32 - |b|)
  }

  function Number(x: u64): Chunk {
    Padded(Le(x, 8))
  }

  /** 48, 96 and 256 bytes in chunks. */
  function Root48(h: Hash, b: Bytes48): Chunk {
    h(b[..32], Padded(b[32..]))
  }

  function Root96(h: Hash, b: Bytes96): Chunk {
    h(h(b[..32], b[32..64]), h(b[64..], Zeros(32)))
  }

  lemma NumberRoot(h: Hash, x: u64)
    ensures Root(h, Uint(x)) == Number(x)
  {
    UintRoot(h, x);
  }

  lemma PackOf48(b: Bytes48)
    ensures Pack(b) == [b[..32], Padded(b[32..])]
  {
    assert |Pack(b)| == 2;
    assert Pack(b)[0] == ChunkAt(b, 0) == b[..32];
    assert Pack(b)[1] == ChunkAt(b, 1) == Padded(b[32..]);
  }

  lemma PackOf96(c: Bytes96)
    ensures Pack(c) == [c[..32], c[32..64], c[64..]]
  {
    assert |Pack(c)| == 3;
    assert Pack(c)[0] == ChunkAt(c, 0) == c[..32];
    assert Pack(c)[1] == ChunkAt(c, 1) == c[32..64];
    assert Pack(c)[2] == ChunkAt(c, 2) == c[64..];
  }

  lemma BytesRoots(h: Hash, a: Bytes20, b: Bytes48, c: Bytes96)
    ensures Root(h, Vec(a)) == Padded(a) && Root(h, Vec(b)) == Root48(h, b) && Root(h, Vec(c)) == Root96(h, c)
  {
    ShortRoot(h, a);
    PackOf48(b);
    PackOf96(c);
    DepthsSmall();
    TreesWritten(h, b[..32], Padded(b[32..]), ZERO_CHUNK, ZERO_CHUNK, ZERO_CHUNK);
    TreesWritten(h, c[..32], c[32..64], c[64..], ZERO_CHUNK, ZERO_CHUNK);
  }

  lemma DepthsSmall()
    ensures Depth(2) == 1 && Depth(3) == 2 && Depth(4) == 2 && Depth(5) == 3 && Depth(17) == 5 && Depth(19) == 5
  {
    assert Depth(1) == 0;
    assert Depth(9) == 4 && Depth(10) == 4;
  }

  // The records, field by field.

  lemma WithdrawalRoot(h: Hash, index: u64, validator: u64, address: Bytes20, amount: u64)
    ensures Root(h, ItemVal(Withdrawal(index, validator, address, amount))) ==
            h(h(Number(index), Number(validator)), h(Padded(address), Number(amount)))
  {
    hide Depth, Merkleize, Pack, Le, Root48, Root96, Padded;
    DepthsSmall();
    BytesRoots(h, address, Zeros(48), Zeros(96));
    NumberRoot(h, index);
    NumberRoot(h, validator);
    NumberRoot(h, amount);
    ContainerRoot(h, ItemVal(Withdrawal(index, validator, address, amount)).fields, [Number(index), Number(validator), Padded(address), Number(amount)]);
    TreesWritten(h, Number(index), Number(validator), Padded(address), Number(amount), Zeros(32));
  }

  lemma DepositRequestRoot(h: Hash, pubkey: Bytes48, credentials: Chunk, amount: u64, signature: Bytes96, index: u64)
    ensures Root(h, ItemVal(DepositRequest(pubkey, credentials, amount, signature, index))) ==
            h(h(h(Root48(h, pubkey), credentials), h(Number(amount), Root96(h, signature))),
              h(h(Number(index), Zeros(32)), h(Zeros(32), Zeros(32))))
  {
    hide Depth, Merkleize, Pack, Le, Root48, Root96, Padded;
    DepthsSmall();
    BytesRoots(h, Zeros(20), pubkey, signature);
    ChunkRoot(h, credentials);
    NumberRoot(h, amount);
    NumberRoot(h, index);
    ContainerRoot(h, ItemVal(DepositRequest(pubkey, credentials, amount, signature, index)).fields, [Root48(h, pubkey), credentials, Number(amount), Root96(h, signature), Number(index)]);
    TreesWritten(h, Root48(h, pubkey), credentials, Number(amount), Root96(h, signature), Number(index));
  }

  lemma WithdrawalRequestRoot(h: Hash, source: Bytes20, pubkey: Bytes48, amount: u64)
    ensures Root(h, ItemVal(WithdrawalRequest(source, pubkey, amount))) ==
            h(h(Padded(source), Root48(h, pubkey)), h(Number(amount), Zeros(32)))
  {
    hide Depth, Merkleize, Pack, Le, Root48, Root96, Padded;
    DepthsSmall();
    BytesRoots(h, source, pubkey, Zeros(96));
    NumberRoot(h, amount);
    ContainerRoot(h, ItemVal(WithdrawalRequest(source, pubkey, amount)).fields, [Padded(source), Root48(h, pubkey), Number(amount)]);
    TreesWritten(h, Padded(source), Root48(h, pubkey), Number(amount), Zeros(32), Zeros(32));
  }

  lemma ConsolidationRequestRoot(h: Hash, source: Bytes20, pubkey: Bytes48, target: Bytes48)
    ensures Root(h, ItemVal(ConsolidationRequest(source, pubkey, target))) ==
            h(h(Padded(source), Root48(h, pubkey)), h(Root48(h, target), Zeros(32)))
  {
    hide Depth, Merkleize, Pack, Le, Root48, Root96, Padded;
    DepthsSmall();
    BytesRoots(h, source, pubkey, Zeros(96));
    BytesRoots(h, source, target, Zeros(96));
    ContainerRoot(h, ItemVal(ConsolidationRequest(source, pubkey, target)).fields, [Padded(source), Root48(h, pubkey), Root48(h, target)]);
    TreesWritten(h, Padded(source), Root48(h, pubkey), Root48(h, target), Zeros(32), Zeros(32));
  }

  lemma BuilderDepositRequestRoot(h: Hash, pubkey: Bytes48, credentials: Chunk, amount: u64, signature: Bytes96)
    ensures Root(h, ItemVal(BuilderDepositRequest(pubkey, credentials, amount, signature))) ==
            h(h(Root48(h, pubkey), credentials), h(Number(amount), Root96(h, signature)))
  {
    hide Depth, Merkleize, Pack, Le, Root48, Root96, Padded;
    DepthsSmall();
    BytesRoots(h, Zeros(20), pubkey, signature);
    ChunkRoot(h, credentials);
    NumberRoot(h, amount);
    ContainerRoot(h, ItemVal(BuilderDepositRequest(pubkey, credentials, amount, signature)).fields, [Root48(h, pubkey), credentials, Number(amount), Root96(h, signature)]);
    TreesWritten(h, Root48(h, pubkey), credentials, Number(amount), Root96(h, signature), Zeros(32));
  }

  lemma BuilderExitRequestRoot(h: Hash, source: Bytes20, pubkey: Bytes48)
    ensures Root(h, ItemVal(BuilderExitRequest(source, pubkey))) ==
            h(Padded(source), Root48(h, pubkey))
  {
    hide Depth, Merkleize, Pack, Le, Root48, Root96, Padded;
    DepthsSmall();
    BytesRoots(h, source, pubkey, Zeros(96));
    ContainerRoot(h, ItemVal(BuilderExitRequest(source, pubkey)).fields, [Padded(source), Root48(h, pubkey)]);
    TreesWritten(h, Padded(source), Root48(h, pubkey), Zeros(32), Zeros(32), Zeros(32));
  }

  lemma ContainerRoot(h: Hash, vs: seq<Val>, cs: seq<Chunk>)
    requires |cs| == |vs| && forall i :: 0 <= i < |vs| ==> Root(h, vs[i]) == cs[i]
    ensures Root(h, Container(vs)) == Merkleize(h, cs, Depth(|cs|))
  {
    assert Roots(h, vs) == cs;
  }

  /** A list of n elements with these chunks, of at most 2^d: the padded tree with the count mixed in. */
  function Mixed(h: Hash, cs: seq<Chunk>, d: nat, n: nat): Chunk {
    h(Tree(h, Fit(cs, Pow2(d)), d), Le(n, 8) + Zeros(24))
  }

  lemma ListRoot(h: Hash, vs: seq<Val>, d: nat)
    requires |vs| < U64
    ensures Root(h, List(vs, Pow2(d))) == Mixed(h, Roots(h, vs), d, |vs|)
  {
    hide Tree, Fit, Depth, Pow2, Le, Roots;
    DepthOfPow2(d);
    Pow256Values();
    LeWiden(|vs|, 8, 24);
  }

  lemma BytesRoot(h: Hash, b: seq<Byte>, d: nat)
    requires |b| < U64
    ensures Root(h, ByteList(b, 32 * Pow2(d))) == Mixed(h, Pack(b), d, |b|)
  {
    hide Tree, Fit, Pack, Depth, Pow2, Le;
    DepthOfPow2(d);
    assert (32 * Pow2(d) + 31) / 32 == Pow2(d);
    Pow256Values();
    LeWiden(|b|, 8, 24);
  }

  ghost function ItemsRoot(h: Hash, items: seq<Item>, d: nat): Chunk {
    Mixed(h, Roots(h, ItemVals(items)), d, |items|)
  }

  /** The execution requests: three lists, or five. */
  lemma RequestsRoot(h: Hash, er: Requests)
    requires RequestsFit(er)
    ensures var a, b, c := ItemsRoot(h, er.deposits, 13), ItemsRoot(h, er.withdrawals, 4), ItemsRoot(h, er.consolidations, 1);
            var d, e := ItemsRoot(h, er.builderDeposits, 6), ItemsRoot(h, er.builderExits, 4);
            Root(h, RequestsVal(er)) ==
            if er.hasBuilderRequests then h(h(h(a, b), h(c, d)), h(h(e, Zeros(32)), h(Zeros(32), Zeros(32))))
            else h(h(a, b), h(c, Zeros(32)))
  {
    hide Depth, Merkleize, Mixed, ItemVals, Root, Roots, Pow2;
    Powers();
    DepthsSmall();
    ListRoot(h, ItemVals(er.deposits), 13);
    ListRoot(h, ItemVals(er.withdrawals), 4);
    ListRoot(h, ItemVals(er.consolidations), 1);
    ListRoot(h, ItemVals(er.builderDeposits), 6);
    ListRoot(h, ItemVals(er.builderExits), 4);
    var a, b, c := ItemsRoot(h, er.deposits, 13), ItemsRoot(h, er.withdrawals, 4), ItemsRoot(h, er.consolidations, 1);
    var d, e := ItemsRoot(h, er.builderDeposits, 6), ItemsRoot(h, er.builderExits, 4);
    TreesWritten(h, a, b, c, d, e);
    ContainerRoot(h, RequestsVal(er).fields, if er.hasBuilderRequests then [a, b, c, d, e] else [a, b, c]);
  }

  /** The 256 bytes of the logs bloom. */
  function Root256(h: Hash, b: Bytes256): Chunk {
    Tree(h, Pack(b), 3)
  }

  lemma BloomRoot(h: Hash, b: Bytes256)
    ensures |Pack(b)| == Pow2(3) && Root(h, Vec(b)) == Root256(h, b)
  {
    hide Tree, Pack;
    Pow2Small();
    assert Depth(8) == 3 by { assert Depth(2) == 1; assert Depth(4) == 2; }
    assert Fit(Pack(b), 8) == Pack(b);
  }

  ghost function TxRoots(h: Hash, m: Memory, txs: seq<ByteSpan>): seq<Chunk> {
    seq(|txs|, i requires 0 <= i < |txs| => Mixed(h, Pack(txs[i].Get(m)), 25, txs[i].len))
  }

  lemma TransactionsRoot(h: Hash, m: Memory, txs: seq<ByteSpan>)
    requires |txs| < U64 && forall i :: 0 <= i < |txs| ==> txs[i].len < U64
    ensures Root(h, List(ByteListVals(m, txs, MAX_BYTES_PER_TRANSACTION), MAX_TRANSACTIONS_PER_PAYLOAD)) ==
            Mixed(h, TxRoots(h, m, txs), 20, |txs|)
  {
    hide Mixed, Root, Pow2, View;
    Powers();
    var vs := ByteListVals(m, txs, MAX_BYTES_PER_TRANSACTION);
    ListRoot(h, vs, 20);
    forall i | 0 <= i < |txs|
      ensures Roots(h, vs)[i] == TxRoots(h, m, txs)[i]
    {
      BytesRoot(h, txs[i].Get(m), 25);
    }
    assert Roots(h, vs) == TxRoots(h, m, txs);
  }

  /** Depth of the access list's tree: its limit is 2^24 bytes under 0x0001, 2^30 under 0x1501. */
  function BalDepth(limit: nat): nat {
    if limit == 0x100_0000 then 19 else 25
  }

  /** The roots of the payload's 17 or 19 fields, in order. */
  ghost function FieldRoots(h: Hash, m: Memory, p: Payload): seq<Chunk> {
    [p.parentHash, Padded(p.feeRecipient), p.stateRoot, p.receiptsRoot, Root256(h, p.logsBloom), p.prevRandao,
     Number(p.blockNumber), Number(p.gasLimit), Number(p.gasUsed), Number(p.timestamp),
     Mixed(h, Pack(p.extraData.Get(m)), 0, p.extraData.len), p.baseFeePerGas, p.blockHash,
     Mixed(h, TxRoots(h, m, p.transactions), 20, |p.transactions|), ItemsRoot(h, p.withdrawals, 4),
     Number(p.blobGasUsed), Number(p.excessBlobGas)] +
    if p.shape == Gloas then
      [Mixed(h, Pack(p.blockAccessList.Get(m)), BalDepth(p.balHtrLimit), p.blockAccessList.len), Number(p.slotNumber)]
    else []
  }

  /** The payload: its fields under 32 leaves. */
  lemma PayloadRoot(h: Hash, m: Memory, p: Payload)
    requires PayloadFits(p) && p.balHtrLimit in {0x100_0000, 0x4000_0000}
    ensures Root(h, PayloadVal(m, p)) == Merkleize(h, FieldRoots(h, m, p), 5)
  {
    hide Mixed, Root, Pow2, View, Pack, Padded, Number, Root256, TxRoots, ItemsRoot, Merkleize, PayloadFieldVal, Depth, PayloadFits;
    DepthsSmall();
    var fields := FieldRoots(h, m, p);
    forall i | 0 <= i < |fields|
      ensures Root(h, PayloadFieldVal(m, p, i)) == fields[i]
    {
      if i in {10, 13, 14, 17} {
        VariableRoot(h, m, p, i);
      } else {
        FixedRoot(h, m, p, i);
      }
    }
    ContainerRoot(h, PayloadVal(m, p).fields, fields);
  }

  lemma FitsBounds(p: Payload)
    requires PayloadFits(p)
    ensures |p.transactions| < U64 && p.extraData.len < U64 && p.blockAccessList.len < U64 && |p.withdrawals| < U64
    ensures forall i :: 0 <= i < |p.transactions| ==> p.transactions[i].len < U64
  {
  }

  lemma VariableRoot(h: Hash, m: Memory, p: Payload, i: nat)
    requires PayloadFits(p) && p.balHtrLimit in {0x100_0000, 0x4000_0000} && i in {10, 13, 14, 17}
    ensures Root(h, PayloadFieldVal(m, p, i)) ==
            match i
            case 10 => Mixed(h, Pack(p.extraData.Get(m)), 0, p.extraData.len)
            case 13 => Mixed(h, TxRoots(h, m, p.transactions), 20, |p.transactions|)
            case 14 => ItemsRoot(h, p.withdrawals, 4)
            case _ => Mixed(h, Pack(p.blockAccessList.Get(m)), BalDepth(p.balHtrLimit), p.blockAccessList.len)
  {
    hide Mixed, Root, Pow2, View, Pack, ItemVals;
    Powers();
    FitsBounds(p);
    match i
    case 10 => BytesRoot(h, p.extraData.Get(m), 0);
    case 13 => TransactionsRoot(h, m, p.transactions);
    case 14 => ListRoot(h, ItemVals(p.withdrawals), 4);
    case _ => BytesRoot(h, p.blockAccessList.Get(m), BalDepth(p.balHtrLimit));
  }

  lemma FixedRoot(h: Hash, m: Memory, p: Payload, i: nat)
    requires i < 19 && i !in {10, 13, 14, 17}
    ensures Root(h, PayloadFieldVal(m, p, i)) ==
            match i
            case 0 => p.parentHash
            case 1 => Padded(p.feeRecipient)
            case 2 => p.stateRoot
            case 3 => p.receiptsRoot
            case 4 => Root256(h, p.logsBloom)
            case 5 => p.prevRandao
            case 6 => Number(p.blockNumber)
            case 7 => Number(p.gasLimit)
            case 8 => Number(p.gasUsed)
            case 9 => Number(p.timestamp)
            case 11 => p.baseFeePerGas
            case 12 => p.blockHash
            case 15 => Number(p.blobGasUsed)
            case 16 => Number(p.excessBlobGas)
            case _ => Number(p.slotNumber)
  {
    hide Root, Number, Root256, Padded;
    match i
    case 0 => ChunkRoot(h, p.parentHash);
    case 1 => BytesRoots(h, p.feeRecipient, Zeros(48), Zeros(96));
    case 2 => ChunkRoot(h, p.stateRoot);
    case 3 => ChunkRoot(h, p.receiptsRoot);
    case 4 => BloomRoot(h, p.logsBloom);
    case 5 => ChunkRoot(h, p.prevRandao);
    case 6 => NumberRoot(h, p.blockNumber);
    case 7 => NumberRoot(h, p.gasLimit);
    case 8 => NumberRoot(h, p.gasUsed);
    case 9 => NumberRoot(h, p.timestamp);
    case 11 => ChunkRoot(h, p.baseFeePerGas);
    case 12 => ChunkRoot(h, p.blockHash);
    case 15 => NumberRoot(h, p.blobGasUsed);
    case 16 => NumberRoot(h, p.excessBlobGas);
    case _ => NumberRoot(h, p.slotNumber);
  }

  /** The published commitment. */
  lemma NewPayloadRequestRoot(h: Hash, m: Memory, r: NewPayloadRequest)
    requires |r.versionedHashes| < U64
    ensures Root(h, RequestVal(m, r)) ==
            h(h(Root(h, PayloadVal(m, r.payload)), Mixed(h, r.versionedHashes, 12, |r.versionedHashes|)),
              h(r.parentBeaconBlockRoot, Root(h, RequestsVal(r.requests))))
  {
    hide Mixed, Root, Pow2, PayloadVal, RequestsVal, Depth, Merkleize;
    Powers();
    DepthsSmall();
    ChunkRoots(h, r.versionedHashes);
    ListRoot(h, ChunkVals(r.versionedHashes), 12);
    ChunkRoot(h, r.parentBeaconBlockRoot);
    var a, b := Root(h, PayloadVal(m, r.payload)), Mixed(h, r.versionedHashes, 12, |r.versionedHashes|);
    var c, d := r.parentBeaconBlockRoot, Root(h, RequestsVal(r.requests));
    ContainerRoot(h, RequestVal(m, r).fields, [a, b, c, d]);
    TreesWritten(h, a, b, c, d, Zeros(32));
  }

  // The wire types.

  const WITHDRAWAL := TContainer([TVec(8), TVec(8), TVec(20), TVec(8)])
  const DEPOSIT := TContainer([TVec(48), TVec(32), TVec(8), TVec(96), TVec(8)])
  const WITHDRAWAL_REQUEST := TContainer([TVec(20), TVec(48), TVec(8)])
  const CONSOLIDATION := TContainer([TVec(20), TVec(48), TVec(48)])
  const BUILDER_DEPOSIT := TContainer([TVec(48), TVec(32), TVec(8), TVec(96)])
  const BUILDER_EXIT := TContainer([TVec(20), TVec(48)])

  lemma ItemTypes()
    ensures ItemTyp(KWithdrawal) == WITHDRAWAL && ItemTyp(KDeposit) == DEPOSIT
    ensures ItemTyp(KWithdrawalRequest) == WITHDRAWAL_REQUEST && ItemTyp(KConsolidation) == CONSOLIDATION
    ensures ItemTyp(KBuilderDeposit) == BUILDER_DEPOSIT && ItemTyp(KBuilderExit) == BUILDER_EXIT
  {
    assert ItemTyp(KWithdrawal).fields == WITHDRAWAL.fields;
    assert ItemTyp(KDeposit).fields == DEPOSIT.fields;
    assert ItemTyp(KWithdrawalRequest).fields == WITHDRAWAL_REQUEST.fields;
    assert ItemTyp(KConsolidation).fields == CONSOLIDATION.fields;
    assert ItemTyp(KBuilderDeposit).fields == BUILDER_DEPOSIT.fields;
    assert ItemTyp(KBuilderExit).fields == BUILDER_EXIT.fields;
  }

  /** ExecutionPayloadV3; V4 has two fields more. */
  const PAYLOAD_V3 :=
    [TVec(32), TVec(20), TVec(32), TVec(32), TVec(256), TVec(32), TVec(8), TVec(8), TVec(8), TVec(8), TByteList(32),
     TVec(32), TVec(32), TList(TByteList(0x4000_0000), 0x10_0000), TList(WITHDRAWAL, 16), TVec(8), TVec(8)]

  lemma PayloadTypes(b: nat)
    ensures PayloadTyp(ElectraFulu, b) == TContainer(PAYLOAD_V3)
    ensures PayloadTyp(Gloas, b) == TContainer(PAYLOAD_V3 + [TByteList(b), TVec(8)])
  {
    ItemTypes();
    assert PayloadTyp(ElectraFulu, b).fields == PAYLOAD_V3;
    assert PayloadTyp(Gloas, b).fields == PAYLOAD_V3 + [TByteList(b), TVec(8)];
  }

  const REQUESTS_LEGACY := [TList(DEPOSIT, 0x2000), TList(WITHDRAWAL_REQUEST, 16), TList(CONSOLIDATION, 2)]
  const REQUESTS_AMSTERDAM := REQUESTS_LEGACY + [TList(BUILDER_DEPOSIT, 64), TList(BUILDER_EXIT, 16)]
  const WITNESS :=
    TContainer([TList(TByteList(0x10_0000), 0x10_0000), TList(TByteList(0x100_0000), 0x1_0000), TList(TByteList(1024), 256)])
  const ACTIVATION := TContainer([TList(TVec(8), 1), TList(TVec(8), 1)])

  /** The input of each schema. */
  lemma InputTypes()
    ensures InputTyp(Legacy0001, ElectraFulu) ==
            TContainer([TContainer([TContainer(PAYLOAD_V3), TList(TVec(32), 4096), TVec(32), TContainer(REQUESTS_LEGACY)]),
                        WITNESS,
                        TContainer([TVec(8), TContainer([TVec(8), ACTIVATION,
                                                         TList(TContainer([TVec(8), TVec(8), TVec(8)]), 1)])]),
                        TList(TByteList(65), 0x10_0000)])
    ensures InputTyp(Legacy0001, Gloas) ==
            TContainer([TContainer([TContainer(PAYLOAD_V3 + [TByteList(0x100_0000), TVec(8)]), TList(TVec(32), 4096),
                                    TVec(32), TContainer(REQUESTS_LEGACY)]),
                        WITNESS,
                        TContainer([TVec(8), TContainer([TVec(8), ACTIVATION,
                                                         TList(TContainer([TVec(8), TVec(8), TVec(8)]), 1)])]),
                        TList(TByteList(65), 0x10_0000)])
    ensures InputTyp(Amsterdam01, Gloas) ==
            TContainer([TContainer([TContainer(PAYLOAD_V3 + [TByteList(0x4000_0000), TVec(8)]), TList(TVec(32), 4096),
                                    TVec(32), TContainer(REQUESTS_AMSTERDAM)]),
                        WITNESS,
                        TContainer([TVec(8), TContainer([ACTIVATION])]),
                        TList(TVec(65), 0x10_0000)])
  {
    hide PayloadTyp, ItemTyp;
    ItemTypes();
    PayloadTypes(0x100_0000);
    PayloadTypes(0x4000_0000);
    assert BLOB_TYP.fields == [TVec(8), TVec(8), TVec(8)];
    assert RequestsTyp(false).fields == REQUESTS_LEGACY && RequestsTyp(true).fields == REQUESTS_AMSTERDAM;
  }
}
