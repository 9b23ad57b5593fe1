/** core/include/z6m/stateless_types.hpp: the containers of the stateless input, their SSZ types, and
    the SSZ value each decoded structure stands for. Byte lists stay spans into the input buffer. */
module Schema {
  import opened Bytes
  import opened Spans
  import opened Ssz

  const MAX_EXTRA_DATA_BYTES := 32
  const MAX_BYTES_PER_TRANSACTION := 0x4000_0000
  const MAX_TRANSACTIONS_PER_PAYLOAD := 0x10_0000
  const MAX_WITHDRAWALS_PER_PAYLOAD := 16
  const MAX_BLOB_COMMITMENTS_PER_BLOCK := 4096
  const MAX_DEPOSIT_REQUESTS_PER_PAYLOAD := 0x2000
  const MAX_WITHDRAWAL_REQUESTS_PER_PAYLOAD := 16
  const MAX_CONSOLIDATION_REQUESTS_PER_PAYLOAD := 2
  const MAX_BUILDER_DEPOSIT_REQUESTS_PER_PAYLOAD := 64
  const MAX_BUILDER_EXIT_REQUESTS_PER_PAYLOAD := 16
  const MAX_BLOCK_ACCESS_LIST_BYTES := 0x100_0000
  const BAL_HTR_LIMIT_AMSTERDAM01 := 0x4000_0000
  const MAX_WITNESS_NODES := 0x10_0000
  const MAX_WITNESS_CODES := 0x1_0000
  const MAX_WITNESS_HEADERS := 256
  const MAX_BYTES_PER_WITNESS_NODE := 0x10_0000
  const MAX_BYTES_PER_CODE := 0x100_0000
  const MAX_BYTES_PER_HEADER := 1024
  const MAX_PUBLIC_KEYS := 0x10_0000
  const MAX_BYTES_PER_PUBLIC_KEY := 65

  /** The fixed-size records; every list of records holds one kind. */
  datatype Item =
    | Withdrawal(index: u64, validatorIndex: u64, address: Bytes20, amount: u64)
    | DepositRequest(pubkey: Bytes48, credentials: Chunk, amount: u64, signature: Bytes96, depositIndex: u64)
    | WithdrawalRequest(source: Bytes20, pubkey: Bytes48, amount: u64)
    | ConsolidationRequest(source: Bytes20, pubkey: Bytes48, targetPubkey: Bytes48)
    | BuilderDepositRequest(pubkey: Bytes48, credentials: Chunk, amount: u64, signature: Bytes96)
    | BuilderExitRequest(source: Bytes20, pubkey: Bytes48)

  datatype Kind = KWithdrawal | KDeposit | KWithdrawalRequest | KConsolidation | KBuilderDeposit | KBuilderExit

  function KindOf(it: Item): Kind {
    match it
    case Withdrawal(_, _, _, _) => KWithdrawal
    case DepositRequest(_, _, _, _, _) => KDeposit
    case WithdrawalRequest(_, _, _) => KWithdrawalRequest
    case ConsolidationRequest(_, _, _) => KConsolidation
    case BuilderDepositRequest(_, _, _, _) => KBuilderDeposit
    case BuilderExitRequest(_, _) => KBuilderExit
  }

  function ItemSize(k: Kind): (n: nat)
    ensures 0 < n < 256
  {
    match k
    case KWithdrawal => 44
    case KDeposit => 192
    case KWithdrawalRequest => 76
    case KConsolidation => 116
    case KBuilderDeposit => 184
    case KBuilderExit => 68
  }

  /** The sizes of the fields of a record. */
  function ItemSizes(k: Kind): seq<nat> {
    match k
    case KWithdrawal => [8, 8, 20, 8]
    case KDeposit => [48, 32, 8, 96, 8]
    case KWithdrawalRequest => [20, 48, 8]
    case KConsolidation => [20, 48, 48]
    case KBuilderDeposit => [48, 32, 8, 96]
    case KBuilderExit => [20, 48]
  }

  /** A container of uintN and ByteVector fields. */
  function VecTyp(sizes: seq<nat>): Typ {
    TContainer(seq(|sizes|, i requires 0 <= i < |sizes| => TVec(sizes[i])))
  }

  function ItemTyp(k: Kind): Typ {
    VecTyp(ItemSizes(k))
  }

  function Uint(x: u64): Val {
    Vec(Le(x, 8))
  }

  function ItemVal(it: Item): (v: Val)
    ensures HasType(ItemTyp(KindOf(it)), v)
  {
    match it
    case Withdrawal(i, vi, a, n) => Container([Uint(i), Uint(vi), Vec(a), Uint(n)])
    case DepositRequest(p, c, n, s, i) => Container([Vec(p), Vec(c), Uint(n), Vec(s), Uint(i)])
    case WithdrawalRequest(a, p, n) => Container([Vec(a), Vec(p), Uint(n)])
    case ConsolidationRequest(a, p, t) => Container([Vec(a), Vec(p), Vec(t)])
    case BuilderDepositRequest(p, c, n, s) => Container([Vec(p), Vec(c), Uint(n), Vec(s)])
    case BuilderExitRequest(a, p) => Container([Vec(a), Vec(p)])
  }

  function ItemVals(items: seq<Item>): (vs: seq<Val>)
    ensures |vs| == |items| && forall i :: 0 <= i < |vs| ==> vs[i] == ItemVal(items[i])
  {
    seq(|items|, i requires 0 <= i < |items| => ItemVal(items[i]))
  }

  function ByteListVals(m: Memory, spans: seq<ByteSpan>, limit: nat): (vs: seq<Val>)
    ensures |vs| == |spans| && forall i :: 0 <= i < |vs| ==> vs[i] == ByteList(spans[i].Get(m), limit)
  {
    seq(|spans|, i requires 0 <= i < |spans| => ByteList(spans[i].Get(m), limit))
  }

  function ByteVectorVals(m: Memory, spans: seq<ByteSpan>): (vs: seq<Val>)
    ensures |vs| == |spans| && forall i :: 0 <= i < |vs| ==> vs[i] == Vec(spans[i].Get(m))
  {
    seq(|spans|, i requires 0 <= i < |spans| => Vec(spans[i].Get(m)))
  }

  function ChunkVals(cs: seq<Chunk>): (vs: seq<Val>)
    ensures |vs| == |cs| && forall i :: 0 <= i < |vs| ==> vs[i] == Vec(cs[i])
  {
    seq(|cs|, i requires 0 <= i < |cs| => Vec(cs[i]))
  }

  datatype PayloadShape = ElectraFulu | Gloas | Unsupported

  datatype Payload = Payload(
    parentHash: Chunk, feeRecipient: Bytes20, stateRoot: Chunk, receiptsRoot: Chunk, logsBloom: Bytes256,
    prevRandao: Chunk, blockNumber: u64, gasLimit: u64, gasUsed: u64, timestamp: u64, extraData: ByteSpan,
    baseFeePerGas: Chunk, blockHash: Chunk, transactions: seq<ByteSpan>, withdrawals: seq<Item>,
    blobGasUsed: u64, excessBlobGas: u64, blockAccessList: ByteSpan, slotNumber: u64,
    shape: PayloadShape, balHtrLimit: nat)

  /** SszExecutionPayload{}: everything zero; ElectraFulu is enumerator 0. */
  const ZERO_PAYLOAD := Payload(
    ZERO_CHUNK, Zeros(20), ZERO_CHUNK, ZERO_CHUNK, Zeros(256), ZERO_CHUNK, 0, 0, 0, 0, EMPTY_SPAN,
    ZERO_CHUNK, ZERO_CHUNK, [], [], 0, 0, EMPTY_SPAN, 0, ElectraFulu, MAX_BLOCK_ACCESS_LIST_BYTES)

  /** ExecutionPayloadV3 has 17 fields; V4 (Gloas) adds the block access list and the slot number. */
  function PayloadFieldCount(shape: PayloadShape): nat {
    if shape.Gloas? then 19 else 17
  }

  function PayloadFieldTyp(balLimit: nat, i: nat): Typ {
    match i
    case 0 => TVec(32)
    case 1 => TVec(20)
    case 2 => TVec(32)
    case 3 => TVec(32)
    case 4 => TVec(256)
    case 5 => TVec(32)
    case 6 => TVec(8)
    case 7 => TVec(8)
    case 8 => TVec(8)
    case 9 => TVec(8)
    case 10 => TByteList(MAX_EXTRA_DATA_BYTES)
    case 11 => TVec(32)
    case 12 => TVec(32)
    case 13 => TList(TByteList(MAX_BYTES_PER_TRANSACTION), MAX_TRANSACTIONS_PER_PAYLOAD)
    case 14 => TList(ItemTyp(KWithdrawal), MAX_WITHDRAWALS_PER_PAYLOAD)
    case 15 => TVec(8)
    case 16 => TVec(8)
    case 17 => TByteList(balLimit)
    case _ => TVec(8)
  }

  function PayloadTyp(shape: PayloadShape, balLimit: nat): Typ {
    TContainer(seq(PayloadFieldCount(shape), (i: nat) => PayloadFieldTyp(balLimit, i)))
  }

  function PayloadFieldVal(m: Memory, p: Payload, i: nat): Val {
    match i
    case 0 => Vec(p.parentHash)
    case 1 => Vec(p.feeRecipient)
    case 2 => Vec(p.stateRoot)
    case 3 => Vec(p.receiptsRoot)
    case 4 => Vec(p.logsBloom)
    case 5 => Vec(p.prevRandao)
    case 6 => Uint(p.blockNumber)
    case 7 => Uint(p.gasLimit)
    case 8 => Uint(p.gasUsed)
    case 9 => Uint(p.timestamp)
    case 10 => ByteList(p.extraData.Get(m), MAX_EXTRA_DATA_BYTES)
    case 11 => Vec(p.baseFeePerGas)
    case 12 => Vec(p.blockHash)
    case 13 => List(ByteListVals(m, p.transactions, MAX_BYTES_PER_TRANSACTION), MAX_TRANSACTIONS_PER_PAYLOAD)
    case 14 => List(ItemVals(p.withdrawals), MAX_WITHDRAWALS_PER_PAYLOAD)
    case 15 => Uint(p.blobGasUsed)
    case 16 => Uint(p.excessBlobGas)
    case 17 => ByteList(p.blockAccessList.Get(m), p.balHtrLimit)
    case _ => Uint(p.slotNumber)
  }

  function PayloadVal(m: Memory, p: Payload): Val {
    Container(seq(PayloadFieldCount(p.shape), (i: nat) => PayloadFieldVal(m, p, i)))
  }

  datatype Requests = Requests(
    deposits: seq<Item>, withdrawals: seq<Item>, consolidations: seq<Item>,
    builderDeposits: seq<Item>, builderExits: seq<Item>, hasBuilderRequests: bool,
    rawDeposits: ByteSpan, rawWithdrawals: ByteSpan, rawConsolidations: ByteSpan,
    rawBuilderDeposits: ByteSpan, rawBuilderExits: ByteSpan)

  function ZeroRequests(builder: bool): Requests {
    Requests([], [], [], [], [], builder, EMPTY_SPAN, EMPTY_SPAN, EMPTY_SPAN, EMPTY_SPAN, EMPTY_SPAN)
  }

  function RequestsTyp(builder: bool): Typ {
    TContainer(
      [TList(ItemTyp(KDeposit), MAX_DEPOSIT_REQUESTS_PER_PAYLOAD),
       TList(ItemTyp(KWithdrawalRequest), MAX_WITHDRAWAL_REQUESTS_PER_PAYLOAD),
       TList(ItemTyp(KConsolidation), MAX_CONSOLIDATION_REQUESTS_PER_PAYLOAD)] +
      if builder then
        [TList(ItemTyp(KBuilderDeposit), MAX_BUILDER_DEPOSIT_REQUESTS_PER_PAYLOAD),
         TList(ItemTyp(KBuilderExit), MAX_BUILDER_EXIT_REQUESTS_PER_PAYLOAD)]
      else [])
  }

  function RequestsVal(r: Requests): Val {
    Container(
      [List(ItemVals(r.deposits), MAX_DEPOSIT_REQUESTS_PER_PAYLOAD),
       List(ItemVals(r.withdrawals), MAX_WITHDRAWAL_REQUESTS_PER_PAYLOAD),
       List(ItemVals(r.consolidations), MAX_CONSOLIDATION_REQUESTS_PER_PAYLOAD)] +
      if r.hasBuilderRequests then
        [List(ItemVals(r.builderDeposits), MAX_BUILDER_DEPOSIT_REQUESTS_PER_PAYLOAD),
         List(ItemVals(r.builderExits), MAX_BUILDER_EXIT_REQUESTS_PER_PAYLOAD)]
      else [])
  }

  datatype NewPayloadRequest = NewPayloadRequest(
    payload: Payload, versionedHashes: seq<Chunk>, parentBeaconBlockRoot: Chunk, requests: Requests)

  const ZERO_REQUEST := NewPayloadRequest(ZERO_PAYLOAD, [], ZERO_CHUNK, ZeroRequests(false))

  function RequestTyp(shape: PayloadShape, builder: bool, balLimit: nat): Typ {
    TContainer([PayloadTyp(shape, balLimit), TList(TVec(32), MAX_BLOB_COMMITMENTS_PER_BLOCK), TVec(32),
                RequestsTyp(builder)])
  }

  function RequestVal(m: Memory, r: NewPayloadRequest): Val {
    Container([PayloadVal(m, r.payload), List(ChunkVals(r.versionedHashes), MAX_BLOB_COMMITMENTS_PER_BLOCK),
               Vec(r.parentBeaconBlockRoot), RequestsVal(r.requests)])
  }

  datatype Witness = Witness(state: seq<ByteSpan>, codes: seq<ByteSpan>, headers: seq<ByteSpan>)

  const WITNESS_TYP := TContainer(
    [TList(TByteList(MAX_BYTES_PER_WITNESS_NODE), MAX_WITNESS_NODES),
     TList(TByteList(MAX_BYTES_PER_CODE), MAX_WITNESS_CODES),
     TList(TByteList(MAX_BYTES_PER_HEADER), MAX_WITNESS_HEADERS)])

  function WitnessVal(m: Memory, w: Witness): Val {
    Container([List(ByteListVals(m, w.state, MAX_BYTES_PER_WITNESS_NODE), MAX_WITNESS_NODES),
               List(ByteListVals(m, w.codes, MAX_BYTES_PER_CODE), MAX_WITNESS_CODES),
               List(ByteListVals(m, w.headers, MAX_BYTES_PER_HEADER), MAX_WITNESS_HEADERS)])
  }

  datatype InputSchema = Legacy0001 | Amsterdam01

  datatype BlobSchedule = BlobSchedule(target: u64, max: u64, baseFeeUpdateFraction: u64)

  datatype Option<+T> = None | Some(value: T)

  datatype ChainConfig = ChainConfig(
    chainId: u64, fork: u64, activationBlock: Option<u64>, activationTime: Option<u64>,
    blobSchedule: Option<BlobSchedule>, raw: ByteSpan, valid: bool)

  const ACTIVATION_TYP := TContainer([TList(TVec(8), 1), TList(TVec(8), 1)])
  const BLOB_TYP := VecTyp([8, 8, 8])

  /** The rich config of the legacy schema; the Amsterdam one has neither fork nor blob schedule. */
  function ChainConfigTyp(schema: InputSchema): Typ {
    TContainer([TVec(8),
                TContainer(match schema
                           case Legacy0001 => [TVec(8), ACTIVATION_TYP, TList(BLOB_TYP, 1)]
                           case Amsterdam01 => [ACTIVATION_TYP])])
  }

  function OptVals(x: Option<u64>): seq<Val> {
    match x case None => [] case Some(n) => [Uint(n)]
  }

  function BlobVals(b: Option<BlobSchedule>): seq<Val> {
    match b case None => [] case Some(s) => [Container([Uint(s.target), Uint(s.max), Uint(s.baseFeeUpdateFraction)])]
  }

  function ActivationVal(c: ChainConfig): Val {
    Container([List(OptVals(c.activationBlock), 1), List(OptVals(c.activationTime), 1)])
  }

  function ChainConfigVal(schema: InputSchema, c: ChainConfig): Val {
    Container([Uint(c.chainId),
               Container(match schema
                         case Legacy0001 => [Uint(c.fork), ActivationVal(c), List(BlobVals(c.blobSchedule), 1)]
                         case Amsterdam01 => [ActivationVal(c)])])
  }

  datatype StatelessInput = StatelessInput(
    request: NewPayloadRequest, wit: Witness, chainConfig: ChainConfig, publicKeys: seq<ByteSpan>,
    schema: InputSchema, valid: bool)

  const FORK_PRAGUE: u64 := 17
  const FORK_OSAKA: u64 := 18
  const FORK_BPO1: u64 := 19
  const FORK_BPO2: u64 := 20
  const FORK_AMSTERDAM: u64 := 24

  function PayloadShapeForFork(fork: u64): PayloadShape {
    if fork in {FORK_PRAGUE, FORK_OSAKA, FORK_BPO1, FORK_BPO2} then ElectraFulu
    else if fork == FORK_AMSTERDAM then Gloas
    else Unsupported
  }

  function PublicKeysTyp(schema: InputSchema): Typ {
    TList(match schema
          case Legacy0001 => TByteList(MAX_BYTES_PER_PUBLIC_KEY)
          case Amsterdam01 => TVec(MAX_BYTES_PER_PUBLIC_KEY), MAX_PUBLIC_KEYS)
  }

  function BalLimit(schema: InputSchema): nat {
    match schema case Legacy0001 => MAX_BLOCK_ACCESS_LIST_BYTES case Amsterdam01 => BAL_HTR_LIMIT_AMSTERDAM01
  }

  /** StatelessInput of a schema, the payload shape being the one its chain config selects. */
  function InputTyp(schema: InputSchema, shape: PayloadShape): Typ {
    TContainer([RequestTyp(shape, schema.Amsterdam01?, BalLimit(schema)), WITNESS_TYP, ChainConfigTyp(schema),
                PublicKeysTyp(schema)])
  }

  function PublicKeyVals(m: Memory, schema: InputSchema, keys: seq<ByteSpan>): seq<Val> {
    match schema
    case Legacy0001 => ByteListVals(m, keys, MAX_BYTES_PER_PUBLIC_KEY)
    case Amsterdam01 => ByteVectorVals(m, keys)
  }

  function InputVal(m: Memory, si: StatelessInput): Val {
    Container([RequestVal(m, si.request), WitnessVal(m, si.wit), ChainConfigVal(si.schema, si.chainConfig),
               List(PublicKeyVals(m, si.schema, si.publicKeys), MAX_PUBLIC_KEYS)])
  }
}
