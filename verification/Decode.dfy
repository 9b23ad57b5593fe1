/** core/src/stateless.cpp: the decode_* functions. Functions named ...At say, for every input, what is
    read and from which constant position; the methods are the decoders, advancing cursors and pushing
    to lists, proved to compute exactly that. */
module Decode {
  import opened Bytes
  import opened Spans
  import opened Schema

  function DecodeWithdrawal(m: Memory, s: ByteSpan): Item
    requires s.len == 44
  {
    var index := ReadU64(m, s.ptr);
    var s := s.From(8);
    var validatorIndex := ReadU64(m, s.ptr);
    var s := s.From(8);
    var address := View(m, s.ptr, 20);
    var s := s.From(20);
    Withdrawal(index, validatorIndex, address, ReadU64(m, s.ptr))
  }

  function DecodeDepositRequest(m: Memory, s: ByteSpan): Item
    requires s.len == 192
  {
    var pubkey := View(m, s.ptr, 48);
    var s := s.From(48);
    var credentials := View(m, s.ptr, 32);
    var s := s.From(32);
    var amount := ReadU64(m, s.ptr);
    var s := s.From(8);
    var signature := View(m, s.ptr, 96);
    var s := s.From(96);
    DepositRequest(pubkey, credentials, amount, signature, ReadU64(m, s.ptr))
  }

  function DecodeWithdrawalRequest(m: Memory, s: ByteSpan): Item
    requires s.len == 76
  {
    var source := View(m, s.ptr, 20);
    var s := s.From(20);
    var pubkey := View(m, s.ptr, 48);
    var s := s.From(48);
    WithdrawalRequest(source, pubkey, ReadU64(m, s.ptr))
  }

  function DecodeConsolidationRequest(m: Memory, s: ByteSpan): Item
    requires s.len == 116
  {
    var source := View(m, s.ptr, 20);
    var s := s.From(20);
    var pubkey := View(m, s.ptr, 48);
    var s := s.From(48);
    ConsolidationRequest(source, pubkey, View(m, s.ptr, 48))
  }

  function DecodeBuilderDepositRequest(m: Memory, s: ByteSpan): Item
    requires s.len == 184
  {
    var pubkey := View(m, s.ptr, 48);
    var s := s.From(48);
    var credentials := View(m, s.ptr, 32);
    var s := s.From(32);
    var amount := ReadU64(m, s.ptr);
    var s := s.From(8);
    BuilderDepositRequest(pubkey, credentials, amount, View(m, s.ptr, 96))
  }

  function DecodeBuilderExitRequest(m: Memory, s: ByteSpan): Item
    requires s.len == 68
  {
    var source := View(m, s.ptr, 20);
    var s := s.From(20);
    BuilderExitRequest(source, View(m, s.ptr, 48))
  }

  function DecodeItem(m: Memory, k: Kind, s: ByteSpan): (it: Item)
    requires s.len == ItemSize(k)
    ensures KindOf(it) == k
  {
    match k
    case KWithdrawal => DecodeWithdrawal(m, s)
    case KDeposit => DecodeDepositRequest(m, s)
    case KWithdrawalRequest => DecodeWithdrawalRequest(m, s)
    case KConsolidation => DecodeConsolidationRequest(m, s)
    case KBuilderDeposit => DecodeBuilderDepositRequest(m, s)
    case KBuilderExit => DecodeBuilderExitRequest(m, s)
  }

  /** The items of size n that a span holds; a remainder shorter than n is ignored. */
  function Pieces(d: ByteSpan, n: nat): (ps: seq<ByteSpan>)
    requires n > 0
    ensures |ps| == d.len / n
  {
    seq(d.len / n, (i: nat) => d.Slice(i * n, n))
  }

  function ItemsAt(m: Memory, d: ByteSpan, k: Kind): (items: seq<Item>)
    ensures |items| == d.len / ItemSize(k)
  {
    var ps := Pieces(d, ItemSize(k));
    seq(|ps|, (i: nat) requires i < |ps| => DecodeItem(m, k, ps[i]))
  }

  method DecodeFixedList(m: Memory, data: ByteSpan, k: Kind) returns (out: seq<Item>)
    ensures out == ItemsAt(m, data, k)
  {
    out := [];
    var itemSize := ItemSize(k);
    var n := data.len / itemSize;
    var i := 0;
    while i < n
      invariant i <= n && out == ItemsAt(m, data, k)[..i]
    {
      out := out + [DecodeItem(m, k, data.Slice(i * itemSize, itemSize))];
      i := i + 1;
    }
  }

  /** The part of s from offset a to offset b; uint32_t arithmetic. */
  function Part(s: ByteSpan, a: nat, b: nat): ByteSpan {
    s.Slice(a, Sub32(b, a))
  }

  /** Entry i of the table of n offsets at the start of s; the end of s comes after the last. */
  function TableOffset(m: Memory, s: ByteSpan, n: nat, i: nat): nat {
    if i < n then ReadU32(m, s.ptr + 4 * i) else s.len % U32
  }

  /** The part of s from entry i of its offset table to the next. */
  function TableSlice(m: Memory, s: ByteSpan, n: nat, i: nat): ByteSpan {
    Part(s, TableOffset(m, s, n, i), TableOffset(m, s, n, i + 1))
  }

  function ByteListsAt(m: Memory, d: ByteSpan): seq<ByteSpan> {
    if d.len < 4 || ReadU32(m, d.ptr) % 4 != 0 || ReadU32(m, d.ptr) > d.len then []
    else
      var n := ReadU32(m, d.ptr) / 4;
      seq(n, (i: nat) => TableSlice(m, d, n, i))
  }

  method DecodeByteListList(m: Memory, data: ByteSpan) returns (out: seq<ByteSpan>)
    ensures out == ByteListsAt(m, data)
  {
    out := [];
    if data.len < 4 { return; }
    var first := ReadU32(m, data.ptr);
    if first % 4 != 0 || first > data.len { return; }
    var n := first / 4;
    var i := 0;
    while i < n
      invariant |out| == i <= n && forall k :: 0 <= k < i ==> out[k] == TableSlice(m, data, n, k)
    {
      var lo := ReadU32(m, data.ptr + i * 4);
      var hi := if i + 1 < n then ReadU32(m, data.ptr + (i + 1) * 4) else data.len % U32;
      out := out + [data.Slice(lo, Sub32(hi, lo))];
      i := i + 1;
    }
  }

  function RequestsAt(m: Memory, s: ByteSpan, builder: bool): Requests {
    var n := if builder then 5 else 3;
    if s.len < 4 * n then ZeroRequests(builder)
    else
      var d, w, c := TableSlice(m, s, n, 0), TableSlice(m, s, n, 1), TableSlice(m, s, n, 2);
      var bd := if builder then TableSlice(m, s, n, 3) else EMPTY_SPAN;
      var be := if builder then TableSlice(m, s, n, 4) else EMPTY_SPAN;
      Requests(ItemsAt(m, d, KDeposit), ItemsAt(m, w, KWithdrawalRequest), ItemsAt(m, c, KConsolidation),
               ItemsAt(m, bd, KBuilderDeposit), ItemsAt(m, be, KBuilderExit), builder, d, w, c, bd, be)
  }

  method DecodeExecutionRequests(m: Memory, s: ByteSpan, builder: bool) returns (er: Requests)
    ensures er == RequestsAt(m, s, builder)
  {
    er := ZeroRequests(builder);
    var fixedLen := if builder then 20 else 12;
    if s.len < fixedLen { return; }
    var end := s.len % U32;
    var off0 := ReadU32(m, s.ptr);
    var off1 := ReadU32(m, s.ptr + 4);
    var off2 := ReadU32(m, s.ptr + 8);
    if builder {
      var off3 := ReadU32(m, s.ptr + 12);
      var off4 := ReadU32(m, s.ptr + 16);
      var ds := DecodeFixedList(m, Part(s, off0, off1), KDeposit);
      var ws := DecodeFixedList(m, Part(s, off1, off2), KWithdrawalRequest);
      var cs := DecodeFixedList(m, Part(s, off2, off3), KConsolidation);
      var bds := DecodeFixedList(m, Part(s, off3, off4), KBuilderDeposit);
      var bes := DecodeFixedList(m, Part(s, off4, end), KBuilderExit);
      er := er.(deposits := ds, withdrawals := ws, consolidations := cs, builderDeposits := bds, builderExits := bes);
      er := er.(rawDeposits := Part(s, off0, off1), rawWithdrawals := Part(s, off1, off2),
                rawConsolidations := Part(s, off2, off3), rawBuilderDeposits := Part(s, off3, off4),
                rawBuilderExits := Part(s, off4, end));
    } else {
      var ds := DecodeFixedList(m, Part(s, off0, off1), KDeposit);
      var ws := DecodeFixedList(m, Part(s, off1, off2), KWithdrawalRequest);
      var cs := DecodeFixedList(m, Part(s, off2, end), KConsolidation);
      er := er.(deposits := ds, withdrawals := ws, consolidations := cs);
      er := er.(rawDeposits := Part(s, off0, off1), rawWithdrawals := Part(s, off1, off2),
                rawConsolidations := Part(s, off2, end));
    }
  }

  const PAYLOAD_V3_FIXED := 528
  const PAYLOAD_V4_FIXED := 540

  function PayloadFixed(shape: PayloadShape): nat {
    if shape.Gloas? then PAYLOAD_V4_FIXED else PAYLOAD_V3_FIXED
  }

  function PayloadAt(m: Memory, s: ByteSpan, shape: PayloadShape, balLimit: nat): Payload {
    if s.len < PayloadFixed(shape) then ZERO_PAYLOAD.(shape := Unsupported, balHtrLimit := balLimit)
    else
      var p, total := s.ptr, s.len % U32;
      var oExtra, oTx, oWdl := ReadU32(m, p + 436), ReadU32(m, p + 504), ReadU32(m, p + 508);
      var oBal := if shape.Gloas? then ReadU32(m, p + 528) else total;
      Payload(
        View(m, p, 32), View(m, p + 32, 20), View(m, p + 52, 32), View(m, p + 84, 32), View(m, p + 116, 256),
        View(m, p + 372, 32), ReadU64(m, p + 404), ReadU64(m, p + 412), ReadU64(m, p + 420), ReadU64(m, p + 428),
        Part(s, oExtra, oTx), View(m, p + 440, 32), View(m, p + 472, 32),
        ByteListsAt(m, Part(s, oTx, oWdl)), ItemsAt(m, Part(s, oWdl, oBal), KWithdrawal),
        ReadU64(m, p + 512), ReadU64(m, p + 520),
        if shape.Gloas? then Part(s, oBal, total) else EMPTY_SPAN,
        if shape.Gloas? then ReadU64(m, p + 532) else 0,
        shape, balLimit)
  }

  method DecodeExecutionPayload(m: Memory, s: ByteSpan, shape: PayloadShape, balLimit: nat) returns (p: Payload)
    ensures p == PayloadAt(m, s, shape, balLimit)
  {
    hide ReadU32, ReadU64, View, ItemsAt, ByteListsAt;
    if s.len < PayloadFixed(shape) {
      return ZERO_PAYLOAD.(shape := Unsupported, balHtrLimit := balLimit);
    }
    var cur := s.ptr;
    var parentHash := View(m, cur, 32);    cur := cur + 32;
    var feeRecipient := View(m, cur, 20);  cur := cur + 20;
    var stateRoot := View(m, cur, 32);     cur := cur + 32;
    var receiptsRoot := View(m, cur, 32);  cur := cur + 32;
    var logsBloom := View(m, cur, 256);    cur := cur + 256;
    var prevRandao := View(m, cur, 32);    cur := cur + 32;
    assert cur == s.ptr + 404;
    var blockNumber := ReadU64(m, cur);    cur := cur + 8;
    var gasLimit := ReadU64(m, cur);       cur := cur + 8;
    var gasUsed := ReadU64(m, cur);        cur := cur + 8;
    var timestamp := ReadU64(m, cur);      cur := cur + 8;
    var offExtra := ReadU32(m, cur);       cur := cur + 4;
    var baseFeePerGas := View(m, cur, 32); cur := cur + 32;
    var blockHash := View(m, cur, 32);     cur := cur + 32;
    assert cur == s.ptr + 504;
    var offTx := ReadU32(m, cur);          cur := cur + 4;
    var offWdl := ReadU32(m, cur);         cur := cur + 4;
    var blobGasUsed := ReadU64(m, cur);    cur := cur + 8;
    var excessBlobGas := ReadU64(m, cur);  cur := cur + 8;
    assert cur == s.ptr + 528;
    var total := s.len % U32;
    var extraData := Part(s, offExtra, offTx);
    var transactions := DecodeByteListList(m, Part(s, offTx, offWdl));
    var offBal, slotNumber, blockAccessList := total, 0, EMPTY_SPAN;
    if shape.Gloas? {
      offBal := ReadU32(m, cur);     cur := cur + 4;
      slotNumber := ReadU64(m, cur); cur := cur + 8;
      blockAccessList := Part(s, offBal, total);
    }
    var withdrawals := DecodeFixedList(m, Part(s, offWdl, offBal), KWithdrawal);
    p := Payload(parentHash, feeRecipient, stateRoot, receiptsRoot, logsBloom, prevRandao, blockNumber,
                 gasLimit, gasUsed, timestamp, extraData, baseFeePerGas, blockHash, transactions, withdrawals,
                 blobGasUsed, excessBlobGas, blockAccessList, slotNumber, shape, balLimit);
  }

  function ChunksAt(m: Memory, d: ByteSpan): (cs: seq<Chunk>)
    ensures |cs| == d.len / 32
  {
    var ps := Pieces(d, 32);
    seq(|ps|, (i: nat) requires i < |ps| => ps[i].Get(m))
  }

  function RequestAt(m: Memory, s: ByteSpan, shape: PayloadShape, builder: bool, balLimit: nat): NewPayloadRequest {
    if s.len < 44 then ZERO_REQUEST
    else
      var oPayload, oHashes, oEr := ReadU32(m, s.ptr), ReadU32(m, s.ptr + 4), ReadU32(m, s.ptr + 40);
      NewPayloadRequest(
        PayloadAt(m, Part(s, oPayload, oHashes), shape, balLimit), ChunksAt(m, Part(s, oHashes, oEr)),
        View(m, s.ptr + 8, 32), RequestsAt(m, Part(s, oEr, s.len % U32), builder))
  }

  method DecodeNewPayloadRequest(m: Memory, s: ByteSpan, shape: PayloadShape, builder: bool, balLimit: nat)
    returns (r: NewPayloadRequest)
    ensures r == RequestAt(m, s, shape, builder, balLimit)
  {
    hide ReadU32, View, PayloadAt, RequestsAt;
    r := ZERO_REQUEST;
    if s.len < 44 { return; }
    var offPayload := ReadU32(m, s.ptr);
    var offHashes := ReadU32(m, s.ptr + 4);
    r := r.(parentBeaconBlockRoot := View(m, s.ptr + 8, 32));
    var offEr := ReadU32(m, s.ptr + 40);
    var total := s.len % U32;
    var p := DecodeExecutionPayload(m, Part(s, offPayload, offHashes), shape, balLimit);
    r := r.(payload := p);
    var vh := Part(s, offHashes, offEr);
    var hashes := [];
    var i := 0;
    while i < vh.len / 32
      invariant i <= vh.len / 32 && hashes == ChunksAt(m, vh)[..i]
    {
      hashes := hashes + [View(m, vh.ptr + i * 32, 32)];
      i := i + 1;
    }
    var er := DecodeExecutionRequests(m, Part(s, offEr, total), builder);
    r := r.(versionedHashes := hashes, requests := er);
  }

  function WitnessAt(m: Memory, s: ByteSpan): Witness {
    if s.len < 12 then Witness([], [], [])
    else Witness(ByteListsAt(m, TableSlice(m, s, 3, 0)), ByteListsAt(m, TableSlice(m, s, 3, 1)),
                 ByteListsAt(m, TableSlice(m, s, 3, 2)))
  }

  method DecodeWitness(m: Memory, s: ByteSpan) returns (w: Witness)
    ensures w == WitnessAt(m, s)
  {
    w := Witness([], [], []);
    if s.len < 12 { return; }
    var offState := ReadU32(m, s.ptr);
    var offCodes := ReadU32(m, s.ptr + 4);
    var offHeaders := ReadU32(m, s.ptr + 8);
    var total := s.len % U32;
    var state := DecodeByteListList(m, Part(s, offState, offCodes));
    var codes := DecodeByteListList(m, Part(s, offCodes, offHeaders));
    var headers := DecodeByteListList(m, Part(s, offHeaders, total));
    w := Witness(state, codes, headers);
  }

  function InvalidConfig(s: ByteSpan): ChainConfig {
    ChainConfig(0, 0, None, None, None, s, false)
  }

  /** A List[uint64, 1] of n bytes at p: absent, or its one element. */
  function OptU64(m: Memory, p: nat, n: nat): Option<u64> {
    if n == 8 then Some(ReadU64(m, p)) else None
  }

  /** ForkActivation: two offsets, then zero or one uint64 for each list. */
  function DecodeActivation(m: Memory, act: ByteSpan): Option<(Option<u64>, Option<u64>)> {
    if act.len < 8 then None else
    var offBn, offTs := ReadU32(m, act.ptr), ReadU32(m, act.ptr + 4);
    if offBn != 8 || offTs < offBn || offTs > act.len then None else
    var bnLen, tsLen := offTs - offBn, act.len - offTs;
    if (bnLen != 0 && bnLen != 8) || (tsLen != 0 && tsLen != 8) then None
    else Some((OptU64(m, act.ptr + offBn, bnLen), OptU64(m, act.ptr + offTs, tsLen)))
  }

  function DecodeBlob(m: Memory, bs: ByteSpan): Option<BlobSchedule> {
    if bs.len == 24 then Some(BlobSchedule(ReadU64(m, bs.ptr), ReadU64(m, bs.ptr + 8), ReadU64(m, bs.ptr + 16)))
    else None
  }

  function DecodeChainConfig(m: Memory, s: ByteSpan): ChainConfig {
    if s.len < 12 then InvalidConfig(s) else
    var chainId, offFc := ReadU64(m, s.ptr), ReadU32(m, s.ptr + 8);
    if offFc != 12 || s.len < offFc + 16 then InvalidConfig(s) else
    var fc := s.From(offFc);
    var fork, offAct, offBs := ReadU64(m, fc.ptr), ReadU32(m, fc.ptr + 8), ReadU32(m, fc.ptr + 12);
    if offAct != 16 || offBs < offAct || offBs > fc.len then InvalidConfig(s) else
    var act := DecodeActivation(m, fc.Slice(offAct, offBs - offAct));
    var bs := fc.From(offBs);
    if act.None? || (bs.len != 0 && bs.len != 24) then InvalidConfig(s)
    else ChainConfig(chainId, fork, act.value.0, act.value.1, DecodeBlob(m, bs), s, true)
  }

  function DecodeChainConfigAmsterdam01(m: Memory, s: ByteSpan): ChainConfig {
    if s.len < 12 then InvalidConfig(s) else
    var chainId, offFc := ReadU64(m, s.ptr), ReadU32(m, s.ptr + 8);
    if offFc != 12 || s.len < offFc + 4 then InvalidConfig(s) else
    var fc := s.From(offFc);
    var offAct := ReadU32(m, fc.ptr);
    if offAct != 4 || offAct > fc.len then InvalidConfig(s) else
    var act := DecodeActivation(m, fc.From(offAct));
    if act.None? then InvalidConfig(s)
    else ChainConfig(chainId, FORK_AMSTERDAM, act.value.0, act.value.1, None, s, true)
  }

  function ConfigAt(m: Memory, s: ByteSpan, schema: InputSchema): ChainConfig {
    match schema
    case Legacy0001 => DecodeChainConfig(m, s)
    case Amsterdam01 => DecodeChainConfigAmsterdam01(m, s)
  }

  function ShapeOf(schema: InputSchema, c: ChainConfig): PayloadShape {
    match schema case Legacy0001 => PayloadShapeForFork(c.fork) case Amsterdam01 => Gloas
  }

  /** The four top-level offsets partition the input after its 16-byte header. */
  ghost predicate HeaderOk(m: Memory, s: ByteSpan) {
    && 16 <= s.len
    && TableOffset(m, s, 4, 0) == 16 <= TableOffset(m, s, 4, 1) <= TableOffset(m, s, 4, 2)
       <= TableOffset(m, s, 4, 3) <= TableOffset(m, s, 4, 4)
  }

  ghost function KeysAt(m: Memory, d: ByteSpan, schema: InputSchema): Option<seq<ByteSpan>> {
    match schema
    case Legacy0001 => Some(ByteListsAt(m, d))
    case Amsterdam01 =>
      if d.len % MAX_BYTES_PER_PUBLIC_KEY != 0 then None else Some(Pieces(d, MAX_BYTES_PER_PUBLIC_KEY))
  }

  /** The decoded input, or None when it is rejected. */
  ghost function InputAt(m: Memory, s: ByteSpan, schema: InputSchema): Option<StatelessInput> {
    if !HeaderOk(m, s) then None
    else PartsAt(m, schema, TableSlice(m, s, 4, 0), TableSlice(m, s, 4, 1), TableSlice(m, s, 4, 2), TableSlice(m, s, 4, 3))
  }

  /** The input made of these four parts. */
  ghost function PartsAt(m: Memory, schema: InputSchema, npr: ByteSpan, wit: ByteSpan, cc: ByteSpan, pk: ByteSpan)
    : Option<StatelessInput>
  {
    var c := ConfigAt(m, cc, schema);
    var shape := ShapeOf(schema, c);
    if !c.valid || shape.Unsupported? then None else
    var r := RequestAt(m, npr, shape, schema.Amsterdam01?, BalLimit(schema));
    var keys := KeysAt(m, pk, schema);
    if r.payload.shape.Unsupported? || keys.None? then None
    else Some(StatelessInput(r, WitnessAt(m, wit), c, keys.value, schema, true))
  }

  /** What a decoder that stops early leaves: not valid, and used for nothing. */
  function Rejected(schema: InputSchema): StatelessInput {
    StatelessInput(ZERO_REQUEST, Witness([], [], []), InvalidConfig(EMPTY_SPAN), [], schema, false)
  }

  method DecodeStatelessInput(m: Memory, s: ByteSpan) returns (si: StatelessInput)
    ensures si.valid == InputAt(m, s, Legacy0001).Some?
    ensures si.valid ==> si == InputAt(m, s, Legacy0001).value
  {
    hide WitnessAt, RequestAt, DecodeChainConfig, ByteListsAt, ReadU32;
    si := Rejected(Legacy0001);
    if s.len < 16 { return; }
    var offNpr := ReadU32(m, s.ptr);
    var offWit := ReadU32(m, s.ptr + 4);
    var offCc := ReadU32(m, s.ptr + 8);
    var offPk := ReadU32(m, s.ptr + 12);
    var total := s.len % U32;
    if offNpr != 16 || offWit < offNpr || offCc < offWit || offPk < offCc || offPk > total { return; }
    var cc := DecodeChainConfig(m, Part(s, offCc, offPk));
    if !cc.valid { return; }
    var shape := PayloadShapeForFork(cc.fork);
    if shape.Unsupported? { return; }
    var r := DecodeNewPayloadRequest(m, Part(s, offNpr, offWit), shape, false, MAX_BLOCK_ACCESS_LIST_BYTES);
    if r.payload.shape.Unsupported? { return; }
    var w := DecodeWitness(m, Part(s, offWit, offCc));
    var keys := DecodeByteListList(m, Part(s, offPk, total));
    si := StatelessInput(r, w, cc, keys, Legacy0001, true);
  }

  method DecodeStatelessInputAmsterdam01(m: Memory, s: ByteSpan) returns (si: StatelessInput)
    ensures si.valid == InputAt(m, s, Amsterdam01).Some?
    ensures si.valid ==> si == InputAt(m, s, Amsterdam01).value
  {
    hide WitnessAt, RequestAt, DecodeChainConfigAmsterdam01, ReadU32;
    si := Rejected(Amsterdam01);
    if s.len < 16 { return; }
    var offNpr := ReadU32(m, s.ptr);
    var offWit := ReadU32(m, s.ptr + 4);
    var offCc := ReadU32(m, s.ptr + 8);
    var offPk := ReadU32(m, s.ptr + 12);
    var total := s.len % U32;
    if offNpr != 16 || offWit < offNpr || offCc < offWit || offPk < offCc || offPk > total { return; }
    var cc := DecodeChainConfigAmsterdam01(m, Part(s, offCc, offPk));
    if !cc.valid { return; }
    var r := DecodeNewPayloadRequest(m, Part(s, offNpr, offWit), Gloas, true, BAL_HTR_LIMIT_AMSTERDAM01);
    if r.payload.shape.Unsupported? { return; }
    var w := DecodeWitness(m, Part(s, offWit, offCc));
    var pk := Part(s, offPk, total);
    if pk.len % MAX_BYTES_PER_PUBLIC_KEY != 0 { return; }
    var n := pk.len / MAX_BYTES_PER_PUBLIC_KEY;
    var keys := [];
    var i := 0;
    while i < n
      invariant i <= n && keys == Pieces(pk, MAX_BYTES_PER_PUBLIC_KEY)[..i]
    {
      keys := keys + [pk.Slice(i * MAX_BYTES_PER_PUBLIC_KEY, MAX_BYTES_PER_PUBLIC_KEY)];
      i := i + 1;
    }
    si := StatelessInput(r, w, cc, keys, Amsterdam01, true);
  }
}
