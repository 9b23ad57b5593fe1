/** Which wire bytes the guest accepts and when it reports success, written out over the bytes and the encoded
    values, apart from the decoders. */
module Acceptance {
  import opened Bytes
  import opened Spans
  import opened Ssz
  import opened Schema
  import opened Decode
  import opened ConfigCodec
  import opened InputRoundTrip
  import opened HeaderChain
  import opened Guest
  import opened Commitment

  /** The four top-level offsets are in order, the config is a canonical encoding. */
  ghost predicate Partitioned(m: Memory, s: ByteSpan, schema: InputSchema) {
    && 16 <= s.len
    && var o0, o1, o2, o3 := ReadU32(m, s.ptr), ReadU32(m, s.ptr + 4), ReadU32(m, s.ptr + 8), ReadU32(m, s.ptr + 12);
    && o0 == 16 <= o1 <= o2 <= o3 <= s.len % U32
    && Canonical(schema, View(m, s.ptr + o2, o3 - o2))
  }

  /** The fork: the one in the config, 24 under 0x1501. */
  function ForkNumber(m: Memory, s: ByteSpan, schema: InputSchema): nat {
    if schema.Legacy0001? then FromLe(View(m, s.ptr + ReadU32(m, s.ptr + 8) + 12, 8)) else 24
  }

  /** The payload has room for the fixed part of its layout, unless the request is too short to have one. */
  predicate PayloadFixedPart(m: Memory, s: ByteSpan, fork: nat) {
    ReadU32(m, s.ptr + 4) - 16 >= 44 ==>
      (ReadU32(m, s.ptr + 20) - ReadU32(m, s.ptr + 16)) % U32 >= if fork == 24 then 540 else 528
  }

  /** For all bytes: exactly which inputs are accepted. */
  lemma AcceptedIff(m: Memory, s: ByteSpan, schema: InputSchema)
    ensures InputAt(m, s, schema).Some? <==>
            && Partitioned(m, s, schema)
            && ForkNumber(m, s, schema) in {17, 18, 19, 20, 24}
            && PayloadFixedPart(m, s, ForkNumber(m, s, schema))
            && (schema.Amsterdam01? ==> (s.len % U32 - ReadU32(m, s.ptr + 12)) % 65 == 0)
  {
    hide ReadU32, View, ConfigAt, Canonical, RequestAt, WitnessAt, ByteListsAt, Pieces, ShapeOf;
    assert s.ptr + 4 * 0 == s.ptr;
    if HeaderOk(m, s) {
      var npr, cc, pk := TableSlice(m, s, 4, 0), TableSlice(m, s, 4, 2), TableSlice(m, s, 4, 3);
      ConfigCanonical(m, s, schema);
      if ConfigAt(m, cc, schema).valid {
        var c := ConfigAt(m, cc, schema);
        ForkOfConfig(m, cc, schema);
        ShapeOfFork(c.fork);
        assert c.fork == ForkNumber(m, s, schema);
        var shape := ShapeOf(schema, c);
        if shape != Unsupported {
          PayloadShapeOf(m, npr, shape, schema.Amsterdam01?, BalLimit(schema));
          assert npr.ptr == s.ptr + 16 && npr.ptr + 4 == s.ptr + 20;
          assert RequestAt(m, npr, shape, schema.Amsterdam01?, BalLimit(schema)).payload.shape == Unsupported <==>
                 !PayloadFixedPart(m, s, c.fork);
          assert KeysAt(m, pk, schema).None? <==> schema.Amsterdam01? && (s.len % U32 - ReadU32(m, s.ptr + 12)) % 65 != 0;
        }
      }
    } else {
      assert !Partitioned(m, s, schema);
    }
  }

  lemma ConfigCanonical(m: Memory, s: ByteSpan, schema: InputSchema)
    requires HeaderOk(m, s)
    ensures Partitioned(m, s, schema) <==> ConfigAt(m, TableSlice(m, s, 4, 2), schema).valid
  {
    hide ReadU32, View, ConfigAt, Canonical;
    var cc, o2, o3 := TableSlice(m, s, 4, 2), ReadU32(m, s.ptr + 8), ReadU32(m, s.ptr + 12);
    assert cc == ByteSpan(s.ptr + o2, o3 - o2);
    assert s.ptr + 4 * 0 == s.ptr;
    ConfigValidIffCanonical(m, cc, schema);
  }

  lemma PayloadShapeOf(m: Memory, s: ByteSpan, shape: PayloadShape, builder: bool, b: nat)
    requires shape != Unsupported
    ensures RequestAt(m, s, shape, builder, b).payload.shape == Unsupported <==>
            && s.len >= 44
            && (ReadU32(m, s.ptr + 4) - ReadU32(m, s.ptr)) % U32 < if shape == Gloas then 540 else 528
  {
    hide ReadU32, View, ReadU64, ByteListsAt, ItemsAt, RequestsAt, ChunksAt;
  }

  /** Parts of a value; empty where it has no such part. */
  function Field(v: Val, i: nat): Val {
    if v.Container? && i < |v.fields| then v.fields[i] else Vec([])
  }

  function Items(v: Val): seq<Val> {
    if v.List? then v.items else []
  }

  function BytesOf(v: Val): seq<Byte> {
    match v
    case Vec(b) => b
    case ByteList(b, _) => b
    case _ => []
  }

  function ByteStrings(vs: seq<Val>): (bs: seq<seq<Byte>>)
    ensures |bs| == |vs|
  {
    seq(|vs|, i requires 0 <= i < |vs| => BytesOf(vs[i]))
  }

  /** The activation lists of an input value, the payload and the headers in it. */
  function ActivationList(schema: InputSchema, v: Val, i: nat): seq<Val> {
    Items(Field(Field(Field(Field(v, 2), 1), if schema.Legacy0001? then 1 else 0), i))
  }

  function PayloadField(v: Val, i: nat): Val {
    Field(Field(Field(v, 0), 0), i)
  }

  function HeadersOf(v: Val): seq<seq<Byte>> {
    ByteStrings(Items(Field(Field(v, 1), 2)))
  }

  /** The fork is activated: by block number or by time, and by each that is given. */
  predicate Activated(schema: InputSchema, v: Val) {
    var block, time := ActivationList(schema, v, 0), ActivationList(schema, v, 1);
    && (block != [] || time != [])
    && (block != [] ==> FromLe(BytesOf(block[0])) <= FromLe(BytesOf(PayloadField(v, 6))))
    && (time != [] ==> FromLe(BytesOf(time[0])) <= FromLe(BytesOf(PayloadField(v, 9))))
  }

  lemma ValActivated(m: Memory, si: StatelessInput)
    ensures Activated(si.schema, InputVal(m, si)) <==>
            ValidateChainConfig(si.chainConfig, si.request.payload.blockNumber, si.request.payload.timestamp)
  {
    hide Le, FromLe, RequestsVal, WitnessVal, PublicKeyVals;
    var v, c, p := InputVal(m, si), si.chainConfig, si.request.payload;
    Pow256Values();
    UintOf(p.blockNumber);
    UintOf(p.timestamp);
    assert PayloadField(v, 6) == Uint(p.blockNumber) && PayloadField(v, 9) == Uint(p.timestamp);
    assert ActivationList(si.schema, v, 0) == OptVals(c.activationBlock);
    assert ActivationList(si.schema, v, 1) == OptVals(c.activationTime);
    if c.activationBlock.Some? { UintOf(c.activationBlock.value); }
    if c.activationTime.Some? { UintOf(c.activationTime.value); }
  }

  lemma UintOf(x: u64)
    ensures FromLe(BytesOf(Uint(x))) == x
  {
    Pow256Values();
    FromLeOfLe(x, 8);
  }

  lemma ValHeaders(m: Memory, si: StatelessInput)
    ensures HeadersOf(InputVal(m, si)) == Contents(m, si.wit.headers)
    ensures BytesOf(PayloadField(InputVal(m, si), 0)) == si.request.payload.parentHash
  {
    hide RequestsVal, ChainConfigVal, PublicKeyVals, View;
    var v := InputVal(m, si);
    assert Items(Field(Field(v, 1), 2)) == ByteListVals(m, si.wit.headers, MAX_BYTES_PER_HEADER);
    assert PayloadField(v, 0) == Vec(si.request.payload.parentHash);
  }

  lemma WireSchema(m: Memory, s: ByteSpan)
    requires WireInput(m, s).Some?
    ensures WireInput(m, s).value.schema == InputSchemaAt(m, s)
  {
    hide RequestAt, WitnessAt, ConfigAt, KeysAt, TableSlice, TableOffset, ShapeOf;
  }

  /** When the guest reports success, over the value that was decoded: the fork is activated at its payload, it has at
      most 256 headers, they are linked, and execution succeeds on the state of the header that its payload names
      as parent. */
  lemma SuccessOverValue(e: Env, m: Memory, s: ByteSpan)
    requires WireInput(m, s).Some?
    ensures var v := InputVal(m, WireInput(m, s).value);
            var headers, parent := HeadersOf(v), BytesOf(PayloadField(v, 0));
            && |parent| == 32
            && (GuestOutput(e, m, s).success <==>
                && Activated(InputSchemaAt(m, s), v) && |headers| <= 256 && Linked(e.keccak, e.rlp, headers)
                && e.execute(m, WireInput(m, s).value, PreState(e.keccak, e.rlp, headers, parent)))
  {
    hide WireInput, InputVal, GuestOutput, Linked, PreState, Activated, Contents, HeadersOf, PayloadField, InputSchemaAt, BytesOf;
    var si := WireInput(m, s).value;
    WireSchema(m, s);
    ValActivated(m, si);
    ValHeaders(m, si);
    SuccessIff(e, m, s);
  }

  /** The same for a well-formed input, over the value it encodes. */
  lemma EncodedSuccess(e: Env, m: Memory, s: ByteSpan, schema: InputSchema, shape: PayloadShape, v: Val)
    requires Encodes(m, s, schema, shape, v)
    ensures WireInput(m, s).Some?
    ensures var headers, parent := HeadersOf(v), BytesOf(PayloadField(v, 0));
            && |parent| == 32
            && (GuestOutput(e, m, s).success <==>
                && Activated(schema, v) && |headers| <= 256 && Linked(e.keccak, e.rlp, headers)
                && e.execute(m, WireInput(m, s).value, PreState(e.keccak, e.rlp, headers, parent)))
  {
    hide WireInput, InputVal, GuestOutput, Linked, PreState, Activated, HeadersOf, PayloadField, WellFormedInput, BytesOf, Ser;
    GuestCommits(e, m, s, schema, shape, v);
    SuccessOverValue(e, m, s);
  }

  /** Once activated, always activated. */
  lemma StaysActivated(c: ChainConfig, block: nat, time: nat, laterBlock: nat, laterTime: nat)
    requires ValidateChainConfig(c, block, time) && block <= laterBlock && time <= laterTime
    ensures ValidateChainConfig(c, laterBlock, laterTime)
  {
  }

  /** Parts too short for their offset tables decode as empty. */
  lemma ShortParts(m: Memory, s: ByteSpan, builder: bool)
    ensures s.len < 12 ==> WitnessAt(m, s) == Witness([], [], [])
    ensures s.len < (if builder then 20 else 12) ==>
              var r := RequestsAt(m, s, builder);
              && r.hasBuilderRequests == builder
              && r.deposits == r.withdrawals == r.consolidations == r.builderDeposits == r.builderExits == []
              && r.rawDeposits.len == r.rawWithdrawals.len == r.rawConsolidations.len == 0
              && r.rawBuilderDeposits.len == r.rawBuilderExits.len == 0
  {
  }

  /** A request too short for its fixed part decodes as the default value of its 17-field, three-list type. */
  lemma ShortRequestIsDefault(m: Memory, s: ByteSpan, shape: PayloadShape, builder: bool, b: nat)
    requires s.len < 44
    ensures RequestVal(m, RequestAt(m, s, shape, builder, b)) == DefaultVal(RequestTyp(ElectraFulu, false, 0x100_0000))
  {
    hide PayloadFieldTyp, PayloadFieldVal, Le, ItemTyp;
    var t := RequestTyp(ElectraFulu, false, 0x100_0000);
    var p := PayloadVal(m, ZERO_PAYLOAD);
    forall i | 0 <= i < 17
      ensures PayloadFieldVal(m, ZERO_PAYLOAD, i) == DefaultVal(PayloadFieldTyp(0x100_0000, i))
    {
      ZeroField(m, i);
    }
    assert DefaultVal(t.fields[0]).fields == p.fields;
    assert DefaultVal(t.fields[3]).fields == RequestsVal(ZeroRequests(false)).fields;
    assert DefaultVal(t).fields == RequestVal(m, ZERO_REQUEST).fields;
  }

  lemma ZeroField(m: Memory, i: nat)
    requires i < 17
    ensures PayloadFieldVal(m, ZERO_PAYLOAD, i) == DefaultVal(PayloadFieldTyp(0x100_0000, i))
  {
    LeOfZero(8);
  }
}
