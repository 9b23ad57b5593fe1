/** core/src/stateless.cpp: run_stateless_guest and encode_public_values. Block execution is a parameter. */
module Guest {
  import opened Bytes
  import opened Spans
  import opened Ssz
  import opened Merkle
  import opened Binding
  import opened Schema
  import opened Decode
  import opened FixedLists
  import opened RoundTrip
  import opened ConfigCodec
  import opened InputRoundTrip
  import opened HeaderChain
  import opened Htr
  import M = Merkleizer

  /** What the guest calls and the model does not define: the 64-byte hash, Keccak-256, the header
      decoder, and everything from building the block to comparing the post-state root. */
  datatype Env = Env(h: Hash, keccak: Keccak, rlp: HeaderRlp, execute: (Memory, StatelessInput, Chunk) -> bool)

  datatype Output = Output(root: Chunk, success: bool, chainConfig: seq<Byte>)

  const SCHEMA_ID_LEGACY := 0x0001
  const SCHEMA_ID_AMSTERDAM01 := 0x1501

  function SchemaOf(id: nat): Option<InputSchema> {
    if id == SCHEMA_ID_LEGACY then Some(Legacy0001)
    else if id == SCHEMA_ID_AMSTERDAM01 then Some(Amsterdam01)
    else None
  }

  /** The two-byte big-endian schema id. */
  function SchemaId(m: Memory, p: nat): nat {
    m(p) * 256 + m(p + 1)
  }

  /** kDefaultChainConfigSsz and kDefaultChainConfigSszAmsterdam, their eight-byte zeros written Zeros(8). */
  const DEFAULT_FORK_LEGACY: seq<Byte> := Zeros(8) + [16, 0, 0, 0] + [24, 0, 0, 0] + [8, 0, 0, 0, 8, 0, 0, 0]
  const DEFAULT_FORK_AMSTERDAM: seq<Byte> := [4, 0, 0, 0] + [8, 0, 0, 0, 8, 0, 0, 0]
  const DEFAULT_CONFIG_LEGACY: seq<Byte> := Zeros(8) + [12, 0, 0, 0] + DEFAULT_FORK_LEGACY
  const DEFAULT_CONFIG_AMSTERDAM: seq<Byte> := Zeros(8) + [12, 0, 0, 0] + DEFAULT_FORK_AMSTERDAM

  function DefaultConfig(schema: InputSchema): seq<Byte> {
    match schema case Legacy0001 => DEFAULT_CONFIG_LEGACY case Amsterdam01 => DEFAULT_CONFIG_AMSTERDAM
  }

  function DefaultOutput(schema: InputSchema): Output {
    Output(ZERO_CHUNK, false, DefaultConfig(schema))
  }

  predicate ValidateChainConfig(c: ChainConfig, block: nat, time: nat) {
    && (c.activationBlock.Some? || c.activationTime.Some?)
    && (c.activationBlock.Some? ==> c.activationBlock.value <= block)
    && (c.activationTime.Some? ==> c.activationTime.value <= time)
  }

  /** When the guest reports success. */
  ghost predicate Accepts(e: Env, m: Memory, si: StatelessInput) {
    var p, bs := si.request.payload, Contents(m, si.wit.headers);
    && ValidateChainConfig(si.chainConfig, p.blockNumber, p.timestamp)
    && |bs| <= 256
    && Linked(e.keccak, e.rlp, bs)
    && e.execute(m, si, PreState(e.keccak, e.rlp, bs, p.parentHash))
  }

  /** The schema whose default the failure output carries when nothing was decoded. */
  ghost function InputSchemaAt(m: Memory, s: ByteSpan): InputSchema {
    if s.len < 2 || SchemaOf(SchemaId(m, s.ptr)).None? then Amsterdam01
    else SchemaOf(SchemaId(m, s.ptr)).value
  }

  /** The decoded input, if the wire bytes have a known schema id and are accepted. */
  ghost function WireInput(m: Memory, s: ByteSpan): Option<StatelessInput> {
    if s.len < 2 || SchemaOf(SchemaId(m, s.ptr)).None? then None
    else InputAt(m, s.From(2), SchemaOf(SchemaId(m, s.ptr)).value)
  }

  /** The guest's result for every input. */
  ghost function GuestOutput(e: Env, m: Memory, s: ByteSpan): Output {
    match WireInput(m, s)
    case None => DefaultOutput(InputSchemaAt(m, s))
    case Some(si) => Output(Root(e.h, RequestVal(m, si.request)), Accepts(e, m, si), si.chainConfig.raw.Get(m))
  }

  lemma ListsFit(m: Memory, d: ByteSpan, k: Kind)
    requires d.len < U32
    ensures |ItemsAt(m, d, k)| < U32
    ensures |ByteListsAt(m, d)| < U32
    ensures forall i :: 0 <= i < |ByteListsAt(m, d)| ==> ByteListsAt(m, d)[i].len < U32
  {
  }

  lemma DecodedPayloadFits(m: Memory, s: ByteSpan, shape: PayloadShape, b: nat)
    requires 0 < b <= 0x4000_0000
    ensures PayloadFits(PayloadAt(m, s, shape, b))
  {
    hide ByteListsAt, ItemsAt, ReadU32, ReadU64, View;
    var p := s.ptr;
    var oTx, oWdl := ReadU32(m, p + 504), ReadU32(m, p + 508);
    ListsFit(m, Part(s, oTx, oWdl), KWithdrawal);
    ListsFit(m, Part(s, oWdl, if shape.Gloas? then ReadU32(m, p + 528) else s.len % U32), KWithdrawal);
  }

  lemma DecodedRequestsFit(m: Memory, s: ByteSpan, builder: bool)
    ensures RequestsFit(RequestsAt(m, s, builder))
  {
    hide ByteListsAt, ItemsAt, ReadU32, TableOffset;
    var n := if builder then 5 else 3;
    ListsFit(m, TableSlice(m, s, n, 0), KDeposit);
    ListsFit(m, TableSlice(m, s, n, 1), KWithdrawalRequest);
    ListsFit(m, TableSlice(m, s, n, 2), KConsolidation);
    ListsFit(m, if builder then TableSlice(m, s, n, 3) else EMPTY_SPAN, KBuilderDeposit);
    ListsFit(m, if builder then TableSlice(m, s, n, 4) else EMPTY_SPAN, KBuilderExit);
  }

  /** Whatever was decoded has size_t counts and lengths. */
  lemma DecodedFits(m: Memory, s: ByteSpan, shape: PayloadShape, builder: bool, b: nat)
    requires 0 < b <= 0x4000_0000
    ensures var r := RequestAt(m, s, shape, builder, b);
            PayloadFits(r.payload) && RequestsFit(r.requests) && |r.versionedHashes| < U64
  {
    hide PayloadAt, RequestsAt, ReadU32, View;
    var oPayload, oHashes, oEr := ReadU32(m, s.ptr), ReadU32(m, s.ptr + 4), ReadU32(m, s.ptr + 40);
    DecodedPayloadFits(m, Part(s, oPayload, oHashes), shape, b);
    DecodedRequestsFit(m, Part(s, oEr, s.len % U32), builder);
  }

  method RunStatelessGuest(e: Env, z: M.Merkleizer, m: Memory, data: nat, len: nat) returns (out: Output)
    requires z.Valid() && z.h == e.h
    modifies z, z.table
    ensures z.Valid() && out == GuestOutput(e, m, ByteSpan(data, len))
  {
    hide Root, RequestVal, M.Merkleizer.Valid, InputAt, Linked, PreState, View;
    if len < 2 {
      return DefaultOutput(Amsterdam01);
    }
    var schemaId := m(data) * 256 + m(data + 1);
    var input := ByteSpan(data + 2, len - 2);
    var si;
    if schemaId == SCHEMA_ID_LEGACY {
      si := DecodeStatelessInput(m, input);
      if !si.valid { return DefaultOutput(Legacy0001); }
      assert WireInput(m, ByteSpan(data, len)) == Some(si);
    } else if schemaId == SCHEMA_ID_AMSTERDAM01 {
      si := DecodeStatelessInputAmsterdam01(m, input);
      if !si.valid { return DefaultOutput(Amsterdam01); }
      assert WireInput(m, ByteSpan(data, len)) == Some(si);
    } else {
      return DefaultOutput(Amsterdam01);
    }
    WireInputFits(m, ByteSpan(data, len));
    var root := HtrNewPayloadRequest(z, m, si.request);
    var p := si.request.payload;
    out := Output(root, false, si.chainConfig.raw.Get(m));
    if !ValidateChainConfig(si.chainConfig, p.blockNumber, p.timestamp) { return; }
    if |si.wit.headers| > 256 { return; }
    var hashes := HeaderHashes(e.keccak, m, si.wit.headers);
    var ok := CheckChain(e.rlp, m, si.wit.headers, hashes, e.keccak);
    if !ok { return; }
    var preState := SelectPreState(e.rlp, m, si.wit.headers, hashes, p.parentHash, e.keccak);
    out := out.(success := e.execute(m, si, preState));
  }

  lemma WireInputFits(m: Memory, s: ByteSpan)
    requires WireInput(m, s).Some?
    ensures var r := WireInput(m, s).value.request;
            PayloadFits(r.payload) && RequestsFit(r.requests) && |r.versionedHashes| < U64
  {
    hide RequestAt, WitnessAt, ConfigAt, KeysAt, TableSlice, PayloadFits, RequestsFit, TableOffset, ShapeOf;
    var schema := InputSchemaAt(m, s);
    var npr := TableSlice(m, s.From(2), 4, 0);
    var shape := ShapeOf(schema, ConfigAt(m, TableSlice(m, s.From(2), 4, 2), schema));
    DecodedFits(m, npr, shape, schema.Amsterdam01?, BalLimit(schema));
  }

  /** The public values: the SSZ of StatelessValidationResult. */
  function PublicValues(out: Output): seq<Byte> {
    out.root + [if out.success then 1 else 0] + Le(37, 4) + out.chainConfig
  }

  method EncodePublicValues(out: Output, buf: array<Byte>, cap: nat) returns (n: nat)
    requires cap <= buf.Length
    modifies buf
    ensures 37 + |out.chainConfig| > cap ==> n == 0 && buf[..] == old(buf[..])
    ensures 37 + |out.chainConfig| <= cap ==> n == |PublicValues(out)| && buf[..] == PublicValues(out) + old(buf[n..])
  {
    hide Le;
    var total := 37 + |out.chainConfig|;
    if total > cap { return 0; }
    ghost var was := buf[..];
    Copy(buf, 0, out.root);
    assert buf[..] == out.root + was[32..];
    ghost var flag := [if out.success then 1 else 0];
    Overwrite(out.root, was, flag);
    buf[32] := if out.success then 1 else 0;
    assert buf[..] == out.root + flag + was[33..];
    Overwrite(out.root + flag, was, Le(37, 4));
    Copy(buf, 33, Le(37, 4));
    Overwrite(out.root + flag + Le(37, 4), was, out.chainConfig);
    Copy(buf, 37, out.chainConfig);
    n := total;
  }

  /** Writing s behind what is already written. */
  lemma Overwrite(done: seq<Byte>, was: seq<Byte>, s: seq<Byte>)
    requires |done| + |s| <= |was|
    ensures var b := done + was[|done|..];
            b[..|done|] + s + b[|done| + |s|..] == done + s + was[|done| + |s|..]
  {
  }

  method Copy(buf: array<Byte>, at: nat, src: seq<Byte>)
    requires at + |src| <= buf.Length
    modifies buf
    ensures buf[..] == old(buf[..at]) + src + old(buf[at + |src|..])
  {
    var i := 0;
    while i < |src|
      invariant i <= |src| && buf[at..at + i] == src[..i]
      invariant buf[..at] == old(buf[..at]) && buf[at + i..] == old(buf[at + i..])
    {
      assert old(buf[at + i..])[1..] == old(buf[at + i + 1..]);
      ghost var rest := buf[at + i..];
      buf[at + i] := src[i];
      i := i + 1;
      assert buf[at + i..] == rest[1..];
    }
    assert buf[..] == buf[..at] + buf[at..at + i] + buf[at + i..];
  }

  /** main: the public values of any input, through the 256-byte buffer. */
  method GuestMain(e: Env, z: M.Merkleizer, m: Memory, data: nat, len: nat) returns (pv: seq<Byte>)
    requires z.Valid() && z.h == e.h
    modifies z, z.table
    ensures z.Valid()
    ensures pv == PublicValues(GuestOutput(e, m, ByteSpan(data, len))) && 61 <= |pv| <= 113
  {
    hide GuestOutput, PublicValues;
    var out := RunStatelessGuest(e, z, m, data, len);
    OutputConfigLength(e, m, ByteSpan(data, len));
    var buf := new Byte[256](_ => 0);
    var n := EncodePublicValues(out, buf, 256);
    pv := buf[..n];
    PublicValuesParse(out);
  }

  lemma ConfigLength(m: Memory, s: ByteSpan, schema: InputSchema)
    requires ConfigAt(m, s, schema).valid
    ensures ConfigAt(m, s, schema).raw == s && 24 <= s.len <= 76
  {
    hide ReadU64, OptU64, DecodeBlob;
  }

  lemma OutputConfigLength(e: Env, m: Memory, s: ByteSpan)
    ensures 24 <= |GuestOutput(e, m, s).chainConfig| <= 76
  {
    hide Root, Accepts, RequestAt, WitnessAt, ConfigAt, KeysAt, TableSlice, TableOffset;
    if WireInput(m, s).Some? {
      ConfigLength(m, TableSlice(m, s.From(2), 4, 2), InputSchemaAt(m, s));
    }
  }

  lemma LeSmall(n: nat)
    requires n < 256
    ensures Le(n, 4) == [n, 0, 0, 0]
  {
    assert Le(n / 256, 3) == [0, 0, 0] by {
      LeOfZero(3);
    }
  }

  const NO_ACTIVATION := ActVal((None, None))

  lemma NoActivation()
    ensures !IsFixed(NO_ACTIVATION) && Ser(NO_ACTIVATION) == [8, 0, 0, 0, 8, 0, 0, 0]
    ensures Ser(List([], 1)) == []
  {
    hide Le, SerParts;
    SerOne(Vec([]));
    SerVar2(List([], 1), List([], 1));
    ActValNotFixed((None, None));
    LeSmall(8);
    assert NO_ACTIVATION == Container([List([], 1), List([], 1)]);
  }

  lemma DefaultForkLegacy()
    ensures var f := Container([Uint(0), NO_ACTIVATION, List([], 1)]);
            !IsFixed(f) && Ser(f) == DEFAULT_FORK_LEGACY
  {
    hide Le, SerParts;
    NoActivation();
    LeOfZero(8);
    LeSmall(16);
    LeSmall(24);
    SerFixVar2(Le(0, 8), NO_ACTIVATION, List([], 1));
    assert !IsFixed(Container([Uint(0), NO_ACTIVATION, List([], 1)]).fields[1]);
    assert Ser(NO_ACTIVATION) + Ser(List([], 1)) == Ser(NO_ACTIVATION);
  }

  lemma DefaultForkAmsterdam()
    ensures var f := Container([NO_ACTIVATION]);
            !IsFixed(f) && Ser(f) == DEFAULT_FORK_AMSTERDAM
  {
    hide Le, SerParts;
    NoActivation();
    LeSmall(4);
    SerVar1(NO_ACTIVATION);
    assert !IsFixed(Container([NO_ACTIVATION]).fields[0]);
  }

  lemma DefaultConfigVal(schema: InputSchema)
    ensures DefaultVal(ChainConfigTyp(schema)) == ChainConfigVal(schema, InvalidConfig(EMPTY_SPAN))
  {
    LeOfZero(8);
    var f := ChainConfigTyp(schema).fields[1];
    assert DefaultVal(ACTIVATION_TYP) == NO_ACTIVATION by {
      assert DefaultVal(ACTIVATION_TYP).fields == [List([], 1), List([], 1)];
    }
    assert DefaultVal(f).fields == ChainConfigVal(schema, InvalidConfig(EMPTY_SPAN)).fields[1].fields;
    assert DefaultVal(ChainConfigTyp(schema)).fields == [Vec(Zeros(8)), DefaultVal(f)];
  }

  /** The default configs are the encodings of the default value of their type. */
  lemma DefaultConfigCanonical(schema: InputSchema)
    ensures DefaultConfig(schema) == Ser(DefaultVal(ChainConfigTyp(schema)))
  {
    hide Le, SerParts;
    DefaultConfigVal(schema);
    DefaultForkLegacy();
    DefaultForkAmsterdam();
    LeOfZero(8);
    LeSmall(12);
    var f := match schema
      case Legacy0001 => Container([Uint(0), NO_ACTIVATION, List([], 1)])
      case Amsterdam01 => Container([NO_ACTIVATION]);
    SerFixVar(Le(0, 8), f);
    assert ChainConfigVal(schema, InvalidConfig(EMPTY_SPAN)) == Container([Uint(0), f]);
  }

  /** The type of StatelessValidationResult. */
  function ResultTyp(schema: InputSchema): Typ {
    TContainer([TVec(32), TVec(1), ChainConfigTyp(schema)])
  }

  lemma ResultHead(root: Chunk, flag: Byte, cc: Val)
    requires !IsFixed(cc)
    ensures var vs := [Vec(root), Vec([flag]), cc];
            HeadBytes(vs, 3) == root + [flag] + Le(37, 4) && TailBytes(vs, 3) == Ser(cc)
  {
    var vs := [Vec(root), Vec([flag]), cc];
    assert IsFixed(vs[0]) && Ser(vs[0]) == root && IsFixed(vs[1]) && Ser(vs[1]) == [flag];
    hide HeadLen, HeadBytes, TailBytes, IsFixed, Ser, Le;
    StartOf(vs);
    StepFixed(vs, 0);
    StepFixed(vs, 1);
    StepVar(vs, 2);
    assert Offset(vs, 2) == 37;
    assert HeadBytes(vs, 1) == root && TailBytes(vs, 2) == [];
  }

  lemma SerResult(root: Chunk, flag: Byte, cc: Val)
    requires !IsFixed(cc)
    ensures Ser(Container([Vec(root), Vec([flag]), cc])) == root + [flag] + Le(37, 4) + Ser(cc)
  {
    hide HeadBytes, TailBytes, IsFixed, Le;
    ResultHead(root, flag, cc);
  }

  /** The config value behind the output: the one decoded, or the default. */
  ghost function OutputConfig(m: Memory, s: ByteSpan): Val {
    var schema := InputSchemaAt(m, s);
    match WireInput(m, s)
    case None => DefaultVal(ChainConfigTyp(schema))
    case Some(si) => ChainConfigVal(schema, si.chainConfig)
  }

  /** b is the slice of the input between its third offset and its fourth, and lies inside it. */
  ghost predicate Echoed(m: Memory, s: ByteSpan, b: seq<Byte>) {
    2 <= s.len &&
    var o2, o3 := ReadU32(m, s.ptr + 2 + 8), ReadU32(m, s.ptr + 2 + 12);
    16 <= o2 <= o3 <= s.len - 2 && b == View(m, s.ptr + 2 + o2, o3 - o2)
  }

  lemma EchoIsSlice(e: Env, m: Memory, s: ByteSpan)
    requires WireInput(m, s).Some?
    ensures Echoed(m, s, GuestOutput(e, m, s).chainConfig)
  {
    hide Root, Accepts, RequestAt, WitnessAt, ConfigAt, KeysAt, ReadU32, View;
    var d := TableSlice(m, s.From(2), 4, 2);
    ConfigLength(m, d, InputSchemaAt(m, s));
  }

  /** The public values parse back: root, flag, the offset 37 and the config, each where SSZ has it. */
  lemma PublicValuesParse(out: Output)
    ensures var pv := PublicValues(out);
            && |pv| == 37 + |out.chainConfig| && pv[..32] == out.root
            && pv[32] == (if out.success then 1 else 0)
            && FromLe(pv[33..37]) == 37 && pv[37..] == out.chainConfig
  {
    hide Le, FromLe;
    Pow256Values();
    FromLeOfLe(37, 4);
    assert PublicValues(out)[33..37] == Le(37, 4);
  }

  /** Different results have different public values. */
  lemma PublicValuesInjective(a: Output, b: Output)
    requires PublicValues(a) == PublicValues(b)
    ensures a == b
  {
    hide PublicValues, FromLe;
    PublicValuesParse(a);
    PublicValuesParse(b);
  }

  /** For every input at all, the public values are the SSZ serialization of a StatelessValidationResult of
      the input's schema: the root, the flag, and a config that is the default or the decoded one, byte for byte
      the slice of the input it was decoded from. */
  lemma OutputIsCanonical(e: Env, m: Memory, s: ByteSpan)
    ensures var out, cc := GuestOutput(e, m, s), OutputConfig(m, s);
            var v := Container([Vec(out.root), Vec([if out.success then 1 else 0]), cc]);
            && PublicValues(out) == Ser(v) && HasType(ResultTyp(InputSchemaAt(m, s)), v)
            && out.chainConfig == Ser(cc)
            && (WireInput(m, s).Some? ==> Echoed(m, s, out.chainConfig))
  {
    hide Root, Accepts, RequestAt, WitnessAt, ConfigAt, KeysAt, TableSlice, TableOffset, ChainConfigVal, ChainConfigTyp, Ser, Le, DefaultConfig, Echoed;
    var schema, out, cc := InputSchemaAt(m, s), GuestOutput(e, m, s), OutputConfig(m, s);
    match WireInput(m, s) {
      case None =>
        DefaultConfigCanonical(schema);
        DefaultTyped(ChainConfigTyp(schema));
      case Some(si) =>
        var d := TableSlice(m, s.From(2), 4, 2);
        EchoIsSlice(e, m, s);
        ConfigReserializes(m, d, schema);
        ConfigLength(m, d, schema);
        ConfigTyped(schema, ConfigAt(m, d, schema));
    }
    NotFixedConfig(schema, cc);
    SerResult(out.root, if out.success then 1 else 0, cc);
  }

  /** An input that is not decoded gets the serialization of StatelessValidationResult's default value. */
  lemma RejectedGetsDefault(e: Env, m: Memory, s: ByteSpan)
    requires WireInput(m, s).None?
    ensures PublicValues(GuestOutput(e, m, s)) == Ser(DefaultVal(ResultTyp(InputSchemaAt(m, s))))
  {
    hide ChainConfigTyp, Ser, Le, DefaultConfig;
    var schema := InputSchemaAt(m, s);
    DefaultConfigCanonical(schema);
    DefaultTyped(ChainConfigTyp(schema));
    NotFixedConfig(schema, DefaultVal(ChainConfigTyp(schema)));
    SerResult(ZERO_CHUNK, 0, DefaultVal(ChainConfigTyp(schema)));
    assert Zeros(1) == [0];
    assert DefaultVal(ResultTyp(schema)).fields ==
           [DefaultVal(TVec(32)), DefaultVal(TVec(1)), DefaultVal(ChainConfigTyp(schema))];
  }

  /** Byte for byte: root and flag zero, offset 37, and the default config of the schema that the first two bytes
      name, which is the 0x1501 one unless they are 0, 1. */
  lemma RejectedBytes(e: Env, m: Memory, s: ByteSpan)
    requires WireInput(m, s).None?
    ensures PublicValues(GuestOutput(e, m, s)) == Zeros(33) + [37, 0, 0, 0] +
            if s.len >= 2 && m(s.ptr) == 0 && m(s.ptr + 1) == 1 then
              Zeros(8) + [12, 0, 0, 0] + Zeros(8) + [16, 0, 0, 0, 24, 0, 0, 0, 8, 0, 0, 0, 8, 0, 0, 0]
            else
              Zeros(8) + [12, 0, 0, 0, 4, 0, 0, 0, 8, 0, 0, 0, 8, 0, 0, 0]
  {
    hide Le, WireInput;
    LeSmall(37);
    assert ZERO_CHUNK + [0] == Zeros(33);
  }

  /** An input that names no schema is rejected. */
  lemma NoSchemaRejected(m: Memory, s: ByteSpan)
    requires s.len < 2 || m(s.ptr + 1) != 1 || (m(s.ptr) != 0x00 && m(s.ptr) != 0x15)
    ensures WireInput(m, s).None?
  {
    hide InputAt;
  }

  /** The wire encoding of a well-formed input: schema id, then its serialization. */
  ghost predicate Encodes(m: Memory, s: ByteSpan, schema: InputSchema, shape: PayloadShape, v: Val) {
    && shape != Unsupported && WellFormedInput(schema, shape, v)
    && 2 <= s.len < U32 && SchemaId(m, s.ptr) == (if schema.Legacy0001? then SCHEMA_ID_LEGACY else SCHEMA_ID_AMSTERDAM01)
    && s.From(2).Get(m) == Ser(v)
  }

  /** Every well-formed input of a supported shape has a wire encoding. */
  lemma WireEncoding(schema: InputSchema, shape: PayloadShape, v: Val) returns (m: Memory, s: ByteSpan)
    requires WellFormedInput(schema, shape, v) && shape != Unsupported && |Ser(v)| + 2 < U32
    ensures Encodes(m, s, schema, shape, v) && s == ByteSpan(0, |Ser(v)| + 2)
    ensures View(m, 0, 2) == if schema.Legacy0001? then [0x00, 0x01] else [0x15, 0x01]
  {
    hide Ser, WellFormedInput;
    var wire := (if schema.Legacy0001? then [0x00, 0x01] else [0x15, 0x01]) + Ser(v);
    m := (p: nat) => if p < |wire| then wire[p] else 0;
    s := ByteSpan(0, |wire|);
    assert s.From(2).Get(m) == Ser(v);
  }

  /** What the guest commits to for a well-formed input is the root of its request, as SSZ defines it,
      and it echoes the serialization of its chain config. */
  lemma GuestCommits(e: Env, m: Memory, s: ByteSpan, schema: InputSchema, shape: PayloadShape, v: Val)
    requires Encodes(m, s, schema, shape, v)
    ensures GuestOutput(e, m, s).root == Root(e.h, v.fields[0])
    ensures GuestOutput(e, m, s).chainConfig == Ser(v.fields[2])
    ensures WireInput(m, s).Some? && InputVal(m, WireInput(m, s).value) == v
  {
    hide Root, Accepts, RequestAt, WitnessAt, ConfigAt, KeysAt, TableSlice, TableOffset, ChainConfigVal, ChainConfigTyp,
         Ser, RequestVal, WitnessVal, PublicKeyVals, InputAt, WellFormedInput, RequestTyp, ShapeSelected;
    InputDecodes(m, s.From(2), schema, shape, v);
    var d := TableSlice(m, s.From(2), 4, 2);
    assert ConfigAt(m, d, schema).valid by { WellFormedConfig(m, s.From(2), schema, shape, v); }
    ConfigReserializes(m, d, schema);
    ConfigLength(m, d, schema);
  }

  lemma WellFormedConfig(m: Memory, s: ByteSpan, schema: InputSchema, shape: PayloadShape, v: Val)
    requires WellFormedInput(schema, shape, v) && s.Get(m) == Ser(v) && s.len < U32
    ensures ConfigAt(m, TableSlice(m, s, 4, 2), schema).valid
  {
    hide ConfigAt, TableSlice, TableOffset, Ser, ChainConfigTyp, RequestTyp;
    InputParts(m, s, schema, shape, v, 2);
    SliceBound(m, s);
    ConfigRoundTrip(m, TableSlice(m, s, 4, 2), schema, v.fields[2]);
  }
}
