/** Decoding the serialization of a whole StatelessInput returns it, under either schema. */
module InputRoundTrip {
  import opened Bytes
  import opened Spans
  import opened Ssz
  import opened Schema
  import opened Decode
  import opened FixedLists
  import opened ByteLists
  import opened RoundTrip
  import opened ConfigCodec

  lemma HashesRoundTrip(m: Memory, d: ByteSpan, v: Val)
    requires HasType(TList(TVec(32), MAX_BLOB_COMMITMENTS_PER_BLOCK), v) && d.Get(m) == Ser(v)
    ensures v == List(ChunkVals(ChunksAt(m, d)), MAX_BLOB_COMMITMENTS_PER_BLOCK)
  {
    hide View;
    VecListRoundTrip(m, d, 32, v.items);
    assert ChunkVals(ChunksAt(m, d)) == ByteVectorVals(m, Pieces(d, 32));
  }

  lemma RequestLayout(shape: PayloadShape, builder: bool, b: nat, v: Val)
    requires HasType(RequestTyp(shape, builder, b), v)
    ensures !IsFixed(v)
    ensures var vs := v.fields;
            && |vs| == 4 && !IsFixed(vs[0]) && !IsFixed(vs[1]) && IsFixed(vs[2]) && !IsFixed(vs[3])
            && HasType(PayloadTyp(shape, b), vs[0]) && HasType(TList(TVec(32), MAX_BLOB_COMMITMENTS_PER_BLOCK), vs[1])
            && vs[2].Vec? && |Ser(vs[2])| == 32 && HasType(RequestsTyp(builder), vs[3])
            && HeadLen(vs, 0) == 0 && HeadLen(vs, 1) == 4 && HeadLen(vs, 2) == 8 && HeadLen(vs, 3) == 40
            && Offset(vs, 0) == 44 && Offset(vs, 4) == |SerParts(vs)|
  {
    hide PayloadTyp, RequestsTyp, View, Le;
    var ts, vs := RequestTyp(shape, builder, b).fields, v.fields;
    assert HasType(ts[0], vs[0]) && HasType(ts[1], vs[1]) && HasType(ts[2], vs[2]) && HasType(ts[3], vs[3]);
    NotFixedPayload(shape, b, vs[0]);
    NotFixedRequests(builder, vs[3]);
    RequestHeads(vs);
  }

  lemma RequestHeads(vs: seq<Val>)
    requires |vs| == 4 && !IsFixed(vs[0]) && !IsFixed(vs[1]) && IsFixed(vs[2]) && !IsFixed(vs[3]) && |Ser(vs[2])| == 32
    ensures HeadLen(vs, 0) == 0 && HeadLen(vs, 1) == 4 && HeadLen(vs, 2) == 8 && HeadLen(vs, 3) == 40
    ensures Offset(vs, 0) == 44 && Offset(vs, 4) == |SerParts(vs)|
  {
    hide HeadLen, HeadBytes, TailBytes, IsFixed, Ser, Le;
    StartOf(vs);
    StepVar(vs, 0);
    StepVar(vs, 1);
    StepFixed(vs, 2);
    StepVar(vs, 3);
    SerPartsLen(vs);
  }

  lemma NotFixedPayload(shape: PayloadShape, b: nat, v: Val)
    requires HasType(PayloadTyp(shape, b), v)
    ensures !IsFixed(v)
  {
    assert HasType(PayloadTyps(shape, b)[10], v.fields[10]);
  }

  lemma NotFixedRequests(builder: bool, v: Val)
    requires HasType(RequestsTyp(builder), v)
    ensures !IsFixed(v)
  {
    assert HasType(RequestsTyp(builder).fields[0], v.fields[0]);
  }

  /** The four fields of a NewPayloadRequest, each in its place. */
  lemma RequestParts(m: Memory, s: ByteSpan, shape: PayloadShape, builder: bool, b: nat, v: Val)
    requires HasType(RequestTyp(shape, builder, b), v) && s.Get(m) == Ser(v) && s.len < U32
    ensures 44 <= s.len
    ensures var o1, o3 := ReadU32(m, s.ptr + 4), ReadU32(m, s.ptr + 40);
            && Part(s, ReadU32(m, s.ptr), o1).Get(m) == Ser(v.fields[0])
            && Part(s, o1, o3).Get(m) == Ser(v.fields[1])
            && v.fields[2] == Vec(View(m, s.ptr + 8, 32))
            && Part(s, o3, s.len).Get(m) == Ser(v.fields[3])
  {
    hide View, ReadU32, Ser, SerParts, HeadLen, Offset, IsFixed, RequestTyp;
    RequestSer(shape, builder, b, v);
    var vs := v.fields;
    RequestLayout(shape, builder, b, v);
    VarAt(m, s, vs, 0);
    VarAt(m, s, vs, 1);
    FixedAt(m, s, vs, 2);
    assert vs[2].bytes == Ser(vs[2]) by { VecSer(vs[2]); }
    OffsetOverFixed(vs, 2);
    VarAt(m, s, vs, 3);
  }

  lemma VecSer(v: Val)
    requires v.Vec?
    ensures Ser(v) == v.bytes
  {
  }

  lemma RequestSer(shape: PayloadShape, builder: bool, b: nat, v: Val)
    requires HasType(RequestTyp(shape, builder, b), v)
    ensures v.Container? && Ser(v) == SerParts(v.fields)
  {
  }

  lemma RequestRoundTrip(m: Memory, s: ByteSpan, shape: PayloadShape, builder: bool, b: nat, v: Val)
    requires HasType(RequestTyp(shape, builder, b), v) && s.Get(m) == Ser(v) && s.len < U32
    ensures var r := RequestAt(m, s, shape, builder, b);
            RequestVal(m, r) == v && r.payload.shape == shape
  {
    hide View, ReadU32, Ser, PayloadTyp, RequestsTyp, PayloadVal, RequestsVal, PayloadAt, RequestsAt, ChunksAt, ChunkVals,
         HeadLen, Offset, SerParts;
    var vs := v.fields;
    RequestLayout(shape, builder, b, v);
    RequestParts(m, s, shape, builder, b, v);
    var o1, o3 := ReadU32(m, s.ptr + 4), ReadU32(m, s.ptr + 40);
    PayloadRoundTrip(m, Part(s, ReadU32(m, s.ptr), o1), shape, b, vs[0]);
    HashesRoundTrip(m, Part(s, o1, o3), vs[1]);
    RequestsRoundTrip(m, Part(s, o3, s.len), builder, vs[3]);
    assert vs == [vs[0], vs[1], vs[2], vs[3]];
  }

  lemma InputParts(m: Memory, s: ByteSpan, schema: InputSchema, shape: PayloadShape, v: Val, i: nat)
    requires HasType(InputTyp(schema, shape), v) && s.Get(m) == Ser(v) && s.len < U32 && i < 4
    ensures |v.fields| == 4 && TableSlice(m, s, 4, i).Get(m) == Ser(v.fields[i])
    ensures TableOffset(m, s, 4, 0) == 16 <= s.len && TableOffset(m, s, 4, i) <= TableOffset(m, s, 4, i + 1)
    ensures HasType(InputTyp(schema, shape).fields[i], v.fields[i])
  {
    hide View, ReadU32, SerParts, RequestTyp, ChainConfigTyp, PublicKeysTyp;
    var ts, vs := InputTyp(schema, shape).fields, v.fields;
    assert HasType(ts[0], vs[0]) && HasType(ts[1], vs[1]) && HasType(ts[2], vs[2]) && HasType(ts[3], vs[3]);
    RequestLayout(shape, schema.Amsterdam01?, BalLimit(schema), vs[0]);
    NotFixedWitness(vs[1]);
    NotFixedConfig(schema, vs[2]);
    NotFixedKeys(schema, vs[3]);
    SliceHolds(m, s, vs, i);
  }

  lemma NotFixedWitness(v: Val)
    requires HasType(WITNESS_TYP, v)
    ensures !IsFixed(v)
  {
    assert HasType(WITNESS_TYP.fields[0], v.fields[0]);
  }

  lemma NotFixedConfig(schema: InputSchema, v: Val)
    requires HasType(ChainConfigTyp(schema), v)
    ensures !IsFixed(v)
  {
    ForkNotFixed(schema, v);
  }

  lemma NotFixedKeys(schema: InputSchema, v: Val)
    requires HasType(PublicKeysTyp(schema), v)
    ensures !IsFixed(v)
  {
  }

  lemma KeysRoundTrip(m: Memory, d: ByteSpan, schema: InputSchema, v: Val)
    requires HasType(PublicKeysTyp(schema), v) && d.Get(m) == Ser(v) && d.len < U32
    ensures KeysAt(m, d, schema).Some?
    ensures v == List(PublicKeyVals(m, schema, KeysAt(m, d, schema).value), MAX_PUBLIC_KEYS)
  {
    match schema
    case Legacy0001 => ByteListsRoundTrip(m, d, v.items, MAX_BYTES_PER_PUBLIC_KEY);
    case Amsterdam01 => VecListRoundTrip(m, d, MAX_BYTES_PER_PUBLIC_KEY, v.items);
  }

  /** The payload shape that an encoded chain config selects: by its fork, or by the schema. */
  ghost function ShapeSelected(schema: InputSchema, cc: Val): PayloadShape
    requires HasType(ChainConfigTyp(schema), cc)
  {
    match schema
    case Legacy0001 =>
      var fork := cc.fields[1];
      assert HasType(ChainConfigTyp(schema).fields[1], fork);
      assert HasType(FORK_LEGACY_TYPS[0], fork.fields[0]);
      LeOfFromLe(fork.fields[0].bytes);
      Pow256Values();
      PayloadShapeForFork(FromLe(fork.fields[0].bytes))
    case Amsterdam01 => Gloas
  }

  lemma ShapeAgrees(schema: InputSchema, c: ChainConfig)
    requires HasType(ChainConfigTyp(schema), ChainConfigVal(schema, c))
    ensures ShapeSelected(schema, ChainConfigVal(schema, c)) == ShapeOf(schema, c)
  {
    Pow256Values();
    FromLeOfLe(c.fork, 8);
  }

  /** The payload shape is always that of the decoded fork, which the Amsterdam config does not carry. */
  lemma ForkOfConfig(m: Memory, d: ByteSpan, schema: InputSchema)
    requires ConfigAt(m, d, schema).valid
    ensures var c := ConfigAt(m, d, schema);
            && ShapeOf(schema, c) == PayloadShapeForFork(c.fork)
            && (schema.Amsterdam01? ==> c.fork == 24 && c.blobSchedule == None)
            && (schema.Legacy0001? ==> c.fork == FromLe(View(m, d.ptr + 12, 8)))
  {
    hide ReadU32, DecodeActivation, DecodeBlob, View;
  }

  /** Which payload a fork has, by its number. */
  lemma ShapeOfFork(f: u64)
    ensures PayloadShapeForFork(f) == ElectraFulu <==> f in {17, 18, 19, 20}
    ensures PayloadShapeForFork(f) == Gloas <==> f == 24
  {
  }

  /** A well-formed input value: of the schema's type, with the payload shape its chain config selects. */
  ghost predicate WellFormedInput(schema: InputSchema, shape: PayloadShape, v: Val)
    ensures WellFormedInput(schema, shape, v) ==> v.Container? && |v.fields| == 4
  {
    HasType(InputTyp(schema, shape), v) &&
    var cc := v.fields[2];
    HasType(ChainConfigTyp(schema), cc) && ShapeSelected(schema, cc) == shape
  }

  /** The whole-input round trip: decoding the serialization of a well-formed value returns exactly that
      value, and it is accepted exactly when its fork has a payload shape this guest supports. */
  lemma InputDecodes(m: Memory, s: ByteSpan, schema: InputSchema, shape: PayloadShape, v: Val)
    requires WellFormedInput(schema, shape, v) && s.Get(m) == Ser(v) && s.len < U32
    ensures InputAt(m, s, schema).Some? <==> shape != Unsupported
    ensures shape != Unsupported ==>
              var si := InputAt(m, s, schema).value;
              InputVal(m, si) == v && si.schema == schema && si.request.payload.shape == shape
              && si.chainConfig == ConfigAt(m, TableSlice(m, s, 4, 2), schema)
              && PayloadShapeForFork(si.chainConfig.fork) == shape
              && (schema.Amsterdam01? ==> si.chainConfig.fork == 24 && si.chainConfig.blobSchedule == None)
  {
    hide View, ReadU32, Ser, RequestTyp, ChainConfigTyp, PublicKeysTyp, RequestVal, WitnessVal, ChainConfigVal,
         PublicKeyVals, RequestAt, WitnessAt, ConfigAt, KeysAt, TableSlice, TableOffset, ShapeSelected, ShapeOf;
    var vs := v.fields;
    InputParts(m, s, schema, shape, v, 0);
    InputParts(m, s, schema, shape, v, 1);
    InputParts(m, s, schema, shape, v, 2);
    InputParts(m, s, schema, shape, v, 3);
    SliceBound(m, s);
    ConfigRoundTrip(m, TableSlice(m, s, 4, 2), schema, vs[2]);
    ShapeAgrees(schema, ConfigAt(m, TableSlice(m, s, 4, 2), schema));
    ForkOfConfig(m, TableSlice(m, s, 4, 2), schema);
    if shape != Unsupported {
      RequestRoundTrip(m, TableSlice(m, s, 4, 0), shape, schema.Amsterdam01?, BalLimit(schema), vs[0]);
      WitnessRoundTrip(m, TableSlice(m, s, 4, 1), vs[1]);
      KeysRoundTrip(m, TableSlice(m, s, 4, 3), schema, vs[3]);
      assert vs == [vs[0], vs[1], vs[2], vs[3]];
    }
  }

  lemma SliceBound(m: Memory, s: ByteSpan)
    ensures forall i: nat :: TableSlice(m, s, 4, i).len < U32
  {
  }

  /** No two well-formed inputs of a schema share a serialization. */
  lemma InputSerInjective(schema: InputSchema, a: PayloadShape, v: Val, b: PayloadShape, w: Val)
    requires WellFormedInput(schema, a, v) && WellFormedInput(schema, b, w) && a != Unsupported && b != Unsupported
    requires Ser(v) == Ser(w) && |Ser(v)| < U32
    ensures v == w
  {
    hide Ser, InputAt, InputVal, WellFormedInput;
    var bytes := Ser(v);
    var m := (p: nat) => if p < |bytes| then bytes[p] else 0;
    var s := ByteSpan(0, |bytes|);
    assert s.Get(m) == bytes;
    InputDecodes(m, s, schema, a, v);
    InputDecodes(m, s, schema, b, w);
  }

  /** The fork of an encoded 0x0001 input. */
  ghost predicate HasFork(v: Val, f: u64) {
    && v.Container? && |v.fields| > 2 && v.fields[2].Container? && |v.fields[2].fields| > 1
    && v.fields[2].fields[1].Container? && v.fields[2].fields[1].fields != []
    && v.fields[2].fields[1].fields[0] == Vec(Le(f, 8))
  }

  /** The number of fields of its payload. */
  ghost predicate HasPayloadFields(v: Val, n: nat) {
    && v.Container? && v.fields != [] && v.fields[0].Container? && v.fields[0].fields != []
    && v.fields[0].fields[0].Container? && |v.fields[0].fields[0].fields| == n
  }

  lemma PayloadFieldsOf(shape: PayloadShape, v: Val)
    requires HasType(InputTyp(Legacy0001, shape), v)
    ensures HasPayloadFields(v, 17) <==> shape != Gloas
    ensures HasPayloadFields(v, 19) <==> shape == Gloas
  {
    hide ChainConfigTyp, PublicKeysTyp, RequestsTyp, PayloadFieldTyp;
    var r := InputTyp(Legacy0001, shape).fields[0];
    assert HasType(r, v.fields[0]);
    assert HasType(r.fields[0], v.fields[0].fields[0]);
  }

  /** What the forks mean for an encoded 0x0001 input: 17 to 20 go with a payload of 17 fields, 24 goes with one of
      19, and no other fork is accepted. */
  lemma ForkDecides(m: Memory, s: ByteSpan, shape: PayloadShape, v: Val, f: u64)
    requires HasType(InputTyp(Legacy0001, shape), v) && HasFork(v, f) && s.Get(m) == Ser(v) && s.len < U32
    ensures f in {17, 18, 19, 20} && HasPayloadFields(v, 17) ==>
              InputAt(m, s, Legacy0001).Some? && InputVal(m, InputAt(m, s, Legacy0001).value) == v
    ensures f == 24 && HasPayloadFields(v, 19) ==>
              InputAt(m, s, Legacy0001).Some? && InputVal(m, InputAt(m, s, Legacy0001).value) == v
    ensures f !in {17, 18, 19, 20, 24} ==> InputAt(m, s, Legacy0001).None?
    ensures HasPayloadFields(v, 17) || HasPayloadFields(v, 19)
  {
    hide Ser, InputAt, InputVal, RequestTyp, HasType, ShapeSelected, HasPayloadFields;
    PayloadFieldsOf(shape, v);
    ShapeOfFork(f);
    ForkSelects(shape, v, f);
    if shape != Gloas {
      SameFields(shape);
      if f in {17, 18, 19, 20} { InputDecodes(m, s, Legacy0001, ElectraFulu, v); }
    } else if f == 24 {
      InputDecodes(m, s, Legacy0001, Gloas, v);
    }
    if f !in {17, 18, 19, 20, 24} { ForkRejected(m, s, shape, v, f); }
  }

  /** Every shape but Gloas has the 17-field payload. */
  lemma SameFields(shape: PayloadShape)
    requires shape != Gloas
    ensures InputTyp(Legacy0001, shape) == InputTyp(Legacy0001, ElectraFulu)
  {
    assert PayloadTyp(shape, MAX_BLOCK_ACCESS_LIST_BYTES) == PayloadTyp(ElectraFulu, MAX_BLOCK_ACCESS_LIST_BYTES);
  }

  lemma ForkSelects(shape: PayloadShape, v: Val, f: u64)
    requires HasType(InputTyp(Legacy0001, shape), v) && HasFork(v, f)
    ensures HasType(ChainConfigTyp(Legacy0001), v.fields[2])
    ensures ShapeSelected(Legacy0001, v.fields[2]) == PayloadShapeForFork(f)
  {
    hide RequestTyp, ChainConfigTyp, PublicKeysTyp;
    assert HasType(InputTyp(Legacy0001, shape).fields[2], v.fields[2]);
    Pow256Values();
    FromLeOfLe(f, 8);
  }

  lemma ForkRejected(m: Memory, s: ByteSpan, shape: PayloadShape, v: Val, f: u64)
    requires HasType(InputTyp(Legacy0001, shape), v) && HasFork(v, f) && s.Get(m) == Ser(v) && s.len < U32
    requires PayloadShapeForFork(f) == Unsupported
    ensures InputAt(m, s, Legacy0001).None?
  {
    hide View, ReadU32, Ser, RequestTyp, PublicKeysTyp, ChainConfigTyp, ConfigAt, TableSlice, TableOffset, ShapeSelected,
         RequestAt, WitnessAt, KeysAt, ChainConfigVal, ShapeOf, HasFork;
    ForkSelects(shape, v, f);
    InputParts(m, s, Legacy0001, shape, v, 2);
    SliceBound(m, s);
    ConfigRoundTrip(m, TableSlice(m, s, 4, 2), Legacy0001, v.fields[2]);
    ShapeAgrees(Legacy0001, ConfigAt(m, TableSlice(m, s, 4, 2), Legacy0001));
  }
}
