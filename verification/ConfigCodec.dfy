/** The chain-config decoders accept exactly the canonical SSZ encodings, and invert them. */
module ConfigCodec {
  import opened Bytes
  import opened Spans
  import opened Ssz
  import opened Schema
  import opened Decode
  import opened FixedLists
  import opened ByteLists

  /** Small containers, written out. */
  lemma SerVar1(x: Val)
    requires !IsFixed(x)
    ensures SerParts([x]) == Le(4, 4) + Ser(x)
  {
    hide HeadLen, HeadBytes, TailBytes, IsFixed, Ser, Le;
    var vs := [x];
    StartOf(vs);
    StepVar(vs, 0);
  }

  lemma SerVar2(x: Val, y: Val)
    requires !IsFixed(x) && !IsFixed(y)
    ensures SerParts([x, y]) == Le(8, 4) + Le(8 + |Ser(x)|, 4) + (Ser(x) + Ser(y))
  {
    hide HeadLen, HeadBytes, TailBytes, IsFixed, Ser, Le;
    var vs := [x, y];
    StartOf(vs);
    StepVar(vs, 0);
    StepVar(vs, 1);
    assert TailBytes(vs, 1) == Ser(x) && HeadBytes(vs, 1) == Le(8, 4);
  }

  lemma SerFixVar(b: seq<Byte>, x: Val)
    requires |b| == 8 && !IsFixed(x)
    ensures SerParts([Vec(b), x]) == b + Le(12, 4) + Ser(x)
  {
    var vs := [Vec(b), x];
    assert IsFixed(vs[0]) && Ser(vs[0]) == b;
    hide HeadLen, HeadBytes, TailBytes, IsFixed, Ser, Le;
    StartOf(vs);
    StepFixed(vs, 0);
    StepVar(vs, 1);
    assert TailBytes(vs, 2) == Ser(x) && HeadBytes(vs, 1) == b;
  }

  lemma SerFixVar2(b: seq<Byte>, x: Val, y: Val)
    requires |b| == 8 && !IsFixed(x) && !IsFixed(y)
    ensures SerParts([Vec(b), x, y]) == b + Le(16, 4) + Le(16 + |Ser(x)|, 4) + (Ser(x) + Ser(y))
  {
    var vs := [Vec(b), x, y];
    assert IsFixed(vs[0]) && Ser(vs[0]) == b;
    hide HeadLen, HeadBytes, TailBytes, IsFixed, Ser, Le;
    StartOf(vs);
    StepFixed(vs, 0);
    StepVar(vs, 1);
    assert TailBytes(vs, 2) == Ser(x) && HeadBytes(vs, 1) == b;
    StepVar(vs, 2);
    assert HeadBytes(vs, 3) == b + Le(16, 4) + Le(16 + |Ser(x)|, 4);
  }

  lemma SerOne(v: Val)
    requires IsFixed(v)
    ensures SerParts([v]) == Ser(v) && SerParts([]) == []
  {
    hide IsFixed, Ser;
    StartOf([v]);
    StepFixed([v], 0);
  }

  /** A list of at most one record. */
  lemma OptRoundTrip(m: Memory, d: ByteSpan, v: Val)
    requires HasType(TList(TVec(8), 1), v) && d.Get(m) == Ser(v)
    ensures (d.len == 0 || d.len == 8) && v == List(OptVals(OptU64(m, d.ptr, d.len)), 1)
  {
    if v.items == [] {
      SerOne(Vec([]));
    } else {
      assert v.items == [v.items[0]] && HasType(TVec(8), v.items[0]);
      SerOne(v.items[0]);
      ReadU64Le(m, d.ptr);
    }
  }

  lemma OptReserializes(m: Memory, p: nat, n: nat)
    requires n == 0 || n == 8
    ensures Ser(List(OptVals(OptU64(m, p, n)), 1)) == View(m, p, n)
  {
    ReadU64Le(m, p);
    SerOne(Uint(ReadU64(m, p)));
  }

  lemma BlobVal(m: Memory, d: ByteSpan)
    requires d.len == 24
    ensures var v := BlobVals(DecodeBlob(m, d))[0];
            HasType(BLOB_TYP, v) && Ser(v) == d.Get(m)
  {
    var v, z := BlobVals(DecodeBlob(m, d))[0], [8, 8, 8];
    ReadU64Le(m, d.ptr);
    ReadU64Le(m, d.ptr + 8);
    ReadU64Le(m, d.ptr + 16);
    assert SumTo(z, 1) == 8 && SumTo(z, 2) == 16 && SumTo(z, 3) == 24;
    assert forall j :: 0 <= j < 3 ==> FieldHolds(m, d.ptr, z, v.fields, j);
    VecView(m, d.ptr, z, v.fields, 3);
    VecLayout(z, v, 3);
  }

  lemma BlobRoundTrip(m: Memory, d: ByteSpan, v: Val)
    requires HasType(TList(BLOB_TYP, 1), v) && d.Get(m) == Ser(v)
    ensures (d.len == 0 || d.len == 24) && v == List(BlobVals(DecodeBlob(m, d)), 1)
  {
    if v.items == [] {
      SerOne(Vec([]));
    } else {
      var z, w := [8, 8, 8], v.items[0];
      assert v.items == [w] && HasType(BLOB_TYP, w);
      VecSize(z, w);
      assert SumTo(z, 1) == 8 && SumTo(z, 2) == 16 && SumTo(z, 3) == 24;
      SerOne(w);
      BlobVal(m, d);
      VecInjective(z, w, BlobVals(DecodeBlob(m, d))[0]);
    }
  }

  lemma BlobReserializes(m: Memory, d: ByteSpan)
    requires d.len == 0 || d.len == 24
    ensures Ser(List(BlobVals(DecodeBlob(m, d)), 1)) == d.Get(m)
  {
    if d.len == 0 {
      SerOne(Vec([]));
    } else {
      BlobVal(m, d);
      VecSize([8, 8, 8], BlobVals(DecodeBlob(m, d))[0]);
      SerOne(BlobVals(DecodeBlob(m, d))[0]);
    }
  }

  function ActVal(a: (Option<u64>, Option<u64>)): Val {
    Container([List(OptVals(a.0), 1), List(OptVals(a.1), 1)])
  }

  lemma ActValNotFixed(a: (Option<u64>, Option<u64>))
    ensures !IsFixed(ActVal(a)) && HasType(ACTIVATION_TYP, ActVal(a))
  {
    assert !IsFixed(ActVal(a).fields[0]);
    assert forall i :: 0 <= i < |OptVals(a.0)| ==> HasType(TVec(8), OptVals(a.0)[i]);
    assert forall i :: 0 <= i < |OptVals(a.1)| ==> HasType(TVec(8), OptVals(a.1)[i]);
  }

  lemma ActivationRoundTrip(m: Memory, d: ByteSpan, v: Val)
    requires HasType(ACTIVATION_TYP, v) && d.Get(m) == Ser(v) && d.len < U32
    ensures DecodeActivation(m, d).Some? && ActVal(DecodeActivation(m, d).value) == v
  {
    hide View, ReadU32, ReadU64, SerParts, OptU64, OptVals;
    var vs := v.fields;
    assert HasType(ACTIVATION_TYP.fields[0], vs[0]) && HasType(ACTIVATION_TYP.fields[1], vs[1]);
    assert vs == [vs[0], vs[1]];
    SliceHolds(m, d, vs, 0);
    SliceHolds(m, d, vs, 1);
    OptRoundTrip(m, TableSlice(m, d, 2, 0), vs[0]);
    OptRoundTrip(m, TableSlice(m, d, 2, 1), vs[1]);
    assert d.ptr + 4 * 0 == d.ptr;
  }

  lemma ActivationReserializes(m: Memory, d: ByteSpan)
    requires DecodeActivation(m, d).Some?
    ensures Ser(ActVal(DecodeActivation(m, d).value)) == d.Get(m)
  {
    hide View, ReadU64, SerParts, OptVals, Le, FromLe;
    var p, o := d.ptr, ReadU32(m, d.ptr + 4);
    var x, y := List(OptVals(OptU64(m, p + 8, o - 8)), 1), List(OptVals(OptU64(m, p + o, d.len - o)), 1);
    assert ActVal(DecodeActivation(m, d).value) == Container([x, y]);
    OptReserializes(m, p + 8, o - 8);
    OptReserializes(m, p + o, d.len - o);
    SerVar2(x, y);
    ReadU32Le(m, p);
    ReadU32Le(m, p + 4);
    ViewJoin(m, p, 4, 4);
    ViewJoin(m, p + 8, o - 8, d.len - o);
    ViewJoin(m, p, 8, d.len - 8);
  }

  /** A config's fork part: Amsterdam has only the activation. */
  lemma ForkAmsterdamRoundTrip(m: Memory, fc: ByteSpan, v: Val)
    requires HasType(TContainer([ACTIVATION_TYP]), v) && fc.Get(m) == Ser(v) && fc.len < U32
    ensures 4 <= fc.len && ReadU32(m, fc.ptr) == 4
    ensures DecodeActivation(m, fc.From(4)).Some? && v == Container([ActVal(DecodeActivation(m, fc.From(4)).value)])
  {
    hide View, ReadU32, SerParts, OptVals;
    var vs := v.fields;
    assert HasType(ACTIVATION_TYP, vs[0]) && vs == [vs[0]];
    NotFixedActivation(vs[0]);
    SliceHolds(m, fc, vs, 0);
    assert fc.ptr + 4 * 0 == fc.ptr && TableSlice(m, fc, 1, 0) == fc.From(4);
    ActivationRoundTrip(m, fc.From(4), vs[0]);
  }

  lemma NotFixedActivation(v: Val)
    requires HasType(ACTIVATION_TYP, v)
    ensures !IsFixed(v)
  {
    assert HasType(ACTIVATION_TYP.fields[0], v.fields[0]);
  }

  const FORK_LEGACY_TYPS := [TVec(8), ACTIVATION_TYP, TList(BLOB_TYP, 1)]

  lemma LegacyForkLayout(vs: seq<Val>)
    requires HasType(TContainer(FORK_LEGACY_TYPS), Container(vs))
    ensures IsFixed(vs[0]) && !IsFixed(vs[1]) && !IsFixed(vs[2]) && |Ser(vs[0])| == 8 && vs[0].Vec?
    ensures HeadLen(vs, 0) == 0 && HeadLen(vs, 1) == 8 && HeadLen(vs, 2) == 12 && Offset(vs, 1) == 16
    ensures Offset(vs, 3) == |SerParts(vs)|
  {
    var ts := FORK_LEGACY_TYPS;
    assert HasType(ts[0], vs[0]) && HasType(ts[1], vs[1]) && HasType(ts[2], vs[2]);
    NotFixedActivation(vs[1]);
    TypedLayout(ts, vs, 1);
    TypedLayout(ts, vs, 2);
    TypedLayout(ts, vs, 3);
    assert HeadSum(ts, 0) == 0 && HeadSum(ts, 1) == 8 && HeadSum(ts, 2) == 12 && HeadSum(ts, 3) == 16;
    SerPartsLen(vs);
    assert TailBytes(vs, 1) == [];
  }

  lemma LegacyForkParts(m: Memory, fc: ByteSpan, vs: seq<Val>)
    requires HasType(TContainer(FORK_LEGACY_TYPS), Container(vs)) && fc.Get(m) == SerParts(vs) && fc.len < U32
    ensures var o := ReadU32(m, fc.ptr + 12);
            && ReadU32(m, fc.ptr + 8) == 16 <= o <= fc.len && vs[0] == Uint(ReadU64(m, fc.ptr))
            && fc.Slice(16, o - 16).Get(m) == Ser(vs[1]) && fc.From(o).Get(m) == Ser(vs[2])
  {
    hide View, ReadU32, ReadU64, SerParts, HeadLen, Offset, IsFixed, Le;
    LegacyForkLayout(vs);
    FixedAt(m, fc, vs, 0);
    VarAt(m, fc, vs, 1);
    VarAt(m, fc, vs, 2);
    ReadU64Le(m, fc.ptr);
  }

  lemma ForkLegacyRoundTrip(m: Memory, fc: ByteSpan, v: Val)
    requires HasType(TContainer(FORK_LEGACY_TYPS), v) && fc.Get(m) == Ser(v) && fc.len < U32
    ensures var o := ReadU32(m, fc.ptr + 12);
            && ReadU32(m, fc.ptr + 8) == 16 <= o <= fc.len
            && var act, bs := DecodeActivation(m, fc.Slice(16, o - 16)), fc.From(o);
            && act.Some? && (bs.len == 0 || bs.len == 24)
            && v == Container([Uint(ReadU64(m, fc.ptr)), ActVal(act.value), List(BlobVals(DecodeBlob(m, bs)), 1)])
  {
    hide View, ReadU32, ReadU64, SerParts, OptVals, BlobVals, VecTyp, DecodeActivation, DecodeBlob;
    var vs, o := v.fields, ReadU32(m, fc.ptr + 12);
    LegacyForkParts(m, fc, vs);
    assert HasType(FORK_LEGACY_TYPS[1], vs[1]) && HasType(FORK_LEGACY_TYPS[2], vs[2]);
    ActivationRoundTrip(m, fc.Slice(16, o - 16), vs[1]);
    BlobRoundTrip(m, fc.From(o), vs[2]);
    assert vs == [vs[0], vs[1], vs[2]];
  }

  /** The two-field outer container. */
  lemma OuterRoundTrip(m: Memory, s: ByteSpan, f: seq<Typ>, v: Val)
    requires HasType(TContainer([TVec(8), TContainer(f)]), v) && s.Get(m) == Ser(v) && s.len < U32
    requires !IsFixed(v.fields[1])
    ensures 12 <= s.len && ReadU32(m, s.ptr + 8) == 12
    ensures v == Container([Uint(ReadU64(m, s.ptr)), v.fields[1]]) && s.From(12).Get(m) == Ser(v.fields[1])
    ensures HasType(TContainer(f), v.fields[1])
  {
    hide View, ReadU32, ReadU64, SerParts;
    var vs, ts := v.fields, [TVec(8), TContainer(f)];
    assert HasType(ts[0], vs[0]) && HasType(ts[1], vs[1]);
    assert vs == [vs[0], vs[1]];
    TypedLayout(ts, vs, 1);
    TypedLayout(ts, vs, 2);
    assert HeadSum(ts, 0) == 0 && HeadSum(ts, 1) == 8 && HeadSum(ts, 2) == 12;
    FixedAt(m, s, vs, 0);
    VarAt(m, s, vs, 1);
    SerPartsLen(vs);
    assert Offset(vs, 1) == 12 by { assert TailBytes(vs, 1) == []; }
    ReadU64Le(m, s.ptr);
  }

  lemma ForkNotFixed(schema: InputSchema, v: Val)
    requires HasType(ChainConfigTyp(schema), v)
    ensures !IsFixed(v.fields[1])
  {
    var f := ChainConfigTyp(schema).fields[1];
    assert HasType(f, v.fields[1]);
    var i := if schema.Legacy0001? then 1 else 0;
    assert HasType(f.fields[i], v.fields[1].fields[i]);
    NotFixedActivation(v.fields[1].fields[i]);
  }

  /** Decoding the encoding of a config returns that config. */
  lemma ConfigRoundTrip(m: Memory, s: ByteSpan, schema: InputSchema, v: Val)
    requires HasType(ChainConfigTyp(schema), v) && s.Get(m) == Ser(v) && s.len < U32
    ensures ConfigAt(m, s, schema).valid && ChainConfigVal(schema, ConfigAt(m, s, schema)) == v
  {
    hide View, ReadU32, ReadU64, Ser, SerParts, DecodeActivation, DecodeBlob, HasType, OptVals, BlobVals;
    ForkNotFixed(schema, v);
    OuterRoundTrip(m, s, ChainConfigTyp(schema).fields[1].fields, v);
    match schema
    case Legacy0001 => ForkLegacyRoundTrip(m, s.From(12), v.fields[1]);
    case Amsterdam01 => ForkAmsterdamRoundTrip(m, s.From(12), v.fields[1]);
  }

  lemma ConfigTyped(schema: InputSchema, c: ChainConfig)
    ensures HasType(ChainConfigTyp(schema), ChainConfigVal(schema, c))
  {
    hide Le, BlobVals, OptVals, VecTyp;
    BlobTyped(c.blobSchedule);
    ActValNotFixed((c.activationBlock, c.activationTime));
    var t, v := ChainConfigTyp(schema).fields[1], ChainConfigVal(schema, c).fields[1];
    assert HasType(t, v);
  }

  lemma BlobTyped(b: Option<BlobSchedule>)
    ensures HasType(TList(BLOB_TYP, 1), List(BlobVals(b), 1))
  {
    hide Le;
    var vs := BlobVals(b);
    assert vs != [] ==> HasType(BLOB_TYP, vs[0]) && vs == [vs[0]];
  }

  /** A config that is accepted re-encodes to exactly the bytes it was decoded from. */
  lemma ConfigReserializes(m: Memory, s: ByteSpan, schema: InputSchema)
    requires ConfigAt(m, s, schema).valid
    ensures Ser(ChainConfigVal(schema, ConfigAt(m, s, schema))) == s.Get(m)
  {
    var c := ConfigAt(m, s, schema);
    var f := ChainConfigVal(schema, c).fields[1];
    assert 12 <= s.len && ReadU32(m, s.ptr + 8) == 12 && c.chainId == ReadU64(m, s.ptr);
    match schema {
      case Legacy0001 => LegacyForkReserializes(m, s);
      case Amsterdam01 => AmsterdamForkReserializes(m, s);
    }
    OuterReserializes(m, s, f);
  }

  lemma OuterReserializes(m: Memory, s: ByteSpan, f: Val)
    requires 12 <= s.len && ReadU32(m, s.ptr + 8) == 12 && !IsFixed(f) && Ser(f) == s.From(12).Get(m)
    ensures Ser(Container([Uint(ReadU64(m, s.ptr)), f])) == s.Get(m)
  {
    hide View, ReadU32, ReadU64, SerParts, Le;
    var p := s.ptr;
    ReadU64Le(m, p);
    ReadU32Le(m, p + 8);
    SerFixVar(Le(ReadU64(m, p), 8), f);
    ViewJoin(m, p, 8, 4);
    ViewJoin(m, p, 12, s.len - 12);
  }

  lemma AmsterdamForkReserializes(m: Memory, s: ByteSpan)
    requires DecodeChainConfigAmsterdam01(m, s).valid
    ensures var f := ChainConfigVal(Amsterdam01, DecodeChainConfigAmsterdam01(m, s)).fields[1];
            !IsFixed(f) && Ser(f) == s.From(12).Get(m)
  {
    hide View, ReadU64, SerParts, Le, OptVals;
    var fc := s.From(12);
    var a := ActVal(DecodeActivation(m, fc.From(4)).value);
    ActivationReserializes(m, fc.From(4));
    ActValNotFixed(DecodeActivation(m, fc.From(4)).value);
    ReadU32Le(m, fc.ptr);
    SerVar1(a);
    ViewJoin(m, fc.ptr, 4, fc.len - 4);
    assert ChainConfigVal(Amsterdam01, DecodeChainConfigAmsterdam01(m, s)).fields[1] == Container([a]);
  }

  lemma LegacyForkReserializes(m: Memory, s: ByteSpan)
    requires DecodeChainConfig(m, s).valid
    ensures var f := ChainConfigVal(Legacy0001, DecodeChainConfig(m, s)).fields[1];
            !IsFixed(f) && Ser(f) == s.From(12).Get(m)
  {
    hide View, ReadU64, SerParts, Le, OptVals, BlobVals, DecodeActivation, DecodeBlob;
    var fc := s.From(12);
    var p, o := fc.ptr, ReadU32(m, fc.ptr + 12);
    var a, b := ActVal(DecodeActivation(m, fc.Slice(16, o - 16)).value), List(BlobVals(DecodeBlob(m, fc.From(o))), 1);
    ActivationReserializes(m, fc.Slice(16, o - 16));
    ActValNotFixed(DecodeActivation(m, fc.Slice(16, o - 16)).value);
    BlobReserializes(m, fc.From(o));
    ReadU64Le(m, p);
    ReadU32Le(m, p + 8);
    ReadU32Le(m, p + 12);
    SerFixVar2(Le(ReadU64(m, p), 8), a, b);
    assert |Ser(a)| == o - 16;
    ForkBytes(m, p, o, fc.len);
    assert ChainConfigVal(Legacy0001, DecodeChainConfig(m, s)).fields[1] == Container([Uint(ReadU64(m, p)), a, b]);
  }

  lemma ForkBytes(m: Memory, p: nat, o: nat, n: nat)
    requires 16 <= o <= n
    ensures View(m, p, 8) + View(m, p + 8, 4) + View(m, p + 12, 4) + (View(m, p + 16, o - 16) + View(m, p + o, n - o)) ==
            View(m, p, n)
  {
    hide View;
    ViewJoin(m, p, 8, 4);
    ViewJoin(m, p, 12, 4);
    ViewJoin(m, p + 16, o - 16, n - o);
    ViewJoin(m, p, 16, n - 16);
  }

  lemma OptLength(v: Val)
    requires HasType(TList(TVec(8), 1), v)
    ensures |Ser(v)| <= 8 && !IsFixed(v)
  {
    StartOf(v.items);
    if v.items != [] {
      assert HasType(TVec(8), v.items[0]) && v.items == [v.items[0]];
      SerOne(v.items[0]);
    }
  }

  lemma BlobLength(v: Val)
    requires HasType(TList(BLOB_TYP, 1), v)
    ensures |Ser(v)| <= 24 && !IsFixed(v)
  {
    StartOf(v.items);
    if v.items != [] {
      assert HasType(BLOB_TYP, v.items[0]) && v.items == [v.items[0]];
      VecSize([8, 8, 8], v.items[0]);
      assert SumTo([8, 8, 8], 1) == 8 && SumTo([8, 8, 8], 2) == 16 && SumTo([8, 8, 8], 3) == 24;
      SerOne(v.items[0]);
    }
  }

  lemma ActivationLength(v: Val)
    requires HasType(ACTIVATION_TYP, v)
    ensures |Ser(v)| <= 24 && !IsFixed(v)
  {
    hide IsFixed, Le, SerParts;
    var vs := v.fields;
    assert HasType(TList(TVec(8), 1), vs[0]) && HasType(TList(TVec(8), 1), vs[1]) && vs == [vs[0], vs[1]];
    OptLength(vs[0]);
    OptLength(vs[1]);
    SerVar2(vs[0], vs[1]);
    NotFixedActivation(v);
  }

  lemma ForkLength(schema: InputSchema, v: Val)
    requires HasType(ChainConfigTyp(schema).fields[1], v)
    ensures v.Container? && |Ser(v)| <= 64
  {
    hide IsFixed, Le, SerParts;
    var ts, vs := ChainConfigTyp(schema).fields[1].fields, v.fields;
    match schema {
      case Legacy0001 =>
        assert HasType(ts[0], vs[0]) && HasType(ts[1], vs[1]) && HasType(ts[2], vs[2]);
        assert vs == [Vec(vs[0].bytes), vs[1], vs[2]];
        ActivationLength(vs[1]);
        BlobLength(vs[2]);
        SerFixVar2(vs[0].bytes, vs[1], vs[2]);
      case Amsterdam01 =>
        assert HasType(ts[0], vs[0]) && vs == [vs[0]];
        ActivationLength(vs[0]);
        SerVar1(vs[0]);
    }
  }

  lemma ConfigSerLength(schema: InputSchema, v: Val)
    requires HasType(ChainConfigTyp(schema), v)
    ensures |Ser(v)| <= 76
  {
    hide IsFixed, Le, SerParts;
    var ts, vs := ChainConfigTyp(schema).fields, v.fields;
    assert HasType(ts[0], vs[0]) && HasType(ts[1], vs[1]) && vs == [Vec(vs[0].bytes), vs[1]];
    ForkLength(schema, vs[1]);
    ForkNotFixed(schema, v);
    SerFixVar(vs[0].bytes, vs[1]);
  }

  /** The serialization of some config. */
  ghost predicate Canonical(schema: InputSchema, b: seq<Byte>) {
    exists v :: HasType(ChainConfigTyp(schema), v) && b == Ser(v)
  }

  /** The decoder accepts exactly the canonical encodings. */
  lemma ConfigValidIffCanonical(m: Memory, s: ByteSpan, schema: InputSchema)
    ensures ConfigAt(m, s, schema).valid <==> Canonical(schema, s.Get(m))
  {
    hide HasType, ChainConfigTyp, ChainConfigVal, Ser, View;
    if ConfigAt(m, s, schema).valid {
      ConfigReserializes(m, s, schema);
      ConfigTyped(schema, ConfigAt(m, s, schema));
    }
    if Canonical(schema, s.Get(m)) {
      var v :| HasType(ChainConfigTyp(schema), v) && s.Get(m) == Ser(v);
      ConfigSerLength(schema, v);
      ConfigRoundTrip(m, s, schema, v);
    }
  }
}
