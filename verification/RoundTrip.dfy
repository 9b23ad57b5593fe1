/** Decoding the SSZ serialization of a value returns that value: requests, payload, witness. */
module RoundTrip {
  import opened Bytes
  import opened Spans
  import opened Ssz
  import opened Schema
  import opened Decode
  import opened FixedLists
  import opened ByteLists

  lemma WitnessListRoundTrip(m: Memory, s: ByteSpan, v: Val, i: nat, item: nat, limit: nat)
    requires HasType(WITNESS_TYP, v) && s.Get(m) == Ser(v) && s.len < U32
    requires i < 3 && WITNESS_TYP.fields[i] == TList(TByteList(item), limit)
    ensures v.fields[i] == List(ByteListVals(m, ByteListsAt(m, TableSlice(m, s, 3, i)), item), limit) && 12 <= s.len
  {
    var vs := v.fields;
    forall j | 0 <= j < 3
      ensures !IsFixed(vs[j])
    {
      assert HasType(WITNESS_TYP.fields[j], vs[j]);
    }
    assert HasType(WITNESS_TYP.fields[i], vs[i]);
    SliceHolds(m, s, vs, i);
    ByteListsRoundTrip(m, TableSlice(m, s, 3, i), vs[i].items, item);
  }

  lemma WitnessRoundTrip(m: Memory, s: ByteSpan, v: Val)
    requires HasType(WITNESS_TYP, v) && s.Get(m) == Ser(v) && s.len < U32
    ensures WitnessVal(m, WitnessAt(m, s)) == v
  {
    hide ByteListsAt, TableSlice, Ser;
    WitnessListRoundTrip(m, s, v, 0, MAX_BYTES_PER_WITNESS_NODE, MAX_WITNESS_NODES);
    WitnessListRoundTrip(m, s, v, 1, MAX_BYTES_PER_CODE, MAX_WITNESS_CODES);
    WitnessListRoundTrip(m, s, v, 2, MAX_BYTES_PER_HEADER, MAX_WITNESS_HEADERS);
    assert v.fields == [v.fields[0], v.fields[1], v.fields[2]];
  }

  /** List i of the execution requests. */
  lemma RequestListRoundTrip(m: Memory, s: ByteSpan, builder: bool, v: Val, i: nat, k: Kind, limit: nat)
    requires HasType(RequestsTyp(builder), v) && s.Get(m) == Ser(v) && s.len < U32
    requires i < |v.fields| && RequestsTyp(builder).fields[i] == TList(ItemTyp(k), limit)
    ensures var d := TableSlice(m, s, |v.fields|, i);
            v.fields[i] == List(ItemVals(ItemsAt(m, d, k)), limit) && d.len % ItemSize(k) == 0
    ensures 4 * |v.fields| <= s.len
  {
    var ts, vs := RequestsTyp(builder).fields, v.fields;
    forall j | 0 <= j < |vs|
      ensures !IsFixed(vs[j])
    {
      assert HasType(ts[j], vs[j]) && ts[j].TList?;
    }
    assert HasType(ts[i], vs[i]);
    SliceHolds(m, s, vs, i);
    ItemsRoundTrip(m, TableSlice(m, s, |vs|, i), k, vs[i].items);
  }

  lemma RequestsRoundTrip(m: Memory, s: ByteSpan, builder: bool, v: Val)
    requires HasType(RequestsTyp(builder), v) && s.Get(m) == Ser(v) && s.len < U32
    ensures RequestsVal(RequestsAt(m, s, builder)) == v
  {
    hide ItemsAt, ItemVals, TableSlice, Ser, ItemTyp;
    RequestListRoundTrip(m, s, builder, v, 0, KDeposit, MAX_DEPOSIT_REQUESTS_PER_PAYLOAD);
    RequestListRoundTrip(m, s, builder, v, 1, KWithdrawalRequest, MAX_WITHDRAWAL_REQUESTS_PER_PAYLOAD);
    RequestListRoundTrip(m, s, builder, v, 2, KConsolidation, MAX_CONSOLIDATION_REQUESTS_PER_PAYLOAD);
    var vs := v.fields;
    if builder {
      RequestListRoundTrip(m, s, builder, v, 3, KBuilderDeposit, MAX_BUILDER_DEPOSIT_REQUESTS_PER_PAYLOAD);
      RequestListRoundTrip(m, s, builder, v, 4, KBuilderExit, MAX_BUILDER_EXIT_REQUESTS_PER_PAYLOAD);
      assert vs == [vs[0], vs[1], vs[2]] + [vs[3], vs[4]];
    } else {
      assert vs == [vs[0], vs[1], vs[2]] + [];
    }
  }

  function PayloadTyps(shape: PayloadShape, balLimit: nat): seq<Typ> {
    PayloadTyp(shape, balLimit).fields
  }

  /** Where each fixed part of the payload is; position 17 of a V3 payload is its end. */
  function PayloadPos(i: nat): nat {
    match i
    case 0 => 0
    case 1 => 32
    case 2 => 52
    case 3 => 84
    case 4 => 116
    case 5 => 372
    case 6 => 404
    case 7 => 412
    case 8 => 420
    case 9 => 428
    case 10 => 436
    case 11 => 440
    case 12 => 472
    case 13 => 504
    case 14 => 508
    case 15 => 512
    case 16 => 520
    case 17 => PAYLOAD_V3_FIXED
    case 18 => 532
    case _ => PAYLOAD_V4_FIXED
  }

  lemma {:induction false} PayloadLayout(shape: PayloadShape, b: nat, i: nat)
    requires i <= |PayloadTyps(shape, b)|
    ensures HeadSum(PayloadTyps(shape, b), i) == PayloadPos(i)
  {
    if i > 0 {
      PayloadLayout(shape, b, i - 1);
    }
  }

  /** A container with no nested container. */
  ghost predicate Flat(ts: seq<Typ>, vs: seq<Val>) {
    HasType(TContainer(ts), Container(vs)) && forall i :: 0 <= i < |ts| ==> !ts[i].TContainer?
  }

  lemma OffsetOverFixed(vs: seq<Val>, i: nat)
    requires i < |vs| && IsFixed(vs[i])
    ensures Offset(vs, i + 1) == Offset(vs, i)
  {
    assert TailBytes(vs, i + 1) == TailBytes(vs, i) + [];
  }

  lemma FlatVec(m: Memory, s: ByteSpan, ts: seq<Typ>, vs: seq<Val>, i: nat)
    requires Flat(ts, vs) && s.Get(m) == SerParts(vs) && i < |ts| && ts[i].TVec?
    ensures vs[i] == Vec(View(m, s.ptr + HeadSum(ts, i), ts[i].size))
    ensures Offset(vs, i + 1) == Offset(vs, i)
  {
    hide View, HeadSum, SerParts, Offset;
    assert HasType(ts[i], vs[i]);
    OffsetOverFixed(vs, i);
    FixedAt(m, s, vs, i);
    TypedLayout(ts, vs, i);
  }

  lemma FlatVar(m: Memory, s: ByteSpan, ts: seq<Typ>, vs: seq<Val>, i: nat)
    requires Flat(ts, vs) && s.Get(m) == SerParts(vs) && i < |ts| && !ts[i].TVec? && s.len < U32
    ensures |vs| == |ts|
    ensures ReadU32(m, s.ptr + HeadSum(ts, i)) == Offset(vs, i) <= Offset(vs, i + 1) <= s.len
    ensures Part(s, Offset(vs, i), Offset(vs, i + 1)).Get(m) == Ser(vs[i])
    ensures Offset(vs, |ts|) == s.len
  {
    hide View, ReadU32;
    assert HasType(ts[i], vs[i]);
    VarAt(m, s, vs, i);
    TypedLayout(ts, vs, i);
    SerPartsLen(vs);
  }

  lemma SerializedLength(m: Memory, s: ByteSpan, ts: seq<Typ>, vs: seq<Val>)
    requires Flat(ts, vs) && s.Get(m) == SerParts(vs)
    ensures HeadSum(ts, |ts|) <= s.len
  {
    TypedLayout(ts, vs, |ts|);
    SerPartsLen(vs);
  }

  /** The decoder reads a fixed-size field from its place. */
  lemma PayloadReads(m: Memory, s: ByteSpan, shape: PayloadShape, b: nat, i: nat)
    requires s.len >= PayloadFixed(shape) && i < PayloadFieldCount(shape) && PayloadFieldTyp(b, i).TVec?
    ensures PayloadFieldVal(m, PayloadAt(m, s, shape, b), i) ==
            Vec(View(m, s.ptr + PayloadPos(i), PayloadFieldTyp(b, i).size))
  {
    hide View, ReadU64, ReadU32, ByteListsAt, ItemsAt, Part, ByteListVals, ItemVals;
    ReadU64Le(m, s.ptr + PayloadPos(i));
  }

  /** A variable-size field and the entries of the table that delimit it. */
  lemma PayloadEntry(m: Memory, s: ByteSpan, shape: PayloadShape, b: nat, vs: seq<Val>, i: nat)
    requires Flat(PayloadTyps(shape, b), vs) && s.Get(m) == SerParts(vs) && s.len < U32
    requires i < PayloadFieldCount(shape) && !PayloadFieldTyp(b, i).TVec?
    ensures ReadU32(m, s.ptr + PayloadPos(i)) == Offset(vs, i)
    ensures Part(s, Offset(vs, i), Offset(vs, i + 1)).Get(m) == Ser(vs[i])
    ensures Offset(vs, PayloadFieldCount(shape)) == s.len && |vs| == PayloadFieldCount(shape)
    ensures HasType(PayloadFieldTyp(b, i), vs[i])
  {
    hide View, ReadU32, HeadSum, Offset, SerParts, Ser, PayloadPos, PayloadFieldTyp;
    PayloadLayout(shape, b, i);
    FlatVar(m, s, PayloadTyps(shape, b), vs, i);
    assert HasType(PayloadTyps(shape, b)[i], vs[i]);
  }

  lemma PayloadSkip(m: Memory, s: ByteSpan, shape: PayloadShape, b: nat, vs: seq<Val>, i: nat)
    requires Flat(PayloadTyps(shape, b), vs) && s.Get(m) == SerParts(vs)
    requires i < PayloadFieldCount(shape) && PayloadFieldTyp(b, i).TVec?
    ensures |vs| == PayloadFieldCount(shape) && Offset(vs, i + 1) == Offset(vs, i)
  {
    hide View, HeadSum, Offset, SerParts, PayloadFieldTyp;
    FlatVec(m, s, PayloadTyps(shape, b), vs, i);
  }

  /** The decoder follows the offsets to the extra data, */
  lemma ExtraDataFollows(m: Memory, s: ByteSpan, shape: PayloadShape, b: nat, vs: seq<Val>)
    requires Flat(PayloadTyps(shape, b), vs) && s.Get(m) == SerParts(vs) && s.len < U32 && s.len >= PayloadFixed(shape)
    ensures PayloadFieldVal(m, PayloadAt(m, s, shape, b), 10) == vs[10]
  {
    hide View, ReadU32, ReadU64, SerParts, Offset, ByteListsAt, ItemsAt, ByteListVals, ItemVals, Part, Flat;
    PayloadEntry(m, s, shape, b, vs, 10);
    PayloadSkip(m, s, shape, b, vs, 11);
    PayloadSkip(m, s, shape, b, vs, 12);
    PayloadEntry(m, s, shape, b, vs, 13);
  }

  /** ... the transactions, */
  lemma TransactionsFollow(m: Memory, s: ByteSpan, shape: PayloadShape, b: nat, vs: seq<Val>)
    requires Flat(PayloadTyps(shape, b), vs) && s.Get(m) == SerParts(vs) && s.len < U32 && s.len >= PayloadFixed(shape)
    ensures PayloadFieldVal(m, PayloadAt(m, s, shape, b), 13) == vs[13]
  {
    hide View, ReadU32, ReadU64, SerParts, Offset, ByteListsAt, ItemsAt, ByteListVals, ItemVals, Flat;
    PayloadEntry(m, s, shape, b, vs, 13);
    PayloadEntry(m, s, shape, b, vs, 14);
    ByteListsRoundTrip(m, Part(s, Offset(vs, 13), Offset(vs, 14)), vs[13].items, MAX_BYTES_PER_TRANSACTION);
  }

  /** ... the withdrawals, which end at the access list or at the end, */
  lemma WithdrawalsFollow(m: Memory, s: ByteSpan, shape: PayloadShape, b: nat, vs: seq<Val>)
    requires Flat(PayloadTyps(shape, b), vs) && s.Get(m) == SerParts(vs) && s.len < U32 && s.len >= PayloadFixed(shape)
    ensures PayloadFieldVal(m, PayloadAt(m, s, shape, b), 14) == vs[14]
  {
    hide View, ReadU32, ReadU64, SerParts, Offset, ByteListsAt, ItemsAt, ByteListVals, ItemVals, Part, VecTyp, Flat;
    PayloadEntry(m, s, shape, b, vs, 14);
    PayloadSkip(m, s, shape, b, vs, 15);
    PayloadSkip(m, s, shape, b, vs, 16);
    if shape.Gloas? { PayloadEntry(m, s, shape, b, vs, 17); }
    ItemsRoundTrip(m, Part(s, Offset(vs, 14), Offset(vs, 15)), KWithdrawal, vs[14].items);
  }

  /** ... and the access list. */
  lemma AccessListFollows(m: Memory, s: ByteSpan, shape: PayloadShape, b: nat, vs: seq<Val>)
    requires Flat(PayloadTyps(shape, b), vs) && s.Get(m) == SerParts(vs) && s.len < U32 && s.len >= PayloadFixed(shape)
    requires shape.Gloas?
    ensures PayloadFieldVal(m, PayloadAt(m, s, shape, b), 17) == vs[17]
  {
    hide View, ReadU32, ReadU64, SerParts, Offset, ByteListsAt, ItemsAt, ByteListVals, ItemVals, Part, Flat;
    PayloadEntry(m, s, shape, b, vs, 17);
    PayloadSkip(m, s, shape, b, vs, 18);
  }

  lemma PayloadFollows(m: Memory, s: ByteSpan, shape: PayloadShape, b: nat, vs: seq<Val>, i: nat)
    requires Flat(PayloadTyps(shape, b), vs) && s.Get(m) == SerParts(vs) && s.len < U32 && s.len >= PayloadFixed(shape)
    requires i < PayloadFieldCount(shape) && !PayloadFieldTyp(b, i).TVec?
    ensures |vs| == PayloadFieldCount(shape) && PayloadFieldVal(m, PayloadAt(m, s, shape, b), i) == vs[i]
  {
    hide PayloadFieldVal, PayloadAt;
    assert i in {10, 13, 14, 17};
    ExtraDataFollows(m, s, shape, b, vs);
    TransactionsFollow(m, s, shape, b, vs);
    WithdrawalsFollow(m, s, shape, b, vs);
    if i == 17 { AccessListFollows(m, s, shape, b, vs); }
  }

  lemma PayloadRoundTrip(m: Memory, s: ByteSpan, shape: PayloadShape, b: nat, v: Val)
    requires HasType(PayloadTyp(shape, b), v) && s.Get(m) == Ser(v) && s.len < U32
    ensures PayloadVal(m, PayloadAt(m, s, shape, b)) == v && PayloadAt(m, s, shape, b).shape == shape
  {
    hide View, ReadU32, ReadU64, HeadSum, PayloadFieldVal, ByteListsAt, ItemsAt, Part;
    var ts, vs := PayloadTyps(shape, b), v.fields;
    SerializedLength(m, s, ts, vs);
    PayloadLayout(shape, b, |ts|);
    forall i | 0 <= i < |vs|
      ensures PayloadFieldVal(m, PayloadAt(m, s, shape, b), i) == vs[i]
    {
      if ts[i].TVec? {
        FlatVec(m, s, ts, vs, i);
        PayloadLayout(shape, b, i);
        PayloadReads(m, s, shape, b, i);
      } else {
        PayloadFollows(m, s, shape, b, vs, i);
      }
    }
  }
}
