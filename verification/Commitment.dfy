/** What the published root commits to, for any two decoded inputs: canonical or not. */
module Commitment {
  import opened Bytes
  import opened Spans
  import opened Ssz
  import opened Merkle
  import opened Binding
  import opened Schema
  import opened Decode
  import opened FixedLists
  import opened RoundTrip
  import opened InputRoundTrip
  import opened HeaderChain
  import opened Htr
  import opened RequestsCommitment
  import opened Guest

  /** Two requests of one payload shape, with the same request lists and access-list limit. */
  predicate SameForm(q: NewPayloadRequest, r: NewPayloadRequest) {
    && q.payload.shape == r.payload.shape
    && q.requests.hasBuilderRequests == r.requests.hasBuilderRequests
    && q.payload.balHtrLimit == r.payload.balHtrLimit
  }

  /** The SSZ type of requests of r's form. */
  function TypOf(r: NewPayloadRequest): Typ {
    RequestTyp(r.payload.shape, r.requests.hasBuilderRequests, r.payload.balHtrLimit)
  }

  predicate PayloadWithinLimits(p: Payload) {
    && p.extraData.len <= MAX_EXTRA_DATA_BYTES
    && |p.transactions| <= MAX_TRANSACTIONS_PER_PAYLOAD
    && (forall i :: 0 <= i < |p.transactions| ==> p.transactions[i].len <= MAX_BYTES_PER_TRANSACTION)
    && |p.withdrawals| <= MAX_WITHDRAWALS_PER_PAYLOAD
    && (p.shape.Gloas? ==> p.blockAccessList.len <= p.balHtrLimit)
  }

  predicate RequestsWithinLimits(er: Requests) {
    && |er.deposits| <= MAX_DEPOSIT_REQUESTS_PER_PAYLOAD
    && |er.withdrawals| <= MAX_WITHDRAWAL_REQUESTS_PER_PAYLOAD
    && |er.consolidations| <= MAX_CONSOLIDATION_REQUESTS_PER_PAYLOAD
    && (er.hasBuilderRequests ==>
          && |er.builderDeposits| <= MAX_BUILDER_DEPOSIT_REQUESTS_PER_PAYLOAD
          && |er.builderExits| <= MAX_BUILDER_EXIT_REQUESTS_PER_PAYLOAD)
  }

  /** No list is longer than its SSZ type allows. */
  predicate WithinLimits(r: NewPayloadRequest) {
    && PayloadWithinLimits(r.payload) && RequestsWithinLimits(r.requests)
    && |r.versionedHashes| <= MAX_BLOB_COMMITMENTS_PER_BLOCK
  }

  /** Every list holds records of its kind, as decoded lists do. */
  ghost predicate OfKind(items: seq<Item>, k: Kind) {
    forall i :: 0 <= i < |items| ==> KindOf(items[i]) == k
  }

  ghost predicate RequestsOfKind(er: Requests) {
    && OfKind(er.deposits, KDeposit) && OfKind(er.withdrawals, KWithdrawalRequest)
    && OfKind(er.consolidations, KConsolidation) && OfKind(er.builderDeposits, KBuilderDeposit)
    && OfKind(er.builderExits, KBuilderExit)
  }

  /** What every decoded request satisfies, whatever it was decoded from. */
  ghost predicate Decoded(r: NewPayloadRequest) {
    && OfKind(r.payload.withdrawals, KWithdrawal) && RequestsOfKind(r.requests)
    && PayloadFits(r.payload) && RequestsFit(r.requests) && |r.versionedHashes| < U64
    && r.payload.balHtrLimit in {MAX_BLOCK_ACCESS_LIST_BYTES, BAL_HTR_LIMIT_AMSTERDAM01}
  }

  lemma DecodedOfKind(m: Memory, s: ByteSpan, shape: PayloadShape, builder: bool, b: nat)
    ensures var r := RequestAt(m, s, shape, builder, b);
            OfKind(r.payload.withdrawals, KWithdrawal) && RequestsOfKind(r.requests)
  {
    hide View, ReadU32, ReadU64, ByteListsAt, TableSlice, Part;
  }

  lemma ItemShaped(it: Item)
    ensures HasShape(ItemTyp(KindOf(it)), ItemVal(it))
  {
  }

  lemma ListTyped(items: seq<Item>, k: Kind, limit: nat)
    requires OfKind(items, k) && |items| < U64
    ensures HasShape(TList(ItemTyp(k), limit), List(ItemVals(items), limit))
    ensures HasType(TList(ItemTyp(k), limit), List(ItemVals(items), limit)) <==> |items| <= limit
  {
    hide ItemVal, ItemTyp;
    forall i | 0 <= i < |items|
      ensures HasShape(ItemTyp(k), ItemVals(items)[i])
    {
      ItemShaped(items[i]);
    }
  }

  lemma RequestsTyped(er: Requests)
    requires RequestsOfKind(er) && RequestsFit(er)
    ensures HasShape(RequestsTyp(er.hasBuilderRequests), RequestsVal(er))
    ensures HasType(RequestsTyp(er.hasBuilderRequests), RequestsVal(er)) <==> RequestsWithinLimits(er)
  {
    hide ItemVals, ItemTyp, OfKind;
    ListTyped(er.deposits, KDeposit, MAX_DEPOSIT_REQUESTS_PER_PAYLOAD);
    ListTyped(er.withdrawals, KWithdrawalRequest, MAX_WITHDRAWAL_REQUESTS_PER_PAYLOAD);
    ListTyped(er.consolidations, KConsolidation, MAX_CONSOLIDATION_REQUESTS_PER_PAYLOAD);
    ListTyped(er.builderDeposits, KBuilderDeposit, MAX_BUILDER_DEPOSIT_REQUESTS_PER_PAYLOAD);
    ListTyped(er.builderExits, KBuilderExit, MAX_BUILDER_EXIT_REQUESTS_PER_PAYLOAD);
    var ts, vs := RequestsTyp(er.hasBuilderRequests).fields, RequestsVal(er).fields;
    hide HasShape, HasType;
    ContainerTyped(ts, vs);
    assert HasShape(ts[0], vs[0]) && HasShape(ts[1], vs[1]) && HasShape(ts[2], vs[2]);
    assert HasType(ts[0], vs[0]) <==> |er.deposits| <= MAX_DEPOSIT_REQUESTS_PER_PAYLOAD;
    assert HasType(ts[1], vs[1]) <==> |er.withdrawals| <= MAX_WITHDRAWAL_REQUESTS_PER_PAYLOAD;
    assert HasType(ts[2], vs[2]) <==> |er.consolidations| <= MAX_CONSOLIDATION_REQUESTS_PER_PAYLOAD;
    if er.hasBuilderRequests {
      assert HasShape(ts[3], vs[3]) && HasShape(ts[4], vs[4]);
      assert HasType(ts[3], vs[3]) <==> |er.builderDeposits| <= MAX_BUILDER_DEPOSIT_REQUESTS_PER_PAYLOAD;
      assert HasType(ts[4], vs[4]) <==> |er.builderExits| <= MAX_BUILDER_EXIT_REQUESTS_PER_PAYLOAD;
    }
  }

  lemma ContainerTyped(ts: seq<Typ>, vs: seq<Val>)
    requires |ts| == |vs|
    ensures HasType(TContainer(ts), Container(vs)) <==> forall i :: 0 <= i < |ts| ==> HasType(ts[i], vs[i])
    ensures HasShape(TContainer(ts), Container(vs)) <==> forall i :: 0 <= i < |ts| ==> HasShape(ts[i], vs[i])
  {
  }

  /** What the limits say of field i of a payload. */
  ghost predicate FieldWithinLimit(p: Payload, i: nat) {
    match i
    case 10 => p.extraData.len <= MAX_EXTRA_DATA_BYTES
    case 13 =>
      && |p.transactions| <= MAX_TRANSACTIONS_PER_PAYLOAD
      && forall j :: 0 <= j < |p.transactions| ==> p.transactions[j].len <= MAX_BYTES_PER_TRANSACTION
    case 14 => |p.withdrawals| <= MAX_WITHDRAWALS_PER_PAYLOAD
    case 17 => p.blockAccessList.len <= p.balHtrLimit
    case _ => true
  }

  lemma FieldTyped(m: Memory, p: Payload, i: nat)
    requires OfKind(p.withdrawals, KWithdrawal) && PayloadFits(p) && i < PayloadFieldCount(p.shape)
    ensures HasShape(PayloadFieldTyp(p.balHtrLimit, i), PayloadFieldVal(m, p, i))
    ensures HasType(PayloadFieldTyp(p.balHtrLimit, i), PayloadFieldVal(m, p, i)) <==> FieldWithinLimit(p, i)
  {
    hide View, Le, ItemVals, ItemTyp, OfKind;
    if i == 14 { ListTyped(p.withdrawals, KWithdrawal, MAX_WITHDRAWALS_PER_PAYLOAD); }
    if i == 13 { TransactionsTyped(m, p.transactions); }
  }

  lemma TransactionsTyped(m: Memory, txs: seq<ByteSpan>)
    requires |txs| < U64 && forall j :: 0 <= j < |txs| ==> txs[j].len < U64
    ensures var t := TList(TByteList(MAX_BYTES_PER_TRANSACTION), MAX_TRANSACTIONS_PER_PAYLOAD);
            var v := List(ByteListVals(m, txs, MAX_BYTES_PER_TRANSACTION), MAX_TRANSACTIONS_PER_PAYLOAD);
            && HasShape(t, v)
            && (HasType(t, v) <==>
                && |txs| <= MAX_TRANSACTIONS_PER_PAYLOAD
                && forall j :: 0 <= j < |txs| ==> txs[j].len <= MAX_BYTES_PER_TRANSACTION)
  {
    var vs := ByteListVals(m, txs, MAX_BYTES_PER_TRANSACTION);
    forall j | 0 <= j < |txs|
      ensures HasShape(TByteList(MAX_BYTES_PER_TRANSACTION), vs[j])
      ensures HasType(TByteList(MAX_BYTES_PER_TRANSACTION), vs[j]) <==> txs[j].len <= MAX_BYTES_PER_TRANSACTION
    {
      assert |txs[j].Get(m)| == txs[j].len;
    }
  }

  lemma PayloadTyped(m: Memory, p: Payload)
    requires OfKind(p.withdrawals, KWithdrawal) && PayloadFits(p)
    ensures HasShape(PayloadTyp(p.shape, p.balHtrLimit), PayloadVal(m, p))
    ensures HasType(PayloadTyp(p.shape, p.balHtrLimit), PayloadVal(m, p)) <==> PayloadWithinLimits(p)
  {
    hide PayloadFieldVal, PayloadFieldTyp, OfKind, PayloadFits, HasType, HasShape;
    var n, ts, vs := PayloadFieldCount(p.shape), PayloadTyp(p.shape, p.balHtrLimit).fields, PayloadVal(m, p).fields;
    ContainerTyped(ts, vs);
    forall i | 0 <= i < n
      ensures HasShape(ts[i], vs[i]) && (HasType(ts[i], vs[i]) <==> FieldWithinLimit(p, i))
    {
      FieldTyped(m, p, i);
    }
    assert PayloadWithinLimits(p) <==> FieldWithinLimit(p, 10) && FieldWithinLimit(p, 13) && FieldWithinLimit(p, 14)
                                       && (n == 19 ==> FieldWithinLimit(p, 17));
  }

  lemma HashesTyped(cs: seq<Chunk>, limit: nat)
    requires |cs| < U64
    ensures HasShape(TList(TVec(32), limit), List(ChunkVals(cs), limit))
    ensures HasType(TList(TVec(32), limit), List(ChunkVals(cs), limit)) <==> |cs| <= limit
  {
  }

  /** A decoded request is a value of its SSZ type exactly when its lists are within their limits. */
  lemma TypedIffWithinLimits(m: Memory, r: NewPayloadRequest)
    requires Decoded(r)
    ensures HasShape(TypOf(r), RequestVal(m, r))
    ensures HasType(TypOf(r), RequestVal(m, r)) <==> WithinLimits(r)
  {
    hide PayloadTyp, PayloadVal, RequestsTyp, RequestsVal, OfKind, RequestsOfKind, PayloadWithinLimits, RequestsWithinLimits,
         PayloadFits, RequestsFit, ChunkVals, HasShape, HasType;
    PayloadTyped(m, r.payload);
    RequestsTyped(r.requests);
    HashesTyped(r.versionedHashes, MAX_BLOB_COMMITMENTS_PER_BLOCK);
    HashTyped(r.parentBeaconBlockRoot);
    var ts, vs := TypOf(r).fields, RequestVal(m, r).fields;
    ContainerTyped(ts, vs);
    assert HasType(ts[1], vs[1]) <==> |r.versionedHashes| <= MAX_BLOB_COMMITMENTS_PER_BLOCK;
    assert HasType(ts[0], vs[0]) <==> PayloadWithinLimits(r.payload);
    assert HasType(ts[3], vs[3]) <==> RequestsWithinLimits(r.requests);
    assert HasType(ts[2], vs[2]) && HasShape(ts[2], vs[2]);
    assert HasShape(ts[0], vs[0]) && HasShape(ts[1], vs[1]) && HasShape(ts[3], vs[3]);
  }

  lemma HashTyped(c: Chunk)
    ensures HasType(TVec(32), Vec(c)) && HasShape(TVec(32), Vec(c))
  {
  }

  lemma {:induction false} DepthOfPow2(d: nat)
    ensures Depth(Pow2(d)) == d
  {
    if d > 0 {
      DepthOfPow2(d - 1);
      assert (Pow2(d) + 1) / 2 == Pow2(d - 1);
    }
  }

  lemma PowerIsSharp(d: nat)
    ensures Leaves(Pow2(d)) == Pow2(d) && LeafBytes(32 * Pow2(d)) == 32 * Pow2(d)
  {
    hide Depth, Pow2;
    DepthOfPow2(d);
    assert (32 * Pow2(d) + 31) / 32 == Pow2(d);
  }

  lemma Powers()
    ensures Pow2(0) == 1 && Pow2(1) == 2 && Pow2(4) == 16 && Pow2(6) == 64
    ensures Pow2(12) == 4096 && Pow2(13) == 0x2000
    ensures Pow2(19) == 0x8_0000 && Pow2(20) == 0x10_0000 && Pow2(25) == 0x200_0000
  {
    assert Pow2(4) == 16;
    assert Pow2(8) == 256;
    assert Pow2(12) == 4096;
    assert Pow2(16) == 0x1_0000;
    assert Pow2(20) == 0x10_0000;
    assert Pow2(24) == 0x100_0000;
  }

  /** All limits are powers of two in chunks. */
  lemma LimitsAreSharp()
    ensures forall n :: n in {1, 2, 16, 64, 4096, 0x2000, 0x10_0000} ==> Leaves(n) == n
    ensures forall n :: n in {32, 0x100_0000, 0x4000_0000} ==> LeafBytes(n) == n
  {
    hide Pow2, Leaves, LeafBytes;
    Powers();
    PowerIsSharp(0);
    PowerIsSharp(1);
    PowerIsSharp(4);
    PowerIsSharp(6);
    PowerIsSharp(12);
    PowerIsSharp(13);
    PowerIsSharp(19);
    PowerIsSharp(20);
    PowerIsSharp(25);
  }

  lemma ItemSharp(k: Kind)
    ensures Sharp(ItemTyp(k))
  {
  }

  lemma RequestSharp(r: NewPayloadRequest)
    requires Decoded(r)
    ensures Sharp(TypOf(r))
  {
    hide Leaves, LeafBytes, ItemTyp, OfKind, PayloadFits, RequestsFit, RequestsOfKind;
    LimitsAreSharp();
    ItemSharp(KWithdrawal);
    ItemSharp(KDeposit);
    ItemSharp(KWithdrawalRequest);
    ItemSharp(KConsolidation);
    ItemSharp(KBuilderDeposit);
    ItemSharp(KBuilderExit);
    var b := r.payload.balHtrLimit;
    forall i | 0 <= i < PayloadFieldCount(r.payload.shape)
      ensures Sharp(PayloadFieldTyp(b, i))
    {
    }
    assert Sharp(PayloadTyp(r.payload.shape, b)) && Sharp(RequestsTyp(r.requests.hasBuilderRequests));
  }

  /** The exact condition. What a root sees determines a decoded request, among all of its form, if and only if
      none of its lists is over its limit. */
  lemma BoundIffWithinLimits(m: Memory, r: NewPayloadRequest)
    requires Decoded(r)
    ensures WithinLimits(r) <==>
            forall w :: HasShape(TypOf(r), w) && Alike(RequestVal(m, r), w) ==> w == RequestVal(m, r)
  {
    hide RequestVal, RequestTyp, WithinLimits, Decoded, Alike, HasShape, HasType, Sharp;
    TypedIffWithinLimits(m, r);
    RequestSharp(r);
    TypedIffBound(TypOf(r), RequestVal(m, r));
  }

  /** Every request with a list over its limit has a different one of its form with the same root, for every hash. */
  lemma OverLimitRequest(m: Memory, r: NewPayloadRequest) returns (w: Val)
    requires Decoded(r) && !WithinLimits(r)
    ensures HasShape(TypOf(r), w) && w != RequestVal(m, r)
    ensures forall h: Hash :: Root(h, w) == Root(h, RequestVal(m, r))
  {
    hide RequestVal, RequestTyp, WithinLimits, Decoded, Alike, HasShape, HasType, Sharp, Root;
    TypedIffWithinLimits(m, r);
    RequestSharp(r);
    w := OverLimitUnbound(TypOf(r), RequestVal(m, r));
    forall h: Hash
      ensures Root(h, w) == Root(h, RequestVal(m, r))
    {
      AlikeRoots(h, RequestVal(m, r), w);
    }
  }

  /** The request of an input that was decoded. */
  ghost function RequestOf(m: Memory, s: ByteSpan): NewPayloadRequest
    requires WireInput(m, s).Some?
  {
    WireInput(m, s).value.request
  }

  /** Two decoded inputs whose requests have one form. */
  ghost predicate Comparable(m: Memory, s: ByteSpan, n: Memory, t: ByteSpan) {
    && WireInput(m, s).Some? && WireInput(n, t).Some?
    && SameForm(RequestOf(m, s), RequestOf(n, t))
  }

  lemma WireRequestDecoded(m: Memory, s: ByteSpan)
    requires WireInput(m, s).Some?
    ensures Decoded(RequestOf(m, s)) && FromSlices(m, RequestOf(m, s).requests)
  {
    hide RequestAt, WitnessAt, ConfigAt, KeysAt, TableSlice, TableOffset, OfKind, RequestsOfKind, FromSlices, ShapeOf,
         PayloadFits, RequestsFit;
    var schema := InputSchemaAt(m, s);
    var npr := TableSlice(m, s.From(2), 4, 0);
    var shape := ShapeOf(schema, ConfigAt(m, TableSlice(m, s.From(2), 4, 2), schema));
    WireInputFits(m, s);
    DecodedOfKind(m, npr, shape, schema.Amsterdam01?, BalLimit(schema));
    RequestFromSlices(m, npr, shape, schema.Amsterdam01?, BalLimit(schema));
  }

  lemma RequestFromSlices(m: Memory, s: ByteSpan, shape: PayloadShape, builder: bool, b: nat)
    ensures var r := RequestAt(m, s, shape, builder, b);
            FromSlices(m, r.requests) && r.payload.balHtrLimit in {b, MAX_BLOCK_ACCESS_LIST_BYTES}
  {
    hide FromSlices, RequestsAt, View, ReadU32, ReadU64, ByteListsAt, ItemsAt;
    EmptyFromSlices(m);
    if s.len >= 44 {
      RequestsFromSlices(m, Part(s, ReadU32(m, s.ptr + 40), s.len % U32), builder);
    }
  }

  /** Two requests of one form, as decoded, the first with lists within their limits: one root, one request or a
      collision. */
  lemma RequestBinding(h: Hash, m: Memory, q: NewPayloadRequest, n: Memory, r: NewPayloadRequest)
    requires Decoded(q) && Decoded(r) && SameForm(q, r) && WithinLimits(q)
    requires Root(h, RequestVal(m, q)) == Root(h, RequestVal(n, r))
    ensures RequestVal(m, q) == RequestVal(n, r) || Collision(h, RequestVal(m, q), RequestVal(n, r))
  {
    hide Root, RequestVal, RequestTyp, WithinLimits, Decoded, Collision, HasType, HasShape;
    TypedIffWithinLimits(m, q);
    TypedIffWithinLimits(n, r);
    OneSidedBinding(h, TypOf(q), RequestVal(m, q), RequestVal(n, r));
  }

  /** What the commitment binds, exactly, for any two decoded inputs of one form, whatever their bytes and however
      long their lists: short of a collision, they share a root if and only if their requests are alike. */
  lemma CommitmentExact(e: Env, m: Memory, s: ByteSpan, n: Memory, t: ByteSpan)
    requires Comparable(m, s, n, t)
    ensures var v, w := RequestVal(m, RequestOf(m, s)), RequestVal(n, RequestOf(n, t));
            Collision(e.h, v, w) || (GuestOutput(e, m, s).root == GuestOutput(e, n, t).root <==> Alike(v, w))
  {
    hide Root, WireInput, RequestVal, RequestTyp, Decoded, FromSlices, Collision, Alike, Accepts, HasShape, HasType, WithinLimits;
    var q, r := RequestOf(m, s), RequestOf(n, t);
    WireRequestDecoded(m, s);
    WireRequestDecoded(n, t);
    TypedIffWithinLimits(m, q);
    TypedIffWithinLimits(n, r);
    if !Collision(e.h, RequestVal(m, q), RequestVal(n, r)) {
      RootExact(e.h, TypOf(q), RequestVal(m, q), RequestVal(n, r));
    }
  }

  /** The commitment binds the request, whatever bytes it was decoded from: if the guest publishes one root for an
      input whose lists are within their limits and for any other input of its form, their requests are equal
      field by field, or two different 64-byte blocks, one hashed for each request, have one hash. */
  lemma CommitmentBinds(e: Env, m: Memory, s: ByteSpan, n: Memory, t: ByteSpan)
    requires Comparable(m, s, n, t) && WithinLimits(RequestOf(m, s))
    requires GuestOutput(e, m, s).root == GuestOutput(e, n, t).root
    ensures var v, w := RequestVal(m, RequestOf(m, s)), RequestVal(n, RequestOf(n, t));
            v == w || Collision(e.h, v, w)
  {
    hide Root, WireInput, RequestVal, WithinLimits, Decoded, FromSlices, Collision, Accepts;
    WireRequestDecoded(m, s);
    WireRequestDecoded(n, t);
    RequestBinding(e.h, m, RequestOf(m, s), n, RequestOf(n, t));
  }

  /** A well-formed input of a schema and shape has a request of that form, within its limits. */
  lemma EncodesWithinLimits(m: Memory, s: ByteSpan, schema: InputSchema, shape: PayloadShape, v: Val)
    requires Encodes(m, s, schema, shape, v)
    ensures WireInput(m, s).Some? && WithinLimits(RequestOf(m, s)) && RequestVal(m, RequestOf(m, s)) == v.fields[0]
    ensures var r := RequestOf(m, s);
            && r.payload.shape == shape && r.requests.hasBuilderRequests == schema.Amsterdam01?
            && r.payload.balHtrLimit == BalLimit(schema)
  {
    hide RequestVal, RequestTyp, ChainConfigTyp, PublicKeysTyp, WithinLimits, Decoded, FromSlices, Ser;
    EncodedRequest(m, s, schema, shape, v);
    WireRequestDecoded(m, s);
    TypedIffWithinLimits(m, RequestOf(m, s));
    assert HasType(InputTyp(schema, shape).fields[0], v.fields[0]);
  }

  lemma EncodedRequest(m: Memory, s: ByteSpan, schema: InputSchema, shape: PayloadShape, v: Val)
    requires Encodes(m, s, schema, shape, v)
    ensures WireInput(m, s).Some? && RequestVal(m, RequestOf(m, s)) == v.fields[0]
    ensures var r := RequestOf(m, s);
            && r.payload.shape == shape && r.requests.hasBuilderRequests == schema.Amsterdam01?
            && r.payload.balHtrLimit == BalLimit(schema)
  {
    hide RequestTyp, WitnessAt, ConfigAt, KeysAt, Ser, RequestVal, WitnessVal, ChainConfigVal, PublicKeyVals, RequestAt,
         ChainConfigTyp, PublicKeysTyp, TableSlice, TableOffset, ShapeSelected, ShapeOf;
    InputDecodes(m, s.From(2), schema, shape, v);
    InputParts(m, s.From(2), schema, shape, v, 0);
    SliceBound(m, s.From(2));
    var npr := TableSlice(m, s.From(2), 4, 0);
    RequestParts(m, npr, shape, schema.Amsterdam01?, BalLimit(schema), v.fields[0]);
    var decodedShape := ShapeOf(schema, ConfigAt(m, TableSlice(m, s.From(2), 4, 2), schema));
    DecodedForm(m, npr, decodedShape, schema.Amsterdam01?, BalLimit(schema));
  }

  lemma DecodedForm(m: Memory, s: ByteSpan, shape: PayloadShape, builder: bool, b: nat)
    requires s.len >= 44
    ensures var r := RequestAt(m, s, shape, builder, b);
            r.requests.hasBuilderRequests == builder && r.payload.balHtrLimit == b
  {
    hide View, ReadU32, ReadU64, ByteListsAt, ItemsAt, TableSlice;
  }

  /** For well-formed inputs of one schema and shape: the encoded requests themselves are equal. */
  lemma EncodedCommitmentBinds(e: Env, schema: InputSchema, shape: PayloadShape,
                               m: Memory, s: ByteSpan, v: Val, n: Memory, t: ByteSpan, w: Val)
    requires Encodes(m, s, schema, shape, v) && Encodes(n, t, schema, shape, w)
    requires GuestOutput(e, m, s).root == GuestOutput(e, n, t).root
    ensures v.fields[0] == w.fields[0] || Collision(e.h, v.fields[0], w.fields[0])
  {
    hide GuestOutput, WireInput, RequestVal, Encodes, WithinLimits, Collision;
    EncodesWithinLimits(m, s, schema, shape, v);
    EncodesWithinLimits(n, t, schema, shape, w);
    CommitmentBinds(e, m, s, n, t);
  }

  /** Requests that are alike have equal parent hashes. */
  lemma ParentHashCommitted(m: Memory, q: NewPayloadRequest, n: Memory, r: NewPayloadRequest)
    requires Alike(RequestVal(m, q), RequestVal(n, r))
    ensures q.payload.parentHash == r.payload.parentHash
  {
    hide RequestsVal, ChunkVals, ByteListVals, ItemVals;
    assert Alike(RequestVal(m, q).fields[0], RequestVal(n, r).fields[0]);
    var v, w := PayloadVal(m, q.payload), PayloadVal(n, r.payload);
    assert v.fields[0] == Vec(q.payload.parentHash) && w.fields[0] == Vec(r.payload.parentHash);
    assert Alike(v.fields[0], w.fields[0]);
  }

  /** The witness headers, and the parent hash the payload names; nothing for an input that is not decoded. */
  ghost function HeadersAt(m: Memory, s: ByteSpan): seq<seq<Byte>> {
    match WireInput(m, s) case None => [] case Some(si) => Contents(m, si.wit.headers)
  }

  ghost function ParentHashAt(m: Memory, s: ByteSpan): Chunk {
    match WireInput(m, s) case None => ZERO_CHUNK case Some(si) => si.request.payload.parentHash
  }

  /** The state root the guest executes an input on. */
  ghost function PreStateAt(e: Env, m: Memory, s: ByteSpan): Chunk {
    PreState(e.keccak, e.rlp, HeadersAt(m, s), ParentHashAt(m, s))
  }

  /** When the guest reports success, in the terms used below. */
  lemma SuccessIff(e: Env, m: Memory, s: ByteSpan)
    ensures GuestOutput(e, m, s).success <==>
            && WireInput(m, s).Some?
            && var si := WireInput(m, s).value;
            && var c, p := si.chainConfig, si.request.payload;
            && (c.activationBlock.Some? || c.activationTime.Some?)
            && (c.activationBlock.Some? ==> c.activationBlock.value <= p.blockNumber)
            && (c.activationTime.Some? ==> c.activationTime.value <= p.timestamp)
            && |HeadersAt(m, s)| <= 256 && Linked(e.keccak, e.rlp, HeadersAt(m, s))
            && e.execute(m, si, PreStateAt(e, m, s))
  {
    hide Root, WireInput, Linked, PreState, Contents;
  }

  /** An accepted input with the parent header among its witness headers was executed on the state root in it. */
  lemma ExecutesOnParentState(e: Env, m: Memory, s: ByteSpan, i: nat)
    requires GuestOutput(e, m, s).success && IsParent(e.keccak, HeadersAt(m, s), ParentHashAt(m, s), i)
    ensures WireInput(m, s).Some?
    ensures var header := e.rlp(HeadersAt(m, s)[i]);
            e.execute(m, WireInput(m, s).value, if header.Some? then header.value.stateRoot else Zeros(32))
  {
    hide Root, WireInput, Linked, PreState, GuestOutput, HeadersAt;
    SuccessIff(e, m, s);
    PreStateIs(e.keccak, e.rlp, HeadersAt(m, s), ParentHashAt(m, s));
  }

  /** End to end: two accepted inputs with one published root, both supplying the parent header, were executed
      from one pre-state root and on the same ancestors as far as both supply them, or one of the two hash
      functions has an explicit collision. No limit is asked of any list. */
  lemma AcceptedAgree(e: Env, m: Memory, s: ByteSpan, i: nat, n: Memory, t: ByteSpan, j: nat)
    requires Comparable(m, s, n, t) && GuestOutput(e, m, s).root == GuestOutput(e, n, t).root
    requires GuestOutput(e, m, s).success && GuestOutput(e, n, t).success
    requires IsParent(e.keccak, HeadersAt(m, s), ParentHashAt(m, s), i)
    requires IsParent(e.keccak, HeadersAt(n, t), ParentHashAt(n, t), j)
    ensures var a, b := HeadersAt(m, s), HeadersAt(n, t);
            || Collision(e.h, RequestVal(m, RequestOf(m, s)), RequestVal(n, RequestOf(n, t)))
            || HeaderCollision(e.keccak, a, b)
            || (&& PreStateAt(e, m, s) == PreStateAt(e, n, t)
                && (e.rlp(a[i]).Some? ==> PreStateAt(e, m, s) == e.rlp(a[i]).value.stateRoot)
                && forall k :: Supplied(a, i, k) && Supplied(b, j, k) ==> a[i - k] == b[j - k])
  {
    hide Root, WireInput, RequestVal, Collision, Linked, Contents, PreState, IsParent, HeaderCollision, GuestOutput, HeadersAt,
         Supplied, ValidateChainConfig, Alike;
    CommitmentExact(e, m, s, n, t);
    ParentState(e, m, s, i);
    var q, r := RequestOf(m, s), RequestOf(n, t);
    if Alike(RequestVal(m, q), RequestVal(n, r)) {
      ParentHashCommitted(m, q, n, r);
      SuccessIff(e, m, s);
      SuccessIff(e, n, t);
      WitnessBinding(e.keccak, e.rlp, HeadersAt(m, s), i, HeadersAt(n, t), j, ParentHashAt(m, s));
    }
  }

  lemma ParentState(e: Env, m: Memory, s: ByteSpan, i: nat)
    requires IsParent(e.keccak, HeadersAt(m, s), ParentHashAt(m, s), i)
    ensures e.rlp(HeadersAt(m, s)[i]).Some? ==> PreStateAt(e, m, s) == e.rlp(HeadersAt(m, s)[i]).value.stateRoot
  {
    hide WireInput, PreState, HeadersAt;
    PreStateIs(e.keccak, e.rlp, HeadersAt(m, s), ParentHashAt(m, s));
  }

  /** One root, one list of requests to hash: an input whose execution requests are within their limits and any
      other with its root feed the same flat requests to the requests hash exactly when their lists leave the same
      trailing bytes over, or there is a collision. */
  lemma RootFixesFlatRequests(e: Env, m: Memory, s: ByteSpan, n: Memory, t: ByteSpan)
    requires Comparable(m, s, n, t) && RequestsWithinLimits(RequestOf(m, s).requests)
    requires GuestOutput(e, m, s).root == GuestOutput(e, n, t).root
    ensures var q, r := RequestOf(m, s), RequestOf(n, t);
            || Collision(e.h, RequestVal(m, q), RequestVal(n, r))
            || (FlatRequests(m, q.requests) == FlatRequests(n, r.requests) <==>
                Remainders(m, q.requests) == Remainders(n, r.requests))
  {
    hide Root, WireInput, RequestVal, Collision, GuestOutput, FlatRequests, Remainders, RequestsWithinLimits,
         Decoded, FromSlices, Alike;
    CommitmentExact(e, m, s, n, t);
    var q, r := RequestOf(m, s), RequestOf(n, t);
    WireRequestDecoded(m, s);
    WireRequestDecoded(n, t);
    if Alike(RequestVal(m, q), RequestVal(n, r)) {
      RequestsCommitted(m, q, n, r);
      ListsCommitted(m, q.requests, n, r.requests);
      SlicesAgree(m, q.requests, n, r.requests);
    }
  }

  lemma RequestsCommitted(m: Memory, q: NewPayloadRequest, n: Memory, r: NewPayloadRequest)
    requires Decoded(q) && Decoded(r) && SameForm(q, r) && RequestsWithinLimits(q.requests)
    requires Alike(RequestVal(m, q), RequestVal(n, r))
    ensures RequestsVal(q.requests) == RequestsVal(r.requests)
  {
    hide PayloadVal, ChunkVals, RequestsVal, RequestsTyp, RequestsWithinLimits, RequestsOfKind, RequestsFit, HasType, HasShape;
    assert Alike(RequestVal(m, q).fields[3], RequestVal(n, r).fields[3]);
    RequestsTyped(q.requests);
    RequestsTyped(r.requests);
    TypedAlike(RequestsTyp(q.requests.hasBuilderRequests), RequestsVal(q.requests), RequestsVal(r.requests));
  }

  /** Equal values have equal lists of execution requests. */
  lemma ListsCommitted(m: Memory, q: Requests, n: Memory, r: Requests)
    requires RequestsVal(q) == RequestsVal(r) && q.hasBuilderRequests == r.hasBuilderRequests
    requires FromSlices(m, q) && FromSlices(n, r)
    ensures forall i :: 0 <= i < 5 ==> ItemVals(Lists(q)[i]) == ItemVals(Lists(r)[i])
  {
    hide ItemVals;
    var v, w := RequestsVal(q), RequestsVal(r);
    assert v.fields[0] == w.fields[0] && v.fields[1] == w.fields[1] && v.fields[2] == w.fields[2];
    if q.hasBuilderRequests {
      assert v.fields[3] == w.fields[3] && v.fields[4] == w.fields[4];
    }
  }

  /** A request too short to have its three offsets, which is decoded as the all-zero one. */
  ghost predicate ShortRequest(m: Memory, s: ByteSpan)
    requires 2 <= s.len
  {
    TableSlice(m, s.From(2), 4, 0).len < 44
  }

  lemma WireForm(m: Memory, s: ByteSpan)
    requires WireInput(m, s).Some?
    ensures ConfigAt(m, TableSlice(m, s.From(2), 4, 2), InputSchemaAt(m, s)).valid
    ensures var schema, r := InputSchemaAt(m, s), RequestOf(m, s);
            if ShortRequest(m, s) then r == ZERO_REQUEST
            else
              && r.payload.shape == ShapeOf(schema, ConfigAt(m, TableSlice(m, s.From(2), 4, 2), schema))
              && r.requests.hasBuilderRequests == schema.Amsterdam01? && r.payload.balHtrLimit == BalLimit(schema)
  {
    hide WitnessAt, ConfigAt, KeysAt, TableSlice, TableOffset, View, ReadU32, ReadU64, ByteListsAt, ItemsAt;
  }

  /** The published config tells the schemas apart by its length, and the fork by its bytes. */
  lemma ConfigFixesShape(m: Memory, d: ByteSpan, a: InputSchema, n: Memory, f: ByteSpan, b: InputSchema)
    requires ConfigAt(m, d, a).valid && ConfigAt(n, f, b).valid && d.Get(m) == f.Get(n)
    ensures a == b && ShapeOf(a, ConfigAt(m, d, a)) == ShapeOf(b, ConfigAt(n, f, b))
  {
    assert d.len == |d.Get(m)| == f.len;
    SchemaByLength(m, d, a);
    SchemaByLength(n, f, b);
    if a == b == Legacy0001 {
      ForkAt(m, d);
      ForkAt(n, f);
    }
  }

  lemma SchemaByLength(m: Memory, d: ByteSpan, schema: InputSchema)
    requires ConfigAt(m, d, schema).valid
    ensures d.len % 8 == if schema.Legacy0001? then 4 else 0
  {
    hide ReadU64, ReadU32, OptU64, DecodeBlob;
  }

  lemma ForkAt(m: Memory, d: ByteSpan)
    requires DecodeChainConfig(m, d).valid
    ensures d.len >= 20 && DecodeChainConfig(m, d).fork == FromLe(d.Get(m)[12..20])
  {
    hide ReadU32, OptU64, DecodeBlob, DecodeActivation, View;
    ViewSlice(m, d.ptr, d.len, 12, 20);
  }

  /** Equal public values come from requests of one form, unless just one of them is too short. */
  lemma PublishedFixesForm(e: Env, m: Memory, s: ByteSpan, n: Memory, t: ByteSpan)
    requires WireInput(m, s).Some? && WireInput(n, t).Some? && ShortRequest(m, s) == ShortRequest(n, t)
    requires PublicValues(GuestOutput(e, m, s)) == PublicValues(GuestOutput(e, n, t))
    ensures Comparable(m, s, n, t) && GuestOutput(e, m, s).root == GuestOutput(e, n, t).root
  {
    hide PublicValues, WireInput, ConfigAt, TableSlice, View, ShapeOf;
    PublicValuesInjective(GuestOutput(e, m, s), GuestOutput(e, n, t));
    WireForm(m, s);
    WireForm(n, t);
    EchoOfWire(e, m, s);
    EchoOfWire(e, n, t);
    ConfigFixesShape(m, TableSlice(m, s.From(2), 4, 2), InputSchemaAt(m, s), n, TableSlice(n, t.From(2), 4, 2), InputSchemaAt(n, t));
  }

  lemma EchoOfWire(e: Env, m: Memory, s: ByteSpan)
    requires WireInput(m, s).Some?
    ensures GuestOutput(e, m, s).chainConfig == TableSlice(m, s.From(2), 4, 2).Get(m)
  {
    hide Root, Accepts, RequestAt, WitnessAt, ConfigAt, KeysAt, TableSlice, TableOffset, View;
    WireForm(m, s);
    ConfigLength(m, TableSlice(m, s.From(2), 4, 2), InputSchemaAt(m, s));
  }

  /** Binding from what is published alone: one output for an input whose lists are within their limits and for any
      other means one request, or a collision, if both requests or neither are long enough to be read. */
  lemma PublishedBinds(e: Env, m: Memory, s: ByteSpan, n: Memory, t: ByteSpan)
    requires WireInput(m, s).Some? && WireInput(n, t).Some? && ShortRequest(m, s) == ShortRequest(n, t)
    requires WithinLimits(RequestOf(m, s))
    requires PublicValues(GuestOutput(e, m, s)) == PublicValues(GuestOutput(e, n, t))
    ensures var v, w := RequestVal(m, RequestOf(m, s)), RequestVal(n, RequestOf(n, t));
            v == w || Collision(e.h, v, w)
  {
    hide PublicValues, GuestOutput, WireInput, RequestVal, WithinLimits, Collision, ShortRequest, Comparable;
    PublishedFixesForm(e, m, s, n, t);
    CommitmentBinds(e, m, s, n, t);
  }
}
