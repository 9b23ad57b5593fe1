/** The execution requests are committed to twice: through the SSZ root of the decoded lists and through
    the EIP-7685 hash of the raw list bytes. Both describe the same lists. */
module RequestsCommitment {
  import opened Bytes
  import opened Spans
  import opened Ssz
  import opened Schema
  import opened Decode
  import opened FixedLists

  /** The decoded records re-serialize to the raw slice exactly when it is a whole number of them. */
  lemma ReserializesIffWhole(m: Memory, d: ByteSpan, k: Kind)
    ensures SerParts(ItemVals(ItemsAt(m, d, k))) == d.Get(m) <==> d.len % ItemSize(k) == 0
  {
    hide View, SerParts;
    var vs := ItemVals(ItemsAt(m, d, k));
    if SerParts(vs) == d.Get(m) {
      SizesAddUp(k);
      forall i | 0 <= i < |vs|
        ensures IsFixed(vs[i]) && |Ser(vs[i])| == ItemSize(k)
      {
        VecSize(ItemSizes(k), vs[i]);
      }
      UniformList(m, d, vs, ItemSize(k));
    }
    if d.len % ItemSize(k) == 0 {
      ItemsReserialize(m, d, k);
    }
  }

  /** One entry of the flat requests: the position of its type in the request order, and its bytes. */
  datatype Flat = Flat(kind: nat, data: seq<Byte>)

  function RawSlices(r: Requests): (ds: seq<ByteSpan>)
    ensures |ds| == 5
  {
    [r.rawDeposits, r.rawWithdrawals, r.rawConsolidations, r.rawBuilderDeposits, r.rawBuilderExits]
  }

  const KINDS := [KDeposit, KWithdrawalRequest, KConsolidation, KBuilderDeposit, KBuilderExit]

  function Raws(m: Memory, r: Requests): (bs: seq<seq<Byte>>)
    ensures |bs| == 5 && forall i :: 0 <= i < 5 ==> bs[i] == RawSlices(r)[i].Get(m)
  {
    seq(5, i requires 0 <= i < 5 => RawSlices(r)[i].Get(m))
  }

  /** add_req: empty lists are left out. */
  function FlatFrom(raws: seq<seq<Byte>>, i: nat): seq<Flat>
    requires i <= |raws|
    decreases |raws| - i
  {
    if i == |raws| then []
    else (if raws[i] == [] then [] else [Flat(i, raws[i])]) + FlatFrom(raws, i + 1)
  }

  function FlatRequests(m: Memory, r: Requests): seq<Flat> {
    FlatFrom(Raws(m, r), 0)
  }

  /** The order: deposits, withdrawals, consolidations, builder deposits, builder exits. */
  lemma FlatRequestsAre(m: Memory, r: Requests)
    ensures FlatRequests(m, r) == OneFlat(0, r.rawDeposits.Get(m)) + OneFlat(1, r.rawWithdrawals.Get(m)) +
                                  OneFlat(2, r.rawConsolidations.Get(m)) + OneFlat(3, r.rawBuilderDeposits.Get(m)) +
                                  OneFlat(4, r.rawBuilderExits.Get(m))
  {
    hide View;
    var raws := Raws(m, r);
    assert FlatFrom(raws, 4) == OneFlat(4, raws[4]) + FlatFrom(raws, 5);
    assert FlatFrom(raws, 3) == OneFlat(3, raws[3]) + FlatFrom(raws, 4);
    assert FlatFrom(raws, 2) == OneFlat(2, raws[2]) + FlatFrom(raws, 3);
    assert FlatFrom(raws, 1) == OneFlat(1, raws[1]) + FlatFrom(raws, 2);
    assert FlatFrom(raws, 0) == OneFlat(0, raws[0]) + FlatFrom(raws, 1);
  }

  /** A list that is not empty. */
  function OneFlat(kind: nat, data: seq<Byte>): seq<Flat> {
    if data == [] then [] else [Flat(kind, data)]
  }

  lemma {:induction false} FlatKinds(raws: seq<seq<Byte>>, i: nat)
    requires i <= |raws|
    ensures forall j :: 0 <= j < |FlatFrom(raws, i)| ==> FlatFrom(raws, i)[j].kind >= i
    decreases |raws| - i
  {
    if i < |raws| { FlatKinds(raws, i + 1); }
  }

  /** The first list and the rest can be read off the flat requests. */
  lemma FlatHead(raws: seq<seq<Byte>>, i: nat)
    requires i < |raws|
    ensures var p := FlatFrom(raws, i);
            var present := p != [] && p[0].kind == i;
            && raws[i] == (if present then p[0].data else [])
            && FlatFrom(raws, i + 1) == if present then p[1..] else p
  {
    FlatKinds(raws, i + 1);
  }

  /** Leaving out empty lists loses nothing. */
  lemma {:induction false} FlatInjective(a: seq<seq<Byte>>, b: seq<seq<Byte>>, i: nat)
    requires i <= |a| == |b| && FlatFrom(a, i) == FlatFrom(b, i)
    ensures a[i..] == b[i..]
    decreases |a| - i
  {
    hide FlatFrom;
    if i < |a| {
      FlatHead(a, i);
      FlatHead(b, i);
      FlatInjective(a, b, i + 1);
      assert a[i..] == [a[i]] + a[i + 1..] && b[i..] == [b[i]] + b[i + 1..];
    }
  }

  function Lists(r: Requests): (ls: seq<seq<Item>>)
    ensures |ls| == 5
  {
    [r.deposits, r.withdrawals, r.consolidations, r.builderDeposits, r.builderExits]
  }

  /** The lists are those decoded from the raw slices. */
  ghost predicate FromSlices(m: Memory, r: Requests) {
    && (forall i :: 0 <= i < 5 ==> Lists(r)[i] == ItemsAt(m, RawSlices(r)[i], KINDS[i]))
    && (!r.hasBuilderRequests ==> r.builderDeposits == r.builderExits == [])
  }

  lemma RequestsFromSlices(m: Memory, s: ByteSpan, builder: bool)
    ensures FromSlices(m, RequestsAt(m, s, builder))
  {
    hide TableSlice, DecodeItem;
    assert forall k :: ItemsAt(m, EMPTY_SPAN, k) == [];
  }

  lemma EmptyFromSlices(m: Memory)
    ensures FromSlices(m, ZeroRequests(false))
  {
    RequestsFromSlices(m, EMPTY_SPAN, false);
  }

  /** What is left over after the last whole record. */
  function Remainder(m: Memory, d: ByteSpan, k: Kind): (b: seq<Byte>)
    ensures |b| == d.len % ItemSize(k)
  {
    d.Get(m)[d.len - d.len % ItemSize(k)..]
  }

  function Remainders(m: Memory, r: Requests): (bs: seq<seq<Byte>>)
    ensures |bs| == 5 && forall i :: 0 <= i < 5 ==> bs[i] == Remainder(m, RawSlices(r)[i], KINDS[i])
  {
    seq(5, i requires 0 <= i < 5 => Remainder(m, RawSlices(r)[i], KINDS[i]))
  }

  lemma WholeRecords(d: ByteSpan, n: nat)
    requires n > 0
    ensures (d.len - d.len % n) / n == d.len / n && (d.len - d.len % n) % n == 0
  {
    assert d.len - d.len % n == d.len / n * n;
    DivExact(d.len / n, n);
  }

  lemma SameItems(m: Memory, d: ByteSpan, e: ByteSpan, k: Kind)
    requires d.ptr == e.ptr && d.len / ItemSize(k) == e.len / ItemSize(k)
    ensures ItemsAt(m, d, k) == ItemsAt(m, e, k)
  {
    hide DecodeItem, ItemSize;
    assert Pieces(d, ItemSize(k)) == Pieces(e, ItemSize(k));
  }

  /** A slice is its records, serialized, and the remainder. */
  lemma SliceParts(m: Memory, d: ByteSpan, k: Kind)
    ensures d.Get(m) == SerParts(ItemVals(ItemsAt(m, d, k))) + Remainder(m, d, k)
    ensures |SerParts(ItemVals(ItemsAt(m, d, k)))| == d.len - d.len % ItemSize(k)
  {
    hide SerParts, View, ItemsAt, ItemVals, ItemSize;
    var n := ItemSize(k);
    var whole := ByteSpan(d.ptr, d.len - d.len % n);
    WholeRecords(d, n);
    SameItems(m, whole, d, k);
    ItemsReserialize(m, whole, k);
    ViewSlice(m, d.ptr, d.len, 0, whole.len);
  }

  /** Two slices are equal exactly when their records and their remainders are. */
  lemma SliceAgrees(m: Memory, d: ByteSpan, n: Memory, e: ByteSpan, k: Kind)
    ensures d.Get(m) == e.Get(n) <==>
            ItemVals(ItemsAt(m, d, k)) == ItemVals(ItemsAt(n, e, k)) && Remainder(m, d, k) == Remainder(n, e, k)
  {
    hide View, SerParts, ItemsAt, Remainder;
    SliceParts(m, d, k);
    SliceParts(n, e, k);
    var v, w := ItemVals(ItemsAt(m, d, k)), ItemVals(ItemsAt(n, e, k));
    if d.Get(m) == e.Get(n) {
      var len := d.len - d.len % ItemSize(k);
      assert SerParts(v) == d.Get(m)[..len] && SerParts(w) == e.Get(n)[..len];
      assert Remainder(m, d, k) == d.Get(m)[len..] && Remainder(n, e, k) == e.Get(n)[len..];
      RecordsInjective(m, d, n, e, k);
    }
  }

  lemma RecordsInjective(m: Memory, d: ByteSpan, n: Memory, e: ByteSpan, k: Kind)
    requires SerParts(ItemVals(ItemsAt(m, d, k))) == SerParts(ItemVals(ItemsAt(n, e, k)))
    ensures ItemVals(ItemsAt(m, d, k)) == ItemVals(ItemsAt(n, e, k))
  {
    hide View, SerParts, ItemsAt;
    var v, w := ItemVals(ItemsAt(m, d, k)), ItemVals(ItemsAt(n, e, k));
    var b := SerParts(v);
    var l := (p: nat) => if p < |b| then b[p] else 0;
    var f := ByteSpan(0, |b|);
    assert f.Get(l) == b by { assert forall i :: 0 <= i < |b| ==> l(i) == b[i]; ViewOf(l, b); }
    ItemsTyped(m, d, k);
    ItemsTyped(n, e, k);
    ItemsRoundTrip(l, f, k, v);
    ItemsRoundTrip(l, f, k, w);
  }

  lemma ViewOf(m: Memory, b: seq<Byte>)
    requires forall i :: 0 <= i < |b| ==> m(i) == b[i]
    ensures View(m, 0, |b|) == b
  {
  }

  lemma ItemsTyped(m: Memory, d: ByteSpan, k: Kind)
    ensures forall i :: 0 <= i < |ItemVals(ItemsAt(m, d, k))| ==> HasType(ItemTyp(k), ItemVals(ItemsAt(m, d, k))[i])
  {
  }

  /** The flat requests are equal exactly when the lists are, and what each slice leaves over. */
  lemma SlicesAgree(m: Memory, q: Requests, n: Memory, r: Requests)
    requires FromSlices(m, q) && FromSlices(n, r)
    ensures FlatRequests(m, q) == FlatRequests(n, r) <==>
            && (forall i :: 0 <= i < 5 ==> ItemVals(Lists(q)[i]) == ItemVals(Lists(r)[i]))
            && Remainders(m, q) == Remainders(n, r)
  {
    hide ItemsAt, ItemVals, View, RawSlices, Lists, Remainder;
    forall i | 0 <= i < 5
      ensures Raws(m, q)[i] == Raws(n, r)[i] <==>
              ItemVals(Lists(q)[i]) == ItemVals(Lists(r)[i]) && Remainders(m, q)[i] == Remainders(n, r)[i]
    {
      SliceAgrees(m, RawSlices(q)[i], n, RawSlices(r)[i], KINDS[i]);
    }
    if FlatRequests(m, q) == FlatRequests(n, r) {
      FlatInjective(Raws(m, q), Raws(n, r), 0);
      assert Raws(m, q)[0..] == Raws(m, q) && Raws(n, r)[0..] == Raws(n, r);
      assert Remainders(m, q) == Remainders(n, r);
    }
    if (forall i :: 0 <= i < 5 ==> ItemVals(Lists(q)[i]) == ItemVals(Lists(r)[i])) && Remainders(m, q) == Remainders(n, r) {
      assert Raws(m, q) == Raws(n, r);
    }
  }

  /** For all bytes: two decoded request containers feed the same flat requests to the requests hash exactly
      when they have the same SSZ lists and the same bytes left over after the last whole record of each. */
  lemma CommitmentsAgree(m: Memory, s: ByteSpan, n: Memory, t: ByteSpan, builder: bool)
    ensures var q, r := RequestsAt(m, s, builder), RequestsAt(n, t, builder);
            FlatRequests(m, q) == FlatRequests(n, r) <==>
            && (forall i :: 0 <= i < 5 ==> ItemVals(Lists(q)[i]) == ItemVals(Lists(r)[i]))
            && Remainders(m, q) == Remainders(n, r)
  {
    hide RequestsAt, FromSlices, FlatRequests, Remainders, Lists;
    RequestsFromSlices(m, s, builder);
    RequestsFromSlices(n, t, builder);
    SlicesAgree(m, RequestsAt(m, s, builder), n, RequestsAt(n, t, builder));
  }

  /** Five offsets of 20, then sevens. */
  function Sample(): Memory {
    (p: nat) => if p < 20 then if p % 4 == 0 then 20 else 0 else 7
  }

  lemma SampleSlices(n: nat)
    requires 20 <= n < 256
    ensures RawSlices(RequestsAt(Sample(), ByteSpan(0, n), true)) ==
            [ByteSpan(20, 0), ByteSpan(20, 0), ByteSpan(20, 0), ByteSpan(20, 0), ByteSpan(20, n - 20)]
  {
    hide ItemsAt, ReadU32;
    forall i | 0 <= i < 5
      ensures ReadU32(Sample(), 4 * i) == 20
    {
      SampleOffset(i);
    }
  }

  lemma SampleOffset(i: nat)
    requires i < 5
    ensures ReadU32(Sample(), 4 * i) == 20
  {
    assert View(Sample(), 4 * i, 4) == Le(20, 4);
    ReadOffset(Sample(), 4 * i, 20);
  }

  /** The remainders matter: one stray byte after the table leaves all lists empty, and enters the hash. */
  lemma StrayByte()
    ensures var q, r := RequestsAt(Sample(), ByteSpan(0, 20), true), RequestsAt(Sample(), ByteSpan(0, 21), true);
            && Lists(q) == Lists(r) == [[], [], [], [], []]
            && FlatRequests(Sample(), q) == [] && FlatRequests(Sample(), r) == [Flat(4, [7])]
  {
    hide RequestsAt, RawSlices;
    var m := Sample();
    var q, r := RequestsAt(m, ByteSpan(0, 20), true), RequestsAt(m, ByteSpan(0, 21), true);
    SampleSlices(20);
    SampleSlices(21);
    RequestsFromSlices(m, ByteSpan(0, 20), true);
    RequestsFromSlices(m, ByteSpan(0, 21), true);
    assert View(m, 20, 1) == [7];
    assert Raws(m, q) == [[], [], [], [], []];
    assert Raws(m, r) == [[], [], [], [], [7]];
  }
}
