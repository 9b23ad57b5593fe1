/** Records of fixed size, and lists of them: what the decoders read is what was serialized. */
module FixedLists {
  import opened Bytes
  import opened Spans
  import opened Ssz
  import opened Schema
  import opened Decode

  function SumTo(sizes: seq<nat>, i: nat): nat
    requires i <= |sizes|
  {
    if i == 0 then 0 else SumTo(sizes, i - 1) + sizes[i - 1]
  }

  lemma {:induction false} VecLayout(sizes: seq<nat>, v: Val, i: nat)
    requires HasType(VecTyp(sizes), v) && i <= |sizes|
    ensures HeadLen(v.fields, i) == SumTo(sizes, i) && TailBytes(v.fields, i) == []
  {
    if i > 0 {
      VecLayout(sizes, v, i - 1);
      assert HasType(TVec(sizes[i - 1]), v.fields[i - 1]);
    }
  }

  lemma VecSize(sizes: seq<nat>, v: Val)
    requires HasType(VecTyp(sizes), v)
    ensures IsFixed(v) && |Ser(v)| == SumTo(sizes, |sizes|)
  {
    VecLayout(sizes, v, |sizes|);
    SerPartsLen(v.fields);
    forall i | 0 <= i < |sizes|
      ensures IsFixed(v.fields[i])
    {
      assert HasType(TVec(sizes[i]), v.fields[i]);
    }
  }

  /** Field j holds its share of the bytes at p. */
  ghost predicate FieldHolds(m: Memory, p: nat, sizes: seq<nat>, vs: seq<Val>, j: nat)
    requires j < |sizes| == |vs|
  {
    vs[j] == Vec(View(m, p + SumTo(sizes, j), sizes[j]))
  }

  /** Fields that all hold their shares of the bytes at p make up those bytes. */
  lemma {:induction false} VecView(m: Memory, p: nat, sizes: seq<nat>, vs: seq<Val>, i: nat)
    requires |vs| == |sizes| && i <= |sizes|
    requires forall j :: 0 <= j < |vs| ==> FieldHolds(m, p, sizes, vs, j)
    ensures HeadBytes(vs, i) == View(m, p, SumTo(sizes, i))
  {
    if i > 0 {
      VecView(m, p, sizes, vs, i - 1);
      assert FieldHolds(m, p, sizes, vs, i - 1);
      assert Head(vs, i - 1) == vs[i - 1].bytes;
      ViewJoin(m, p, SumTo(sizes, i - 1), sizes[i - 1]);
    }
  }

  /** Records of one type with one serialization are equal. */
  lemma VecInjective(sizes: seq<nat>, v: Val, w: Val)
    requires HasType(VecTyp(sizes), v) && HasType(VecTyp(sizes), w) && Ser(v) == Ser(w)
    ensures v == w
  {
    forall i | 0 <= i < |sizes|
      ensures v.fields[i] == w.fields[i]
    {
      VecField(sizes, v, i);
      VecField(sizes, w, i);
    }
  }

  lemma VecPrefix(sizes: seq<nat>, v: Val, i: nat)
    requires HasType(VecTyp(sizes), v) && i <= |sizes|
    ensures SumTo(sizes, i) <= |Ser(v)| && Ser(v)[..SumTo(sizes, i)] == HeadBytes(v.fields, i)
  {
    hide HeadBytes, HeadLen, TailBytes, HasType, SumTo;
    assert |v.fields| == |sizes| && Ser(v) == SerParts(v.fields) by { IsVec(sizes, v); }
    VecLayout(sizes, v, |sizes|);
    VecLayout(sizes, v, i);
    HeadPrefix(v.fields, i, |sizes|);
    HeadBytesLen(v.fields, i);
    assert Ser(v) == HeadBytes(v.fields, |sizes|);
  }

  lemma IsVec(sizes: seq<nat>, v: Val)
    requires HasType(VecTyp(sizes), v)
    ensures v.Container? && |v.fields| == |sizes| && Ser(v) == SerParts(v.fields)
  {
  }

  lemma VecField(sizes: seq<nat>, v: Val, i: nat)
    requires HasType(VecTyp(sizes), v) && i < |sizes|
    ensures SumTo(sizes, i) + sizes[i] <= |Ser(v)|
    ensures v.fields[i] == Vec(Ser(v)[SumTo(sizes, i)..SumTo(sizes, i) + sizes[i]])
  {
    hide Ser, TailBytes, SerParts;
    VecPrefix(sizes, v, i);
    VecPrefix(sizes, v, i + 1);
    assert HasType(TVec(sizes[i]), v.fields[i]);
    assert HeadBytes(v.fields, i + 1) == HeadBytes(v.fields, i) + v.fields[i].bytes by { VecHead(v.fields, i); }
    assert Ser(v)[..SumTo(sizes, i + 1)][SumTo(sizes, i)..] == v.fields[i].bytes;
  }

  lemma VecHead(vs: seq<Val>, i: nat)
    requires i < |vs| && vs[i].Vec?
    ensures HeadBytes(vs, i + 1) == HeadBytes(vs, i) + vs[i].bytes
  {
    assert Head(vs, i) == vs[i].bytes;
  }

  lemma SizesAddUp(k: Kind)
    ensures SumTo(ItemSizes(k), |ItemSizes(k)|) == ItemSize(k)
    ensures SumTo(ItemSizes(k), 1) == ItemSizes(k)[0]
    ensures SumTo(ItemSizes(k), 2) == ItemSizes(k)[0] + ItemSizes(k)[1]
    ensures |ItemSizes(k)| > 2 ==> SumTo(ItemSizes(k), 3) == SumTo(ItemSizes(k), 2) + ItemSizes(k)[2]
    ensures |ItemSizes(k)| > 3 ==> SumTo(ItemSizes(k), 4) == SumTo(ItemSizes(k), 3) + ItemSizes(k)[3]
  {
    var z := ItemSizes(k);
    assert SumTo(z, 1) == z[0];
    assert SumTo(z, 2) == z[0] + z[1];
    assert |z| > 2 ==> SumTo(z, 3) == SumTo(z, 2) + z[2];
    assert |z| > 3 ==> SumTo(z, 4) == SumTo(z, 3) + z[3];
    assert |z| > 4 ==> SumTo(z, 5) == SumTo(z, 4) + z[4];
  }

  lemma NoneBefore(sizes: seq<nat>)
    ensures SumTo(sizes, 0) == 0
  {
  }

  /** Field j of a decoded record was read from its place. */
  lemma FieldReads(m: Memory, k: Kind, s: ByteSpan, j: nat)
    requires s.len == ItemSize(k) && j < |ItemSizes(k)|
    ensures ItemVal(DecodeItem(m, k, s)).fields[j] ==
            Vec(View(m, s.ptr + SumTo(ItemSizes(k), j), ItemSizes(k)[j]))
  {
    hide View, ReadU64, HasType, SumTo, Le;
    SizesAddUp(k);
    assert SumTo(ItemSizes(k), 0) == 0 by { NoneBefore(ItemSizes(k)); }
    if ItemSizes(k)[j] == 8 { ReadU64Le(m, s.ptr + SumTo(ItemSizes(k), j)); }
  }

  /** Every decoded record re-serializes to exactly the bytes it was decoded from. */
  lemma ItemReserializes(m: Memory, k: Kind, s: ByteSpan)
    requires s.len == ItemSize(k)
    ensures Ser(ItemVal(DecodeItem(m, k, s))) == s.Get(m)
  {
    var v, z := ItemVal(DecodeItem(m, k, s)), ItemSizes(k);
    forall j | 0 <= j < |z|
      ensures FieldHolds(m, s.ptr, z, v.fields, j)
    {
      FieldReads(m, k, s, j);
    }
    VecView(m, s.ptr, z, v.fields, |z|);
    VecLayout(z, v, |z|);
    assert SumTo(z, |z|) == ItemSize(k) by { SizesAddUp(k); }
  }

  /** ... and decoding a serialized record returns it. */
  lemma ItemRoundTrip(m: Memory, k: Kind, s: ByteSpan, v: Val)
    requires HasType(ItemTyp(k), v) && s.Get(m) == Ser(v)
    ensures s.len == ItemSize(k) && ItemVal(DecodeItem(m, k, s)) == v
  {
    VecSize(ItemSizes(k), v);
    SizesAddUp(k);
    ItemReserializes(m, k, s);
    VecInjective(ItemSizes(k), v, ItemVal(DecodeItem(m, k, s)));
  }

  lemma {:induction false} UniformLayout(vs: seq<Val>, n: nat, i: nat)
    requires i <= |vs| && forall j :: 0 <= j < |vs| ==> IsFixed(vs[j]) && |Ser(vs[j])| == n
    ensures HeadLen(vs, i) == i * n && TailBytes(vs, i) == []
  {
    if i > 0 {
      UniformLayout(vs, n, i - 1);
    }
  }

  /** A list of n-byte elements lies in memory as that many consecutive pieces. */
  lemma UniformList(m: Memory, d: ByteSpan, vs: seq<Val>, n: nat)
    requires n > 0 && d.Get(m) == SerParts(vs)
    requires forall j :: 0 <= j < |vs| ==> IsFixed(vs[j]) && |Ser(vs[j])| == n
    ensures d.len % n == 0 && |Pieces(d, n)| == |vs|
    ensures forall i :: 0 <= i < |vs| ==> Pieces(d, n)[i].Get(m) == Ser(vs[i])
  {
    UniformLayout(vs, n, |vs|);
    SerPartsLen(vs);
    assert d.len == |vs| * n;
    DivExact(|vs|, n);
    forall i | 0 <= i < |vs|
      ensures Pieces(d, n)[i].Get(m) == Ser(vs[i])
    {
      UniformLayout(vs, n, i);
      FixedAt(m, d, vs, i);
    }
  }

  lemma DivExact(k: nat, n: nat)
    requires n > 0
    ensures (k * n) / n == k && (k * n) % n == 0
  {
    DivUnique(k, n, (k * n) / n, (k * n) % n);
  }

  lemma DivUnique(k: nat, n: nat, q: nat, r: nat)
    requires r < n && q * n + r == k * n
    ensures q == k && r == 0
  {
    var a := k - q;
    assert a * n == r;
    MulSign(a, n);
  }

  lemma MulSign(a: int, n: nat)
    ensures a >= 1 ==> a * n >= n
    ensures a <= -1 ==> a * n <= -(n as int)
  {
    if a >= 1 { assert (a - 1) * n >= 0; }
    if a <= -1 { assert (-a - 1) * n >= 0; }
  }

  /** The converse: elements that serialize to consecutive pieces of a whole span serialize to it. */
  lemma {:induction false} UniformReserializes(m: Memory, d: ByteSpan, vs: seq<Val>, n: nat, i: nat)
    requires n > 0 && |Pieces(d, n)| == |vs| && i <= |vs|
    requires forall j :: 0 <= j < |vs| ==> IsFixed(vs[j]) && Ser(vs[j]) == Pieces(d, n)[j].Get(m)
    ensures HeadBytes(vs, i) == View(m, d.ptr, i * n) && TailBytes(vs, i) == []
  {
    if i > 0 {
      UniformReserializes(m, d, vs, n, i - 1);
      assert i * n == (i - 1) * n + n;
      ViewJoin(m, d.ptr, (i - 1) * n, n);
      assert Ser(vs[i - 1]) == View(m, d.ptr + (i - 1) * n, n);
    }
  }

  lemma ItemsRoundTrip(m: Memory, d: ByteSpan, k: Kind, vs: seq<Val>)
    requires d.Get(m) == SerParts(vs) && forall i :: 0 <= i < |vs| ==> HasType(ItemTyp(k), vs[i])
    ensures ItemVals(ItemsAt(m, d, k)) == vs && d.len % ItemSize(k) == 0
  {
    SizesAddUp(k);
    forall i | 0 <= i < |vs|
      ensures IsFixed(vs[i]) && |Ser(vs[i])| == ItemSize(k)
    {
      VecSize(ItemSizes(k), vs[i]);
    }
    UniformList(m, d, vs, ItemSize(k));
    forall i | 0 <= i < |vs|
      ensures ItemVals(ItemsAt(m, d, k))[i] == vs[i]
    {
      ItemRoundTrip(m, k, Pieces(d, ItemSize(k))[i], vs[i]);
    }
  }

  /** The records decoded from a slice re-serialize to the slice, if it is a whole number of them. */
  lemma ItemsReserialize(m: Memory, d: ByteSpan, k: Kind)
    requires d.len % ItemSize(k) == 0
    ensures SerParts(ItemVals(ItemsAt(m, d, k))) == d.Get(m)
  {
    var items := ItemsAt(m, d, k);
    var vs, n := ItemVals(items), ItemSize(k);
    forall j | 0 <= j < |vs|
      ensures IsFixed(vs[j]) && Ser(vs[j]) == Pieces(d, n)[j].Get(m)
    {
      ItemReserializes(m, k, Pieces(d, n)[j]);
      VecSize(ItemSizes(k), vs[j]);
    }
    UniformReserializes(m, d, vs, n, |vs|);
    assert |vs| * n == d.len;
  }

  lemma VecListRoundTrip(m: Memory, d: ByteSpan, n: nat, vs: seq<Val>)
    requires n > 0 && d.Get(m) == SerParts(vs) && forall i :: 0 <= i < |vs| ==> HasType(TVec(n), vs[i])
    ensures d.len % n == 0 && ByteVectorVals(m, Pieces(d, n)) == vs
  {
    UniformList(m, d, vs, n);
  }
}
