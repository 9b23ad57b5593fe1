/** Lists of byte lists: the offset table cuts the data after it into consecutive slices. */
module ByteLists {
  import opened Bytes
  import opened Spans
  import opened Ssz
  import opened Schema
  import opened Decode

  /** In a container or list of variable-size elements, slice i of the table is element i. */
  lemma SliceHolds(m: Memory, s: ByteSpan, vs: seq<Val>, i: nat)
    requires i < |vs| && s.Get(m) == SerParts(vs) && s.len < U32
    requires forall j :: 0 <= j < |vs| ==> !IsFixed(vs[j])
    ensures TableOffset(m, s, |vs|, 0) == 4 * |vs| <= s.len
    ensures TableOffset(m, s, |vs|, i) <= TableOffset(m, s, |vs|, i + 1)
    ensures TableSlice(m, s, |vs|, i).Get(m) == Ser(vs[i])
  {
    hide ReadU32, SerParts, Ser, IsFixed, TableOffset, View;
    EntryHolds(m, s, vs, 0);
    EntryHolds(m, s, vs, i);
    EntryHolds(m, s, vs, i + 1);
    VarLayout(vs, |vs|);
    VarAt(m, s, vs, i);
  }

  lemma EntryHolds(m: Memory, s: ByteSpan, vs: seq<Val>, i: nat)
    requires i <= |vs| && s.Get(m) == SerParts(vs) && s.len < U32
    requires forall j :: 0 <= j < |vs| ==> !IsFixed(vs[j])
    ensures TableOffset(m, s, |vs|, i) == Offset(vs, i)
  {
    hide ReadU32, Ser, View, IsFixed;
    VarLayout(vs, i);
    if i < |vs| {
      VarAt(m, s, vs, i);
    } else {
      SerPartsLen(vs);
    }
  }

  /** An offset table of n > 0 entries that fits the data. */
  ghost predicate HasTable(m: Memory, d: ByteSpan, n: nat) {
    0 < n && 4 * n <= d.len < U32 && TableOffset(m, d, n, 0) == 4 * n
  }

  lemma TableItems(m: Memory, d: ByteSpan, n: nat)
    requires HasTable(m, d, n)
    ensures |ByteListsAt(m, d)| == n && forall i :: 0 <= i < n ==> ByteListsAt(m, d)[i] == TableSlice(m, d, n, i)
  {
    hide ReadU32;
    assert d.ptr + 4 * 0 == d.ptr;
  }

  /** For every input: slices are decoded exactly when there is a table, and as many as its first entry says. */
  lemma NonEmptyIffTable(m: Memory, d: ByteSpan)
    requires d.len < U32
    ensures ByteListsAt(m, d) != [] <==>
            4 <= d.len && 0 < ReadU32(m, d.ptr) <= d.len && ReadU32(m, d.ptr) % 4 == 0
    ensures ByteListsAt(m, d) != [] ==> HasTable(m, d, |ByteListsAt(m, d)|)
  {
    hide ReadU32, TableSlice;
    assert d.ptr + 4 * 0 == d.ptr;
  }

  lemma EmptyLists(m: Memory, d: ByteSpan)
    requires d.Get(m) == SerParts([])
    ensures ByteListsAt(m, d) == []
  {
    SerPartsLen([]);
  }

  /** Decoding a serialized list of byte strings returns it. */
  lemma ByteListsRoundTrip(m: Memory, d: ByteSpan, vs: seq<Val>, limit: nat)
    requires d.Get(m) == SerParts(vs) && d.len < U32
    requires forall i :: 0 <= i < |vs| ==> HasType(TByteList(limit), vs[i])
    ensures ByteListVals(m, ByteListsAt(m, d), limit) == vs
  {
    hide View, ReadU32, SerParts, TableSlice, Offset;
    if vs == [] {
      EmptyLists(m, d);
    } else {
      forall i | 0 <= i < |vs|
        ensures TableSlice(m, d, |vs|, i).Get(m) == vs[i].bytes && vs[i] == ByteList(vs[i].bytes, limit)
      {
        assert HasType(TByteList(limit), vs[i]);
        SliceHolds(m, d, vs, i);
      }
      SliceHolds(m, d, vs, 0);
      TableItems(m, d, |vs|);
    }
  }

  /** The entries never decrease and never pass the end of the data. */
  ghost predicate Monotone(m: Memory, d: ByteSpan, n: nat) {
    forall i :: 0 <= i < n ==> TableOffset(m, d, n, i) <= TableOffset(m, d, n, i + 1)
  }

  /** Consecutive slices from address a to address b. */
  ghost predicate Tiles(spans: seq<ByteSpan>, a: nat, b: nat) {
    && spans != []
    && spans[0].ptr == a
    && (forall i :: 0 <= i < |spans| - 1 ==> spans[i].ptr + spans[i].len == spans[i + 1].ptr)
    && spans[|spans| - 1].ptr + spans[|spans| - 1].len == b
  }

  /** A slice ends at its end entry unless the subtraction wrapped. */
  lemma SliceEnd(m: Memory, d: ByteSpan, n: nat, i: nat)
    ensures var s := TableSlice(m, d, n, i);
            s.ptr + s.len == d.ptr + TableOffset(m, d, n, i + 1) <==> TableOffset(m, d, n, i) <= TableOffset(m, d, n, i + 1)
  {
  }

  /** The decoded slices tile the data after the table exactly when the table is monotone. */
  lemma TilingIffMonotone(m: Memory, d: ByteSpan, n: nat)
    requires HasTable(m, d, n)
    ensures |ByteListsAt(m, d)| == n
    ensures Tiles(ByteListsAt(m, d), d.ptr + 4 * n, d.ptr + d.len) <==> Monotone(m, d, n)
  {
    hide ByteListsAt, ReadU32, Sub32;
    var spans := ByteListsAt(m, d);
    TableItems(m, d, n);
    if Tiles(spans, d.ptr + 4 * n, d.ptr + d.len) {
      forall i | 0 <= i < n
        ensures TableOffset(m, d, n, i) <= TableOffset(m, d, n, i + 1)
      {
        SliceEnd(m, d, n, i);
        if i < n - 1 { assert spans[i].ptr + spans[i].len == spans[i + 1].ptr; }
      }
    }
    if Monotone(m, d, n) {
      forall i | 0 <= i < n
        ensures spans[i].ptr + spans[i].len == d.ptr + TableOffset(m, d, n, i + 1)
      {
        SliceEnd(m, d, n, i);
      }
      forall i | 0 <= i < n - 1
        ensures spans[i].ptr + spans[i].len == spans[i + 1].ptr
      {
        assert spans[i + 1] == TableSlice(m, d, n, i + 1);
      }
    }
  }

  function Concat(m: Memory, spans: seq<ByteSpan>): seq<Byte> {
    if spans == [] then [] else spans[0].Get(m) + Concat(m, spans[1..])
  }

  /** Slices that tile a range hold, concatenated, exactly its bytes. */
  lemma {:induction false} TilesConcat(m: Memory, spans: seq<ByteSpan>, a: nat, b: nat)
    requires Tiles(spans, a, b)
    ensures a <= b && Concat(m, spans) == View(m, a, b - a)
    ensures forall i :: 0 <= i < |spans| ==> a <= spans[i].ptr && spans[i].ptr + spans[i].len <= b
    decreases |spans|
  {
    var rest, n := spans[1..], spans[0].len;
    if rest == [] {
      assert Concat(m, spans) == spans[0].Get(m) + [];
    } else {
      assert forall i :: 0 <= i < |rest| ==> rest[i] == spans[i + 1];
      TilesConcat(m, rest, a + n, b);
      ViewJoin(m, a, n, b - a - n);
    }
  }
}
