/** SSZ values and their serialization, as the consensus-specs define them ("Simple Serialize",
    section "Serialization"), independently of any particular container. */
module Ssz {
  import opened Bytes
  import opened Spans

  /** A value, carrying the list limits of its type. Vec covers uintN (as its little-endian bytes),
      boolean and ByteVector[N]. */
  datatype Val =
    | Vec(bytes: seq<Byte>)
    | ByteList(bytes: seq<Byte>, limit: nat)
    | List(items: seq<Val>, limit: nat)
    | Container(fields: seq<Val>)

  datatype Typ =
    | TVec(size: nat)
    | TByteList(limit: nat)
    | TList(elem: Typ, limit: nat)
    | TContainer(fields: seq<Typ>)

  ghost predicate HasType(t: Typ, v: Val)
    decreases v
  {
    match (t, v)
    case (TVec(n), Vec(b)) => |b| == n
    case (TByteList(n), ByteList(b, l)) => l == n && |b| <= n
    case (TList(e, n), List(vs, l)) =>
      l == n && |vs| <= n && forall i :: 0 <= i < |vs| ==> HasType(e, vs[i])
    case (TContainer(ts), Container(vs)) =>
      |vs| == |ts| && forall i :: 0 <= i < |vs| ==> HasType(ts[i], vs[i])
    case _ => false
  }

  /** The default value of a type: zeros and empty lists. */
  function DefaultVal(t: Typ): Val {
    match t
    case TVec(n) => Vec(Zeros(n))
    case TByteList(n) => ByteList([], n)
    case TList(_, n) => List([], n)
    case TContainer(ts) => Container(seq(|ts|, i requires 0 <= i < |ts| => DefaultVal(ts[i])))
  }

  lemma {:induction false} DefaultTyped(t: Typ)
    ensures HasType(t, DefaultVal(t))
  {
    if t.TContainer? {
      forall i | 0 <= i < |t.fields|
        ensures HasType(t.fields[i], DefaultVal(t.fields[i]))
      {
        DefaultTyped(t.fields[i]);
      }
    }
  }

  ghost predicate IsFixed(v: Val) {
    match v
    case Vec(_) => true
    case ByteList(_, _) => false
    case List(_, _) => false
    case Container(vs) => forall i :: 0 <= i < |vs| ==> IsFixed(vs[i])
  }

  ghost function Ser(v: Val): seq<Byte>
    decreases v, 0
  {
    match v
    case Vec(b) => b
    case ByteList(b, _) => b
    case List(vs, _) => SerParts(vs)
    case Container(vs) => SerParts(vs)
  }

  /** Fixed-size parts and offsets first, then the variable-size parts in order. */
  ghost function SerParts(vs: seq<Val>): seq<Byte>
    decreases vs, 4, 0
  {
    HeadBytes(vs, |vs|) + TailBytes(vs, |vs|)
  }

  /** Length of the first i fixed parts. */
  ghost function HeadLen(vs: seq<Val>, i: nat): nat
    requires i <= |vs|
    decreases vs, 0, i
  {
    if i == 0 then 0
    else HeadLen(vs, i - 1) + if IsFixed(vs[i - 1]) then |Ser(vs[i - 1])| else 4
  }

  /** The first i variable parts, concatenated. */
  ghost function TailBytes(vs: seq<Val>, i: nat): seq<Byte>
    requires i <= |vs|
    decreases vs, 0, i
  {
    if i == 0 then []
    else TailBytes(vs, i - 1) + if IsFixed(vs[i - 1]) then [] else Ser(vs[i - 1])
  }

  /** Where the variable part of element i starts. */
  ghost function Offset(vs: seq<Val>, i: nat): nat
    requires i <= |vs|
    decreases vs, 1, i
  {
    HeadLen(vs, |vs|) + |TailBytes(vs, i)|
  }

  ghost function Head(vs: seq<Val>, i: nat): seq<Byte>
    requires i < |vs|
    decreases vs, 2, i
  {
    if IsFixed(vs[i]) then Ser(vs[i]) else Le(Offset(vs, i), 4)
  }

  ghost function HeadBytes(vs: seq<Val>, i: nat): seq<Byte>
    requires i <= |vs|
    decreases vs, 3, i
  {
    if i == 0 then [] else HeadBytes(vs, i - 1) + Head(vs, i - 1)
  }

  lemma {:induction false} HeadBytesLen(vs: seq<Val>, i: nat)
    requires i <= |vs|
    ensures |HeadBytes(vs, i)| == HeadLen(vs, i)
  {
    if i > 0 {
      HeadBytesLen(vs, i - 1);
    }
  }

  lemma {:induction false} HeadPrefix(vs: seq<Val>, i: nat, j: nat)
    requires i <= j <= |vs|
    ensures HeadBytes(vs, i) <= HeadBytes(vs, j)
    decreases j
  {
    if i < j {
      HeadPrefix(vs, i, j - 1);
    }
  }

  lemma {:induction false} TailPrefix(vs: seq<Val>, i: nat, j: nat)
    requires i <= j <= |vs|
    ensures TailBytes(vs, i) <= TailBytes(vs, j)
    decreases j
  {
    if i < j {
      TailPrefix(vs, i, j - 1);
    }
  }

  lemma SerPartsLen(vs: seq<Val>)
    ensures |SerParts(vs)| == Offset(vs, |vs|)
  {
    HeadBytesLen(vs, |vs|);
  }

  /** The fixed part of element i, read back from a span that holds the serialization. */
  lemma HeadAt(m: Memory, s: ByteSpan, vs: seq<Val>, i: nat)
    requires i < |vs| && s.Get(m) == SerParts(vs)
    ensures HeadLen(vs, i) + |Head(vs, i)| == HeadLen(vs, i + 1) <= HeadLen(vs, |vs|) <= s.len
    ensures View(m, s.ptr + HeadLen(vs, i), |Head(vs, i)|) == Head(vs, i)
  {
    HeadBytesLen(vs, i);
    HeadBytesLen(vs, i + 1);
    HeadBytesLen(vs, |vs|);
    HeadPrefix(vs, i + 1, |vs|);
    var a, b := HeadLen(vs, i), HeadLen(vs, i + 1);
    ViewSlice(m, s.ptr, s.len, a, b);
    assert SerParts(vs)[..b] == HeadBytes(vs, i + 1);
    assert SerParts(vs)[a..b] == HeadBytes(vs, i + 1)[a..];
  }

  /** A fixed-size element, read back. */
  lemma FixedAt(m: Memory, s: ByteSpan, vs: seq<Val>, i: nat)
    requires i < |vs| && s.Get(m) == SerParts(vs) && IsFixed(vs[i])
    ensures HeadLen(vs, i + 1) == HeadLen(vs, i) + |Ser(vs[i])| <= s.len
    ensures View(m, s.ptr + HeadLen(vs, i), |Ser(vs[i])|) == Ser(vs[i])
  {
    HeadAt(m, s, vs, i);
  }

  /** The definitions, one element at a time. */
  lemma StartOf(vs: seq<Val>)
    ensures HeadLen(vs, 0) == 0 && TailBytes(vs, 0) == HeadBytes(vs, 0) == []
    ensures |TailBytes(vs, 0)| == 0 && Offset(vs, 0) == HeadLen(vs, |vs|)
  {
  }

  lemma StepFixed(vs: seq<Val>, i: nat)
    requires i < |vs| && IsFixed(vs[i])
    ensures HeadLen(vs, i + 1) == HeadLen(vs, i) + |Ser(vs[i])| && TailBytes(vs, i + 1) == TailBytes(vs, i)
    ensures Offset(vs, i + 1) == Offset(vs, i)
    ensures HeadBytes(vs, i + 1) == HeadBytes(vs, i) + Ser(vs[i])
  {
    hide IsFixed, Ser;
    assert Head(vs, i) == Ser(vs[i]);
  }

  lemma StepVar(vs: seq<Val>, i: nat)
    requires i < |vs| && !IsFixed(vs[i])
    ensures HeadLen(vs, i + 1) == HeadLen(vs, i) + 4 && TailBytes(vs, i + 1) == TailBytes(vs, i) + Ser(vs[i])
    ensures Offset(vs, i + 1) == Offset(vs, i) + |Ser(vs[i])|
    ensures HeadBytes(vs, i + 1) == HeadBytes(vs, i) + Le(Offset(vs, i), 4)
  {
    hide IsFixed, Ser, Le;
    assert Head(vs, i) == Le(Offset(vs, i), 4);
  }

  lemma SliceMiddle(a: seq<Byte>, b: seq<Byte>, c: seq<Byte>)
    ensures (a + b + c)[|a|..|a| + |b|] == b
  {
  }

  lemma TailAt(vs: seq<Val>, i: nat)
    requires i < |vs| && !IsFixed(vs[i])
    ensures Offset(vs, i + 1) == Offset(vs, i) + |Ser(vs[i])| <= |SerParts(vs)|
    ensures SerParts(vs)[Offset(vs, i)..Offset(vs, i + 1)] == Ser(vs[i])
  {
    hide HeadLen, HeadBytes, TailBytes, IsFixed, Ser;
    HeadBytesLen(vs, |vs|);
    StepVar(vs, i);
    TailPrefix(vs, i + 1, |vs|);
    var a, b, c := HeadBytes(vs, |vs|) + TailBytes(vs, i), Ser(vs[i]), TailBytes(vs, |vs|)[|TailBytes(vs, i + 1)|..];
    assert SerParts(vs) == a + b + c;
    SliceMiddle(a, b, c);
  }

  lemma ReadOffset(m: Memory, p: nat, x: nat)
    requires x < U32 && View(m, p, 4) == Le(x, 4)
    ensures ReadU32(m, p) == x
  {
    Pow256Values();
    ReadU32Le(m, p);
    LeInjective(ReadU32(m, p), x, 4);
  }

  /** A variable-size element: its offset entry says where it is, and it is there. */
  lemma VarAt(m: Memory, s: ByteSpan, vs: seq<Val>, i: nat)
    requires i < |vs| && s.Get(m) == SerParts(vs) && !IsFixed(vs[i]) && s.len < U32
    ensures HeadLen(vs, i + 1) == HeadLen(vs, i) + 4 <= s.len
    ensures ReadU32(m, s.ptr + HeadLen(vs, i)) == Offset(vs, i)
    ensures Offset(vs, i + 1) == Offset(vs, i) + |Ser(vs[i])| <= s.len
    ensures View(m, s.ptr + Offset(vs, i), |Ser(vs[i])|) == Ser(vs[i])
  {
    hide View, ReadU32, SerParts, Le;
    HeadAt(m, s, vs, i);
    TailAt(vs, i);
    ReadOffset(m, s.ptr + HeadLen(vs, i), Offset(vs, i));
    ViewSlice(m, s.ptr, s.len, Offset(vs, i), Offset(vs, i + 1));
  }

  lemma {:induction false} VarLayout(vs: seq<Val>, i: nat)
    requires i <= |vs| && forall j :: 0 <= j < |vs| ==> !IsFixed(vs[j])
    ensures HeadLen(vs, i) == 4 * i
  {
    if i > 0 {
      VarLayout(vs, i - 1);
    }
  }

  /** The size of the fixed part of an element, by its type; a nested container counts as variable. */
  function HeadSize(t: Typ): nat {
    if t.TVec? then t.size else 4
  }

  function HeadSum(ts: seq<Typ>, i: nat): nat
    requires i <= |ts|
  {
    if i == 0 then 0 else HeadSum(ts, i - 1) + HeadSize(ts[i - 1])
  }

  lemma {:induction false} TypedLayout(ts: seq<Typ>, vs: seq<Val>, i: nat)
    requires HasType(TContainer(ts), Container(vs)) && i <= |ts|
    requires forall j :: 0 <= j < |vs| && ts[j].TContainer? ==> !IsFixed(vs[j])
    ensures HeadLen(vs, i) == HeadSum(ts, i)
  {
    if i > 0 {
      TypedLayout(ts, vs, i - 1);
      assert HasType(ts[i - 1], vs[i - 1]);
    }
  }
}
