/** Guest memory and ByteSpan, the non-owning view the decoders work on. */
module Spans {
  import opened Bytes

  /** Memory as the decoders see it: whatever byte lies at each address. Total, so that a read
      through a malformed offset has a result, though an arbitrary one. */
  type Memory = nat -> Byte

  /** The n cells at address p. */
  function View<T>(m: nat -> T, p: nat, n: nat): (v: seq<T>)
    ensures |v| == n
  {
    seq(n, (i: nat) => m(p + i))
  }

  lemma ViewSlice<T>(m: nat -> T, p: nat, n: nat, a: nat, b: nat)
    requires a <= b <= n
    ensures View(m, p, n)[a..b] == View(m, p + a, b - a)
  {
    forall i | 0 <= i < b - a
      ensures View(m, p, n)[a..b][i] == View(m, p + a, b - a)[i]
    {
      assert p + (a + i) == p + a + i;
    }
  }

  lemma ViewJoin<T>(m: nat -> T, p: nat, a: nat, b: nat)
    ensures View(m, p, a) + View(m, p + a, b) == View(m, p, a + b)
  {
  }

  function ReadU32(m: Memory, p: nat): (x: nat)
    ensures x < U32
  {
    ReadBound(m, p);
    FromLe(View(m, p, 4))
  }

  function ReadU64(m: Memory, p: nat): u64 {
    ReadBound(m, p);
    FromLe(View(m, p, 8))
  }

  lemma ReadBound(m: Memory, p: nat)
    ensures FromLe(View(m, p, 4)) < U32 && FromLe(View(m, p, 8)) < U64
  {
    Pow256Values();
    LeOfFromLe(View(m, p, 4));
    LeOfFromLe(View(m, p, 8));
  }

  lemma ReadU32Le(m: Memory, p: nat)
    ensures Le(ReadU32(m, p), 4) == View(m, p, 4)
  {
    LeOfFromLe(View(m, p, 4));
  }

  lemma ReadU64Le(m: Memory, p: nat)
    ensures Le(ReadU64(m, p), 8) == View(m, p, 8)
  {
    LeOfFromLe(View(m, p, 8));
  }

  datatype ByteSpan = ByteSpan(ptr: nat, len: nat) {
    function Slice(off: nat, n: nat): ByteSpan {
      ByteSpan(ptr + off, n)
    }

    function From(off: nat): ByteSpan
      requires off <= len
    {
      ByteSpan(ptr + off, len - off)
    }

    function Get(m: Memory): (v: seq<Byte>)
      ensures |v| == len
    {
      View(m, ptr, len)
    }
  }

  const EMPTY_SPAN := ByteSpan(0, 0)
}
