/** Byte strings, 32-byte chunks and little-endian integers. */
module Bytes {

  type Byte = b: nat | b < 256

  type Chunk = c: seq<Byte> | |c| == 32 witness Zeros(32)

  const U32: nat := 0x1_0000_0000
  const U64: nat := 0x1_0000_0000_0000_0000

  type u64 = x: nat | x < U64
  type Bytes20 = s: seq<Byte> | |s| == 20 witness Zeros(20)
  type Bytes48 = s: seq<Byte> | |s| == 48 witness Zeros(48)
  type Bytes96 = s: seq<Byte> | |s| == 96 witness Zeros(96)
  type Bytes256 = s: seq<Byte> | |s| == 256 witness Zeros(256)

  function Zeros(n: nat): (z: seq<Byte>)
    ensures |z| == n
  {
    seq(n, _ => 0)
  }

  const ZERO_CHUNK: Chunk := Zeros(32)

  /** The low k bytes of n, least significant first. */
  function Le(n: nat, k: nat): (s: seq<Byte>)
    ensures |s| == k
  {
    if k == 0 then [] else [n % 256] + Le(n / 256, k - 1)
  }

  function FromLe(s: seq<Byte>): nat {
    if s == [] then 0 else s[0] + 256 * FromLe(s[1..])
  }

  function Pow256(k: nat): (p: nat)
    ensures p > 0
  {
    if k == 0 then 1 else 256 * Pow256(k - 1)
  }

  lemma Pow256Values()
    ensures Pow256(4) == U32 && Pow256(8) == U64
  {
    assert Pow256(2) == 65536;
    assert Pow256(4) == 65536 * 65536;
    assert Pow256(6) == 65536 * 65536 * 65536;
  }

  lemma {:induction false} FromLeOfLe(n: nat, k: nat)
    requires n < Pow256(k)
    ensures FromLe(Le(n, k)) == n
  {
    if k > 0 {
      FromLeOfLe(n / 256, k - 1);
      assert Le(n, k)[1..] == Le(n / 256, k - 1);
    }
  }

  lemma {:induction false} LeOfFromLe(s: seq<Byte>)
    ensures FromLe(s) < Pow256(|s|)
    ensures Le(FromLe(s), |s|) == s
  {
    if s != [] {
      LeOfFromLe(s[1..]);
      assert FromLe(s) % 256 == s[0] && FromLe(s) / 256 == FromLe(s[1..]);
      assert [s[0]] + s[1..] == s;
    }
  }

  /** Equal encodings of numbers that fit come from equal numbers. */
  lemma LeInjective(a: nat, b: nat, k: nat)
    requires a < Pow256(k) && b < Pow256(k) && Le(a, k) == Le(b, k)
    ensures a == b
  {
    FromLeOfLe(a, k);
    FromLeOfLe(b, k);
  }

  lemma {:induction false} LeOfZero(k: nat)
    ensures Le(0, k) == Zeros(k)
  {
    if k > 0 {
      LeOfZero(k - 1);
      assert [0] + Zeros(k - 1) == Zeros(k);
    }
  }

  /** Widening the encoding of a number that already fits appends zero bytes. */
  lemma {:induction false} LeWiden(n: nat, k: nat, z: nat)
    requires n < Pow256(k)
    ensures Le(n, k + z) == Le(n, k) + Zeros(z)
  {
    if k == 0 {
      LeOfZero(z);
      assert Le(0, 0) + Zeros(z) == Zeros(z);
    } else {
      LeWiden(n / 256, k - 1, z);
      assert Le(n, k) + Zeros(z) == [n % 256] + (Le(n / 256, k - 1) + Zeros(z));
    }
  }

  /** uint32_t subtraction: wraps modulo 2^32. */
  function Sub32(a: nat, b: nat): (d: nat)
    ensures d < U32
    ensures b <= a < U32 ==> d == a - b
  {
    (a as int - b as int) % U32
  }
}
