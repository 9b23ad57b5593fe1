/** RISC-V memory: loads and stores that trap when misaligned, and the forward copies in progress on it. */
module Machine {
  import opened Words

  /** Memory after the first k bytes of [s, s + k) have been copied to d. */
  function Copied(m: seq<bv8>, d: nat, s: nat, k: nat): (r: seq<bv8>)
    requires d + k <= |m| && s + k <= |m|
    ensures |r| == |m|
  {
    m[..d] + m[s..s + k] + m[d + k..]
  }

  /** Byte by byte: the destination has the old source bytes, all else is as it was. */
  lemma CopiedAt(m: seq<bv8>, d: nat, s: nat, k: nat)
    requires d + k <= |m| && s + k <= |m|
    ensures forall i :: 0 <= i < |m| ==> Copied(m, d, s, k)[i] == if d <= i < d + k then m[s + (i - d)] else m[i]
  {
  }

  function Write(m: seq<bv8>, a: nat, b: seq<bv8>): (r: seq<bv8>)
    requires a + |b| <= |m|
    ensures |r| == |m|
  {
    m[..a] + b + m[a + |b|..]
  }

  /** The word, the dword and the four bytes at address p. */
  function Word(m: seq<bv8>, p: nat): bv32
    requires p + 4 <= |m|
  {
    Le32(m[p..p + 4])
  }

  function Dword(m: seq<bv8>, p: nat): bv64
    requires p + 8 <= |m|
  {
    Le64(m[p..p + 8])
  }

  function Four(m: seq<bv8>, p: nat): (b: seq<bv8>)
    requires p + 4 <= |m|
    ensures |b| == 4
  {
    m[p..p + 4]
  }

  lemma BytesOfWord(m: seq<bv8>, p: nat)
    requires p + 4 <= |m|
    ensures Bytes32(Word(m, p)) == m[p..p + 4]
  {
    Bytes32OfLe(m[p..p + 4]);
  }

  lemma BytesOfDword(m: seq<bv8>, p: nat)
    requires p + 8 <= |m|
    ensures Bytes64(Dword(m, p)) == m[p..p + 8]
  {
    Bytes64OfLe(m[p..p + 8]);
  }

  /** Copying upwards is safe: the destination starts at or below the source, or past its end. */
  predicate Forward(d: nat, s: nat, n: nat) {
    d <= s || s + n <= d
  }

  lemma CopiedNothing(m: seq<bv8>, d: nat, s: nat)
    requires d <= |m| && s <= |m|
    ensures Copied(m, d, s, 0) == m
  {
    assert m[..d] + m[d..] == m;
  }

  /** Copying the next w bytes in order continues the copy. */
  lemma CopiedMore(m: seq<bv8>, d: nat, s: nat, k: nat, w: nat)
    requires d + k + w <= |m| && s + k + w <= |m|
    ensures Write(Copied(m, d, s, k), d + k, m[s + k..s + k + w]) == Copied(m, d, s, k + w)
  {
    var c := Copied(m, d, s, k);
    assert c[..d + k] == m[..d] + m[s..s + k];
    assert c[d + k + w..] == m[d + k + w..];
    assert m[s..s + k] + m[s + k..s + k + w] == m[s..s + k + w];
  }

  /** No source byte has been clobbered before it is its turn. */
  lemma SourceIntact(m: seq<bv8>, d: nat, s: nat, n: nat, k: nat, a: nat, w: nat)
    requires d + n <= |m| && s + n <= |m| && Forward(d, s, n) && k <= n
    requires s + k <= a && a + w <= s + n
    ensures Copied(m, d, s, k)[a..a + w] == m[a..a + w]
  {
    forall i | a <= i < a + w
      ensures Copied(m, d, s, k)[i] == m[i]
    {
      if i < d {
        assert Copied(m, d, s, k)[i] == m[..d][i];
      } else {
        assert i >= d + k;
        assert Copied(m, d, s, k)[i] == m[d + k..][i - d - k];
      }
    }
  }

  class Machine {
    var mem: seq<bv8>

    // The copy in progress: the memory it started from, its arguments, and how many bytes it has stored.
    ghost var was: seq<bv8>
    ghost var dst: nat
    ghost var src: nat
    ghost var n: nat
    ghost var done: nat

    constructor (mem: seq<bv8>)
      ensures this.mem == mem
    {
      this.mem := mem;
    }

    method Lbu(a: nat) returns (b: bv8)
      requires a < |mem|
      ensures b == mem[a]
    {
      b := mem[a];
    }

    method Sb(a: nat, b: bv8)
      requires a < |mem|
      modifies this`mem
      ensures mem == Write(old(mem), a, [b])
    {
      mem := mem[..a] + [b] + mem[a + 1..];
    }

    method Lw(a: nat) returns (w: bv32)
      requires a % 4 == 0 && a + 4 <= |mem|
      ensures w == Word(mem, a)
    {
      w := Le32(mem[a..a + 4]);
    }

    method Sw(a: nat, w: bv32)
      requires a % 4 == 0 && a + 4 <= |mem|
      modifies this`mem
      ensures mem == Write(old(mem), a, Bytes32(w))
    {
      mem := mem[..a] + Bytes32(w) + mem[a + 4..];
    }

    method Ld(a: nat) returns (w: bv64)
      requires a % 8 == 0 && a + 8 <= |mem|
      ensures w == Dword(mem, a)
    {
      w := Le64(mem[a..a + 8]);
    }

    method Sd(a: nat, w: bv64)
      requires a % 8 == 0 && a + 8 <= |mem|
      modifies this`mem
      ensures mem == Write(old(mem), a, Bytes64(w))
    {
      mem := mem[..a] + Bytes64(w) + mem[a + 8..];
    }

    ghost predicate Copying()
      reads this
    {
      && dst + n <= |was| && src + n <= |was| && Forward(dst, src, n)
      && done <= n && mem == Copied(was, dst, src, done)
    }

    ghost method Begin(d: nat, s: nat, len: nat)
      requires d + len <= |mem| && s + len <= |mem| && Forward(d, s, len)
      modifies this`was, this`dst, this`src, this`n, this`done
      ensures Copying() && was == mem && dst == d && src == s && n == len && done == 0
    {
      was, dst, src, n, done := mem, d, s, len, 0;
      CopiedNothing(mem, d, s);
    }

    // During a copy, every load is of source bytes whose turn to be copied is still to come, and every
    // store is of the next destination bytes: so all loads stay in [src, src + n), all stores in
    // [dst, dst + n), and what is loaded is what was there at the start.

    method LoadByte(a: nat) returns (b: bv8)
      requires Copying() && src + done <= a < src + n
      ensures b == was[a]
    {
      SourceIntact(was, dst, src, n, done, a, 1);
      assert mem[a..a + 1][0] == was[a..a + 1][0];
      b := Lbu(a);
    }

    method StoreByte(a: nat, b: bv8)
      requires Copying() && done < n && a == dst + done && b == was[src + done]
      modifies this`mem, this`done
      ensures Copying() && done == old(done) + 1
    {
      CopiedMore(was, dst, src, done, 1);
      assert was[src + done..src + done + 1] == [b];
      Sb(a, b);
      done := done + 1;
    }

    method LoadWord(a: nat) returns (w: bv32)
      requires Copying() && src + done <= a && a + 4 <= src + n && a % 4 == 0
      ensures w == Word(was, a)
    {
      SourceIntact(was, dst, src, n, done, a, 4);
      w := Lw(a);
    }

    method StoreWord(a: nat, w: bv32)
      requires Copying() && done + 4 <= n && a == dst + done && a % 4 == 0
      requires w == Word(was, src + done)
      modifies this`mem, this`done
      ensures Copying() && done == old(done) + 4
    {
      hide Copied, Write, Word, Bytes32, Forward;
      CopiedMore(was, dst, src, done, 4);
      BytesOfWord(was, src + done);
      Sw(a, w);
      done := done + 4;
    }

    method LoadDword(a: nat) returns (w: bv64)
      requires Copying() && src + done <= a && a + 8 <= src + n && a % 8 == 0
      ensures w == Dword(was, a)
    {
      hide Copied, Le64;
      SourceIntact(was, dst, src, n, done, a, 8);
      w := Ld(a);
    }

    method StoreDword(a: nat, w: bv64)
      requires Copying() && done + 8 <= n && a == dst + done && a % 8 == 0
      requires w == Dword(was, src + done)
      modifies this`mem, this`done
      ensures Copying() && done == old(done) + 8
    {
      hide Copied, Write, Dword, Bytes64, Forward;
      CopiedMore(was, dst, src, done, 8);
      BytesOfDword(was, src + done);
      Sd(a, w);
      done := done + 8;
    }

    /** Four lbu, four sb. */
    method Load4(a: nat) returns (b: seq<bv8>)
      requires Copying() && src + done <= a && a + 4 <= src + n
      ensures b == Four(was, a)
    {
      var b0 := LoadByte(a);
      var b1 := LoadByte(a + 1);
      var b2 := LoadByte(a + 2);
      var b3 := LoadByte(a + 3);
      b := [b0, b1, b2, b3];
    }

    method Store4(a: nat, b: seq<bv8>)
      requires Copying() && done + 4 <= n && a == dst + done && b == Four(was, src + done)
      modifies this`mem, this`done
      ensures Copying() && done == old(done) + 4
    {
      StoreByte(a, b[0]);
      StoreByte(a + 1, b[1]);
      StoreByte(a + 2, b[2]);
      StoreByte(a + 3, b[3]);
    }
  }
}
