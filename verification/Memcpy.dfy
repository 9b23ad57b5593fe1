/** zkvm/{sp1,zisk}/src/memcpy.cpp: memcpy for rv64, block by block; zkvm/openvm/src/memcpy.cpp: for rv32;
    zkvm/{sp1,zisk,openvm}/src/memmove.cpp. Registers a1, a2, a3 hold the source, the count and the
    destination; block labels are the ones in the assembly. */
module Memcpy {
  import opened Words
  import opened Machine

  /** The constants of one shift-merge block. */
  datatype ShiftBlock = ShiftBlock(preamble: nat, left: nat, right: nat, bound: nat, back: nat)

  const BLOCK_13 := ShiftBlock(7, 8, 56, 32, 25)
  const BLOCK_35 := ShiftBlock(6, 16, 48, 33, 26)
  const BLOCK_29 := ShiftBlock(5, 24, 40, 34, 27)
  const BLOCK_32 := ShiftBlock(4, 32, 32, 35, 28)
  const BLOCK_26 := ShiftBlock(3, 40, 24, 36, 29)
  const BLOCK_38 := ShiftBlock(2, 48, 16, 37, 30)
  const BLOCK_41 := ShiftBlock(1, 56, 8, 38, 31)

  /** .LJTI0_0, indexed by the destination's misalignment minus one. */
  const JUMP_TABLE := [BLOCK_13, BLOCK_35, BLOCK_29, BLOCK_32, BLOCK_26, BLOCK_38, BLOCK_41]

  /** The seven blocks are one scheme. */
  lemma JumpTableScheme(off: nat)
    requires 1 <= off <= 7
    ensures JUMP_TABLE[off - 1] == ShiftBlock(8 - off, 8 * off, 64 - 8 * off, 31 + off, 24 + off)
  {
  }

  /** andi with a power of two, then beqz/bnez. */
  predicate Bit(x: nat, mask: nat)
    requires mask > 0
  {
    x / mask % 2 == 1
  }

  /** What the tails rely on: the bits of a2 are the powers of two that its remainder is made of. */
  lemma BitRemainder(x: nat, mask: nat)
    requires mask in {1, 2, 4, 8, 16}
    ensures x % (2 * mask) == x % mask + if Bit(x, mask) then mask else 0
  {
  }

  /** Where the registers stand: a1 and a3 point at the next source and destination byte. */
  ghost predicate At(mc: Machine, a1: nat, a3: nat)
    reads mc
  {
    mc.Copying() && a1 == mc.src + mc.done && a3 == mc.dst + mc.done
  }

  /** .LBBmemcpy0_3: bytes until the source is aligned or none are left. */
  method AlignSource(mc: Machine, s: nat, len: nat, d: nat) returns (a1: nat, a2: nat, a3: nat)
    requires At(mc, s, d) && mc.done == 0 && mc.n == len > 0 && s % 8 != 0
    modifies mc`mem, mc`done
    ensures At(mc, a1, a3) && mc.done + a2 == mc.n && (a1 % 8 == 0 || a2 == 0)
  {
    a1, a2, a3 := s, len, d;
    var a4 := a1 + 1;
    while true
      invariant At(mc, a1, a3) && mc.done + a2 == mc.n && a2 > 0 && a4 == a1 + 1
      decreases a2
    {
      var a7 := mc.LoadByte(a1);
      var a6 := a2;
      a1 := a1 + 1;
      var t0 := a4 % 8;
      mc.StoreByte(a3, a7);
      a3 := a3 + 1;
      a2 := a2 - 1;
      if t0 == 0 { break; }
      a4 := a4 + 1;
      if a6 == 1 { break; }
    }
  }

  /** .LBBmemcpy0_19: one round of 32 bytes, source and destination aligned. */
  method AlignedRound(mc: Machine, a1: nat, a3: nat)
    requires At(mc, a1, a3) && mc.done + 32 <= mc.n && a1 % 8 == 0 && a3 % 8 == 0
    modifies mc`mem, mc`done
    ensures At(mc, a1 + 32, a3 + 32)
  {
    hide Dword, Copied, Forward;
    assert (a1 + 8) % 8 == 0 && (a1 + 16) % 8 == 0 && (a1 + 24) % 8 == 0;
    var a5 := mc.LoadDword(a1);
    var a6 := mc.LoadDword(a1 + 8);
    var a7 := mc.LoadDword(a1 + 16);
    var t0 := mc.LoadDword(a1 + 24);
    StoreFour(mc, a1, a3, a5, a6, a7, t0);
  }

  method AlignedLoop(mc: Machine, s: nat, len: nat, d: nat) returns (a1: nat, a2: nat, a3: nat)
    requires At(mc, s, d) && mc.done + len == mc.n && len >= 32 && s % 8 == 0 && d % 8 == 0
    modifies mc`mem, mc`done
    ensures At(mc, a1, a3) && mc.done + a2 == mc.n && a2 < 32 && a1 % 8 == 0 && a3 % 8 == 0
  {
    hide Copied, Forward;
    a1, a2, a3 := s, len, d;
    while true
      invariant At(mc, a1, a3) && mc.done + a2 == mc.n && a2 >= 32 && a1 % 8 == 0 && a3 % 8 == 0
      decreases a2
    {
      AlignedRound(mc, a1, a3);
      a1 := a1 + 32;
      a2 := a2 - 32;
      a3 := a3 + 32;
      if a2 <= 31 { break; }
    }
  }

  /** .LBBmemcpy0_17 to _25: both aligned; the tails read the bits of a2, which is not decremented. */
  method Aligned(mc: Machine, s: nat, len: nat, d: nat)
    requires At(mc, s, d) && mc.done + len == mc.n && d % 8 == 0 && (s % 8 == 0 || len == 0)
    modifies mc`mem, mc`done
    ensures mc.Copying() && mc.done == mc.n
  {
    hide Dword, Word, Copied, Forward;
    var a1, a2, a3 := s, len, d;
    if a2 >= 32 {
      a1, a2, a3 := AlignedLoop(mc, a1, a2, a3);
    }
    AlignedTails(mc, a1, a2, a3);
  }

  /** .LBBmemcpy0_20 and _23. */
  method AlignedTails(mc: Machine, s: nat, a2: nat, d: nat)
    requires At(mc, s, d) && mc.done + a2 == mc.n && a2 < 32 && d % 8 == 0 && (s % 8 == 0 || a2 == 0)
    modifies mc`mem, mc`done
    ensures mc.Copying() && mc.done == mc.n
  {
    hide Dword, Copied, Forward;
    var a1, a3 := s, d;
    if a2 >= 16 {
      assert (a1 + 8) % 8 == 0 && (a3 + 8) % 8 == 0;
      var a4 := mc.LoadDword(a1);
      var a5 := mc.LoadDword(a1 + 8);
      mc.StoreDword(a3, a4);
      mc.StoreDword(a3 + 8, a5);
      a3 := a3 + 16;
      a1 := a1 + 16;
    }
    AlignedDword(mc, a1, a2, a3);
  }

  /** The test of bit 8 and .LBBmemcpy0_24. */
  method AlignedDword(mc: Machine, s: nat, a2: nat, d: nat)
    requires At(mc, s, d) && mc.done + a2 % 16 == mc.n && d % 8 == 0 && (s % 8 == 0 || a2 == 0)
    modifies mc`mem, mc`done
    ensures mc.Copying() && mc.done == mc.n
  {
    hide Dword, Copied, Forward, Bit;
    var a1, a3 := s, d;
    BitRemainder(a2, 8);
    if Bit(a2, 8) {
      var a4 := mc.LoadDword(a1);
      a1 := a1 + 8;
      mc.StoreDword(a3, a4);
      a3 := a3 + 8;
    }
    AlignedWord(mc, a1, a2, a3);
  }

  lemma WordAligned(p: nat)
    requires p % 8 == 0
    ensures p % 4 == 0
  {
  }

  /** .LBBmemcpy0_22 and _25. */
  method AlignedWord(mc: Machine, s: nat, a2: nat, d: nat)
    requires At(mc, s, d) && mc.done + a2 % 8 == mc.n && d % 8 == 0 && (s % 8 == 0 || a2 == 0)
    modifies mc`mem, mc`done
    ensures mc.Copying() && mc.done == mc.n
  {
    hide Word, Copied, Forward, Bit;
    var a1, a3 := s, d;
    BitRemainder(a2, 4);
    if Bit(a2, 4) {
      WordAligned(a1);
      WordAligned(a3);
      var a4 := mc.LoadWord(a1);
      a1 := a1 + 4;
      mc.StoreWord(a3, a4);
      a3 := a3 + 4;
    }
    LastBytes(mc, a1, a2, a3);
  }

  /** .LBBmemcpy0_48 to _52: two bytes, then one. */
  method LastBytes(mc: Machine, s: nat, a2: nat, d: nat)
    requires At(mc, s, d) && mc.done + a2 % 4 == mc.n
    modifies mc`mem, mc`done
    ensures mc.Copying() && mc.done == mc.n
  {
    hide Copied, Forward;
    var a1, a3 := s, d;
    BitRemainder(a2, 2);
    BitRemainder(a2, 1);
    if Bit(a2, 2) {
      var a4 := mc.LoadByte(a1);
      var a5 := mc.LoadByte(a1 + 1);
      a1 := a1 + 2;
      mc.StoreByte(a3, a4);
      mc.StoreByte(a3 + 1, a5);
      a3 := a3 + 2;
    }
    if Bit(a2, 1) {
      var b := mc.LoadByte(a1);
      mc.StoreByte(a3, b);
    }
  }

  /** .LBBmemcpy0_44: 32 bytes, the loads running four bytes ahead of the stores. */
  method Bytes32Ahead(mc: Machine, a1: nat, a3: nat)
    requires At(mc, a1, a3) && mc.done + 32 <= mc.n
    modifies mc`mem, mc`done
    ensures At(mc, a1 + 32, a3 + 32)
  {
    hide Copied, Forward, Four;
    var b0 := mc.Load4(a1);
    var b1 := mc.Load4(a1 + 4);
    mc.Store4(a3, b0);
    b0 := mc.Load4(a1 + 8);
    mc.Store4(a3 + 4, b1);
    b1 := mc.Load4(a1 + 12);
    mc.Store4(a3 + 8, b0);
    b0 := mc.Load4(a1 + 16);
    mc.Store4(a3 + 12, b1);
    b1 := mc.Load4(a1 + 20);
    mc.Store4(a3 + 16, b0);
    b0 := mc.Load4(a1 + 24);
    mc.Store4(a3 + 20, b1);
    b1 := mc.Load4(a1 + 28);
    mc.Store4(a3 + 24, b0);
    mc.Store4(a3 + 28, b1);
  }

  /** .LBBmemcpy0_45. */
  method Bytes16Ahead(mc: Machine, a1: nat, a3: nat)
    requires At(mc, a1, a3) && mc.done + 16 <= mc.n
    modifies mc`mem, mc`done
    ensures At(mc, a1 + 16, a3 + 16)
  {
    hide Copied, Forward, Four;
    var b0 := mc.Load4(a1);
    var b1 := mc.Load4(a1 + 4);
    mc.Store4(a3, b0);
    b0 := mc.Load4(a1 + 8);
    mc.Store4(a3 + 4, b1);
    b1 := mc.Load4(a1 + 12);
    mc.Store4(a3 + 8, b0);
    mc.Store4(a3 + 12, b1);
  }

  /** .LBBmemcpy0_46. */
  method Bytes8Ahead(mc: Machine, a1: nat, a3: nat)
    requires At(mc, a1, a3) && mc.done + 8 <= mc.n
    modifies mc`mem, mc`done
    ensures At(mc, a1 + 8, a3 + 8)
  {
    hide Copied, Forward, Four;
    var b0 := mc.Load4(a1);
    var b1 := mc.Load4(a1 + 4);
    mc.Store4(a3, b0);
    mc.Store4(a3 + 4, b1);
  }

  /** .LBBmemcpy0_9 to _52, entered at _44 when 32 bytes or more are left: the tails by the bits of a2. */
  method Tails(mc: Machine, s: nat, a2: nat, d: nat)
    requires At(mc, s, d) && mc.done + a2 == mc.n && a2 < 64
    modifies mc`mem, mc`done
    ensures mc.Copying() && mc.done == mc.n
  {
    hide Copied, Forward, Bit;
    var a1, a3 := s, d;
    if a2 >= 32 {
      Bytes32Ahead(mc, a1, a3);
      a1, a3 := a1 + 32, a3 + 32;
    }
    assert At(mc, a1, a3) && mc.done + a2 % 32 == mc.n;
    BitRemainder(a2, 16);
    if Bit(a2, 16) {
      Bytes16Ahead(mc, a1, a3);
      a1, a3 := a1 + 16, a3 + 16;
    }
    assert At(mc, a1, a3) && mc.done + a2 % 16 == mc.n;
    Tails15(mc, a1, a2, a3);
  }

  method Tails15(mc: Machine, s: nat, a2: nat, d: nat)
    requires At(mc, s, d) && mc.done + a2 % 16 == mc.n
    modifies mc`mem, mc`done
    ensures mc.Copying() && mc.done == mc.n
  {
    hide Copied, Forward, Bit, Four;
    var a1, a3 := s, d;
    BitRemainder(a2, 8);
    if Bit(a2, 8) {
      Bytes8Ahead(mc, a1, a3);
      a1, a3 := a1 + 8, a3 + 8;
    }
    BitRemainder(a2, 4);
    if Bit(a2, 4) {
      var b0 := mc.Load4(a1);
      mc.Store4(a3, b0);
      a1, a3 := a1 + 4, a3 + 4;
    }
    LastBytes(mc, a1, a2, a3);
  }

  /** The preamble of a shift-merge block: the bytes of a4 that align the destination, lowest first. The
      assembly unrolls this loop. */
  method Preamble(mc: Machine, a1: nat, a3: nat, a4: bv64, count: nat)
    requires At(mc, a1, a3) && mc.done + 8 <= mc.n && 1 <= count <= 7
    requires a4 == Dword(mc.was, a1)
    modifies mc`mem, mc`done
    ensures At(mc, a1 + count, a3 + count)
  {
    hide Le64, Low, Srli, Copied, Forward;
    var j := 0;
    while j < count
      invariant j <= count && At(mc, a1 + j, a3 + j) && mc.done == old(mc.done) + j
    {
      LowOfShift(mc.was[a1..a1 + 8], j);
      mc.StoreByte(a3 + j, Low(Srli(a4, 8 * j)));
      j := j + 1;
    }
  }

  /** .LBBmemcpy0_14, _36, _30, _33, _27, _39, _42: one round of 32 bytes. a1 is 32 past the dword in a4. */
  method ShiftRound(mc: Machine, ghost off: nat, b: ShiftBlock, a1: nat, a3: nat, a4: bv64) returns (next: bv64)
    requires 1 <= off <= 7 && b == JUMP_TABLE[off - 1] && a1 % 8 == 0 && a3 % 8 == 0 && a1 >= 32
    requires At(mc, a1 - 32 + (8 - off), a3) && a1 + 8 <= mc.src + mc.n
    requires a4 == Dword(mc.was, a1 - 32)
    modifies mc`mem, mc`done
    ensures At(mc, a1 + (8 - off), a3 + 32)
    ensures next == Dword(mc.was, a1)
  {
    hide Dword, Merge, Copied, Forward, JUMP_TABLE;
    ghost var p := mc.src + mc.done;
    assert p == (a1 - 32) + 8 - off && p + 32 == a1 + (8 - off);
    assert (a1 - 24) % 8 == 0 && (a1 - 16) % 8 == 0 && (a1 - 8) % 8 == 0;
    var a7 := mc.LoadDword(a1 - 24);
    var t0 := mc.LoadDword(a1 - 16);
    var t1 := mc.LoadDword(a1 - 8);
    next := mc.LoadDword(a1);
    RoundMerges(mc.was, a1 - 32, off);
    StoreFour(mc, p, a3, Merge(b, a4, a7), Merge(b, a7, t0), Merge(b, t0, t1), Merge(b, t1, next));
  }

  /** The four stores of a round, of the 32 bytes from source address p on. */
  method StoreFour(mc: Machine, ghost p: nat, a3: nat, w0: bv64, w1: bv64, w2: bv64, w3: bv64)
    requires At(mc, p, a3) && mc.done + 32 <= mc.n && a3 % 8 == 0
    requires w0 == Dword(mc.was, p) && w1 == Dword(mc.was, p + 8)
    requires w2 == Dword(mc.was, p + 16) && w3 == Dword(mc.was, p + 24)
    modifies mc`mem, mc`done
    ensures At(mc, p + 32, a3 + 32)
  {
    hide Dword, Copied, Forward;
    assert (a3 + 8) % 8 == 0 && (a3 + 16) % 8 == 0 && (a3 + 24) % 8 == 0;
    mc.StoreDword(a3, w0);
    mc.StoreDword(a3 + 8, w1);
    mc.StoreDword(a3 + 16, w2);
    mc.StoreDword(a3 + 24, w3);
  }

  /** srli of one dword, slli of the next, or. */
  function Merge(b: ShiftBlock, w: bv64, next: bv64): bv64
    requires ByteShift(b.left) && ByteShift(b.right)
  {
    Slli(next, b.left) | Srli(w, b.right)
  }

  /** Merging the dwords at p and p + 8 gives the one at p + 8 - off. */
  lemma MergeAt(m: seq<bv8>, p: nat, off: nat)
    requires 1 <= off <= 7 && p + 16 <= |m|
    ensures ByteShift(JUMP_TABLE[off - 1].left) && ByteShift(JUMP_TABLE[off - 1].right)
    ensures Merge(JUMP_TABLE[off - 1], Dword(m, p), Dword(m, p + 8)) == Dword(m, p + 8 - off)
  {
    hide Le64, Slli, Srli;
    JumpTableScheme(off);
    MergeShift(m[p..p + 8], m[p + 8..p + 16], off);
    assert m[p..p + 8][8 - off..] + m[p + 8..p + 16][..8 - off] == m[p + 8 - off..p + 16 - off];
  }

  /** A round's four merges give the 32 bytes from q + 8 - off on. */
  lemma RoundMerges(m: seq<bv8>, q: nat, off: nat)
    requires 1 <= off <= 7 && q + 40 <= |m|
    ensures var b, p := JUMP_TABLE[off - 1], q + 8 - off;
            && ByteShift(b.left) && ByteShift(b.right)
            && Merge(b, Dword(m, q), Dword(m, q + 8)) == Dword(m, p)
            && Merge(b, Dword(m, q + 8), Dword(m, q + 16)) == Dword(m, p + 8)
            && Merge(b, Dword(m, q + 16), Dword(m, q + 24)) == Dword(m, p + 16)
            && Merge(b, Dword(m, q + 24), Dword(m, q + 32)) == Dword(m, p + 24)
  {
    hide Dword, Merge;
    MergeAt(m, q, off);
    MergeAt(m, q + 8, off);
    MergeAt(m, q + 16, off);
    MergeAt(m, q + 24, off);
  }

  /** The loop bounds are exact: with a1 32 past the dword in a4 and a2 bytes left, a block goes round again
      exactly when the round's look-ahead load, of the dword at a1, still lies inside the source. */
  lemma LookAheadExact(mc: Machine, off: nat, a1: nat, a2: nat, a3: nat)
    requires 1 <= off <= 7 && a1 >= 32 && At(mc, a1 - 32 + (8 - off), a3) && mc.done + a2 == mc.n
    ensures a2 > JUMP_TABLE[off - 1].bound <==> a1 + 8 <= mc.src + mc.n
  {
    JumpTableScheme(off);
  }

  /** The loop of a shift-merge block. */
  method ShiftLoop(mc: Machine, ghost off: nat, b: ShiftBlock, s: nat, len: nat, d: nat, a4: bv64)
    returns (a1: nat, a2: nat, a3: nat)
    requires 1 <= off <= 7 && b == JUMP_TABLE[off - 1] && s % 8 == 0 && d % 8 == 0 && s >= 32
    requires At(mc, s - 32 + (8 - off), d) && mc.done + len == mc.n && len > b.bound && a4 == Dword(mc.was, s - 32)
    modifies mc`mem, mc`done
    ensures a1 >= 32 && At(mc, a1 - 32 + (8 - off), a3) && mc.done + a2 == mc.n && a2 <= b.bound
  {
    hide Dword, Copied, Forward;
    JumpTableScheme(off);
    a1, a2, a3 := s, len, d;
    var w := a4;
    while true
      invariant a1 % 8 == 0 && a3 % 8 == 0 && a1 >= 32 && At(mc, a1 - 32 + (8 - off), a3)
      invariant mc.done + a2 == mc.n && a2 > b.bound && w == Dword(mc.was, a1 - 32)
      decreases a2
    {
      LookAheadExact(mc, off, a1, a2, a3);
      w := ShiftRound(mc, off, b, a1, a3, w);
      a2 := a2 - 32;
      a3 := a3 + 32;
      a1 := a1 + 32;
      if a2 <= b.bound { break; }
    }
  }

  /** .LBBmemcpy0_12 and the block it jumps to: at least 64 bytes, source aligned, destination off. */
  method ShiftMerge(mc: Machine, s: nat, len: nat, d: nat, a4: nat) returns (a1: nat, a2: nat, a3: nat)
    requires At(mc, s, d) && mc.done + len == mc.n && len >= 64 && s % 8 == 0 && a4 == d % 8 != 0
    modifies mc`mem, mc`done
    ensures At(mc, a1, a3) && mc.done + a2 == mc.n && a2 < 64
  {
    hide Dword, Copied, Forward;
    var b := JUMP_TABLE[a4 - 1];
    JumpTableScheme(a4);
    var w := mc.LoadDword(s);
    Preamble(mc, s, d, w, b.preamble);
    a1, a2, a3 := ShiftLoop(mc, a4, b, s + 32, len - b.preamble, d + b.preamble, w);
    a1 := a1 - b.back;
  }

  /** .LBBmemcpy0_7: the destination is not aligned; dispatch on the size. */
  method Misaligned(mc: Machine, s: nat, len: nat, d: nat, a4: nat)
    requires At(mc, s, d) && mc.done + len == mc.n && (s % 8 == 0 || len == 0) && a4 == d % 8 != 0
    modifies mc`mem, mc`done
    ensures mc.Copying() && mc.done == mc.n
  {
    var a1, a2, a3 := s, len, d;
    if a2 >= 64 {
      a1, a2, a3 := ShiftMerge(mc, a1, a2, a3, a4);
    }
    Tails(mc, a1, a2, a3);
  }

  /** memcpy for rv64im and rv64ima. */
  method MemcpyRv64(mc: Machine, dst: nat, src: nat, n: nat) returns (ret: nat)
    requires dst + n <= |mc.mem| && src + n <= |mc.mem| && Forward(dst, src, n)
    modifies mc
    ensures ret == dst && mc.mem == Copied(old(mc.mem), dst, src, n)
  {
    mc.Begin(dst, src, n);
    var a1, a2, a3 := src, n, dst;
    if a1 % 8 != 0 && a2 != 0 {
      a1, a2, a3 := AlignSource(mc, a1, a2, a3);
    }
    var a4 := a3 % 8;
    if a4 == 0 {
      Aligned(mc, a1, a2, a3);
    } else {
      Misaligned(mc, a1, a2, a3, a4);
    }
    ret := dst;
  }

  /** .Lcpy_word: words while four bytes are left. */
  method WordLoop(mc: Machine, d: nat, s: nat, len: nat) returns (a0: nat, a1: nat, a2: nat)
    requires At(mc, s, d) && mc.done + len == mc.n && d % 4 == 0 && s % 4 == 0
    modifies mc`mem, mc`done
    ensures At(mc, a1, a0) && mc.done + a2 == mc.n && a2 < 4
  {
    hide Word, Copied, Forward;
    a0, a1, a2 := d, s, len;
    while a2 >= 4
      invariant At(mc, a1, a0) && mc.done + a2 == mc.n && a0 % 4 == 0 && a1 % 4 == 0
    {
      var a5 := mc.LoadWord(a1);
      mc.StoreWord(a0, a5);
      a0 := a0 + 4;
      a1 := a1 + 4;
      a2 := a2 - 4;
    }
  }

  /** .Lcpy_byte: whatever is left. */
  method ByteLoop(mc: Machine, d: nat, s: nat, len: nat)
    requires At(mc, s, d) && mc.done + len == mc.n
    modifies mc`mem, mc`done
    ensures mc.Copying() && mc.done == mc.n
  {
    hide Copied, Forward;
    var a0, a1, a2 := d, s, len;
    while a2 != 0
      invariant At(mc, a1, a0) && mc.done + a2 == mc.n
    {
      var a4 := mc.LoadByte(a1);
      mc.StoreByte(a0, a4);
      a0 := a0 + 1;
      a1 := a1 + 1;
      a2 := a2 - 1;
    }
  }

  /** memcpy for rv32im: words while both pointers are aligned and four bytes are left, then bytes. */
  method MemcpyRv32(mc: Machine, dst: nat, src: nat, n: nat) returns (ret: nat)
    requires dst + n <= |mc.mem| && src + n <= |mc.mem| && Forward(dst, src, n)
    modifies mc
    ensures ret == dst && mc.mem == Copied(old(mc.mem), dst, src, n)
  {
    mc.Begin(dst, src, n);
    var a0, a1, a2 := dst, src, n;
    var a3 := a0;
    if a2 == 0 { return a3; }
    if a0 % 4 == 0 && a1 % 4 == 0 {
      a0, a1, a2 := WordLoop(mc, a0, a1, a2);
    }
    ByteLoop(mc, a0, a1, a2);
    ret := a3;
  }

  datatype Target = SP1 | ZisK | OpenVM

  method Memcpy(t: Target, mc: Machine, dst: nat, src: nat, n: nat) returns (ret: nat)
    requires dst + n <= |mc.mem| && src + n <= |mc.mem| && Forward(dst, src, n)
    modifies mc
    ensures ret == dst && mc.mem == Copied(old(mc.mem), dst, src, n)
  {
    match t
    case SP1 => ret := MemcpyRv64(mc, dst, src, n);
    case ZisK => ret := MemcpyRv64(mc, dst, src, n);
    case OpenVM => ret := MemcpyRv32(mc, dst, src, n);
  }

  /** memmove: whatever the overlap, the destination ends up with the old source bytes. */
  method Memmove(t: Target, mc: Machine, dest: nat, src: nat, n: nat) returns (ret: nat)
    requires dest + n <= |mc.mem| && src + n <= |mc.mem|
    modifies mc
    ensures ret == dest && mc.mem == Copied(old(mc.mem), dest, src, n)
  {
    hide Copied, Write;
    if dest <= src || dest >= src + n {
      ret := Memcpy(t, mc, dest, src, n);
      return;
    }
    var d: nat, s: nat, k: nat := dest + n, src + n, n;
    ghost var was := mc.mem;
    assert CopiedFrom(was, was, dest, src, n, n);
    while k > 0
      invariant k <= n && d == dest + k && s == src + k && was == old(mc.mem)
      invariant CopiedFrom(was, mc.mem, dest, src, n, k)
    {
      k := k - 1;
      d := d - 1;
      s := s - 1;
      StepDown(was, mc.mem, dest, src, n, k);
      var b := mc.Lbu(s);
      mc.Sb(d, b);
    }
    CopiedFromStart(was, mc.mem, dest, src, n);
    ret := dest;
  }

  /** Bytes k to n of the copy are done, working downwards. */
  ghost predicate CopiedFrom(was: seq<bv8>, mem: seq<bv8>, d: nat, s: nat, n: nat, k: nat) {
    && d + n <= |was| == |mem| && s + n <= |was| && k <= n
    && (forall i :: 0 <= i < d + k ==> mem[i] == was[i])
    && (forall i :: d + k <= i < d + n ==> mem[i] == was[i - d + s])
    && (forall i :: d + n <= i < |mem| ==> mem[i] == was[i])
  }

  /** The byte at s + k is still the old one, and storing it at d + k takes the copy one byte down. */
  lemma StepDown(was: seq<bv8>, mem: seq<bv8>, d: nat, s: nat, n: nat, k: nat)
    requires s < d && k < n && CopiedFrom(was, mem, d, s, n, k + 1)
    ensures mem[s + k] == was[s + k]
    ensures CopiedFrom(was, Write(mem, d + k, [mem[s + k]]), d, s, n, k)
  {
    var w := Write(mem, d + k, [mem[s + k]]);
    assert forall i :: 0 <= i < |w| ==> w[i] == if i == d + k then mem[s + k] else mem[i];
  }

  lemma CopiedFromStart(was: seq<bv8>, mem: seq<bv8>, d: nat, s: nat, n: nat)
    requires CopiedFrom(was, mem, d, s, n, 0)
    ensures mem == Copied(was, d, s, n)
  {
  }
}
