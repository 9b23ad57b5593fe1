/** zkvm/openvm/src/openvm_runtime.cpp and zkvm/zisk: output bytes packed into little-endian words, and
    the agreement of the three runtimes. */
module WordOutput {
  import opened Words
  import Spans
  import Sp1Output

  function ZeroBytes(n: nat): (z: seq<bv8>)
    ensures |z| == n
  {
    seq(n, _ => 0)
  }

  /** Four bytes from position i on, zero-padded past the end. */
  function FourAt(b: seq<bv8>, i: nat): (w: seq<bv8>)
    requires i <= |b|
    ensures |w| == 4
  {
    if i + 4 <= |b| then b[i..i + 4] else b[i..] + ZeroBytes(4 - (|b| - i))
  }

  /** The words a byte string is published as. */
  function PackWords(b: seq<bv8>): (ws: seq<bv32>)
    ensures |ws| == (|b| + 3) / 4
  {
    seq((|b| + 3) / 4, (i: nat) requires 4 * i < |b| => Le32(FourAt(b, 4 * i)))
  }

  lemma FullWord(b: seq<bv8>, i: nat)
    requires 4 * i + 4 <= |b|
    ensures PackWords(b)[i] == Le32(b[4 * i..4 * i + 4])
  {
    hide Le32;
  }

  lemma LastWord(b: seq<bv8>, i: nat)
    requires 4 * i < |b| < 4 * i + 4
    ensures PackWords(b)[i] == Le32(b[4 * i..] + ZeroBytes(4 - (|b| - 4 * i)))
  {
    hide Le32;
  }

  function Unpack(ws: seq<bv32>): (b: seq<bv8>)
    ensures |b| == 4 * |ws|
  {
    if ws == [] then [] else Unpack(ws[..|ws| - 1]) + Bytes32(ws[|ws| - 1])
  }

  lemma {:induction false} UnpackPrefix(b: seq<bv8>, k: nat)
    requires 4 * k < |b| + 4
    ensures Unpack(PackWords(b)[..k]) == (b + ZeroBytes(4 * |PackWords(b)| - |b|))[..4 * k]
  {
    hide Le32, Bytes32;
    var p := b + ZeroBytes(4 * |PackWords(b)| - |b|);
    if k > 0 {
      var ws := PackWords(b)[..k];
      UnpackPrefix(b, k - 1);
      assert ws[..k - 1] == PackWords(b)[..k - 1];
      assert ws[k - 1] == Le32(FourAt(b, 4 * (k - 1)));
      Bytes32OfLe(FourAt(b, 4 * (k - 1)));
      assert FourAt(b, 4 * (k - 1)) == p[4 * (k - 1)..4 * k];
      assert p[..4 * (k - 1)] + p[4 * (k - 1)..4 * k] == p[..4 * k];
    }
  }

  /** Unpacking the words gives the bytes back, zero-padded to a whole word. */
  lemma PackRoundTrip(b: seq<bv8>)
    ensures Unpack(PackWords(b)) == b + ZeroBytes(4 * |PackWords(b)| - |b|)
  {
    UnpackPrefix(b, |PackWords(b)|);
    assert PackWords(b)[..|PackWords(b)|] == PackWords(b);
  }

  function ShiftByte(x: bv8, j: nat): bv32
    requires j < 4
  {
    match j
    case 0 => x as bv32
    case 1 => x as bv32 << 8
    case 2 => x as bv32 << 16
    case _ => x as bv32 << 24
  }

  function Or32(a: bv32, b: bv32): bv32 {
    a | b
  }

  /** OR-ing in the next byte. */
  lemma OrByte(p: seq<bv8>, x: bv8)
    requires |p| < 4
    ensures Or32(Le32(p + ZeroBytes(4 - |p|)), ShiftByte(x, |p|)) == Le32(p + [x] + ZeroBytes(3 - |p|))
  {
    hide Le32, ShiftByte, Or32;
    var q, r := p + ZeroBytes(4 - |p|), p + [x] + ZeroBytes(3 - |p|);
    if |p| == 0 {
      assert q == [0, 0, 0, 0] && r == [x, 0, 0, 0];
      Or0(x);
    } else if |p| == 1 {
      assert q == [p[0], 0, 0, 0] && r == [p[0], x, 0, 0];
      Or1(p[0], x);
    } else if |p| == 2 {
      assert q == [p[0], p[1], 0, 0] && r == [p[0], p[1], x, 0];
      Or2(p[0], p[1], x);
    } else {
      assert q == [p[0], p[1], p[2], 0] && r == [p[0], p[1], p[2], x];
      Or3(p[0], p[1], p[2], x);
    }
  }

  lemma Or0(x: bv8)
    ensures Or32(Le32([0, 0, 0, 0]), ShiftByte(x, 0)) == Le32([x, 0, 0, 0])
  {
  }

  lemma Or1(a: bv8, x: bv8)
    ensures Or32(Le32([a, 0, 0, 0]), ShiftByte(x, 1)) == Le32([a, x, 0, 0])
  {
  }

  lemma Or2(a: bv8, b: bv8, x: bv8)
    ensures Or32(Le32([a, b, 0, 0]), ShiftByte(x, 2)) == Le32([a, b, x, 0])
  {
  }

  lemma Or3(a: bv8, b: bv8, c: bv8, x: bv8)
    ensures Or32(Le32([a, b, c, 0]), ShiftByte(x, 3)) == Le32([a, b, c, x])
  {
  }

  lemma ZeroWord()
    ensures Le32([] + ZeroBytes(4)) == 0
  {
    assert [] + ZeroBytes(4) == [0, 0, 0, 0];
  }

  function Take(b: seq<bv8>, n: nat): seq<bv8> {
    if |b| <= n then b else b[..n]
  }

  /** A runtime that buffers output and publishes it as words when the guest returns. */
  class WordRuntime {
    const capacity: nat
    const buf: array<bv8>
    var len: nat
    const slots: array<bv32>
    var slot: nat

    ghost predicate Valid()
      reads this, buf, slots
    {
      buf.Length == capacity && len <= capacity && 4 * slots.Length >= capacity
    }

    ghost function Buffered(): seq<bv8>
      requires Valid()
      reads this, buf, slots
    {
      buf[..len]
    }

    /** OpenVM buffers 256 bytes, ZisK 1024; all published words start out zero. */
    constructor (capacity: nat)
      requires capacity % 4 == 0
      ensures Valid() && Buffered() == [] && this.capacity == capacity && slot == 0
      ensures slots.Length == capacity / 4 && slots[..] == seq(capacity / 4, _ => 0)
      ensures fresh(buf) && fresh(slots)
    {
      this.capacity := capacity;
      buf := new bv8[capacity](_ => 0);
      slots := new bv32[capacity / 4](_ => 0);
      len, slot := 0, 0;
    }

    /** Both runtimes append as much as fits. */
    method WriteOutput(output: seq<bv8>)
      requires Valid()
      modifies this`len, buf
      ensures Valid() && Buffered() == Take(old(Buffered()) + output, capacity)
      ensures |old(Buffered())| + |output| <= capacity ==> Buffered() == old(Buffered()) + output
      ensures |old(Buffered())| + |output| > capacity ==>
                Buffered() == old(Buffered()) + output[..capacity - |old(Buffered())|]
    {
      var n := |output|;
      if len + n > capacity { n := capacity - len; }
      var i := 0;
      while i < n
        invariant i <= n && len == old(len) && buf[..len + i] == old(buf[..len]) + output[..i]
      {
        buf[len + i] := output[i];
        i := i + 1;
      }
      len := len + n;
    }

    /** The inner loop of OpenVM's flush: word i, accumulated byte by byte. */
    method WordAt(i: nat) returns (word: bv32)
      requires Valid() && 4 * i < len
      ensures word == PackWords(Buffered())[i]
    {
      hide Le32, ShiftByte, Or32;
      ghost var b := Buffered();
      word := 0;
      assert Le32(b[4 * i..4 * i] + ZeroBytes(4)) == 0 by { ZeroWord(); }
      var n := if len - i * 4 < 4 then len - i * 4 else 4;
      var j := 0;
      while j < n
        invariant j <= n && word == Le32(b[4 * i..4 * i + j] + ZeroBytes(4 - j))
      {
        OrByte(b[4 * i..4 * i + j], buf[i * 4 + j]);
        assert b[4 * i..4 * i + j] + [b[4 * i + j]] == b[4 * i..4 * i + (j + 1)];
        word := Or32(word, ShiftByte(buf[i * 4 + j], j));
        j := j + 1;
      }
      assert b[4 * i..4 * i + n] + ZeroBytes(4 - n) == FourAt(b, 4 * i);
    }

    /** OpenVM's zkvm_io_flush: each word is revealed at its index. */
    method FlushOpenVm()
      requires Valid()
      modifies slots
      ensures Valid() && slots[..] == PackWords(Buffered()) + old(slots[|PackWords(Buffered())|..])
    {
      hide PackWords;
      ghost var b := Buffered();
      var i := 0;
      while i * 4 < len
        invariant i <= |PackWords(b)|
        invariant forall k :: 0 <= k < i ==> slots[k] == PackWords(b)[k]
        invariant forall k :: i <= k < slots.Length ==> slots[k] == old(slots[k])
      {
        var word := WordAt(i);
        slots[i] := word;
        i := i + 1;
      }
    }

    /** zisk_set_output at the running slot counter. */
    method SetOutput(word: bv32)
      requires Valid() && slot < slots.Length
      modifies this`slot, slots
      ensures Valid() && slot == old(slot) + 1 && slots[old(slot)] == word
      ensures forall k :: 0 <= k < slots.Length && k != old(slot) ==> slots[k] == old(slots[k])
    {
      slots[slot] := word;
      slot := slot + 1;
    }

    /** ZisK's zkvm_io_flush: full words first, then the remaining bytes in a zeroed word. */
    method FlushZisk()
      requires Valid() && slot == 0
      modifies this`slot, slots
      ensures Valid() && slot == |PackWords(Buffered())|
      ensures slots[..] == PackWords(Buffered()) + old(slots[|PackWords(Buffered())|..])
    {
      hide Le32, PackWords;
      ghost var b := Buffered();
      var i := 0;
      while i + 4 <= len
        invariant Valid() && i == 4 * slot && i <= len && b == buf[..len]
        invariant forall k :: 0 <= k < slot ==> slots[k] == PackWords(b)[k]
        invariant forall k :: slot <= k < slots.Length ==> slots[k] == old(slots[k])
      {
        FullWord(b, slot);
        assert b[i..i + 4] == buf[i..i + 4] by { assert forall k :: i <= k < i + 4 ==> b[k] == buf[k]; }
        SetOutput(Le32(buf[i..i + 4]));
        i := i + 4;
      }
      if i < len {
        LastWord(b, slot);
        assert b[i..] == buf[i..len] by { assert forall k :: i <= k < len ==> b[k] == buf[k]; }
        SetOutput(Le32(buf[i..len] + ZeroBytes(4 - (len - i))));
      }
    }
  }

  function Joined(writes: seq<seq<bv8>>): seq<bv8> {
    if writes == [] then [] else Joined(writes[..|writes| - 1]) + writes[|writes| - 1]
  }

  lemma {:induction false} JoinedPrefix(writes: seq<seq<bv8>>, i: nat)
    requires i <= |writes|
    ensures |Joined(writes[..i])| <= |Joined(writes)|
    decreases |writes| - i
  {
    if i < |writes| {
      JoinedPrefix(writes, i + 1);
      assert writes[..i + 1][..i] == writes[..i];
    } else {
      assert writes[..i] == writes;
    }
  }

  const MAX_PUBLIC_VALUES_SIZE := 256

  /** The same writes on all three runtimes: OpenVM's revealed words and ZisK's slots are one word sequence,
      which unpacks to the concatenation of the writes, and that concatenation is what SP1 buffered. */
  method RunAll(writes: seq<seq<bv8>>, mem: nat -> bv8, heapStart: nat)
    returns (openvm: seq<bv32>, zisk: seq<bv32>, sp1: seq<bv8>)
    requires |Joined(writes)| <= MAX_PUBLIC_VALUES_SIZE
    ensures |openvm| == 64 && openvm == zisk && sp1 == Joined(writes)
    ensures PackWords(sp1) <= openvm && forall i :: |PackWords(sp1)| <= i < 64 ==> openvm[i] == 0
    ensures Unpack(PackWords(sp1)) == sp1 + ZeroBytes(4 * |PackWords(sp1)| - |sp1|)
  {
    hide PackWords, Unpack, Joined;
    var o := new WordRuntime(256);
    var z := new WordRuntime(1024);
    var s := new Sp1Output.Sp1(mem, heapStart);
    WriteAll(writes, o, z, s);
    PackRoundTrip(Joined(writes));
    o.FlushOpenVm();
    z.FlushZisk();
    openvm := o.slots[..];
    zisk := z.slots[..64];
    sp1 := Spans.View(s.mem, s.pvBuf, s.pvLen);
  }

  method WriteAll(writes: seq<seq<bv8>>, o: WordRuntime, z: WordRuntime, s: Sp1Output.Sp1)
    requires |Joined(writes)| <= MAX_PUBLIC_VALUES_SIZE
    requires o.Valid() && z.Valid() && s.Valid() && o != z && o.buf != z.buf && o.slots != z.slots
    requires o.capacity == 256 && z.capacity == 1024 && o.Buffered() == z.Buffered() == s.log == []
    modifies o`len, o.buf, z`len, z.buf, s
    ensures o.Valid() && z.Valid() && s.Valid()
    ensures o.Buffered() == z.Buffered() == s.log == Joined(writes)
  {
    hide Take, Joined;
    JoinedNothing(writes);
    var i := 0;
    while i < |writes|
      invariant i <= |writes| && o.Valid() && z.Valid() && s.Valid()
      invariant o.Buffered() == z.Buffered() == s.log == Joined(writes[..i])
    {
      JoinedStep(writes, i);
      TakeAll(Joined(writes[..i]) + writes[i]);
      o.WriteOutput(writes[i]);
      z.WriteOutput(writes[i]);
      s.WriteOutput(writes[i]);
      i := i + 1;
    }
    assert writes[..i] == writes;
  }

  lemma JoinedNothing(writes: seq<seq<bv8>>)
    ensures Joined(writes[..0]) == []
  {
  }

  lemma JoinedStep(writes: seq<seq<bv8>>, i: nat)
    requires i < |writes|
    ensures Joined(writes[..i + 1]) == Joined(writes[..i]) + writes[i]
    ensures |Joined(writes[..i + 1])| <= |Joined(writes)|
  {
    JoinedPrefix(writes, i + 1);
    assert writes[..i + 1][..i] == writes[..i];
  }

  lemma TakeAll(b: seq<bv8>)
    ensures |b| <= 256 ==> Take(b, 256) == b && Take(b, 1024) == b
  {
  }
}
