/** zkvm/sp1/src/sp1_runtime.cpp: the bump allocator and the public-values buffer that grows on it. */
module Sp1Output {
  import opened Spans

  const PV_BUF_INITIAL_CAP := 4096
  const SP1_FD_PUBLIC_VALUES := 13

  /** size bytes at ptr. */
  datatype Block = Block(ptr: nat, size: nat)

  predicate Disjoint(a: Block, b: Block) {
    a.ptr + a.size <= b.ptr || b.ptr + b.size <= a.ptr
  }

  predicate Inside(a: nat, b: Block) {
    b.ptr <= a < b.ptr + b.size
  }

  /** memcpy of data to p. */
  function Stored(mem: nat -> bv8, p: nat, data: seq<bv8>): nat -> bv8 {
    (a: nat) => if p <= a < p + |data| then data[a - p] else mem(a)
  }

  lemma StoredInside(mem: nat -> bv8, p: nat, data: seq<bv8>)
    ensures View(Stored(mem, p, data), p, |data|) == data
    ensures forall a: nat :: !Inside(a, Block(p, |data|)) ==> Stored(mem, p, data)(a) == mem(a)
  {
  }

  lemma StoredOutside(mem: nat -> bv8, p: nat, data: seq<bv8>, q: nat, n: nat)
    requires Disjoint(Block(p, |data|), Block(q, n)) || n == 0
    ensures View(Stored(mem, p, data), q, n) == View(mem, q, n)
  {
  }

  class Sp1 {
    var mem: nat -> bv8
    var heapPtr: int
    var pvBuf: nat
    var pvLen: nat
    var pvCap: nat

    ghost var blocks: set<Block>  // handed out by _sbrk to everyone but the live buffer
    ghost var log: seq<bv8>       // the bytes appended so far
    ghost var taken: nat          // heap ever taken by public-values buffers

    ghost function Contents(): seq<bv8>
      reads this
    {
      View(mem, pvBuf, pvLen)
    }

    ghost function Live(): Block
      reads this
    {
      Block(pvBuf, pvCap)
    }

    ghost predicate Valid()
      reads this
    {
      && Contents() == log
      && pvLen <= pvCap && PV_BUF_INITIAL_CAP <= pvCap
      && (pvCap == PV_BUF_INITIAL_CAP || pvCap < 2 * pvLen)
      && pvBuf + pvCap <= heapPtr
      && (forall b :: b in blocks ==> Disjoint(b, Live()) && b.ptr + b.size <= heapPtr)
      && taken <= 2 * pvCap - PV_BUF_INITIAL_CAP
    }

    /** What appending data does to the machine: the log grows; memory outside the live buffer, blocks and break
        stay as they were, unless the buffer had to move, which takes its new capacity from the heap. */
    twostate predicate Appended(data: seq<bv8>)
      reads this
    {
      && Valid() && log == old(log) + data
      && (forall a: nat {:trigger mem(a)} :: !Inside(a, Live()) ==> mem(a) == old(mem)(a))
      && if |old(log)| + |data| <= old(pvCap) then
           Live() == old(Live()) && blocks == old(blocks) && taken == old(taken) && heapPtr == old(heapPtr)
         else
           && |log| <= pvCap < 2 * |log|
           && pvBuf == old(heapPtr) && blocks == old(blocks) + {old(Live())}
           && taken == old(taken) + pvCap && heapPtr == old(heapPtr) + pvCap
    }

    /** __start: the heap base is set, then the buffer is taken. */
    constructor (mem: nat -> bv8, heapStart: nat)
      ensures Valid() && log == [] && blocks == {} && this.mem == mem
      ensures taken == PV_BUF_INITIAL_CAP && heapPtr == heapStart + taken
    {
      this.mem := mem;
      heapPtr := heapStart + PV_BUF_INITIAL_CAP;
      pvBuf, pvLen, pvCap := heapStart, 0, PV_BUF_INITIAL_CAP;
      blocks, log, taken := {}, [], PV_BUF_INITIAL_CAP;
    }

    method Sbrk(incr: int) returns (prev: int)
      modifies this`heapPtr
      ensures prev == old(heapPtr) && heapPtr == old(heapPtr) + incr
    {
      prev := heapPtr;
      heapPtr := heapPtr + incr;
    }

    /** malloc growth: a block for someone else. */
    method Allocate(size: nat) returns (b: Block)
      requires Valid()
      modifies this`heapPtr, this`blocks
      ensures Valid() && b.size == size && blocks == old(blocks) + {b}
      ensures b.ptr == old(heapPtr) && heapPtr == old(heapPtr) + size
    {
      var p := Sbrk(size);
      b := Block(p, size);
      blocks := blocks + {b};
    }

    /** The owner of a block writes to it. */
    method Store(b: Block, off: nat, v: bv8)
      requires Valid() && b in blocks && off < b.size
      modifies this`mem
      ensures Valid() && mem == Stored(old(mem), b.ptr + off, [v])
    {
      StoredOutside(mem, b.ptr + off, [v], pvBuf, pvLen);
      mem := Stored(mem, b.ptr + off, [v]);
    }

    /** The growth branch of pv_buf_append: a new buffer of a doubled capacity; the old one is abandoned. */
    method Grow(need: nat)
      requires Valid() && need > pvCap
      modifies this`mem, this`heapPtr, this`pvBuf, this`pvCap, this`blocks, this`taken
      ensures Contents() == log && need <= pvCap < 2 * need
      ensures pvBuf == old(heapPtr) && heapPtr == pvBuf + pvCap
      ensures blocks == old(blocks) + {old(Live())} && taken == old(taken) + pvCap <= 2 * pvCap - PV_BUF_INITIAL_CAP
      ensures forall a: nat {:trigger mem(a)} :: !Inside(a, Live()) ==> mem(a) == old(mem)(a)
    {
      var newCap := pvCap;
      while newCap < need
        invariant pvCap <= newCap && (newCap == pvCap || (2 * pvCap <= newCap < 2 * need))
        decreases need - newCap
      {
        newCap := newCap * 2;
      }
      var newBuf := Sbrk(newCap);
      blocks := blocks + {Live()};
      StoredInside(mem, newBuf, View(mem, pvBuf, pvLen));
      mem := Stored(mem, newBuf, View(mem, pvBuf, pvLen));
      pvBuf := newBuf;
      pvCap := newCap;
      taken := taken + newCap;
    }

    method PvBufAppend(data: seq<bv8>)
      requires Valid()
      modifies this
      ensures Appended(data)
    {
      hide View, Stored;
      if pvLen + |data| > pvCap {
        Grow(pvLen + |data|);
      }
      StoredInside(mem, pvBuf + pvLen, data);
      StoredOutside(mem, pvBuf + pvLen, data, pvBuf, pvLen);
      mem := Stored(mem, pvBuf + pvLen, data);
      ViewJoin(mem, pvBuf, pvLen, |data|);
      pvLen := pvLen + |data|;
      log := log + data;
    }

    method SyscallWrite(fd: nat, data: seq<bv8>)
      requires Valid()
      modifies this
      ensures if fd == SP1_FD_PUBLIC_VALUES then Appended(data) else unchanged(this)
    {
      if fd == SP1_FD_PUBLIC_VALUES {
        PvBufAppend(data);
      }
    }

    method WriteOutput(data: seq<bv8>)
      requires Valid()
      modifies this
      ensures Appended(data)
    {
      SyscallWrite(SP1_FD_PUBLIC_VALUES, data);
    }
  }

  /** Heap growth for someone else, a write to a descriptor, and a store by the owner of the k-th block. */
  datatype Op = Alloc(size: nat) | Write(fd: nat, data: seq<bv8>) | Own(k: nat, off: nat, v: bv8)

  /** The bytes that a run of operations sends to the public values. */
  function Published(ops: seq<Op>): seq<bv8> {
    if ops == [] then []
    else Published(ops[..|ops| - 1]) +
         match ops[|ops| - 1]
         case Write(fd, data) => if fd == SP1_FD_PUBLIC_VALUES then data else []
         case _ => []
  }

  /** The sizes of the blocks it asks for. */
  function Sizes(ops: seq<Op>): seq<nat> {
    if ops == [] then []
    else Sizes(ops[..|ops| - 1]) + if ops[|ops| - 1].Alloc? then [ops[|ops| - 1].size] else []
  }

  function Sum(sizes: seq<nat>): nat {
    if sizes == [] then 0 else Sum(sizes[..|sizes| - 1]) + sizes[|sizes| - 1]
  }

  /** Byte off of block k after the run, if it was init when the block was handed out: the last store wins. */
  function Owned(ops: seq<Op>, k: nat, off: nat, init: bv8): bv8 {
    if ops == [] then init
    else match ops[|ops| - 1]
      case Own(j, o, v) => if j == k && o == off then v else Owned(ops[..|ops| - 1], k, off, init)
      case _ => Owned(ops[..|ops| - 1], k, off, init)
  }

  /** Owners store only inside blocks they have. */
  ghost predicate Proper(ops: seq<Op>) {
    forall i :: 0 <= i < |ops| && ops[i].Own? ==>
      ops[i].k < |Sizes(ops[..i])| && ops[i].off < Sizes(ops[..i])[ops[i].k]
  }

  /** The blocks handed out are those asked for, apart from each other and from the live buffer. */
  ghost predicate Handed(vm: Sp1, sizes: seq<nat>, handed: seq<Block>)
    reads vm
  {
    && |handed| == |sizes|
    && (forall k :: 0 <= k < |handed| ==> handed[k].size == sizes[k] && handed[k] in vm.blocks && Disjoint(handed[k], vm.Live()))
    && (forall j, k :: 0 <= j < k < |handed| ==> Disjoint(handed[j], handed[k]))
  }

  ghost predicate HoldsOwned(vm: Sp1, ops: seq<Op>, b: Block, k: nat, off: nat, mem: nat -> bv8)
    reads vm
  {
    vm.mem(b.ptr + off) == Owned(ops, k, off, mem(b.ptr + off))
  }

  /** Every block holds what its owner stored, and memory above the break is untouched. */
  ghost predicate Intact(vm: Sp1, ops: seq<Op>, handed: seq<Block>, mem: nat -> bv8)
    reads vm
  {
    && (forall k, off :: 0 <= k < |handed| && 0 <= off < handed[k].size ==> HoldsOwned(vm, ops, handed[k], k, off, mem))
    && (forall a: nat {:trigger vm.mem(a)} :: a >= vm.heapPtr ==> vm.mem(a) == mem(a))
  }

  /** What is kept over a run of operations. */
  ghost predicate Kept(vm: Sp1, ops: seq<Op>, handed: seq<Block>, mem: nat -> bv8, heapStart: nat)
    reads vm
  {
    && vm.Valid() && vm.log == Published(ops)
    && Handed(vm, Sizes(ops), handed) && Intact(vm, ops, handed, mem)
    && vm.heapPtr == heapStart + Sum(Sizes(ops)) + vm.taken
  }

  /** A block not yet handed out has no owner who could have stored in it. */
  lemma {:induction false} NotYetOwned(ops: seq<Op>, k: nat, off: nat, init: bv8)
    requires Proper(ops) && k >= |Sizes(ops)|
    ensures Owned(ops, k, off, init) == init
  {
    if ops != [] {
      var before := ops[..|ops| - 1];
      assert forall i :: 0 <= i < |before| ==> before[i] == ops[i] && before[..i] == ops[..i];
      NotYetOwned(before, k, off, init);
    }
  }

  /** What one more operation adds. */
  lemma NextOp(ops: seq<Op>, op: Op)
    ensures Published(ops + [op]) ==
            Published(ops) + if op.Write? && op.fd == SP1_FD_PUBLIC_VALUES then op.data else []
    ensures Sizes(ops + [op]) == Sizes(ops) + if op.Alloc? then [op.size] else []
    ensures Sum(Sizes(ops + [op])) == Sum(Sizes(ops)) + if op.Alloc? then op.size else 0
    ensures forall k, off, init :: Owned(ops + [op], k, off, init) ==
              if op.Own? && op.k == k && op.off == off then op.v else Owned(ops, k, off, init)
  {
    assert (ops + [op])[..|ops|] == ops;
    assert Sizes(ops) + [] == Sizes(ops);
    if op.Alloc? { assert (Sizes(ops) + [op.size])[..|Sizes(ops)|] == Sizes(ops); }
  }

  method StepAlloc(vm: Sp1, ops: seq<Op>, size: nat, handed: seq<Block>, ghost mem: nat -> bv8, ghost heapStart: nat)
    returns (more: seq<Block>)
    requires Kept(vm, ops, handed, mem, heapStart) && Proper(ops)
    modifies vm`heapPtr, vm`blocks
    ensures Kept(vm, ops + [Alloc(size)], more, mem, heapStart)
  {
    hide Published, Sizes, Sum, Owned;
    NextOp(ops, Alloc(size));
    var b := vm.Allocate(size);
    more := handed + [b];
    forall off | 0 <= off < size
      ensures HoldsOwned(vm, ops + [Alloc(size)], b, |handed|, off, mem)
    {
      NotYetOwned(ops, |handed|, off, mem(b.ptr + off));
    }
    forall k, off | 0 <= k < |handed| && 0 <= off < handed[k].size
      ensures HoldsOwned(vm, ops + [Alloc(size)], handed[k], k, off, mem)
    {
      assert old(HoldsOwned(vm, ops, handed[k], k, off, mem));
    }
  }

  method StepWrite(vm: Sp1, ops: seq<Op>, fd: nat, data: seq<bv8>, handed: seq<Block>, ghost mem: nat -> bv8, ghost heapStart: nat)
    requires Kept(vm, ops, handed, mem, heapStart)
    modifies vm
    ensures Kept(vm, ops + [Write(fd, data)], handed, mem, heapStart)
  {
    hide Published, Sizes, Sum, Owned;
    NextOp(ops, Write(fd, data));
    ghost var was := vm.mem;
    vm.SyscallWrite(fd, data);
    forall k, off | 0 <= k < |handed| && 0 <= off < handed[k].size
      ensures HoldsOwned(vm, ops + [Write(fd, data)], handed[k], k, off, mem)
    {
      assert old(HoldsOwned(vm, ops, handed[k], k, off, mem));
      assert !Inside(handed[k].ptr + off, vm.Live());
      assert vm.mem(handed[k].ptr + off) == was(handed[k].ptr + off);
    }
  }

  method StepOwn(vm: Sp1, ops: seq<Op>, k: nat, off: nat, v: bv8, handed: seq<Block>, ghost mem: nat -> bv8, ghost heapStart: nat)
    requires Kept(vm, ops, handed, mem, heapStart)
    requires k < |Sizes(ops)| && off < Sizes(ops)[k]
    modifies vm`mem
    ensures Kept(vm, ops + [Own(k, off, v)], handed, mem, heapStart)
  {
    hide Published, Sizes, Sum, Owned;
    NextOp(ops, Own(k, off, v));
    vm.Store(handed[k], off, v);
    forall j, o | 0 <= j < |handed| && 0 <= o < handed[j].size
      ensures HoldsOwned(vm, ops + [Own(k, off, v)], handed[j], j, o, mem)
    {
      assert old(HoldsOwned(vm, ops, handed[j], j, o, mem));
    }
  }

  /** Any interleaving of heap growth, writes and stores by the owners of blocks. The buffer holds exactly what was
      published; the blocks handed out are the ones asked for, apart from each other and from the buffer, and
      hold exactly what their owners stored; all heap is accounted for, and the buffers' share of it is at most
      twice the final capacity, less the first, itself below twice the output. */
  method Run(ops: seq<Op>, mem: nat -> bv8, heapStart: nat) returns (vm: Sp1, out: seq<bv8>, handed: seq<Block>)
    requires Proper(ops)
    ensures fresh(vm) && vm.Valid() && out == Published(ops) == vm.Contents()
    ensures Handed(vm, Sizes(ops), handed) && Intact(vm, ops, handed, mem)
    ensures vm.heapPtr == heapStart + Sum(Sizes(ops)) + vm.taken
    ensures vm.taken <= 2 * vm.pvCap - PV_BUF_INITIAL_CAP
    ensures vm.pvCap == PV_BUF_INITIAL_CAP || vm.pvCap < 2 * |out|
  {
    hide Published, Sizes, Sum, Handed, Intact;
    vm := new Sp1(mem, heapStart);
    handed := [];
    var i := 0;
    assert Kept(vm, ops[..0], handed, mem, heapStart) by { NothingYet(vm, mem, heapStart); assert ops[..0] == []; }
    while i < |ops|
      invariant i <= |ops| && fresh(vm) && Kept(vm, ops[..i], handed, mem, heapStart)
    {
      assert ops[..i + 1] == ops[..i] + [ops[i]];
      ProperPrefix(ops, i);
      match ops[i] {
        case Alloc(size) => handed := StepAlloc(vm, ops[..i], size, handed, mem, heapStart);
        case Write(fd, data) => StepWrite(vm, ops[..i], fd, data, handed, mem, heapStart);
        case Own(k, off, v) => StepOwn(vm, ops[..i], k, off, v, handed, mem, heapStart);
      }
      i := i + 1;
    }
    assert ops[..i] == ops;
    out := View(vm.mem, vm.pvBuf, vm.pvLen);
  }

  lemma ProperPrefix(ops: seq<Op>, i: nat)
    requires i <= |ops| && Proper(ops)
    ensures Proper(ops[..i])
  {
    assert forall j :: 0 <= j < i ==> ops[..i][j] == ops[j] && ops[..i][..j] == ops[..j];
  }

  lemma NothingYet(vm: Sp1, mem: nat -> bv8, heapStart: nat)
    requires vm.Valid() && vm.log == [] && vm.mem == mem && vm.heapPtr == heapStart + vm.taken
    ensures Kept(vm, [], [], mem, heapStart)
  {
  }
}
