/** Little-endian machine words of the RISC-V targets, and the shift-merge of two of them. */
module Words {

  function Le32(b: seq<bv8>): bv32
    requires |b| == 4
  {
    b[0] as bv32 | (b[1] as bv32 << 8) | (b[2] as bv32 << 16) | (b[3] as bv32 << 24)
  }

  function Bytes32(w: bv32): (b: seq<bv8>)
    ensures |b| == 4
  {
    [(w & 0xFF) as bv8, ((w >> 8) & 0xFF) as bv8, ((w >> 16) & 0xFF) as bv8, ((w >> 24) & 0xFF) as bv8]
  }

  function Le64(b: seq<bv8>): bv64
    requires |b| == 8
  {
    b[0] as bv64 | (b[1] as bv64 << 8) | (b[2] as bv64 << 16) | (b[3] as bv64 << 24)
    | (b[4] as bv64 << 32) | (b[5] as bv64 << 40) | (b[6] as bv64 << 48) | (b[7] as bv64 << 56)
  }

  function Low(w: bv64): bv8 {
    (w & 0xFF) as bv8
  }

  function Bytes64(w: bv64): (b: seq<bv8>)
    ensures |b| == 8
  {
    [Low(w), Low(w >> 8), Low(w >> 16), Low(w >> 24), Low(w >> 32), Low(w >> 40), Low(w >> 48), Low(w >> 56)]
  }

  lemma Bytes32OfLe(b: seq<bv8>)
    requires |b| == 4
    ensures Bytes32(Le32(b)) == b
  {
  }

  lemma Bytes64OfLe(b: seq<bv8>)
    requires |b| == 8
    ensures Bytes64(Le64(b)) == b
  {
  }

  /** Shift amounts that are a whole number of bytes. */
  predicate ByteShift(amount: nat) {
    amount in {8, 16, 24, 32, 40, 48, 56}
  }

  function Slli(w: bv64, amount: nat): bv64
    requires ByteShift(amount)
  {
    match amount
    case 8 => w << 8
    case 16 => w << 16
    case 24 => w << 24
    case 32 => w << 32
    case 40 => w << 40
    case 48 => w << 48
    case _ => w << 56
  }

  function Srli(w: bv64, amount: nat): bv64
    requires amount == 0 || ByteShift(amount)
  {
    match amount
    case 0 => w
    case 8 => w >> 8
    case 16 => w >> 16
    case 24 => w >> 24
    case 32 => w >> 32
    case 40 => w >> 40
    case 48 => w >> 48
    case _ => w >> 56
  }

  lemma LowOfShift(b: seq<bv8>, i: nat)
    requires |b| == 8 && i < 8
    ensures Low(Srli(Le64(b), 8 * i)) == b[i]
  {
    Bytes64OfLe(b);
    assert Bytes64(Le64(b))[i] == Low(Srli(Le64(b), 8 * i));
  }

  /** The last off bytes of one dword followed by the first 8 - off of the next. */
  lemma MergeShift(p: seq<bv8>, q: seq<bv8>, off: nat)
    requires |p| == 8 && |q| == 8 && 1 <= off <= 7
    ensures Slli(Le64(q), 8 * off) | Srli(Le64(p), 64 - 8 * off) == Le64(p[8 - off..] + q[..8 - off])
  {
    var r := p[8 - off..] + q[..8 - off];
    match off
    case 1 => assert r == [p[7], q[0], q[1], q[2], q[3], q[4], q[5], q[6]];
    case 2 => assert r == [p[6], p[7], q[0], q[1], q[2], q[3], q[4], q[5]];
    case 3 => assert r == [p[5], p[6], p[7], q[0], q[1], q[2], q[3], q[4]];
    case 4 => assert r == [p[4], p[5], p[6], p[7], q[0], q[1], q[2], q[3]];
    case 5 => assert r == [p[3], p[4], p[5], p[6], p[7], q[0], q[1], q[2]];
    case 6 => assert r == [p[2], p[3], p[4], p[5], p[6], p[7], q[0], q[1]];
    case 7 => assert r == [p[1], p[2], p[3], p[4], p[5], p[6], p[7], q[0]];
  }
}
