/** An input that the guest accepts and whose root does not bind it: its extra data is a byte too long. */
module OverLimit {
  import opened Bytes
  import opened Spans
  import opened Ssz
  import opened Merkle
  import opened Binding
  import opened Schema
  import opened Decode
  import opened RoundTrip
  import opened Guest
  import opened Commitment

  /** A 0x1501 input of 659 bytes, all zero but for the schema id, the offsets, and x in the last of its 33 bytes of
      extra data. */
  function Wire(x: Byte): Memory {
    (p: nat) =>
      match p
      case 0 => 0x15 case 1 => 0x01
      // the input at 2: offsets 16, 633, 633 and 657
      case 2 => 16 case 6 => 0x79 case 7 => 2 case 10 => 0x79 case 11 => 2 case 14 => 0x91 case 15 => 2
      // the request at 18: offsets 44, 617 and 617
      case 18 => 44 case 22 => 0x69 case 23 => 2 case 58 => 0x69 case 59 => 2
      // the payload at 62: offsets 540, 573, 573 and 573
      case 498 => 0x1C case 499 => 2 case 566 => 0x3D case 567 => 2 case 570 => 0x3D case 571 => 2
      case 590 => 0x3D case 591 => 2
      // the extra data at 602
      case 634 => x
      // the chain config at 635: offsets 12, 4, 8 and 8
      case 643 => 12 case 647 => 4 case 651 => 8 case 655 => 8
      case _ => 0
  }

  const INPUT := ByteSpan(2, 657)
  const REQUEST := ByteSpan(18, 617)
  const PAYLOAD := ByteSpan(62, 573)

  lemma OffsetAt(x: Byte, p: nat, lo: Byte, hi: Byte)
    requires Wire(x)(p) == lo && Wire(x)(p + 1) == hi && Wire(x)(p + 2) == 0 && Wire(x)(p + 3) == 0
    ensures ReadU32(Wire(x), p) == lo + 256 * hi
  {
    hide Wire;
    assert View(Wire(x), p, 4) == [lo, hi, 0, 0];
    FromLeTwo(lo, hi);
  }

  lemma FromLeTwo(lo: Byte, hi: Byte)
    ensures FromLe([lo, hi, 0, 0]) == lo + 256 * hi
  {
    assert [lo, hi, 0, 0][1..] == [hi, 0, 0];
    assert [hi, 0, 0][1..] == [0, 0];
    assert FromLe([0, 0]) == 0 by { assert [0, 0][1..] == [0]; }
  }

  lemma TopOffsets(x: Byte)
    ensures TableOffset(Wire(x), INPUT, 4, 0) == 16 && TableOffset(Wire(x), INPUT, 4, 1) == 633
    ensures TableOffset(Wire(x), INPUT, 4, 2) == 633 && TableOffset(Wire(x), INPUT, 4, 3) == 657
    ensures TableOffset(Wire(x), INPUT, 4, 4) == 657
  {
    hide ReadU32;
    OffsetAt(x, 2, 16, 0);
    OffsetAt(x, 6, 0x79, 2);
    OffsetAt(x, 10, 0x79, 2);
    OffsetAt(x, 14, 0x91, 2);
  }

  lemma ConfigOf(x: Byte)
    ensures ConfigAt(Wire(x), ByteSpan(635, 24), Amsterdam01).valid
  {
    hide ReadU32, ReadU64;
    OffsetAt(x, 643, 12, 0);
    OffsetAt(x, 647, 4, 0);
    OffsetAt(x, 651, 8, 0);
    OffsetAt(x, 655, 8, 0);
  }

  lemma RequestOffsets(x: Byte)
    ensures ReadU32(Wire(x), 18) == 44 && ReadU32(Wire(x), 22) == 617 && ReadU32(Wire(x), 58) == 617
  {
    hide ReadU32;
    OffsetAt(x, 18, 44, 0);
    OffsetAt(x, 22, 0x69, 2);
    OffsetAt(x, 58, 0x69, 2);
  }

  lemma PayloadOffsets(x: Byte)
    ensures ReadU32(Wire(x), 498) == 540 && ReadU32(Wire(x), 566) == 573 && ReadU32(Wire(x), 570) == 573
    ensures ReadU32(Wire(x), 590) == 573
  {
    hide ReadU32;
    OffsetAt(x, 498, 0x1C, 2);
    OffsetAt(x, 566, 0x3D, 2);
    OffsetAt(x, 570, 0x3D, 2);
    OffsetAt(x, 590, 0x3D, 2);
  }

  /** The decoded request. */
  function Req(x: Byte): NewPayloadRequest {
    RequestAt(Wire(x), REQUEST, Gloas, true, BAL_HTR_LIMIT_AMSTERDAM01)
  }

  lemma Accepted(x: Byte)
    ensures WireInput(Wire(x), ByteSpan(0, 659)).Some?
    ensures RequestOf(Wire(x), ByteSpan(0, 659)) == Req(x)
  {
    hide ReadU32, ReadU64, View, WitnessAt, ConfigAt, RequestAt, TableOffset;
    TopOffsets(x);
    ConfigOf(x);
    RequestIs(x);
  }

  lemma EmptyParts(x: Byte)
    ensures forall p :: RequestsAt(Wire(x), ByteSpan(p, 0), true) == ZeroRequests(true)
    ensures forall p :: ChunksAt(Wire(x), ByteSpan(p, 0)) == []
  {
  }

  lemma RequestIs(x: Byte)
    ensures Req(x).payload == PayloadAt(Wire(x), PAYLOAD, Gloas, BAL_HTR_LIMIT_AMSTERDAM01)
    ensures Req(x).payload.shape == Gloas
    ensures Req(x).requests == ZeroRequests(true) && Req(x).versionedHashes == []
    ensures Req(x).parentBeaconBlockRoot == View(Wire(x), 26, 32)
  {
    hide ReadU32, ReadU64, View, ByteListsAt, ItemsAt, Wire;
    RequestOffsets(x);
    EmptyParts(x);
  }

  /** Bytes 0 to 633 are those of every other such input. */
  lemma SameView(x: Byte, y: Byte, p: nat, n: nat)
    requires p + n <= 634
    ensures View(Wire(x), p, n) == View(Wire(y), p, n)
  {
    forall i | 0 <= i < n
      ensures View(Wire(x), p, n)[i] == View(Wire(y), p, n)[i]
    {
      Elsewhere(x, y, p + i);
    }
  }

  lemma Elsewhere(x: Byte, y: Byte, p: nat)
    requires p != 634
    ensures Wire(x)(p) == Wire(y)(p)
  {
  }

  /** A payload field of fixed size is the same whatever the byte. */
  lemma SameFixed(x: Byte, y: Byte, i: nat)
    requires i < 19 && i !in {10, 13, 14, 17}
    ensures PayloadFieldVal(Wire(x), Req(x).payload, i) == PayloadFieldVal(Wire(y), Req(y).payload, i)
  {
    hide View, ReadU32, ReadU64, Wire, Req;
    RequestIs(x);
    RequestIs(y);
    PayloadReads(Wire(x), PAYLOAD, Gloas, BAL_HTR_LIMIT_AMSTERDAM01, i);
    PayloadReads(Wire(y), PAYLOAD, Gloas, BAL_HTR_LIMIT_AMSTERDAM01, i);
    SameView(x, y, 62 + PayloadPos(i), PayloadFieldTyp(0, i).size);
  }

  /** The variable fields: 33 bytes of extra data, and nothing else. */
  lemma Variable(x: Byte)
    ensures var p := Req(x).payload;
            && p.extraData == ByteSpan(602, 33) && p.transactions == [] && p.withdrawals == []
            && p.blockAccessList.len == 0 && p.balHtrLimit == BAL_HTR_LIMIT_AMSTERDAM01 && p.shape == Gloas
  {
    hide View, ReadU32, ReadU64, Wire, Req;
    RequestIs(x);
    PayloadOffsets(x);
  }

  lemma ExtraData(x: Byte, y: Byte)
    ensures var a, b := View(Wire(x), 602, 33), View(Wire(y), 602, 33);
            a[..32] == b[..32] && a[32] == x && b[32] == y
  {
    hide View;
    SameView(x, y, 602, 32);
    ViewSlice(Wire(x), 602, 33, 0, 32);
    ViewSlice(Wire(y), 602, 33, 0, 32);
    LastByte(x);
    LastByte(y);
  }

  lemma LastByte(x: Byte)
    ensures View(Wire(x), 602, 33)[32] == x
  {
  }

  lemma ExtraDataAlike(x: Byte, y: Byte)
    ensures Alike(PayloadFieldVal(Wire(x), Req(x).payload, 10), PayloadFieldVal(Wire(y), Req(y).payload, 10))
    ensures x != y ==> PayloadFieldVal(Wire(x), Req(x).payload, 10) != PayloadFieldVal(Wire(y), Req(y).payload, 10)
  {
    hide View, Wire, Req, LeafBytes;
    Variable(x);
    Variable(y);
    ExtraData(x, y);
    LimitsAreSharp();
    var a, b := View(Wire(x), 602, 33), View(Wire(y), 602, 33);
    forall i | 0 <= i < 33 && i < LeafBytes(32)
      ensures a[i] == b[i]
    {
      assert a[..32][i] == b[..32][i];
    }
  }

  lemma PayloadsAlike(x: Byte, y: Byte)
    ensures Alike(PayloadVal(Wire(x), Req(x).payload), PayloadVal(Wire(y), Req(y).payload))
    ensures x != y ==> PayloadVal(Wire(x), Req(x).payload) != PayloadVal(Wire(y), Req(y).payload)
  {
    hide View, Wire, Req, PayloadFieldVal;
    Variable(x);
    Variable(y);
    ExtraDataAlike(x, y);
    var v, w := PayloadVal(Wire(x), Req(x).payload), PayloadVal(Wire(y), Req(y).payload);
    assert x != y ==> v.fields[10] != w.fields[10];
    forall i | 0 <= i < 19
      ensures Alike(v.fields[i], w.fields[i])
    {
      FieldAlike(x, y, i);
    }
  }

  lemma FieldAlike(x: Byte, y: Byte, i: nat)
    requires i < 19
    ensures Alike(PayloadFieldVal(Wire(x), Req(x).payload, i), PayloadFieldVal(Wire(y), Req(y).payload, i))
  {
    hide View, Wire, Req, Alike;
    if i == 10 {
      ExtraDataAlike(x, y);
    } else {
      AlikeSelf(PayloadFieldVal(Wire(x), Req(x).payload, i));
      if i in {13, 14, 17} {
        EmptyFields(x, y);
      } else {
        SameFixed(x, y, i);
      }
    }
  }

  lemma EmptyFields(x: Byte, y: Byte)
    ensures forall i :: i in {13, 14, 17} ==>
              PayloadFieldVal(Wire(x), Req(x).payload, i) == PayloadFieldVal(Wire(y), Req(y).payload, i)
  {
    hide Wire, Req;
    Variable(x);
    Variable(y);
  }

  /** Two inputs that differ in one byte of the extra data are both decoded, their requests differ, and for every
      hash, decoder and execution the guest publishes one root for them. */
  lemma OverLimitInput(e: Env, x: Byte, y: Byte)
    requires x != y
    ensures var s := ByteSpan(0, 659);
            && (forall p :: p != 634 ==> Wire(x)(p) == Wire(y)(p))
            && Comparable(Wire(x), s, Wire(y), s)
            && RequestVal(Wire(x), RequestOf(Wire(x), s)) != RequestVal(Wire(y), RequestOf(Wire(y), s))
            && GuestOutput(e, Wire(x), s).root == GuestOutput(e, Wire(y), s).root
  {
    hide WireInput, RequestVal, View, Root, Accepts, Alike, Wire, Req;
    forall p | p != 634
      ensures Wire(x)(p) == Wire(y)(p)
    {
      Elsewhere(x, y, p);
    }
    Accepted(x);
    Accepted(y);
    RequestIs(x);
    RequestIs(y);
    Variable(x);
    Variable(y);
    RequestsAlike(x, y);
    RequestsDiffer(x, y);
    AlikeRoots(e.h, RequestVal(Wire(x), Req(x)), RequestVal(Wire(y), Req(y)));
  }

  lemma RequestsDiffer(x: Byte, y: Byte)
    requires x != y
    ensures RequestVal(Wire(x), Req(x)) != RequestVal(Wire(y), Req(y))
  {
    hide PayloadVal, Wire, Req, RequestsVal, ChunkVals, Alike;
    PayloadsAlike(x, y);
    assert RequestVal(Wire(x), Req(x)).fields[0] != RequestVal(Wire(y), Req(y)).fields[0];
  }

  lemma RequestsAlike(x: Byte, y: Byte)
    ensures Alike(RequestVal(Wire(x), Req(x)), RequestVal(Wire(y), Req(y)))
  {
    hide PayloadVal, View, Wire, Req, RequestsVal, ChunkVals;
    RequestIs(x);
    RequestIs(y);
    PayloadsAlike(x, y);
    SameView(x, y, 26, 32);
    var v, w := RequestVal(Wire(x), Req(x)), RequestVal(Wire(y), Req(y));
    AlikeSelf(v.fields[1]);
    AlikeSelf(v.fields[2]);
    AlikeSelf(v.fields[3]);
    assert v.fields[1] == w.fields[1] && v.fields[2] == w.fields[2] && v.fields[3] == w.fields[3];
  }
}
