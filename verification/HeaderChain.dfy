/** core/src/stateless.cpp, the witness headers: their chain check and the choice of the pre-state.
    Keccak-256 and the RLP header decoder are parameters. */
module HeaderChain {
  import opened Bytes
  import opened Spans
  import opened Schema

  type Keccak = seq<Byte> -> Chunk

  datatype Header = Header(parentHash: Chunk, stateRoot: Chunk)

  type HeaderRlp = seq<Byte> -> Option<Header>

  function HashOf(k: Keccak, b: seq<Byte>): Chunk {
    if b == [] then ZERO_CHUNK else k(b)
  }

  function Contents(m: Memory, spans: seq<ByteSpan>): (bs: seq<seq<Byte>>)
    ensures |bs| == |spans|
  {
    seq(|spans|, i requires 0 <= i < |spans| => spans[i].Get(m))
  }

  /** Every header after the first, unless empty, decodes and names the hash of the one before it. */
  predicate Linked(k: Keccak, rlp: HeaderRlp, bs: seq<seq<Byte>>) {
    forall i {:trigger LinkedAt(k, rlp, bs, i)} :: 1 <= i < |bs| && bs[i] != [] ==> LinkedAt(k, rlp, bs, i)
  }

  predicate LinkedAt(k: Keccak, rlp: HeaderRlp, bs: seq<seq<Byte>>, i: nat)
    requires 1 <= i < |bs|
  {
    rlp(bs[i]).Some? && rlp(bs[i]).value.parentHash == HashOf(k, bs[i - 1])
  }

  predicate Matches(k: Keccak, b: seq<Byte>, parent: Chunk) {
    b != [] && k(b) == parent
  }

  /** i is the parent header: the first that is not empty and has the hash asked for. */
  ghost predicate IsParent(k: Keccak, bs: seq<seq<Byte>>, parent: Chunk, i: nat) {
    i < |bs| && Matches(k, bs[i], parent) && forall j :: 0 <= j < i ==> !Matches(k, bs[j], parent)
  }

  function StateRootOf(rlp: HeaderRlp, b: seq<Byte>): Chunk {
    match rlp(b) case None => ZERO_CHUNK case Some(h) => h.stateRoot
  }

  /** The state root of the parent header; zero when there is none or it does not decode. */
  function PreState(k: Keccak, rlp: HeaderRlp, bs: seq<seq<Byte>>, parent: Chunk): Chunk {
    if bs == [] then ZERO_CHUNK
    else if Matches(k, bs[0], parent) then StateRootOf(rlp, bs[0])
    else PreState(k, rlp, bs[1..], parent)
  }

  method HeaderHashes(k: Keccak, m: Memory, headers: seq<ByteSpan>) returns (hashes: seq<Chunk>)
    ensures |hashes| == |headers|
    ensures forall i :: 0 <= i < |headers| ==> hashes[i] == HashOf(k, Contents(m, headers)[i])
  {
    hashes := [];
    while |hashes| < |headers|
      invariant |hashes| <= |headers|
      invariant forall i :: 0 <= i < |hashes| ==> hashes[i] == HashOf(k, Contents(m, headers)[i])
    {
      var hs := headers[|hashes|];
      hashes := hashes + [if hs.len == 0 then ZERO_CHUNK else k(hs.Get(m))];
    }
  }

  method CheckChain(rlp: HeaderRlp, m: Memory, headers: seq<ByteSpan>, hashes: seq<Chunk>, ghost k: Keccak) returns (ok: bool)
    requires |hashes| == |headers|
    requires forall i :: 0 <= i < |headers| ==> hashes[i] == HashOf(k, Contents(m, headers)[i])
    ensures ok <==> Linked(k, rlp, Contents(m, headers))
    ensures var bs := Contents(m, headers);
            ok <==> forall i :: 1 <= i < |bs| && bs[i] != [] ==>
                      && rlp(bs[i]).Some?
                      && rlp(bs[i]).value.parentHash == if bs[i - 1] == [] then Zeros(32) else k(bs[i - 1])
  {
    hide HashOf;
    ghost var bs := Contents(m, headers);
    LinkedIff(k, rlp, bs);
    var i := 1;
    while i < |headers|
      invariant 1 <= i && (|headers| > 0 ==> i <= |headers|)
      invariant forall j :: 1 <= j < i && j < |headers| && bs[j] != [] ==> LinkedAt(k, rlp, bs, j)
    {
      if headers[i].len != 0 {
        var hdr := rlp(headers[i].Get(m));
        if hdr.None? || hdr.value.parentHash != hashes[i - 1] {
          assert bs[i] != [] && !LinkedAt(k, rlp, bs, i);
          return false;
        }
      }
      i := i + 1;
    }
    ok := true;
  }

  method SelectPreState(rlp: HeaderRlp, m: Memory, headers: seq<ByteSpan>, hashes: seq<Chunk>, parent: Chunk, ghost k: Keccak)
    returns (root: Chunk)
    requires |hashes| == |headers|
    requires forall i :: 0 <= i < |headers| ==> hashes[i] == HashOf(k, Contents(m, headers)[i])
    ensures root == PreState(k, rlp, Contents(m, headers), parent)
    ensures var bs := Contents(m, headers);
            forall i :: 0 <= i < |bs| && bs[i] != [] && k(bs[i]) == parent
                        && (forall j :: 0 <= j < i ==> bs[j] == [] || k(bs[j]) != parent) ==>
              root == match rlp(bs[i]) { case Some(h) => h.stateRoot case None => Zeros(32) }
  {
    ghost var bs := Contents(m, headers);
    PreStateIs(k, rlp, bs, parent);
    root := ZERO_CHUNK;
    var i := 0;
    while i < |headers|
      invariant i <= |headers| && root == ZERO_CHUNK
      invariant PreState(k, rlp, bs, parent) == PreState(k, rlp, bs[i..], parent)
    {
      assert bs[i..] != [] && bs[i..][0] == bs[i] && bs[i..][1..] == bs[i + 1..];
      if headers[i].len != 0 && hashes[i] == parent {
        var hdr := rlp(headers[i].Get(m));
        if hdr.Some? { root := hdr.value.stateRoot; }
        return;
      }
      i := i + 1;
    }
  }

  lemma {:induction false} PreStateOfParent(k: Keccak, rlp: HeaderRlp, bs: seq<seq<Byte>>, parent: Chunk, i: nat)
    requires IsParent(k, bs, parent, i)
    ensures PreState(k, rlp, bs, parent) == StateRootOf(rlp, bs[i])
    decreases i
  {
    if i > 0 {
      assert !Matches(k, bs[0], parent);
      PreStateOfParent(k, rlp, bs[1..], parent, i - 1);
    }
  }

  /** The chain check, written out: the parent hash in every header after the first, unless that is empty, is the
      Keccak-256 of the header before it, or zero if that one is empty. */
  lemma LinkedIff(k: Keccak, rlp: HeaderRlp, bs: seq<seq<Byte>>)
    ensures Linked(k, rlp, bs) <==>
            forall i :: 1 <= i < |bs| && bs[i] != [] ==>
              && rlp(bs[i]).Some?
              && rlp(bs[i]).value.parentHash == if bs[i - 1] == [] then Zeros(32) else k(bs[i - 1])
  {
    if Linked(k, rlp, bs) {
      forall i | 1 <= i < |bs| && bs[i] != []
        ensures rlp(bs[i]).Some? && rlp(bs[i]).value.parentHash == if bs[i - 1] == [] then Zeros(32) else k(bs[i - 1])
      {
        assert LinkedAt(k, rlp, bs, i);
      }
    }
  }

  /** How a chain grows: a header may follow an accepted chain exactly when it names the hash of the last one. */
  lemma LinkedExtends(k: Keccak, rlp: HeaderRlp, bs: seq<seq<Byte>>, b: seq<Byte>)
    requires Linked(k, rlp, bs) && bs != [] && bs[|bs| - 1] != [] && b != []
    ensures Linked(k, rlp, bs + [b]) <==> rlp(b).Some? && rlp(b).value.parentHash == k(bs[|bs| - 1])
  {
    hide Linked;
    LinkedIff(k, rlp, bs);
    LinkedIff(k, rlp, bs + [b]);
    var cs, n := bs + [b], |bs|;
    assert forall i :: 0 <= i < n ==> cs[i] == bs[i];
    assert cs[n] == b && cs[n - 1] == bs[n - 1];
    if rlp(b).Some? && rlp(b).value.parentHash == k(bs[n - 1]) {
      forall i | 1 <= i < |cs| && cs[i] != []
        ensures rlp(cs[i]).Some? && rlp(cs[i]).value.parentHash == if cs[i - 1] == [] then Zeros(32) else k(cs[i - 1])
      {
        if i < n { assert bs[i] != [] && cs[i - 1] == bs[i - 1]; }
      }
    }
  }

  /** The pre-state, written out: the state root in the first header with the parent's hash; zero if that header
      does not decode, or if there is none. */
  lemma PreStateIs(k: Keccak, rlp: HeaderRlp, bs: seq<seq<Byte>>, parent: Chunk)
    ensures forall i :: 0 <= i < |bs| && bs[i] != [] && k(bs[i]) == parent
                        && (forall j :: 0 <= j < i ==> bs[j] == [] || k(bs[j]) != parent) ==>
              PreState(k, rlp, bs, parent) == match rlp(bs[i]) { case Some(h) => h.stateRoot case None => Zeros(32) }
    ensures (forall i :: 0 <= i < |bs| ==> bs[i] == [] || k(bs[i]) != parent) ==> PreState(k, rlp, bs, parent) == Zeros(32)
  {
    forall i | 0 <= i < |bs| && bs[i] != [] && k(bs[i]) == parent
               && (forall j :: 0 <= j < i ==> bs[j] == [] || k(bs[j]) != parent)
      ensures PreState(k, rlp, bs, parent) == match rlp(bs[i]) { case Some(h) => h.stateRoot case None => Zeros(32) }
    {
      PreStateOfParent(k, rlp, bs, parent, i);
    }
    if forall i :: 0 <= i < |bs| ==> bs[i] == [] || k(bs[i]) != parent {
      PreStateOfNone(k, rlp, bs, parent);
    }
  }

  lemma {:induction false} PreStateOfNone(k: Keccak, rlp: HeaderRlp, bs: seq<seq<Byte>>, parent: Chunk)
    requires forall i :: 0 <= i < |bs| ==> bs[i] == [] || k(bs[i]) != parent
    ensures PreState(k, rlp, bs, parent) == Zeros(32)
  {
    if bs != [] {
      assert bs[0] == [] || k(bs[0]) != parent;
      PreStateOfNone(k, rlp, bs[1..], parent);
    }
  }

  /** Two different headers, one from each witness, with one hash. */
  ghost predicate HeaderCollision(k: Keccak, a: seq<seq<Byte>>, b: seq<seq<Byte>>) {
    exists i, j :: 0 <= i < |a| && 0 <= j < |b| && Colliding(k, a[i], b[j])
  }

  ghost predicate Colliding(k: Keccak, x: seq<Byte>, y: seq<Byte>) {
    x != [] && y != [] && x != y && k(x) == k(y)
  }

  /** The t + 1 headers of bs that end at i are all there. */
  ghost predicate Supplied(bs: seq<seq<Byte>>, i: nat, t: nat) {
    t <= i < |bs| && forall j :: i - t <= j <= i ==> bs[j] != []
  }

  /** Equal headers have equal predecessors. */
  lemma StepBinding(k: Keccak, rlp: HeaderRlp, a: seq<seq<Byte>>, i: nat, b: seq<seq<Byte>>, j: nat)
    requires Linked(k, rlp, a) && Linked(k, rlp, b)
    requires 1 <= i < |a| && 1 <= j < |b| && a[i] == b[j] != [] && a[i - 1] != [] && b[j - 1] != []
    ensures a[i - 1] == b[j - 1] || HeaderCollision(k, a, b)
  {
    assert LinkedAt(k, rlp, a, i) && LinkedAt(k, rlp, b, j);
    assert a[i - 1] != b[j - 1] ==> Colliding(k, a[i - 1], b[j - 1]);
  }

  lemma {:induction false} AncestorBinding(
      k: Keccak, rlp: HeaderRlp, a: seq<seq<Byte>>, i: nat, b: seq<seq<Byte>>, j: nat, parent: Chunk, t: nat)
    requires Linked(k, rlp, a) && Linked(k, rlp, b)
    requires IsParent(k, a, parent, i) && IsParent(k, b, parent, j)
    requires Supplied(a, i, t) && Supplied(b, j, t)
    ensures a[i - t] == b[j - t] || HeaderCollision(k, a, b)
  {
    if t == 0 {
      assert a[i] != b[j] ==> Colliding(k, a[i], b[j]);
    } else {
      AncestorBinding(k, rlp, a, i, b, j, parent, t - 1);
      if !HeaderCollision(k, a, b) {
        StepBinding(k, rlp, a, i - (t - 1), b, j - (t - 1));
      }
    }
  }

  /** Two accepted witnesses for payloads with one parent hash agree on the pre-state root and on every
      ancestor that both supply, unless two of their headers collide. */
  lemma WitnessBinding(k: Keccak, rlp: HeaderRlp, a: seq<seq<Byte>>, i: nat, b: seq<seq<Byte>>, j: nat, parent: Chunk)
    requires Linked(k, rlp, a) && Linked(k, rlp, b)
    requires IsParent(k, a, parent, i) && IsParent(k, b, parent, j)
    ensures HeaderCollision(k, a, b) ||
            (&& PreState(k, rlp, a, parent) == PreState(k, rlp, b, parent)
             && forall t :: Supplied(a, i, t) && Supplied(b, j, t) ==> a[i - t] == b[j - t])
  {
    forall t | Supplied(a, i, t) && Supplied(b, j, t)
      ensures a[i - t] == b[j - t] || HeaderCollision(k, a, b)
    {
      AncestorBinding(k, rlp, a, i, b, j, parent, t);
    }
    assert Supplied(a, i, 0) && Supplied(b, j, 0);
    PreStateOfParent(k, rlp, a, parent, i);
    PreStateOfParent(k, rlp, b, parent, j);
  }
}
