/** A root binds the value it commits to: two values of one type with equal roots are equal, or two
    of the 64-byte blocks hashed to compute those roots collide. */
module Binding {
  import opened Bytes
  import opened Ssz
  import opened Merkle

  type Block = (Chunk, Chunk)

  /** p is one of the blocks hashed by the tree over cs. */
  ghost predicate TreeHashes(h: Hash, cs: seq<Chunk>, d: nat, p: Block)
    requires |cs| == Pow2(d)
    decreases d
  {
    d > 0 &&
    var l, r := cs[..Pow2(d - 1)], cs[Pow2(d - 1)..];
    || p == (Tree(h, l, d - 1), Tree(h, r, d - 1))
    || TreeHashes(h, l, d - 1, p)
    || TreeHashes(h, r, d - 1, p)
  }

  ghost predicate MerkleizeHashes(h: Hash, cs: seq<Chunk>, d: nat, p: Block) {
    TreeHashes(h, Fit(cs, Pow2(d)), d, p)
  }

  /** p is one of the blocks hashed to compute Root(h, v). */
  ghost predicate Hashed(h: Hash, v: Val, p: Block)
    decreases v
  {
    match v
    case Vec(b) => MerkleizeHashes(h, Pack(b), Depth(|Pack(b)|), p)
    case ByteList(b, limit) =>
      || p == (Merkleize(h, Pack(b), Depth((limit + 31) / 32)), LenChunk(|b|))
      || MerkleizeHashes(h, Pack(b), Depth((limit + 31) / 32), p)
    case List(vs, limit) =>
      || p == (Merkleize(h, Roots(h, vs), Depth(limit)), LenChunk(|vs|))
      || MerkleizeHashes(h, Roots(h, vs), Depth(limit), p)
      || exists i :: 0 <= i < |vs| && Hashed(h, vs[i], p)
    case Container(vs) =>
      || MerkleizeHashes(h, Roots(h, vs), Depth(|vs|), p)
      || exists i :: 0 <= i < |vs| && Hashed(h, vs[i], p)
  }

  ghost predicate Collide(h: Hash, p: Block, q: Block) {
    p != q && h(p.0, p.1) == h(q.0, q.1)
  }

  /** Two different blocks with one hash, one hashed for each value. */
  ghost predicate Collision(h: Hash, v: Val, w: Val) {
    exists p, q :: Hashed(h, v, p) && Hashed(h, w, q) && Collide(h, p, q)
  }

  ghost predicate TreeCollision(h: Hash, a: seq<Chunk>, b: seq<Chunk>, d: nat)
    requires |a| == |b| == Pow2(d)
  {
    exists p, q :: TreeHashes(h, a, d, p) && TreeHashes(h, b, d, q) && Collide(h, p, q)
  }

  /** A value of the form of t whose lists may be over their limits; lengths are size_t values. */
  ghost predicate HasShape(t: Typ, v: Val)
    decreases v
  {
    match (t, v)
    case (TVec(n), Vec(b)) => |b| == n
    case (TByteList(n), ByteList(b, l)) => l == n && |b| < U64
    case (TList(e, n), List(vs, l)) =>
      l == n && |vs| < U64 && forall i :: 0 <= i < |vs| ==> HasShape(e, vs[i])
    case (TContainer(ts), Container(vs)) =>
      |vs| == |ts| && forall i :: 0 <= i < |vs| ==> HasShape(ts[i], vs[i])
    case _ => false
  }

  /** Leaves of the tree over a list with this limit, and bytes under those of a byte list. */
  function Leaves(limit: nat): nat {
    Pow2(Depth(limit))
  }

  function LeafBytes(limit: nat): nat {
    32 * Leaves((limit + 31) / 32)
  }

  /** Equal as far as a root can see: lists have one length, and agree up to their padded limits. */
  ghost predicate Alike(v: Val, w: Val)
    decreases v
  {
    match (v, w)
    case (Vec(a), Vec(b)) => a == b
    case (ByteList(a, l), ByteList(b, k)) =>
      l == k && |a| == |b| && forall i :: 0 <= i < |a| && i < LeafBytes(l) ==> a[i] == b[i]
    case (List(vs, l), List(ws, k)) =>
      l == k && |vs| == |ws| && forall i :: 0 <= i < |vs| && i < Leaves(l) ==> Alike(vs[i], ws[i])
    case (Container(vs), Container(ws)) =>
      |vs| == |ws| && forall i :: 0 <= i < |vs| ==> Alike(vs[i], ws[i])
    case _ => false
  }

  lemma {:induction false} TreeBinding(h: Hash, a: seq<Chunk>, b: seq<Chunk>, d: nat)
    requires |a| == |b| == Pow2(d) && Tree(h, a, d) == Tree(h, b, d)
    ensures a == b || TreeCollision(h, a, b, d)
    decreases d
  {
    hide TreeHashes, Collide;
    if d > 0 {
      var n := Pow2(d - 1);
      var al, ar, bl, br := a[..n], a[n..], b[..n], b[n..];
      if Tree(h, al, d - 1) == Tree(h, bl, d - 1) && Tree(h, ar, d - 1) == Tree(h, br, d - 1) {
        TreeBinding(h, al, bl, d - 1);
        TreeBinding(h, ar, br, d - 1);
        if al == bl && ar == br {
          assert a == al + ar && b == bl + br;
        } else {
          SubtreeCollision(h, a, b, d);
        }
      } else {
        NodeCollision(h, a, b, d);
      }
    }
  }

  /** Different blocks at the root of the tree. */
  lemma NodeCollision(h: Hash, a: seq<Chunk>, b: seq<Chunk>, d: nat)
    requires d > 0 && |a| == |b| == Pow2(d) && Tree(h, a, d) == Tree(h, b, d)
    requires var n := Pow2(d - 1);
             Tree(h, a[..n], d - 1) != Tree(h, b[..n], d - 1) || Tree(h, a[n..], d - 1) != Tree(h, b[n..], d - 1)
    ensures TreeCollision(h, a, b, d)
  {
    var n := Pow2(d - 1);
    var p := (Tree(h, a[..n], d - 1), Tree(h, a[n..], d - 1));
    var q := (Tree(h, b[..n], d - 1), Tree(h, b[n..], d - 1));
    hide Tree;
    assert TreeHashes(h, a, d, p) && TreeHashes(h, b, d, q);
    assert Collide(h, p, q);
  }

  /** A collision under one of the root's children. */
  lemma SubtreeCollision(h: Hash, a: seq<Chunk>, b: seq<Chunk>, d: nat)
    requires d > 0 && |a| == |b| == Pow2(d)
    requires var n := Pow2(d - 1);
             TreeCollision(h, a[..n], b[..n], d - 1) || TreeCollision(h, a[n..], b[n..], d - 1)
    ensures TreeCollision(h, a, b, d)
  {
    hide Tree, Collide;
    var n := Pow2(d - 1);
    if TreeCollision(h, a[..n], b[..n], d - 1) {
      var p, q :| TreeHashes(h, a[..n], d - 1, p) && TreeHashes(h, b[..n], d - 1, q) && Collide(h, p, q);
      assert TreeHashes(h, a, d, p) && TreeHashes(h, b, d, q);
    } else {
      var p, q :| TreeHashes(h, a[n..], d - 1, p) && TreeHashes(h, b[n..], d - 1, q) && Collide(h, p, q);
      assert TreeHashes(h, a, d, p) && TreeHashes(h, b, d, q);
    }
  }

  /** Exactly what the root of a list or byte list binds, whatever its length: the length mixed in, which counts
      elements or bytes, and the first 2^d chunks. */
  lemma ListRootExact(h: Hash, a: seq<Chunk>, k: nat, b: seq<Chunk>, l: nat, d: nat)
    requires k < U64 && l < U64
    requires !TreeCollision(h, Fit(a, Pow2(d)), Fit(b, Pow2(d)), d)
    requires !Collide(h, (Merkleize(h, a, d), LenChunk(k)), (Merkleize(h, b, d), LenChunk(l)))
    ensures MixInLength(h, Merkleize(h, a, d), k) == MixInLength(h, Merkleize(h, b, d), l) <==>
            k == l && Fit(a, Pow2(d)) == Fit(b, Pow2(d))
  {
    hide Tree, TreeCollision, Fit, LenChunk, Collide;
    if MixInLength(h, Merkleize(h, a, d), k) == MixInLength(h, Merkleize(h, b, d), l) {
      MixBinding(h, Merkleize(h, a, d), k, Merkleize(h, b, d), l);
      TreeBinding(h, Fit(a, Pow2(d)), Fit(b, Pow2(d)), d);
    }
  }

  lemma LenChunkInjective(a: nat, b: nat)
    requires a < U64 && b < U64 && LenChunk(a) == LenChunk(b)
    ensures a == b
  {
    Pow256Values();
    LeWiden(a, 8, 24);
    LeWiden(b, 8, 24);
    assert Le(a, 8) == LenChunk(a)[..8] && Le(b, 8) == LenChunk(b)[..8];
    LeInjective(a, b, 8);
  }

  /** Equal roots of lists with their lengths mixed in. */
  lemma MixBinding(h: Hash, r: Chunk, m: nat, s: Chunk, n: nat)
    requires m < U64 && n < U64 && MixInLength(h, r, m) == MixInLength(h, s, n)
    ensures (r == s && m == n) || Collide(h, (r, LenChunk(m)), (s, LenChunk(n)))
  {
    if LenChunk(m) == LenChunk(n) {
      LenChunkInjective(m, n);
    }
  }

  /** The chunks a tree has of a list are its first ones. */
  lemma FitEqual(a: seq<Chunk>, b: seq<Chunk>, n: nat)
    requires |a| == |b|
    ensures Fit(a, n) == Fit(b, n) <==> forall i :: 0 <= i < |a| && i < n ==> a[i] == b[i]
  {
    if Fit(a, n) == Fit(b, n) {
      forall i | 0 <= i < |a| && i < n
        ensures a[i] == b[i]
      {
        assert Fit(a, n)[i] == a[i] && Fit(b, n)[i] == b[i];
      }
    }
  }

  /** The first n chunks of byte strings are equal exactly when their first 32 * n bytes are. */
  lemma PackEqual(a: seq<Byte>, b: seq<Byte>, n: nat)
    requires |a| == |b|
    ensures Fit(Pack(a), n) == Fit(Pack(b), n) <==> forall i :: 0 <= i < |a| && i < 32 * n ==> a[i] == b[i]
  {
    hide Fit, ChunkAt;
    FitEqual(Pack(a), Pack(b), n);
    if Fit(Pack(a), n) == Fit(Pack(b), n) {
      forall i | 0 <= i < |a| && i < 32 * n
        ensures a[i] == b[i]
      {
        assert Pack(a)[i / 32] == Pack(b)[i / 32];
        ChunkEqual(a, b, i / 32);
      }
    }
    if forall i :: 0 <= i < |a| && i < 32 * n ==> a[i] == b[i] {
      forall k | 0 <= k < |Pack(a)| && k < n
        ensures Pack(a)[k] == Pack(b)[k]
      {
        ChunkEqual(a, b, k);
      }
    }
  }

  lemma ChunkEqual(a: seq<Byte>, b: seq<Byte>, k: nat)
    requires |a| == |b| && 32 * k < |a|
    ensures ChunkAt(a, k) == ChunkAt(b, k) <==> forall i :: 32 * k <= i < |a| && i < 32 * k + 32 ==> a[i] == b[i]
  {
    if ChunkAt(a, k) == ChunkAt(b, k) {
      forall i | 32 * k <= i < |a| && i < 32 * k + 32
        ensures a[i] == b[i]
      {
        assert ChunkAt(a, k)[i - 32 * k] == a[i] && ChunkAt(b, k)[i - 32 * k] == b[i];
      }
    }
  }

  /** A collision inside the trees over a and b is one for the values they belong to. */
  lemma LiftTree(h: Hash, v: Val, w: Val, a: seq<Chunk>, b: seq<Chunk>, d: nat)
    requires TreeCollision(h, Fit(a, Pow2(d)), Fit(b, Pow2(d)), d)
    requires forall p :: MerkleizeHashes(h, a, d, p) ==> Hashed(h, v, p)
    requires forall p :: MerkleizeHashes(h, b, d, p) ==> Hashed(h, w, p)
    ensures Collision(h, v, w)
  {
    hide TreeHashes, Hashed, Collide;
    var p, q :| TreeHashes(h, Fit(a, Pow2(d)), d, p) && TreeHashes(h, Fit(b, Pow2(d)), d, q) && Collide(h, p, q);
    assert MerkleizeHashes(h, a, d, p) && MerkleizeHashes(h, b, d, q);
  }

  lemma ChildCollision(h: Hash, v: Val, w: Val, vs: seq<Val>, ws: seq<Val>, i: nat)
    requires (v.List? && w.List? && vs == v.items && ws == w.items) ||
             (v.Container? && w.Container? && vs == v.fields && ws == w.fields)
    requires i < |vs| == |ws| && Collision(h, vs[i], ws[i])
    ensures Collision(h, v, w)
  {
    hide MerkleizeHashes, Collide;
    var p, q :| Hashed(h, vs[i], p) && Hashed(h, ws[i], q) && Collide(h, p, q);
    assert Hashed(h, v, p) && Hashed(h, w, q);
  }

  /** The binding theorem, for lists of any length: equal roots come from values that are alike, or a collision
      among the blocks hashed for them. */
  lemma {:induction false} RootBinding(h: Hash, t: Typ, v: Val, w: Val)
    requires HasShape(t, v) && HasShape(t, w) && Root(h, v) == Root(h, w)
    ensures Alike(v, w) || Collision(h, v, w)
    decreases v, 1
  {
    match t
    case TVec(n) => VecBinding(h, v, w);
    case TByteList(n) => ByteListBinding(h, n, v, w);
    case TList(e, n) => ListBinding(h, e, n, v, w);
    case TContainer(ts) => ContainerBinding(h, ts, v, w);
  }

  lemma VecBinding(h: Hash, v: Val, w: Val)
    requires v.Vec? && w.Vec? && |v.bytes| == |w.bytes| && Root(h, v) == Root(h, w)
    ensures Alike(v, w) || Collision(h, v, w)
  {
    hide Tree, TreeHashes, Fit, Pack, TreeCollision, Collide;
    var a, b, d := Pack(v.bytes), Pack(w.bytes), Depth(|Pack(v.bytes)|);
    TreeBinding(h, Fit(a, Pow2(d)), Fit(b, Pow2(d)), d);
    if Fit(a, Pow2(d)) == Fit(b, Pow2(d)) {
      PackEqual(v.bytes, w.bytes, Pow2(d));
    } else {
      LiftTree(h, v, w, a, b, d);
    }
  }

  lemma ByteListBinding(h: Hash, n: nat, v: Val, w: Val)
    requires HasShape(TByteList(n), v) && HasShape(TByteList(n), w) && Root(h, v) == Root(h, w)
    ensures Alike(v, w) || Collision(h, v, w)
  {
    hide Tree, TreeHashes, Fit, Pack, TreeCollision, Collide, LenChunk;
    var a, b, d := Pack(v.bytes), Pack(w.bytes), Depth((n + 31) / 32);
    var p, q := (Merkleize(h, a, d), LenChunk(|v.bytes|)), (Merkleize(h, b, d), LenChunk(|w.bytes|));
    assert Hashed(h, v, p) && Hashed(h, w, q);
    if TreeCollision(h, Fit(a, Pow2(d)), Fit(b, Pow2(d)), d) {
      LiftTree(h, v, w, a, b, d);
    } else if !Collide(h, p, q) {
      ListRootExact(h, a, |v.bytes|, b, |w.bytes|, d);
      PackEqual(v.bytes, w.bytes, Pow2(d));
    }
  }

  /** Children with equal roots are alike, or collide. */
  lemma {:induction false} ItemsBinding(h: Hash, ts: seq<Typ>, v: Val, w: Val, vs: seq<Val>, ws: seq<Val>, n: nat)
    requires (v.List? && w.List? && vs == v.items && ws == w.items) ||
             (v.Container? && w.Container? && vs == v.fields && ws == w.fields)
    requires |vs| == |ws| == |ts|
    requires forall i :: 0 <= i < |vs| ==> HasShape(ts[i], vs[i]) && HasShape(ts[i], ws[i])
    requires forall i :: 0 <= i < |vs| && i < n ==> Roots(h, vs)[i] == Roots(h, ws)[i]
    ensures Collision(h, v, w) || forall i :: 0 <= i < |vs| && i < n ==> Alike(vs[i], ws[i])
    decreases v, 0, 0
  {
    hide Hashed, Collision, Alike;
    forall i | 0 <= i < |vs| && i < n
      ensures Collision(h, v, w) || Alike(vs[i], ws[i])
    {
      assert Root(h, vs[i]) == Roots(h, vs)[i] == Roots(h, ws)[i] == Root(h, ws[i]);
      RootBinding(h, ts[i], vs[i], ws[i]);
      if !Alike(vs[i], ws[i]) { ChildCollision(h, v, w, vs, ws, i); }
    }
  }

  lemma {:induction false} ContainerBinding(h: Hash, ts: seq<Typ>, v: Val, w: Val)
    requires HasShape(TContainer(ts), v) && HasShape(TContainer(ts), w) && Root(h, v) == Root(h, w)
    ensures Alike(v, w) || Collision(h, v, w)
    decreases v, 0, 1
  {
    hide Tree, TreeHashes, Fit, TreeCollision, Collision;
    var vs, ws, d := v.fields, w.fields, Depth(|ts|);
    var a, b := Roots(h, vs), Roots(h, ws);
    TreeBinding(h, Fit(a, Pow2(d)), Fit(b, Pow2(d)), d);
    if Fit(a, Pow2(d)) == Fit(b, Pow2(d)) {
      FitEqual(a, b, Pow2(d));
      ItemsBinding(h, ts, v, w, vs, ws, |vs|);
    } else {
      LiftTree(h, v, w, a, b, d);
    }
  }

  lemma {:induction false} ListBinding(h: Hash, e: Typ, n: nat, v: Val, w: Val)
    requires HasShape(TList(e, n), v) && HasShape(TList(e, n), w) && Root(h, v) == Root(h, w)
    ensures Alike(v, w) || Collision(h, v, w)
    decreases v, 0, 1
  {
    hide Tree, TreeHashes, Fit, TreeCollision, Collide, LenChunk;
    var vs, ws, d := v.items, w.items, Depth(n);
    var a, b := Roots(h, vs), Roots(h, ws);
    var p, q := (Merkleize(h, a, d), LenChunk(|vs|)), (Merkleize(h, b, d), LenChunk(|ws|));
    assert Hashed(h, v, p) && Hashed(h, w, q);
    if TreeCollision(h, Fit(a, Pow2(d)), Fit(b, Pow2(d)), d) {
      LiftTree(h, v, w, a, b, d);
    } else if !Collide(h, p, q) {
      ListRootExact(h, a, |vs|, b, |ws|, d);
      FitEqual(a, b, Pow2(d));
      ItemsBinding(h, seq(|vs|, _ => e), v, w, vs, ws, Leaves(n));
    }
  }

  /** The converse, for every hash: values that are alike have one root. */
  lemma {:induction false} AlikeRoots(h: Hash, v: Val, w: Val)
    requires Alike(v, w)
    ensures Root(h, v) == Root(h, w)
    decreases v, 1
  {
    hide Tree, Fit, Pack, Roots;
    match v
    case Vec(_) =>
    case ByteList(a, l) =>
      PackEqual(a, w.bytes, Leaves((l + 31) / 32));
    case List(vs, l) =>
      AlikeChildren(h, v, vs, w.items, Leaves(l));
    case Container(vs) =>
      AlikeChildren(h, v, vs, w.fields, Leaves(|vs|));
  }

  lemma {:induction false} AlikeChildren(h: Hash, v: Val, vs: seq<Val>, ws: seq<Val>, n: nat)
    requires (v.List? && vs == v.items) || (v.Container? && vs == v.fields)
    requires |vs| == |ws| && forall i :: 0 <= i < |vs| && i < n ==> Alike(vs[i], ws[i])
    ensures Fit(Roots(h, vs), n) == Fit(Roots(h, ws), n)
    decreases v, 0
  {
    hide Root, Fit, Alike;
    forall i | 0 <= i < |vs| && i < n
      ensures Roots(h, vs)[i] == Roots(h, ws)[i]
    {
      AlikeRoots(h, vs[i], ws[i]);
    }
    FitEqual(Roots(h, vs), Roots(h, ws), n);
  }

  /** What a root binds, exactly, for values of any lengths. */
  lemma RootExact(h: Hash, t: Typ, v: Val, w: Val)
    requires HasShape(t, v) && HasShape(t, w) && !Collision(h, v, w)
    ensures Root(h, v) == Root(h, w) <==> Alike(v, w)
  {
    hide Root, HasShape, Alike, Collision;
    if Root(h, v) == Root(h, w) {
      RootBinding(h, t, v, w);
    } else if Alike(v, w) {
      AlikeRoots(h, v, w);
    }
  }

  /** A value within its limits is alike only to itself. */
  lemma {:induction false} TypedAlike(t: Typ, v: Val, w: Val)
    requires HasType(t, v) && HasShape(t, w) && Alike(v, w)
    ensures v == w
    decreases v
  {
    match t
    case TVec(n) =>
    case TByteList(n) =>
      assert v.bytes == w.bytes;
    case TList(e, n) =>
      forall i | 0 <= i < |v.items|
        ensures v.items[i] == w.items[i]
      {
        TypedAlike(e, v.items[i], w.items[i]);
      }
      assert v.items == w.items;
    case TContainer(ts) =>
      forall i | 0 <= i < |ts|
        ensures v.fields[i] == w.fields[i]
      {
        TypedAlike(ts[i], v.fields[i], w.fields[i]);
      }
      assert v.fields == w.fields;
  }

  /** The binding theorem when one value is within its limits, and nothing is known of the lists of the other. */
  lemma OneSidedBinding(h: Hash, t: Typ, v: Val, w: Val)
    requires HasType(t, v) && HasShape(t, v) && HasShape(t, w) && Root(h, v) == Root(h, w)
    ensures v == w || Collision(h, v, w)
  {
    hide Root, HasShape, HasType, Alike, Collision;
    RootBinding(h, t, v, w);
    if Alike(v, w) { TypedAlike(t, v, w); }
  }

  /** Types that have two values, and whose limits are powers of two in chunks, so that padding adds nothing. */
  ghost predicate Sharp(t: Typ) {
    match t
    case TVec(n) => n > 0
    case TByteList(n) => LeafBytes(n) == n
    case TList(e, n) => Leaves(n) == n && Sharp(e)
    case TContainer(ts) => ts != [] && forall i :: 0 <= i < |ts| ==> Sharp(ts[i])
  }

  function OtherByte(b: Byte): Byte {
    if b == 0 then 1 else 0
  }

  /** Another value of the form. */
  function Other(t: Typ, v: Val): Val
    decreases t
  {
    match (t, v)
    case (TVec(n), Vec(b)) => if b == [] then v else Vec([OtherByte(b[0])] + b[1..])
    case (TByteList(n), ByteList(b, l)) => ByteList(if b == [] then [0] else [], l)
    case (TList(e, n), List(vs, l)) => List(if vs == [] then [DefaultVal(e)] else [], l)
    case (TContainer(ts), Container(vs)) =>
      if ts == [] || vs == [] then v else Container([Other(ts[0], vs[0])] + vs[1..])
    case _ => v
  }

  lemma {:induction false} OtherDiffers(t: Typ, v: Val)
    requires Sharp(t) && HasShape(t, v)
    ensures HasShape(t, Other(t, v)) && Other(t, v) != v
    decreases t
  {
    match t
    case TVec(n) => assert Other(t, v).bytes[0] != v.bytes[0];
    case TByteList(n) =>
    case TList(e, n) => DefaultShaped(e);
    case TContainer(ts) =>
      OtherDiffers(ts[0], v.fields[0]);
      assert Other(t, v).fields[0] != v.fields[0];
  }

  lemma {:induction false} DefaultShaped(t: Typ)
    ensures HasShape(t, DefaultVal(t))
  {
    if t.TContainer? {
      forall i | 0 <= i < |t.fields|
        ensures HasShape(t.fields[i], DefaultVal(t.fields[i]))
      {
        DefaultShaped(t.fields[i]);
      }
    }
  }

  lemma {:induction false} AlikeSelf(v: Val)
    ensures Alike(v, v)
  {
    match v
    case Vec(_) =>
    case ByteList(_, _) =>
    case List(vs, _) =>
      forall i | 0 <= i < |vs|
        ensures Alike(vs[i], vs[i])
      {
        AlikeSelf(vs[i]);
      }
    case Container(vs) =>
      forall i | 0 <= i < |vs|
        ensures Alike(vs[i], vs[i])
      {
        AlikeSelf(vs[i]);
      }
  }

  /** Past its limits nothing is bound: a value with a list over its limit has a different one of its form that is
      alike, and so has the same root for every hash. */
  lemma {:induction false} OverLimitUnbound(t: Typ, v: Val) returns (w: Val)
    requires Sharp(t) && HasShape(t, v) && !HasType(t, v)
    ensures HasShape(t, w) && w != v && Alike(v, w)
    decreases v
  {
    match t
    case TVec(n) => assert false;
    case TByteList(n) =>
      var k := |v.bytes| - 1;
      w := ByteList(v.bytes[k := OtherByte(v.bytes[k])], n);
      assert w.bytes[k] != v.bytes[k];
    case TList(e, n) =>
      w := OverLimitList(e, n, v);
    case TContainer(ts) =>
      var i :| 0 <= i < |ts| && !HasType(ts[i], v.fields[i]);
      var x := OverLimitUnbound(ts[i], v.fields[i]);
      w := Container(v.fields[i := x]);
      ChangedAt(v.fields, i, x);
      assert w.fields[i] != v.fields[i];
  }

  lemma {:induction false} OverLimitList(e: Typ, n: nat, v: Val) returns (w: Val)
    requires Sharp(TList(e, n)) && HasShape(TList(e, n), v) && !HasType(TList(e, n), v)
    ensures HasShape(TList(e, n), w) && w != v && Alike(v, w)
    decreases v, 0
  {
    var vs := v.items;
    if |vs| > n {
      var k := |vs| - 1;
      OtherDiffers(e, vs[k]);
      w := List(vs[k := Other(e, vs[k])], n);
      assert w.items[k] != vs[k];
      forall i | 0 <= i < |vs| && i < Leaves(n)
        ensures Alike(vs[i], w.items[i])
      {
        AlikeSelf(vs[i]);
      }
    } else {
      var i :| 0 <= i < |vs| && !HasType(e, vs[i]);
      var x := OverLimitUnbound(e, vs[i]);
      w := List(vs[i := x], n);
      ChangedAt(vs, i, x);
      assert w.items[i] != vs[i];
    }
  }

  lemma ChangedAt(vs: seq<Val>, i: nat, x: Val)
    requires i < |vs| && Alike(vs[i], x)
    ensures forall j :: 0 <= j < |vs| ==> Alike(vs[j], vs[i := x][j])
  {
    forall j | 0 <= j < |vs|
      ensures Alike(vs[j], vs[i := x][j])
    {
      AlikeSelf(vs[j]);
    }
  }

  /** The exact condition: what a root sees determines a value if and only if its lists are within their limits. */
  lemma TypedIffBound(t: Typ, v: Val)
    requires Sharp(t) && HasShape(t, v)
    ensures HasType(t, v) <==> forall w :: HasShape(t, w) && Alike(v, w) ==> w == v
  {
    hide HasShape, HasType, Alike, Sharp;
    if HasType(t, v) {
      forall w | HasShape(t, w) && Alike(v, w)
        ensures w == v
      {
        TypedAlike(t, v, w);
      }
    } else {
      var w := OverLimitUnbound(t, v);
      assert HasShape(t, w) && Alike(v, w) && w != v;
    }
  }
}
