/** The hash tree roots written out: every container the program hashes, as nested hashes of
    its named fields. */
module RootFormulas {
  import opened ByteCodec
  import opened Ssz
  import opened SszProofs
  import opened Merkle
  import opened HashTree
  import opened Schemas
  import opened Transactions
  import opened Bitlists

  // ------------------------------------------------------------------ trees by position

  /** The complete tree of height `d` over the leaves from number `p` on, which are `xs` and
      then zeros. */
  function Tree(h: HashFn, xs: seq<Chunk>, d: nat, p: nat): Chunk {
    if d == 0 then if p < |xs| then xs[p] else Zeros(32)
    else h(Tree(h, xs, d - 1, p), Tree(h, xs, d - 1, p + Pow2(d - 1)))
  }

  /** Two leaves, numbered from different starts, are equal. */
  predicate SameLeaf(xs: seq<Chunk>, p: nat, ys: seq<Chunk>, q: nat, k: nat) {
    Leaf(xs, p + k, ZERO) == Leaf(ys, q + k, ZERO)
  }

  lemma {:induction false} SameLeavesSameTree(h: HashFn, xs: seq<Chunk>, ys: seq<Chunk>, d: nat, p: nat, q: nat)
    requires forall k :: 0 <= k < Pow2(d) ==> SameLeaf(xs, p, ys, q, k)
    ensures Tree(h, xs, d, p) == Tree(h, ys, d, q)
    decreases d
  {
    if d == 0 {
      assert SameLeaf(xs, p, ys, q, 0);
    } else {
      var half := Pow2(d - 1);
      SameLeavesSameTree(h, xs, ys, d - 1, p, q);
      var p', q' := p + half, q + half;
      forall k | 0 <= k < half ensures SameLeaf(xs, p', ys, q', k) {
        assert SameLeaf(xs, p, ys, q, half + k);
      }
      SameLeavesSameTree(h, xs, ys, d - 1, p', q');
    }
  }

  /** The root of a tree is its topmost node. */
  lemma {:induction false} RootIsTree(h: HashFn, xs: seq<Chunk>, d: nat)
    requires |xs| <= Pow2(d)
    ensures Root(h, xs, d, ZERO) == Tree(h, xs, d, 0)
    decreases d
  {
    hide Take, Right, Leaf, SameLeaf;
    if d > 0 {
      var half := Pow2(d - 1);
      RootIsTree(h, Take(xs, half), d - 1);
      RootIsTree(h, Right(xs, half), d - 1);
      HalvesSameLeaves(xs, half);
      SameLeavesSameTree(h, Take(xs, half), xs, d - 1, 0, 0);
      SameLeavesSameTree(h, Right(xs, half), xs, d - 1, 0, half);
    }
  }

  lemma HalvesSameLeaves(xs: seq<Chunk>, half: nat)
    ensures forall k :: 0 <= k < half ==> SameLeaf(Take(xs, half), 0, xs, 0, k)
    ensures forall k :: 0 <= k < half ==> SameLeaf(Right(xs, half), 0, xs, half, k)
  {
    forall k | 0 <= k < half
      ensures SameLeaf(Take(xs, half), 0, xs, 0, k)
      ensures SameLeaf(Right(xs, half), 0, xs, half, k)
    {
      LeafOfHalf(xs, k, half, ZERO);
      LeafOfHalf(xs, half + k, half, ZERO);
    }
  }

  lemma {:induction false} DepthOfPow2(d: nat)
    ensures Depth(Pow2(d)) == d
  {
    if d > 0 {
      DepthOfPow2(d - 1);
      assert (Pow2(d) + 1) / 2 == Pow2(d - 1);
    }
  }

  lemma Heights()
    ensures Pow2(1) == 2 && Pow2(2) == 4 && Pow2(3) == 8 && Pow2(4) == 16 && Pow2(7) == 128 && Pow2(9) == 512
    ensures Pow2(20) == 0x10_0000 && Pow2(25) == 0x200_0000
  {
    assert Pow2(4) == 16 && Pow2(8) == 256 && Pow2(12) == 0x1000 && Pow2(16) == 0x1_0000;
    assert Pow2(20) == 0x10_0000 && Pow2(24) == 0x100_0000;
  }

  /** With room for 2^d chunks the root is that of a tree of height `d`. */
  lemma RoomForPow2(h: HashFn, xs: seq<Chunk>, d: nat)
    requires |xs| <= Pow2(d)
    ensures LimitedRoot(h, xs, Pow2(d)) == Tree(h, xs, d, 0)
  {
    DepthOfPow2(d);
    RootIsTree(h, xs, d);
  }

  /** Without a limit the tree is just high enough. */
  lemma RoomForAll(h: HashFn, xs: seq<Chunk>, d: nat)
    requires Depth(|xs|) == d
    ensures LimitedRoot(h, xs, 0) == Tree(h, xs, d, 0)
  {
    DepthIsEnough(|xs|);
    RootIsTree(h, xs, d);
  }

  const Z: Chunk := Zeros(32)

  lemma Pair(h: HashFn, xs: seq<Chunk>, p: nat)
    ensures Tree(h, xs, 1, p) == h(Leaf(xs, p, Z), Leaf(xs, p + 1, Z))
  {
    assert Pow2(0) == 1;
    assert Tree(h, xs, 0, p) == Leaf(xs, p, Z) && Tree(h, xs, 0, p + 1) == Leaf(xs, p + 1, Z);
  }

  lemma Quad(h: HashFn, xs: seq<Chunk>, p: nat)
    ensures Tree(h, xs, 2, p)
         == h(h(Leaf(xs, p, Z), Leaf(xs, p + 1, Z)), h(Leaf(xs, p + 2, Z), Leaf(xs, p + 3, Z)))
  {
    assert Pow2(1) == 2;
    Pair(h, xs, p);
    Pair(h, xs, p + 2);
  }

  lemma Eight(h: HashFn, xs: seq<Chunk>, p: nat)
    ensures Tree(h, xs, 3, p) == h(Tree(h, xs, 2, p), Tree(h, xs, 2, p + 4))
  {
    assert Pow2(2) == 4;
  }

  lemma Sixteen(h: HashFn, xs: seq<Chunk>)
    ensures Tree(h, xs, 4, 0)
         == h(h(Tree(h, xs, 2, 0), Tree(h, xs, 2, 4)), h(Tree(h, xs, 2, 8), Tree(h, xs, 2, 12)))
  {
    assert Pow2(3) == 8;
    Eight(h, xs, 0);
    Eight(h, xs, 8);
  }

  // ----------------------------------------------------------------------------- leaves

  function Four(h: HashFn, a: Chunk, b: Chunk, c: Chunk, d: Chunk): Chunk {
    h(h(a, b), h(c, d))
  }

  /** A number, and a short byte string, in a chunk. */
  function Word(n: nat): Chunk {
    LE(n, 8) + Zeros(24)
  }

  function Short(b: Bytes): Chunk
    requires |b| <= 32
  {
    b + Zeros(32 - |b|)
  }

  lemma NumberRoot(h: HashFn, n: u64)
    ensures HashTreeRoot(h, U64, Num(n)) == Word(n) && LenChunk(n) == Word(n)
  {
  }

  lemma ShortRoot(h: HashFn, b: Bytes)
    requires 0 < |b| <= 32
    ensures HashTreeRoot(h, Vec(|b|), Blob(b)) == Short(b)
  {
    hide LE;
    var xs := Pack(b);
    assert xs == [Short(b)] && Depth(1) == 0;
    RoomForAll(h, xs, 0);
  }

  lemma HashRoot(h: HashFn, b: Bytes32)
    ensures HashTreeRoot(h, Vec(32), Blob(b)) == b
  {
    ShortRoot(h, b);
    assert b + Zeros(0) == b;
  }

  lemma Chunks(b: Bytes)
    requires 32 < |b| <= 96
    ensures |b| <= 64 ==> Pack(b) == [b[..32], Short(b[32..])]
    ensures |b| > 64 ==> Pack(b) == [b[..32], b[32..64], Short(b[64..])]
  {
    var c := b[32..];
    assert Pack(b) == [b[..32]] + Pack(c);
    if |b| <= 64 {
      assert Pack(c) == [Short(c)];
    } else {
      assert c[..32] == b[32..64] && c[32..] == b[64..];
      assert Pack(c) == [c[..32]] + Pack(c[32..]);
      assert Pack(b[64..]) == [Short(b[64..])];
    }
  }

  /** Two chunks: a public key, or sync committee bits. */
  lemma TwoChunkRoot(h: HashFn, b: Bytes)
    requires 32 < |b| <= 64
    ensures HashTreeRoot(h, Vec(|b|), Blob(b)) == h(b[..32], Short(b[32..]))
  {
    Chunks(b);
    assert Depth(1) == 0 && Depth(2) == 1;
    RoomForAll(h, Pack(b), 1);
    Pair(h, Pack(b), 0);
  }

  /** Three chunks: a signature. */
  function SigRoot(h: HashFn, b: Bytes): Chunk
    requires |b| == 96
  {
    Four(h, b[..32], b[32..64], b[64..], Z)
  }

  lemma SignatureRoot(h: HashFn, b: Bytes)
    requires |b| == 96
    ensures HashTreeRoot(h, Vec(96), Blob(b)) == SigRoot(h, b)
  {
    Chunks(b);
    assert Short(b[64..]) == b[64..];
    assert Depth(2) == 1 && Depth(3) == 2;
    RoomForAll(h, Pack(b), 2);
    Quad(h, Pack(b), 0);
  }

  /** Eight chunks: a logs bloom. */
  function BloomRoot(h: HashFn, b: Bytes): Chunk
    requires |b| == 256
  {
    h(Four(h, b[..32], b[32..64], b[64..96], b[96..128]), Four(h, b[128..160], b[160..192], b[192..224], b[224..]))
  }

  lemma {:induction false} PackAt(b: Bytes, i: nat)
    requires 32 * i + 32 <= |b|
    ensures i < |Pack(b)| && Pack(b)[i] == b[32 * i..32 * i + 32]
    decreases i
  {
    if |b| <= 32 {
      assert Pad32(b) == b[0..32];
    } else if i > 0 {
      PackAt(b[32..], i - 1);
      assert b[32..][32 * (i - 1)..32 * (i - 1) + 32] == b[32 * i..32 * i + 32];
    }
  }

  lemma LogsBloomRoot(h: HashFn, b: Bytes)
    requires |b| == 256
    ensures HashTreeRoot(h, Vec(256), Blob(b)) == BloomRoot(h, b)
  {
    hide Pack, Tree, LimitedRoot;
    BloomChunks(b);
    var xs := Pack(b);
    assert Depth(2) == 1 && Depth(4) == 2 && Depth(8) == 3;
    RoomForAll(h, xs, 3);
    Eight(h, xs, 0);
    Quad(h, xs, 0);
    Quad(h, xs, 4);
  }

  lemma BloomChunks(b: Bytes)
    requires |b| == 256
    ensures Pack(b) == [b[..32], b[32..64], b[64..96], b[96..128], b[128..160], b[160..192], b[192..224], b[224..]]
  {
    hide Pack;
    PackAt(b, 0);
    PackAt(b, 1);
    PackAt(b, 2);
    PackAt(b, 3);
    PackAt(b, 4);
    PackAt(b, 5);
    PackAt(b, 6);
    PackAt(b, 7);
    assert b[224..256] == b[224..] && b[0..32] == b[..32];
  }

  // ------------------------------------------------------------------------- containers

  /** The roots of a container's fields, one after the other. */
  lemma FieldRoot(h: HashFn, t: Ty, v: Val, rest: Tys, vs: Vals)
    requires Typed(t, v) && HashOk(t, v) && TypedAll(rest, vs) && HashOkAll(rest, vs)
    ensures TypedAll(Field(t, rest), Cons(v, vs)) && HashOkAll(Field(t, rest), Cons(v, vs))
    ensures FieldRoots(h, Field(t, rest), Cons(v, vs)) == [HashTreeRoot(h, t, v)] + FieldRoots(h, rest, vs)
  {
    hide HashTreeRoot, Typed, HashOk;
  }

  lemma NoFieldRoots(h: HashFn)
    ensures TypedAll(End, Nil) && HashOkAll(End, Nil) && FieldRoots(h, End, Nil) == []
  {
  }

  /** A container's root is the tree over its field roots. */
  lemma ContainerRoot(h: HashFn, fs: Tys, vs: Vals, d: nat)
    requires TypedAll(fs, vs) && HashOkAll(fs, vs) && Depth(|FieldRoots(h, fs, vs)|) == d
    ensures HashTreeRoot(h, Struct(fs), Rec(vs)) == Tree(h, FieldRoots(h, fs, vs), d, 0)
  {
    hide LimitedRoot, FieldRoots;
    RoomForAll(h, FieldRoots(h, fs, vs), d);
  }

  lemma Depths()
    ensures Depth(1) == 0 && Depth(2) == 1 && Depth(3) == 2 && Depth(4) == 2 && Depth(5) == 3
    ensures Depth(10) == 4 && Depth(14) == 4
  {
    assert Depth(1) == 0 && Depth(2) == 1 && Depth(3) == 2 && Depth(4) == 2;
    assert Depth(5) == 3 && Depth(7) == 3;
  }

  lemma TwoFields(h: HashFn, t: Ty, v: Val, u: Ty, w: Val)
    requires Typed(t, v) && HashOk(t, v) && Typed(u, w) && HashOk(u, w)
    ensures var fs, vs := Field(t, Field(u, End)), Cons(v, Cons(w, Nil));
      && TypedAll(fs, vs) && HashOkAll(fs, vs)
      && HashTreeRoot(h, Struct(fs), Rec(vs)) == h(HashTreeRoot(h, t, v), HashTreeRoot(h, u, w))
  {
    hide HashTreeRoot, Typed, HashOk, FieldRoots, TypedAll, HashOkAll, Depth, Tree;
    NoFieldRoots(h);
    FieldRoot(h, u, w, End, Nil);
    FieldRoot(h, t, v, Field(u, End), Cons(w, Nil));
    Depths();
    ContainerRoot(h, Field(t, Field(u, End)), Cons(v, Cons(w, Nil)), 1);
    Pair(h, FieldRoots(h, Field(t, Field(u, End)), Cons(v, Cons(w, Nil))), 0);
  }

  lemma ThreeFields(h: HashFn, t: Ty, v: Val, u: Ty, w: Val, s: Ty, x: Val)
    requires Typed(t, v) && HashOk(t, v) && Typed(u, w) && HashOk(u, w) && Typed(s, x) && HashOk(s, x)
    ensures var fs, vs := Field(t, Field(u, Field(s, End))), Cons(v, Cons(w, Cons(x, Nil)));
      && TypedAll(fs, vs) && HashOkAll(fs, vs)
      && HashTreeRoot(h, Struct(fs), Rec(vs))
         == Four(h, HashTreeRoot(h, t, v), HashTreeRoot(h, u, w), HashTreeRoot(h, s, x), Z)
  {
    hide HashTreeRoot, Typed, HashOk, FieldRoots, TypedAll, HashOkAll, Depth, Tree;
    var fs, vs := Field(t, Field(u, Field(s, End))), Cons(v, Cons(w, Cons(x, Nil)));
    NoFieldRoots(h);
    FieldRoot(h, s, x, End, Nil);
    FieldRoot(h, u, w, fs.rest.rest, vs.rest.rest);
    FieldRoot(h, t, v, fs.rest, vs.rest);
    Depths();
    ContainerRoot(h, fs, vs, 2);
    Quad(h, FieldRoots(h, fs, vs), 0);
  }

  lemma FourFields(h: HashFn, t: Ty, v: Val, u: Ty, w: Val, s: Ty, x: Val, r: Ty, y: Val)
    requires Typed(t, v) && HashOk(t, v) && Typed(u, w) && HashOk(u, w)
    requires Typed(s, x) && HashOk(s, x) && Typed(r, y) && HashOk(r, y)
    ensures var fs, vs := Field(t, Field(u, Field(s, Field(r, End)))), Cons(v, Cons(w, Cons(x, Cons(y, Nil))));
      && TypedAll(fs, vs) && HashOkAll(fs, vs)
      && HashTreeRoot(h, Struct(fs), Rec(vs))
         == Four(h, HashTreeRoot(h, t, v), HashTreeRoot(h, u, w), HashTreeRoot(h, s, x), HashTreeRoot(h, r, y))
  {
    hide HashTreeRoot, Typed, HashOk, FieldRoots, TypedAll, HashOkAll, Depth, Tree;
    var fs, vs := Field(t, Field(u, Field(s, Field(r, End)))), Cons(v, Cons(w, Cons(x, Cons(y, Nil))));
    NoFieldRoots(h);
    FieldRoot(h, r, y, End, Nil);
    FieldRoot(h, s, x, fs.rest.rest.rest, vs.rest.rest.rest);
    FieldRoot(h, u, w, fs.rest.rest, vs.rest.rest);
    FieldRoot(h, t, v, fs.rest, vs.rest);
    Depths();
    ContainerRoot(h, fs, vs, 2);
    Quad(h, FieldRoots(h, fs, vs), 0);
  }

  lemma FiveFields(h: HashFn, t: Ty, v: Val, u: Ty, w: Val, s: Ty, x: Val, r: Ty, y: Val, q: Ty, z: Val)
    requires Typed(t, v) && HashOk(t, v) && Typed(u, w) && HashOk(u, w) && Typed(s, x) && HashOk(s, x)
    requires Typed(r, y) && HashOk(r, y) && Typed(q, z) && HashOk(q, z)
    ensures var fs := Field(t, Field(u, Field(s, Field(r, Field(q, End)))));
      var vs := Cons(v, Cons(w, Cons(x, Cons(y, Cons(z, Nil)))));
      && TypedAll(fs, vs) && HashOkAll(fs, vs)
      && HashTreeRoot(h, Struct(fs), Rec(vs))
         == h(Four(h, HashTreeRoot(h, t, v), HashTreeRoot(h, u, w), HashTreeRoot(h, s, x), HashTreeRoot(h, r, y)),
              Four(h, HashTreeRoot(h, q, z), Z, Z, Z))
  {
    hide HashTreeRoot, Typed, HashOk, FieldRoots, TypedAll, HashOkAll, Depth, Tree;
    var fs := Field(t, Field(u, Field(s, Field(r, Field(q, End)))));
    var vs := Cons(v, Cons(w, Cons(x, Cons(y, Cons(z, Nil)))));
    NoFieldRoots(h);
    FieldRoot(h, q, z, End, Nil);
    FieldRoot(h, r, y, fs.rest.rest.rest.rest, vs.rest.rest.rest.rest);
    FieldRoot(h, s, x, fs.rest.rest.rest, vs.rest.rest.rest);
    FieldRoot(h, u, w, fs.rest.rest, vs.rest.rest);
    FieldRoot(h, t, v, fs.rest, vs.rest);
    Depths();
    ContainerRoot(h, fs, vs, 3);
    Eight(h, FieldRoots(h, fs, vs), 0);
    Quad(h, FieldRoots(h, fs, vs), 0);
    Quad(h, FieldRoots(h, fs, vs), 4);
  }
}
