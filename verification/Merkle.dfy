/** Binary Merkle trees over 32-byte chunks, as a top-down definition, and the layer
    by layer computation that refines it. The hash is a parameter. */
module Merkle {
  import opened ByteCodec

  type Chunk = Bytes32
  type HashFn = (Chunk, Chunk) -> Chunk

  const ZERO: Chunk := Zeros(32)

  function Pow2(d: nat): (p: nat)
    ensures p > 0
  {
    if d == 0 then 1 else 2 * Pow2(d - 1)
  }

  /** Height of the smallest complete tree with at least `n` leaves. */
  function Depth(n: nat): nat {
    if n <= 1 then 0 else 1 + Depth((n + 1) / 2)
  }

  lemma {:induction false} DepthIsEnough(n: nat)
    ensures n <= Pow2(Depth(n))
  {
    if n > 1 {
      DepthIsEnough((n + 1) / 2);
    }
  }

  function Right(xs: seq<Chunk>, k: nat): (ys: seq<Chunk>)
    ensures |ys| == |xs| - Min(|xs|, k)
  {
    xs[Min(|xs|, k)..]
  }

  /** The root of the complete tree of height `d` whose leaves are `xs`, then `z`s. */
  function Root(h: HashFn, xs: seq<Chunk>, d: nat, z: Chunk): Chunk
    requires |xs| <= Pow2(d)
    decreases d
  {
    if d == 0 then if xs == [] then z else xs[0]
    else
      var k := Pow2(d - 1);
      h(Root(h, Take(xs, k), d - 1, z), Root(h, Right(xs, k), d - 1, z))
  }

  /** Root of an empty subtree of height `d`. */
  function ZeroHash(h: HashFn, d: nat): Chunk {
    if d == 0 then ZERO else h(ZeroHash(h, d - 1), ZeroHash(h, d - 1))
  }

  /** One layer up: neighbours are hashed together, an odd last chunk with `z`. */
  function PairUp(h: HashFn, xs: seq<Chunk>, z: Chunk): (ys: seq<Chunk>)
    ensures |ys| == (|xs| + 1) / 2
  {
    if xs == [] then []
    else if |xs| == 1 then [h(xs[0], z)]
    else [h(xs[0], xs[1])] + PairUp(h, xs[2..], z)
  }

  lemma {:induction false} PairUpConcat(h: HashFn, a: seq<Chunk>, b: seq<Chunk>, z: Chunk)
    requires |a| % 2 == 0
    ensures PairUp(h, a + b, z) == PairUp(h, a, z) + PairUp(h, b, z)
    decreases |a|
  {
    if a == [] {
      assert a + b == b;
    } else {
      assert (a + b)[2..] == a[2..] + b;
      PairUpConcat(h, a[2..], b, z);
    }
  }

  lemma PairUpSplits(h: HashFn, xs: seq<Chunk>, z: Chunk, k: nat)
    ensures PairUp(h, Take(xs, 2 * k), z) == Take(PairUp(h, xs, z), k)
    ensures PairUp(h, Right(xs, 2 * k), z) == Right(PairUp(h, xs, z), k)
  {
    if |xs| >= 2 * k {
      assert xs == Take(xs, 2 * k) + Right(xs, 2 * k);
      PairUpConcat(h, Take(xs, 2 * k), Right(xs, 2 * k), z);
    } else {
      assert Take(xs, 2 * k) == xs;
    }
  }

  /** Hashing one layer of the tree and then taking the root of a lower tree gives the
      same root. */
  lemma {:induction false} LayerKeepsRoot(h: HashFn, xs: seq<Chunk>, d: nat, z: Chunk)
    requires |xs| <= Pow2(d + 1)
    ensures Root(h, xs, d + 1, z) == Root(h, PairUp(h, xs, z), d, h(z, z))
    decreases d
  {
    if d > 0 {
      hide Take, Right, PairUp;
      var k := Pow2(d);
      PairUpSplits(h, xs, z, Pow2(d - 1));
      LayerKeepsRoot(h, Take(xs, k), d - 1, z);
      LayerKeepsRoot(h, Right(xs, k), d - 1, z);
    } else {
      PairOfLeaves(h, xs, z);
    }
  }

  lemma PairOfLeaves(h: HashFn, xs: seq<Chunk>, z: Chunk)
    requires |xs| <= Pow2(1)
    ensures Root(h, xs, 1, z) == Root(h, PairUp(h, xs, z), 0, h(z, z))
  {
    assert Root(h, Take(xs, 1), 0, z) == if xs == [] then z else xs[0];
    assert Root(h, Right(xs, 1), 0, z) == if |xs| <= 1 then z else xs[1];
  }

  lemma {:induction false} EmptyRoot(h: HashFn, d: nat)
    ensures Root(h, [], d, ZERO) == ZeroHash(h, d)
  {
    if d > 0 {
      EmptyRoot(h, d - 1);
    }
  }

  /** The hasher's merkleization: bottom up, padding odd layers with the zero hash of
      their height. A limit of zero stands for the number of chunks. */
  method Merkleize(h: HashFn, input: seq<Chunk>, limit: nat) returns (root: Chunk)
    requires limit == 0 || |input| <= limit
    ensures var cap := if limit == 0 then |input| else limit;
      |input| <= Pow2(Depth(cap)) && root == Root(h, input, Depth(cap), ZERO)
  {
    var cap := if limit == 0 then |input| else limit;
    DepthIsEnough(cap);
    if cap <= 1 {
      return if |input| == 1 then input[0] else ZERO;
    }
    if |input| == 0 {
      EmptyRoot(h, Depth(cap));
      return ZeroHash(h, Depth(cap));
    }
    root := HashLayers(h, input, Depth(cap));
  }

  lemma RootOfOne(h: HashFn, xs: seq<Chunk>, z: Chunk)
    requires 0 < |xs| <= Pow2(0)
    ensures Root(h, xs, 0, z) == xs[0]
  {
  }

  method HashLayers(h: HashFn, input: seq<Chunk>, depth: nat) returns (root: Chunk)
    requires 0 < |input| <= Pow2(depth)
    ensures root == Root(h, input, depth, ZERO)
  {
    hide PairUp, Root, ZERO;
    var layer: seq<Chunk>, left: nat, zero: Chunk := input, depth, ZERO;
    while left > 0
      invariant 0 < |layer| <= Pow2(left)
      invariant Root(h, input, depth, ZERO) == Root(h, layer, left, zero)
    {
      LayerKeepsRoot(h, layer, left - 1, zero);
      layer, left, zero := PairUp(h, layer, zero), left - 1, h(zero, zero);
    }
    RootOfOne(h, layer, zero);
    root := layer[0];
  }

  // --------------------------------------------------------------- packing

  function Pad32(b: Bytes): Chunk
    requires |b| <= 32
  {
    b + Zeros(32 - |b|)
  }

  /** Bytes cut into chunks, the last one filled up with zeros. */
  function Pack(b: Bytes): (cs: seq<Chunk>)
    ensures |cs| == (|b| + 31) / 32
  {
    if b == [] then []
    else if |b| <= 32 then [Pad32(b)]
    else [b[..32]] + Pack(b[32..])
  }

  function Concat(cs: seq<Chunk>): (b: Bytes)
    ensures |b| == 32 * |cs|
  {
    if cs == [] then [] else cs[0] + Concat(cs[1..])
  }

  lemma {:induction false} PackConcat(cs: seq<Chunk>)
    ensures Pack(Concat(cs)) == cs
  {
    if cs != [] {
      PackConcat(cs[1..]);
      Cut(cs[0], Concat(cs[1..]));
      assert cs == [cs[0]] + cs[1..];
      if |cs| == 1 {
        assert Concat(cs[1..]) == [];
        assert cs[0] + [] == cs[0];
        assert Pad32(cs[0]) == cs[0];
      }
    }
  }

  /** How many zeros follow `n` bytes up to the next multiple of 32. */
  function Filler(n: nat): (k: nat)
    ensures k < 32 && (n + k) % 32 == 0
  {
    (32 - n % 32) % 32
  }

  lemma FillerUnique(n: nat, k: nat)
    requires k < 32 && (n + k) % 32 == 0
    ensures Filler(n) == k
  {
  }

  /** Whole chunks in front need no more zeros. */
  lemma FillerOfSum(m: nat, n: nat)
    requires m % 32 == 0
    ensures Filler(m + n) == Filler(n)
  {
    FillerUnique(m + n, Filler(n));
  }

  /** Bytes followed by zeros up to the next multiple of 32. */
  function Padded(b: Bytes): (p: Bytes)
    ensures |p| % 32 == 0
  {
    b + Zeros(Filler(|b|))
  }

  /** Padding the whole buffer pads the part after an aligned index. */
  lemma PaddedTail(a: Bytes, b: Bytes)
    requires |a| % 32 == 0
    ensures Padded(a + b) == a + Padded(b)
  {
    hide Filler;
    FillerOfSum(|a|, |b|);
    Assoc(a, b, Zeros(Filler(|b|)));
  }

  lemma {:induction false} PaddedIsConcat(b: Bytes)
    ensures Padded(b) == Concat(Pack(b))
    decreases |b|
  {
    if b == [] {
      FillerUnique(0, 0);
    } else if |b| <= 32 {
      FillerUnique(|b|, 32 - |b|);
      assert Concat([Pad32(b)][1..]) == [];
      assert Pad32(b) + [] == Pad32(b);
    } else {
      hide Padded, Filler;
      PaddedIsConcat(b[32..]);
      Rejoin(b, 32);
      PaddedTail(b[..32], b[32..]);
      ConcatPack(b);
    }
  }

  lemma ConcatPack(b: Bytes)
    requires |b| > 32
    ensures Concat(Pack(b)) == b[..32] + Concat(Pack(b[32..]))
  {
    assert Pack(b)[1..] == Pack(b[32..]);
  }

  lemma {:induction false} PackInjective(a: Bytes, b: Bytes)
    requires |a| == |b| && Pack(a) == Pack(b)
    ensures a == b
    decreases |a|
  {
    if a == [] {
    } else if |a| <= 32 {
      assert Pad32(a) == Pack(a)[0] == Pack(b)[0] == Pad32(b);
      assert a == Pad32(a)[..|a|] && b == Pad32(b)[..|b|];
    } else {
      assert a[..32] == Pack(a)[0] == Pack(b)[0] == b[..32];
      assert Pack(a)[1..] == Pack(a[32..]) && Pack(b)[1..] == Pack(b[32..]);
      PackInjective(a[32..], b[32..]);
      Rejoin(a, 32);
      Rejoin(b, 32);
    }
  }

  // ------------------------------------------------ zero padding is invisible

  function Leaf(xs: seq<Chunk>, i: nat, z: Chunk): Chunk {
    if i < |xs| then xs[i] else z
  }

  lemma LeafOfHalf(xs: seq<Chunk>, i: nat, k: nat, z: Chunk)
    ensures Leaf(xs, i, z) == if i < k then Leaf(Take(xs, k), i, z) else Leaf(Right(xs, k), i - k, z)
  {
  }

  /** A root depends only on its leaves, not on whether trailing zero chunks are there. */
  lemma {:induction false} RootByLeaves(h: HashFn, xs: seq<Chunk>, ys: seq<Chunk>, d: nat, z: Chunk)
    requires |xs| <= Pow2(d) && |ys| <= Pow2(d)
    requires forall i :: 0 <= i < Pow2(d) ==> Leaf(xs, i, z) == Leaf(ys, i, z)
    ensures Root(h, xs, d, z) == Root(h, ys, d, z)
    decreases d
  {
    if d == 0 {
      assert Leaf(xs, 0, z) == Leaf(ys, 0, z);
    } else {
      var k := Pow2(d - 1);
      forall i | 0 <= i < k
        ensures Leaf(Take(xs, k), i, z) == Leaf(Take(ys, k), i, z)
        ensures Leaf(Right(xs, k), i, z) == Leaf(Right(ys, k), i, z)
      {
        assert Leaf(xs, i, z) == Leaf(ys, i, z);
        assert Leaf(xs, i + k, z) == Leaf(ys, i + k, z);
      }
      RootByLeaves(h, Take(xs, k), Take(ys, k), d - 1, z);
      RootByLeaves(h, Right(xs, k), Right(ys, k), d - 1, z);
    }
  }

  lemma {:induction false} PackTrailingZero(b: Bytes, i: nat)
    ensures Leaf(Pack(b + [0]), i, ZERO) == Leaf(Pack(b), i, ZERO)
    decreases |b|
  {
    if |b| < 32 {
      assert Pad32(b + [0]) == Pad32(b);
      if b == [] {
        assert Pad32(b) == ZERO;
      }
    } else {
      assert (b + [0])[..32] == b[..32] && (b + [0])[32..] == b[32..] + [0];
      assert Pack(b + [0]) == [b[..32]] + Pack(b[32..] + [0]);
      if |b| == 32 {
        assert Pad32(b) == b[..32] && b[32..] == [];
      }
      if i > 0 {
        PackTrailingZero(b[32..], i - 1);
      }
    }
  }

  /** Bytes without their trailing zeros. */
  function Stripped(b: Bytes): (c: Bytes)
    ensures |c| <= |b| && (c == [] || c[|c| - 1] != 0)
  {
    if b == [] then [] else if b[|b| - 1] != 0 then b else Stripped(b[..|b| - 1])
  }

  lemma {:induction false} PackStripped(b: Bytes, i: nat)
    ensures Leaf(Pack(Stripped(b)), i, ZERO) == Leaf(Pack(b), i, ZERO)
  {
    if b != [] && b[|b| - 1] == 0 {
      var front := b[..|b| - 1];
      PackStripped(front, i);
      PackTrailingZero(front, i);
      assert b == front + [0];
    }
  }

  // ------------------------------------------------------ collision freedom

  /** The pair whose hash is the root of a tree of height `d`. */
  function Kids(h: HashFn, xs: seq<Chunk>, d: nat, z: Chunk): (Chunk, Chunk)
    requires d > 0 && |xs| <= Pow2(d)
  {
    (Root(h, Take(xs, Pow2(d - 1)), d - 1, z), Root(h, Right(xs, Pow2(d - 1)), d - 1, z))
  }

  /** Every pair hashed on the way to a root is in `s`. */
  predicate Covers(s: set<(Chunk, Chunk)>, h: HashFn, xs: seq<Chunk>, d: nat, z: Chunk)
    requires |xs| <= Pow2(d)
    decreases d
  {
    d == 0 ||
    (&& Kids(h, xs, d, z) in s
     && Covers(s, h, Take(xs, Pow2(d - 1)), d - 1, z)
     && Covers(s, h, Right(xs, Pow2(d - 1)), d - 1, z))
  }

  /** No two different pairs in `s` hash to the same chunk. */
  ghost predicate NoCollision(h: HashFn, s: set<(Chunk, Chunk)>) {
    forall p, q :: p in s && q in s && h(p.0, p.1) == h(q.0, q.1) ==> p == q
  }

  lemma SameHashSamePair(h: HashFn, s: set<(Chunk, Chunk)>, p: (Chunk, Chunk), q: (Chunk, Chunk))
    requires NoCollision(h, s) && p in s && q in s && h(p.0, p.1) == h(q.0, q.1)
    ensures p == q
  {
  }

  /** Equal roots at equal height mean equal leaves, unless two of the pairs hashed on
      the way collide. */
  lemma {:induction false} RootDeterminesLeaves(h: HashFn, xs: seq<Chunk>, ys: seq<Chunk>, d: nat, z: Chunk,
                                                s: set<(Chunk, Chunk)>, i: nat)
    requires |xs| <= Pow2(d) && |ys| <= Pow2(d) && i < Pow2(d)
    requires Root(h, xs, d, z) == Root(h, ys, d, z)
    requires NoCollision(h, s) && Covers(s, h, xs, d, z) && Covers(s, h, ys, d, z)
    ensures Leaf(xs, i, z) == Leaf(ys, i, z)
    decreases d
  {
    hide Take, Right;
    if d > 0 {
      hide Leaf;
      var k := Pow2(d - 1);
      SameHashSamePair(h, s, Kids(h, xs, d, z), Kids(h, ys, d, z));
      LeafOfHalf(xs, i, k, z);
      LeafOfHalf(ys, i, k, z);
      if i < k {
        RootDeterminesLeaves(h, Take(xs, k), Take(ys, k), d - 1, z, s, i);
      } else {
        RootDeterminesLeaves(h, Right(xs, k), Right(ys, k), d - 1, z, s, i - k);
      }
    }
  }

  lemma RootInjective(h: HashFn, xs: seq<Chunk>, ys: seq<Chunk>, d: nat, z: Chunk, s: set<(Chunk, Chunk)>)
    requires |xs| == |ys| <= Pow2(d)
    requires Root(h, xs, d, z) == Root(h, ys, d, z)
    requires NoCollision(h, s) && Covers(s, h, xs, d, z) && Covers(s, h, ys, d, z)
    ensures xs == ys
  {
    forall i | 0 <= i < |xs| ensures xs[i] == ys[i] {
      RootDeterminesLeaves(h, xs, ys, d, z, s, i);
      assert Leaf(xs, i, z) == xs[i] && Leaf(ys, i, z) == ys[i];
    }
  }
}
