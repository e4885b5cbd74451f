/** The recursive hash_tree_root of the SSZ specification, and what equal roots say
    about the values. */
module HashTree {
  import opened ByteCodec
  import opened Ssz
  import opened SszProofs
  import opened Merkle

  // --------------------------------------------------------------- bitlists

  lemma MsbPower(x: u8)
    requires x > 0
    ensures Pow2(Msb(x)) <= x < 2 * Pow2(Msb(x))
  {
    assert Pow2(0) == 1 && Pow2(1) == 2 && Pow2(2) == 4 && Pow2(3) == 8;
    assert Pow2(4) == 16 && Pow2(5) == 32 && Pow2(6) == 64 && Pow2(7) == 128;
  }

  /** Number of bits the hasher mixes in. Without a delimiter bit in the last byte the
      8-bit position of its highest set bit underflows to 255. */
  function BitSize(b: Bytes): nat
    requires |b| > 0
  {
    8 * (|b| - 1) + if b[|b| - 1] > 0 then Msb(b[|b| - 1]) else 255
  }

  /** A bitlist with its delimiter bit cleared. */
  function Cleared(b: Bytes): (c: Bytes)
    requires |b| > 0
    ensures |c| == |b|
  {
    var n, last := |b| - 1, b[|b| - 1];
    if last == 0 then b else MsbPower(last); b[..n] + [last - Pow2(Msb(last))]
  }

  lemma ClearedInjective(a: Bytes, b: Bytes)
    requires |a| > 0 && a[|a| - 1] > 0 && |b| > 0 && b[|b| - 1] > 0
    requires BitCount(a) == BitCount(b) && Cleared(a) == Cleared(b)
    ensures a == b
  {
    var n, x, y := |a| - 1, a[|a| - 1], b[|b| - 1];
    MsbPower(x);
    MsbPower(y);
    assert a[..n] == Cleared(a)[..n] && b[..n] == Cleared(b)[..n];
    assert Cleared(a)[n] == x - Pow2(Msb(x)) && Cleared(b)[n] == y - Pow2(Msb(y));
    assert a == a[..n] + [x] && b == b[..n] + [y];
  }

  // ------------------------------------------------------------------- roots

  function LenChunk(n: nat): Chunk {
    Pad32(LE(n, 8))
  }

  lemma LenChunkInjective(a: u64, b: u64)
    requires LenChunk(a) == LenChunk(b)
    ensures a == b
  {
    assert LenChunk(a)[..8] == LE(a, 8) && LenChunk(b)[..8] == LE(b, 8);
    WordRoundTrip(a);
    WordRoundTrip(b);
  }

  function Max(a: nat, b: nat): nat {
    if a >= b then a else b
  }

  /** Merkle root of `cs` in a tree with room for `limit` chunks, or for all of `cs`
      when there are more. */
  function LimitedRoot(h: HashFn, cs: seq<Chunk>, limit: nat): Chunk {
    DepthIsEnough(Max(limit, |cs|));
    Root(h, cs, Depth(Max(limit, |cs|)), ZERO)
  }

  /** The chunks hashed for a bitlist: no delimiter bit, no trailing zero bytes. */
  function BitChunks(b: Bytes): seq<Chunk>
    requires |b| > 0
  {
    Pack(Stripped(Cleared(b)))
  }

  /** When HashTreeRootWith succeeds: list lengths are within their limits and bitlists
      are neither empty nor, where the library would panic, above their chunk limit. */
  predicate HashOk(t: Ty, v: Val)
    requires Typed(t, v)
  {
    match t
    case ByteList(max, _) => |v.b| <= max
    case BitList(bits) => |v.b| > 0 && |BitChunks(v.b)| <= (bits + 255) / 256
    case List(elem, max) => Len(v.xs) <= max && HashOkEach(elem, v.xs)
    case Struct(fs) => HashOkAll(fs, v.fs)
    case _ => true
  }

  predicate HashOkEach(t: Ty, xs: Vals)
    requires TypedEach(t, xs)
  {
    xs.Nil? || (HashOk(t, xs.v) && HashOkEach(t, xs.rest))
  }

  predicate HashOkAll(fs: Tys, vs: Vals)
    requires TypedAll(fs, vs)
  {
    match fs
    case End => true
    case Field(t, rest) => HashOk(t, vs.v) && HashOkAll(rest, vs.rest)
  }

  /** How hashing ends: with a root, with an error, or in the library's panic on a bitlist that
      has more chunks than its limit. */
  datatype Outcome = Done | Failed(error: SszError) | Panicked

  function HashOutcome(t: Ty, v: Val): Outcome
    requires Typed(t, v)
  {
    match t
    case ByteList(max, _) => if |v.b| > max then Failed(ErrIncorrectListSize) else Done
    case BitList(bits) =>
      if |v.b| == 0 then Failed(ErrEmptyBitlist)
      else if |BitChunks(v.b)| > (bits + 255) / 256 then Panicked
      else Done
    case List(elem, max) =>
      if Len(v.xs) > max then Failed(if elem.U64? then ErrListTooBig else ErrIncorrectListSize)
      else HashOutcomeEach(elem, v.xs)
    case Struct(fs) => HashOutcomeAll(fs, v.fs)
    case _ => Done
  }

  function HashOutcomeEach(t: Ty, xs: Vals): Outcome
    requires TypedEach(t, xs)
  {
    if xs.Nil? then Done
    else if !HashOutcome(t, xs.v).Done? then HashOutcome(t, xs.v) else HashOutcomeEach(t, xs.rest)
  }

  function HashOutcomeAll(fs: Tys, vs: Vals): Outcome
    requires TypedAll(fs, vs)
  {
    match fs
    case End => Done
    case Field(t, rest) =>
      if !HashOutcome(t, vs.v).Done? then HashOutcome(t, vs.v) else HashOutcomeAll(rest, vs.rest)
  }

  lemma {:induction false} DoneIffHashable(t: Ty, v: Val)
    requires Typed(t, v)
    ensures HashOutcome(t, v).Done? <==> HashOk(t, v)
  {
    match t
    case List(elem, _) => EachDoneIffHashable(elem, v.xs);
    case Struct(fs) => AllDoneIffHashable(fs, v.fs);
    case _ =>
  }

  lemma {:induction false} EachDoneIffHashable(t: Ty, xs: Vals)
    requires TypedEach(t, xs)
    ensures HashOutcomeEach(t, xs).Done? <==> HashOkEach(t, xs)
  {
    if xs.Cons? {
      DoneIffHashable(t, xs.v);
      EachDoneIffHashable(t, xs.rest);
    }
  }

  lemma {:induction false} AllDoneIffHashable(fs: Tys, vs: Vals)
    requires TypedAll(fs, vs)
    ensures HashOutcomeAll(fs, vs).Done? <==> HashOkAll(fs, vs)
  {
    if fs.Field? {
      DoneIffHashable(fs.t, vs.v);
      AllDoneIffHashable(fs.rest, vs.rest);
    }
  }

  lemma {:induction false} FixedIsHashable(t: Ty, v: Val)
    requires Fixed(t) && Typed(t, v)
    ensures HashOk(t, v)
  {
    if t.Struct? {
      AllFixedIsHashable(t.fs, v.fs);
    }
  }

  lemma {:induction false} AllFixedIsHashable(fs: Tys, vs: Vals)
    requires AllFixed(fs) && TypedAll(fs, vs)
    ensures HashOkAll(fs, vs)
  {
    if fs.Field? {
      FixedIsHashable(fs.t, vs.v);
      AllFixedIsHashable(fs.rest, vs.rest);
    }
  }

  /** hash_tree_root. A byte list longer than its chunk limit gets a taller tree. */
  function HashTreeRoot(h: HashFn, t: Ty, v: Val): Chunk
    requires Typed(t, v) && HashOk(t, v)
    decreases t, v, 0
  {
    match t
    case U64 => Pad32(LE(v.n, 8))
    case Vec(_) => LimitedRoot(h, Pack(v.b), 0)
    case ByteList(_, chunks) => h(LimitedRoot(h, Pack(v.b), chunks), LenChunk(|v.b|))
    case BitList(bits) =>
      h(LimitedRoot(h, BitChunks(v.b), (bits + 255) / 256), LenChunk(BitSize(v.b)))
    case List(elem, max) =>
      h(LimitedRoot(h, ElementChunks(h, elem, v.xs), ChunkLimit(elem, max)), LenChunk(Len(v.xs)))
    case Struct(fs) => LimitedRoot(h, FieldRoots(h, fs, v.fs), 0)
  }

  /** Numbers are packed four to a chunk; other elements contribute their roots. */
  function ElementChunks(h: HashFn, t: Ty, xs: Vals): seq<Chunk>
    requires TypedEach(t, xs) && HashOkEach(t, xs)
    decreases t, xs, 1
  {
    if t.U64? then Pack(Flat(t, xs)) else ElementRoots(h, t, xs)
  }

  function ChunkLimit(t: Ty, max: nat): nat {
    if t.U64? then (max * 8 + 31) / 32 else max
  }

  function ElementRoots(h: HashFn, t: Ty, xs: Vals): (cs: seq<Chunk>)
    requires TypedEach(t, xs) && HashOkEach(t, xs)
    ensures |cs| == Len(xs)
    decreases t, xs, 0
  {
    if xs.Nil? then [] else [HashTreeRoot(h, t, xs.v)] + ElementRoots(h, t, xs.rest)
  }

  function FieldRoots(h: HashFn, fs: Tys, vs: Vals): (cs: seq<Chunk>)
    requires TypedAll(fs, vs) && HashOkAll(fs, vs)
    ensures |cs| == FieldCount(fs)
    decreases fs, vs, 0
  {
    match fs
    case End => []
    case Field(t, rest) => [HashTreeRoot(h, t, vs.v)] + FieldRoots(h, rest, vs.rest)
  }

  /** For a bitlist the decoder accepts, the chunks the hasher works on stay within the
      limit and have the root of the specification's packed bits: as many bytes as hold
      the bits, trailing zeros included. */
  lemma BitlistRootIsSpec(h: HashFn, b: Bytes, bits: nat)
    requires ValidBitlist(b, bits)
    ensures var limit, packed := (bits + 255) / 256, Cleared(b)[..(BitCount(b) + 7) / 8];
      && BitSize(b) == BitCount(b) && |BitChunks(b)| <= limit && |Pack(packed)| <= limit
      && LimitedRoot(h, BitChunks(b), limit) == LimitedRoot(h, Pack(packed), limit)
  {
    var limit, n := (bits + 255) / 256, (BitCount(b) + 7) / 8;
    var c, packed := Cleared(b), Cleared(b)[..n];
    MsbPower(b[|b| - 1]);
    assert n == |b| || (n == |b| - 1 && c[n] == 0);
    if n == |b| - 1 {
      StrippedFront(c);
    } else {
      assert packed == c;
    }
    DepthIsEnough(limit);
    StrippedRoot(h, packed, Depth(limit));
  }

  lemma StrippedFront(c: Bytes)
    requires |c| > 0 && c[|c| - 1] == 0
    ensures Stripped(c) == Stripped(c[..|c| - 1])
  {
  }

  lemma StrippedRoot(h: HashFn, b: Bytes, d: nat)
    requires |Pack(b)| <= Pow2(d)
    ensures Root(h, Pack(Stripped(b)), d, ZERO) == Root(h, Pack(b), d, ZERO)
  {
    forall i | 0 <= i < Pow2(d)
      ensures Leaf(Pack(Stripped(b)), i, ZERO) == Leaf(Pack(b), i, ZERO)
    {
      PackStripped(b, i);
    }
    RootByLeaves(h, Pack(Stripped(b)), Pack(b), d, ZERO);
  }

  // -------------------------------------------------- which pairs are hashed

  predicate LimitedCovers(s: set<(Chunk, Chunk)>, h: HashFn, cs: seq<Chunk>, limit: nat) {
    DepthIsEnough(Max(limit, |cs|));
    Covers(s, h, cs, Depth(Max(limit, |cs|)), ZERO)
  }

  predicate MixCovers(s: set<(Chunk, Chunk)>, h: HashFn, cs: seq<Chunk>, limit: nat, len: nat) {
    (LimitedRoot(h, cs, limit), LenChunk(len)) in s && LimitedCovers(s, h, cs, limit)
  }

  /** Every pair of chunks hashed while computing the root of `v` is in `s`. */
  predicate HashedIn(s: set<(Chunk, Chunk)>, h: HashFn, t: Ty, v: Val)
    requires Typed(t, v) && HashOk(t, v)
  {
    match t
    case U64 => true
    case Vec(_) => LimitedCovers(s, h, Pack(v.b), 0)
    case ByteList(_, chunks) => MixCovers(s, h, Pack(v.b), chunks, |v.b|)
    case BitList(bits) => MixCovers(s, h, BitChunks(v.b), (bits + 255) / 256, BitSize(v.b))
    case List(elem, max) =>
      && MixCovers(s, h, ElementChunks(h, elem, v.xs), ChunkLimit(elem, max), Len(v.xs))
      && HashedEachIn(s, h, elem, v.xs)
    case Struct(fs) => LimitedCovers(s, h, FieldRoots(h, fs, v.fs), 0) && HashedAllIn(s, h, fs, v.fs)
  }

  predicate HashedEachIn(s: set<(Chunk, Chunk)>, h: HashFn, t: Ty, xs: Vals)
    requires TypedEach(t, xs) && HashOkEach(t, xs)
  {
    xs.Nil? || (HashedIn(s, h, t, xs.v) && HashedEachIn(s, h, t, xs.rest))
  }

  predicate HashedAllIn(s: set<(Chunk, Chunk)>, h: HashFn, fs: Tys, vs: Vals)
    requires TypedAll(fs, vs) && HashOkAll(fs, vs)
  {
    match fs
    case End => true
    case Field(t, rest) => HashedIn(s, h, t, vs.v) && HashedAllIn(s, h, rest, vs.rest)
  }

  // ------------------------------------------------------------- injectivity

  lemma LimitedRootInjective(h: HashFn, xs: seq<Chunk>, ys: seq<Chunk>, limit: nat, s: set<(Chunk, Chunk)>)
    requires |xs| == |ys| && LimitedRoot(h, xs, limit) == LimitedRoot(h, ys, limit)
    requires NoCollision(h, s) && LimitedCovers(s, h, xs, limit) && LimitedCovers(s, h, ys, limit)
    ensures xs == ys
  {
    DepthIsEnough(Max(limit, |xs|));
    RootInjective(h, xs, ys, Depth(Max(limit, |xs|)), ZERO, s);
  }

  /** With the length mixed in, equal roots mean equal lengths too. */
  lemma MixedLengthsEqual(h: HashFn, xs: seq<Chunk>, ys: seq<Chunk>, limit: nat, m: u64, n: u64, s: set<(Chunk, Chunk)>)
    requires h(LimitedRoot(h, xs, limit), LenChunk(m)) == h(LimitedRoot(h, ys, limit), LenChunk(n))
    requires NoCollision(h, s) && MixCovers(s, h, xs, limit, m) && MixCovers(s, h, ys, limit, n)
    ensures m == n && LimitedRoot(h, xs, limit) == LimitedRoot(h, ys, limit)
  {
    SameHashSamePair(h, s, (LimitedRoot(h, xs, limit), LenChunk(m)), (LimitedRoot(h, ys, limit), LenChunk(n)));
    LenChunkInjective(m, n);
  }

  /** Equal hash tree roots mean equal values, for every schema, unless two of the
      pairs of chunks hashed while computing them collide. */
  lemma {:induction false} RootDeterminesValue(h: HashFn, t: Ty, v: Val, w: Val, s: set<(Chunk, Chunk)>)
    requires Sound(t) && Typed(t, v) && Typed(t, w) && BitsOk(t, v) && BitsOk(t, w)
    requires HashOk(t, v) && HashOk(t, w)
    requires NoCollision(h, s) && HashedIn(s, h, t, v) && HashedIn(s, h, t, w)
    requires HashTreeRoot(h, t, v) == HashTreeRoot(h, t, w)
    ensures v == w
    decreases t, v, 0
  {
    match t
    case U64 => LenChunkInjective(v.n, w.n);
    case Vec(_) =>
      LimitedRootInjective(h, Pack(v.b), Pack(w.b), 0, s);
      PackInjective(v.b, w.b);
    case ByteList(max, chunks) =>
      MixedLengthsEqual(h, Pack(v.b), Pack(w.b), chunks, |v.b|, |w.b|, s);
      LimitedRootInjective(h, Pack(v.b), Pack(w.b), chunks, s);
      PackInjective(v.b, w.b);
    case BitList(bits) => BitListDetermined(h, bits, v.b, w.b, s);
    case List(elem, max) => ListDetermined(h, elem, max, v.xs, w.xs, s);
    case Struct(fs) =>
      LimitedRootInjective(h, FieldRoots(h, fs, v.fs), FieldRoots(h, fs, w.fs), 0, s);
      FieldsDetermined(h, fs, v.fs, w.fs, s);
  }

  lemma BitListDetermined(h: HashFn, bits: nat, a: Bytes, b: Bytes, s: set<(Chunk, Chunk)>)
    requires bits < TWO32 && ValidBitlist(a, bits) && ValidBitlist(b, bits)
    requires HashOk(BitList(bits), Blob(a)) && HashOk(BitList(bits), Blob(b))
    requires NoCollision(h, s) && HashedIn(s, h, BitList(bits), Blob(a)) && HashedIn(s, h, BitList(bits), Blob(b))
    requires HashTreeRoot(h, BitList(bits), Blob(a)) == HashTreeRoot(h, BitList(bits), Blob(b))
    ensures a == b
  {
    hide Stripped, Pack, LimitedRoot, LimitedCovers, LenChunk, NoCollision, Cleared;
    var limit := (bits + 255) / 256;
    MixedLengthsEqual(h, BitChunks(a), BitChunks(b), limit, BitSize(a), BitSize(b), s);
    BitChunksDetermine(h, a, b, limit, s);
    ClearedInjective(a, b);
  }

  /** Stripping trailing zeros loses nothing once the length is known. */
  lemma BitChunksDetermine(h: HashFn, a: Bytes, b: Bytes, limit: nat, s: set<(Chunk, Chunk)>)
    requires |a| > 0 && |b| > 0 && |a| == |b| && |BitChunks(a)| <= limit && |BitChunks(b)| <= limit
    requires LimitedRoot(h, BitChunks(a), limit) == LimitedRoot(h, BitChunks(b), limit)
    requires NoCollision(h, s) && LimitedCovers(s, h, BitChunks(a), limit) && LimitedCovers(s, h, BitChunks(b), limit)
    ensures Cleared(a) == Cleared(b)
  {
    hide Stripped, Cleared, NoCollision, Covers, Root, Depth;
    var d := Depth(limit);
    DepthIsEnough(limit);
    var xs, ys := Pack(Cleared(a)), Pack(Cleared(b));
    forall i | 0 <= i < |xs| ensures xs[i] == ys[i] {
      PackStripped(Cleared(a), i);
      PackStripped(Cleared(b), i);
      if i < Pow2(d) {
        RootDeterminesLeaves(h, BitChunks(a), BitChunks(b), d, ZERO, s, i);
      }
      assert Leaf(xs, i, ZERO) == Leaf(ys, i, ZERO);
    }
    PackInjective(Cleared(a), Cleared(b));
  }

  lemma {:induction false} ListDetermined(h: HashFn, elem: Ty, max: nat, xs: Vals, ys: Vals, s: set<(Chunk, Chunk)>)
    requires Sound(List(elem, max)) && TypedEach(elem, xs) && TypedEach(elem, ys)
    requires BitsOkEach(elem, xs) && BitsOkEach(elem, ys)
    requires HashOk(List(elem, max), Items(xs)) && HashOk(List(elem, max), Items(ys))
    requires NoCollision(h, s)
    requires HashedIn(s, h, List(elem, max), Items(xs)) && HashedIn(s, h, List(elem, max), Items(ys))
    requires HashTreeRoot(h, List(elem, max), Items(xs)) == HashTreeRoot(h, List(elem, max), Items(ys))
    ensures xs == ys
    decreases elem, xs, 1
  {
    var cs, ds, limit := ElementChunks(h, elem, xs), ElementChunks(h, elem, ys), ChunkLimit(elem, max);
    MixedLengthsEqual(h, cs, ds, limit, Len(xs), Len(ys), s);
    if elem.U64? {
      FlatSize(elem, xs);
      FlatSize(elem, ys);
      LimitedRootInjective(h, cs, ds, limit, s);
      PackInjective(Flat(elem, xs), Flat(elem, ys));
      NumbersDetermined(xs, ys);
    } else {
      LimitedRootInjective(h, cs, ds, limit, s);
      ElementsDetermined(h, elem, xs, ys, s);
    }
  }

  lemma {:induction false} NumbersDetermined(xs: Vals, ys: Vals)
    requires TypedEach(U64, xs) && TypedEach(U64, ys) && Len(xs) == Len(ys)
    requires Flat(U64, xs) == Flat(U64, ys)
    ensures xs == ys
  {
    if xs.Cons? {
      Cut(LE(xs.v.n, 8), Flat(U64, xs.rest));
      Cut(LE(ys.v.n, 8), Flat(U64, ys.rest));
      WordRoundTrip(xs.v.n);
      WordRoundTrip(ys.v.n);
      NumbersDetermined(xs.rest, ys.rest);
    }
  }

  lemma {:induction false} ElementsDetermined(h: HashFn, t: Ty, xs: Vals, ys: Vals, s: set<(Chunk, Chunk)>)
    requires Sound(t) && TypedEach(t, xs) && TypedEach(t, ys) && BitsOkEach(t, xs) && BitsOkEach(t, ys)
    requires HashOkEach(t, xs) && HashOkEach(t, ys)
    requires NoCollision(h, s) && HashedEachIn(s, h, t, xs) && HashedEachIn(s, h, t, ys)
    requires ElementRoots(h, t, xs) == ElementRoots(h, t, ys)
    ensures xs == ys
    decreases t, xs, 0
  {
    var cs, ds := ElementRoots(h, t, xs), ElementRoots(h, t, ys);
    if xs.Cons? {
      assert ys.Cons?;
      assert cs[0] == ds[0] && cs[1..] == ds[1..];
      RootDeterminesValue(h, t, xs.v, ys.v, s);
      ElementsDetermined(h, t, xs.rest, ys.rest, s);
    }
  }

  lemma {:induction false} FieldsDetermined(h: HashFn, fs: Tys, vs: Vals, ws: Vals, s: set<(Chunk, Chunk)>)
    requires AllSound(fs) && TypedAll(fs, vs) && TypedAll(fs, ws) && BitsOkAll(fs, vs) && BitsOkAll(fs, ws)
    requires HashOkAll(fs, vs) && HashOkAll(fs, ws)
    requires NoCollision(h, s) && HashedAllIn(s, h, fs, vs) && HashedAllIn(s, h, fs, ws)
    requires FieldRoots(h, fs, vs) == FieldRoots(h, fs, ws)
    ensures vs == ws
    decreases fs, vs, 0
  {
    if fs.Field? {
      var cs, ds := FieldRoots(h, fs, vs), FieldRoots(h, fs, ws);
      assert cs[0] == ds[0] && cs[1..] == ds[1..];
      RootDeterminesValue(h, fs.t, vs.v, ws.v, s);
      FieldsDetermined(h, fs.rest, vs.rest, ws.rest, s);
    }
  }
}
