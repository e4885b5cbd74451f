/** The buffer-based hasher: leaves are pushed onto `buf` and collapsed in place, and
    every HashTreeRootWith leaves exactly one chunk behind. */
module Hasher {
  import opened ByteCodec
  import opened Ssz
  import opened SszProofs
  import opened Merkle
  import opened HashTree

  /** The bytes PutBytes pushes. */
  function Pushed(h: HashFn, b: Bytes): (p: Bytes)
    ensures |p| % 32 == 0
  {
    if |b| <= 32 then Padded(b) else LimitedRoot(h, Pack(b), 0)
  }

  lemma PackPadded(b: Bytes)
    ensures Pack(Padded(b)) == Pack(b)
  {
    PaddedIsConcat(b);
    PackConcat(Pack(b));
  }

  lemma OneChunk(c: Chunk)
    ensures Pack(c) == [c]
  {
    assert Pad32(c) == c;
  }

  lemma ShortRoot(h: HashFn, b: Bytes)
    requires 0 < |b| <= 32
    ensures Padded(b) == Pad32(b) == LimitedRoot(h, Pack(b), 0)
  {
    SingleRoot(h, Pad32(b));
    PadShort(b);
  }

  lemma PadShort(b: Bytes)
    requires 0 < |b| <= 32
    ensures Padded(b) == Pad32(b)
  {
    FillerUnique(|b|, 32 - |b|);
  }

  lemma SingleRoot(h: HashFn, c: Chunk)
    ensures LimitedRoot(h, [c], 0) == c
  {
    hide LE, Zeros;
  }

  /** Pushing a byte list with one chunk of room collapses it to the same root. */
  lemma PushedRoot(h: HashFn, b: Bytes)
    ensures |Pack(Pushed(h, b))| <= 1
    ensures LimitedRoot(h, Pack(Pushed(h, b)), 1) == LimitedRoot(h, Pack(b), 1)
  {
    if |b| <= 32 {
      PackPadded(b);
    } else {
      OneChunk(LimitedRoot(h, Pack(b), 0));
    }
  }

  lemma StripStep(b: Bytes, n: nat)
    requires n < |b| && Stripped(b) == Stripped(b[..n + 1])
    ensures b[n] == 0 ==> Stripped(b) == Stripped(b[..n])
    ensures b[n] != 0 ==> Stripped(b) == b[..n + 1]
  {
    assert b[..n + 1][..n] == b[..n];
  }

  lemma {:induction false} NumbersAreHashable(xs: Vals)
    requires TypedEach(U64, xs)
    ensures HashOkEach(U64, xs)
  {
    if xs.Cons? {
      NumbersAreHashable(xs.rest);
    }
  }

  lemma ConcatCons(a: Bytes, c: Chunk, cs: seq<Chunk>)
    ensures a + Concat([c] + cs) == (a + c) + Concat(cs)
  {
    assert ([c] + cs)[1..] == cs;
    Assoc(a, c, Concat(cs));
  }

  lemma ConcatNothing(a: Bytes)
    ensures a + Concat([]) == a
  {
  }

  /** The backwards scan over the content of a bitlist. */
  method StripZeros(b: Bytes) returns (c: Bytes)
    ensures c == Stripped(b)
  {
    var n: nat := |b|;
    assert b[..n] == b;
    while n > 0 && b[n - 1] == 0
      invariant n <= |b| && Stripped(b) == Stripped(b[..n])
    {
      StripStep(b, n - 1);
      n := n - 1;
    }
    if n > 0 {
      StripStep(b, n - 1);
    }
    c := b[..n];
  }

  class Stack {
    const h: HashFn
    var buf: Bytes

    constructor (h: HashFn)
      ensures this.h == h && buf == []
    {
      this.h, buf := h, [];
    }

    method AppendBytes32(b: Bytes)
      modifies this
      ensures buf == old(buf) + Padded(b)
    {
      buf := buf + b;
      var rest := |b| % 32;
      if rest != 0 {
        buf := buf + Zeros(32 - rest);
      }
    }

    method FillUpTo32()
      modifies this
      ensures buf == Padded(old(buf))
    {
      var rest := |buf| % 32;
      if rest != 0 {
        buf := buf + Zeros(32 - rest);
      }
    }

    /** Replaces everything from `indx` on by its Merkle root. */
    method Merkleize(indx: nat)
      requires indx <= |buf| && (|buf| - indx) % 32 == 0
      modifies this
      ensures buf == old(buf[..indx]) + LimitedRoot(h, Pack(old(buf[indx..])), 0)
    {
      var input := Pack(buf[indx..]);
      var root := Merkle.Merkleize(h, input, 0);
      buf := buf[..indx] + root;
    }

    /** Replaces everything from `indx` on by its Merkle root in a tree with room for
        `limit` chunks, hashed with `num`; too many chunks are a panic. */
    method MerkleizeWithMixin(indx: nat, num: nat, limit: nat) returns (out: Outcome)
      requires indx <= |buf| && indx % 32 == 0 && limit > 0
      modifies this
      ensures out == if |Pack(old(buf[indx..]))| <= limit then Done else Panicked
      ensures out.Done? ==>
                buf == old(buf[..indx]) + h(LimitedRoot(h, Pack(old(buf[indx..])), limit), LenChunk(num))
    {
      ghost var front, content := buf[..indx], buf[indx..];
      Rejoin(buf, indx);
      FillUpTo32();
      PaddedTail(front, content);
      Cut(front, Padded(content));
      PackPadded(content);
      var input := Pack(buf[indx..]);
      if |input| > limit {
        return Panicked;
      }
      var root := Merkle.Merkleize(h, input, limit);
      buf := buf[..indx] + h(root, LenChunk(num));
      out := Done;
    }

    method PutBytes(b: Bytes)
      modifies this
      ensures buf == old(buf) + Pushed(h, b)
    {
      if |b| <= 32 {
        AppendBytes32(b);
        return;
      }
      var indx := |buf|;
      AppendBytes32(b);
      Cut(old(buf), Padded(b));
      PackPadded(b);
      Merkleize(indx);
    }

    method PutUint64(n: u64)
      modifies this
      ensures buf == old(buf) + LenChunk(n)
    {
      AppendBytes32(LE(n, 8));
    }

    /** Clears the delimiter bit, drops trailing zero bytes, and merkleizes. */
    method PutBitlist(b: Bytes, bits: nat) returns (out: Outcome)
      requires |b| > 0 && |buf| % 32 == 0 && bits > 0
      modifies this
      ensures out == if |BitChunks(b)| <= (bits + 255) / 256 then Done else Panicked
      ensures out.Done? ==>
                buf == old(buf) + h(LimitedRoot(h, BitChunks(b), (bits + 255) / 256), LenChunk(BitSize(b)))
    {
      hide Pack, Padded, LimitedRoot, LenChunk, Cleared;
      var tmp := StripZeros(Cleared(b));
      var indx := |buf|;
      AppendBytes32(tmp);
      Cut(old(buf), Padded(tmp));
      PackPadded(tmp);
      out := MerkleizeWithMixin(indx, BitSize(b), (bits + 255) / 256);
    }

    /** Pushes the hash tree root of `v`: one chunk, whatever the schema. Otherwise it ends as
        the first field that cannot be hashed says. */
    method HashTreeRootWith(t: Ty, v: Val) returns (out: Outcome)
      requires Sound(t) && Typed(t, v) && |buf| % 32 == 0
      modifies this
      ensures out == HashOutcome(t, v) && (out.Done? <==> HashOk(t, v))
      ensures out.Done? ==> buf == old(buf) + HashTreeRoot(h, t, v)
      decreases t, v, 2
    {
      hide LimitedRoot, Pack, ElementRoots, FieldRoots, BitChunks, BitSize;
      hide HashOutcomeEach, HashOutcomeAll, HashOkEach, HashOkAll;
      DoneIffHashable(t, v);
      out := Done;
      match t {
        case U64 => PutUint64(v.n);
        case Vec(_) =>
          PutBytes(v.b);
          if |v.b| <= 32 {
            ShortRoot(h, v.b);
          }
        case ByteList(max, chunks) => out := HashByteList(max, chunks, v.b);
        case BitList(bits) =>
          if |v.b| == 0 {
            return Failed(ErrEmptyBitlist);
          }
          out := PutBitlist(v.b, bits);
        case List(elem, max) =>
          if elem.U64? {
            out := HashNumbers(max, v.xs);
          } else {
            out := HashElements(elem, max, v.xs);
          }
        case Struct(fs) => out := HashFields(fs, v.fs);
      }
    }

    method HashByteList(max: nat, chunks: nat, b: Bytes) returns (out: Outcome)
      requires Sound(ByteList(max, chunks)) && |buf| % 32 == 0
      modifies this
      ensures out == HashOutcome(ByteList(max, chunks), Blob(b))
      ensures out.Done? ==> buf == old(buf) + HashTreeRoot(h, ByteList(max, chunks), Blob(b))
    {
      var elemIndx := |buf|;
      if |b| > max {
        return Failed(ErrIncorrectListSize);
      }
      if chunks == 1 {
        PutBytes(b);
        Cut(old(buf), Pushed(h, b));
        PushedRoot(h, b);
      } else {
        AppendBytes32(b);
        Cut(old(buf), Padded(b));
        PackPadded(b);
      }
      out := MerkleizeWithMixin(elemIndx, |b|, chunks);
    }

    method HashNumbers(max: nat, xs: Vals) returns (out: Outcome)
      requires Sound(List(U64, max)) && TypedEach(U64, xs) && |buf| % 32 == 0
      modifies this
      ensures out == HashOutcome(List(U64, max), Items(xs)) && HashOkEach(U64, xs)
      ensures out.Done? ==> buf == old(buf) + HashTreeRoot(h, List(U64, max), Items(xs))
    {
      NumbersAreHashable(xs);
      EachDoneIffHashable(U64, xs);
      if Len(xs) > max {
        return Failed(ErrListTooBig);
      }
      var subIndx, it := |buf|, xs;
      ghost var goal := buf + Flat(U64, xs);
      while it.Cons?
        invariant TypedEach(U64, it) && buf + Flat(U64, it) == goal
        decreases it
      {
        Assoc(buf, LE(it.v.n, 8), Flat(U64, it.rest));
        buf := buf + LE(it.v.n, 8);
        it := it.rest;
      }
      assert buf == goal;
      PaddedTail(old(buf), Flat(U64, xs));
      FillUpTo32();
      Cut(old(buf), Padded(Flat(U64, xs)));
      PackPadded(Flat(U64, xs));
      FlatSize(U64, xs);
      TimesIsProduct(Len(xs), 8);
      out := MerkleizeWithMixin(subIndx, Len(xs), (max * 8 + 31) / 32);
    }

    method HashElements(elem: Ty, max: nat, xs: Vals) returns (out: Outcome)
      requires Sound(elem) && max > 0 && TypedEach(elem, xs) && |buf| % 32 == 0
      modifies this
      ensures out == if Len(xs) > max then Failed(ErrIncorrectListSize) else HashOutcomeEach(elem, xs)
      ensures out.Done? ==>
                HashOkEach(elem, xs) &&
                buf == old(buf) + h(LimitedRoot(h, ElementRoots(h, elem, xs), max), LenChunk(Len(xs)))
      decreases elem, xs, 4
    {
      if Len(xs) > max {
        return Failed(ErrIncorrectListSize);
      }
      var subIndx := |buf|;
      out := PushRoots(elem, xs);
      if !out.Done? {
        return;
      }
      Cut(old(buf), Concat(ElementRoots(h, elem, xs)));
      PackConcat(ElementRoots(h, elem, xs));
      out := MerkleizeWithMixin(subIndx, Len(xs), max);
    }

    method PushRoots(elem: Ty, xs: Vals) returns (out: Outcome)
      requires Sound(elem) && TypedEach(elem, xs) && |buf| % 32 == 0
      modifies this
      ensures out == HashOutcomeEach(elem, xs) && (out.Done? <==> HashOkEach(elem, xs))
      ensures out.Done? ==> buf == old(buf) + Concat(ElementRoots(h, elem, xs))
      decreases elem, xs, 3
    {
      hide Sound, Typed, HashOk, HashOutcome, HashTreeRoot, Concat;
      EachDoneIffHashable(elem, xs);
      var it := xs;
      out := Done;
      while it.Cons?
        invariant TypedEach(elem, it) && (it == xs || it < xs) && out.Done?
        invariant HashOutcomeEach(elem, it) == HashOutcomeEach(elem, xs)
        invariant HashOkEach(elem, it) <==> HashOkEach(elem, xs)
        invariant HashOkEach(elem, it) ==>
                    buf + Concat(ElementRoots(h, elem, it)) == old(buf) + Concat(ElementRoots(h, elem, xs))
        invariant |buf| % 32 == 0
        decreases it
      {
        ghost var before := buf;
        out := HashTreeRootWith(elem, it.v);
        if !out.Done? {
          return;
        }
        if HashOkEach(elem, it) {
          ConcatCons(before, HashTreeRoot(h, elem, it.v), ElementRoots(h, elem, it.rest));
        }
        it := it.rest;
      }
      ConcatNothing(buf);
    }

    method HashFields(fs: Tys, vs: Vals) returns (out: Outcome)
      requires AllSound(fs) && TypedAll(fs, vs) && |buf| % 32 == 0
      modifies this
      ensures out == HashOutcomeAll(fs, vs) && (out.Done? <==> HashOkAll(fs, vs))
      ensures out.Done? ==> buf == old(buf) + LimitedRoot(h, FieldRoots(h, fs, vs), 0)
      decreases fs, vs, 4
    {
      var indx := |buf|;
      out := PushFields(fs, vs);
      if !out.Done? {
        return;
      }
      Cut(old(buf), Concat(FieldRoots(h, fs, vs)));
      PackConcat(FieldRoots(h, fs, vs));
      Merkleize(indx);
    }

    method PushFields(fs: Tys, vs: Vals) returns (out: Outcome)
      requires AllSound(fs) && TypedAll(fs, vs) && |buf| % 32 == 0
      modifies this
      ensures out == HashOutcomeAll(fs, vs) && (out.Done? <==> HashOkAll(fs, vs))
      ensures out.Done? ==> buf == old(buf) + Concat(FieldRoots(h, fs, vs))
      decreases fs, vs, 3
    {
      hide Sound, Typed, HashOk, HashOutcome, HashTreeRoot, Concat;
      AllDoneIffHashable(fs, vs);
      var f, w := fs, vs;
      out := Done;
      while f.Field?
        invariant TypedAll(f, w) && AllSound(f) && (f == fs || f < fs) && out.Done?
        invariant HashOutcomeAll(f, w) == HashOutcomeAll(fs, vs)
        invariant HashOkAll(f, w) <==> HashOkAll(fs, vs)
        invariant HashOkAll(f, w) ==>
                    buf + Concat(FieldRoots(h, f, w)) == old(buf) + Concat(FieldRoots(h, fs, vs))
        invariant |buf| % 32 == 0
        decreases f
      {
        ghost var before := buf;
        out := HashTreeRootWith(f.t, w.v);
        if !out.Done? {
          return;
        }
        if HashOkAll(f, w) {
          ConcatCons(before, HashTreeRoot(h, f.t, w.v), FieldRoots(h, f.rest, w.rest));
        }
        f, w := f.rest, w.rest;
      }
      ConcatNothing(buf);
    }
  }
}
