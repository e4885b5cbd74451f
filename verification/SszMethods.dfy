/** The generated marshalling and unmarshalling procedures, schema by schema: the
    field loops and the list loops that types/builder_encoding.go unrolls for each
    container, with their running `dst` and `offset`. */
module SszMethods {
  import opened ByteCodec
  import opened Ssz
  import opened SszProofs

  /** Appends the encoding of `v` to `buf`; it fails exactly when a limit is exceeded, with the
      error of the first such limit. */
  method MarshalSSZTo(t: Ty, v: Val, buf: Bytes) returns (dst: Bytes, err: Option<SszError>)
    requires Typed(t, v) && Sound(t)
    ensures err == EncError(t, v) && (err.None? <==> EncOk(t, v))
    ensures err.None? ==> dst == buf + Enc(t, v)
    decreases t, v, 3
  {
    ErrorIffLimit(t, v);
    dst, err := buf, None;
    match t {
      case U64 => dst := dst + LE(v.n, 8);
      case Vec(_) => dst := dst + v.b;
      case ByteList(max, _) =>
        if |v.b| > max {
          return dst, Some(ErrBytesLength);
        }
        dst := dst + v.b;
      case BitList(bits) =>
        if |v.b| > bits {
          return dst, Some(ErrBytesLength);
        }
        dst := dst + v.b;
      case List(elem, max) =>
        if Len(v.xs) > max {
          return dst, Some(ErrListTooBig);
        }
        if !Fixed(elem) {
          dst := MarshalTable(elem, v.xs, dst);
        }
        ghost var table := if Fixed(elem) then [] else Table(elem, v.xs, 4 * Len(v.xs));
        dst, err := MarshalElements(elem, v.xs, dst);
        Assoc(buf, table, Flat(elem, v.xs));
      case Struct(fs) =>
        dst := MarshalHead(fs, v.fs, dst);
        dst, err := MarshalTail(fs, v.fs, dst);
        Assoc(buf, Heads(fs, v.fs, HeadLen(fs)), Tails(fs, v.fs));
    }
  }

  method MarshalTable(elem: Ty, xs: Vals, buf: Bytes) returns (dst: Bytes)
    requires TypedEach(elem, xs)
    ensures dst == buf + Table(elem, xs, 4 * Len(xs))
  {
    dst := buf;
    var offset: nat, it := 4 * Len(xs), xs;
    while it.Cons?
      invariant TypedEach(elem, it)
      invariant dst + Table(elem, it, offset) == buf + Table(elem, xs, 4 * Len(xs))
      decreases it
    {
      SizeIsExact(elem, it.v);
      Assoc(dst, LE(offset, 4), Table(elem, it.rest, offset + Size(elem, it.v)));
      dst := dst + LE(offset, 4);
      offset := offset + Size(elem, it.v);
      it := it.rest;
    }
  }

  method MarshalElements(elem: Ty, xs: Vals, buf: Bytes) returns (dst: Bytes, err: Option<SszError>)
    requires TypedEach(elem, xs) && Sound(elem)
    ensures err == EncErrorEach(elem, xs)
    ensures err.None? ==> dst == buf + Flat(elem, xs)
    decreases elem, xs, 1
  {
    dst, err := buf, None;
    var it := xs;
    while it.Cons?
      invariant TypedEach(elem, it) && (it == xs || it < xs) && err.None?
      invariant EncErrorEach(elem, it) == EncErrorEach(elem, xs)
      invariant dst + Flat(elem, it) == buf + Flat(elem, xs)
      decreases it
    {
      Assoc(dst, Enc(elem, it.v), Flat(elem, it.rest));
      dst, err := MarshalSSZTo(elem, it.v, dst);
      if err.Some? {
        return;
      }
      it := it.rest;
    }
  }

  /** Writes fixed-size fields and offsets; each variable-size field moves the
      running offset on by its SizeSSZ. */
  method MarshalHead(fs: Tys, vs: Vals, buf: Bytes) returns (dst: Bytes)
    requires TypedAll(fs, vs) && AllSound(fs)
    ensures dst == buf + Heads(fs, vs, HeadLen(fs))
    decreases fs, vs, 2
  {
    dst := buf;
    var offset: nat, f, w := HeadLen(fs), fs, vs;
    ghost var goal := buf + Heads(fs, vs, HeadLen(fs));
    while f.Field?
      invariant TypedAll(f, w) && AllSound(f)
      invariant f == fs || f < fs
      invariant dst + Heads(f, w, offset) == goal
      decreases f
    {
      if Fixed(f.t) {
        FixedHasNoLimits(f.t, w.v);
        Assoc(dst, Enc(f.t, w.v), Heads(f.rest, w.rest, offset));
        var err;
        dst, err := MarshalSSZTo(f.t, w.v, dst);
      } else {
        SizeIsExact(f.t, w.v);
        Assoc(dst, LE(offset, 4), Heads(f.rest, w.rest, offset + Size(f.t, w.v)));
        dst := dst + LE(offset, 4);
        offset := offset + Size(f.t, w.v);
      }
      f, w := f.rest, w.rest;
    }
  }

  method MarshalTail(fs: Tys, vs: Vals, buf: Bytes) returns (dst: Bytes, err: Option<SszError>)
    requires TypedAll(fs, vs) && AllSound(fs)
    ensures err == EncErrorAll(fs, vs)
    ensures err.None? ==> dst == buf + Tails(fs, vs)
    decreases fs, vs, 1
  {
    dst, err := buf, None;
    var f, w := fs, vs;
    while f.Field?
      invariant TypedAll(f, w) && AllSound(f) && (f == fs || f < fs) && err.None?
      invariant EncErrorAll(f, w) == EncErrorAll(fs, vs)
      invariant dst + Tails(f, w) == buf + Tails(fs, vs)
      decreases f
    {
      if Fixed(f.t) {
        FixedHasNoLimits(f.t, w.v);
        ErrorIffLimit(f.t, w.v);
        assert Tails(f, w) == Tails(f.rest, w.rest);
      } else {
        Assoc(dst, Enc(f.t, w.v), Tails(f.rest, w.rest));
        dst, err := MarshalSSZTo(f.t, w.v, dst);
        if err.Some? {
          return;
        }
      }
      f, w := f.rest, w.rest;
    }
  }

  // ---------------------------------------------------------------- decoding

  /** Puts decoded elements in front of what is decoded after them. */
  function Prepend(acc: seq<Val>, r: Result<Vals>): Result<Vals> {
    if acc == [] || r.Err? then r
    else
      var rest := Prepend(acc[1..], r);
      if rest.Err? then rest else Ok(Cons(acc[0], rest.value))
  }

  lemma {:induction false} PrependSnoc(acc: seq<Val>, x: Val, r: Result<Vals>)
    ensures Prepend(acc + [x], r) == Prepend(acc, if r.Err? then r else Ok(Cons(x, r.value)))
  {
    if acc == [] {
      assert acc + [x] == [x];
      assert [x][1..] == [];
    } else {
      assert (acc + [x])[1..] == acc[1..] + [x];
      PrependSnoc(acc[1..], x, r);
    }
  }

  function ListOf(acc: seq<Val>): Vals {
    if acc == [] then Nil else Cons(acc[0], ListOf(acc[1..]))
  }

  lemma {:induction false} PrependNil(acc: seq<Val>)
    ensures Prepend(acc, Ok(Nil)) == Ok(ListOf(acc))
  {
    if acc != [] {
      PrependNil(acc[1..]);
    }
  }

  method UnmarshalSSZ(t: Ty, recv: Val, buf: Bytes) returns (r: Result<Val>)
    requires Typed(t, recv) && Sound(t)
    ensures r == Dec(t, recv, buf)
    decreases t, 3
  {
    match t {
      case U64 =>
        if |buf| != 8 {
          return Err(ErrSize);
        }
        ReadWordBound(buf);
        r := Ok(Num(Value(buf)));
      case Vec(n) =>
        if |buf| != n {
          return Err(ErrSize);
        }
        r := Ok(Blob(buf));
      case ByteList(max, _) =>
        if |buf| > max {
          return Err(ErrBytesLength);
        }
        r := Ok(Blob(recv.b + buf));
      case BitList(bits) =>
        if !ValidBitlist(buf, bits) {
          return Err(ErrBitlist);
        }
        r := Ok(Blob(recv.b + buf));
      case List(elem, max) =>
        var xs := UnmarshalList(elem, max, buf);
        r := if xs.Err? then Err(xs.error) else Ok(Items(xs.value));
      case Struct(fs) =>
        var vs := UnmarshalStruct(fs, recv.fs, buf);
        r := if vs.Err? then Err(vs.error) else Ok(Rec(vs.value));
    }
  }

  method UnmarshalList(elem: Ty, max: nat, buf: Bytes) returns (r: Result<Vals>)
    requires Sound(elem) && (Fixed(elem) ==> Width(elem) > 0)
    ensures r == DecList(elem, max, buf)
    decreases elem, 5
  {
    if Fixed(elem) {
      var num := DivideInt2(|buf|, Width(elem), max);
      if num.Err? {
        return Err(num.error);
      }
      r := UnmarshalElements(elem, buf, num.value);
    } else {
      var num := DecodeDynamicLength(buf, max);
      if num.Err? {
        return Err(num.error);
      }
      if num.value == 0 {
        return Ok(Nil);
      }
      r := UnmarshalDynamic(elem, buf, num.value);
    }
  }

  method UnmarshalElements(elem: Ty, buf: Bytes, num: nat) returns (r: Result<Vals>)
    requires Sound(elem) && |buf| == Times(num, Width(elem))
    ensures r == DecEach(elem, buf, num)
    decreases elem, 4
  {
    var acc: seq<Val>, rest, left: nat := [], buf, num;
    while left > 0
      invariant |rest| == Times(left, Width(elem))
      invariant DecEach(elem, buf, num) == Prepend(acc, DecEach(elem, rest, left))
    {
      var w := Width(elem);
      var x := UnmarshalSSZ(elem, Zero(elem), rest[..w]);
      if x.Err? {
        return Err(x.error);
      }
      PrependSnoc(acc, x.value, DecEach(elem, rest[w..], left - 1));
      acc, rest, left := acc + [x.value], rest[w..], left - 1;
    }
    PrependNil(acc);
    r := Ok(ListOf(acc));
  }

  method UnmarshalDynamic(elem: Ty, buf: Bytes, num: nat) returns (r: Result<Vals>)
    requires Sound(elem) && num > 0 && |buf| >= 4
    ensures r == DecDynamic(elem, buf, buf[4..], num, Value(buf[..4]))
    decreases elem, 4
  {
    var acc: seq<Val>, dst, left: nat, offset: nat := [], buf[4..], num, Value(buf[..4]);
    while left > 0
      invariant DecDynamic(elem, buf, buf[4..], num, Value(buf[..4]))
             == Prepend(acc, DecDynamic(elem, buf, dst, left, offset))
    {
      var end := ReadEnd(buf, dst, left);
      if end.Err? {
        return Err(end.error);
      }
      if offset > end.value || end.value > |buf| {
        return Err(ErrOffset);
      }
      var x := UnmarshalSSZ(elem, Zero(elem), buf[offset..end.value]);
      if x.Err? {
        return Err(x.error);
      }
      var dst' := if left == 1 then dst else dst[4..];
      PrependSnoc(acc, x.value, DecDynamic(elem, buf, dst', left - 1, end.value));
      acc, dst, left, offset := acc + [x.value], dst', left - 1, end.value;
    }
    PrependNil(acc);
    r := Ok(ListOf(acc));
  }

  method UnmarshalStruct(fs: Tys, recv: Vals, buf: Bytes) returns (r: Result<Vals>)
    requires TypedAll(fs, recv) && AllSound(fs)
    ensures r == DecStruct(fs, recv, buf)
    decreases fs, 4
  {
    if (if AllFixed(fs) then |buf| != HeadLen(fs) else |buf| < HeadLen(fs)) {
      return Err(ErrSize);
    }
    var whole := buf[..HeadLen(fs)];
    var table := ReadOffsets(fs, whole, |buf|, HeadLen(fs), true);
    if table.Err? {
      return Err(table.error);
    }
    var f, w, head, offs, acc := fs, recv, whole, table.value, [];
    LadderRaise(fs, offs, HeadLen(fs), Front(offs), |buf|);
    while f.Field?
      invariant TypedAll(f, w) && AllSound(f) && (f == fs || f < fs)
      invariant |head| == HeadLen(f) && Ladder(f, offs, Front(offs), |buf|)
      invariant DecFields(fs, recv, whole, buf, table.value) == Prepend(acc, DecFields(f, w, head, buf, offs))
      decreases f
    {
      var v;
      if Fixed(f.t) {
        v := UnmarshalSSZ(f.t, w.v, head[..Width(f.t)]);
        head := head[Width(f.t)..];
      } else {
        var next := Front(offs.rest);
        LadderBounds(f.rest, offs.rest, offs.o, |buf|);
        LadderRaise(f.rest, offs.rest, offs.o, next, |buf|);
        v := UnmarshalSSZ(f.t, w.v, buf[offs.o..next]);
        head, offs := head[4..], offs.rest;
      }
      if v.Err? {
        return Err(v.error);
      }
      PrependSnoc(acc, v.value, DecFields(f.rest, w.rest, head, buf, offs));
      acc, f, w := acc + [v.value], f.rest, w.rest;
    }
    PrependNil(acc);
    r := Ok(ListOf(acc));
  }
}
