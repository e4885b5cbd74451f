/** The SSZ schema language of types/builder.go, and the encoding, size and
    decoding rules that the generated code of types/builder_encoding.go follows
    for every schema. */
module Ssz {
  import opened ByteCodec

  /** One constructor per struct-tag form that occurs in the repository. */
  datatype Ty =
    | U64
    | Vec(n: nat)                       // ssz-size: a fixed number of bytes
    | ByteList(max: nat, chunks: nat)   // []byte: codec limit, chunk limit when hashing
    | BitList(bits: nat)                // ssz:"bitlist"
    | List(elem: Ty, max: nat)
    | Struct(fs: Tys)
  datatype Tys = End | Field(t: Ty, rest: Tys)

  datatype Val =
    | Num(n: u64)
    | Blob(b: Bytes)
    | Items(xs: Vals)
    | Rec(fs: Vals)
  datatype Vals = Nil | Cons(v: Val, rest: Vals)

  function Len(xs: Vals): nat {
    if xs.Nil? then 0 else 1 + Len(xs.rest)
  }

  datatype SszError =
    | ErrSize | ErrOffset | ErrInvalidVariableOffset | ErrBytesLength
    | ErrListTooBig | ErrIncorrectListSize | ErrBitlist | ErrEmptyBitlist

  datatype Result<+T> = Ok(value: T) | Err(error: SszError) {
    predicate IsFailure() { Err? }
    function PropagateFailure<U>(): Result<U>
      requires Err?
    {
      Err(error)
    }
    function Extract(): T
      requires Ok?
    {
      value
    }
  }

  // ------------------------------------------------------------ schemas

  predicate Fixed(t: Ty) {
    match t
    case U64 => true
    case Vec(_) => true
    case Struct(fs) => AllFixed(fs)
    case _ => false
  }

  predicate AllFixed(fs: Tys) {
    match fs
    case End => true
    case Field(t, rest) => Fixed(t) && AllFixed(rest)
  }

  /** Bytes a field takes in the fixed part of its container: its whole size when
      it is fixed-size, a 4-byte offset otherwise. */
  function Width(t: Ty): nat {
    match t
    case U64 => 8
    case Vec(n) => n
    case Struct(fs) => if AllFixed(fs) then HeadLen(fs) else 4
    case _ => 4
  }

  function HeadLen(fs: Tys): nat {
    match fs
    case End => 0
    case Field(t, rest) => Width(t) + HeadLen(rest)
  }

  /** Schemas the generator emits code for. */
  predicate Sound(t: Ty) {
    match t
    case Vec(n) => n > 0
    case BitList(bits) => 2 <= bits < TWO32
    case ByteList(max, chunks) => max < TWO32 && chunks > 0 && (chunks == 1 || (max + 31) / 32 <= chunks)
    case List(elem, max) => Sound(elem) && (Fixed(elem) ==> Width(elem) > 0) && 0 < max < TWO32
    case Struct(fs) => fs.Field? && AllSound(fs)
    case _ => true
  }

  predicate AllSound(fs: Tys) {
    match fs
    case End => true
    case Field(t, rest) => Sound(t) && AllSound(rest)
  }

  // ------------------------------------------------------------- values

  /** `v` has the shape of `t`; list limits are a separate matter. */
  predicate Typed(t: Ty, v: Val)
  {
    match t
    case U64 => v.Num?
    case Vec(n) => v.Blob? && |v.b| == n
    case ByteList(_, _) => v.Blob?
    case BitList(_) => v.Blob?
    case List(elem, _) => v.Items? && TypedEach(elem, v.xs)
    case Struct(fs) => v.Rec? && TypedAll(fs, v.fs)
  }

  predicate TypedEach(t: Ty, xs: Vals)
  {
    xs.Nil? || (Typed(t, xs.v) && TypedEach(t, xs.rest))
  }

  predicate TypedAll(fs: Tys, vs: Vals)
  {
    match fs
    case End => vs.Nil?
    case Field(t, rest) => vs.Cons? && Typed(t, vs.v) && TypedAll(rest, vs.rest)
  }

  /** A container value, field by field. */
  lemma TypedCons(t: Ty, v: Val, rest: Tys, vs: Vals)
    requires Typed(t, v) && TypedAll(rest, vs)
    ensures TypedAll(Field(t, rest), Cons(v, vs))
  {
  }

  function NthTy(fs: Tys, n: nat): Ty
    requires n < FieldCount(fs)
  {
    if n == 0 then fs.t else NthTy(fs.rest, n - 1)
  }

  function FieldCount(fs: Tys): nat {
    if fs.End? then 0 else 1 + FieldCount(fs.rest)
  }

  /** The `n`-th field of a container value. */
  function Nth(fs: Tys, vs: Vals, n: nat): (v: Val)
    requires n < FieldCount(fs) && TypedAll(fs, vs)
    ensures Typed(NthTy(fs, n), v)
  {
    if n == 0 then vs.v else Nth(fs.rest, vs.rest, n - 1)
  }

  /** The value of a freshly allocated receiver. */
  function Zero(t: Ty): (v: Val)
    ensures Typed(t, v)
  {
    match t
    case U64 => Num(0)
    case Vec(n) => Blob(Zeros(n))
    case ByteList(_, _) => Blob([])
    case BitList(_) => Blob([])
    case List(_, _) => Items(Nil)
    case Struct(fs) => Rec(ZeroAll(fs))
  }

  function ZeroAll(fs: Tys): (vs: Vals)
    ensures TypedAll(fs, vs)
  {
    match fs
    case End => Nil
    case Field(t, rest) => Cons(Zero(t), ZeroAll(rest))
  }

  // ------------------------------------------------------------ encoding

  function Enc(t: Ty, v: Val): Bytes
    requires Typed(t, v)
  {
    match t
    case U64 => LE(v.n, 8)
    case Vec(_) => v.b
    case ByteList(_, _) => v.b
    case BitList(_) => v.b
    case List(elem, _) =>
      if Fixed(elem) then Flat(elem, v.xs)
      else Table(elem, v.xs, 4 * Len(v.xs)) + Flat(elem, v.xs)
    case Struct(fs) => Heads(fs, v.fs, HeadLen(fs)) + Tails(fs, v.fs)
  }

  /** The encodings of list elements, back to back. */
  function Flat(t: Ty, xs: Vals): Bytes
    requires TypedEach(t, xs)
  {
    if xs.Nil? then [] else Enc(t, xs.v) + Flat(t, xs.rest)
  }

  /** The offset table in front of variable-size list elements. */
  function Table(t: Ty, xs: Vals, off: nat): (b: Bytes)
    requires TypedEach(t, xs)
    ensures |b| == 4 * Len(xs)
  {
    if xs.Nil? then [] else LE(off, 4) + Table(t, xs.rest, off + |Enc(t, xs.v)|)
  }

  /** The fixed part of a container, when its first variable-size field starts at `off`. */
  function Heads(fs: Tys, vs: Vals, off: nat): Bytes
    requires TypedAll(fs, vs)
  {
    match fs
    case End => []
    case Field(t, rest) =>
      if Fixed(t) then Enc(t, vs.v) + Heads(rest, vs.rest, off)
      else LE(off, 4) + Heads(rest, vs.rest, off + |Enc(t, vs.v)|)
  }

  /** The variable-size fields of a container, in order. */
  function Tails(fs: Tys, vs: Vals): Bytes
    requires TypedAll(fs, vs)
  {
    match fs
    case End => []
    case Field(t, rest) => (if Fixed(t) then [] else Enc(t, vs.v)) + Tails(rest, vs.rest)
  }

  // ---------------------------------------------------------------- size

  /** What SizeSSZ adds up, without encoding anything. */
  function Size(t: Ty, v: Val): nat
    requires Typed(t, v)
  {
    match t
    case U64 => 8
    case Vec(n) => n
    case ByteList(_, _) => |v.b|
    case BitList(_) => |v.b|
    case List(elem, _) =>
      if Fixed(elem) then Times(Len(v.xs), Width(elem)) else SizeEach(elem, v.xs)
    case Struct(fs) => HeadLen(fs) + SizeTails(fs, v.fs)
  }

  function SizeEach(t: Ty, xs: Vals): nat
    requires TypedEach(t, xs)
  {
    if xs.Nil? then 0 else 4 + Size(t, xs.v) + SizeEach(t, xs.rest)
  }

  function SizeTails(fs: Tys, vs: Vals): nat
    requires TypedAll(fs, vs)
  {
    match fs
    case End => 0
    case Field(t, rest) => (if Fixed(t) then 0 else Size(t, vs.v)) + SizeTails(rest, vs.rest)
  }

  // -------------------------------------------------------------- limits

  /** The list limits that MarshalSSZTo checks. A bitlist is limited to `bits`
      bytes here, although the decoder counts bits. */
  predicate EncOk(t: Ty, v: Val)
    requires Typed(t, v)
  {
    match t
    case ByteList(max, _) => |v.b| <= max
    case BitList(bits) => |v.b| <= bits
    case List(elem, max) => Len(v.xs) <= max && EncOkEach(elem, v.xs)
    case Struct(fs) => EncOkAll(fs, v.fs)
    case _ => true
  }

  predicate EncOkEach(t: Ty, xs: Vals)
    requires TypedEach(t, xs)
  {
    xs.Nil? || (EncOk(t, xs.v) && EncOkEach(t, xs.rest))
  }

  predicate EncOkAll(fs: Tys, vs: Vals)
    requires TypedAll(fs, vs)
  {
    match fs
    case End => true
    case Field(t, rest) => EncOk(t, vs.v) && EncOkAll(rest, vs.rest)
  }

  /** The error MarshalSSZTo reports: that of the first limit exceeded, in field order. */
  function EncError(t: Ty, v: Val): Option<SszError>
    requires Typed(t, v)
  {
    match t
    case ByteList(max, _) => if |v.b| > max then Some(ErrBytesLength) else None
    case BitList(bits) => if |v.b| > bits then Some(ErrBytesLength) else None
    case List(elem, max) => if Len(v.xs) > max then Some(ErrListTooBig) else EncErrorEach(elem, v.xs)
    case Struct(fs) => EncErrorAll(fs, v.fs)
    case _ => None
  }

  function EncErrorEach(t: Ty, xs: Vals): Option<SszError>
    requires TypedEach(t, xs)
  {
    if xs.Nil? then None
    else if EncError(t, xs.v).Some? then EncError(t, xs.v) else EncErrorEach(t, xs.rest)
  }

  function EncErrorAll(fs: Tys, vs: Vals): Option<SszError>
    requires TypedAll(fs, vs)
  {
    match fs
    case End => None
    case Field(t, rest) =>
      if EncError(t, vs.v).Some? then EncError(t, vs.v) else EncErrorAll(rest, vs.rest)
  }

  /** Position of the highest set bit of a non-zero byte. */
  function Msb(x: u8): (m: nat)
    requires x > 0
    ensures m <= 7
  {
    if x >= 128 then 7 else if x >= 64 then 6 else if x >= 32 then 5 else if x >= 16 then 4
    else if x >= 8 then 3 else if x >= 4 then 2 else if x >= 2 then 1 else 0
  }

  /** Number of bits a bitlist carries: everything below the delimiter bit. */
  function BitCount(b: Bytes): nat
    requires |b| > 0 && b[|b| - 1] > 0
  {
    8 * (|b| - 1) + Msb(b[|b| - 1])
  }

  /** What ValidateBitlist accepts. */
  predicate ValidBitlist(b: Bytes, bits: nat) {
    0 < |b| <= bits / 8 + 1 && b[|b| - 1] > 0 && BitCount(b) <= bits
  }

  /** Every bitlist inside `v` would pass the decoder's check. */
  predicate BitsOk(t: Ty, v: Val)
    requires Typed(t, v)
  {
    match t
    case BitList(bits) => ValidBitlist(v.b, bits)
    case List(elem, max) => BitsOkEach(elem, v.xs)
    case Struct(fs) => BitsOkAll(fs, v.fs)
    case _ => true
  }

  predicate BitsOkEach(t: Ty, xs: Vals)
    requires TypedEach(t, xs)
  {
    xs.Nil? || (BitsOk(t, xs.v) && BitsOkEach(t, xs.rest))
  }

  predicate BitsOkAll(fs: Tys, vs: Vals)
    requires TypedAll(fs, vs)
  {
    match fs
    case End => true
    case Field(t, rest) => BitsOk(t, vs.v) && BitsOkAll(rest, vs.rest)
  }

  // ------------------------------------------------------------ decoding

  /** UnmarshalSSZ into receiver `recv`. Byte lists and bitlists are appended to
      what the receiver already holds; list elements are freshly allocated. */
  function Dec(t: Ty, recv: Val, buf: Bytes): (r: Result<Val>)
    requires Typed(t, recv) && Sound(t)
    ensures r.Ok? ==> Typed(t, r.value)
    decreases t, 0
  {
    match t
    case U64 =>
      if |buf| != 8 then Err(ErrSize) else ReadWordBound(buf); Ok(Num(Value(buf)))
    case Vec(n) =>
      if |buf| != n then Err(ErrSize) else Ok(Blob(buf))
    case ByteList(max, _) =>
      if |buf| > max then Err(ErrBytesLength) else Ok(Blob(recv.b + buf))
    case BitList(bits) =>
      if !ValidBitlist(buf, bits) then Err(ErrBitlist) else Ok(Blob(recv.b + buf))
    case List(elem, max) =>
      var xs :- DecList(elem, max, buf);
      Ok(Items(xs))
    case Struct(fs) =>
      var vs :- DecStruct(fs, recv.fs, buf);
      Ok(Rec(vs))
  }

  function DecList(elem: Ty, max: nat, buf: Bytes): (r: Result<Vals>)
    requires Sound(elem) && (Fixed(elem) ==> Width(elem) > 0)
    ensures r.Ok? ==> TypedEach(elem, r.value)
    decreases elem, 2 + |buf| + if |buf| >= 4 then Value(buf[..4]) else 0
  {
    if Fixed(elem) then
      var num :- DivideInt2(|buf|, Width(elem), max);
      TimesAtLeast(num, Width(elem));
      DecEach(elem, buf, num)
    else
      var num :- DecodeDynamicLength(buf, max);
      if num == 0 then Ok(Nil)
      else DecDynamic(elem, buf, buf[4..], num, Value(buf[..4]))
  }

  lemma {:induction false} TimesAtLeast(n: nat, w: nat)
    requires w > 0
    ensures n <= Times(n, w)
  {
    if n > 0 {
      TimesAtLeast(n - 1, w);
    }
  }

  function DecStruct(fs: Tys, recv: Vals, buf: Bytes): (r: Result<Vals>)
    requires TypedAll(fs, recv) && AllSound(fs)
    ensures r.Ok? ==> TypedAll(fs, r.value) && |buf| >= HeadLen(fs)
    decreases fs, 1
  {
    if (if AllFixed(fs) then |buf| != HeadLen(fs) else |buf| < HeadLen(fs)) then Err(ErrSize)
    else
      var head := buf[..HeadLen(fs)];
      var offs :- ReadOffsets(fs, head, |buf|, HeadLen(fs), true);
      LadderRaise(fs, offs, HeadLen(fs), Front(offs), |buf|);
      DecFields(fs, recv, head, buf, offs)
  }

  /** Exact division with an upper limit. */
  function DivideInt2(a: nat, b: nat, max: nat): (r: Result<nat>)
    requires b > 0
    ensures r.Ok? <==> a % b == 0 && a / b <= max
    ensures r.Ok? ==> a == Times(r.value, b)
  {
    TimesIsProduct(a / b, b);
    if a % b != 0 then Err(ErrSize) else if a / b > max then Err(ErrListTooBig) else Ok(a / b)
  }

  /** The element count that a list's first offset implies. */
  function DecodeDynamicLength(buf: Bytes, max: nat): (r: Result<nat>)
    ensures r.Ok? <==> buf == [] || (|buf| >= 4 && Value(buf[..4]) % 4 == 0 && Value(buf[..4]) <= 4 * max + 3)
    ensures r.Ok? && r.value > 0 ==> |buf| >= 4 && Value(buf[..4]) == 4 * r.value && r.value <= max
    ensures r == Ok(0) ==> buf == [] || (|buf| >= 4 && Value(buf[..4]) == 0)
  {
    if |buf| == 0 then Ok(0)
    else if |buf| < 4 then Err(ErrSize)
    else
      var off := Value(buf[..4]);
      if off % 4 != 0 then Err(ErrOffset)
      else if off / 4 > max then Err(ErrListTooBig)
      else Ok(off / 4)
  }

  /** `num` fixed-size elements. */
  function DecEach(t: Ty, buf: Bytes, num: nat): (r: Result<Vals>)
    requires Sound(t) && |buf| == Times(num, Width(t))
    ensures r.Ok? ==> Len(r.value) == num && TypedEach(t, r.value)
    decreases t, 1 + num
  {
    if num == 0 then Ok(Nil)
    else
      var x :- Dec(t, Zero(t), buf[..Width(t)]);
      var rest :- DecEach(t, buf[Width(t)..], num - 1);
      Ok(Cons(x, rest))
  }

  /** `num` variable-size elements, the first of which starts at `off`. An element
      ends where the next table entry, at the front of `dst`, points; the last one
      ends with the buffer. */
  function DecDynamic(t: Ty, buf: Bytes, dst: Bytes, num: nat, off: nat): (r: Result<Vals>)
    requires Sound(t)
    ensures r.Ok? ==> Len(r.value) == num && TypedEach(t, r.value)
    decreases t, 1 + num
  {
    if num == 0 then Ok(Nil)
    else
      var end :- ReadEnd(buf, dst, num);
      if off > end || end > |buf| then Err(ErrOffset)
      else
        var x :- Dec(t, Zero(t), buf[off..end]);
        var rest :- DecDynamic(t, buf, if num == 1 then dst else dst[4..], num - 1, end);
        Ok(Cons(x, rest))
  }

  function ReadEnd(buf: Bytes, dst: Bytes, num: nat): (r: Result<nat>)
    requires num > 0
    ensures r.Ok? && num > 1 ==> |dst| >= 4 && r.value == Value(dst[..4])
    ensures r.Ok? && num == 1 ==> r.value == |buf|
  {
    if num == 1 then Ok(|buf|)
    else if |dst| < 4 then Err(ErrSize)
    else Ok(Value(dst[..4]))
  }

  /** The offsets of a container's variable-size fields, then the buffer length. */
  datatype Offs = Last(end: nat) | At(o: nat, rest: Offs)

  function Front(offs: Offs): nat {
    if offs.Last? then offs.end else offs.o
  }

  /** One offset for each variable-size field, not before `lo`, none before its
      predecessor, all within a buffer of length `n`. */
  predicate Ladder(fs: Tys, offs: Offs, lo: nat, n: nat) {
    match fs
    case End => offs == Last(n) && lo <= n
    case Field(t, rest) =>
      if Fixed(t) then Ladder(rest, offs, lo, n)
      else offs.At? && lo <= offs.o && Ladder(rest, offs.rest, offs.o, n)
  }

  lemma {:induction false} LadderBounds(fs: Tys, offs: Offs, lo: nat, n: nat)
    requires Ladder(fs, offs, lo, n)
    ensures lo <= Front(offs) <= n
  {
    if fs.Field? {
      if Fixed(fs.t) {
        LadderBounds(fs.rest, offs, lo, n);
      } else {
        LadderBounds(fs.rest, offs.rest, offs.o, n);
      }
    }
  }

  /** Reads the offsets out of the fixed part `head` of a container of `size` bytes. */
  function ReadOffsets(fs: Tys, head: Bytes, size: nat, prev: nat, first: bool): (r: Result<Offs>)
    requires |head| == HeadLen(fs) && prev <= size
    ensures r.Ok? ==> Ladder(fs, r.value, prev, size)
  {
    match fs
    case End => Ok(Last(size))
    case Field(t, rest) =>
      if Fixed(t) then ReadOffsets(rest, head[Width(t)..], size, prev, first)
      else
        var o := Value(head[..4]);
        if o > size then Err(ErrOffset)
        else if o < prev then Err(if first then ErrInvalidVariableOffset else ErrOffset)
        else
          var more :- ReadOffsets(rest, head[4..], size, o, false);
          Ok(At(o, more))
  }

  /** Decodes fixed-size fields from `head` and variable-size ones from between the offsets. */
  function DecFields(fs: Tys, recv: Vals, head: Bytes, buf: Bytes, offs: Offs): (r: Result<Vals>)
    requires TypedAll(fs, recv) && AllSound(fs)
    requires |head| == HeadLen(fs) && Ladder(fs, offs, Front(offs), |buf|)
    ensures r.Ok? ==> TypedAll(fs, r.value)
    decreases fs, 0
  {
    match fs
    case End => Ok(Nil)
    case Field(t, rest) =>
      if Fixed(t) then
        var v :- Dec(t, recv.v, head[..Width(t)]);
        var vs :- DecFields(rest, recv.rest, head[Width(t)..], buf, offs);
        Ok(Cons(v, vs))
      else
        var next := Front(offs.rest);
        LadderBounds(rest, offs.rest, offs.o, |buf|);
        LadderRaise(rest, offs.rest, offs.o, next, |buf|);
        var v :- Dec(t, recv.v, buf[offs.o..next]);
        var vs :- DecFields(rest, recv.rest, head[4..], buf, offs.rest);
        Ok(Cons(v, vs))
  }

  lemma {:induction false} LadderRaise(fs: Tys, offs: Offs, lo: nat, hi: nat, n: nat)
    requires Ladder(fs, offs, lo, n) && hi <= Front(offs)
    ensures Ladder(fs, offs, hi, n)
  {
    if fs.Field? && Fixed(fs.t) {
      LadderRaise(fs.rest, offs, lo, hi, n);
    }
  }

  // ------------------------------------------------- receivers in use

  /** What decoding leaves in a receiver that was not empty. */
  function Overlay(t: Ty, recv: Val, v: Val): (r: Val)
    requires Typed(t, recv) && Typed(t, v)
    ensures Typed(t, r)
    decreases t, 0
  {
    match t
    case ByteList(_, _) => Blob(recv.b + v.b)
    case BitList(_) => Blob(recv.b + v.b)
    case Struct(fs) => Rec(OverlayAll(fs, recv.fs, v.fs))
    case _ => v
  }

  function OverlayAll(fs: Tys, recv: Vals, vs: Vals): (r: Vals)
    requires TypedAll(fs, recv) && TypedAll(fs, vs)
    ensures TypedAll(fs, r)
    decreases fs, 0
  {
    match fs
    case End => Nil
    case Field(t, rest) => Cons(Overlay(t, recv.v, vs.v), OverlayAll(rest, recv.rest, vs.rest))
  }

  /** No byte list or bitlist of the receiver holds anything yet. */
  predicate Fresh(t: Ty, recv: Val)
    requires Typed(t, recv)
    decreases t, 0
  {
    match t
    case ByteList(_, _) => recv.b == []
    case BitList(_) => recv.b == []
    case Struct(fs) => FreshAll(fs, recv.fs)
    case _ => true
  }

  predicate FreshAll(fs: Tys, recv: Vals)
    requires TypedAll(fs, recv)
    decreases fs, 0
  {
    match fs
    case End => true
    case Field(t, rest) => Fresh(t, recv.v) && FreshAll(rest, recv.rest)
  }
}
