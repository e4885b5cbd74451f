/** Which byte strings are the encoding of what they decode to. */
module SszCanonical {
  import opened ByteCodec
  import opened Ssz
  import opened SszProofs

  /** Every container's first offset points to the end of its fixed part, and every
      non-empty list of variable-size elements has at least one table entry. The
      decoder checks neither. */
  predicate Canon(t: Ty, buf: Bytes)
    requires Sound(t)
    decreases t, 0
  {
    match t
    case List(elem, _) =>
      Fixed(elem) || buf == [] ||
      (|buf| >= 4 && Value(buf[..4]) > 0
       && CanonDynamic(elem, buf, buf[4..], Value(buf[..4]) / 4, Value(buf[..4])))
    case Struct(fs) =>
      && |buf| >= HeadLen(fs)
      && var offs := ReadOffsets(fs, buf[..HeadLen(fs)], |buf|, HeadLen(fs), true);
      && offs.Ok? && Front(offs.value) == HeadLen(fs)
      && CanonFields(fs, buf, offs.value)
    case _ => true
  }

  predicate CanonDynamic(t: Ty, buf: Bytes, dst: Bytes, num: nat, off: nat)
    requires Sound(t)
    decreases t, 1 + num
  {
    num == 0 ||
    (var end := ReadEnd(buf, dst, num);
     && end.Ok? && off <= end.value <= |buf| && Canon(t, buf[off..end.value])
     && CanonDynamic(t, buf, if num == 1 then dst else dst[4..], num - 1, end.value))
  }

  predicate CanonFields(fs: Tys, buf: Bytes, offs: Offs)
    requires AllSound(fs) && Ladder(fs, offs, Front(offs), |buf|)
    decreases fs, 0
  {
    match fs
    case End => true
    case Field(t, rest) =>
      if Fixed(t) then CanonFields(rest, buf, offs)
      else
        LadderBounds(rest, offs.rest, offs.o, |buf|);
        LadderRaise(rest, offs.rest, offs.o, Front(offs.rest), |buf|);
        Canon(t, buf[offs.o..Front(offs.rest)]) && CanonFields(rest, buf, offs.rest)
  }

  // --------------------------------------------- canonical implies re-encodable

  /** Fixed-size schemas have only canonical encodings. */
  lemma {:induction false} FixedReencodes(t: Ty, recv: Val, buf: Bytes)
    requires Sound(t) && Fixed(t) && Typed(t, recv) && Dec(t, recv, buf).Ok?
    ensures |buf| == Width(t) && Enc(t, Dec(t, recv, buf).value) == buf
  {
    match t
    case U64 => ReadWordBound(buf);
    case Vec(_) =>
    case Struct(fs) =>
      var w := HeadLen(fs);
      assert buf[..w] == buf;
      var offs := ReadOffsets(fs, buf[..w], |buf|, w, true).value;
      AllFixedOffsets(fs, offs, w, |buf|);
      FixedFieldsReencode(fs, recv.fs, buf[..w], buf, offs);
  }

  lemma {:induction false} AllFixedOffsets(fs: Tys, offs: Offs, lo: nat, n: nat)
    requires AllFixed(fs) && Ladder(fs, offs, lo, n)
    ensures offs == Last(n)
  {
    if fs.Field? {
      AllFixedOffsets(fs.rest, offs, lo, n);
    }
  }

  lemma {:induction false} FixedFieldsReencode(fs: Tys, recv: Vals, head: Bytes, buf: Bytes, offs: Offs)
    requires AllSound(fs) && AllFixed(fs) && TypedAll(fs, recv) && |head| == HeadLen(fs)
    requires Ladder(fs, offs, Front(offs), |buf|) && DecFields(fs, recv, head, buf, offs).Ok?
    ensures forall off: nat :: Heads(fs, DecFields(fs, recv, head, buf, offs).value, off) == head
    ensures Tails(fs, DecFields(fs, recv, head, buf, offs).value) == []
  {
    if fs.Field? {
      var w := Width(fs.t);
      FixedReencodes(fs.t, recv.v, head[..w]);
      FixedFieldsReencode(fs.rest, recv.rest, head[w..], buf, offs);
      Rejoin(head, w);
    }
  }

  lemma {:induction false} CanonicalReencodes(t: Ty, recv: Val, buf: Bytes)
    requires Sound(t) && Typed(t, recv) && Fresh(t, recv) && Dec(t, recv, buf).Ok?
    requires Canon(t, buf)
    ensures Enc(t, Dec(t, recv, buf).value) == buf
    decreases t, 0
  {
    match t
    case List(elem, max) =>
      if Fixed(elem) {
        EachReencodes(elem, buf, DivideInt2(|buf|, Width(elem), max).value);
      } else if buf != [] {
        ListReencodes(elem, max, buf);
      }
    case Struct(fs) =>
      var w := HeadLen(fs);
      var offs := ReadOffsets(fs, buf[..w], |buf|, w, true).value;
      LadderRaise(fs, offs, w, Front(offs), |buf|);
      OffsetsAreTrue(fs, buf[..w], |buf|, w, true);
      FieldsReencode(fs, recv.fs, buf[..w], buf, offs);
      Rejoin(buf, w);
    case U64 => ReadWordBound(buf);
    case ByteList(_, _) => AppendNothing([], buf);
    case BitList(_) => AppendNothing([], buf);
    case _ =>
  }

  lemma {:induction false} EachReencodes(t: Ty, buf: Bytes, num: nat)
    requires Sound(t) && Fixed(t) && |buf| == Times(num, Width(t)) && DecEach(t, buf, num).Ok?
    ensures Flat(t, DecEach(t, buf, num).value) == buf
  {
    if num > 0 {
      var w := Width(t);
      Rejoin(buf, w);
      FixedReencodes(t, Zero(t), buf[..w]);
      EachReencodes(t, buf[w..], num - 1);
    }
  }

  lemma {:induction false} ListReencodes(elem: Ty, max: nat, buf: Bytes)
    requires Sound(List(elem, max)) && !Fixed(elem) && buf != []
    requires Canon(List(elem, max), buf) && Dec(List(elem, max), Items(Nil), buf).Ok?
    ensures Enc(List(elem, max), Dec(List(elem, max), Items(Nil), buf).value) == buf
    decreases elem, 2 + if |buf| >= 4 then Value(buf[..4]) else 0
  {
    hide CanonDynamic, DecDynamic, Zero;
    var off := Value(buf[..4]);
    var num := DecodeDynamicLength(buf, max).value;
    var xs := DecDynamic(elem, buf, buf[4..], num, off).value;
    ReadOffsetBound(buf[..4]);
    DynamicReencodes(elem, buf, buf[4..], num, off);
    GlueFront(buf, 4 * (num - 1));
    assert Table(elem, xs, off) == buf[..off];
    Rejoin(buf, off);
  }

  lemma GlueTail(buf: Bytes, i: nat, j: nat)
    requires i <= j <= |buf|
    ensures buf[i..] == buf[i..j] + buf[j..]
  {
  }

  lemma GlueFront(dst: Bytes, n: nat)
    requires 4 + n <= |dst|
    ensures dst[..4 + n] == dst[..4] + dst[4..][..n]
  {
  }

  /** The elements cover the buffer from `off` on, and the table entries in `dst` are
      the ones the encoder would write. */
  lemma {:induction false} DynamicReencodes(t: Ty, buf: Bytes, dst: Bytes, num: nat, off: nat)
    requires Sound(t) && num > 0
    requires DecDynamic(t, buf, dst, num, off).Ok? && CanonDynamic(t, buf, dst, num, off)
    ensures var xs := DecDynamic(t, buf, dst, num, off).value;
      && off <= |buf| && Flat(t, xs) == buf[off..]
      && |dst| >= 4 * (num - 1) && TableRest(t, xs, off) == dst[..4 * (num - 1)]
    decreases t, 1 + num
  {
    hide Dec, Enc, Sound, Canon, Typed, DecDynamic, CanonDynamic;
    FirstReencodes(t, buf, dst, num, off);
    var end := ReadEnd(buf, dst, num).value;
    GlueTail(buf, off, end);
    if num > 1 {
      DynamicReencodes(t, buf, dst[4..], num - 1, end);
      ReadOffsetBound(dst[..4]);
      GlueFront(dst, 4 * (num - 2));
    }
  }

  lemma {:induction false} FirstReencodes(t: Ty, buf: Bytes, dst: Bytes, num: nat, off: nat)
    requires Sound(t) && num > 0
    requires DecDynamic(t, buf, dst, num, off).Ok? && CanonDynamic(t, buf, dst, num, off)
    ensures var xs := DecDynamic(t, buf, dst, num, off).value;
      ReadEnd(buf, dst, num).Ok? &&
      var end := ReadEnd(buf, dst, num).value;
      && off <= end <= |buf| && Enc(t, xs.v) == buf[off..end]
      && (num == 1 ==> xs.rest == Nil)
      && (num > 1 ==> DecDynamic(t, buf, dst[4..], num - 1, end) == Ok(xs.rest)
                      && CanonDynamic(t, buf, dst[4..], num - 1, end))
    decreases t, num
  {
    ZeroIsFresh(t);
    CanonicalReencodes(t, Zero(t), buf[off..ReadEnd(buf, dst, num).value]);
  }

  /** The fixed part is rebuilt by writing the offsets that were read from it. */
  function Rewrite(fs: Tys, head: Bytes, offs: Offs): Bytes
    requires |head| == HeadLen(fs) && Ladder(fs, offs, Front(offs), LastOf(offs))
  {
    match fs
    case End => []
    case Field(t, rest) =>
      if Fixed(t) then head[..Width(t)] + Rewrite(rest, head[Width(t)..], offs)
      else
        LadderBounds(rest, offs.rest, offs.o, LastOf(offs));
        LadderRaise(rest, offs.rest, offs.o, Front(offs.rest), LastOf(offs));
        assert Width(t) == 4;
        LE(offs.o, 4) + Rewrite(rest, head[4..], offs.rest)
  }

  function LastOf(offs: Offs): nat {
    if offs.Last? then offs.end else LastOf(offs.rest)
  }

  lemma {:induction false} LadderEnd(fs: Tys, offs: Offs, lo: nat, n: nat)
    requires Ladder(fs, offs, lo, n)
    ensures LastOf(offs) == n
  {
    if fs.Field? {
      if Fixed(fs.t) {
        LadderEnd(fs.rest, offs, lo, n);
      } else {
        LadderEnd(fs.rest, offs.rest, offs.o, n);
      }
    }
  }

  lemma {:induction false} OffsetsAreTrue(fs: Tys, head: Bytes, size: nat, prev: nat, first: bool)
    requires |head| == HeadLen(fs) && prev <= size && ReadOffsets(fs, head, size, prev, first).Ok?
    ensures var offs := ReadOffsets(fs, head, size, prev, first).value;
      LastOf(offs) == size && Ladder(fs, offs, Front(offs), size) && Rewrite(fs, head, offs) == head
  {
    var offs := ReadOffsets(fs, head, size, prev, first).value;
    LadderEnd(fs, offs, prev, size);
    LadderRaise(fs, offs, prev, Front(offs), size);
    if fs.Field? {
      var w := Width(fs.t);
      Rejoin(head, w);
      if Fixed(fs.t) {
        OffsetsAreTrue(fs.rest, head[w..], size, prev, first);
      } else {
        ReadOffsetBound(head[..4]);
        OffsetsAreTrue(fs.rest, head[4..], size, offs.o, false);
      }
    }
  }

  lemma {:induction false} FieldsReencode(fs: Tys, recv: Vals, head: Bytes, buf: Bytes, offs: Offs)
    requires AllSound(fs) && TypedAll(fs, recv) && FreshAll(fs, recv) && |head| == HeadLen(fs)
    requires Ladder(fs, offs, Front(offs), |buf|) && LastOf(offs) == |buf|
    requires DecFields(fs, recv, head, buf, offs).Ok? && CanonFields(fs, buf, offs)
    ensures var vs := DecFields(fs, recv, head, buf, offs).value;
      && Front(offs) <= |buf| && Tails(fs, vs) == buf[Front(offs)..]
      && Heads(fs, vs, Front(offs)) == Rewrite(fs, head, offs)
    decreases fs, 0
  {
    hide Dec, Enc, Canon, Typed, Sound, Fresh, LE;
    LadderBounds(fs, offs, Front(offs), |buf|);
    if fs.Field? {
      var w := Width(fs.t);
      var vs := DecFields(fs, recv, head, buf, offs).value;
      if Fixed(fs.t) {
        FixedReencodes(fs.t, recv.v, head[..w]);
        FieldsReencode(fs.rest, recv.rest, head[w..], buf, offs);
        assert Tails(fs, vs) == [] + Tails(fs.rest, vs.rest);
      } else {
        var next := Front(offs.rest);
        LadderBounds(fs.rest, offs.rest, offs.o, |buf|);
        LadderRaise(fs.rest, offs.rest, offs.o, next, |buf|);
        CanonicalReencodes(fs.t, recv.v, buf[offs.o..next]);
        FieldsReencode(fs.rest, recv.rest, head[4..], buf, offs.rest);
        GlueTail(buf, offs.o, next);
      }
    }
  }

  // ------------------------------------------------- encodings are canonical

  lemma {:induction false} EncodingsAreCanonical(t: Ty, v: Val)
    requires Sound(t) && Typed(t, v) && Fits(t, v)
    ensures Canon(t, Enc(t, v))
    decreases t, v, 0
  {
    hide CanonDynamic, CanonFields, ReadOffsets, Heads, Tails, LE, Starts;
    match t
    case List(elem, max) =>
      if !Fixed(elem) && v.xs.Cons? {
        TableFront(elem, v.xs);
        DynamicIsCanonical(elem, v.xs, Enc(t, v), Flat(elem, v.xs), 4 * Len(v.xs));
      }
    case Struct(fs) =>
      var w := HeadLen(fs);
      FieldsSize(fs, v.fs, w);
      Cut(Heads(fs, v.fs, w), Tails(fs, v.fs));
      OffsetsReadBack(fs, v.fs, w, w + |Tails(fs, v.fs)|, w, true);
      FieldsAreCanonical(fs, v.fs, Enc(t, v), w);
    case _ =>
  }

  lemma {:induction false} DynamicIsCanonical(t: Ty, xs: Vals, buf: Bytes, data: Bytes, off: nat)
    requires Sound(t) && !Fixed(t) && TypedEach(t, xs) && xs.Cons?
    requires off <= |buf| && buf[off..] == Flat(t, xs) && TableFits(t, xs, off)
    ensures CanonDynamic(t, buf, TableRest(t, xs, off) + data, Len(xs), off)
    decreases t, xs, 0
  {
    var next := off + |Enc(t, xs.v)|;
    Peel(buf, off, Enc(t, xs.v), Flat(t, xs.rest));
    EncodingsAreCanonical(t, xs.v);
    if xs.rest.Cons? {
      assert TableFits(t, xs.rest, next);
      NextEntry(t, xs, data, off, next);
      DynamicIsCanonical(t, xs.rest, buf, data, next);
    }
  }

  lemma {:induction false} FieldsAreCanonical(fs: Tys, vs: Vals, buf: Bytes, off: nat)
    requires AllSound(fs) && TypedAll(fs, vs)
    requires off <= |buf| && buf[off..] == Tails(fs, vs) && HeadFits(fs, vs, off)
    ensures CanonFields(fs, buf, Starts(fs, vs, off))
    decreases fs, vs, 0
  {
    if fs.Field? {
      if Fixed(fs.t) {
        assert Tails(fs, vs) == Tails(fs.rest, vs.rest);
        FieldsAreCanonical(fs.rest, vs.rest, buf, off);
      } else {
        var next := off + |Enc(fs.t, vs.v)|;
        Peel(buf, off, Enc(fs.t, vs.v), Tails(fs.rest, vs.rest));
        EncodingsAreCanonical(fs.t, vs.v);
        FieldsAreCanonical(fs.rest, vs.rest, buf, next);
      }
    }
  }

  // ------------------------------------------------------- lengths tell it all

  /** Re-encoding never gives more bytes than were decoded, and as many only if these were
      canonical. */
  lemma {:induction false} NeverLonger(t: Ty, recv: Val, buf: Bytes)
    requires Sound(t) && Typed(t, recv) && Fresh(t, recv) && Dec(t, recv, buf).Ok?
    ensures |Enc(t, Dec(t, recv, buf).value)| <= |buf|
    ensures |Enc(t, Dec(t, recv, buf).value)| == |buf| ==> Canon(t, buf)
    decreases t, 0
  {
    match t
    case List(elem, max) =>
      if Fixed(elem) {
        EachReencodes(elem, buf, DivideInt2(|buf|, Width(elem), max).value);
      } else {
        ListNeverLonger(elem, max, buf);
      }
    case Struct(fs) =>
      var w := HeadLen(fs);
      var offs := ReadOffsets(fs, buf[..w], |buf|, w, true).value;
      LadderBounds(fs, offs, w, |buf|);
      LadderRaise(fs, offs, w, Front(offs), |buf|);
      FieldsNeverLonger(fs, recv.fs, buf[..w], buf, offs);
      FieldsSize(fs, DecFields(fs, recv.fs, buf[..w], buf, offs).value, w);
    case _ =>
  }

  lemma {:induction false} ListNeverLonger(elem: Ty, max: nat, buf: Bytes)
    requires Sound(List(elem, max)) && !Fixed(elem) && Dec(List(elem, max), Items(Nil), buf).Ok?
    ensures var e := Enc(List(elem, max), Dec(List(elem, max), Items(Nil), buf).value);
      |e| <= |buf| && (|e| == |buf| ==> Canon(List(elem, max), buf))
    decreases elem, 2 + if |buf| >= 4 then Value(buf[..4]) else 0
  {
    hide CanonDynamic, DecDynamic, Zero;
    var num := DecodeDynamicLength(buf, max).value;
    if num > 0 {
      DynamicNeverLonger(elem, buf, buf[4..], num, Value(buf[..4]));
    }
  }

  lemma {:induction false} DynamicNeverLonger(t: Ty, buf: Bytes, dst: Bytes, num: nat, off: nat)
    requires Sound(t) && num > 0 && DecDynamic(t, buf, dst, num, off).Ok?
    ensures var e := Flat(t, DecDynamic(t, buf, dst, num, off).value);
      off <= |buf| && |e| <= |buf| - off && (|e| == |buf| - off ==> CanonDynamic(t, buf, dst, num, off))
    decreases t, 1 + num
  {
    hide Dec, Enc, Sound, Canon, Typed;
    var end := ReadEnd(buf, dst, num).value;
    ZeroIsFresh(t);
    NeverLonger(t, Zero(t), buf[off..end]);
    if num > 1 {
      DynamicNeverLonger(t, buf, dst[4..], num - 1, end);
    }
  }

  lemma {:induction false} FieldsNeverLonger(fs: Tys, recv: Vals, head: Bytes, buf: Bytes, offs: Offs)
    requires AllSound(fs) && TypedAll(fs, recv) && FreshAll(fs, recv) && |head| == HeadLen(fs)
    requires Ladder(fs, offs, Front(offs), |buf|) && DecFields(fs, recv, head, buf, offs).Ok?
    ensures var e := Tails(fs, DecFields(fs, recv, head, buf, offs).value);
      && Front(offs) <= |buf| && |e| <= |buf| - Front(offs)
      && (|e| == |buf| - Front(offs) ==> CanonFields(fs, buf, offs))
    decreases fs, 0
  {
    hide Dec, Enc, Canon, Typed, Sound, Fresh;
    LadderBounds(fs, offs, Front(offs), |buf|);
    if fs.Field? {
      if Fixed(fs.t) {
        FieldsNeverLonger(fs.rest, recv.rest, head[Width(fs.t)..], buf, offs);
      } else {
        var next := Front(offs.rest);
        LadderBounds(fs.rest, offs.rest, offs.o, |buf|);
        LadderRaise(fs.rest, offs.rest, offs.o, next, |buf|);
        NeverLonger(fs.t, recv.v, buf[offs.o..next]);
        FieldsNeverLonger(fs.rest, recv.rest, head[4..], buf, offs.rest);
      }
    }
  }

  /** Re-encoding what was decoded gives back the input bytes exactly when the input was
      canonical, and that is so exactly when it gives back as many bytes. */
  lemma ReencodesIffCanonical(t: Ty, recv: Val, buf: Bytes)
    requires Sound(t) && Typed(t, recv) && Fresh(t, recv) && Dec(t, recv, buf).Ok?
    ensures Enc(t, Dec(t, recv, buf).value) == buf <==> Canon(t, buf)
    ensures |Enc(t, Dec(t, recv, buf).value)| == |buf| <==> Canon(t, buf)
  {
    if Canon(t, buf) {
      CanonicalReencodes(t, recv, buf);
    }
    NeverLonger(t, recv, buf);
  }

  // ------------------------------------------------ decoded values are in bounds

  /** A decoded value passes the encoder's limits and has only valid bitlists. */
  lemma {:induction false} DecodedIsWithinLimits(t: Ty, recv: Val, buf: Bytes)
    requires Sound(t) && Typed(t, recv) && Fresh(t, recv) && Dec(t, recv, buf).Ok?
    ensures var v := Dec(t, recv, buf).value; EncOk(t, v) && BitsOk(t, v)
    decreases t, 0
  {
    match t
    case ByteList(_, _) => AppendNothing([], buf);
    case BitList(_) => AppendNothing([], buf);
    case List(elem, max) =>
      if Fixed(elem) {
        EachWithinLimits(elem, buf, DivideInt2(|buf|, Width(elem), max).value);
      } else {
        var num := DecodeDynamicLength(buf, max).value;
        if num > 0 {
          DynamicWithinLimits(elem, buf, buf[4..], num, Value(buf[..4]));
        }
      }
    case Struct(fs) =>
      var w := HeadLen(fs);
      var offs := ReadOffsets(fs, buf[..w], |buf|, w, true).value;
      LadderRaise(fs, offs, w, Front(offs), |buf|);
      FieldsWithinLimits(fs, recv.fs, buf[..w], buf, offs);
    case _ =>
  }

  lemma {:induction false} EachWithinLimits(t: Ty, buf: Bytes, num: nat)
    requires Sound(t) && |buf| == Times(num, Width(t)) && DecEach(t, buf, num).Ok?
    ensures var xs := DecEach(t, buf, num).value; EncOkEach(t, xs) && BitsOkEach(t, xs)
    decreases t, 1 + num
  {
    if num > 0 {
      var w := Width(t);
      ZeroIsFresh(t);
      DecodedIsWithinLimits(t, Zero(t), buf[..w]);
      EachWithinLimits(t, buf[w..], num - 1);
    }
  }

  lemma {:induction false} DynamicWithinLimits(t: Ty, buf: Bytes, dst: Bytes, num: nat, off: nat)
    requires Sound(t) && DecDynamic(t, buf, dst, num, off).Ok?
    ensures var xs := DecDynamic(t, buf, dst, num, off).value; EncOkEach(t, xs) && BitsOkEach(t, xs)
    decreases t, 1 + num
  {
    if num > 0 {
      var end := ReadEnd(buf, dst, num).value;
      ZeroIsFresh(t);
      DecodedIsWithinLimits(t, Zero(t), buf[off..end]);
      DynamicWithinLimits(t, buf, if num == 1 then dst else dst[4..], num - 1, end);
    }
  }

  lemma {:induction false} FieldsWithinLimits(fs: Tys, recv: Vals, head: Bytes, buf: Bytes, offs: Offs)
    requires AllSound(fs) && TypedAll(fs, recv) && FreshAll(fs, recv) && |head| == HeadLen(fs)
    requires Ladder(fs, offs, Front(offs), |buf|) && DecFields(fs, recv, head, buf, offs).Ok?
    ensures var vs := DecFields(fs, recv, head, buf, offs).value; EncOkAll(fs, vs) && BitsOkAll(fs, vs)
    decreases fs, 0
  {
    if fs.Field? {
      if Fixed(fs.t) {
        DecodedIsWithinLimits(fs.t, recv.v, head[..Width(fs.t)]);
        FieldsWithinLimits(fs.rest, recv.rest, head[Width(fs.t)..], buf, offs);
      } else {
        var next := Front(offs.rest);
        LadderBounds(fs.rest, offs.rest, offs.o, |buf|);
        LadderRaise(fs.rest, offs.rest, offs.o, next, |buf|);
        DecodedIsWithinLimits(fs.t, recv.v, buf[offs.o..next]);
        FieldsWithinLimits(fs.rest, recv.rest, head[4..], buf, offs.rest);
      }
    }
  }
}
