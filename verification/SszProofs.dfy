/** The codec laws, for every schema: sizes, offsets, round trip, canonical form. */
module SszProofs {
  import opened ByteCodec
  import opened Ssz

  // ---------------------------------------------------------------- sizes

  /** SizeSSZ is the number of bytes MarshalSSZTo appends. */
  lemma {:induction false} SizeIsExact(t: Ty, v: Val)
    requires Typed(t, v)
    ensures |Enc(t, v)| == Size(t, v)
    ensures Fixed(t) ==> Size(t, v) == Width(t)
  {
    match t
    case List(elem, _) => FlatSize(elem, v.xs);
    case Struct(fs) => FieldsSize(fs, v.fs, HeadLen(fs));
    case _ =>
  }

  lemma {:induction false} FlatSize(t: Ty, xs: Vals)
    requires TypedEach(t, xs)
    ensures Fixed(t) ==> |Flat(t, xs)| == Times(Len(xs), Width(t))
    ensures 4 * Len(xs) + |Flat(t, xs)| == SizeEach(t, xs)
  {
    if xs.Cons? {
      SizeIsExact(t, xs.v);
      FlatSize(t, xs.rest);
    }
  }

  lemma {:induction false} FieldsSize(fs: Tys, vs: Vals, off: nat)
    requires TypedAll(fs, vs)
    ensures |Heads(fs, vs, off)| == HeadLen(fs)
    ensures |Tails(fs, vs)| == SizeTails(fs, vs)
    ensures AllFixed(fs) ==> SizeTails(fs, vs) == 0
  {
    if fs.Field? {
      SizeIsExact(fs.t, vs.v);
      FieldsSize(fs.rest, vs.rest, if Fixed(fs.t) then off else off + |Enc(fs.t, vs.v)|);
    }
  }

  /** The largest encoding that passes the encoder's limits. */
  function MaxSize(t: Ty): nat {
    match t
    case U64 => 8
    case Vec(n) => n
    case ByteList(max, _) => max
    case BitList(bits) => bits
    case List(elem, max) => if Fixed(elem) then max * Width(elem) else max * (4 + MaxSize(elem))
    case Struct(fs) => HeadLen(fs) + MaxTails(fs)
  }

  function MaxTails(fs: Tys): nat {
    match fs
    case End => 0
    case Field(t, rest) => (if Fixed(t) then 0 else MaxSize(t)) + MaxTails(rest)
  }

  lemma MulMono(a: nat, b: nat, k: nat)
    requires a <= b
    ensures a * k <= b * k
  {
    assert b * k == a * k + (b - a) * k;
  }

  lemma OneMore(n: nat, k: nat)
    ensures (1 + n) * k == k + n * k
  {
  }

  lemma {:induction false} SizeIsBounded(t: Ty, v: Val)
    requires Typed(t, v) && EncOk(t, v)
    ensures Size(t, v) <= MaxSize(t)
  {
    match t
    case List(elem, max) =>
      if Fixed(elem) {
        TimesIsProduct(Len(v.xs), Width(elem));
        MulMono(Len(v.xs), max, Width(elem));
      } else {
        EachBounded(elem, v.xs);
        MulMono(Len(v.xs), max, 4 + MaxSize(elem));
      }
    case Struct(fs) => TailsBounded(fs, v.fs);
    case _ =>
  }

  lemma {:induction false} EachBounded(t: Ty, xs: Vals)
    requires TypedEach(t, xs) && EncOkEach(t, xs)
    ensures SizeEach(t, xs) <= Len(xs) * (4 + MaxSize(t))
  {
    hide Size, MaxSize, Typed, EncOk;
    if xs.Cons? {
      SizeIsBounded(t, xs.v);
      EachBounded(t, xs.rest);
      OneMore(Len(xs.rest), 4 + MaxSize(t));
    }
  }

  lemma {:induction false} TailsBounded(fs: Tys, vs: Vals)
    requires TypedAll(fs, vs) && EncOkAll(fs, vs)
    ensures SizeTails(fs, vs) <= MaxTails(fs)
  {
    if fs.Field? {
      if !Fixed(fs.t) {
        SizeIsBounded(fs.t, vs.v);
      }
      TailsBounded(fs.rest, vs.rest);
    }
  }

  /** There is an error exactly when a limit is exceeded. */
  lemma {:induction false} ErrorIffLimit(t: Ty, v: Val)
    requires Typed(t, v)
    ensures EncError(t, v).None? <==> EncOk(t, v)
  {
    match t
    case List(elem, _) => EachErrorIffLimit(elem, v.xs);
    case Struct(fs) => AllErrorIffLimit(fs, v.fs);
    case _ =>
  }

  lemma {:induction false} EachErrorIffLimit(t: Ty, xs: Vals)
    requires TypedEach(t, xs)
    ensures EncErrorEach(t, xs).None? <==> EncOkEach(t, xs)
  {
    if xs.Cons? {
      ErrorIffLimit(t, xs.v);
      EachErrorIffLimit(t, xs.rest);
    }
  }

  lemma {:induction false} AllErrorIffLimit(fs: Tys, vs: Vals)
    requires TypedAll(fs, vs)
    ensures EncErrorAll(fs, vs).None? <==> EncOkAll(fs, vs)
  {
    if fs.Field? {
      ErrorIffLimit(fs.t, vs.v);
      AllErrorIffLimit(fs.rest, vs.rest);
    }
  }

  /** Fixed-size values have no limit to exceed. */
  lemma {:induction false} FixedHasNoLimits(t: Ty, v: Val)
    requires Fixed(t) && Typed(t, v)
    ensures EncOk(t, v) && BitsOk(t, v)
  {
    if t.Struct? {
      AllFixedHasNoLimits(t.fs, v.fs);
    }
  }

  lemma {:induction false} AllFixedHasNoLimits(fs: Tys, vs: Vals)
    requires AllFixed(fs) && TypedAll(fs, vs)
    ensures EncOkAll(fs, vs) && BitsOkAll(fs, vs)
  {
    if fs.Field? {
      FixedHasNoLimits(fs.t, vs.v);
      AllFixedHasNoLimits(fs.rest, vs.rest);
    }
  }

  /** A buffer of the right size always decodes to a fixed-size value. */
  lemma {:induction false} FixedDecodes(t: Ty, recv: Val, buf: Bytes)
    requires Sound(t) && Fixed(t) && Typed(t, recv) && |buf| == Width(t)
    ensures Dec(t, recv, buf).Ok?
  {
    if t.Struct? {
      var w := HeadLen(t.fs);
      assert buf[..w] == buf;
      NoOffsets(t.fs, buf, w, w, true);
      AllFixedDecode(t.fs, recv.fs, buf, buf, Last(w));
    }
  }

  lemma {:induction false} NoOffsets(fs: Tys, head: Bytes, size: nat, prev: nat, first: bool)
    requires AllFixed(fs) && |head| == HeadLen(fs) && prev <= size
    ensures ReadOffsets(fs, head, size, prev, first) == Ok(Last(size))
  {
    if fs.Field? {
      NoOffsets(fs.rest, head[Width(fs.t)..], size, prev, first);
    }
  }

  lemma {:induction false} AllFixedDecode(fs: Tys, recv: Vals, head: Bytes, buf: Bytes, offs: Offs)
    requires AllSound(fs) && AllFixed(fs) && TypedAll(fs, recv) && |head| == HeadLen(fs)
    requires Ladder(fs, offs, Front(offs), |buf|)
    ensures DecFields(fs, recv, head, buf, offs).Ok?
  {
    if fs.Field? {
      FixedDecodes(fs.t, recv.v, head[..Width(fs.t)]);
      AllFixedDecode(fs.rest, recv.rest, head[Width(fs.t)..], buf, offs);
    }
  }

  // ------------------------------------------------------ offsets that fit

  /** No offset inside the encoding of `v` wraps around at 2^32. */
  predicate Fits(t: Ty, v: Val)
    requires Typed(t, v)
  {
    match t
    case List(elem, _) => TableFits(elem, v.xs, 4 * Len(v.xs))
    case Struct(fs) => HeadFits(fs, v.fs, HeadLen(fs))
    case _ => true
  }

  predicate TableFits(t: Ty, xs: Vals, off: nat)
    requires TypedEach(t, xs)
  {
    xs.Nil? ||
    ((Fixed(t) || off < TWO32) && Fits(t, xs.v) && TableFits(t, xs.rest, off + |Enc(t, xs.v)|))
  }

  predicate HeadFits(fs: Tys, vs: Vals, off: nat)
    requires TypedAll(fs, vs)
  {
    match fs
    case End => true
    case Field(t, rest) =>
      && Fits(t, vs.v)
      && if Fixed(t) then HeadFits(rest, vs.rest, off)
         else off < TWO32 && HeadFits(rest, vs.rest, off + |Enc(t, vs.v)|)
  }

  /** Short encodings need no care. */
  lemma {:induction false} ShortFits(t: Ty, v: Val)
    requires Typed(t, v) && |Enc(t, v)| < TWO32
    ensures Fits(t, v)
    decreases t, v, 0
  {
    match t
    case List(elem, _) => ShortTableFits(elem, v.xs, if Fixed(elem) then 0 else 4 * Len(v.xs));
      if Fixed(elem) {
        FixedTableFits(elem, v.xs, 0, 4 * Len(v.xs));
      }
    case Struct(fs) =>
      FieldsSize(fs, v.fs, HeadLen(fs));
      ShortHeadFits(fs, v.fs, HeadLen(fs));
    case _ =>
  }

  lemma {:induction false} ShortTableFits(t: Ty, xs: Vals, off: nat)
    requires TypedEach(t, xs) && off + |Flat(t, xs)| < TWO32
    ensures TableFits(t, xs, off)
    decreases t, xs, 0
  {
    if xs.Cons? {
      ShortFits(t, xs.v);
      ShortTableFits(t, xs.rest, off + |Enc(t, xs.v)|);
    }
  }

  lemma {:induction false} FixedTableFits(t: Ty, xs: Vals, off: nat, off': nat)
    requires TypedEach(t, xs) && Fixed(t) && TableFits(t, xs, off)
    ensures TableFits(t, xs, off')
  {
    if xs.Cons? {
      FixedTableFits(t, xs.rest, off + |Enc(t, xs.v)|, off' + |Enc(t, xs.v)|);
    }
  }

  lemma {:induction false} ShortHeadFits(fs: Tys, vs: Vals, off: nat)
    requires TypedAll(fs, vs) && HeadLen(fs) < TWO32 && off + |Tails(fs, vs)| < TWO32
    ensures HeadFits(fs, vs, off)
    decreases fs, vs, 0
  {
    if fs.Field? {
      SizeIsExact(fs.t, vs.v);
      ShortFits(fs.t, vs.v);
      ShortHeadFits(fs.rest, vs.rest, if Fixed(fs.t) then off else off + |Enc(fs.t, vs.v)|);
    }
  }

  // ----------------------------------------------------------- round trip

  /** Where each variable-size field starts, then where the last one ends. */
  function Starts(fs: Tys, vs: Vals, off: nat): (s: Offs)
    requires TypedAll(fs, vs)
    ensures Ladder(fs, s, off, off + |Tails(fs, vs)|) && Front(s) == off
  {
    match fs
    case End => Last(off)
    case Field(t, rest) =>
      if Fixed(t) then Starts(rest, vs.rest, off)
      else
        var next := off + |Enc(t, vs.v)|;
        var more := Starts(rest, vs.rest, next);
        LadderLower(rest, more, off, next, next + |Tails(rest, vs.rest)|);
        At(off, more)
  }

  lemma {:induction false} LadderLower(fs: Tys, offs: Offs, lo: nat, hi: nat, n: nat)
    requires Ladder(fs, offs, hi, n) && lo <= hi
    ensures Ladder(fs, offs, lo, n)
  {
    if fs.Field? && Fixed(fs.t) {
      LadderLower(fs.rest, offs, lo, hi, n);
    }
  }

  /** Every offset read back is the true start of its field. */
  lemma {:induction false} OffsetsReadBack(fs: Tys, vs: Vals, off: nat, size: nat, prev: nat, first: bool)
    requires TypedAll(fs, vs) && |Heads(fs, vs, off)| == HeadLen(fs)
    requires prev <= off && off + |Tails(fs, vs)| == size && HeadFits(fs, vs, off)
    ensures ReadOffsets(fs, Heads(fs, vs, off), size, prev, first) == Ok(Starts(fs, vs, off))
    decreases fs
  {
    hide Enc, Typed, Fits, Value;
    if fs.Field? {
      if Fixed(fs.t) {
        FieldsSize(fs.rest, vs.rest, off);
        Cut(Enc(fs.t, vs.v), Heads(fs.rest, vs.rest, off));
        OffsetsReadBack(fs.rest, vs.rest, off, size, prev, first);
      } else {
        var next := off + |Enc(fs.t, vs.v)|;
        FieldsSize(fs.rest, vs.rest, next);
        Cut(LE(off, 4), Heads(fs.rest, vs.rest, next));
        OffsetRoundTrip(off);
        OffsetsReadBack(fs.rest, vs.rest, next, size, off, false);
      }
    }
  }

  /** Decoding an encoding: it succeeds exactly when every bitlist inside is valid,
      and then the receiver holds what it held before, overlaid with the value. */
  lemma {:induction false} RoundTrip(t: Ty, recv: Val, v: Val)
    requires Sound(t) && Typed(t, recv) && Typed(t, v) && EncOk(t, v)
    requires Fits(t, v)
    ensures BitsOk(t, v) ==> Dec(t, recv, Enc(t, v)) == Ok(Overlay(t, recv, v))
    ensures !BitsOk(t, v) ==> Dec(t, recv, Enc(t, v)).Err?
    decreases t, v, 0
  {
    match t
    case U64 => WordRoundTrip(v.n);
    case List(elem, max) =>
      if Fixed(elem) {
        FixedListRoundTrip(elem, max, v.xs);
      } else {
        DynamicListRoundTrip(elem, max, v.xs);
      }
    case Struct(fs) =>
      FieldsSize(fs, v.fs, HeadLen(fs));
      StructRoundTrip(fs, recv.fs, v.fs);
    case _ =>
  }

  lemma {:induction false} FixedListRoundTrip(elem: Ty, max: nat, xs: Vals)
    requires Sound(List(elem, max)) && Fixed(elem) && TypedEach(elem, xs) && EncOk(List(elem, max), Items(xs))
    requires TableFits(elem, xs, 4 * Len(xs))
    ensures BitsOkEach(elem, xs) ==> DecList(elem, max, Flat(elem, xs)) == Ok(xs)
    ensures !BitsOkEach(elem, xs) ==> DecList(elem, max, Flat(elem, xs)).Err?
    decreases elem, xs, 1
  {
    FlatSize(elem, xs);
    var w := Width(elem);
    TimesIsProduct(Len(xs), w);
    DivExact(Len(xs), w);
    EachRoundTrip(elem, xs, 4 * Len(xs));
  }

  lemma DivExact(n: nat, w: nat)
    requires w > 0
    ensures (n * w) % w == 0 && (n * w) / w == n
  {
    ModUnique(n * w, w, n, 0);
    var q := (n * w) / w;
    assert (n - q) * w == n * w - q * w == 0;
  }

  lemma {:induction false} EachRoundTrip(elem: Ty, xs: Vals, off: nat)
    requires Sound(elem) && Fixed(elem) && TypedEach(elem, xs) && EncOkEach(elem, xs)
    requires |Flat(elem, xs)| == Times(Len(xs), Width(elem)) && TableFits(elem, xs, off)
    ensures BitsOkEach(elem, xs) ==> DecEach(elem, Flat(elem, xs), Len(xs)) == Ok(xs)
    ensures !BitsOkEach(elem, xs) ==> DecEach(elem, Flat(elem, xs), Len(xs)).Err?
    decreases elem, xs, 0
  {
    if xs.Cons? {
      var w, buf := Width(elem), Flat(elem, xs);
      SizeIsExact(elem, xs.v);
      Cut(Enc(elem, xs.v), Flat(elem, xs.rest));
      ElementRoundTrip(elem, xs.v);
      EachRoundTrip(elem, xs.rest, off + |Enc(elem, xs.v)|);
    }
  }

  lemma {:induction false} DynamicListRoundTrip(elem: Ty, max: nat, xs: Vals)
    requires Sound(List(elem, max)) && !Fixed(elem) && TypedEach(elem, xs) && EncOk(List(elem, max), Items(xs))
    requires TableFits(elem, xs, 4 * Len(xs))
    ensures var buf := Table(elem, xs, 4 * Len(xs)) + Flat(elem, xs);
      && (BitsOkEach(elem, xs) ==> DecList(elem, max, buf) == Ok(xs))
      && (!BitsOkEach(elem, xs) ==> DecList(elem, max, buf).Err?)
    decreases elem, xs, 1
  {
    hide Dec, Enc, Typed, BitsOk, Fits, DecDynamic;
    var buf := Table(elem, xs, 4 * Len(xs)) + Flat(elem, xs);
    if xs.Cons? {
      TableFront(elem, xs);
      DynamicReadBack(elem, xs, buf, Flat(elem, xs), 4 * Len(xs));
    }
  }

  /** A non-empty list's encoding starts with the length of its offset table. */
  lemma TableFront(elem: Ty, xs: Vals)
    requires TypedEach(elem, xs) && xs.Cons? && 4 * Len(xs) < TWO32
    ensures var off, data := 4 * Len(xs), Flat(elem, xs);
      var buf := Table(elem, xs, off) + data;
      && |buf| >= 4 && Value(buf[..4]) == off && buf[4..] == TableRest(elem, xs, off) + data
      && off <= |buf| && buf[off..] == data
  {
    var off, data := 4 * Len(xs), Flat(elem, xs);
    var more := TableRest(elem, xs, off);
    Assoc(LE(off, 4), more, data);
    Cut(LE(off, 4), more + data);
    OffsetRoundTrip(off);
    Cut(Table(elem, xs, off), data);
  }

  /** The table entries that follow the one for `xs.v`. */
  function TableRest(elem: Ty, xs: Vals, off: nat): Bytes
    requires TypedEach(elem, xs) && xs.Cons?
  {
    Table(elem, xs.rest, off + |Enc(elem, xs.v)|)
  }

  /** The table entry after the one for `xs.v` points to the end of `xs.v`. */
  lemma NextEntry(elem: Ty, xs: Vals, data: Bytes, off: nat, next: nat)
    requires TypedEach(elem, xs) && xs.Cons? && xs.rest.Cons?
    requires next == off + |Enc(elem, xs.v)| < TWO32
    ensures var dst := TableRest(elem, xs, off) + data;
      |dst| >= 4 && Value(dst[..4]) == next && dst[4..] == TableRest(elem, xs.rest, next) + data
  {
    hide Enc, Typed, Value, LE;
    var more := TableRest(elem, xs.rest, next);
    Assoc(LE(next, 4), more, data);
    Cut(LE(next, 4), more + data);
    OffsetRoundTrip(next);
  }

  lemma {:induction false} DynamicReadBack(elem: Ty, xs: Vals, buf: Bytes, data: Bytes, off: nat)
    requires Sound(elem) && !Fixed(elem) && TypedEach(elem, xs) && EncOkEach(elem, xs) && xs.Cons?
    requires off <= |buf| && buf[off..] == Flat(elem, xs) && TableFits(elem, xs, off)
    ensures BitsOkEach(elem, xs) ==>
              DecDynamic(elem, buf, TableRest(elem, xs, off) + data, Len(xs), off) == Ok(xs)
    ensures !BitsOkEach(elem, xs) ==>
              DecDynamic(elem, buf, TableRest(elem, xs, off) + data, Len(xs), off).Err?
    decreases elem, xs, 0
  {
    hide Dec, Enc, EncOk, Typed, BitsOk;
    var x, rest := xs.v, xs.rest;
    var next := off + |Enc(elem, x)|;
    Peel(buf, off, Enc(elem, x), Flat(elem, rest));
    ElementRoundTrip(elem, x);
    if rest.Cons? {
      assert TableFits(elem, rest, next);
      NextEntry(elem, xs, data, off, next);
      DynamicReadBack(elem, rest, buf, data, next);
    } else {
      assert BitsOkEach(elem, rest);
    }
  }

  lemma {:induction false} ElementRoundTrip(t: Ty, x: Val)
    requires Sound(t) && Typed(t, x) && EncOk(t, x) && Fits(t, x)
    ensures var r := Dec(t, Zero(t), Enc(t, x)); if BitsOk(t, x) then r == Ok(x) else r.Err?
    decreases t, x, 1
  {
    RoundTrip(t, Zero(t), x);
    OverlayZero(t, x);
  }

  lemma {:induction false} StructRoundTrip(fs: Tys, recv: Vals, vs: Vals)
    requires AllSound(fs) && TypedAll(fs, recv) && TypedAll(fs, vs) && EncOkAll(fs, vs)
    requires HeadFits(fs, vs, HeadLen(fs))
    ensures var r := DecStruct(fs, recv, Heads(fs, vs, HeadLen(fs)) + Tails(fs, vs));
      if BitsOkAll(fs, vs) then r == Ok(OverlayAll(fs, recv, vs)) else r.Err?
    decreases fs, vs, 1
  {
    var w := HeadLen(fs);
    var heads, tails := Heads(fs, vs, w), Tails(fs, vs);
    FieldsSize(fs, vs, w);
    Cut(heads, tails);
    OffsetsReadBack(fs, vs, w, w + |tails|, w, true);
    FieldsReadBack(fs, recv, vs, heads + tails, w);
  }

  lemma {:induction false} FieldsReadBack(fs: Tys, recv: Vals, vs: Vals, buf: Bytes, off: nat)
    requires AllSound(fs) && TypedAll(fs, recv) && TypedAll(fs, vs) && EncOkAll(fs, vs)
    requires |Heads(fs, vs, off)| == HeadLen(fs)
    requires off <= |buf| && buf[off..] == Tails(fs, vs) && HeadFits(fs, vs, off)
    ensures BitsOkAll(fs, vs) ==>
              DecFields(fs, recv, Heads(fs, vs, off), buf, Starts(fs, vs, off)) == Ok(OverlayAll(fs, recv, vs))
    ensures !BitsOkAll(fs, vs) ==>
              DecFields(fs, recv, Heads(fs, vs, off), buf, Starts(fs, vs, off)).Err?
    decreases fs, vs, 0
  {
    hide Dec, Enc, EncOk, Typed, BitsOk, Overlay, Sound, Fits, Size;
    if fs.Field? {
      var t, v := fs.t, vs.v;
      SizeIsExact(t, v);
      RoundTrip(t, recv.v, v);
      if Fixed(t) {
        FieldsSize(fs.rest, vs.rest, off);
        Cut(Enc(t, v), Heads(fs.rest, vs.rest, off));
        assert Tails(fs, vs) == Tails(fs.rest, vs.rest);
        FieldsReadBack(fs.rest, recv.rest, vs.rest, buf, off);
      } else {
        var next := off + |Enc(t, v)|;
        FieldsSize(fs.rest, vs.rest, next);
        Cut(LE(off, 4), Heads(fs.rest, vs.rest, next));
        Peel(buf, off, Enc(t, v), Tails(fs.rest, vs.rest));
        FieldsReadBack(fs.rest, recv.rest, vs.rest, buf, next);
      }
    }
  }

  // ---------------------------------------------------------- fresh receivers

  /** Overlaying gives exactly the decoded value when, and only when, the receiver
      held no bytes to append to. */
  lemma {:induction false} OverlayIsValueIffFresh(t: Ty, recv: Val, v: Val)
    requires Typed(t, recv) && Typed(t, v)
    ensures Overlay(t, recv, v) == v <==> Fresh(t, recv)
  {
    match t
    case ByteList(_, _) => AppendNothing(recv.b, v.b);
    case BitList(_) => AppendNothing(recv.b, v.b);
    case Struct(fs) => OverlayAllIffFresh(fs, recv.fs, v.fs);
    case _ =>
  }

  lemma AppendNothing(a: Bytes, b: Bytes)
    ensures a + b == b <==> a == []
  {
    if a == [] {
      assert a + b == b;
    } else {
      assert |a + b| > |b|;
    }
  }

  lemma {:induction false} OverlayAllIffFresh(fs: Tys, recv: Vals, vs: Vals)
    requires TypedAll(fs, recv) && TypedAll(fs, vs)
    ensures OverlayAll(fs, recv, vs) == vs <==> FreshAll(fs, recv)
  {
    if fs.Field? {
      OverlayIsValueIffFresh(fs.t, recv.v, vs.v);
      OverlayAllIffFresh(fs.rest, recv.rest, vs.rest);
    }
  }

  lemma {:induction false} ZeroIsFresh(t: Ty)
    ensures Fresh(t, Zero(t))
  {
    if t.Struct? {
      ZeroAllFresh(t.fs);
    }
  }

  lemma {:induction false} ZeroAllFresh(fs: Tys)
    ensures FreshAll(fs, ZeroAll(fs))
  {
    if fs.Field? {
      ZeroIsFresh(fs.t);
      ZeroAllFresh(fs.rest);
    }
  }

  lemma OverlayZero(t: Ty, v: Val)
    requires Typed(t, v)
    ensures Overlay(t, Zero(t), v) == v
  {
    ZeroIsFresh(t);
    OverlayIsValueIffFresh(t, Zero(t), v);
  }

  /** The round trip returns the value itself exactly when every bitlist is valid
      and the receiver is fresh. */
  lemma RoundTripIff(t: Ty, recv: Val, v: Val)
    requires Sound(t) && Typed(t, recv) && Typed(t, v) && EncOk(t, v)
    requires Fits(t, v)
    ensures Dec(t, recv, Enc(t, v)) == Ok(v) <==> BitsOk(t, v) && Fresh(t, recv)
  {
    RoundTrip(t, recv, v);
    OverlayIsValueIffFresh(t, recv, v);
  }
}
