/** The transaction list codec, whose encodings can be long enough to overflow the
    32-bit offsets. */
module Transactions {
  import opened ByteCodec
  import opened Ssz
  import opened SszProofs
  import opened Schemas

  function Blobs(txs: seq<Bytes>): (vs: Vals)
    ensures TypedEach(TRANSACTION, vs) && Len(vs) == |txs|
  {
    if txs == [] then Nil else Cons(Blob(txs[0]), Blobs(txs[1..]))
  }

  /** The `transactions` struct holding `txs`. */
  function TxsVal(txs: seq<Bytes>): (v: Val)
    ensures Typed(TRANSACTIONS, v)
  {
    Wrap(Items(Blobs(txs)))
  }

  /** The struct around a transaction list. */
  function Wrap(list: Val): (v: Val)
    requires Typed(TRANSACTION_LIST, list)
    ensures Typed(TRANSACTIONS, v)
  {
    assert TypedAll(End, Nil);
    Rec(Cons(list, Nil))
  }

  /** What a one-field container adds to its field: a 4-byte offset. */
  lemma WrapEnc(t: Ty, v: Val)
    requires !Fixed(t) && Typed(t, v)
    ensures TypedAll(Field(t, End), Cons(v, Nil))
    ensures HeadLen(Field(t, End)) == 4
    ensures Heads(Field(t, End), Cons(v, Nil), 4) == LE(4, 4)
    ensures Tails(Field(t, End), Cons(v, Nil)) == Enc(t, v)
  {
    assert TypedAll(End, Nil) && HeadLen(End) == 0 && Width(t) == 4;
    assert Heads(End, Nil, 4 + |Enc(t, v)|) == [] && Tails(End, Nil) == [];
    assert LE(4, 4) + [] == LE(4, 4) && Enc(t, v) + [] == Enc(t, v);
  }

  lemma {:induction false} BlobsInjective(a: seq<Bytes>, b: seq<Bytes>)
    requires Blobs(a) == Blobs(b)
    ensures a == b
  {
    if a != [] && b != [] {
      BlobsInjective(a[1..], b[1..]);
      assert a == [a[0]] + a[1..] && b == [b[0]] + b[1..];
    }
  }

  function TotalLength(txs: seq<Bytes>): nat {
    if txs == [] then 0 else |txs[0]| + TotalLength(txs[1..])
  }

  lemma {:induction false} FlatLength(txs: seq<Bytes>)
    ensures |Flat(TRANSACTION, Blobs(txs))| == TotalLength(txs)
    ensures BitsOkEach(TRANSACTION, Blobs(txs))
  {
    if txs != [] {
      FlatLength(txs[1..]);
    }
  }

  /** An offset that wraps points before its predecessor, so the decoder rejects it. */
  lemma {:induction false} WrapIsRejected(xs: Vals, buf: Bytes, data: Bytes, off: nat)
    requires TypedEach(TRANSACTION, xs) && EncOkEach(TRANSACTION, xs) && xs.Cons?
    requires off < TWO32 && !TableFits(TRANSACTION, xs, off)
    requires off <= |buf| && buf[off..] == Flat(TRANSACTION, xs)
    ensures DecDynamic(TRANSACTION, buf, TableRest(TRANSACTION, xs, off) + data, Len(xs), off).Err?
  {
    var next := off + |Enc(TRANSACTION, xs.v)|;
    var dst := TableRest(TRANSACTION, xs, off) + data;
    Peel(buf, off, Enc(TRANSACTION, xs.v), Flat(TRANSACTION, xs.rest));
    assert !TableFits(TRANSACTION, xs.rest, next);
    assert xs.rest.Cons?;
    if next < TWO32 {
      NextEntry(TRANSACTION, xs, data, off, next);
      WrapIsRejected(xs.rest, buf, data, next);
    } else {
      WrappedEntry(xs, data, off, next);
    }
  }

  lemma WrappedEntry(xs: Vals, data: Bytes, off: nat, next: nat)
    requires TypedEach(TRANSACTION, xs) && EncOkEach(TRANSACTION, xs) && xs.Cons? && xs.rest.Cons?
    requires next == off + |Enc(TRANSACTION, xs.v)| && off < TWO32 <= next
    ensures var dst := TableRest(TRANSACTION, xs, off) + data;
      |dst| >= 4 && Value(dst[..4]) < off
  {
    var more := TableRest(TRANSACTION, xs.rest, next);
    Assoc(LE(next, 4), more, data);
    Cut(LE(next, 4), more + data);
    ValueOfLE(next, 4);
    Pow256Four();
    assert next % TWO32 == next - TWO32;
  }

  lemma LongListRejected(xs: Vals)
    requires TypedEach(TRANSACTION, xs) && EncOk(TRANSACTION_LIST, Items(xs))
    requires !TableFits(TRANSACTION, xs, 4 * Len(xs))
    ensures Dec(TRANSACTION_LIST, Items(Nil), Enc(TRANSACTION_LIST, Items(xs))).Err?
  {
    TableFront(TRANSACTION, xs);
    var inner := Enc(TRANSACTION_LIST, Items(xs));
    WrapIsRejected(xs, inner, Flat(TRANSACTION, xs), 4 * Len(xs));
    assert DecodeDynamicLength(inner, 0x10_0000) == Ok(Len(xs));
  }

  /** A container with one variable-size field: its offset is read back as 4. */
  lemma OuterOffset(t: Ty, recv: Val, inner: Bytes)
    requires Sound(t) && !Fixed(t) && Typed(t, recv)
    ensures var r := Dec(t, recv, inner);
      DecStruct(Field(t, End), Cons(recv, Nil), LE(4, 4) + inner)
      == if r.Ok? then Ok(Cons(r.value, Nil)) else Err(r.error)
  {
    var fs, head := Field(t, End), LE(4, 4);
    var buf := head + inner;
    Cut(head, inner);
    OffsetRoundTrip(4);
    assert Width(t) == 4 && HeadLen(fs) == 4;
    assert head[..4] == head;
    assert ReadOffsets(End, head[4..], |buf|, 4, false) == Ok(Last(|buf|));
    assert ReadOffsets(fs, head, |buf|, 4, true) == Ok(At(4, Last(|buf|)));
    assert buf[4..|buf|] == inner;
    assert DecFields(End, Nil, head[4..], buf, Last(|buf|)) == Ok(Nil);
  }

  /** Decoding an encoded transaction list returns the list exactly when no offset
      reaches 2^32; otherwise it fails. The encoder accepts both. */
  lemma RoundTripIffOffsetsFit(txs: seq<Bytes>)
    requires EncOk(TRANSACTIONS, TxsVal(txs))
    ensures Sound(TRANSACTIONS)
    ensures var r := Dec(TRANSACTIONS, Zero(TRANSACTIONS), Enc(TRANSACTIONS, TxsVal(txs)));
      if TableFits(TRANSACTION, Blobs(txs), 4 * |txs|) then r == Ok(TxsVal(txs)) else r.Err?
  {
    hide TableFits, TypedEach, Blobs, Zero;
    SchemasAreSound();
    var list := Items(Blobs(txs));
    WrapEnc(TRANSACTION_LIST, list);
    ZeroTransactions();
    OuterOffset(TRANSACTION_LIST, Items(Nil), Enc(TRANSACTION_LIST, list));
    ListRoundTrip(txs);
  }

  lemma ListRoundTrip(txs: seq<Bytes>)
    requires EncOk(TRANSACTION_LIST, Items(Blobs(txs)))
    ensures Sound(TRANSACTION_LIST)
    ensures var r := Dec(TRANSACTION_LIST, Items(Nil), Enc(TRANSACTION_LIST, Items(Blobs(txs))));
      if TableFits(TRANSACTION, Blobs(txs), 4 * |txs|) then r == Ok(Items(Blobs(txs))) else r.Err?
  {
    FlatLength(txs);
    if TableFits(TRANSACTION, Blobs(txs), 4 * |txs|) {
      RoundTrip(TRANSACTION_LIST, Items(Nil), Items(Blobs(txs)));
    } else {
      LongListRejected(Blobs(txs));
    }
  }

  lemma ZeroTransactions()
    ensures Zero(TRANSACTIONS) == Rec(Cons(Items(Nil), Nil)) && Zero(TRANSACTION_LIST) == Items(Nil)
  {
    assert ZeroAll(End) == Nil;
  }

  /** A condition on sizes alone: four bytes per transaction plus all their bytes. */
  lemma RoundTripBySize(txs: seq<Bytes>)
    requires EncOk(TRANSACTIONS, TxsVal(txs))
    requires 4 * |txs| + TotalLength(txs) < TWO32
    ensures Sound(TRANSACTIONS)
    ensures Dec(TRANSACTIONS, Zero(TRANSACTIONS), Enc(TRANSACTIONS, TxsVal(txs))) == Ok(TxsVal(txs))
  {
    FlatLength(txs);
    ShortTableFits(TRANSACTION, Blobs(txs), 4 * |txs|);
    RoundTripIffOffsetsFit(txs);
  }
}
