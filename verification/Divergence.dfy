/** Inputs on which the codec departs from its specification: what the decoder accepts
    without being able to produce it, and what the encoder produces without being able to
    read it. */
module Divergence {
  import opened ByteCodec
  import opened Ssz
  import opened SszProofs
  import opened SszCanonical
  import opened Schemas
  import opened Transactions
  import opened BlindedBody

  // ------------------------------------------------------------ accepted, not canonical

  /** A one-field container: its only offset, and where that points. */
  lemma OneOffset(t: Ty, head: Bytes, o: nat, size: nat)
    requires !Fixed(t) && |head| == 4 && Value(head) == o && 4 <= o <= size
    ensures HeadLen(Field(t, End)) == 4 && !AllFixed(Field(t, End))
    ensures ReadOffsets(Field(t, End), head, size, 4, true) == Ok(At(o, Last(size)))
    ensures Ladder(Field(t, End), At(o, Last(size)), o, size)
  {
    assert Width(t) == 4 && HeadLen(End) == 0 && head[..4] == head;
    assert ReadOffsets(End, head[4..], size, o, false) == Ok(Last(size));
    assert Ladder(End, Last(size), o, size);
  }

  lemma OneFieldDecodes(t: Ty, recv: Val, buf: Bytes, o: nat)
    requires Sound(t) && !Fixed(t) && Typed(t, recv) && 4 <= o <= |buf| && Value(buf[..4]) == o
    ensures Sound(Struct(Field(t, End))) && Typed(Struct(Field(t, End)), Rec(Cons(recv, Nil)))
    ensures var r := Dec(t, recv, buf[o..]);
      r.Ok? ==> Dec(Struct(Field(t, End)), Rec(Cons(recv, Nil)), buf) == Ok(Rec(Cons(r.value, Nil)))
    ensures Canon(Struct(Field(t, End)), buf) <==> o == 4 && Canon(t, buf[o..])
  {
    hide ReadOffsets, Value, Fixed;
    var fs, size := Field(t, End), |buf|;
    OneOffset(t, buf[..4], o, size);
    assert TypedAll(End, Nil) && AllSound(End);
    assert buf[o..size] == buf[o..];
    NoMoreFields(buf[..4][4..], buf);
    StepVariable(t, recv, End, Nil, buf[..4], buf, o, Last(size));
    assert CanonFields(End, buf, Last(size));
  }

  /** The same with the offset written behind `gap`. */
  lemma OffsetBehindGap(t: Ty, recv: Val, gap: Bytes, inner: Bytes)
    requires Sound(t) && !Fixed(t) && Typed(t, recv) && 4 + |gap| < TWO32
    ensures Sound(Struct(Field(t, End))) && Typed(Struct(Field(t, End)), Rec(Cons(recv, Nil)))
    ensures var buf, r := LE(4 + |gap|, 4) + gap + inner, Dec(t, recv, inner);
      && (r.Ok? ==> Dec(Struct(Field(t, End)), Rec(Cons(recv, Nil)), buf) == Ok(Rec(Cons(r.value, Nil))))
      && (Canon(Struct(Field(t, End)), buf) <==> gap == [] && Canon(t, inner))
  {
    hide Dec, Canon, Sound, Typed, Fixed, LE, Value;
    var head, o := LE(4 + |gap|, 4), 4 + |gap|;
    var buf := head + gap + inner;
    Assoc(head, gap, inner);
    Cut(head, gap + inner);
    Cut(head + gap, inner);
    OffsetRoundTrip(o);
    OneFieldDecodes(t, recv, buf, o);
  }

  /** Any bytes between the offset and what it points to are accepted and forgotten: the
      input reads as the empty transaction list, and is canonical only without them. */
  lemma GapIsAccepted(gap: Bytes)
    requires 4 + |gap| < TWO32
    ensures Sound(TRANSACTIONS)
    ensures var buf := LE(4 + |gap|, 4) + gap;
      && Dec(TRANSACTIONS, Zero(TRANSACTIONS), buf) == Ok(TxsVal([]))
      && (Canon(TRANSACTIONS, buf) <==> gap == [])
  {
    hide Dec, Canon, Zero, Sound, LE;
    SchemasAreSound();
    ZeroTransactions();
    EmptyListReads();
    OffsetBehindGap(TRANSACTION_LIST, Items(Nil), gap, []);
    assert LE(4 + |gap|, 4) + gap + [] == LE(4 + |gap|, 4) + gap;
  }

  /** Five bytes that decode to the empty list and do not re-encode to themselves. */
  lemma GapExample()
    ensures Sound(TRANSACTIONS)
    ensures Dec(TRANSACTIONS, Zero(TRANSACTIONS), [5, 0, 0, 0, 9]) == Ok(TxsVal([]))
    ensures !Canon(TRANSACTIONS, [5, 0, 0, 0, 9]) && Enc(TRANSACTIONS, TxsVal([])) != [5, 0, 0, 0, 9]
  {
    GapIsAccepted([9]);
    OffsetBytes(5);
    assert LE(5, 4) + [9] == [5, 0, 0, 0, 9];
    ZeroIsFresh(TRANSACTIONS);
    ReencodesIffCanonical(TRANSACTIONS, Zero(TRANSACTIONS), [5, 0, 0, 0, 9]);
  }

  lemma OffsetBytes(n: u8)
    ensures LE(n, 4) == [n, 0, 0, 0]
  {
    assert LE(0, 0) == [] && LE(0, 1) == [0] && LE(0, 2) == [0, 0] && LE(0, 3) == [0, 0, 0];
  }

  /** A table that claims no elements is accepted in front of any other bytes, and is never
      canonical: its four bytes already are too many. */
  lemma ZeroTableIsAccepted(junk: Bytes)
    ensures Sound(TRANSACTIONS)
    ensures var buf := LE(4, 4) + (LE(0, 4) + junk);
      Dec(TRANSACTIONS, Zero(TRANSACTIONS), buf) == Ok(TxsVal([])) && !Canon(TRANSACTIONS, buf)
  {
    hide Dec, Canon, Zero, Sound, LE;
    SchemasAreSound();
    ZeroTransactions();
    EmptyListReads();
    var inner := LE(0, 4) + junk;
    ZeroTableReads(junk);
    OffsetBehindGap(TRANSACTION_LIST, Items(Nil), [], inner);
    assert LE(4, 4) + [] + inner == LE(4, 4) + inner;
  }

  lemma EmptyListReads()
    ensures Sound(TRANSACTION_LIST) && Dec(TRANSACTION_LIST, Items(Nil), []) == Ok(Items(Nil))
    ensures Canon(TRANSACTION_LIST, []) && Blobs([]) == Nil
  {
  }

  lemma ZeroTableReads(junk: Bytes)
    ensures Sound(TRANSACTION_LIST)
    ensures var inner := LE(0, 4) + junk;
      Dec(TRANSACTION_LIST, Items(Nil), inner) == Ok(Items(Nil)) && !Canon(TRANSACTION_LIST, inner)
  {
    Cut(LE(0, 4), junk);
    OffsetRoundTrip(0);
  }

  // ------------------------------------------------------------ encoded, not decodable

  /** Five transactions of the largest allowed size pass the encoder and overflow the fifth
      offset, so the decoder rejects what the encoder wrote. */
  lemma FiveLargeTransactionsAreRejected(tx: Bytes)
    requires |tx| == 0x4000_0000
    ensures Sound(TRANSACTIONS)
    ensures var txs := [tx, tx, tx, tx, tx];
      && EncOk(TRANSACTIONS, TxsVal(txs)) && !TableFits(TRANSACTION, Blobs(txs), 20)
      && Dec(TRANSACTIONS, Zero(TRANSACTIONS), Enc(TRANSACTIONS, TxsVal(txs))).Err?
  {
    hide Enc, Dec;
    var txs := [tx, tx, tx, tx, tx];
    LargeIsEncodable(tx, txs);
    LastOffsetOverflows(tx);
    RoundTripIffOffsetsFit(txs);
  }

  lemma {:induction false} LargeIsEncodable(tx: Bytes, txs: seq<Bytes>)
    requires |tx| <= 0x4000_0000 && |txs| <= 0x10_0000 && forall i :: 0 <= i < |txs| ==> txs[i] == tx
    ensures EncOk(TRANSACTIONS, TxsVal(txs))
  {
    AllEncodable(tx, txs);
    assert EncOkAll(End, Nil);
  }

  lemma {:induction false} AllEncodable(tx: Bytes, txs: seq<Bytes>)
    requires |tx| <= 0x4000_0000 && forall i :: 0 <= i < |txs| ==> txs[i] == tx
    ensures EncOkEach(TRANSACTION, Blobs(txs))
  {
    if txs != [] {
      AllEncodable(tx, txs[1..]);
    }
  }

  /** `n` copies fit behind `off` only as long as the last of them starts below 2^32. */
  lemma {:induction false} LastStartFits(tx: Bytes, txs: seq<Bytes>, off: nat)
    requires |tx| == 0x4000_0000 && txs != [] && forall i :: 0 <= i < |txs| ==> txs[i] == tx
    ensures TableFits(TRANSACTION, Blobs(txs), off) ==> off + 0x4000_0000 * (|txs| - 1) < TWO32
  {
    assert Enc(TRANSACTION, Blob(tx)) == tx;
    if |txs| > 1 {
      LastStartFits(tx, txs[1..], off + |tx|);
    }
  }

  lemma LastOffsetOverflows(tx: Bytes)
    requires |tx| == 0x4000_0000
    ensures !TableFits(TRANSACTION, Blobs([tx, tx, tx, tx, tx]), 20)
  {
    LastStartFits(tx, [tx, tx, tx, tx, tx], 20);
  }

  /** There is such a transaction. */
  lemma LargeTransactionExample()
    ensures |Zeros(0x4000_0000)| == 0x4000_0000
    ensures Sound(TRANSACTIONS)
    ensures var tx := Zeros(0x4000_0000); var txs := [tx, tx, tx, tx, tx];
      EncOk(TRANSACTIONS, TxsVal(txs)) && Dec(TRANSACTIONS, Zero(TRANSACTIONS), Enc(TRANSACTIONS, TxsVal(txs))).Err?
  {
    hide Enc, Dec, EncOk, Zeros;
    FiveLargeTransactionsAreRejected(Zeros(0x4000_0000));
  }

  // --------------------------------------------------------------- blocks with bitlists

  lemma {:induction false} ZeroIsEncodable(t: Ty)
    ensures EncOk(t, Zero(t))
  {
    if t.Struct? {
      ZerosAreEncodable(t.fs);
    }
  }

  lemma {:induction false} ZerosAreEncodable(fs: Tys)
    ensures EncOkAll(fs, ZeroAll(fs))
  {
    if fs.Field? {
      ZeroIsEncodable(fs.t);
      ZerosAreEncodable(fs.rest);
    }
  }

  /** The limits and the bitlists of a container, field by field. */
  lemma FieldLimits(t: Ty, v: Val, rest: Tys, vs: Vals)
    requires Typed(t, v) && TypedAll(rest, vs)
    ensures TypedAll(Field(t, rest), Cons(v, vs))
    ensures EncOkAll(Field(t, rest), Cons(v, vs)) <==> EncOk(t, v) && EncOkAll(rest, vs)
    ensures BitsOkAll(Field(t, rest), Cons(v, vs)) <==> BitsOk(t, v) && BitsOkAll(rest, vs)
  {
  }

  lemma FixedField(t: Ty, v: Val, rest: Tys, vs: Vals)
    requires Fixed(t) && Typed(t, v) && TypedAll(rest, vs)
    ensures TypedAll(Field(t, rest), Cons(v, vs))
    ensures EncOkAll(Field(t, rest), Cons(v, vs)) <==> EncOkAll(rest, vs)
    ensures BitsOkAll(Field(t, rest), Cons(v, vs)) <==> BitsOkAll(rest, vs)
  {
    FieldLimits(t, v, rest, vs);
    FixedHasNoLimits(t, v);
  }

  lemma NoFieldLimits()
    ensures TypedAll(End, Nil) && EncOkAll(End, Nil) && BitsOkAll(End, Nil)
  {
  }

  lemma EmptyListLimits(t: Ty, max: nat)
    ensures Typed(List(t, max), Items(Nil)) && EncOk(List(t, max), Items(Nil)) && BitsOk(List(t, max), Items(Nil))
  {
  }

  function Attested(bits: Bytes): Val {
    Rec(Cons(Blob(bits), Cons(Zero(ATTESTATION_DATA), Cons(Blob(Zeros(96)), Nil))))
  }

  lemma AttestedLimits(bits: Bytes)
    ensures Typed(ATTESTATION, Attested(bits))
    ensures EncOk(ATTESTATION, Attested(bits)) <==> |bits| <= 2048
    ensures BitsOk(ATTESTATION, Attested(bits)) <==> ValidBitlist(bits, 2048)
  {
    hide EncOkAll, BitsOkAll, TypedAll, Zero;
    var sig := Cons(Blob(Zeros(96)), Nil);
    NoFieldLimits();
    FixedSizes();
    FixedField(Vec(96), Blob(Zeros(96)), End, Nil);
    FixedField(ATTESTATION_DATA, Zero(ATTESTATION_DATA), Field(Vec(96), End), sig);
    FieldLimits(BitList(2048), Blob(bits), ATTESTATION.fs.rest, Cons(Zero(ATTESTATION_DATA), sig));
  }

  lemma OneAttestationLimits(bits: Bytes)
    ensures var xs := Items(Cons(Attested(bits), Nil));
      && Typed(ATTESTATIONS, xs) && (EncOk(ATTESTATIONS, xs) <==> |bits| <= 2048)
      && (BitsOk(ATTESTATIONS, xs) <==> ValidBitlist(bits, 2048))
  {
    hide EncOk, BitsOk, Typed;
    AttestedLimits(bits);
    OneElement(ATTESTATION, 128, Attested(bits));
  }

  lemma OneElement(t: Ty, max: nat, x: Val)
    requires Typed(t, x) && max >= 1
    ensures var xs := Items(Cons(x, Nil));
      && Typed(List(t, max), xs) && (EncOk(List(t, max), xs) <==> EncOk(t, x))
      && (BitsOk(List(t, max), xs) <==> BitsOk(t, x))
  {
    assert TypedEach(t, Nil) && EncOkEach(t, Nil) && BitsOkEach(t, Nil) && Len(Nil) == 0;
  }

  /** A body with nothing in it but one attestation. */
  function AttestedBody(bits: Bytes): Body {
    Body(Zeros(96), Zero(ETH1_DATA), Zeros(32), Nil, Nil, Cons(Attested(bits), Nil), Nil, Nil,
         Zero(SYNC_AGGREGATE), Zero(PAYLOAD_HEADER))
  }

  lemma EmptyHeaderHasNoBitlists()
    ensures BitsOk(PAYLOAD_HEADER, Zero(PAYLOAD_HEADER))
  {
    assert BitsOkAll(EXTRA_DATA_ON, ZeroAll(EXTRA_DATA_ON));
    assert BitsOkAll(BLOCK_NUMBER_ON, ZeroAll(BLOCK_NUMBER_ON));
  }

  lemma AttestedTailLimits(bits: Bytes)
    ensures var b := AttestedBody(bits);
      && TypedAll(ATTESTATIONS_ON, AttestationVals(b))
      && (EncOkAll(ATTESTATIONS_ON, AttestationVals(b)) <==> |bits| <= 2048)
      && (BitsOkAll(ATTESTATIONS_ON, AttestationVals(b)) <==> ValidBitlist(bits, 2048))
  {
    hide EncOkAll, BitsOkAll, TypedAll, Zero, EncOk, BitsOk;
    var b := AttestedBody(bits);
    FieldKinds();
    NoFieldLimits();
    EmptyHeaderHasNoBitlists();
    ZeroIsEncodable(PAYLOAD_HEADER);
    FieldLimits(PAYLOAD_HEADER, b.header, End, Nil);
    FixedField(SYNC_AGGREGATE, b.sync, HEADER_ON, HeaderVals(b));
    EmptyListLimits(VOLUNTARY_EXIT, 16);
    FieldLimits(VOLUNTARY_EXITS, Items(Nil), SYNC_ON, SyncVals(b));
    EmptyListLimits(DEPOSIT, 16);
    FieldLimits(DEPOSITS, Items(Nil), EXITS_ON, ExitVals(b));
    OneAttestationLimits(bits);
    FieldLimits(ATTESTATIONS, Items(b.attestations), DEPOSITS_ON, DepositVals(b));
  }

  lemma AttestedBodyLimits(bits: Bytes)
    ensures var v := Rec(BodyVals(AttestedBody(bits)));
      && Typed(BLINDED_BODY, v) && (EncOk(BLINDED_BODY, v) <==> |bits| <= 2048)
      && (BitsOk(BLINDED_BODY, v) <==> ValidBitlist(bits, 2048))
  {
    hide EncOkAll, BitsOkAll, TypedAll, Zero;
    var b := AttestedBody(bits);
    FieldKinds();
    AttestedTailLimits(bits);
    EmptyListLimits(ATTESTER_SLASHING, 2);
    FieldLimits(ATTESTER_SLASHINGS, Items(Nil), ATTESTATIONS_ON, AttestationVals(b));
    EmptyListLimits(PROPOSER_SLASHING, 16);
    FieldLimits(PROPOSER_SLASHINGS, Items(Nil), ATTESTERS_ON, AttesterVals(b));
    FixedField(Vec(32), Blob(b.graffiti), SLASHINGS_ON, SlashingVals(b));
    FixedField(ETH1_DATA, b.eth1, GRAFFITI_ON, GraffitiVals(b));
    FixedField(Vec(96), Blob(b.randao), ETH1_ON, Eth1Vals(b));
  }

  /** A block with nothing in it but one attestation with these aggregation bits. */
  function AttestedBlock(bits: Bytes): Val {
    var roots := Cons(Blob(Zeros(32)), Cons(Blob(Zeros(32)), Cons(Rec(BodyVals(AttestedBody(bits))), Nil)));
    Rec(Cons(Num(0), Cons(Num(0), roots)))
  }

  lemma AttestedBlockLimits(bits: Bytes)
    ensures var v := AttestedBlock(bits);
      && Typed(BLINDED_BLOCK, v) && (EncOk(BLINDED_BLOCK, v) <==> |bits| <= 2048)
      && (BitsOk(BLINDED_BLOCK, v) <==> ValidBitlist(bits, 2048))
  {
    hide EncOkAll, BitsOkAll, TypedAll, Zero, BodyVals;
    var body := Rec(BodyVals(AttestedBody(bits)));
    var last, fs := Cons(body, Nil), Field(BLINDED_BODY, End);
    var root := Blob(Zeros(32));
    NoFieldLimits();
    AttestedBodyLimits(bits);
    FieldLimits(BLINDED_BODY, body, End, Nil);
    FixedField(Vec(32), root, fs, last);
    FixedField(Vec(32), root, Field(Vec(32), fs), Cons(root, last));
    FixedField(U64, Num(0), Field(Vec(32), Field(Vec(32), fs)), Cons(root, Cons(root, last)));
    FixedField(U64, Num(0), Field(U64, Field(Vec(32), Field(Vec(32), fs))), Cons(Num(0), Cons(root, Cons(root, last))));
  }

  /** The encoder takes this block for up to 2048 bytes of bits; the decoder reads it back
      exactly when they are a bitlist of at most 2048 bits, and otherwise rejects it. */
  lemma AttestedBlockReadBackIff(bits: Bytes)
    requires |bits| <= 2048
    ensures Sound(BLINDED_BLOCK)
    ensures Typed(BLINDED_BLOCK, AttestedBlock(bits)) && EncOk(BLINDED_BLOCK, AttestedBlock(bits))
    ensures var v := AttestedBlock(bits); var r := Dec(BLINDED_BLOCK, Zero(BLINDED_BLOCK), Enc(BLINDED_BLOCK, v));
      if ValidBitlist(bits, 2048) then r == Ok(v) else r.Err?
  {
    hide Enc, Dec, EncOk, BitsOk, Typed, Zero, AttestedBlock, Sound;
    SchemasAreSound();
    AttestedBlockLimits(bits);
    BlindedBlockIsSmall(AttestedBlock(bits));
    ElementRoundTrip(BLINDED_BLOCK, AttestedBlock(bits));
  }

  /** Blocks the encoder writes and the decoder rejects: no bits at all, and 2048 bytes of them. */
  lemma RejectedBlockExamples()
    ensures Sound(BLINDED_BLOCK)
    ensures forall bits :: bits == [] || bits == seq(2048, _ => 1) ==>
      var v := AttestedBlock(bits);
      && Typed(BLINDED_BLOCK, v) && EncOk(BLINDED_BLOCK, v)
      && Dec(BLINDED_BLOCK, Zero(BLINDED_BLOCK), Enc(BLINDED_BLOCK, v)).Err?
  {
    hide Enc, Dec, EncOk, BitsOk, Typed, Zero, AttestedBlock, Sound;
    AttestedBlockReadBackIff([]);
    var long: Bytes := seq(2048, _ => 1);
    AttestedBlockReadBackIff(long);
  }

  // ---------------------------------------------------------------- receivers in use

  /** Decoding an attestation into one that already holds bits appends the new ones. */
  lemma UsedReceiverAppends(held: Bytes, bits: Bytes)
    requires |bits| <= 2048 && ValidBitlist(bits, 2048)
    ensures Sound(ATTESTATION) && Typed(ATTESTATION, Attested(held)) && Typed(ATTESTATION, Attested(bits))
    ensures Dec(ATTESTATION, Attested(held), Enc(ATTESTATION, Attested(bits))) == Ok(Attested(held + bits))
  {
    hide Enc, Dec, EncOk, BitsOk, Typed, Fits, Overlay;
    ElementSchemasAreSound();
    AttestedLimits(held);
    AttestedLimits(bits);
    SizeIsExact(ATTESTATION, Attested(bits));
    SizeIsBounded(ATTESTATION, Attested(bits));
    MaxElementSizes();
    ShortFits(ATTESTATION, Attested(bits));
    RoundTrip(ATTESTATION, Attested(held), Attested(bits));
    AttestedOverlay(held, bits);
  }

  lemma AttestedOverlay(held: Bytes, bits: Bytes)
    requires Typed(ATTESTATION, Attested(held)) && Typed(ATTESTATION, Attested(bits))
    ensures Overlay(ATTESTATION, Attested(held), Attested(bits)) == Attested(held + bits)
  {
    hide Zero;
    var sig := Cons(Blob(Zeros(96)), Nil);
    var data := Cons(Zero(ATTESTATION_DATA), sig);
    NoFieldLimits();
    TypedCons(Vec(96), Blob(Zeros(96)), End, Nil);
    TypedCons(ATTESTATION_DATA, Zero(ATTESTATION_DATA), Field(Vec(96), End), sig);
    assert OverlayAll(Field(Vec(96), End), sig, sig) == sig by {
      assert OverlayAll(End, Nil, Nil) == Nil;
    }
    FixedSizes();
    ZeroIsFresh(ATTESTATION_DATA);
    OverlayIsValueIffFresh(ATTESTATION_DATA, Zero(ATTESTATION_DATA), Zero(ATTESTATION_DATA));
    assert OverlayAll(ATTESTATION.fs.rest, data, data) == data;
  }

  /** One bit is held, one bit is read, and two bytes of bits are left. */
  lemma UsedReceiverExample()
    ensures Sound(ATTESTATION) && Typed(ATTESTATION, Attested([1])) && Attested([1, 1]) != Attested([1])
    ensures Dec(ATTESTATION, Attested([1]), Enc(ATTESTATION, Attested([1]))) == Ok(Attested([1, 1]))
  {
    hide Dec, Enc, Typed, Sound, Zero;
    assert [1] + [1] == [1, 1];
    UsedReceiverAppends([1], [1]);
  }
}
