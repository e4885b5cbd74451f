/** The containers of types/builder.go and types/signing.go as schemas, and the codec
    theorems for the two that go over the wire. */
module Schemas {
  import opened ByteCodec
  import opened Ssz
  import opened SszProofs

  const ETH1_DATA: Ty := Struct(Field(Vec(32), Field(U64, Field(Vec(32), End))))

  const BEACON_BLOCK_HEADER: Ty :=
    Struct(Field(U64, Field(U64, Field(Vec(32), Field(Vec(32), Field(Vec(32), End))))))

  const SIGNED_BLOCK_HEADER: Ty := Struct(Field(BEACON_BLOCK_HEADER, Field(Vec(96), End)))

  const PROPOSER_SLASHING: Ty := Struct(Field(SIGNED_BLOCK_HEADER, Field(SIGNED_BLOCK_HEADER, End)))

  const CHECKPOINT: Ty := Struct(Field(U64, Field(Vec(32), End)))

  const ATTESTATION_DATA: Ty :=
    Struct(Field(U64, Field(U64, Field(Vec(32), Field(CHECKPOINT, Field(CHECKPOINT, End))))))

  const INDEXED_ATTESTATION: Ty :=
    Struct(Field(List(U64, 2048), Field(ATTESTATION_DATA, Field(Vec(96), End))))

  const ATTESTER_SLASHING: Ty := Struct(Field(INDEXED_ATTESTATION, Field(INDEXED_ATTESTATION, End)))

  const ATTESTATION: Ty := Struct(Field(BitList(2048), Field(ATTESTATION_DATA, Field(Vec(96), End))))

  const DEPOSIT: Ty := Struct(Field(Vec(48), Field(Vec(32), Field(U64, Field(Vec(96), End)))))

  const VOLUNTARY_EXIT: Ty := Struct(Field(U64, Field(U64, End)))

  const SYNC_AGGREGATE: Ty := Struct(Field(Vec(64), Field(Vec(96), End)))

  // The fields of the payload header, each with those after it. Extra data is limited to 2048
  // bytes by the codec but hashed as one chunk.
  const TX_ROOT_ON: Tys := Field(Vec(32), End)
  const BLOCK_HASH_ON: Tys := Field(Vec(32), TX_ROOT_ON)
  const BASE_FEE_ON: Tys := Field(Vec(32), BLOCK_HASH_ON)
  const EXTRA_DATA_ON: Tys := Field(ByteList(2048, 1), BASE_FEE_ON)
  const TIMESTAMP_ON: Tys := Field(U64, EXTRA_DATA_ON)
  const GAS_USED_ON: Tys := Field(U64, TIMESTAMP_ON)
  const GAS_LIMIT_ON: Tys := Field(U64, GAS_USED_ON)
  const BLOCK_NUMBER_ON: Tys := Field(U64, GAS_LIMIT_ON)
  const RANDOM_ON: Tys := Field(Vec(32), BLOCK_NUMBER_ON)
  const BLOOM_ON: Tys := Field(Vec(256), RANDOM_ON)
  const RECEIPTS_ON: Tys := Field(Vec(32), BLOOM_ON)
  const STATE_ROOT_ON: Tys := Field(Vec(32), RECEIPTS_ON)
  const FEE_RECIPIENT_ON: Tys := Field(Vec(20), STATE_ROOT_ON)
  const PAYLOAD_HEADER: Ty := Struct(Field(Vec(32), FEE_RECIPIENT_ON))

  const PROPOSER_SLASHINGS: Ty := List(PROPOSER_SLASHING, 16)
  const ATTESTER_SLASHINGS: Ty := List(ATTESTER_SLASHING, 2)
  const ATTESTATIONS: Ty := List(ATTESTATION, 128)
  const DEPOSITS: Ty := List(DEPOSIT, 16)
  const VOLUNTARY_EXITS: Ty := List(VOLUNTARY_EXIT, 16)

  // The fields of the blinded block body, each with those after it.
  const HEADER_ON: Tys := Field(PAYLOAD_HEADER, End)
  const SYNC_ON: Tys := Field(SYNC_AGGREGATE, HEADER_ON)
  const EXITS_ON: Tys := Field(VOLUNTARY_EXITS, SYNC_ON)
  const DEPOSITS_ON: Tys := Field(DEPOSITS, EXITS_ON)
  const ATTESTATIONS_ON: Tys := Field(ATTESTATIONS, DEPOSITS_ON)
  const ATTESTERS_ON: Tys := Field(ATTESTER_SLASHINGS, ATTESTATIONS_ON)
  const SLASHINGS_ON: Tys := Field(PROPOSER_SLASHINGS, ATTESTERS_ON)
  const GRAFFITI_ON: Tys := Field(Vec(32), SLASHINGS_ON)
  const ETH1_ON: Tys := Field(ETH1_DATA, GRAFFITI_ON)
  const BODY_FIELDS: Tys := Field(Vec(96), ETH1_ON)

  const BLINDED_BODY: Ty := Struct(BODY_FIELDS)

  const BLINDED_BLOCK: Ty :=
    Struct(Field(U64, Field(U64, Field(Vec(32), Field(Vec(32), Field(BLINDED_BODY, End))))))

  const TRANSACTION: Ty := ByteList(0x4000_0000, 0x200_0000)
  const TRANSACTION_LIST: Ty := List(TRANSACTION, 0x10_0000)
  const TRANSACTIONS: Ty := Struct(Field(TRANSACTION_LIST, End))

  const REGISTRATION: Ty := Struct(Field(Vec(20), Field(U64, Field(U64, Field(Vec(48), End)))))
  const BUILDER_BID: Ty := Struct(Field(PAYLOAD_HEADER, Field(Vec(32), Field(Vec(48), End))))
  const SIGNED_BUILDER_BID: Ty := Struct(Field(BUILDER_BID, Field(Vec(96), End)))
  const SIGNING_DATA: Ty := Struct(Field(Vec(32), Field(Vec(32), End)))
  const FORK_DATA: Ty := Struct(Field(Vec(4), Field(Vec(32), End)))

  /** Where in a container's fixed part its offsets are. */
  function OffsetPositions(fs: Tys, pos: nat): seq<nat> {
    match fs
    case End => []
    case Field(t, rest) =>
      var more := OffsetPositions(rest, pos + Width(t));
      if Fixed(t) then more else [pos] + more
  }

  /** The sizes the generated code has as literals for the fixed-size containers. */
  lemma FixedSizes()
    ensures Fixed(ETH1_DATA) && Width(ETH1_DATA) == 72
    ensures Fixed(BEACON_BLOCK_HEADER) && Width(BEACON_BLOCK_HEADER) == 112
    ensures Fixed(SIGNED_BLOCK_HEADER) && Width(SIGNED_BLOCK_HEADER) == 208
    ensures Fixed(PROPOSER_SLASHING) && Width(PROPOSER_SLASHING) == 416
    ensures Fixed(CHECKPOINT) && Width(CHECKPOINT) == 40
    ensures Fixed(ATTESTATION_DATA) && Width(ATTESTATION_DATA) == 128
    ensures Fixed(DEPOSIT) && Width(DEPOSIT) == 184
    ensures Fixed(VOLUNTARY_EXIT) && Width(VOLUNTARY_EXIT) == 16
    ensures Fixed(SYNC_AGGREGATE) && Width(SYNC_AGGREGATE) == 160
    ensures Fixed(REGISTRATION) && Width(REGISTRATION) == 84
    ensures Fixed(SIGNING_DATA) && Width(SIGNING_DATA) == 64
    ensures Fixed(FORK_DATA) && Width(FORK_DATA) == 36
  {
  }

  lemma HeaderLayout()
    ensures HeadLen(PAYLOAD_HEADER.fs) == 536 && OffsetPositions(PAYLOAD_HEADER.fs, 0) == [436]
    ensures !Fixed(PAYLOAD_HEADER)
  {
    assert !AllFixed(EXTRA_DATA_ON) && HeadLen(EXTRA_DATA_ON) == 100;
    assert OffsetPositions(EXTRA_DATA_ON, 436) == [436];
    assert !AllFixed(BLOCK_NUMBER_ON) && HeadLen(BLOCK_NUMBER_ON) == 132;
    assert OffsetPositions(BLOCK_NUMBER_ON, 404) == [436];
  }

  /** The literals of the blinded block body: its fixed part and its six offsets. */
  lemma BodyLayout()
    ensures HeadLen(BODY_FIELDS) == 384
    ensures OffsetPositions(BODY_FIELDS, 0) == [200, 204, 208, 212, 216, 380]
  {
    FixedSizes();
    HeaderLayout();
    assert HeadLen(HEADER_ON) == 4 && OffsetPositions(HEADER_ON, 380) == [380];
    assert HeadLen(EXITS_ON) == 168 && OffsetPositions(EXITS_ON, 216) == [216, 380];
    assert HeadLen(ATTESTATIONS_ON) == 176;
    assert OffsetPositions(ATTESTATIONS_ON, 208) == [208, 212, 216, 380];
    assert HeadLen(SLASHINGS_ON) == 184;
    assert OffsetPositions(SLASHINGS_ON, 200) == [200, 204, 208, 212, 216, 380];
  }

  lemma OtherLayouts()
    ensures HeadLen(INDEXED_ATTESTATION.fs) == 228 && OffsetPositions(INDEXED_ATTESTATION.fs, 0) == [0]
    ensures HeadLen(ATTESTATION.fs) == 228 && OffsetPositions(ATTESTATION.fs, 0) == [0]
    ensures HeadLen(ATTESTER_SLASHING.fs) == 8 && OffsetPositions(ATTESTER_SLASHING.fs, 0) == [0, 4]
    ensures HeadLen(BLINDED_BLOCK.fs) == 84 && OffsetPositions(BLINDED_BLOCK.fs, 0) == [80]
    ensures HeadLen(TRANSACTIONS.fs) == 4 && OffsetPositions(TRANSACTIONS.fs, 0) == [0]
    ensures HeadLen(BUILDER_BID.fs) == 84 && HeadLen(SIGNED_BUILDER_BID.fs) == 100
  {
    FixedSizes();
    assert !Fixed(BLINDED_BODY) by {
      assert !AllFixed(SLASHINGS_ON);
    }
    HeaderLayout();
  }

  /** The body is the fifth field of a block, and the payload header the tenth of the body. */
  lemma HeaderPosition()
    ensures FieldCount(BLINDED_BLOCK.fs) == 5 && NthTy(BLINDED_BLOCK.fs, 4) == BLINDED_BODY
    ensures FieldCount(BODY_FIELDS) == 10 && NthTy(BODY_FIELDS, 9) == PAYLOAD_HEADER
  {
    var last := Field(Vec(32), Field(Vec(32), Field(BLINDED_BODY, End)));
    assert FieldCount(last) == 3 && NthTy(last, 2) == BLINDED_BODY;
    assert FieldCount(EXITS_ON) == 3 && NthTy(EXITS_ON, 2) == PAYLOAD_HEADER;
    assert FieldCount(ATTESTATIONS_ON) == 5 && NthTy(ATTESTATIONS_ON, 4) == PAYLOAD_HEADER;
    assert FieldCount(SLASHINGS_ON) == 7 && NthTy(SLASHINGS_ON, 6) == PAYLOAD_HEADER;
  }

  lemma ElementSchemasAreSound()
    ensures Sound(PROPOSER_SLASHING) && Sound(ATTESTER_SLASHING) && Sound(ATTESTATION)
    ensures Sound(DEPOSIT) && Sound(VOLUNTARY_EXIT) && Sound(SYNC_AGGREGATE) && Sound(ETH1_DATA)
    ensures Sound(PAYLOAD_HEADER)
  {
    FixedSizes();
    assert AllSound(EXTRA_DATA_ON) && AllSound(BLOCK_NUMBER_ON);
    assert Sound(INDEXED_ATTESTATION);
  }

  lemma SchemasAreSound()
    ensures Sound(PAYLOAD_HEADER) && Sound(BLINDED_BODY) && Sound(BLINDED_BLOCK) && Sound(TRANSACTIONS)
  {
    FixedSizes();
    ElementSchemasAreSound();
    assert AllSound(EXITS_ON) && AllSound(ATTESTATIONS_ON) && AllSound(SLASHINGS_ON);
  }

  /** A blinded block that passes the encoder's limits takes at most 371,220 bytes, so
      no offset in it wraps. */
  lemma BlindedBlockIsSmall(v: Val)
    requires Typed(BLINDED_BLOCK, v) && EncOk(BLINDED_BLOCK, v)
    ensures |Enc(BLINDED_BLOCK, v)| <= 371220
    ensures Fits(BLINDED_BLOCK, v)
  {
    SizeIsExact(BLINDED_BLOCK, v);
    SizeIsBounded(BLINDED_BLOCK, v);
    MaxBlockSize();
    ShortFits(BLINDED_BLOCK, v);
  }

  lemma BytesSize(max: nat, chunks: nat)
    ensures MaxSize(ByteList(max, chunks)) == max && !Fixed(ByteList(max, chunks))
  {
  }

  lemma MaxElementSizes()
    ensures MaxSize(PAYLOAD_HEADER) == 2584 && MaxSize(ATTESTER_SLASHING) == 33232
    ensures MaxSize(ATTESTATION) == 2276
  {
    FixedSizes();
    OtherLayouts();
    HeaderLayout();
    assert MaxTails(TX_ROOT_ON) == 0 && MaxTails(BLOCK_HASH_ON) == 0 && MaxTails(BASE_FEE_ON) == 0;
    BytesSize(2048, 1);
    assert MaxTails(EXTRA_DATA_ON) == 2048;
    assert MaxTails(GAS_LIMIT_ON) == 2048 && MaxTails(BLOCK_NUMBER_ON) == 2048;
    assert MaxSize(INDEXED_ATTESTATION) == 16612;
  }

  lemma MaxLaterTails()
    ensures MaxTails(ATTESTATIONS_ON) == 297624
  {
    FixedSizes();
    MaxElementSizes();
    HeaderLayout();
    assert MaxTails(HEADER_ON) == 2584;
    assert MaxTails(EXITS_ON) == 2840;
    assert !Fixed(ATTESTATION);
  }

  lemma MaxBodySize()
    ensures MaxSize(BLINDED_BODY) == 371136 && !Fixed(BLINDED_BODY)
  {
    FixedSizes();
    MaxElementSizes();
    MaxLaterTails();
    BodyLayout();
    assert !Fixed(ATTESTER_SLASHING);
    assert MaxTails(SLASHINGS_ON) == 370752 && !AllFixed(SLASHINGS_ON);
  }

  lemma MaxBlockSize()
    ensures MaxSize(BLINDED_BLOCK) == 371220
  {
    MaxBodySize();
    OtherLayouts();
    assert MaxTails(Field(BLINDED_BODY, End)) == 371136;
  }

  /** The blinded block round trip, through both levels of offset tables and after any
      prefix: the decoder returns the block exactly when its bitlists are valid and
      the receiver is fresh. */
  lemma BlindedBlockRoundTrip(recv: Val, v: Val, prefix: Bytes)
    requires Typed(BLINDED_BLOCK, recv) && Typed(BLINDED_BLOCK, v) && EncOk(BLINDED_BLOCK, v)
    ensures Sound(BLINDED_BLOCK)
    ensures Dec(BLINDED_BLOCK, recv, (prefix + Enc(BLINDED_BLOCK, v))[|prefix|..]) == Ok(v)
       <==> BitsOk(BLINDED_BLOCK, v) && Fresh(BLINDED_BLOCK, recv)
  {
    SchemasAreSound();
    BlindedBlockIsSmall(v);
    Cut(prefix, Enc(BLINDED_BLOCK, v));
    RoundTripIff(BLINDED_BLOCK, recv, v);
  }
}
