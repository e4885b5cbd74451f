/** BlindedBeaconBlockBody as the generated code has it, field by field and with its
    literal sizes and positions, against the codec of its schema. */
module BlindedBody {
  import opened ByteCodec
  import opened Ssz
  import opened SszProofs
  import opened SszMethods
  import opened Schemas

  /** The ten fields. */
  datatype Body = Body(
    randao: Bytes, eth1: Val, graffiti: Bytes, proposers: Vals, attesters: Vals, attestations: Vals,
    deposits: Vals, exits: Vals, sync: Val, header: Val)

  predicate BodyOk(b: Body) {
    && |b.randao| == 96 && Typed(ETH1_DATA, b.eth1) && |b.graffiti| == 32
    && TypedEach(PROPOSER_SLASHING, b.proposers) && TypedEach(ATTESTER_SLASHING, b.attesters)
    && TypedEach(ATTESTATION, b.attestations) && TypedEach(DEPOSIT, b.deposits)
    && TypedEach(VOLUNTARY_EXIT, b.exits) && Typed(SYNC_AGGREGATE, b.sync) && Typed(PAYLOAD_HEADER, b.header)
  }

  // The fields as a value of the schema, each with those after it.
  function HeaderVals(b: Body): Vals { Cons(b.header, Nil) }
  function SyncVals(b: Body): Vals { Cons(b.sync, HeaderVals(b)) }
  function ExitVals(b: Body): Vals { Cons(Items(b.exits), SyncVals(b)) }
  function DepositVals(b: Body): Vals { Cons(Items(b.deposits), ExitVals(b)) }
  function AttestationVals(b: Body): Vals { Cons(Items(b.attestations), DepositVals(b)) }
  function AttesterVals(b: Body): Vals { Cons(Items(b.attesters), AttestationVals(b)) }
  function SlashingVals(b: Body): Vals { Cons(Items(b.proposers), AttesterVals(b)) }
  function GraffitiVals(b: Body): Vals { Cons(Blob(b.graffiti), SlashingVals(b)) }
  function Eth1Vals(b: Body): Vals { Cons(b.eth1, GraffitiVals(b)) }
  function BodyVals(b: Body): Vals { Cons(Blob(b.randao), Eth1Vals(b)) }

  lemma TypedFromSlashings(b: Body)
    requires BodyOk(b)
    ensures TypedAll(HEADER_ON, HeaderVals(b)) && TypedAll(SYNC_ON, SyncVals(b)) && TypedAll(EXITS_ON, ExitVals(b))
    ensures TypedAll(DEPOSITS_ON, DepositVals(b)) && TypedAll(ATTESTATIONS_ON, AttestationVals(b))
    ensures TypedAll(ATTESTERS_ON, AttesterVals(b)) && TypedAll(SLASHINGS_ON, SlashingVals(b))
  {
    hide TypedAll;
    assert TypedAll(End, Nil) by {
      EmptyIsTyped();
    }
    TypedCons(PAYLOAD_HEADER, b.header, End, Nil);
    TypedCons(SYNC_AGGREGATE, b.sync, HEADER_ON, HeaderVals(b));
    TypedCons(VOLUNTARY_EXITS, Items(b.exits), SYNC_ON, SyncVals(b));
    TypedCons(DEPOSITS, Items(b.deposits), EXITS_ON, ExitVals(b));
    TypedCons(ATTESTATIONS, Items(b.attestations), DEPOSITS_ON, DepositVals(b));
    TypedCons(ATTESTER_SLASHINGS, Items(b.attesters), ATTESTATIONS_ON, AttestationVals(b));
    TypedCons(PROPOSER_SLASHINGS, Items(b.proposers), ATTESTERS_ON, AttesterVals(b));
  }

  lemma EmptyIsTyped()
    ensures TypedAll(End, Nil)
  {
  }

  lemma BodyIsTyped(b: Body)
    requires BodyOk(b)
    ensures TypedAll(SLASHINGS_ON, SlashingVals(b))
    ensures TypedAll(GRAFFITI_ON, GraffitiVals(b)) && TypedAll(ETH1_ON, Eth1Vals(b))
    ensures TypedAll(BODY_FIELDS, BodyVals(b))
  {
    hide TypedAll;
    TypedFromSlashings(b);
    TypedCons(Vec(32), Blob(b.graffiti), SLASHINGS_ON, SlashingVals(b));
    TypedCons(ETH1_DATA, b.eth1, GRAFFITI_ON, GraffitiVals(b));
    TypedCons(Vec(96), Blob(b.randao), ETH1_ON, Eth1Vals(b));
  }

  lemma FieldKinds()
    ensures Fixed(ETH1_DATA) && Fixed(SYNC_AGGREGATE) && !Fixed(PAYLOAD_HEADER)
    ensures Fixed(PROPOSER_SLASHING) && !Fixed(ATTESTER_SLASHING) && !Fixed(ATTESTATION)
    ensures Fixed(DEPOSIT) && Fixed(VOLUNTARY_EXIT)
    ensures Width(PROPOSER_SLASHING) == 416 && Width(DEPOSIT) == 184 && Width(VOLUNTARY_EXIT) == 16
    ensures Width(ETH1_DATA) == 72 && Width(SYNC_AGGREGATE) == 160
  {
    FixedSizes();
    HeaderLayout();
  }

  // ---------------------------------------------------------------------- sizes

  lemma SizeOfField(t: Ty, v: Val, rest: Tys, vs: Vals)
    requires Typed(t, v) && TypedAll(rest, vs)
    ensures TypedAll(Field(t, rest), Cons(v, vs))
    ensures SizeTails(Field(t, rest), Cons(v, vs)) == (if Fixed(t) then 0 else Size(t, v)) + SizeTails(rest, vs)
  {
  }

  lemma SizeOfFixedList(t: Ty, max: nat, xs: Vals)
    requires Fixed(t) && TypedEach(t, xs)
    ensures Size(List(t, max), Items(xs)) == Len(xs) * Width(t)
  {
    TimesIsProduct(Len(xs), Width(t));
  }

  /** What the variable-size fields add up to. */
  lemma BodySize(b: Body)
    requires BodyOk(b)
    ensures TypedAll(BODY_FIELDS, BodyVals(b))
    ensures Size(BLINDED_BODY, Rec(BodyVals(b))) ==
      384 + Len(b.proposers) * 416 + SizeEach(ATTESTER_SLASHING, b.attesters) + SizeEach(ATTESTATION, b.attestations)
          + Len(b.deposits) * 184 + Len(b.exits) * 16 + Size(PAYLOAD_HEADER, b.header)
  {
    hide SizeTails, TypedAll, HeadLen, Width;
    BodyIsTyped(b);
    SlashingSize(b);
    BodyLayout();
    SizeOfField(Vec(32), Blob(b.graffiti), SLASHINGS_ON, SlashingVals(b));
    SizeOfField(ETH1_DATA, b.eth1, GRAFFITI_ON, GraffitiVals(b));
    SizeOfField(Vec(96), Blob(b.randao), ETH1_ON, Eth1Vals(b));
    FieldKinds();
  }

  lemma SlashingSize(b: Body)
    requires BodyOk(b)
    ensures TypedAll(SLASHINGS_ON, SlashingVals(b))
    ensures SizeTails(SLASHINGS_ON, SlashingVals(b)) ==
      Len(b.proposers) * 416 + SizeEach(ATTESTER_SLASHING, b.attesters) + SizeEach(ATTESTATION, b.attestations)
      + Len(b.deposits) * 184 + Len(b.exits) * 16 + Size(PAYLOAD_HEADER, b.header)
  {
    hide SizeTails, TypedAll;
    TypedFromSlashings(b);
    FieldKinds();
    EmptyIsTyped();
    EmptySize();
    SizeOfField(PAYLOAD_HEADER, b.header, End, Nil);
    SizeOfField(SYNC_AGGREGATE, b.sync, HEADER_ON, HeaderVals(b));
    SizeOfField(VOLUNTARY_EXITS, Items(b.exits), SYNC_ON, SyncVals(b));
    SizeOfFixedList(VOLUNTARY_EXIT, 16, b.exits);
    SizeOfField(DEPOSITS, Items(b.deposits), EXITS_ON, ExitVals(b));
    SizeOfFixedList(DEPOSIT, 16, b.deposits);
    SizeOfField(ATTESTATIONS, Items(b.attestations), DEPOSITS_ON, DepositVals(b));
    SizeOfField(ATTESTER_SLASHINGS, Items(b.attesters), ATTESTATIONS_ON, AttestationVals(b));
    SizeOfField(PROPOSER_SLASHINGS, Items(b.proposers), ATTESTERS_ON, AttesterVals(b));
    SizeOfFixedList(PROPOSER_SLASHING, 16, b.proposers);
  }

  lemma EmptySize()
    ensures TypedAll(End, Nil) && SizeTails(End, Nil) == 0
  {
  }

  method SizeOfEach(t: Ty, xs: Vals) returns (size: nat)
    requires TypedEach(t, xs)
    ensures size == SizeEach(t, xs)
  {
    size := 0;
    var it := xs;
    while it.Cons?
      invariant TypedEach(t, it) && size + SizeEach(t, it) == SizeEach(t, xs)
      decreases it
    {
      size := size + 4;
      size := size + Size(t, it.v);
      it := it.rest;
    }
  }

  /** SizeSSZ. */
  method BodySizeSSZ(b: Body) returns (size: nat)
    requires BodyOk(b)
    ensures TypedAll(BODY_FIELDS, BodyVals(b)) && size == Size(BLINDED_BODY, Rec(BodyVals(b)))
  {
    hide Size, SizeEach, TypedAll;
    size := 384;
    size := size + Len(b.proposers) * 416;
    var each := SizeOfEach(ATTESTER_SLASHING, b.attesters);
    size := size + each;
    each := SizeOfEach(ATTESTATION, b.attestations);
    size := size + each;
    size := size + Len(b.deposits) * 184;
    size := size + Len(b.exits) * 16;
    size := size + Size(PAYLOAD_HEADER, b.header);
    BodySize(b);
  }

  // ------------------------------------------------------------------ marshalling

  lemma HeadFixed(t: Ty, v: Val, rest: Tys, vs: Vals, off: nat, dst: Bytes)
    requires Fixed(t) && Typed(t, v) && TypedAll(rest, vs)
    ensures TypedAll(Field(t, rest), Cons(v, vs))
    ensures dst + Heads(Field(t, rest), Cons(v, vs), off) == (dst + Enc(t, v)) + Heads(rest, vs, off)
  {
    hide Enc, Typed, Fixed;
    Assoc(dst, Enc(t, v), Heads(rest, vs, off));
  }

  lemma HeadOffset(t: Ty, v: Val, rest: Tys, vs: Vals, off: nat, dst: Bytes)
    requires !Fixed(t) && Typed(t, v) && TypedAll(rest, vs)
    ensures TypedAll(Field(t, rest), Cons(v, vs))
    ensures dst + Heads(Field(t, rest), Cons(v, vs), off) == (dst + LE(off, 4)) + Heads(rest, vs, off + Size(t, v))
  {
    hide Enc, Size, LE, Typed, Fixed;
    SizeIsExact(t, v);
    Assoc(dst, LE(off, 4), Heads(rest, vs, off + |Enc(t, v)|));
  }

  lemma TailFixed(t: Ty, v: Val, rest: Tys, vs: Vals)
    requires Fixed(t) && Typed(t, v) && TypedAll(rest, vs)
    ensures TypedAll(Field(t, rest), Cons(v, vs))
    ensures Tails(Field(t, rest), Cons(v, vs)) == Tails(rest, vs)
    ensures EncErrorAll(Field(t, rest), Cons(v, vs)) == EncErrorAll(rest, vs)
  {
    FixedHasNoLimits(t, v);
    ErrorIffLimit(t, v);
    assert [] + Tails(rest, vs) == Tails(rest, vs);
  }

  lemma TailVariable(t: Ty, v: Val, rest: Tys, vs: Vals, dst: Bytes)
    requires !Fixed(t) && Typed(t, v) && TypedAll(rest, vs)
    ensures TypedAll(Field(t, rest), Cons(v, vs))
    ensures dst + Tails(Field(t, rest), Cons(v, vs)) == (dst + Enc(t, v)) + Tails(rest, vs)
    ensures EncErrorAll(Field(t, rest), Cons(v, vs)) ==
            if EncError(t, v).Some? then EncError(t, v) else EncErrorAll(rest, vs)
  {
    hide Enc, EncError, Typed, Fixed;
    Assoc(dst, Enc(t, v), Tails(rest, vs));
  }

  /** Fields 0 to 2, offsets 3 to 7, field 8, offset 9. */
  method MarshalBodyHead(b: Body, buf: Bytes) returns (dst: Bytes)
    requires BodyOk(b)
    ensures TypedAll(BODY_FIELDS, BodyVals(b)) && dst == buf + Heads(BODY_FIELDS, BodyVals(b), 384)
  {
    hide TypedAll, Heads, Size, Enc;
    BodyIsTyped(b);
    TypedFromSlashings(b);
    FieldKinds();
    ElementSchemasAreSound();
    dst := buf;
    var offset: nat := 384;
    HeadFixed(Vec(96), Blob(b.randao), ETH1_ON, Eth1Vals(b), offset, dst);
    dst := AppendBytes(96, b.randao, dst);
    HeadFixed(ETH1_DATA, b.eth1, GRAFFITI_ON, GraffitiVals(b), offset, dst);
    dst := AppendFixed(ETH1_DATA, b.eth1, dst);
    HeadFixed(Vec(32), Blob(b.graffiti), SLASHINGS_ON, SlashingVals(b), offset, dst);
    dst := AppendBytes(32, b.graffiti, dst);
    dst := MarshalSlashingHead(b, dst, offset);
  }

  method AppendBytes(n: nat, x: Bytes, buf: Bytes) returns (dst: Bytes)
    requires |x| == n
    ensures dst == buf + Enc(Vec(n), Blob(x))
  {
    dst := buf + x;
  }

  method AppendFixed(t: Ty, v: Val, buf: Bytes) returns (dst: Bytes)
    requires Sound(t) && Fixed(t) && Typed(t, v)
    ensures dst == buf + Enc(t, v)
  {
    FixedHasNoLimits(t, v);
    var err;
    dst, err := MarshalSSZTo(t, v, buf);
  }

  method MarshalSlashingHead(b: Body, buf: Bytes, start: nat) returns (dst: Bytes)
    requires BodyOk(b)
    ensures TypedAll(SLASHINGS_ON, SlashingVals(b)) && dst == buf + Heads(SLASHINGS_ON, SlashingVals(b), start)
  {
    hide TypedAll, Heads, Enc, SizeEach;
    TypedFromSlashings(b);
    FieldKinds();
    dst := buf;
    var offset: nat := start;
    // Offset (3): proposer slashings
    HeadOffset(PROPOSER_SLASHINGS, Items(b.proposers), ATTESTERS_ON, AttesterVals(b), offset, dst);
    SizeOfFixedList(PROPOSER_SLASHING, 16, b.proposers);
    dst := dst + LE(offset, 4);
    offset := offset + Len(b.proposers) * 416;
    // Offset (4): attester slashings
    HeadOffset(ATTESTER_SLASHINGS, Items(b.attesters), ATTESTATIONS_ON, AttestationVals(b), offset, dst);
    dst := dst + LE(offset, 4);
    var each := SizeOfEach(ATTESTER_SLASHING, b.attesters);
    offset := offset + each;
    // Offset (5): attestations
    HeadOffset(ATTESTATIONS, Items(b.attestations), DEPOSITS_ON, DepositVals(b), offset, dst);
    dst := dst + LE(offset, 4);
    each := SizeOfEach(ATTESTATION, b.attestations);
    offset := offset + each;
    dst := MarshalDepositHead(b, dst, offset);
  }

  method MarshalDepositHead(b: Body, buf: Bytes, start: nat) returns (dst: Bytes)
    requires BodyOk(b)
    ensures TypedAll(DEPOSITS_ON, DepositVals(b)) && dst == buf + Heads(DEPOSITS_ON, DepositVals(b), start)
  {
    hide TypedAll, Heads, Enc, SizeEach;
    TypedFromSlashings(b);
    FieldKinds();
    dst := buf;
    var offset: nat := start;
    // Offset (6): deposits
    HeadOffset(DEPOSITS, Items(b.deposits), EXITS_ON, ExitVals(b), offset, dst);
    SizeOfFixedList(DEPOSIT, 16, b.deposits);
    dst := dst + LE(offset, 4);
    offset := offset + Len(b.deposits) * 184;
    // Offset (7): voluntary exits
    HeadOffset(VOLUNTARY_EXITS, Items(b.exits), SYNC_ON, SyncVals(b), offset, dst);
    SizeOfFixedList(VOLUNTARY_EXIT, 16, b.exits);
    dst := dst + LE(offset, 4);
    offset := offset + Len(b.exits) * 16;
    // Field (8): sync aggregate, offset (9): payload header
    dst := MarshalSyncHead(b, dst, offset);
  }

  method MarshalSyncHead(b: Body, buf: Bytes, offset: nat) returns (dst: Bytes)
    requires BodyOk(b)
    ensures TypedAll(SYNC_ON, SyncVals(b)) && dst == buf + Heads(SYNC_ON, SyncVals(b), offset)
  {
    hide TypedAll, Enc, Size;
    TypedFromSlashings(b);
    FieldKinds();
    HeadFixed(SYNC_AGGREGATE, b.sync, HEADER_ON, HeaderVals(b), offset, buf);
    dst := AppendFixed(SYNC_AGGREGATE, b.sync, buf);
    EmptyIsTyped();
    HeadOffset(PAYLOAD_HEADER, b.header, End, Nil, offset, dst);
    dst := dst + LE(offset, 4);
  }

  /** The variable-size fields, each after its limit check. */
  method MarshalBodyTail(b: Body, buf: Bytes) returns (dst: Bytes, err: Option<SszError>)
    requires BodyOk(b)
    ensures TypedAll(SLASHINGS_ON, SlashingVals(b))
    ensures err == EncErrorAll(SLASHINGS_ON, SlashingVals(b))
    ensures err.None? ==> dst == buf + Tails(SLASHINGS_ON, SlashingVals(b))
  {
    hide TypedAll, Enc, Tails, EncErrorAll, EncError;
    TypedFromSlashings(b);
    FieldKinds();
    ElementSchemasAreSound();
    dst := buf;
    TailVariable(PROPOSER_SLASHINGS, Items(b.proposers), ATTESTERS_ON, AttesterVals(b), dst);
    dst, err := MarshalList(PROPOSER_SLASHING, b.proposers, 16, dst);
    if err.Some? {
      return;
    }
    TailVariable(ATTESTER_SLASHINGS, Items(b.attesters), ATTESTATIONS_ON, AttestationVals(b), dst);
    dst, err := MarshalList(ATTESTER_SLASHING, b.attesters, 2, dst);
    if err.Some? {
      return;
    }
    TailVariable(ATTESTATIONS, Items(b.attestations), DEPOSITS_ON, DepositVals(b), dst);
    dst, err := MarshalList(ATTESTATION, b.attestations, 128, dst);
    if err.Some? {
      return;
    }
    dst, err := MarshalDepositTail(b, dst);
  }

  /** A list field: the limit, the offset table if its elements need one, the elements. */
  method MarshalList(elem: Ty, xs: Vals, max: nat, buf: Bytes) returns (dst: Bytes, err: Option<SszError>)
    requires TypedEach(elem, xs) && Sound(elem)
    ensures err == EncError(List(elem, max), Items(xs))
    ensures err.None? ==> dst == buf + Enc(List(elem, max), Items(xs))
  {
    dst := buf;
    if Len(xs) > max {
      return dst, Some(ErrListTooBig);
    }
    if !Fixed(elem) {
      dst := MarshalTable(elem, xs, dst);
      Assoc(buf, Table(elem, xs, 4 * Len(xs)), Flat(elem, xs));
    }
    dst, err := MarshalElements(elem, xs, dst);
  }

  method MarshalDepositTail(b: Body, buf: Bytes) returns (dst: Bytes, err: Option<SszError>)
    requires BodyOk(b)
    ensures TypedAll(DEPOSITS_ON, DepositVals(b))
    ensures err == EncErrorAll(DEPOSITS_ON, DepositVals(b))
    ensures err.None? ==> dst == buf + Tails(DEPOSITS_ON, DepositVals(b))
  {
    hide TypedAll, Enc, Tails, EncErrorAll, EncError;
    TypedFromSlashings(b);
    FieldKinds();
    ElementSchemasAreSound();
    dst := buf;
    TailVariable(DEPOSITS, Items(b.deposits), EXITS_ON, ExitVals(b), dst);
    dst, err := MarshalList(DEPOSIT, b.deposits, 16, dst);
    if err.Some? {
      return;
    }
    TailVariable(VOLUNTARY_EXITS, Items(b.exits), SYNC_ON, SyncVals(b), dst);
    dst, err := MarshalList(VOLUNTARY_EXIT, b.exits, 16, dst);
    if err.Some? {
      return;
    }
    TailFixed(SYNC_AGGREGATE, b.sync, HEADER_ON, HeaderVals(b));
    EmptyTails();
    TailVariable(PAYLOAD_HEADER, b.header, End, Nil, dst);
    dst, err := MarshalSSZTo(PAYLOAD_HEADER, b.header, dst);
  }

  lemma EmptyTails()
    ensures TypedAll(End, Nil) && Tails(End, Nil) == [] && EncErrorAll(End, Nil) == None
  {
  }

  /** MarshalSSZTo: the encoding of the body's schema, appended to `buf`; it fails exactly
      when a limit is exceeded. */
  method MarshalBody(b: Body, buf: Bytes) returns (dst: Bytes, err: Option<SszError>)
    requires BodyOk(b)
    ensures TypedAll(BODY_FIELDS, BodyVals(b))
    ensures err == EncError(BLINDED_BODY, Rec(BodyVals(b)))
    ensures err.None? <==> EncOk(BLINDED_BODY, Rec(BodyVals(b)))
    ensures err.None? ==> dst == buf + Enc(BLINDED_BODY, Rec(BodyVals(b)))
  {
    hide TypedAll, Tails, Heads, EncErrorAll, EncOk, HeadLen;
    BodyIsTyped(b);
    FieldKinds();
    BodyLayout();
    dst := MarshalBodyHead(b, buf);
    dst, err := MarshalBodyTail(b, dst);
    TailFixed(Vec(32), Blob(b.graffiti), SLASHINGS_ON, SlashingVals(b));
    TailFixed(ETH1_DATA, b.eth1, GRAFFITI_ON, GraffitiVals(b));
    TailFixed(Vec(96), Blob(b.randao), ETH1_ON, Eth1Vals(b));
    Assoc(buf, Heads(BODY_FIELDS, BodyVals(b), 384), Tails(BODY_FIELDS, BodyVals(b)));
    ErrorIffLimit(BLINDED_BODY, Rec(BodyVals(b)));
  }

  // ---------------------------------------------------------------- unmarshalling

  lemma OffsetsSkip(t: Ty, rest: Tys, head: Bytes, size: nat, prev: nat, first: bool)
    requires Fixed(t) && |head| == Width(t) + HeadLen(rest) && prev <= size
    ensures ReadOffsets(Field(t, rest), head, size, prev, first)
         == ReadOffsets(rest, head[Width(t)..], size, prev, first)
  {
  }

  lemma OffsetsRead(t: Ty, rest: Tys, head: Bytes, size: nat, prev: nat, first: bool)
    requires !Fixed(t) && |head| == 4 + HeadLen(rest) && prev <= size
    ensures var o := Value(head[..4]);
      ReadOffsets(Field(t, rest), head, size, prev, first) ==
      if o > size then Err(ErrOffset)
      else if o < prev then Err(if first then ErrInvalidVariableOffset else ErrOffset)
      else ConsOffset(o, ReadOffsets(rest, head[4..], size, o, false))
  {
    assert Width(t) == 4;
  }

  function ConsOffset(o: nat, more: Result<Offs>): Result<Offs> {
    if more.Err? then Err(more.error) else Ok(At(o, more.value))
  }

  lemma Window(buf: Bytes, i: nat, k: nat, n: nat)
    requires i + k <= n <= |buf|
    ensures buf[i..n][..k] == buf[i..i + k] && buf[i..n][k..] == buf[i + k..n]
  {
  }

  lemma SuffixLengths()
    ensures HeadLen(HEADER_ON) == 4 && HeadLen(SYNC_ON) == 164 && HeadLen(EXITS_ON) == 168
    ensures HeadLen(DEPOSITS_ON) == 172 && HeadLen(ATTESTATIONS_ON) == 176 && HeadLen(ATTESTERS_ON) == 180
    ensures HeadLen(SLASHINGS_ON) == 184 && HeadLen(GRAFFITI_ON) == 216 && HeadLen(ETH1_ON) == 288
    ensures HeadLen(BODY_FIELDS) == 384
  {
    FixedSizes();
    HeaderLayout();
    assert HeadLen(HEADER_ON) == 4 && HeadLen(SYNC_ON) == 164;
    assert HeadLen(EXITS_ON) == 168 && HeadLen(DEPOSITS_ON) == 172;
    assert HeadLen(ATTESTATIONS_ON) == 176 && HeadLen(ATTESTERS_ON) == 180;
    assert HeadLen(SLASHINGS_ON) == 184 && HeadLen(GRAFFITI_ON) == 216;
  }

  /** The offset in four bytes at a position. */
  function OffsetAt(buf: Bytes, i: nat): nat
    requires i + 4 <= |buf|
  {
    Value(buf[i..i + 4])
  }

  /** A later offset must neither leave the buffer nor lie before the one before it. */
  predicate InOrder(prev: nat, o: nat, size: nat) {
    !(o > size || prev > o)
  }

  /** The six offsets of the body, at their literal positions. */
  function BodyOffsets(buf: Bytes): Result<Offs>
    requires |buf| >= 384
  {
    var size, o3, o4 := |buf|, OffsetAt(buf, 200), OffsetAt(buf, 204);
    if o3 > size then Err(ErrOffset)
    else if o3 < 384 then Err(ErrInvalidVariableOffset)
    else if !InOrder(o3, o4, size) then Err(ErrOffset)
    else ConsOffset(o3, ConsOffset(o4, LaterOffsets(buf, o4)))
  }

  function LaterOffsets(buf: Bytes, o4: nat): Result<Offs>
    requires |buf| >= 384
  {
    var size, o5, o6 := |buf|, OffsetAt(buf, 208), OffsetAt(buf, 212);
    if !InOrder(o4, o5, size) || !InOrder(o5, o6, size) then Err(ErrOffset)
    else ConsOffset(o5, ConsOffset(o6, LastOffsets(buf, o6)))
  }

  function LastOffsets(buf: Bytes, o6: nat): Result<Offs>
    requires |buf| >= 384
  {
    var size, o7, o9 := |buf|, OffsetAt(buf, 216), OffsetAt(buf, 380);
    if !InOrder(o6, o7, size) || !InOrder(o7, o9, size) then Err(ErrOffset)
    else Ok(At(o7, At(o9, Last(size))))
  }

  lemma LastOffsetsAreRead(buf: Bytes, o6: nat)
    requires 384 <= |buf| && o6 <= |buf|
    ensures |buf[216..384]| == HeadLen(EXITS_ON)
    ensures ReadOffsets(EXITS_ON, buf[216..384], |buf|, o6, false) == LastOffsets(buf, o6)
  {
    hide ReadOffsets, Value, HeadLen, Width, Fixed;
    var size, o7, o9 := |buf|, OffsetAt(buf, 216), OffsetAt(buf, 380);
    SuffixLengths();
    FieldKinds();
    ListsAreVariable();
    Window(buf, 216, 4, 384);
    OffsetsRead(VOLUNTARY_EXITS, SYNC_ON, buf[216..384], size, o6, false);
    if InOrder(o6, o7, size) {
      Window(buf, 220, 160, 384);
      OffsetsSkip(SYNC_AGGREGATE, HEADER_ON, buf[220..384], size, o7, false);
      Window(buf, 380, 4, 384);
      NoMoreOffsets(buf[384..384], size, o9);
      OffsetsRead(PAYLOAD_HEADER, End, buf[380..384], size, o7, false);
    }
  }

  lemma LaterOffsetsAreRead(buf: Bytes, o4: nat)
    requires 384 <= |buf| && o4 <= |buf|
    ensures |buf[208..384]| == HeadLen(ATTESTATIONS_ON)
    ensures ReadOffsets(ATTESTATIONS_ON, buf[208..384], |buf|, o4, false) == LaterOffsets(buf, o4)
  {
    hide ReadOffsets, Value, HeadLen, Width, Fixed, LastOffsets;
    var size, o5, o6 := |buf|, OffsetAt(buf, 208), OffsetAt(buf, 212);
    SuffixLengths();
    ListsAreVariable();
    Window(buf, 208, 4, 384);
    OffsetsRead(ATTESTATIONS, DEPOSITS_ON, buf[208..384], size, o4, false);
    if InOrder(o4, o5, size) {
      Window(buf, 212, 4, 384);
      OffsetsRead(DEPOSITS, EXITS_ON, buf[212..384], size, o5, false);
      if InOrder(o5, o6, size) {
        LastOffsetsAreRead(buf, o6);
      }
    }
  }

  lemma ListsAreVariable()
    ensures !Fixed(PROPOSER_SLASHINGS) && !Fixed(ATTESTER_SLASHINGS) && !Fixed(ATTESTATIONS)
    ensures !Fixed(DEPOSITS) && !Fixed(VOLUNTARY_EXITS)
  {
  }

  lemma NoMoreOffsets(head: Bytes, size: nat, prev: nat)
    requires head == []
    ensures HeadLen(End) == 0
    ensures prev <= size ==> ReadOffsets(End, head, size, prev, false) == Ok(Last(size))
  {
  }

  lemma BodyOffsetsAreRead(buf: Bytes)
    requires |buf| >= 384
    ensures |buf[..384]| == HeadLen(BODY_FIELDS)
    ensures ReadOffsets(BODY_FIELDS, buf[..384], |buf|, 384, true) == BodyOffsets(buf)
  {
    hide ReadOffsets, Value, HeadLen, Width, LaterOffsets, Fixed;
    var size, o3, o4 := |buf|, OffsetAt(buf, 200), OffsetAt(buf, 204);
    SuffixLengths();
    ListsAreVariable();
    FixedFieldsAreSkipped(buf);
    Window(buf, 200, 4, 384);
    OffsetsRead(PROPOSER_SLASHINGS, ATTESTERS_ON, buf[200..384], size, 384, true);
    if 384 <= o3 <= size {
      Window(buf, 204, 4, 384);
      OffsetsRead(ATTESTER_SLASHINGS, ATTESTATIONS_ON, buf[204..384], size, o3, false);
      if InOrder(o3, o4, size) {
        LaterOffsetsAreRead(buf, o4);
      }
    }
  }

  lemma FixedFieldsAreSkipped(buf: Bytes)
    requires |buf| >= 384
    ensures |buf[..384]| == HeadLen(BODY_FIELDS) && |buf[200..384]| == HeadLen(SLASHINGS_ON)
    ensures ReadOffsets(BODY_FIELDS, buf[..384], |buf|, 384, true)
         == ReadOffsets(SLASHINGS_ON, buf[200..384], |buf|, 384, true)
  {
    hide ReadOffsets, Value, HeadLen, Width, Fixed;
    SuffixLengths();
    FieldKinds();
    WidthOfBytes();
    assert buf[0..384] == buf[..384];
    Window(buf, 0, 96, 384);
    OffsetsSkip(Vec(96), ETH1_ON, buf[0..384], |buf|, 384, true);
    Window(buf, 96, 72, 384);
    OffsetsSkip(ETH1_DATA, GRAFFITI_ON, buf[96..384], |buf|, 384, true);
    Window(buf, 168, 32, 384);
    OffsetsSkip(Vec(32), SLASHINGS_ON, buf[168..384], |buf|, 384, true);
  }

  lemma WidthOfBytes()
    ensures forall n: nat :: Fixed(Vec(n)) && Width(Vec(n)) == n
  {
  }

  /** One decoded field in front of the others; the first error wins. */
  function Then(r: Result<Val>, rs: Result<Vals>): Result<Vals> {
    if r.Err? then Err(r.error) else if rs.Err? then Err(rs.error) else Ok(Cons(r.value, rs.value))
  }

  lemma StepFixed(t: Ty, recv: Val, rest: Tys, recvs: Vals, head: Bytes, buf: Bytes, offs: Offs)
    requires Fixed(t) && Sound(t) && AllSound(rest) && Typed(t, recv) && TypedAll(rest, recvs)
    requires |head| == Width(t) + HeadLen(rest) && Ladder(rest, offs, Front(offs), |buf|)
    ensures TypedAll(Field(t, rest), Cons(recv, recvs)) && AllSound(Field(t, rest))
    ensures |head| == HeadLen(Field(t, rest)) && Ladder(Field(t, rest), offs, Front(offs), |buf|)
    ensures DecFields(Field(t, rest), Cons(recv, recvs), head, buf, offs)
         == Then(Dec(t, recv, head[..Width(t)]), DecFields(rest, recvs, head[Width(t)..], buf, offs))
  {
    hide Dec, Typed, Sound, Fixed;
  }

  lemma StepVariable(t: Ty, recv: Val, rest: Tys, recvs: Vals, head: Bytes, buf: Bytes, o: nat, more: Offs)
    requires !Fixed(t) && Sound(t) && AllSound(rest) && Typed(t, recv) && TypedAll(rest, recvs)
    requires |head| == 4 + HeadLen(rest) && Ladder(rest, more, Front(more), |buf|) && o <= Front(more) <= |buf|
    ensures TypedAll(Field(t, rest), Cons(recv, recvs)) && AllSound(Field(t, rest))
    ensures |head| == HeadLen(Field(t, rest)) && Ladder(Field(t, rest), At(o, more), o, |buf|)
    ensures DecFields(Field(t, rest), Cons(recv, recvs), head, buf, At(o, more))
         == Then(Dec(t, recv, buf[o..Front(more)]), DecFields(rest, recvs, head[4..], buf, more))
  {
    hide Dec, Typed, Sound;
    assert Width(t) == 4;
    LadderLower(rest, more, o, Front(more), |buf|);
  }

  lemma SuffixesAreSound()
    ensures AllSound(HEADER_ON) && AllSound(SYNC_ON) && AllSound(EXITS_ON) && AllSound(DEPOSITS_ON)
    ensures AllSound(ATTESTATIONS_ON) && AllSound(ATTESTERS_ON) && AllSound(SLASHINGS_ON)
    ensures AllSound(GRAFFITI_ON) && AllSound(ETH1_ON) && AllSound(BODY_FIELDS)
    ensures Sound(PROPOSER_SLASHINGS) && Sound(ATTESTER_SLASHINGS) && Sound(ATTESTATIONS) && Sound(DEPOSITS)
    ensures Sound(VOLUNTARY_EXITS) && Sound(SYNC_AGGREGATE) && Sound(PAYLOAD_HEADER) && Sound(ETH1_DATA)
  {
    SchemasAreSound();
    ElementSchemasAreSound();
    FixedSizes();
    assert AllSound(SYNC_ON) && AllSound(EXITS_ON) && AllSound(DEPOSITS_ON);
    assert AllSound(ATTESTATIONS_ON) && AllSound(ATTESTERS_ON) && AllSound(SLASHINGS_ON);
  }

  /** The last fields, from the voluntary exits on. */
  lemma LastFields(r: Body, buf: Bytes, o7: nat, o9: nat)
    requires BodyOk(r) && 384 <= |buf| && o7 <= o9 <= |buf|
    ensures TypedAll(EXITS_ON, ExitVals(r)) && AllSound(EXITS_ON) && |buf[216..384]| == HeadLen(EXITS_ON)
    ensures Sound(VOLUNTARY_EXITS) && Sound(SYNC_AGGREGATE) && Sound(PAYLOAD_HEADER)
    ensures var offs := At(o7, At(o9, Last(|buf|)));
      && Ladder(EXITS_ON, offs, o7, |buf|)
      && DecFields(EXITS_ON, ExitVals(r), buf[216..384], buf, offs)
         == Then(Dec(VOLUNTARY_EXITS, Items(r.exits), buf[o7..o9]),
            Then(Dec(SYNC_AGGREGATE, r.sync, buf[220..380]),
            Then(Dec(PAYLOAD_HEADER, r.header, buf[o9..|buf|]), Ok(Nil))))
  {
    hide Dec, DecFields, TypedAll, AllSound, Sound, HeadLen, Width, Fixed, Ladder;
    TypedFromSlashings(r);
    SuffixesAreSound();
    SuffixLengths();
    FieldKinds();
    ListsAreVariable();
    Window(buf, 380, 4, 384);
    NoMoreFields(buf[384..384], buf);
    StepVariable(PAYLOAD_HEADER, r.header, End, Nil, buf[380..384], buf, o9, Last(|buf|));
    Window(buf, 220, 160, 384);
    StepFixed(SYNC_AGGREGATE, r.sync, HEADER_ON, HeaderVals(r), buf[220..384], buf, At(o9, Last(|buf|)));
    Window(buf, 216, 4, 384);
    StepVariable(VOLUNTARY_EXITS, Items(r.exits), SYNC_ON, SyncVals(r), buf[216..384], buf, o7, At(o9, Last(|buf|)));
  }

  lemma NoMoreFields(head: Bytes, buf: Bytes)
    requires head == []
    ensures TypedAll(End, Nil) && AllSound(End) && HeadLen(End) == 0 && Ladder(End, Last(|buf|), |buf|, |buf|)
    ensures DecFields(End, Nil, head, buf, Last(|buf|)) == Ok(Nil)
  {
  }

  /** The fields from the attestations on. */
  lemma LaterFields(r: Body, buf: Bytes, o5: nat, o6: nat, o7: nat, o9: nat)
    requires BodyOk(r) && 384 <= |buf| && o5 <= o6 <= o7 <= o9 <= |buf|
    ensures TypedAll(EXITS_ON, ExitVals(r)) && AllSound(EXITS_ON) && |buf[216..384]| == HeadLen(EXITS_ON)
    ensures Sound(ATTESTATIONS) && Sound(DEPOSITS) && Ladder(EXITS_ON, At(o7, At(o9, Last(|buf|))), o7, |buf|)
    ensures TypedAll(ATTESTATIONS_ON, AttestationVals(r)) && AllSound(ATTESTATIONS_ON)
    ensures |buf[208..384]| == HeadLen(ATTESTATIONS_ON)
    ensures var last := At(o7, At(o9, Last(|buf|)));
      && Ladder(ATTESTATIONS_ON, At(o5, At(o6, last)), o5, |buf|)
      && DecFields(ATTESTATIONS_ON, AttestationVals(r), buf[208..384], buf, At(o5, At(o6, last)))
         == Then(Dec(ATTESTATIONS, Items(r.attestations), buf[o5..o6]),
            Then(Dec(DEPOSITS, Items(r.deposits), buf[o6..o7]),
            DecFields(EXITS_ON, ExitVals(r), buf[216..384], buf, last)))
  {
    hide Dec, DecFields, TypedAll, AllSound, Sound, HeadLen, Width, Fixed, Ladder;
    TypedFromSlashings(r);
    SuffixesAreSound();
    SuffixLengths();
    ListsAreVariable();
    var last := At(o7, At(o9, Last(|buf|)));
    LastFields(r, buf, o7, o9);
    Window(buf, 212, 4, 384);
    StepVariable(DEPOSITS, Items(r.deposits), EXITS_ON, ExitVals(r), buf[212..384], buf, o6, last);
    Window(buf, 208, 4, 384);
    StepVariable(ATTESTATIONS, Items(r.attestations), DEPOSITS_ON, DepositVals(r),
                 buf[208..384], buf, o5, At(o6, last));
  }

  /** The fields from the proposer slashings on. */
  lemma SlashingFields(r: Body, buf: Bytes, o3: nat, o4: nat, more: Offs)
    requires BodyOk(r) && 384 <= |buf| && o3 <= o4 <= Front(more) <= |buf|
    requires Ladder(ATTESTATIONS_ON, more, Front(more), |buf|)
    ensures TypedAll(ATTESTATIONS_ON, AttestationVals(r)) && AllSound(ATTESTATIONS_ON)
    ensures |buf[208..384]| == HeadLen(ATTESTATIONS_ON)
    ensures Sound(PROPOSER_SLASHINGS) && Sound(ATTESTER_SLASHINGS)
    ensures TypedAll(SLASHINGS_ON, SlashingVals(r)) && AllSound(SLASHINGS_ON)
    ensures |buf[200..384]| == HeadLen(SLASHINGS_ON)
    ensures Ladder(SLASHINGS_ON, At(o3, At(o4, more)), o3, |buf|)
    ensures DecFields(SLASHINGS_ON, SlashingVals(r), buf[200..384], buf, At(o3, At(o4, more)))
         == Then(Dec(PROPOSER_SLASHINGS, Items(r.proposers), buf[o3..o4]),
            Then(Dec(ATTESTER_SLASHINGS, Items(r.attesters), buf[o4..Front(more)]),
            DecFields(ATTESTATIONS_ON, AttestationVals(r), buf[208..384], buf, more)))
  {
    hide Dec, DecFields, TypedAll, AllSound, Sound, HeadLen, Width, Fixed, Ladder;
    TypedFromSlashings(r);
    SuffixesAreSound();
    SuffixLengths();
    ListsAreVariable();
    Window(buf, 204, 4, 384);
    StepVariable(ATTESTER_SLASHINGS, Items(r.attesters), ATTESTATIONS_ON, AttestationVals(r),
                 buf[204..384], buf, o4, more);
    Window(buf, 200, 4, 384);
    StepVariable(PROPOSER_SLASHINGS, Items(r.proposers), ATTESTERS_ON, AttesterVals(r),
                 buf[200..384], buf, o3, At(o4, more));
  }

  /** All fields: the first three are at fixed places. */
  lemma BodyFields(r: Body, buf: Bytes, offs: Offs)
    requires BodyOk(r) && 384 <= |buf| && Ladder(SLASHINGS_ON, offs, Front(offs), |buf|)
    ensures TypedAll(SLASHINGS_ON, SlashingVals(r)) && AllSound(SLASHINGS_ON)
    ensures |buf[200..384]| == HeadLen(SLASHINGS_ON)
    ensures TypedAll(BODY_FIELDS, BodyVals(r)) && AllSound(BODY_FIELDS) && |buf[..384]| == HeadLen(BODY_FIELDS)
    ensures Ladder(BODY_FIELDS, offs, Front(offs), |buf|) && Sound(ETH1_DATA)
    ensures DecFields(BODY_FIELDS, BodyVals(r), buf[..384], buf, offs)
         == Then(Ok(Blob(buf[0..96])),
            Then(Dec(ETH1_DATA, r.eth1, buf[96..168]),
            Then(Ok(Blob(buf[168..200])),
            DecFields(SLASHINGS_ON, SlashingVals(r), buf[200..384], buf, offs))))
  {
    hide Dec, DecFields, TypedAll, AllSound, HeadLen, Width, Fixed, Ladder;
    BodyIsTyped(r);
    SuffixesAreSound();
    SuffixLengths();
    FieldKinds();
    WidthOfBytes();
    BytesDecode(32, r.graffiti, buf[168..200]);
    BytesDecode(96, r.randao, buf[0..96]);
    assert buf[0..384] == buf[..384];
    Window(buf, 168, 32, 384);
    StepFixed(Vec(32), Blob(r.graffiti), SLASHINGS_ON, SlashingVals(r), buf[168..384], buf, offs);
    Window(buf, 96, 72, 384);
    StepFixed(ETH1_DATA, r.eth1, GRAFFITI_ON, GraffitiVals(r), buf[96..384], buf, offs);
    Window(buf, 0, 96, 384);
    StepFixed(Vec(96), Blob(r.randao), ETH1_ON, Eth1Vals(r), buf[0..384], buf, offs);
  }

  lemma BytesDecode(n: nat, recv: Bytes, x: Bytes)
    requires n > 0 && |recv| == n && |x| == n
    ensures Dec(Vec(n), Blob(recv), x) == Ok(Blob(x))
  {
  }

  /** Decoding the body's schema is: check the size, read the six offsets, decode the fields. */
  lemma BodyDecodes(r: Body, buf: Bytes)
    requires BodyOk(r)
    ensures Sound(BLINDED_BODY) && Typed(BLINDED_BODY, Rec(BodyVals(r)))
    ensures |buf| < 384 ==> Dec(BLINDED_BODY, Rec(BodyVals(r)), buf) == Err(ErrSize)
    ensures |buf| >= 384 && BodyOffsets(buf).Err? ==>
              Dec(BLINDED_BODY, Rec(BodyVals(r)), buf) == Err(BodyOffsets(buf).error)
    ensures |buf| >= 384 && BodyOffsets(buf).Ok? ==>
      var offs := BodyOffsets(buf).value;
      && TypedAll(BODY_FIELDS, BodyVals(r)) && AllSound(BODY_FIELDS) && |buf[..384]| == HeadLen(BODY_FIELDS)
      && Ladder(BODY_FIELDS, offs, Front(offs), |buf|)
      && var vs := DecFields(BODY_FIELDS, BodyVals(r), buf[..384], buf, offs);
      Dec(BLINDED_BODY, Rec(BodyVals(r)), buf) == if vs.Err? then Err(vs.error) else Ok(Rec(vs.value))
  {
    hide DecFields, TypedAll, AllSound, HeadLen, Width, Fixed, Ladder, BodyOffsets, ReadOffsets;
    BodyIsTyped(r);
    SuffixesAreSound();
    SuffixLengths();
    BodyIsVariable();
    if |buf| >= 384 {
      BodyOffsetsAreRead(buf);
      if BodyOffsets(buf).Ok? {
        LadderRaise(BODY_FIELDS, BodyOffsets(buf).value, 384, Front(BodyOffsets(buf).value), |buf|);
      }
    }
  }

  lemma BodyIsVariable()
    ensures !AllFixed(BODY_FIELDS)
  {
    assert !AllFixed(SLASHINGS_ON);
  }

  /** The six offset checks. */
  method ReadBodyOffsets(buf: Bytes)
    returns (err: Option<SszError>, o3: nat, o4: nat, o5: nat, o6: nat, o7: nat, o9: nat)
    requires |buf| >= 384
    ensures BodyOffsets(buf) ==
      if err.None? then Ok(At(o3, At(o4, At(o5, At(o6, At(o7, At(o9, Last(|buf|)))))))) else Err(err.value)
    ensures err.None? ==> 384 <= o3 <= o4 <= o5 <= o6 <= o7 <= o9 <= |buf|
  {
    hide OffsetAt;
    var size := |buf|;
    o3, o4, o5, o6, o7, o9 := 0, 0, 0, 0, 0, 0;
    err := Some(ErrOffset);
    o3 := OffsetAt(buf, 200);
    if o3 > size {
      return;
    }
    if o3 < 384 {
      err := Some(ErrInvalidVariableOffset);
      return;
    }
    o4 := OffsetAt(buf, 204);
    if o4 > size || o3 > o4 {
      return;
    }
    o5 := OffsetAt(buf, 208);
    if o5 > size || o4 > o5 {
      return;
    }
    o6 := OffsetAt(buf, 212);
    if o6 > size || o5 > o6 {
      return;
    }
    o7 := OffsetAt(buf, 216);
    if o7 > size || o6 > o7 {
      return;
    }
    o9 := OffsetAt(buf, 380);
    if o9 > size || o7 > o9 {
      return;
    }
    err := None;
  }

  /** UnmarshalSSZ into a body `recv`: what decoding the schema gives, error by error. */
  method UnmarshalBody(recv: Body, buf: Bytes) returns (b: Body, err: Option<SszError>)
    requires BodyOk(recv)
    ensures Sound(BLINDED_BODY) && Typed(BLINDED_BODY, Rec(BodyVals(recv))) && BodyOk(b)
    ensures Dec(BLINDED_BODY, Rec(BodyVals(recv)), buf) ==
      if err.None? then Ok(Rec(BodyVals(b))) else Err(err.value)
  {
    hide Dec, DecFields, TypedAll, AllSound, Sound, HeadLen, Width, Fixed, Ladder, BodyOffsets;
    BodyDecodes(recv, buf);
    SuffixesAreSound();
    FieldKinds();
    b := recv;
    if |buf| < 384 {
      return b, Some(ErrSize);
    }
    var o3, o4, o5, o6, o7, o9;
    err, o3, o4, o5, o6, o7, o9 := ReadBodyOffsets(buf);
    if err.Some? {
      return;
    }
    LaterFields(recv, buf, o5, o6, o7, o9);
    SlashingFields(recv, buf, o3, o4, At(o5, At(o6, At(o7, At(o9, Last(|buf|))))));
    BodyFields(recv, buf, BodyOffsets(buf).value);
    b := b.(randao := buf[0..96], graffiti := buf[168..200]);
    FixedDecodes(ETH1_DATA, recv.eth1, buf[96..168]);
    var eth1 := UnmarshalSSZ(ETH1_DATA, recv.eth1, buf[96..168]);
    b := b.(eth1 := eth1.value);
    // Field (3): proposer slashings
    var xs := UnmarshalItems(PROPOSER_SLASHING, 16, recv.proposers, buf[o3..o4]);
    if xs.Err? {
      return b, Some(xs.error);
    }
    b := b.(proposers := xs.value);
    // Field (4): attester slashings
    xs := UnmarshalItems(ATTESTER_SLASHING, 2, recv.attesters, buf[o4..o5]);
    if xs.Err? {
      return b, Some(xs.error);
    }
    b := b.(attesters := xs.value);
    // Field (5): attestations
    xs := UnmarshalItems(ATTESTATION, 128, recv.attestations, buf[o5..o6]);
    if xs.Err? {
      return b, Some(xs.error);
    }
    b := b.(attestations := xs.value);
    // Field (6): deposits
    xs := UnmarshalItems(DEPOSIT, 16, recv.deposits, buf[o6..o7]);
    if xs.Err? {
      return b, Some(xs.error);
    }
    b := b.(deposits := xs.value);
    b, err := UnmarshalLastFields(recv, b, buf, o7, o9);
  }

  /** A list field, whose elements are freshly allocated. */
  method UnmarshalItems(elem: Ty, max: nat, recv: Vals, buf: Bytes) returns (r: Result<Vals>)
    requires Sound(List(elem, max)) && TypedEach(elem, recv)
    ensures Dec(List(elem, max), Items(recv), buf) == if r.Ok? then Ok(Items(r.value)) else Err(r.error)
    ensures r.Ok? ==> TypedEach(elem, r.value)
  {
    r := UnmarshalList(elem, max, buf);
  }

  method UnmarshalLastFields(recv: Body, sofar: Body, buf: Bytes, o7: nat, o9: nat)
    returns (b: Body, err: Option<SszError>)
    requires BodyOk(recv) && 384 <= |buf| && o7 <= o9 <= |buf|
    ensures b == sofar.(exits := b.exits, sync := b.sync, header := b.header) && (BodyOk(sofar) ==> BodyOk(b))
    ensures TypedAll(EXITS_ON, ExitVals(recv)) && AllSound(EXITS_ON) && |buf[216..384]| == HeadLen(EXITS_ON)
    ensures Ladder(EXITS_ON, At(o7, At(o9, Last(|buf|))), o7, |buf|)
    ensures DecFields(EXITS_ON, ExitVals(recv), buf[216..384], buf, At(o7, At(o9, Last(|buf|)))) ==
      if err.None? then Ok(ExitVals(b)) else Err(err.value)
  {
    hide Dec, DecFields, TypedAll, AllSound, Sound, HeadLen, Width, Fixed, Ladder;
    LastFields(recv, buf, o7, o9);
    FieldKinds();
    FixedDecodes(SYNC_AGGREGATE, recv.sync, buf[220..380]);
    var sync := UnmarshalSSZ(SYNC_AGGREGATE, recv.sync, buf[220..380]);
    b := sofar.(sync := sync.value);
    // Field (7): voluntary exits
    var xs := UnmarshalItems(VOLUNTARY_EXIT, 16, recv.exits, buf[o7..o9]);
    if xs.Err? {
      return b, Some(xs.error);
    }
    b := b.(exits := xs.value);
    // Field (9): payload header
    var header := UnmarshalSSZ(PAYLOAD_HEADER, recv.header, buf[o9..]);
    assert buf[o9..] == buf[o9..|buf|];
    if header.Err? {
      return b, Some(header.error);
    }
    b, err := b.(header := header.value), None;
  }

  /** The object that the generated methods work on. */
  class BlindedBeaconBlockBody {
    var fields: Body

    constructor (fields: Body)
      ensures this.fields == fields
    {
      this.fields := fields;
    }

    method MarshalSSZTo(buf: Bytes) returns (dst: Bytes, err: Option<SszError>)
      requires BodyOk(fields)
      ensures TypedAll(BODY_FIELDS, BodyVals(fields))
      ensures err == EncError(BLINDED_BODY, Rec(BodyVals(fields)))
      ensures err.None? <==> EncOk(BLINDED_BODY, Rec(BodyVals(fields)))
      ensures err.None? ==> dst == buf + Enc(BLINDED_BODY, Rec(BodyVals(fields)))
    {
      dst, err := MarshalBody(fields, buf);
    }

    /** Decodes in place. After an error the object holds what was decoded before it. */
    method UnmarshalSSZ(buf: Bytes) returns (err: Option<SszError>)
      requires BodyOk(fields)
      modifies this
      ensures BodyOk(fields) && Sound(BLINDED_BODY) && Typed(BLINDED_BODY, Rec(BodyVals(old(fields))))
      ensures Dec(BLINDED_BODY, Rec(BodyVals(old(fields))), buf) ==
        if err.None? then Ok(Rec(BodyVals(fields))) else Err(err.value)
    {
      fields, err := UnmarshalBody(fields, buf);
    }
  }

  /** What the body marshals, an empty body unmarshals to the same value exactly when every
      bitlist is valid. */
  method MarshalThenUnmarshal(body: BlindedBeaconBlockBody, other: BlindedBeaconBlockBody, prefix: Bytes)
    returns (same: bool)
    requires body != other && BodyOk(body.fields) && BodyOk(other.fields)
    requires TypedAll(BODY_FIELDS, BodyVals(body.fields)) && EncOk(BLINDED_BODY, Rec(BodyVals(body.fields)))
    requires TypedAll(BODY_FIELDS, BodyVals(other.fields)) && Fresh(BLINDED_BODY, Rec(BodyVals(other.fields)))
    modifies other
    ensures same <==> BitsOk(BLINDED_BODY, Rec(BodyVals(body.fields)))
    ensures same ==> other.fields == body.fields
  {
    hide EncOk, BitsOk, Fresh, Enc, Dec, Overlay;
    var dst, err := body.MarshalSSZTo(prefix);
    Cut(prefix, Enc(BLINDED_BODY, Rec(BodyVals(body.fields))));
    BodyFits(body.fields);
    RoundTripIff(BLINDED_BODY, Rec(BodyVals(other.fields)), Rec(BodyVals(body.fields)));
    RoundTrip(BLINDED_BODY, Rec(BodyVals(other.fields)), Rec(BodyVals(body.fields)));
    err := other.UnmarshalSSZ(dst[|prefix|..]);
    same := err.None?;
  }

  lemma BodyFits(b: Body)
    requires BodyOk(b) && TypedAll(BODY_FIELDS, BodyVals(b)) && EncOk(BLINDED_BODY, Rec(BodyVals(b)))
    ensures Sound(BLINDED_BODY) && Fits(BLINDED_BODY, Rec(BodyVals(b)))
  {
    var v := Rec(BodyVals(b));
    SuffixesAreSound();
    SizeIsExact(BLINDED_BODY, v);
    SizeIsBounded(BLINDED_BODY, v);
    MaxBodySize();
    ShortFits(BLINDED_BODY, v);
  }
}
