/** The builder relay of relay.go: validator registrations, header offers and payload
    reveals, on top of the engine's payload cache. */
module Relay {
  import opened ByteCodec
  import opened Ssz
  import opened SszProofs
  import opened Merkle
  import opened HashTree
  import opened Schemas
  import opened Payload
  import opened Chain
  import opened Engine
  import Signing
  import Hex
  import U256

  type PublicKey = b: Bytes | |b| == 48 witness seq(48, _ => 0)
  type Signature = b: Bytes | |b| == 96 witness seq(96, _ => 0)

  /** The SSZ hash, signature verification, and what the relay was started with. */
  datatype Config = Config(
    w: World, h: HashFn, verify: (PublicKey, Hash, Signature) -> bool,
    pk: PublicKey, validators: Hash)

  const BELLATRIX: nat := 2

  function BuilderDomain(c: Config): Bytes32 {
    Signing.Domain(c.h, Signing.DOMAIN_TYPE_APP_BUILDER, 0, None)
  }

  function ProposerDomain(c: Config): Bytes32 {
    Signing.Domain(c.h, Signing.DOMAIN_TYPE_BEACON_PROPOSER, BELLATRIX, Some(c.validators))
  }

  // ------------------------------------------------------------ signed messages

  datatype Registration = Registration(feeRecipient: Address, gasLimit: u64, timestamp: u64, pubkey: PublicKey)

  datatype SignedRegistration = SignedRegistration(message: Registration, signature: Signature)

  function RegistrationVal(r: Registration): (v: Val)
    ensures Typed(REGISTRATION, v) && HashOk(REGISTRATION, v) && BitsOk(REGISTRATION, v)
  {
    var key := Cons(Blob(r.pubkey), Nil);
    TypedCons(Vec(48), Blob(r.pubkey), End, Nil);
    TypedCons(U64, Num(r.timestamp), Field(Vec(48), End), key);
    TypedCons(U64, Num(r.gasLimit), Field(U64, Field(Vec(48), End)), Cons(Num(r.timestamp), key));
    var v := Rec(Cons(Blob(r.feeRecipient), Cons(Num(r.gasLimit), Cons(Num(r.timestamp), key))));
    FixedSizes();
    FixedIsHashable(REGISTRATION, v);
    FixedHasNoLimits(REGISTRATION, v);
    v
  }

  /** The registration is signed by the key it is for. */
  predicate IsSigned(c: Config, s: SignedRegistration) {
    var root := Signing.SigningRoot(c.h, REGISTRATION, RegistrationVal(s.message), BuilderDomain(c));
    root.Some? && c.verify(s.message.pubkey, root.value, s.signature)
  }

  /** The value every bid offers. */
  const BID_VALUE: Bytes32 := [1] + Zeros(31)

  /** A bid on a header, under the relay's key. */
  function BidVal(header: PayloadHeader, pk: PublicKey): (v: Val)
    ensures Typed(BUILDER_BID, v) && (HashOk(BUILDER_BID, v) <==> |header.extraData| <= 2048)
  {
    BidIsTyped(header, pk);
    Rec(Cons(HeaderVal(header), Cons(Blob(BID_VALUE), Cons(Blob(pk), Nil))))
  }

  lemma BidIsTyped(header: PayloadHeader, pk: PublicKey)
    ensures var v := Rec(Cons(HeaderVal(header), Cons(Blob(BID_VALUE), Cons(Blob(pk), Nil))));
      Typed(BUILDER_BID, v) && (HashOk(BUILDER_BID, v) <==> |header.extraData| <= 2048)
  {
    hide TypedAll, HashOkAll, HeaderVal, BID_VALUE;
    NothingHashable();
    HashableCons(Vec(48), Blob(pk), End, Nil);
    HashableCons(Vec(32), Blob(BID_VALUE), Field(Vec(48), End), Cons(Blob(pk), Nil));
    HashableCons(PAYLOAD_HEADER, HeaderVal(header), Field(Vec(32), Field(Vec(48), End)),
                 Cons(Blob(BID_VALUE), Cons(Blob(pk), Nil)));
  }

  /** The message a bid is signed over; none when it cannot be hashed. */
  function BidMessage(c: Config, header: PayloadHeader): Option<Hash> {
    Signing.SigningRoot(c.h, BUILDER_BID, BidVal(header, c.pk), BuilderDomain(c))
  }

  /** The parent hash in the payload header of a blinded block. */
  function ParentOf(block: Val): (h: Hash)
    requires Typed(BLINDED_BLOCK, block)
  {
    hide TypedAll;
    HeaderPosition();
    var body := Nth(BLINDED_BLOCK.fs, block.fs, 4);
    var header := Nth(BODY_FIELDS, body.fs, 9);
    Nth(PAYLOAD_HEADER.fs, header.fs, 0).b
  }

  predicate IsProposal(c: Config, key: PublicKey, block: Val, signature: Signature)
    requires Typed(BLINDED_BLOCK, block)
  {
    var root := Signing.SigningRoot(c.h, BLINDED_BLOCK, block, ProposerDomain(c));
    root.Some? && c.verify(key, root.value, signature)
  }

  // ----------------------------------------------------------------- registering

  type Table = map<PublicKey, Registration>

  /** A registration is taken when it is signed and, as the code has it, older than the
      one it replaces. */
  predicate Acceptable(c: Config, table: Table, s: SignedRegistration) {
    && IsSigned(c, s)
    && (s.message.pubkey in table ==> s.message.timestamp < table[s.message.pubkey].timestamp)
  }

  function Entered(table: Table, s: SignedRegistration): Table {
    table[s.message.pubkey := s.message]
  }

  /** How many registrations of a batch are taken before one is rejected. */
  function Taken(c: Config, table: Table, batch: seq<SignedRegistration>): (n: nat)
    ensures n <= |batch|
    decreases |batch|
  {
    if batch == [] || !Acceptable(c, table, batch[0]) then 0
    else 1 + Taken(c, Entered(table, batch[0]), batch[1..])
  }

  function EnteredAll(table: Table, batch: seq<SignedRegistration>): Table {
    if batch == [] then table else Entered(EnteredAll(table, batch[..|batch| - 1]), batch[|batch| - 1])
  }

  // ------------------------------------------------------------------- the relay

  /** The path variables of a header request. */
  datatype HeaderRequest = HeaderRequest(slot: string, parentHash: string, pubkey: string)

  predicate IsNumeral(s: string) {
    s != [] && forall i :: 0 <= i < |s| ==> U256.IsDigit(s[i])
  }

  /** What the route pattern lets through. */
  predicate IsRouted(r: HeaderRequest) {
    IsNumeral(r.slot) && Hex.MatchesRoute(r.parentHash) && Hex.MatchesRoute(r.pubkey)
  }

  /** What the handler checks before it looks anything up: a slot that fits in 63 bits, and the
      lengths of the other two texts. */
  predicate PassesChecks(r: HeaderRequest) {
    && U256.Parse(10, r.slot).Some? && U256.Parse(10, r.slot).value < 0x8000_0000_0000_0000
    && |r.pubkey| == 98 && |r.parentHash| == 66
  }

  /** Slots up to the largest signed 64-bit number pass, larger ones do not. */
  lemma SlotsThatPass(n: nat, r: HeaderRequest)
    requires r.slot == U256.Decimal(n)
    ensures IsNumeral(r.slot)
    ensures PassesChecks(r) <==> n <= 9223372036854775807 && |r.pubkey| == 98 && |r.parentHash| == 66
  {
    U256.ParseDecimal(n);
  }

  predicate IsServed(r: HeaderRequest) {
    IsRouted(r) && PassesChecks(r)
  }

  function ParentAsked(r: HeaderRequest): Hash
    requires IsServed(r)
  {
    Hex.Decode(r.parentHash[2..]).value
  }

  function KeyGiven(r: HeaderRequest): PublicKey
    requires IsServed(r)
  {
    Hex.Decode(r.pubkey[2..]).value
  }

  /** UnmarshalText into `held`: a text that is no hexadecimal is ignored without an error, and
      a wrong length is one. */
  function ReadKey(held: PublicKey, text: string): Option<PublicKey> {
    var bytes := Hex.Prefixed(text);
    var b := if bytes.None? then held else bytes.value;
    if |b| != 48 then None else Some(b)
  }

  /** A request that is served has its key read, whatever key was held before. */
  lemma ServedKeyIsRead(held: PublicKey, r: HeaderRequest)
    requires IsServed(r)
    ensures ReadKey(held, r.pubkey) == Some(KeyGiven(r))
  {
  }

  /** A request with the texts of a hash and a key, and a slot that fits, is served for these. */
  lemma WrittenIsServed(n: nat, parent: Hash, key: PublicKey)
    ensures var r := HeaderRequest(U256.Decimal(n), "0x" + Hex.Encode(parent), "0x" + Hex.Encode(key));
      if n <= 9223372036854775807 then IsServed(r) && ParentAsked(r) == parent && KeyGiven(r) == key
      else !IsServed(r)
  {
    hide U256.Parse, U256.Decimal, Hex.Encode;
    var r := HeaderRequest(U256.Decimal(n), "0x" + Hex.Encode(parent), "0x" + Hex.Encode(key));
    SlotsThatPass(n, r);
    Hex.DecodeEncoded(parent);
    Hex.DecodeEncoded(key);
    assert r.parentHash[2..] == Hex.Encode(parent) && r.pubkey[2..] == Hex.Encode(key);
  }

  /** And every request that is served has such texts, up to capital letters. */
  lemma ServedIsWritten(r: HeaderRequest)
    requires IsServed(r)
    ensures Hex.Lower(r.parentHash) == "0x" + Hex.Encode(ParentAsked(r))
    ensures Hex.Lower(r.pubkey) == "0x" + Hex.Encode(KeyGiven(r))
  {
    Hex.EncodeDecoded(r.parentHash[2..]);
    Hex.EncodeDecoded(r.pubkey[2..]);
    assert Hex.Lower(r.parentHash) == "0x" + Hex.Lower(r.parentHash[2..]);
    assert Hex.Lower(r.pubkey) == "0x" + Hex.Lower(r.pubkey[2..]);
  }

  datatype RelayOp =
    | Register(batch: seq<SignedRegistration>)
    | GetHeader(request: HeaderRequest)
    | Reveal(block: Val, signature: Signature)
    | EngineCall(op: Op)

  datatype RelayAnswer =
    | Registered
    | Offer(header: PayloadHeader, message: Hash)
    | Revealed(payload: RestPayload)
    | Refused
    | EngineAnswer(answer: Answer)

  datatype RelayState = RelayState(engine: EngineState, registrations: Table, latestPubkey: PublicKey)

  /** The header of a cached payload. A payload without a base fee panics, which the server
      turns into a failed request. */
  function HeaderOf(c: Config, p: Option<ExecutionPayload>): Option<PayloadHeader> {
    if p.None? || p.value.baseFee.None? then None else Blind(c.h, p.value)
  }

  function RestOf(p: Option<ExecutionPayload>): Option<RestPayload> {
    if p.None? || p.value.baseFee.None? then None else Some(ToRest(p.value))
  }

  predicate OpTyped(op: RelayOp) {
    op.Reveal? ==> Typed(BLINDED_BLOCK, op.block)
  }

  function RelayDo(c: Config, s: RelayState, op: RelayOp): (RelayState, RelayAnswer)
    requires OpTyped(op)
  {
    match op
    case Register(batch) =>
      var n := Taken(c, s.registrations, batch);
      (s.(registrations := EnteredAll(s.registrations, batch[..n])), if n == |batch| then Registered else Refused)
    case GetHeader(request) =>
      if !IsServed(request) then (s, Refused)
      else
        var (engine, answer) := Do(c.w, s.engine, GetByParent(ParentAsked(request)));
        var header, key := HeaderOf(c, answer.payload), ReadKey(s.latestPubkey, request.pubkey);
        var message := if header.None? then None else BidMessage(c, header.value);
        if message.None? || key.None? then (s.(engine := engine), Refused)
        else (s.(engine := engine, latestPubkey := key.value), Offer(header.value, message.value))
    case Reveal(block, signature) =>
      if !IsProposal(c, s.latestPubkey, block, signature) then (s, Refused)
      else
        var (engine, answer) := Do(c.w, s.engine, GetByParent(ParentOf(block)));
        var rest := RestOf(answer.payload);
        (s.(engine := engine), if rest.None? then Refused else Revealed(rest.value))
    case EngineCall(e) =>
      var (engine, answer) := Do(c.w, s.engine, e);
      (s.(engine := engine), EngineAnswer(answer))
  }

  class RelayBackend {
    const c: Config
    const engine: EngineBackend
    var registrations: Table
    var latestPubkey: PublicKey

    ghost predicate Ready()
      reads this, engine, engine.chain
    {
      engine.Ready() && engine.chain.w == c.w
    }

    ghost function Abs(): RelayState
      reads this, engine, engine.chain
    {
      RelayState(engine.Abs(), registrations, latestPubkey)
    }

    constructor (c: Config, engine: EngineBackend)
      requires engine.Ready() && engine.chain.w == c.w
      ensures Ready() && this.c == c && this.engine == engine
      ensures Abs() == RelayState(engine.Abs(), map[], Zeros(48))
    {
      this.c, this.engine := c, engine;
      registrations, latestPubkey := map[], Zeros(48);
    }

    /** Registrations before a rejected one stay. */
    method HandleRegisterValidator(batch: seq<SignedRegistration>) returns (answer: RelayAnswer)
      requires Ready()
      modifies this
      ensures Ready() && (Abs(), answer) == RelayDo(c, old(Abs()), Register(batch))
    {
      hide IsSigned, Do, Blind;
      ghost var table := registrations;
      for i := 0 to |batch|
        invariant Ready() && latestPubkey == old(latestPubkey)
        invariant registrations == EnteredAll(table, batch[..i])
        invariant Taken(c, table, batch) == i + Taken(c, registrations, batch[i..])
      {
        assert batch[..i + 1][..i] == batch[..i];
        if !IsSigned(c, batch[i]) {
          return Refused;
        }
        var key := batch[i].message.pubkey;
        if key in registrations {
          if registrations[key].timestamp <= batch[i].message.timestamp {
            return Refused;
          }
        }
        assert batch[i..][1..] == batch[i + 1..];
        registrations := registrations[key := batch[i].message];
      }
      assert batch[..|batch|] == batch;
      answer := Registered;
    }

    method HandleGetHeader(request: HeaderRequest) returns (answer: RelayAnswer)
      requires Ready()
      modifies this, engine
      ensures Ready() && (Abs(), answer) == RelayDo(c, old(Abs()), GetHeader(request))
    {
      if !IsServed(request) {
        return Refused;
      }
      var p := engine.GetPayloadByParent(ParentAsked(request));
      var header := HeaderOf(c, p);
      if header.None? {
        return Refused;
      }
      var message := BidMessage(c, header.value);
      if message.None? {
        return Refused;
      }
      var key := ReadKey(latestPubkey, request.pubkey);
      if key.None? {
        return Refused;
      }
      latestPubkey := key.value;
      answer := Offer(header.value, message.value);
    }

    method HandleGetPayload(block: Val, signature: Signature) returns (answer: RelayAnswer)
      requires Ready() && Typed(BLINDED_BLOCK, block)
      modifies this, engine
      ensures Ready() && (Abs(), answer) == RelayDo(c, old(Abs()), Reveal(block, signature))
    {
      if !IsProposal(c, latestPubkey, block, signature) {
        return Refused;
      }
      var p := engine.GetPayloadByParent(ParentOf(block));
      var rest := RestOf(p);
      answer := if rest.None? then Refused else Revealed(rest.value);
    }
  }
}
