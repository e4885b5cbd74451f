/** The three forms of an execution payload and the conversions between them. */
module Payload {
  import opened ByteCodec
  import opened Ssz
  import opened Merkle
  import opened HashTree
  import opened Schemas
  import opened Transactions
  import U256

  type Hash = Bytes32
  type Address = b: Bytes | |b| == 20 witness seq(20, _ => 0)
  type Bloom = b: Bytes | |b| == 256 witness seq(256, _ => 0)

  /** ExecutionPayloadV1. There is no base fee before London. */
  datatype ExecutionPayload = ExecutionPayload(
    parentHash: Hash, feeRecipient: Address, stateRoot: Hash, receiptsRoot: Hash, logsBloom: Bloom,
    random: Hash, number: u64, gasLimit: u64, gasUsed: u64, timestamp: u64, extraData: Bytes,
    baseFee: Option<nat>, blockHash: Hash, transactions: seq<Bytes>)

  datatype RestPayload = RestPayload(
    parentHash: Hash, feeRecipient: Address, stateRoot: Hash, receiptsRoot: Hash, logsBloom: Bloom,
    random: Hash, number: u64, gasLimit: u64, gasUsed: u64, timestamp: u64, extraData: Bytes,
    baseFee: Bytes32, blockHash: Hash, transactions: seq<Bytes>)

  datatype PayloadHeader = PayloadHeader(
    parentHash: Hash, feeRecipient: Address, stateRoot: Hash, receiptsRoot: Hash, logsBloom: Bloom,
    random: Hash, number: u64, gasLimit: u64, gasUsed: u64, timestamp: u64, extraData: Bytes,
    baseFee: Bytes32, blockHash: Hash, transactionsRoot: Hash)

  function ToRest(p: ExecutionPayload): RestPayload
    requires p.baseFee.Some?
  {
    RestPayload(p.parentHash, p.feeRecipient, p.stateRoot, p.receiptsRoot, p.logsBloom,
                p.random, p.number, p.gasLimit, p.gasUsed, p.timestamp, p.extraData,
                U256.ToHash(p.baseFee.value), p.blockHash, p.transactions)
  }

  function FromRest(p: RestPayload): ExecutionPayload {
    ExecutionPayload(p.parentHash, p.feeRecipient, p.stateRoot, p.receiptsRoot, p.logsBloom,
                     p.random, p.number, p.gasLimit, p.gasUsed, p.timestamp, p.extraData,
                     Some(U256.BigEndian(p.baseFee)), p.blockHash, p.transactions)
  }

  /** The transaction list in the SSZ hash; none when it exceeds the list limits. */
  function TransactionsRoot(h: HashFn, txs: seq<Bytes>): Option<Hash> {
    if HashOk(TRANSACTIONS, TxsVal(txs)) then Some(HashTreeRoot(h, TRANSACTIONS, TxsVal(txs))) else None
  }

  /** The payload with its transactions replaced by their root. */
  function Blind(h: HashFn, p: ExecutionPayload): Option<PayloadHeader>
    requires p.baseFee.Some?
  {
    var root := TransactionsRoot(h, p.transactions);
    if root.None? then None
    else Some(PayloadHeader(p.parentHash, p.feeRecipient, p.stateRoot, p.receiptsRoot, p.logsBloom,
                            p.random, p.number, p.gasLimit, p.gasUsed, p.timestamp, p.extraData,
                            U256.ToHash(p.baseFee.value), p.blockHash, root.value))
  }

  /** A nil base fee makes the source panic; every payload of a post-London block has one. */
  method ELPayloadToRESTPayload(p: ExecutionPayload) returns (r: RestPayload)
    requires p.baseFee.Some?
    ensures r == ToRest(p)
  {
    var txs := CopyAll(p.transactions);
    r := RestPayload(p.parentHash, p.feeRecipient, p.stateRoot, p.receiptsRoot, p.logsBloom,
                     p.random, p.number, p.gasLimit, p.gasUsed, p.timestamp, p.extraData,
                     U256.ToHash(p.baseFee.value), p.blockHash, txs);
  }

  method RESTPayloadToELPayload(p: RestPayload) returns (r: ExecutionPayload)
    ensures r == FromRest(p)
  {
    var txs := CopyAll(p.transactions);
    r := ExecutionPayload(p.parentHash, p.feeRecipient, p.stateRoot, p.receiptsRoot, p.logsBloom,
                          p.random, p.number, p.gasLimit, p.gasUsed, p.timestamp, p.extraData,
                          Some(U256.BigEndian(p.baseFee)), p.blockHash, txs);
  }

  /** Fills a fresh slice element by element. */
  method CopyAll(txs: seq<Bytes>) returns (copy: seq<Bytes>)
    ensures copy == txs
  {
    var out := new Bytes[|txs|];
    for i := 0 to |txs|
      invariant out[..i] == txs[..i]
    {
      out[i] := txs[i];
    }
    copy := out[..];
  }

  /** EL to REST and back loses only base fee bits above the 256th. */
  lemma RestRoundTrip(p: ExecutionPayload)
    requires p.baseFee.Some?
    ensures FromRest(ToRest(p)) == p.(baseFee := Some(p.baseFee.value % Pow256(32)))
  {
    U256.HashRoundTrip(p.baseFee.value);
  }

  /** REST to EL and back loses nothing. */
  lemma ElRoundTrip(r: RestPayload)
    ensures ToRest(FromRest(r)) == r
  {
    BigEndianRoundTrip(r.baseFee);
  }

  lemma BigEndianRoundTrip(b: Bytes32)
    ensures U256.ToHash(U256.BigEndian(b)) == b
  {
    LEOfValue(U256.Reversed(b));
    U256.ReversedTwice(b);
  }

  /** Blinding sees no difference between a payload and its REST round trip. */
  lemma BlindAfterRest(h: HashFn, p: ExecutionPayload)
    requires p.baseFee.Some?
    ensures Blind(h, FromRest(ToRest(p))) == Blind(h, p)
  {
    BigEndianRoundTrip(U256.ToHash(p.baseFee.value));
  }

  /** A header determines its payload up to base fee bits above the 256th, unless two
      pairs hashed for the transaction lists collide. */
  lemma BlindDeterminesPayload(h: HashFn, p: ExecutionPayload, q: ExecutionPayload, s: set<(Chunk, Chunk)>)
    requires p.baseFee.Some? && q.baseFee.Some? && Blind(h, p).Some? && Blind(h, p) == Blind(h, q)
    requires NoCollision(h, s)
    requires HashedIn(s, h, TRANSACTIONS, TxsVal(p.transactions))
    requires HashedIn(s, h, TRANSACTIONS, TxsVal(q.transactions))
    ensures ToRest(p) == ToRest(q)
  {
    TransactionsRootBinds(h, p.transactions, q.transactions, s);
  }

  /** Equal transaction roots mean equal transaction lists, unless two hashed pairs collide. */
  lemma TransactionsRootBinds(h: HashFn, a: seq<Bytes>, b: seq<Bytes>, s: set<(Chunk, Chunk)>)
    requires TransactionsRoot(h, a).Some? && TransactionsRoot(h, a) == TransactionsRoot(h, b)
    requires NoCollision(h, s) && HashedIn(s, h, TRANSACTIONS, TxsVal(a)) && HashedIn(s, h, TRANSACTIONS, TxsVal(b))
    ensures a == b
  {
    SchemasAreSound();
    TxsHaveNoBitlists(a);
    TxsHaveNoBitlists(b);
    RootDeterminesValue(h, TRANSACTIONS, TxsVal(a), TxsVal(b), s);
    BlobsInjective(a, b);
  }

  lemma TxsHaveNoBitlists(txs: seq<Bytes>)
    ensures BitsOk(TRANSACTIONS, TxsVal(txs))
  {
    FlatLength(txs);
    assert BitsOkAll(End, Nil);
  }

  // ------------------------------------------------------------ the header as a value

  // The fields of a payload header as a value of its schema, each with those after it.
  function TxRootVals(p: PayloadHeader): Vals { Cons(Blob(p.transactionsRoot), Nil) }
  function BlockHashVals(p: PayloadHeader): Vals { Cons(Blob(p.blockHash), TxRootVals(p)) }
  function BaseFeeVals(p: PayloadHeader): Vals { Cons(Blob(p.baseFee), BlockHashVals(p)) }
  function ExtraDataVals(p: PayloadHeader): Vals { Cons(Blob(p.extraData), BaseFeeVals(p)) }
  function TimestampVals(p: PayloadHeader): Vals { Cons(Num(p.timestamp), ExtraDataVals(p)) }
  function GasUsedVals(p: PayloadHeader): Vals { Cons(Num(p.gasUsed), TimestampVals(p)) }
  function GasLimitVals(p: PayloadHeader): Vals { Cons(Num(p.gasLimit), GasUsedVals(p)) }
  function NumberVals(p: PayloadHeader): Vals { Cons(Num(p.number), GasLimitVals(p)) }
  function RandomVals(p: PayloadHeader): Vals { Cons(Blob(p.random), NumberVals(p)) }
  function BloomVals(p: PayloadHeader): Vals { Cons(Blob(p.logsBloom), RandomVals(p)) }
  function ReceiptsVals(p: PayloadHeader): Vals { Cons(Blob(p.receiptsRoot), BloomVals(p)) }
  function StateRootVals(p: PayloadHeader): Vals { Cons(Blob(p.stateRoot), ReceiptsVals(p)) }
  function FeeRecipientVals(p: PayloadHeader): Vals { Cons(Blob(p.feeRecipient), StateRootVals(p)) }

  /** The header as a value; it can be hashed up to the codec's limit on extra data. */
  function HeaderVal(p: PayloadHeader): (v: Val)
    ensures Typed(PAYLOAD_HEADER, v) && (HashOk(PAYLOAD_HEADER, v) <==> |p.extraData| <= 2048)
  {
    HeaderIsTyped(p);
    Rec(Cons(Blob(p.parentHash), FeeRecipientVals(p)))
  }

  lemma HashableCons(t: Ty, v: Val, rest: Tys, vs: Vals)
    requires Typed(t, v) && TypedAll(rest, vs)
    ensures TypedAll(Field(t, rest), Cons(v, vs))
    ensures HashOkAll(Field(t, rest), Cons(v, vs)) <==> HashOk(t, v) && HashOkAll(rest, vs)
  {
  }

  lemma NothingHashable()
    ensures TypedAll(End, Nil) && HashOkAll(End, Nil)
  {
  }

  lemma ExtraDataIsTyped(p: PayloadHeader)
    ensures TypedAll(BLOCK_NUMBER_ON, NumberVals(p))
    ensures HashOkAll(BLOCK_NUMBER_ON, NumberVals(p)) <==> |p.extraData| <= 2048
  {
    hide TypedAll, HashOkAll;
    NothingHashable();
    HashableCons(Vec(32), Blob(p.transactionsRoot), End, Nil);
    HashableCons(Vec(32), Blob(p.blockHash), TX_ROOT_ON, TxRootVals(p));
    HashableCons(Vec(32), Blob(p.baseFee), BLOCK_HASH_ON, BlockHashVals(p));
    HashableCons(ByteList(2048, 1), Blob(p.extraData), BASE_FEE_ON, BaseFeeVals(p));
    HashableCons(U64, Num(p.timestamp), EXTRA_DATA_ON, ExtraDataVals(p));
    HashableCons(U64, Num(p.gasUsed), TIMESTAMP_ON, TimestampVals(p));
    HashableCons(U64, Num(p.gasLimit), GAS_USED_ON, GasUsedVals(p));
    HashableCons(U64, Num(p.number), GAS_LIMIT_ON, GasLimitVals(p));
  }

  lemma HeaderIsTyped(p: PayloadHeader)
    ensures var v := Rec(Cons(Blob(p.parentHash), FeeRecipientVals(p)));
      Typed(PAYLOAD_HEADER, v) && (HashOk(PAYLOAD_HEADER, v) <==> |p.extraData| <= 2048)
  {
    hide TypedAll, HashOkAll;
    ExtraDataIsTyped(p);
    HashableCons(Vec(32), Blob(p.random), BLOCK_NUMBER_ON, NumberVals(p));
    HashableCons(Vec(256), Blob(p.logsBloom), RANDOM_ON, RandomVals(p));
    HashableCons(Vec(32), Blob(p.receiptsRoot), BLOOM_ON, BloomVals(p));
    HashableCons(Vec(32), Blob(p.stateRoot), RECEIPTS_ON, ReceiptsVals(p));
    HashableCons(Vec(20), Blob(p.feeRecipient), STATE_ROOT_ON, StateRootVals(p));
    HashableCons(Vec(32), Blob(p.parentHash), FEE_RECIPIENT_ON, FeeRecipientVals(p));
  }
}
