/** The hash tree root of every container, as nested hashes of its named fields. */
module ContainerRoots {
  import opened ByteCodec
  import opened Ssz
  import opened SszProofs
  import opened Merkle
  import opened HashTree
  import opened Schemas
  import opened Transactions
  import opened Bitlists
  import opened RootFormulas
  import opened Payload
  import BlindedBody
  import Signing
  import Relay

  // ------------------------------------------------------------------- small containers

  lemma Leaves()
    ensures forall n: u64 :: Typed(U64, Num(n)) && HashOk(U64, Num(n))
    ensures forall n: nat, b: Bytes :: |b| == n ==> Typed(Vec(n), Blob(b)) && HashOk(Vec(n), Blob(b))
  {
  }

  function Eth1Root(h: HashFn, depositRoot: Hash, depositCount: u64, blockHash: Hash): Chunk {
    Four(h, depositRoot, Word(depositCount), blockHash, Z)
  }

  lemma Eth1DataRoot(h: HashFn, depositRoot: Hash, depositCount: u64, blockHash: Hash)
    ensures var v := Rec(Cons(Blob(depositRoot), Cons(Num(depositCount), Cons(Blob(blockHash), Nil))));
      && Typed(ETH1_DATA, v) && HashOk(ETH1_DATA, v)
      && HashTreeRoot(h, ETH1_DATA, v) == Eth1Root(h, depositRoot, depositCount, blockHash)
  {
    hide HashTreeRoot, TypedAll, HashOkAll;
    Leaves();
    HashRoot(h, depositRoot);
    NumberRoot(h, depositCount);
    HashRoot(h, blockHash);
    ThreeFields(h, Vec(32), Blob(depositRoot), U64, Num(depositCount), Vec(32), Blob(blockHash));
  }

  lemma BeaconBlockHeaderRoot(h: HashFn, slot: u64, proposer: u64, parent: Hash, state: Hash, body: Hash)
    ensures var v :=
        Rec(Cons(Num(slot), Cons(Num(proposer), Cons(Blob(parent), Cons(Blob(state), Cons(Blob(body), Nil))))));
      && Typed(BEACON_BLOCK_HEADER, v) && HashOk(BEACON_BLOCK_HEADER, v)
      && HashTreeRoot(h, BEACON_BLOCK_HEADER, v)
         == h(Four(h, Word(slot), Word(proposer), parent, state), Four(h, body, Z, Z, Z))
  {
    hide HashTreeRoot, TypedAll, HashOkAll;
    Leaves();
    NumberRoot(h, slot);
    NumberRoot(h, proposer);
    HashRoot(h, parent);
    HashRoot(h, state);
    HashRoot(h, body);
    FiveFields(h, U64, Num(slot), U64, Num(proposer), Vec(32), Blob(parent), Vec(32), Blob(state), Vec(32), Blob(body));
  }

  lemma SignedBlockHeaderRoot(h: HashFn, message: Val, signature: Bytes)
    requires Typed(BEACON_BLOCK_HEADER, message) && HashOk(BEACON_BLOCK_HEADER, message) && |signature| == 96
    ensures var v := Rec(Cons(message, Cons(Blob(signature), Nil)));
      && Typed(SIGNED_BLOCK_HEADER, v) && HashOk(SIGNED_BLOCK_HEADER, v)
      && HashTreeRoot(h, SIGNED_BLOCK_HEADER, v)
         == h(HashTreeRoot(h, BEACON_BLOCK_HEADER, message), SigRoot(h, signature))
  {
    hide HashTreeRoot, TypedAll, HashOkAll;
    Leaves();
    SignatureRoot(h, signature);
    TwoFields(h, BEACON_BLOCK_HEADER, message, Vec(96), Blob(signature));
  }

  lemma ProposerSlashingRoot(h: HashFn, a: Val, b: Val)
    requires Typed(SIGNED_BLOCK_HEADER, a) && HashOk(SIGNED_BLOCK_HEADER, a)
    requires Typed(SIGNED_BLOCK_HEADER, b) && HashOk(SIGNED_BLOCK_HEADER, b)
    ensures var v := Rec(Cons(a, Cons(b, Nil)));
      && Typed(PROPOSER_SLASHING, v) && HashOk(PROPOSER_SLASHING, v)
      && HashTreeRoot(h, PROPOSER_SLASHING, v)
         == h(HashTreeRoot(h, SIGNED_BLOCK_HEADER, a), HashTreeRoot(h, SIGNED_BLOCK_HEADER, b))
  {
    hide HashTreeRoot, TypedAll, HashOkAll;
    TwoFields(h, SIGNED_BLOCK_HEADER, a, SIGNED_BLOCK_HEADER, b);
  }

  datatype Checkpoint = Checkpoint(epoch: u64, root: Hash)

  function CheckpointVal(c: Checkpoint): Val {
    Rec(Cons(Num(c.epoch), Cons(Blob(c.root), Nil)))
  }

  lemma CheckpointRoot(h: HashFn, c: Checkpoint)
    ensures Typed(CHECKPOINT, CheckpointVal(c)) && HashOk(CHECKPOINT, CheckpointVal(c))
    ensures HashTreeRoot(h, CHECKPOINT, CheckpointVal(c)) == h(Word(c.epoch), c.root)
  {
    hide HashTreeRoot, TypedAll, HashOkAll;
    Leaves();
    NumberRoot(h, c.epoch);
    HashRoot(h, c.root);
    TwoFields(h, U64, Num(c.epoch), Vec(32), Blob(c.root));
  }

  datatype AttestationData = AttestationData(
    slot: u64, index: u64, blockRoot: Hash, source: Checkpoint, target: Checkpoint)

  function DataVal(a: AttestationData): Val {
    var checkpoints := Cons(CheckpointVal(a.source), Cons(CheckpointVal(a.target), Nil));
    Rec(Cons(Num(a.slot), Cons(Num(a.index), Cons(Blob(a.blockRoot), checkpoints))))
  }

  function DataRoot(h: HashFn, a: AttestationData): Chunk {
    h(Four(h, Word(a.slot), Word(a.index), a.blockRoot, h(Word(a.source.epoch), a.source.root)),
      Four(h, h(Word(a.target.epoch), a.target.root), Z, Z, Z))
  }

  lemma AttestationDataRoot(h: HashFn, a: AttestationData)
    ensures Typed(ATTESTATION_DATA, DataVal(a)) && HashOk(ATTESTATION_DATA, DataVal(a))
    ensures HashTreeRoot(h, ATTESTATION_DATA, DataVal(a)) == DataRoot(h, a)
  {
    hide HashTreeRoot, TypedAll, HashOkAll, CheckpointVal;
    Leaves();
    NumberRoot(h, a.slot);
    NumberRoot(h, a.index);
    HashRoot(h, a.blockRoot);
    CheckpointRoot(h, a.source);
    CheckpointRoot(h, a.target);
    FiveFields(h, U64, Num(a.slot), U64, Num(a.index), Vec(32), Blob(a.blockRoot),
               CHECKPOINT, CheckpointVal(a.source), CHECKPOINT, CheckpointVal(a.target));
  }

  // ------------------------------------------------------------------------ attestations

  function Numbers(xs: seq<u64>): (vs: Vals)
    ensures TypedEach(U64, vs) && HashOkEach(U64, vs) && Len(vs) == |xs|
  {
    if xs == [] then Nil else Cons(Num(xs[0]), Numbers(xs[1..]))
  }

  /** The numbers as little-endian bytes, back to back. */
  function NumberBytes(xs: seq<u64>): (b: Bytes)
    ensures |b| == 8 * |xs|
  {
    if xs == [] then [] else LE(xs[0], 8) + NumberBytes(xs[1..])
  }

  lemma {:induction false} NumbersFlat(xs: seq<u64>)
    ensures Flat(U64, Numbers(xs)) == NumberBytes(xs)
  {
    if xs != [] {
      NumbersFlat(xs[1..]);
    }
  }

  /** Up to 2048 indices, four to a chunk: a tree of height nine, and the count. */
  function IndicesRoot(h: HashFn, xs: seq<u64>): Chunk {
    h(Tree(h, Pack(NumberBytes(xs)), 9, 0), Word(|xs|))
  }

  lemma IndexListRoot(h: HashFn, xs: seq<u64>)
    requires |xs| <= 2048
    ensures Typed(List(U64, 2048), Items(Numbers(xs))) && HashOk(List(U64, 2048), Items(Numbers(xs)))
    ensures HashTreeRoot(h, List(U64, 2048), Items(Numbers(xs))) == IndicesRoot(h, xs)
  {
    hide HashTreeRoot, Pack, Tree, Numbers, NumberBytes, Flat, Word, Typed, HashOk, Pow2;
    NumbersFlat(xs);
    Heights();
    NumberListRoot(h, 2048, Numbers(xs), NumberBytes(xs), 9);
  }

  lemma NumberListRoot(h: HashFn, max: nat, vs: Vals, b: Bytes, d: nat)
    requires TypedEach(U64, vs) && HashOkEach(U64, vs) && Len(vs) <= max
    requires Flat(U64, vs) == b && |Pack(b)| <= Pow2(d) == (max * 8 + 31) / 32
    ensures Typed(List(U64, max), Items(vs)) && HashOk(List(U64, max), Items(vs))
    ensures HashTreeRoot(h, List(U64, max), Items(vs)) == h(Tree(h, Pack(b), d, 0), Word(Len(vs)))
  {
    hide LimitedRoot, Pack, LE, Flat, Pow2, Tree;
    RoomForPow2(h, Pack(b), d);
  }

  function IndexedVal(xs: seq<u64>, data: AttestationData, signature: Bytes): Val {
    Rec(Cons(Items(Numbers(xs)), Cons(DataVal(data), Cons(Blob(signature), Nil))))
  }

  lemma IndexedAttestationRoot(h: HashFn, xs: seq<u64>, data: AttestationData, signature: Bytes)
    requires |xs| <= 2048 && |signature| == 96
    ensures var v := IndexedVal(xs, data, signature);
      && Typed(INDEXED_ATTESTATION, v) && HashOk(INDEXED_ATTESTATION, v)
      && HashTreeRoot(h, INDEXED_ATTESTATION, v)
         == Four(h, IndicesRoot(h, xs), DataRoot(h, data), SigRoot(h, signature), Z)
  {
    hide HashTreeRoot, TypedAll, HashOkAll, DataVal, Numbers;
    Leaves();
    IndexListRoot(h, xs);
    AttestationDataRoot(h, data);
    SignatureRoot(h, signature);
    ThreeFields(h, List(U64, 2048), Items(Numbers(xs)), ATTESTATION_DATA, DataVal(data), Vec(96), Blob(signature));
  }

  lemma AttesterSlashingRoot(h: HashFn, a: Val, b: Val)
    requires Typed(INDEXED_ATTESTATION, a) && HashOk(INDEXED_ATTESTATION, a)
    requires Typed(INDEXED_ATTESTATION, b) && HashOk(INDEXED_ATTESTATION, b)
    ensures var v := Rec(Cons(a, Cons(b, Nil)));
      && Typed(ATTESTER_SLASHING, v) && HashOk(ATTESTER_SLASHING, v)
      && HashTreeRoot(h, ATTESTER_SLASHING, v)
         == h(HashTreeRoot(h, INDEXED_ATTESTATION, a), HashTreeRoot(h, INDEXED_ATTESTATION, b))
  {
    hide HashTreeRoot, TypedAll, HashOkAll;
    TwoFields(h, INDEXED_ATTESTATION, a, INDEXED_ATTESTATION, b);
  }

  /** Up to 2048 bits, 256 to a chunk: a tree of height three, and the number of bits. */
  function BitsRoot(h: HashFn, s: seq<bool>): Chunk {
    h(Tree(h, Pack(Packed(s)), 3, 0), Word(|s|))
  }

  lemma BitlistRoot(h: HashFn, s: seq<bool>)
    requires |s| <= 2048
    ensures Typed(BitList(2048), Blob(Delimited(s))) && HashOk(BitList(2048), Blob(Delimited(s)))
    ensures HashTreeRoot(h, BitList(2048), Blob(Delimited(s))) == BitsRoot(h, s)
  {
    hide LimitedRoot, Pack, Packed, Delimited, LE, Cleared, Stripped;
    DelimitedCount(s);
    ClearedIsPacked(s);
    BitlistRootIsSpec(h, Delimited(s), 2048);
    Heights();
    RoomForPow2(h, Pack(Packed(s)), 3);
  }

  /** A last byte of zero holds no delimiter. The hasher takes the bytes before the zeros, and
      255 for the position of the highest bit in the last one. */
  lemma UndelimitedRoot(h: HashFn, b: Bytes, bits: Bytes, zeros: nat)
    requires b == bits + Zeros(zeros) && zeros > 0
    requires |bits| <= 256 && (bits != [] ==> bits[|bits| - 1] != 0)
    ensures Typed(BitList(2048), Blob(b)) && HashOk(BitList(2048), Blob(b))
    ensures HashTreeRoot(h, BitList(2048), Blob(b)) == h(Tree(h, Pack(bits), 3, 0), Word(8 * (|b| - 1) + 255))
  {
    hide HashTreeRoot, Pack, Tree, Word, Typed, HashOk, BitChunks, BitSize, Zeros, Pow2;
    UndelimitedChunks(b, bits, zeros);
    Heights();
    BitChunksRoot(h, 2048, b, Pack(bits), 3);
  }

  lemma BitChunksRoot(h: HashFn, max: nat, b: Bytes, cs: seq<Chunk>, d: nat)
    requires |b| > 0 && BitChunks(b) == cs && |cs| <= Pow2(d) == (max + 255) / 256
    ensures Typed(BitList(max), Blob(b)) && HashOk(BitList(max), Blob(b))
    ensures HashTreeRoot(h, BitList(max), Blob(b)) == h(Tree(h, cs, d, 0), Word(BitSize(b)))
  {
    hide LimitedRoot, LE, Pow2, Tree, BitChunks, BitSize;
    RoomForPow2(h, cs, d);
  }

  lemma UndelimitedChunks(b: Bytes, bits: Bytes, zeros: nat)
    requires b == bits + Zeros(zeros) && zeros > 0
    requires bits != [] ==> bits[|bits| - 1] != 0
    ensures BitChunks(b) == Pack(bits) && BitSize(b) == 8 * (|b| - 1) + 255
  {
    hide Pack, Stripped;
    StrippedOfZeros(bits, zeros);
    assert b[|b| - 1] == 0;
  }

  lemma {:induction false} StrippedOfZeros(bits: Bytes, zeros: nat)
    requires bits != [] ==> bits[|bits| - 1] != 0
    ensures Stripped(bits + Zeros(zeros)) == bits
  {
    var b := bits + Zeros(zeros);
    if zeros == 0 {
      assert b == bits;
    } else {
      assert b[..|b| - 1] == bits + Zeros(zeros - 1);
      StrippedOfZeros(bits, zeros - 1);
    }
  }

  lemma AttestationRoot(h: HashFn, s: seq<bool>, data: AttestationData, signature: Bytes)
    requires |s| <= 2048 && |signature| == 96
    ensures var v := Rec(Cons(Blob(Delimited(s)), Cons(DataVal(data), Cons(Blob(signature), Nil))));
      && Typed(ATTESTATION, v) && HashOk(ATTESTATION, v)
      && HashTreeRoot(h, ATTESTATION, v) == Four(h, BitsRoot(h, s), DataRoot(h, data), SigRoot(h, signature), Z)
  {
    hide HashTreeRoot, TypedAll, HashOkAll, DataVal, Delimited;
    Leaves();
    BitlistRoot(h, s);
    AttestationDataRoot(h, data);
    SignatureRoot(h, signature);
    ThreeFields(h, BitList(2048), Blob(Delimited(s)), ATTESTATION_DATA, DataVal(data), Vec(96), Blob(signature));
  }

  // ------------------------------------------------------------- deposits, exits, sync

  lemma DepositRoot(h: HashFn, pubkey: Bytes, credentials: Hash, amount: u64, signature: Bytes)
    requires |pubkey| == 48 && |signature| == 96
    ensures var v := Rec(Cons(Blob(pubkey), Cons(Blob(credentials), Cons(Num(amount), Cons(Blob(signature), Nil)))));
      && Typed(DEPOSIT, v) && HashOk(DEPOSIT, v)
      && HashTreeRoot(h, DEPOSIT, v)
         == Four(h, h(pubkey[..32], Short(pubkey[32..])), credentials, Word(amount), SigRoot(h, signature))
  {
    hide HashTreeRoot, TypedAll, HashOkAll;
    Leaves();
    TwoChunkRoot(h, pubkey);
    HashRoot(h, credentials);
    NumberRoot(h, amount);
    SignatureRoot(h, signature);
    FourFields(h, Vec(48), Blob(pubkey), Vec(32), Blob(credentials), U64, Num(amount), Vec(96), Blob(signature));
  }

  lemma VoluntaryExitRoot(h: HashFn, epoch: u64, validator: u64)
    ensures var v := Rec(Cons(Num(epoch), Cons(Num(validator), Nil)));
      && Typed(VOLUNTARY_EXIT, v) && HashOk(VOLUNTARY_EXIT, v)
      && HashTreeRoot(h, VOLUNTARY_EXIT, v) == h(Word(epoch), Word(validator))
  {
    hide HashTreeRoot, TypedAll, HashOkAll;
    Leaves();
    NumberRoot(h, epoch);
    NumberRoot(h, validator);
    TwoFields(h, U64, Num(epoch), U64, Num(validator));
  }

  lemma SyncAggregateRoot(h: HashFn, bits: Bytes, signature: Bytes)
    requires |bits| == 64 && |signature| == 96
    ensures var v := Rec(Cons(Blob(bits), Cons(Blob(signature), Nil)));
      && Typed(SYNC_AGGREGATE, v) && HashOk(SYNC_AGGREGATE, v)
      && HashTreeRoot(h, SYNC_AGGREGATE, v) == h(h(bits[..32], bits[32..]), SigRoot(h, signature))
  {
    hide HashTreeRoot, TypedAll, HashOkAll;
    Leaves();
    TwoChunkRoot(h, bits);
    assert Short(bits[32..]) == bits[32..];
    SignatureRoot(h, signature);
    TwoFields(h, Vec(64), Blob(bits), Vec(96), Blob(signature));
  }

  // --------------------------------------------------------------------- payload headers

  /** Extra data of at most 32 bytes: one chunk, and the length. */
  function ExtraRoot(h: HashFn, b: Bytes): Chunk
    requires |b| <= 32
  {
    h(Short(b), Word(|b|))
  }

  lemma ExtraDataRoot(h: HashFn, b: Bytes)
    requires |b| <= 32
    ensures Typed(ByteList(2048, 1), Blob(b)) && HashOk(ByteList(2048, 1), Blob(b))
    ensures HashTreeRoot(h, ByteList(2048, 1), Blob(b)) == ExtraRoot(h, b)
  {
    hide LE;
    assert Pow2(0) == 1;
    RoomForPow2(h, Pack(b), 0);
    if b == [] {
      assert Short(b) == Zeros(32);
    }
  }

  /** Fourteen fields: a tree of height four. */
  function HeaderRoot(h: HashFn, p: PayloadHeader): Chunk
    requires |p.extraData| <= 32
  {
    h(h(Four(h, p.parentHash, Short(p.feeRecipient), p.stateRoot, p.receiptsRoot),
        Four(h, BloomRoot(h, p.logsBloom), p.random, Word(p.number), Word(p.gasLimit))),
      h(Four(h, Word(p.gasUsed), Word(p.timestamp), ExtraRoot(h, p.extraData), p.baseFee),
        Four(h, p.blockHash, p.transactionsRoot, Z, Z)))
  }

  lemma LaterHeaderRoots(h: HashFn, p: PayloadHeader)
    requires |p.extraData| <= 32
    ensures TypedAll(BLOCK_NUMBER_ON, NumberVals(p)) && HashOkAll(BLOCK_NUMBER_ON, NumberVals(p))
    ensures FieldRoots(h, BLOCK_NUMBER_ON, NumberVals(p)) ==
      [Word(p.number), Word(p.gasLimit), Word(p.gasUsed), Word(p.timestamp), ExtraRoot(h, p.extraData), p.baseFee,
       p.blockHash, p.transactionsRoot]
  {
    hide HashTreeRoot, TypedAll, HashOkAll, FieldRoots, Word, ExtraRoot;
    Leaves();
    NoFieldRoots(h);
    HashRoot(h, p.transactionsRoot);
    FieldRoot(h, Vec(32), Blob(p.transactionsRoot), End, Nil);
    HashRoot(h, p.blockHash);
    FieldRoot(h, Vec(32), Blob(p.blockHash), TX_ROOT_ON, TxRootVals(p));
    HashRoot(h, p.baseFee);
    FieldRoot(h, Vec(32), Blob(p.baseFee), BLOCK_HASH_ON, BlockHashVals(p));
    ExtraDataRoot(h, p.extraData);
    FieldRoot(h, ByteList(2048, 1), Blob(p.extraData), BASE_FEE_ON, BaseFeeVals(p));
    NumberRoot(h, p.timestamp);
    FieldRoot(h, U64, Num(p.timestamp), EXTRA_DATA_ON, ExtraDataVals(p));
    NumberRoot(h, p.gasUsed);
    FieldRoot(h, U64, Num(p.gasUsed), TIMESTAMP_ON, TimestampVals(p));
    NumberRoot(h, p.gasLimit);
    FieldRoot(h, U64, Num(p.gasLimit), GAS_USED_ON, GasUsedVals(p));
    NumberRoot(h, p.number);
    FieldRoot(h, U64, Num(p.number), GAS_LIMIT_ON, GasLimitVals(p));
  }

  lemma AllHeaderRoots(h: HashFn, p: PayloadHeader)
    requires |p.extraData| <= 32
    ensures var fs, vs := PAYLOAD_HEADER.fs, Cons(Blob(p.parentHash), FeeRecipientVals(p));
      && TypedAll(fs, vs) && HashOkAll(fs, vs)
      && FieldRoots(h, fs, vs) ==
         [p.parentHash, Short(p.feeRecipient), p.stateRoot, p.receiptsRoot, BloomRoot(h, p.logsBloom), p.random,
          Word(p.number), Word(p.gasLimit), Word(p.gasUsed), Word(p.timestamp), ExtraRoot(h, p.extraData), p.baseFee,
          p.blockHash, p.transactionsRoot]
  {
    hide HashTreeRoot, TypedAll, HashOkAll, FieldRoots, Word, ExtraRoot, BloomRoot, Short;
    Leaves();
    LaterHeaderRoots(h, p);
    HashRoot(h, p.random);
    FieldRoot(h, Vec(32), Blob(p.random), BLOCK_NUMBER_ON, NumberVals(p));
    LogsBloomRoot(h, p.logsBloom);
    FieldRoot(h, Vec(256), Blob(p.logsBloom), RANDOM_ON, RandomVals(p));
    HashRoot(h, p.receiptsRoot);
    FieldRoot(h, Vec(32), Blob(p.receiptsRoot), BLOOM_ON, BloomVals(p));
    HashRoot(h, p.stateRoot);
    FieldRoot(h, Vec(32), Blob(p.stateRoot), RECEIPTS_ON, ReceiptsVals(p));
    RootFormulas.ShortRoot(h, p.feeRecipient);
    FieldRoot(h, Vec(20), Blob(p.feeRecipient), STATE_ROOT_ON, StateRootVals(p));
    HashRoot(h, p.parentHash);
    FieldRoot(h, Vec(32), Blob(p.parentHash), FEE_RECIPIENT_ON, FeeRecipientVals(p));
  }

  /** The root of a payload header. */
  lemma PayloadHeaderRoot(h: HashFn, p: PayloadHeader)
    requires |p.extraData| <= 32
    ensures HashOk(PAYLOAD_HEADER, HeaderVal(p)) && HashTreeRoot(h, PAYLOAD_HEADER, HeaderVal(p)) == HeaderRoot(h, p)
  {
    hide HashTreeRoot, FieldRoots, Word, ExtraRoot, BloomRoot, Short, Tree, TypedAll, HashOkAll;
    var vs := Cons(Blob(p.parentHash), FeeRecipientVals(p));
    AllHeaderRoots(h, p);
    var leaves := FieldRoots(h, PAYLOAD_HEADER.fs, vs);
    Depths();
    ContainerRoot(h, PAYLOAD_HEADER.fs, vs, 4);
    Sixteen(h, leaves);
    Quad(h, leaves, 0);
    Quad(h, leaves, 4);
    Quad(h, leaves, 8);
    Quad(h, leaves, 12);
  }

  // ------------------------------------------------------------------------ transactions

  /** A transaction: a tree of height 25 over its chunks, and its length. */
  function TransactionRoot(h: HashFn, tx: Bytes): Chunk {
    h(Tree(h, Pack(tx), 25, 0), Word(|tx|))
  }

  function TransactionRoots(h: HashFn, txs: seq<Bytes>): seq<Chunk> {
    seq(|txs|, i requires 0 <= i < |txs| => TransactionRoot(h, txs[i]))
  }

  /** A transaction list: a tree of height 20 over their roots, and their number. */
  function ListRoot(h: HashFn, txs: seq<Bytes>): Chunk {
    h(Tree(h, TransactionRoots(h, txs), 20, 0), Word(|txs|))
  }

  predicate AllShort(txs: seq<Bytes>) {
    |txs| <= 0x10_0000 && forall i :: 0 <= i < |txs| ==> |txs[i]| <= 0x4000_0000
  }

  lemma OneTransactionRoot(h: HashFn, tx: Bytes)
    requires |tx| <= 0x4000_0000
    ensures Typed(TRANSACTION, Blob(tx)) && HashOk(TRANSACTION, Blob(tx))
    ensures HashTreeRoot(h, TRANSACTION, Blob(tx)) == TransactionRoot(h, tx)
  {
    hide LimitedRoot, Pack, LE, Tree, Pow2;
    Heights();
    RoomForPow2(h, Pack(tx), 25);
  }

  lemma {:induction false} TransactionListRoots(h: HashFn, txs: seq<Bytes>)
    requires forall i :: 0 <= i < |txs| ==> |txs[i]| <= 0x4000_0000
    ensures HashOkEach(TRANSACTION, Blobs(txs))
    ensures ElementRoots(h, TRANSACTION, Blobs(txs)) == TransactionRoots(h, txs)
  {
    hide HashTreeRoot, TransactionRoot, HashOk;
    if txs != [] {
      OneTransactionRoot(h, txs[0]);
      TransactionListRoots(h, txs[1..]);
      assert TransactionRoots(h, txs) == [TransactionRoot(h, txs[0])] + TransactionRoots(h, txs[1..]);
    }
  }

  /** A list whose elements are not numbers: the tree over their roots, and their number. */
  lemma ElementListRoot(h: HashFn, t: Ty, max: nat, xs: Vals, d: nat)
    requires !t.U64? && TypedEach(t, xs) && HashOkEach(t, xs) && Len(xs) <= max && max == Pow2(d)
    ensures Typed(List(t, max), Items(xs)) && HashOk(List(t, max), Items(xs))
    ensures HashTreeRoot(h, List(t, max), Items(xs)) == h(Tree(h, ElementRoots(h, t, xs), d, 0), Word(Len(xs)))
  {
    hide LimitedRoot, ElementRoots, LE, Tree;
    RoomForPow2(h, ElementRoots(h, t, xs), d);
  }

  lemma OneField(h: HashFn, t: Ty, v: Val)
    requires Typed(t, v) && HashOk(t, v)
    ensures var fs, vs := Field(t, End), Cons(v, Nil);
      TypedAll(fs, vs) && HashOkAll(fs, vs) && HashTreeRoot(h, Struct(fs), Rec(vs)) == HashTreeRoot(h, t, v)
  {
    hide HashTreeRoot, Typed, HashOk, FieldRoots, TypedAll, HashOkAll, Depth;
    NoFieldRoots(h);
    FieldRoot(h, t, v, End, Nil);
    Depths();
    ContainerRoot(h, Field(t, End), Cons(v, Nil), 0);
  }

  /** The transactions root in a payload header; there is one exactly within the limits. */
  lemma TransactionsRootIs(h: HashFn, txs: seq<Bytes>)
    ensures Payload.TransactionsRoot(h, txs) == if AllShort(txs) then Some(ListRoot(h, txs)) else None
  {
    hide HashTreeRoot, Tree, TransactionRoots, TransactionRoot, ElementRoots;
    if AllShort(txs) {
      Heights();
      TransactionListRoots(h, txs);
      ElementListRoot(h, TRANSACTION, 0x10_0000, Blobs(txs), 20);
      OneField(h, TRANSACTION_LIST, Items(Blobs(txs)));
    } else {
      LongIsNotHashable(txs);
      assert HashOkAll(TRANSACTIONS.fs, TxsVal(txs).fs) ==> HashOk(TRANSACTION_LIST, Items(Blobs(txs)));
    }
  }

  lemma {:induction false} LongIsNotHashable(txs: seq<Bytes>)
    ensures HashOkEach(TRANSACTION, Blobs(txs)) ==> forall i :: 0 <= i < |txs| ==> |txs[i]| <= 0x4000_0000
  {
    if txs != [] {
      LongIsNotHashable(txs[1..]);
      forall i | HashOkEach(TRANSACTION, Blobs(txs)) && 0 <= i < |txs| ensures |txs[i]| <= 0x4000_0000 {
        if i == 0 {
          assert HashOk(TRANSACTION, Blobs(txs).v);
        } else {
          assert txs[i] == txs[1..][i - 1];
        }
      }
    }
  }

  // ------------------------------------------------------------- signed messages, domains

  /** What is signed: the root of the object, then the domain. */
  lemma SigningDataRoot(h: HashFn, root: Hash, domain: Bytes32)
    ensures HashTreeRoot(h, SIGNING_DATA, Signing.SigningData(root, domain)) == h(root, domain)
  {
    hide HashTreeRoot, TypedAll, HashOkAll;
    Leaves();
    HashRoot(h, root);
    HashRoot(h, domain);
    TwoFields(h, Vec(32), Blob(root), Vec(32), Blob(domain));
  }

  /** A domain: the type, then the first 28 bytes of the hash of the version and the root. */
  lemma DomainIs(h: HashFn, dt: Signing.DomainType, version: nat, validators: Option<Hash>)
    ensures var root := if validators.None? then Zeros(32) else validators.value;
      Signing.Domain(h, dt, version, validators) == dt + h(LE(version, 4) + Zeros(28), root)[..28]
  {
    hide HashTreeRoot, TypedAll, HashOkAll, LE;
    var root := if validators.None? then Zeros(32) else validators.value;
    Leaves();
    RootFormulas.ShortRoot(h, LE(version, 4));
    HashRoot(h, root);
    TwoFields(h, Vec(4), Blob(LE(version, 4)), Vec(32), Blob(root));
  }

  function RegistrationRoot(h: HashFn, r: Relay.Registration): Chunk {
    Four(h, Short(r.feeRecipient), Word(r.gasLimit), Word(r.timestamp), h(r.pubkey[..32], Short(r.pubkey[32..])))
  }

  lemma RegistrationRootIs(h: HashFn, r: Relay.Registration)
    ensures HashTreeRoot(h, REGISTRATION, Relay.RegistrationVal(r)) == RegistrationRoot(h, r)
  {
    hide HashTreeRoot, TypedAll, HashOkAll;
    Leaves();
    RootFormulas.ShortRoot(h, r.feeRecipient);
    NumberRoot(h, r.gasLimit);
    NumberRoot(h, r.timestamp);
    TwoChunkRoot(h, r.pubkey);
    FourFields(h, Vec(20), Blob(r.feeRecipient), U64, Num(r.gasLimit), U64, Num(r.timestamp), Vec(48), Blob(r.pubkey));
  }

  /** The domain of registrations and bids, and that of proposals. */
  function BuilderDomainBytes(h: HashFn): Bytes {
    [0, 0, 0, 1] + h(Zeros(32), Zeros(32))[..28]
  }

  function ProposerDomainBytes(h: HashFn, validators: Hash): Bytes {
    [0, 0, 0, 0] + h([2] + Zeros(31), validators)[..28]
  }

  lemma DomainsAre(c: Relay.Config)
    ensures Relay.BuilderDomain(c) == BuilderDomainBytes(c.h)
    ensures Relay.ProposerDomain(c) == ProposerDomainBytes(c.h, c.validators)
  {
    DomainIs(c.h, Signing.DOMAIN_TYPE_APP_BUILDER, 0, None);
    DomainIs(c.h, Signing.DOMAIN_TYPE_BEACON_PROPOSER, 2, Some(c.validators));
    assert LE(0, 0) == [] && LE(0, 1) == [0] && LE(0, 2) == [0, 0] && LE(0, 3) == [0, 0, 0];
    assert LE(0, 4) + Zeros(28) == Zeros(32) && LE(2, 4) + Zeros(28) == [2] + Zeros(31);
  }

  /** A registration counts as signed when its own key verifies exactly this message. */
  lemma SignedMeans(c: Relay.Config, s: Relay.SignedRegistration)
    ensures |BuilderDomainBytes(c.h)| == 32
    ensures Relay.IsSigned(c, s)
       <==> c.verify(s.message.pubkey, c.h(RegistrationRoot(c.h, s.message), BuilderDomainBytes(c.h)), s.signature)
  {
    hide HashTreeRoot, Relay.RegistrationVal;
    DomainsAre(c);
    RegistrationRootIs(c.h, s.message);
    SigningDataRoot(c.h, RegistrationRoot(c.h, s.message), Relay.BuilderDomain(c));
  }

  /** A proposal counts as signed when it can be hashed and the key verifies this message. */
  lemma ProposalMeans(c: Relay.Config, key: Relay.PublicKey, block: Val, signature: Relay.Signature)
    requires Typed(BLINDED_BLOCK, block)
    ensures |ProposerDomainBytes(c.h, c.validators)| == 32
    ensures Relay.IsProposal(c, key, block, signature)
       <==> HashOk(BLINDED_BLOCK, block)
            && c.verify(key, c.h(HashTreeRoot(c.h, BLINDED_BLOCK, block), ProposerDomainBytes(c.h, c.validators)),
              signature)
  {
    hide HashTreeRoot, Typed, HashOk;
    DomainsAre(c);
    if HashOk(BLINDED_BLOCK, block) {
      SigningDataRoot(c.h, HashTreeRoot(c.h, BLINDED_BLOCK, block), Relay.ProposerDomain(c));
    }
  }

  /** The message a bid is signed over. */
  lemma BidMessageIs(c: Relay.Config, header: PayloadHeader)
    requires |header.extraData| <= 32
    ensures |BuilderDomainBytes(c.h)| == 32
    ensures Relay.BidMessage(c, header) == Some(c.h(
      Four(c.h, HeaderRoot(c.h, header), [1] + Zeros(31), c.h(c.pk[..32], Short(c.pk[32..])), Z),
      BuilderDomainBytes(c.h)))
  {
    hide HashTreeRoot, TypedAll, HashOkAll, HeaderVal, HeaderRoot;
    Leaves();
    DomainsAre(c);
    PayloadHeaderRoot(c.h, header);
    HashRoot(c.h, Relay.BID_VALUE);
    TwoChunkRoot(c.h, c.pk);
    ThreeFields(c.h, PAYLOAD_HEADER, HeaderVal(header), Vec(32), Blob(Relay.BID_VALUE), Vec(48), Blob(c.pk));
    SigningDataRoot(c.h, HashTreeRoot(c.h, BUILDER_BID, Relay.BidVal(header, c.pk)), Relay.BuilderDomain(c));
  }

  // ------------------------------------------------------------------------------ blocks

  /** A list of containers: a tree over their roots, and their number. */
  function ElementsRoot(h: HashFn, t: Ty, xs: Vals, d: nat): Chunk
    requires TypedEach(t, xs) && HashOkEach(t, xs)
  {
    h(Tree(h, ElementRoots(h, t, xs), d, 0), Word(Len(xs)))
  }

  /** A body whose lists are within their limits and whose elements can be hashed. */
  predicate BodyHashable(b: BlindedBody.Body) {
    && BlindedBody.BodyOk(b)
    && Len(b.proposers) <= 16 && HashOkEach(PROPOSER_SLASHING, b.proposers)
    && Len(b.attesters) <= 2 && HashOkEach(ATTESTER_SLASHING, b.attesters)
    && Len(b.attestations) <= 128 && HashOkEach(ATTESTATION, b.attestations)
    && Len(b.deposits) <= 16 && HashOkEach(DEPOSIT, b.deposits)
    && Len(b.exits) <= 16 && HashOkEach(VOLUNTARY_EXIT, b.exits)
    && HashOk(PAYLOAD_HEADER, b.header)
  }

  /** Ten fields: a tree of height four. The lists have heights 4, 1, 7, 4 and 4. */
  function BodyRoot(h: HashFn, b: BlindedBody.Body): Chunk
    requires BodyHashable(b) && HashOk(ETH1_DATA, b.eth1) && HashOk(SYNC_AGGREGATE, b.sync)
  {
    h(h(Four(h, SigRoot(h, b.randao), HashTreeRoot(h, ETH1_DATA, b.eth1), b.graffiti,
             ElementsRoot(h, PROPOSER_SLASHING, b.proposers, 4)),
        Four(h, ElementsRoot(h, ATTESTER_SLASHING, b.attesters, 1), ElementsRoot(h, ATTESTATION, b.attestations, 7),
             ElementsRoot(h, DEPOSIT, b.deposits, 4), ElementsRoot(h, VOLUNTARY_EXIT, b.exits, 4))),
      h(Four(h, HashTreeRoot(h, SYNC_AGGREGATE, b.sync), HashTreeRoot(h, PAYLOAD_HEADER, b.header), Z, Z),
        Four(h, Z, Z, Z, Z)))
  }

  lemma FixedPartsHashable(b: BlindedBody.Body)
    requires BlindedBody.BodyOk(b)
    ensures HashOk(ETH1_DATA, b.eth1) && HashOk(SYNC_AGGREGATE, b.sync)
  {
    FixedSizes();
    FixedIsHashable(ETH1_DATA, b.eth1);
    FixedIsHashable(SYNC_AGGREGATE, b.sync);
  }

  lemma LaterBodyRoots(h: HashFn, b: BlindedBody.Body)
    requires BodyHashable(b) && HashOk(SYNC_AGGREGATE, b.sync)
    ensures var fs, vs := SLASHINGS_ON, BlindedBody.SlashingVals(b);
      && TypedAll(fs, vs) && HashOkAll(fs, vs)
      && FieldRoots(h, fs, vs) ==
         [ElementsRoot(h, PROPOSER_SLASHING, b.proposers, 4), ElementsRoot(h, ATTESTER_SLASHING, b.attesters, 1),
          ElementsRoot(h, ATTESTATION, b.attestations, 7), ElementsRoot(h, DEPOSIT, b.deposits, 4),
          ElementsRoot(h, VOLUNTARY_EXIT, b.exits, 4), HashTreeRoot(h, SYNC_AGGREGATE, b.sync),
          HashTreeRoot(h, PAYLOAD_HEADER, b.header)]
  {
    hide HashTreeRoot, Tree, TypedAll, HashOkAll, FieldRoots, Word, ElementRoots, HashOkEach, TypedEach, Typed, HashOk;
    Heights();
    NoFieldRoots(h);
    FieldRoot(h, PAYLOAD_HEADER, b.header, End, Nil);
    FieldRoot(h, SYNC_AGGREGATE, b.sync, HEADER_ON, BlindedBody.HeaderVals(b));
    ElementListRoot(h, VOLUNTARY_EXIT, 16, b.exits, 4);
    FieldRoot(h, VOLUNTARY_EXITS, Items(b.exits), SYNC_ON, BlindedBody.SyncVals(b));
    ElementListRoot(h, DEPOSIT, 16, b.deposits, 4);
    FieldRoot(h, DEPOSITS, Items(b.deposits), EXITS_ON, BlindedBody.ExitVals(b));
    ElementListRoot(h, ATTESTATION, 128, b.attestations, 7);
    FieldRoot(h, ATTESTATIONS, Items(b.attestations), DEPOSITS_ON, BlindedBody.DepositVals(b));
    ElementListRoot(h, ATTESTER_SLASHING, 2, b.attesters, 1);
    FieldRoot(h, ATTESTER_SLASHINGS, Items(b.attesters), ATTESTATIONS_ON, BlindedBody.AttestationVals(b));
    ElementListRoot(h, PROPOSER_SLASHING, 16, b.proposers, 4);
    FieldRoot(h, PROPOSER_SLASHINGS, Items(b.proposers), ATTESTERS_ON, BlindedBody.AttesterVals(b));
  }

  lemma BodyRootIs(h: HashFn, b: BlindedBody.Body)
    requires BodyHashable(b)
    ensures HashOk(ETH1_DATA, b.eth1) && HashOk(SYNC_AGGREGATE, b.sync)
    ensures var v := Rec(BlindedBody.BodyVals(b));
      Typed(BLINDED_BODY, v) && HashOk(BLINDED_BODY, v) && HashTreeRoot(h, BLINDED_BODY, v) == BodyRoot(h, b)
  {
    hide HashTreeRoot, TypedAll, HashOkAll, FieldRoots, ElementsRoot, SigRoot, Tree;
    FixedPartsHashable(b);
    LaterBodyRoots(h, b);
    Leaves();
    HashRoot(h, b.graffiti);
    FieldRoot(h, Vec(32), Blob(b.graffiti), SLASHINGS_ON, BlindedBody.SlashingVals(b));
    FieldRoot(h, ETH1_DATA, b.eth1, GRAFFITI_ON, BlindedBody.GraffitiVals(b));
    SignatureRoot(h, b.randao);
    FieldRoot(h, Vec(96), Blob(b.randao), ETH1_ON, BlindedBody.Eth1Vals(b));
    var leaves := FieldRoots(h, BODY_FIELDS, BlindedBody.BodyVals(b));
    Depths();
    ContainerRoot(h, BODY_FIELDS, BlindedBody.BodyVals(b), 4);
    Sixteen(h, leaves);
    Quad(h, leaves, 0);
    Quad(h, leaves, 4);
    Quad(h, leaves, 8);
    Quad(h, leaves, 12);
  }

  function BlockVal(slot: u64, proposer: u64, parent: Hash, state: Hash, b: BlindedBody.Body): Val {
    var roots := Cons(Blob(parent), Cons(Blob(state), Cons(Rec(BlindedBody.BodyVals(b)), Nil)));
    Rec(Cons(Num(slot), Cons(Num(proposer), roots)))
  }

  lemma BlockRootIs(h: HashFn, slot: u64, proposer: u64, parent: Hash, state: Hash, b: BlindedBody.Body)
    requires BodyHashable(b)
    ensures HashOk(ETH1_DATA, b.eth1) && HashOk(SYNC_AGGREGATE, b.sync)
    ensures var v := BlockVal(slot, proposer, parent, state, b);
      && Typed(BLINDED_BLOCK, v) && HashOk(BLINDED_BLOCK, v)
      && HashTreeRoot(h, BLINDED_BLOCK, v)
         == h(Four(h, Word(slot), Word(proposer), parent, state), Four(h, BodyRoot(h, b), Z, Z, Z))
  {
    hide HashTreeRoot, TypedAll, HashOkAll, BodyRoot, BodyHashable;
    Leaves();
    BodyRootIs(h, b);
    NumberRoot(h, slot);
    NumberRoot(h, proposer);
    HashRoot(h, parent);
    HashRoot(h, state);
    FiveFields(h, U64, Num(slot), U64, Num(proposer), Vec(32), Blob(parent), Vec(32), Blob(state),
               BLINDED_BODY, Rec(BlindedBody.BodyVals(b)));
  }

  lemma BlockIsTyped(slot: u64, proposer: u64, parent: Hash, state: Hash, b: BlindedBody.Body)
    requires BlindedBody.BodyOk(b)
    ensures Typed(BLINDED_BLOCK, BlockVal(slot, proposer, parent, state, b))
  {
    hide TypedAll, HashOkAll;
    Leaves();
    BlindedBody.BodyIsTyped(b);
    var body := Rec(BlindedBody.BodyVals(b));
    var last, root := Field(Vec(32), Field(BLINDED_BODY, End)), Cons(Blob(state), Cons(body, Nil));
    NothingHashable();
    TypedCons(BLINDED_BODY, body, End, Nil);
    TypedCons(Vec(32), Blob(state), Field(BLINDED_BODY, End), Cons(body, Nil));
    TypedCons(Vec(32), Blob(parent), last, root);
    TypedCons(U64, Num(proposer), Field(Vec(32), last), Cons(Blob(parent), root));
    TypedCons(U64, Num(slot), Field(U64, Field(Vec(32), last)), Cons(Num(proposer), Cons(Blob(parent), root)));
  }

  /** The relay looks a block's payload up under the parent hash of its payload header. */
  lemma ParentOfBlock(slot: u64, proposer: u64, parent: Hash, state: Hash, b: BlindedBody.Body, p: PayloadHeader)
    requires BlindedBody.BodyOk(b) && b.header == HeaderVal(p)
    ensures Typed(BLINDED_BLOCK, BlockVal(slot, proposer, parent, state, b))
    ensures Relay.ParentOf(BlockVal(slot, proposer, parent, state, b)) == p.parentHash
  {
    hide TypedAll, Nth, FieldCount, NthTy, BlindedBody.BodyVals, FeeRecipientVals;
    BlockIsTyped(slot, proposer, parent, state, b);
    HeaderPosition();
    FifthField(Num(slot), Num(proposer), Blob(parent), Blob(state), Rec(BlindedBody.BodyVals(b)));
    TenthField(b);
    FirstField(Vec(32), FEE_RECIPIENT_ON, Blob(p.parentHash), FeeRecipientVals(p));
  }

  lemma NextField(t: Ty, rest: Tys, v: Val, vs: Vals, n: nat)
    requires TypedAll(Field(t, rest), Cons(v, vs)) && n < FieldCount(rest)
    ensures TypedAll(rest, vs) && n + 1 < FieldCount(Field(t, rest))
    ensures Nth(Field(t, rest), Cons(v, vs), n + 1) == Nth(rest, vs, n)
  {
  }

  lemma FirstField(t: Ty, rest: Tys, v: Val, vs: Vals)
    requires TypedAll(Field(t, rest), Cons(v, vs))
    ensures FieldCount(Field(t, rest)) > 0 && Nth(Field(t, rest), Cons(v, vs), 0) == v
  {
  }

  lemma FifthField(slot: Val, proposer: Val, parent: Val, state: Val, body: Val)
    requires TypedAll(BLINDED_BLOCK.fs, Cons(slot, Cons(proposer, Cons(parent, Cons(state, Cons(body, Nil))))))
    requires FieldCount(BLINDED_BLOCK.fs) == 5
    ensures Nth(BLINDED_BLOCK.fs, Cons(slot, Cons(proposer, Cons(parent, Cons(state, Cons(body, Nil))))), 4) == body
  {
    hide Nth, FieldCount, TypedAll;
    var f4 := Field(BLINDED_BODY, End);
    var f3, f2 := Field(Vec(32), f4), Field(Vec(32), Field(Vec(32), f4));
    var v4 := Cons(body, Nil);
    var v3, v2 := Cons(state, v4), Cons(parent, Cons(state, v4));
    FieldsLeft(f4);
    TailTyped(U64, Field(U64, f2), slot, Cons(proposer, v2));
    TailTyped(U64, f2, proposer, v2);
    TailTyped(Vec(32), f3, parent, v3);
    TailTyped(Vec(32), f4, state, v4);
    FirstField(BLINDED_BODY, End, body, Nil);
    NextField(Vec(32), f4, state, v4, 0);
    NextField(Vec(32), f3, parent, v3, 1);
    NextField(U64, f2, proposer, v2, 2);
    NextField(U64, Field(U64, f2), slot, Cons(proposer, v2), 3);
  }

  lemma FieldsLeft(fs: Tys)
    requires fs == Field(BLINDED_BODY, End)
    ensures FieldCount(fs) == 1
  {
  }

  lemma TailTyped(t: Ty, rest: Tys, v: Val, vs: Vals)
    requires TypedAll(Field(t, rest), Cons(v, vs))
    ensures TypedAll(rest, vs)
  {
  }

  lemma TenthField(b: BlindedBody.Body)
    requires BlindedBody.BodyOk(b) && FieldCount(BODY_FIELDS) == 10
    ensures TypedAll(BODY_FIELDS, BlindedBody.BodyVals(b))
    ensures Nth(BODY_FIELDS, BlindedBody.BodyVals(b), 9) == b.header
  {
    hide Typed, TypedAll, Nth, FieldCount;
    BlindedBody.BodyIsTyped(b);
    BlindedBody.TypedFromSlashings(b);
    LastFieldsLeft();
    FirstField(PAYLOAD_HEADER, End, b.header, Nil);
    NextField(SYNC_AGGREGATE, HEADER_ON, b.sync, BlindedBody.HeaderVals(b), 0);
    NextField(VOLUNTARY_EXITS, SYNC_ON, Items(b.exits), BlindedBody.SyncVals(b), 1);
    NextField(DEPOSITS, EXITS_ON, Items(b.deposits), BlindedBody.ExitVals(b), 2);
    NextField(ATTESTATIONS, DEPOSITS_ON, Items(b.attestations), BlindedBody.DepositVals(b), 3);
    NextField(ATTESTER_SLASHINGS, ATTESTATIONS_ON, Items(b.attesters), BlindedBody.AttestationVals(b), 4);
    NextField(PROPOSER_SLASHINGS, ATTESTERS_ON, Items(b.proposers), BlindedBody.AttesterVals(b), 5);
    NextField(Vec(32), SLASHINGS_ON, Blob(b.graffiti), BlindedBody.SlashingVals(b), 6);
    NextField(ETH1_DATA, GRAFFITI_ON, b.eth1, BlindedBody.GraffitiVals(b), 7);
    NextField(Vec(96), ETH1_ON, Blob(b.randao), BlindedBody.Eth1Vals(b), 8);
  }

  lemma LastFieldsLeft()
    ensures FieldCount(HEADER_ON) == 1
  {
  }
}
