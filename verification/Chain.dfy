/** Building a block, re-executing a payload, and when the two agree. Execution, base
    fees, header hashes and the transaction codec are parameters with stated laws. */
module Chain {
  import opened ByteCodec
  import opened Payload

  type State(==, !new, 00)
  type Tx(==, !new, 00)
  type Receipt(==, !new, 00)

  const ZERO_HASH: Hash := Zeros(32)
  const TWO64: nat := 0x1_0000_0000_0000_0000

  datatype Header = Header(
    parentHash: Hash, uncleHash: Hash, coinbase: Address, root: Hash, txHash: Hash, receiptHash: Hash,
    bloom: Bloom, difficulty: nat, number: nat, gasLimit: u64, gasUsed: u64, time: u64,
    extra: Bytes, mixDigest: Hash, baseFee: Option<nat>)

  datatype Block = Block(header: Header, txs: seq<Tx>, uncles: seq<Header>)

  /** One applied transaction: the new state, the gas left in the pool, the gas used. */
  datatype Applied = Applied(state: State, pool: nat, used: nat, receipt: Receipt)

  /** What the chain is configured with or calls into: genesis settings, the execution
      environment, hashes and the transaction codec. */
  datatype World = World(
    genesis: Block,
    ttd: nat,
    isLondon: nat -> bool,
    calcBaseFee: Header -> nat,
    open: Hash -> State,
    apply: (State, Header, nat, nat, Tx) -> Option<Applied>,
    stateRoot: (State, nat) -> Hash,
    hash: Header -> Hash,
    txRoot: seq<Tx> -> Hash,
    receiptRoot: seq<Receipt> -> Hash,
    bloomOf: seq<Receipt> -> Bloom,
    uncleRoot: seq<Header> -> Hash,
    encode: Tx -> Bytes,
    decode: Bytes -> Option<Tx>)

  /** A transaction takes the gas it uses out of the pool, and the transaction codec is
      a bijection between transactions and the byte strings it accepts. */
  ghost predicate Lawful(w: World) {
    && (forall s, env, pool, used, tx :: w.apply(s, env, pool, used, tx).Some? ==>
          w.apply(s, env, pool, used, tx).value.pool + w.apply(s, env, pool, used, tx).value.used == pool)
    && (forall tx :: w.decode(w.encode(tx)) == Some(tx))
    && (forall b :: w.decode(b).Some? ==> w.encode(w.decode(b).value) == b)
  }

  // ------------------------------------------------------------- transactions

  function Encoded(w: World, txs: seq<Tx>): (enc: seq<Bytes>)
    ensures |enc| == |txs|
  {
    if txs == [] then [] else Encoded(w, txs[..|txs| - 1]) + [w.encode(txs[|txs| - 1])]
  }

  function Decoded(w: World, enc: seq<Bytes>): (r: Option<seq<Tx>>)
    ensures r.Some? ==> |r.value| == |enc|
  {
    if enc == [] then Some([])
    else
      var front, last := Decoded(w, enc[..|enc| - 1]), w.decode(enc[|enc| - 1]);
      if front.None? || last.None? then None else Some(front.value + [last.value])
  }

  lemma {:induction false} DecodeEncoded(w: World, txs: seq<Tx>)
    requires Lawful(w)
    ensures Decoded(w, Encoded(w, txs)) == Some(txs)
  {
    if txs != [] {
      var front, enc := txs[..|txs| - 1], Encoded(w, txs);
      DecodeEncoded(w, front);
      assert enc[..|enc| - 1] == Encoded(w, front);
      assert front + [txs[|txs| - 1]] == txs;
    }
  }

  lemma {:induction false} EncodeDecoded(w: World, enc: seq<Bytes>)
    requires Lawful(w) && Decoded(w, enc).Some?
    ensures Encoded(w, Decoded(w, enc).value) == enc
  {
    if enc != [] {
      var front, txs := enc[..|enc| - 1], Decoded(w, enc).value;
      EncodeDecoded(w, front);
      assert txs[..|txs| - 1] == Decoded(w, front).value;
      assert front + [enc[|enc| - 1]] == enc;
    }
  }

  // ---------------------------------------------------------------- execution

  /** The machine between transactions. `used` is the accumulated gas. */
  datatype Machine = Machine(state: State, pool: nat, used: nat, receipts: seq<Receipt>)

  function Start(w: World, parent: Header, env: Header): Machine {
    Machine(w.open(parent.root), env.gasLimit, 0, [])
  }

  function Step(w: World, env: Header, m: Machine, tx: Tx): Option<Machine> {
    var a := w.apply(m.state, env, m.pool, m.used, tx);
    if a.None? then None
    else Some(Machine(a.value.state, a.value.pool, m.used + a.value.used, m.receipts + [a.value.receipt]))
  }

  /** All of `txs` in order; none if any of them cannot be applied. */
  function Run(w: World, env: Header, m: Machine, txs: seq<Tx>): Option<Machine> {
    if txs == [] then Some(m)
    else
      var before := Run(w, env, m, txs[..|txs| - 1]);
      if before.None? then None else Step(w, env, before.value, txs[|txs| - 1])
  }

  lemma {:induction false} RunFails(w: World, env: Header, m: Machine, txs: seq<Tx>, k: nat)
    requires k <= |txs| && Run(w, env, m, txs[..k]).None?
    ensures Run(w, env, m, txs).None?
  {
    if k == |txs| {
      assert txs[..k] == txs;
    } else {
      var front := txs[..|txs| - 1];
      assert front[..k] == txs[..k];
      RunFails(w, env, m, front, k);
    }
  }

  /** Gas is conserved: what left the pool is what the transactions used, so the
      builder's figure (limit minus pool) is the re-executor's (accumulated use). */
  lemma {:induction false} GasConserved(w: World, env: Header, m: Machine, txs: seq<Tx>)
    requires Lawful(w) && Run(w, env, m, txs).Some?
    ensures Run(w, env, m, txs).value.pool + Run(w, env, m, txs).value.used == m.pool + m.used
  {
    if txs != [] {
      GasConserved(w, env, m, txs[..|txs| - 1]);
    }
  }

  // --------------------------------------------------- building, re-executing

  /** The header before execution. After London the base fee is computed, and at the
      boundary the gas limit is twice the parent's, in 64 bits. */
  function Pending(w: World, parent: Header, parentHash: Hash, coinbase: Address, time: u64,
                   gasLimit: u64, random: Hash, extra: Bytes, fee: Option<nat>): Header
  {
    var number := parent.number + 1;
    Header(parentHash, ZERO_HASH, coinbase, ZERO_HASH, ZERO_HASH, ZERO_HASH, Zeros(256), 0, number,
           if w.isLondon(number) && !w.isLondon(parent.number) then parent.gasLimit * 2 % TWO64 else gasLimit,
           0, time, extra, random, if w.isLondon(number) then Some(w.calcBaseFee(parent)) else fee)
  }

  /** The block around an executed header. */
  function Assemble(w: World, env: Header, m: Machine, gasUsed: u64, txs: seq<Tx>, uncles: seq<Header>): Block {
    Block(env.(root := w.stateRoot(m.state, env.number), gasUsed := gasUsed,
               txHash := w.txRoot(txs), receiptHash := w.receiptRoot(m.receipts),
               bloom := w.bloomOf(m.receipts), uncleHash := w.uncleRoot(uncles)),
          txs, uncles)
  }

  type Store = map<Hash, Block>

  predicate Keyed(w: World, store: Store) {
    forall k :: k in store ==> w.hash(store[k].header) == k
  }

  /** What the caller of AddNewBlock asks for. */
  datatype Plan = Plan(
    parentHash: Hash, coinbase: Address, timestamp: u64, gasLimit: u64, txs: seq<Tx>,
    random: Hash, extra: Bytes, uncles: seq<Header>)

  function PlanHeader(w: World, parent: Header, plan: Plan): Header {
    Pending(w, parent, plan.parentHash, plan.coinbase, plan.timestamp, plan.gasLimit, plan.random, plan.extra, None)
  }

  /** The block AddNewBlock returns, or none for its error. */
  function Build(w: World, store: Store, plan: Plan): Option<Block> {
    if plan.parentHash !in store then None
    else
      var parent := store[plan.parentHash].header;
      var env := PlanHeader(w, parent, plan);
      var m := Run(w, env, Start(w, parent, env), plan.txs);
      if m.None? then None
      else Some(Assemble(w, env, m.value, (env.gasLimit - m.value.pool) % TWO64, plan.txs, plan.uncles))
  }

  function PayloadEnv(w: World, parent: Header, p: ExecutionPayload): Header {
    Pending(w, parent, w.hash(parent), p.feeRecipient, p.timestamp, p.gasLimit, p.random, p.extraData, p.baseFee)
  }

  /** What ProcessPayload compares with the payload. The payload's number and base fee are
      covered by the block hash only. */
  predicate Matches(w: World, b: Block, p: ExecutionPayload) {
    && b.header.gasUsed == p.gasUsed
    && b.header.receiptHash == p.receiptsRoot
    && b.header.bloom == p.logsBloom
    && b.header.root == p.stateRoot
    && w.hash(b.header) == p.blockHash
  }

  /** The block ProcessPayload returns, or none for its errors. */
  function Process(w: World, store: Store, p: ExecutionPayload): Option<Block> {
    if p.parentHash !in store then None
    else
      var parent := store[p.parentHash].header;
      var env := PayloadEnv(w, parent, p);
      var txs := Decoded(w, p.transactions);
      if txs.None? then None
      else
        var m := Run(w, env, Start(w, parent, env), txs.value);
        if m.None? then None
        else
          var b := Assemble(w, env, m.value, m.value.used % TWO64, txs.value, []);
          if Matches(w, b, p) then Some(b) else None
  }

  function BlockToPayload(w: World, b: Block): (r: Option<ExecutionPayload>)
    ensures r.Some? <==> |b.header.extra| <= 32
  {
    var h := b.header;
    if |h.extra| > 32 then None
    else Some(ExecutionPayload(h.parentHash, h.coinbase, h.root, h.receiptHash, h.bloom, h.mixDigest,
                               h.number % TWO64, h.gasLimit, h.gasUsed, h.time, h.extra, h.baseFee,
                               w.hash(h), Encoded(w, b.txs)))
  }

  /** The header whose hash ValidateHash compares: taken from the payload alone. */
  function ClaimedHeader(w: World, p: ExecutionPayload, txs: seq<Tx>): Header {
    Header(p.parentHash, w.uncleRoot([]), p.feeRecipient, p.stateRoot, w.txRoot(txs), p.receiptsRoot,
           p.logsBloom, 0, p.number, p.gasLimit, p.gasUsed, p.timestamp, p.extraData, p.random, p.baseFee)
  }

  predicate HashIsValid(w: World, p: ExecutionPayload) {
    var txs := Decoded(w, p.transactions);
    txs.Some? && w.hash(ClaimedHeader(w, p, txs.value)) == p.blockHash
  }

  /** A block's payload carries its whole header, so that its hash can be checked from the
      payload alone, exactly when what the payload leaves out has its one allowed value. */
  lemma PayloadCarriesHeaderIff(w: World, b: Block)
    requires Lawful(w) && |b.header.extra| <= 32
    ensures var p, h := BlockToPayload(w, b).value, b.header;
      && Decoded(w, p.transactions) == Some(b.txs)
      && (ClaimedHeader(w, p, b.txs) == h <==>
            h.uncleHash == w.uncleRoot([]) && h.difficulty == 0 && h.txHash == w.txRoot(b.txs) && h.number < TWO64)
      && (ClaimedHeader(w, p, b.txs) == h ==> HashIsValid(w, p))
  {
    DecodeEncoded(w, b.txs);
  }

  // ----------------------------------------------------------------- agreement

  /** A built payload as it arrives at the other side: through REST and back. */
  function Sent(w: World, b: Block): (p: ExecutionPayload)
    requires |b.header.extra| <= 32 && b.header.baseFee.Some?
  {
    FromRest(ToRest(BlockToPayload(w, b).value))
  }

  predicate PostLondon(w: World, store: Store, plan: Plan) {
    plan.parentHash in store && w.isLondon(store[plan.parentHash].header.number + 1)
  }

  /** Build and re-execute from the same header, so they run the same machine. */
  lemma SamePending(w: World, store: Store, plan: Plan)
    requires Keyed(w, store) && PostLondon(w, store, plan) && |plan.extra| <= 32 && Build(w, store, plan).Some?
    ensures var b := Build(w, store, plan).value; var parent := store[plan.parentHash].header;
      && b.header.baseFee.Some? && b.header.extra == plan.extra
      && Sent(w, b).parentHash == plan.parentHash
      && PayloadEnv(w, parent, Sent(w, b)) == PlanHeader(w, parent, plan)
  {
  }

  /** Re-executing what was built, through REST and back: the result is the built block
      with an empty uncle list in its header. */
  lemma Reexecute(w: World, store: Store, plan: Plan)
    requires Lawful(w) && Keyed(w, store) && PostLondon(w, store, plan) && |plan.extra| <= 32
    requires Build(w, store, plan).Some?
    ensures var b := Build(w, store, plan).value;
      && b.header.baseFee.Some? && b.header.extra == plan.extra
      && var c := Block(b.header.(uncleHash := w.uncleRoot([])), plan.txs, []);
      Process(w, store, Sent(w, b)) == if w.hash(c.header) == w.hash(b.header) then Some(c) else None
  {
    hide Encoded, Decoded, Run, Lawful;
    SamePending(w, store, plan);
    var b, parent := Build(w, store, plan).value, store[plan.parentHash].header;
    var env := PlanHeader(w, parent, plan);
    var m := Run(w, env, Start(w, parent, env), plan.txs).value;
    DecodeEncoded(w, plan.txs);
    GasConserved(w, env, Start(w, parent, env), plan.txs);
    var c := Assemble(w, env, m, m.used % TWO64, plan.txs, []);
    assert c.header == b.header.(uncleHash := w.uncleRoot([]));
  }

  /** A block built after London without uncles is accepted unchanged by re-execution,
      whatever gas limit the caller gave at the boundary. */
  lemma BuildReexecuteAgree(w: World, store: Store, plan: Plan)
    requires Lawful(w) && Keyed(w, store) && PostLondon(w, store, plan) && |plan.extra| <= 32
    requires Build(w, store, plan).Some? && plan.uncles == []
    ensures var b := Build(w, store, plan).value;
      b.header.baseFee.Some? && b.header.extra == plan.extra && Process(w, store, Sent(w, b)) == Some(b)
  {
    Reexecute(w, store, plan);
  }

  /** With uncles: accepted exactly when their root is that of no uncles, unless the two
      headers' hashes collide. */
  lemma AgreementIffNoUncleRoot(w: World, store: Store, plan: Plan)
    requires Lawful(w) && Keyed(w, store) && PostLondon(w, store, plan) && |plan.extra| <= 32
    requires Build(w, store, plan).Some?
    requires var h := Build(w, store, plan).value.header; var g := h.(uncleHash := w.uncleRoot([]));
      w.hash(h) == w.hash(g) ==> h == g
    ensures var b := Build(w, store, plan).value;
      && b.header.baseFee.Some? && b.header.extra == plan.extra
      && (Process(w, store, Sent(w, b)).Some? <==> w.uncleRoot(plan.uncles) == w.uncleRoot([]))
  {
    Reexecute(w, store, plan);
  }

  /** The hash check passes as well when the base fee fits in 256 bits. */
  lemma BuiltHashIsValid(w: World, store: Store, plan: Plan)
    requires Lawful(w) && Keyed(w, store) && PostLondon(w, store, plan) && |plan.extra| <= 32
    requires Build(w, store, plan).Some? && plan.uncles == []
    requires w.calcBaseFee(store[plan.parentHash].header) < Pow256(32)
    requires store[plan.parentHash].header.number + 1 < TWO64
    ensures var b := Build(w, store, plan).value;
      b.header.baseFee.Some? && b.header.extra == plan.extra && HashIsValid(w, Sent(w, b))
  {
    hide Pow256, Encoded, Decoded, Run;
    SamePending(w, store, plan);
    var b := Build(w, store, plan).value;
    DecodeEncoded(w, plan.txs);
    RestRoundTrip(BlockToPayload(w, b).value);
    ModUnique(b.header.baseFee.value, Pow256(32), 0, b.header.baseFee.value);
    assert ClaimedHeader(w, Sent(w, b), plan.txs) == b.header;
  }

  /** The payload says of its block what the block is, and of execution what execution gives. */
  predicate Agrees(w: World, parent: Header, p: ExecutionPayload, b: Block) {
    var env := PayloadEnv(w, parent, p);
    var m := Run(w, env, Start(w, parent, env), b.txs);
    && b.header == ClaimedHeader(w, p, b.txs)
    && p.number == parent.number + 1
    && (w.isLondon(p.number) ==> p.baseFee == Some(w.calcBaseFee(parent)))
    && (w.isLondon(p.number) && !w.isLondon(parent.number) ==> p.gasLimit == parent.gasLimit * 2 % TWO64)
    && m.Some? && p.stateRoot == w.stateRoot(m.value.state, p.number) && p.gasUsed == m.value.used <= p.gasLimit
    && p.receiptsRoot == w.receiptRoot(m.value.receipts) && p.logsBloom == w.bloomOf(m.value.receipts)
    && (|p.extraData| <= 32 ==> BlockToPayload(w, b) == Some(p))
  }

  /** A payload that passes both the hash check and re-execution agrees in everything, unless
      the claimed and the computed header collide. */
  lemma CheckedPayloadAgrees(w: World, store: Store, p: ExecutionPayload)
    requires Lawful(w) && Keyed(w, store) && HashIsValid(w, p) && Process(w, store, p).Some?
    requires var c, h := ClaimedHeader(w, p, Decoded(w, p.transactions).value), Process(w, store, p).value.header;
      w.hash(c) == w.hash(h) ==> c == h
    ensures Agrees(w, store[p.parentHash].header, p, Process(w, store, p).value)
  {
    var b, parent := Process(w, store, p).value, store[p.parentHash].header;
    var env := PayloadEnv(w, parent, p);
    EncodeDecoded(w, p.transactions);
    GasConserved(w, env, Start(w, parent, env), b.txs);
    assert p.number % TWO64 == p.number;
  }
}
