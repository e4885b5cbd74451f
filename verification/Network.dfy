/** The consensus node and the engine, talking over a network that may lose, repeat and
    reorder messages. */
module Network {
  import opened ByteCodec
  import opened Payload
  import opened Chain
  import opened MockChain
  import opened Engine
  import EngineRuns

  const BAD_HASH: Hash := Zeros(28) + [0xde, 0xad, 0xbe, 0xef]

  /** `calls` are what the consensus node ever sent, `replies` the payloads that the engine
      ever answered with. A call can be carried out any number of times, or never. */
  datatype Net = Net(cl: Store, el: EngineState, calls: set<Op>, replies: set<ExecutionPayload>)

  datatype Step =
    | ExternalBlock(plan: Plan)
    | SendBadHash(parent: Hash, timestamp: u64)
    | Call(op: Op)
    | Deliver(op: Op)
    | Propose(payload: ExecutionPayload, expected: u64)

  function Start(w: World): Net {
    Net(Init(w).store, Init(w), {}, {})
  }

  /** The made-up payload of a bad-hash slot: the head's own number, gas limit and base fee. */
  function BadPayload(head: Header, parent: Hash, timestamp: u64): ExecutionPayload {
    ExecutionPayload(parent, Zeros(20), ZERO_HASH, ZERO_HASH, Zeros(256), ZERO_HASH, head.number % TWO64,
                     head.gasLimit, 0, timestamp, [], head.baseFee, BAD_HASH, [])
  }

  /** No different block with the same hash is stored. */
  predicate NoClash(w: World, store: Store, b: Block) {
    w.hash(b.header) in store ==> store[w.hash(b.header)] == b
  }

  /** When a step can happen, on the assumption that no two headers met in the run have the
      same hash and none hashes to the bad one. */
  predicate Enabled(w: World, n: Net, step: Step) {
    match step
    case ExternalBlock(plan) =>
      var b := Build(w, n.cl, plan);
      |plan.extra| <= 32 && plan.uncles == [] && b.Some? && NoClash(w, n.cl, b.value)
    case SendBadHash(parent, t) =>
      parent in n.cl && !HashIsValid(w, BadPayload(n.cl[parent].header, parent, t))
    case Call(op) => !op.NewPayload?
    case Deliver(op) => op in n.calls
    case Propose(p, _) =>
      var b := Process(w, n.cl, p);
      p in n.replies && (b.Some? ==> NoClash(w, n.cl, b.value))
  }

  function Take(w: World, n: Net, step: Step): Net {
    match step
    case ExternalBlock(plan) =>
      var b := Build(w, n.cl, plan);
      var p := if b.None? then None else BlockToPayload(w, b.value);
      if b.None? || p.None? then n
      else n.(cl := Insert(w, n.cl, b.value), calls := n.calls + {NewPayload(p.value)})
    case SendBadHash(parent, t) =>
      if parent !in n.cl then n
      else n.(calls := n.calls + {NewPayload(BadPayload(n.cl[parent].header, parent, t))})
    case Call(op) => n.(calls := n.calls + {op})
    case Deliver(op) =>
      var (el, answer) := Do(w, n.el, op);
      n.(el := el, replies := n.replies + if answer.Found? && answer.payload.Some? then {answer.payload.value} else {})
    case Propose(p, expected) =>
      var b := Process(w, n.cl, p);
      if p.timestamp != expected || b.None? then n
      else n.(cl := Insert(w, n.cl, b.value), calls := n.calls + {NewPayload(p)})
  }

  // ---------------------------------------------------------------- the invariant

  /** Every block but the genesis block has its parent. */
  predicate ParentClosed(w: World, store: Store) {
    forall k :: k in store && k != w.hash(w.genesis.header) ==> store[k].header.parentHash in store
  }

  predicate Within(a: Store, b: Store) {
    forall k :: k in a ==> k in b && b[k] == a[k]
  }

  /** A payload that `store` can re-execute. */
  predicate Executable(w: World, store: Store, p: ExecutionPayload) {
    p.parentHash in store && |p.extraData| <= 32 && Process(w, store, p).Some?
  }

  /** A payload of the engine's own making: executable, and with a hash that checks out while
      block numbers fit in 64 bits. */
  predicate Genuine(w: World, store: Store, p: ExecutionPayload) {
    Executable(w, store, p) && (store[p.parentHash].header.number + 1 < TWO64 ==> HashIsValid(w, p))
  }

  /** A call that brings the engine nothing the consensus node does not have. */
  predicate Harmless(w: World, cl: Store, op: Op) {
    op.NewPayload? ==>
      (!HashIsValid(w, op.payload)
       || (Executable(w, cl, op.payload) && op.payload.blockHash in cl
           && Process(w, cl, op.payload).value == cl[op.payload.blockHash]))
  }

  ghost predicate CacheGenuine(w: World, s: EngineState) {
    forall k :: k in s.recent.items ==> Genuine(w, s.store, s.recent.items[k])
  }

  ghost predicate Inv(w: World, n: Net) {
    && Keyed(w, n.cl) && Keyed(w, n.el.store)
    && ParentClosed(w, n.cl) && ParentClosed(w, n.el.store)
    && Within(n.el.store, n.cl)
    && (forall op :: op in n.calls ==> Harmless(w, n.cl, op))
    && (forall p :: p in n.replies ==> Genuine(w, n.el.store, p))
    && CacheGenuine(w, n.el)
  }

  lemma StartsInvariant(w: World)
    ensures Inv(w, Start(w))
  {
  }

  // ------------------------------------------------------------- what is monotone

  /** Re-execution looks at the store only for the parent. */
  lemma ProcessDependsOnParent(w: World, a: Store, b: Store, p: ExecutionPayload)
    requires p.parentHash in a && p.parentHash in b && a[p.parentHash] == b[p.parentHash]
    ensures Process(w, a, p) == Process(w, b, p)
  {
  }

  lemma ExecutableGrows(w: World, a: Store, b: Store, p: ExecutionPayload)
    requires Within(a, b) && Executable(w, a, p)
    ensures Executable(w, b, p) && Process(w, b, p) == Process(w, a, p)
  {
    hide Process;
    ProcessDependsOnParent(w, a, b, p);
  }

  lemma GenuineGrows(w: World, a: Store, b: Store, p: ExecutionPayload)
    requires Within(a, b) && Genuine(w, a, p)
    ensures Genuine(w, b, p)
  {
    hide Process, HashIsValid;
    ExecutableGrows(w, a, b, p);
  }

  lemma HarmlessGrows(w: World, a: Store, b: Store, op: Op)
    requires Within(a, b) && Harmless(w, a, op)
    ensures Harmless(w, b, op)
  {
    hide Process, HashIsValid;
    if op.NewPayload? && HashIsValid(w, op.payload) {
      ExecutableGrows(w, a, b, op.payload);
    }
  }

  /** The block a payload re-executes to has the payload's parent and hash. */
  lemma ProcessedBlock(w: World, store: Store, p: ExecutionPayload)
    requires Keyed(w, store) && Process(w, store, p).Some?
    ensures var b := Process(w, store, p).value;
      w.hash(b.header) == p.blockHash && b.header.parentHash == p.parentHash && p.parentHash in store
  {
  }

  /** The payload of a built block re-executes to that block. */
  lemma BuiltIsExecutable(w: World, store: Store, plan: Plan)
    requires Lawful(w) && Keyed(w, store) && |plan.extra| <= 32 && plan.uncles == []
    requires Build(w, store, plan).Some?
    ensures var b := Build(w, store, plan).value;
      && b.header.parentHash == plan.parentHash && b.header.extra == plan.extra
      && var p := BlockToPayload(w, b).value;
      && Executable(w, store, p) && Process(w, store, p) == Some(b) && p.blockHash == w.hash(b.header)
  {
    hide Encoded, Decoded, Run, Lawful;
    var b, parent := Build(w, store, plan).value, store[plan.parentHash].header;
    var env := PlanHeader(w, parent, plan);
    var p := BlockToPayload(w, b).value;
    DecodeEncoded(w, plan.txs);
    GasConserved(w, env, Chain.Start(w, parent, env), plan.txs);
    assert PayloadEnv(w, parent, p) == env;
  }

  // ---------------------------------------------------------------- preservation

  /** Storing a block with a known parent in the consensus node, and announcing it. */
  lemma ConsensusInsert(w: World, n: Net, b: Block, p: ExecutionPayload)
    requires Inv(w, n) && NoClash(w, n.cl, b)
    requires Executable(w, n.cl, p) && Process(w, n.cl, p) == Some(b)
    ensures Inv(w, n.(cl := Insert(w, n.cl, b), calls := n.calls + {NewPayload(p)}))
  {
    hide Process, HashIsValid;
    var cl := Insert(w, n.cl, b);
    ProcessedBlock(w, n.cl, p);
    assert Within(n.cl, cl);
    ExecutableGrows(w, n.cl, cl, p);
    forall op | op in n.calls ensures Harmless(w, cl, op) {
      HarmlessGrows(w, n.cl, cl, op);
    }
  }

  /** A payload the engine finds VALID is already a block of the consensus node. */
  lemma EngineInsert(w: World, n: Net, p: ExecutionPayload)
    requires Inv(w, n) && NewPayload(p) in n.calls && Judge(w, n.el.store, p) == Valid
    ensures Inv(w, n.(el := Do(w, n.el, NewPayload(p)).0))
  {
    hide Process, HashIsValid;
    var b, store := Process(w, n.el.store, p).value, Insert(w, n.el.store, Process(w, n.el.store, p).value);
    assert Harmless(w, n.cl, NewPayload(p));
    ProcessDependsOnParent(w, n.el.store, n.cl, p);
    ProcessedBlock(w, n.el.store, p);
    assert Within(n.el.store, store);
    forall q | q in n.replies ensures Genuine(w, store, q) {
      GenuineGrows(w, n.el.store, store, q);
    }
    forall k | k in n.el.recent.items ensures Genuine(w, store, n.el.recent.items[k]) {
      GenuineGrows(w, n.el.store, store, n.el.recent.items[k]);
    }
  }

  lemma PreparedIsExecutable(w: World, store: Store, head: Hash, a: Attributes)
    requires Lawful(w) && Keyed(w, store) && Prepared(w, store, head, a).Some?
    ensures Executable(w, store, Prepared(w, store, head, a).value)
  {
    BuiltIsExecutable(w, store, BuildPlan(w, head, a));
  }

  lemma PreparedIsGenuine(w: World, store: Store, head: Hash, a: Attributes)
    requires Lawful(w) && Keyed(w, store) && Prepared(w, store, head, a).Some?
    ensures Genuine(w, store, Prepared(w, store, head, a).value)
  {
    hide Process, Run, Lawful, Encoded, Decoded;
    var plan := BuildPlan(w, head, a);
    PreparedIsExecutable(w, store, head, a);
    DecodeEncoded(w, []);
    var b := Build(w, store, plan).value;
    if b.header.number < TWO64 {
      assert ClaimedHeader(w, BlockToPayload(w, b).value, []) == b.header;
    }
  }

  lemma DeliverKeepsInv(w: World, n: Net, op: Op)
    requires Lawful(w) && Inv(w, n) && op in n.calls
    ensures Inv(w, Take(w, n, Deliver(op)))
  {
    hide Process, HashIsValid, Build, Prepared, Lawful, Judge, Harmless, Genuine;
    if op.NewPayload? {
      if Judge(w, n.el.store, op.payload) == Valid {
        EngineInsert(w, n, op.payload);
      }
    } else if op.ForkchoiceUpdated? && op.attributes.Some? {
      if Prepared(w, n.el.store, op.head, op.attributes.value).Some? {
        PreparedIsGenuine(w, n.el.store, op.head, op.attributes.value);
      }
    }
  }

  lemma StepKeepsInv(w: World, n: Net, step: Step)
    requires Lawful(w) && Inv(w, n) && Enabled(w, n, step)
    ensures Inv(w, Take(w, n, step))
  {
    hide Process, HashIsValid, Build, Lawful, Executable, Do;
    match step
    case ExternalBlock(plan) =>
      BuiltIsExecutable(w, n.cl, plan);
      var b := Build(w, n.cl, plan).value;
      ConsensusInsert(w, n, b, BlockToPayload(w, b).value);
    case SendBadHash(_, _) =>
    case Call(_) =>
    case Deliver(op) => DeliverKeepsInv(w, n, op);
    case Propose(p, expected) =>
      ExecutableGrows(w, n.el.store, n.cl, p);
      if p.timestamp == expected && Process(w, n.cl, p).Some? {
        ConsensusInsert(w, n, Process(w, n.cl, p).value, p);
      }
  }

  // ------------------------------------------------------------------------- runs

  function After(w: World, steps: seq<Step>): Net {
    if steps == [] then Start(w) else Take(w, After(w, steps[..|steps| - 1]), steps[|steps| - 1])
  }

  predicate IsRun(w: World, steps: seq<Step>) {
    forall i :: 0 <= i < |steps| ==> Enabled(w, After(w, steps[..i]), steps[i])
  }

  lemma {:induction false} RunKeepsInv(w: World, steps: seq<Step>)
    requires Lawful(w) && IsRun(w, steps)
    ensures Inv(w, After(w, steps))
  {
    hide Inv, Take, Enabled, Lawful;
    if steps == [] {
      StartsInvariant(w);
    } else {
      var n := |steps| - 1;
      var front := steps[..n];
      forall i | 0 <= i < n ensures Enabled(w, After(w, front[..i]), front[i]) {
        assert front[..i] == steps[..i];
      }
      RunKeepsInv(w, front);
      StepKeepsInv(w, After(w, front), steps[n]);
    }
  }

  /** Two-node safety: in every run the engine's store is a parent-closed part of the
      consensus node's. */
  lemma EngineStoreIsContained(w: World, steps: seq<Step>)
    requires Lawful(w) && IsRun(w, steps)
    ensures var n := After(w, steps);
      Within(n.el.store, n.cl) && ParentClosed(w, n.el.store) && ParentClosed(w, n.cl)
  {
    RunKeepsInv(w, steps);
  }

  /** A payload fetched from the engine that passes the timestamp check is never rejected by
      the consensus node, which stores the block the payload names. */
  lemma FetchedIsNeverRejected(w: World, steps: seq<Step>, p: ExecutionPayload)
    requires Lawful(w) && IsRun(w, steps) && p in After(w, steps).replies
    ensures var n := After(w, steps);
      && Process(w, n.cl, p).Some?
      && p.blockHash in Take(w, n, Propose(p, p.timestamp)).cl
      && NewPayload(p) in Take(w, n, Propose(p, p.timestamp)).calls
  {
    hide Process, Do, IsRun;
    RunKeepsInv(w, steps);
    var n := After(w, steps);
    ExecutableGrows(w, n.el.store, n.cl, p);
    ProcessedBlock(w, n.cl, p);
  }

  lemma {:induction false} RepliesStay(w: World, steps: seq<Step>, k: nat, p: ExecutionPayload)
    requires k <= |steps| && p in After(w, steps[..k]).replies
    ensures p in After(w, steps).replies
  {
    hide Do, Process, Build, Insert, BlockToPayload;
    if k == |steps| {
      assert steps[..k] == steps;
    } else {
      var front := steps[..|steps| - 1];
      assert front[..k] == steps[..k];
      RepliesStay(w, front, k, p);
    }
  }

  /** The engine's answer when a payload it built comes back, at any later point of any run:
      VALID exactly when the parent's own difficulty reaches the terminal one, and
      INVALID_TERMINAL_BLOCK otherwise. */
  lemma AnswerToFetched(w: World, steps: seq<Step>, k: nat, p: ExecutionPayload)
    requires Lawful(w) && IsRun(w, steps) && k <= |steps| && p in After(w, steps[..k]).replies
    ensures var el := After(w, steps).el;
      && p.parentHash in el.store
      && var parent := el.store[p.parentHash].header;
      parent.number + 1 < TWO64 ==>
        Do(w, el, NewPayload(p)).1 == Judged(if w.ttd <= parent.difficulty then Valid else InvalidTerminalBlock)
  {
    hide Process, HashIsValid, IsRun, Lawful;
    RepliesStay(w, steps, k, p);
    RunKeepsInv(w, steps);
    assert Genuine(w, After(w, steps).el.store, p);
  }

  /** So with a positive terminal difficulty, however far the consensus node's chain grows, the
      engine never gets past one block. */
  lemma {:induction false} EngineNeverPastOneBlock(w: World, steps: seq<Step>)
    requires w.ttd > 0
    ensures Keyed(w, After(w, steps).el.store) && EngineRuns.OneBlockDeep(w, After(w, steps).el.store)
  {
    hide Do, Process, Build, Insert, BlockToPayload, Keyed, EngineRuns.OneBlockDeep;
    if steps == [] {
      EngineRuns.StartsShallow(w);
    } else {
      var n, step := After(w, steps[..|steps| - 1]), steps[|steps| - 1];
      EngineNeverPastOneBlock(w, steps[..|steps| - 1]);
      if step.Deliver? {
        EngineRuns.CallStaysShallow(w, n.el, step.op);
      }
    }
  }

  /** The made-up payload of a bad-hash slot is answered INVALID_BLOCK_HASH exactly when the
      header its fields make does not by chance have the bad hash. */
  lemma BadPayloadAnswered(w: World, s: EngineState, head: Header, parent: Hash, t: u64)
    ensures var p := BadPayload(head, parent, t);
      && p.number == head.number % 0x1_0000_0000_0000_0000 && p.gasLimit == head.gasLimit && p.gasUsed == 0
      && p.parentHash == parent && p.timestamp == t && p.baseFee == head.baseFee && p.transactions == []
      && p.blockHash == Zeros(28) + [0xde, 0xad, 0xbe, 0xef]
      && (Do(w, s, NewPayload(p)).1 == Judged(InvalidBlockHash)
          <==> w.hash(Header(parent, w.uncleRoot([]), Zeros(20), Zeros(32), w.txRoot([]), Zeros(32), Zeros(256), 0,
                             p.number, head.gasLimit, 0, t, [], Zeros(32), head.baseFee)) != p.blockHash)
  {
    hide Process;
    assert Decoded(w, []) == Some([]);
  }
}
