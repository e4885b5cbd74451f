/** The execution engine of engine.go: payload ids, the payload cache and the block store,
    as a step function, and what holds over every run of it. */
module Engine {
  import opened ByteCodec
  import opened Payload
  import opened Chain
  import opened MockChain
  import Lru
  import U256

  const CACHE_SIZE: nat := 10

  type PayloadId = b: Bytes | |b| == 8 witness seq(8, _ => 0)

  /** The cache is keyed by values of two different types. */
  datatype Key = Id(id: PayloadId) | Parent(hash: Hash)

  datatype Attributes = Attributes(timestamp: u64, random: Hash, feeRecipient: Address)

  datatype Op =
    | ForkchoiceUpdated(head: Hash, attributes: Option<Attributes>)
    | NewPayload(payload: ExecutionPayload)
    | GetPayload(id: PayloadId)
    | GetByParent(parent: Hash)

  datatype Status = Valid | InvalidBlockHash | Syncing | InvalidTerminalBlock | ExecutionFailed

  datatype Answer =
    | Updated(id: Option<PayloadId>)
    | BuildFailed
    | Judged(status: Status)
    | Found(payload: Option<ExecutionPayload>)

  type PayloadCache = Lru.Cache<Key, ExecutionPayload>

  datatype EngineState = EngineState(store: Store, counter: u64, recent: PayloadCache)

  function Init(w: World): EngineState {
    EngineState(map[w.hash(w.genesis.header) := w.genesis], 0, Lru.Cache([], map[]))
  }

  /** The counter in big-endian order. */
  function IdOf(n: nat): PayloadId {
    U256.Reversed(LE(n, 8))
  }

  lemma IdsDiffer(m: u64, n: u64)
    ensures IdOf(m) == IdOf(n) ==> m == n
  {
    U256.ReversedTwice(LE(m, 8));
    U256.ReversedTwice(LE(n, 8));
    WordRoundTrip(m);
    WordRoundTrip(n);
  }

  /** The empty block that a forkchoice update with attributes asks for. */
  function BuildPlan(w: World, head: Hash, a: Attributes): Plan {
    Plan(head, a.feeRecipient, a.timestamp, w.genesis.header.gasLimit, [], a.random, [], [])
  }

  function Next(counter: u64): u64 {
    (counter + 1) % TWO64
  }

  /** The payload that forkchoice update would store; none when building fails. */
  function Prepared(w: World, store: Store, head: Hash, a: Attributes): Option<ExecutionPayload> {
    var b := Build(w, store, BuildPlan(w, head, a));
    if b.None? then None else BlockToPayload(w, b.value)
  }

  function Remember(recent: PayloadCache, id: PayloadId, p: ExecutionPayload): PayloadCache {
    Lru.Add(Lru.Add(recent, CACHE_SIZE, Id(id), p), CACHE_SIZE, Parent(p.parentHash), p)
  }

  /** What NewPayloadV1 answers; the terminal check looks at the parent's own difficulty. */
  function Judge(w: World, store: Store, p: ExecutionPayload): Status {
    if !HashIsValid(w, p) then InvalidBlockHash
    else if p.parentHash !in store then Syncing
    else if store[p.parentHash].header.difficulty < w.ttd then InvalidTerminalBlock
    else if Process(w, store, p).Some? then Valid
    else ExecutionFailed
  }

  function Lookup(recent: PayloadCache, k: Key): Option<ExecutionPayload> {
    if k in recent.items then Some(recent.items[k]) else None
  }

  function Do(w: World, s: EngineState, op: Op): (EngineState, Answer) {
    match op
    case ForkchoiceUpdated(head, None) => (s, Updated(None))
    case ForkchoiceUpdated(head, Some(a)) =>
      var n := Next(s.counter);
      var p := Prepared(w, s.store, head, a);
      if p.None? then (s.(counter := n), BuildFailed)
      else (s.(counter := n, recent := Remember(s.recent, IdOf(n), p.value)), Updated(Some(IdOf(n))))
    case NewPayload(p) =>
      var status := Judge(w, s.store, p);
      (if status == Valid then s.(store := Insert(w, s.store, Process(w, s.store, p).value)) else s, Judged(status))
    case GetPayload(id) => (s.(recent := Lru.Get(s.recent, Id(id))), Found(Lookup(s.recent, Id(id))))
    case GetByParent(h) => (s.(recent := Lru.Get(s.recent, Parent(h))), Found(Lookup(s.recent, Parent(h))))
  }

  function After(w: World, ops: seq<Op>): EngineState {
    if ops == [] then Init(w) else Do(w, After(w, ops[..|ops| - 1]), ops[|ops| - 1]).0
  }

  function AnswerTo(w: World, ops: seq<Op>, i: nat): Answer
    requires i < |ops|
  {
    Do(w, After(w, ops[..i]), ops[i]).1
  }

  // ------------------------------------------------------------- the class

  class EngineBackend {
    const chain: MockChain
    var payloadIdCounter: u64
    var recentPayloads: PayloadCache

    ghost predicate Ready()
      reads this, chain
    {
      chain.Valid()
    }

    ghost function Abs(): EngineState
      reads this, chain
    {
      EngineState(chain.store, payloadIdCounter, recentPayloads)
    }

    constructor (chain: MockChain)
      requires chain.Valid()
      ensures Ready() && this.chain == chain
      ensures Abs() == EngineState(chain.store, 0, Lru.Cache([], map[]))
    {
      this.chain := chain;
      payloadIdCounter, recentPayloads := 0, Lru.Cache([], map[]);
    }

    method GetPayloadV1(id: PayloadId) returns (p: Option<ExecutionPayload>)
      requires Ready()
      modifies this
      ensures Ready() && (Abs(), Found(p)) == Do(chain.w, old(Abs()), GetPayload(id))
    {
      p := Lookup(recentPayloads, Id(id));
      recentPayloads := Lru.Get(recentPayloads, Id(id));
    }

    method GetPayloadByParent(parent: Hash) returns (p: Option<ExecutionPayload>)
      requires Ready()
      modifies this
      ensures Ready() && (Abs(), Found(p)) == Do(chain.w, old(Abs()), GetByParent(parent))
    {
      p := Lookup(recentPayloads, Parent(parent));
      recentPayloads := Lru.Get(recentPayloads, Parent(parent));
    }

    method NewPayloadV1(p: ExecutionPayload) returns (status: Status)
      requires Ready()
      modifies this, chain
      ensures Ready() && (Abs(), Judged(status)) == Do(chain.w, old(Abs()), NewPayload(p))
      ensures status == Valid ==> chain.head == p.blockHash
      ensures status != Valid ==> chain.head == old(chain.head)
    {
      var ok := ValidateHash(chain.w, p);
      if !ok {
        return InvalidBlockHash;
      }
      if p.parentHash !in chain.store {
        return Syncing;
      } else if chain.store[p.parentHash].header.difficulty < chain.w.ttd {
        return InvalidTerminalBlock;
      }
      var b := chain.ProcessPayload(p);
      status := if b.None? then ExecutionFailed else Valid;
    }

    method ForkchoiceUpdatedV1(head: Hash, attributes: Option<Attributes>) returns (answer: Answer)
      requires Ready()
      modifies this, chain
      ensures Ready() && (Abs(), answer) == Do(chain.w, old(Abs()), ForkchoiceUpdated(head, attributes))
      ensures chain.head == old(chain.head)
    {
      if attributes.None? {
        return Updated(None);
      }
      var a := attributes.value;
      payloadIdCounter := Next(payloadIdCounter);
      var id := IdOf(payloadIdCounter);
      var block := chain.AddNewBlock(BuildPlan(chain.w, head, a), false);
      if block.None? {
        return BuildFailed;
      }
      var payload := BlockToPayload(chain.w, block.value);
      if payload.None? {
        return BuildFailed;
      }
      recentPayloads := Lru.Add(recentPayloads, CACHE_SIZE, Id(id), payload.value);
      recentPayloads := Lru.Add(recentPayloads, CACHE_SIZE, Parent(payload.value.parentHash), payload.value);
      answer := Updated(Some(id));
    }
  }
}
