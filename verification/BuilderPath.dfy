/** A proposal over the builder: what the relay reveals can be executed by whoever has the
    parent block. */
module BuilderPath {
  import opened ByteCodec
  import opened Ssz
  import opened Schemas
  import opened Payload
  import opened Chain
  import opened Engine
  import opened Relay
  import opened RelayRuns
  import Network

  /** A payload the store can execute, whose base fee, if it has one, is recomputed then. */
  predicate Sellable(w: World, store: Store, p: ExecutionPayload) {
    && Network.Executable(w, store, p)
    && (p.baseFee.Some? ==> w.isLondon(store[p.parentHash].header.number + 1))
  }

  ghost predicate CacheIsSellable(w: World, s: EngineState) {
    Keyed(w, s.store) && forall k :: k in s.recent.items ==> Sellable(w, s.store, s.recent.items[k])
  }

  lemma SellableGrows(w: World, a: Store, b: Store, p: ExecutionPayload)
    requires Network.Within(a, b) && Sellable(w, a, p)
    ensures Sellable(w, b, p)
  {
    Network.ExecutableGrows(w, a, b, p);
  }

  lemma PreparedIsSellable(w: World, store: Store, head: Hash, a: Attributes)
    requires Lawful(w) && Keyed(w, store) && Prepared(w, store, head, a).Some?
    ensures Sellable(w, store, Prepared(w, store, head, a).value)
  {
    Network.PreparedIsExecutable(w, store, head, a);
    Network.BuiltIsExecutable(w, store, BuildPlan(w, head, a));
  }

  /** Whatever the engine is asked, its cached payloads stay sellable. */
  lemma EngineKeepsCache(w: World, s: EngineState, op: Op)
    requires Lawful(w) && CacheIsSellable(w, s)
    ensures CacheIsSellable(w, Do(w, s, op).0)
  {
    hide Process, HashIsValid, Prepared, Lawful, Sellable;
    var t := Do(w, s, op).0;
    if op.NewPayload? && Judge(w, s.store, op.payload) == Valid {
      Network.ProcessedBlock(w, s.store, op.payload);
      assert Network.Within(s.store, t.store);
      forall k | k in t.recent.items ensures Sellable(w, t.store, t.recent.items[k]) {
        SellableGrows(w, s.store, t.store, s.recent.items[k]);
      }
    } else if op.ForkchoiceUpdated? && op.attributes.Some? {
      if Prepared(w, s.store, op.head, op.attributes.value).Some? {
        PreparedIsSellable(w, s.store, op.head, op.attributes.value);
      }
    }
  }

  lemma RelayKeepsCache(c: Config, s: RelayState, op: RelayOp)
    requires Lawful(c.w) && OpTyped(op) && CacheIsSellable(c.w, s.engine)
    ensures CacheIsSellable(c.w, RelayDo(c, s, op).0.engine)
  {
    hide Do, CacheIsSellable, IsProposal, HeaderOf, RestOf, ParentOf, Taken, EnteredAll, Lawful, ReadKey, IsServed;
    hide BidMessage;
    match op
    case Register(_) =>
    case GetHeader(request) =>
      if IsServed(request) {
        EngineKeepsCache(c.w, s.engine, GetByParent(ParentAsked(request)));
      }
    case Reveal(block, _) => EngineKeepsCache(c.w, s.engine, GetByParent(ParentOf(block)));
    case EngineCall(e) => EngineKeepsCache(c.w, s.engine, e);
  }

  function RelayStart(c: Config): RelayState {
    RelayState(Init(c.w), map[], Zeros(48))
  }

  lemma {:induction false} RunKeepsCache(c: Config, ops: seq<RelayOp>)
    requires Lawful(c.w) && AllTyped(ops)
    ensures CacheIsSellable(c.w, RelayAfter(c, RelayStart(c), ops).engine)
  {
    hide RelayDo, Lawful;
    if ops != [] {
      RunKeepsCache(c, ops[..|ops| - 1]);
      RelayKeepsCache(c, RelayAfter(c, RelayStart(c), ops[..|ops| - 1]), ops[|ops| - 1]);
    }
  }

  /** Through REST and back a sellable payload executes to the same block. */
  lemma RestKeepsBlock(w: World, store: Store, p: ExecutionPayload)
    requires Keyed(w, store) && Sellable(w, store, p) && p.baseFee.Some?
    ensures Process(w, store, FromRest(ToRest(p))) == Process(w, store, p)
  {
    hide Decoded, Run;
    var parent := store[p.parentHash].header;
    assert PayloadEnv(w, parent, FromRest(ToRest(p))) == PayloadEnv(w, parent, p);
  }

  /** In every run of the relay a revealed payload, converted back, is accepted by any chain
      that has the parent block, and gives the block the payload names. */
  lemma RevealedIsAccepted(c: Config, ops: seq<RelayOp>, block: Val, signature: Signature,
                           rest: RestPayload, chain: Store)
    requires Lawful(c.w) && AllTyped(ops) && Typed(BLINDED_BLOCK, block) && Keyed(c.w, chain)
    requires var s := RelayAfter(c, RelayStart(c), ops);
      && RelayDo(c, s, Reveal(block, signature)).1 == Revealed(rest)
      && rest.parentHash in chain
      && (rest.parentHash in s.engine.store ==> chain[rest.parentHash] == s.engine.store[rest.parentHash])
    ensures var b := Process(c.w, chain, FromRest(rest));
      && b.Some? && c.w.hash(b.value.header) == rest.blockHash && b.value.header.parentHash == rest.parentHash
  {
    hide RelayDo, ParentOf, Process;
    var s := RelayAfter(c, RelayStart(c), ops);
    RunKeepsCache(c, ops);
    RevealIsCached(c, s, block, signature, rest);
    var p := s.engine.recent.items[Parent(ParentOf(block))];
    RestKeepsBlock(c.w, s.engine.store, p);
    Network.ProcessDependsOnParent(c.w, s.engine.store, chain, FromRest(rest));
    Network.ProcessedBlock(c.w, chain, FromRest(rest));
  }
}
