/** What the relay offers and reveals, field by field, in every run. */
module OfferLaw {
  import opened ByteCodec
  import opened Ssz
  import opened Merkle
  import opened Schemas
  import opened Payload
  import opened Chain
  import opened MockChain
  import opened Engine
  import opened Relay
  import opened RelayRuns
  import opened RootFormulas
  import ContainerRoots
  import ExecutionLaw
  import BuilderPath
  import Network
  import U256

  /** One of the run's forkchoice updates asked for a payload like this. */
  ghost predicate Asked(ops: seq<RelayOp>, parent: Hash, timestamp: u64, random: Hash, recipient: Address) {
    EngineCall(ForkchoiceUpdated(parent, Some(Attributes(timestamp, random, recipient)))) in ops
  }

  ghost predicate WasAsked(ops: seq<RelayOp>, p: ExecutionPayload) {
    Asked(ops, p.parentHash, p.timestamp, p.random, p.feeRecipient)
  }

  predicate AsksFor(op: RelayOp, p: ExecutionPayload) {
    op == EngineCall(ForkchoiceUpdated(p.parentHash, Some(Attributes(p.timestamp, p.random, p.feeRecipient))))
  }

  /** The payload is the empty one on its parent, for its own time, randomness and recipient. */
  predicate IsOwn(w: World, store: Store, p: ExecutionPayload) {
    && p.parentHash in store
    && ExecutionLaw.IsPrepared(w, store[p.parentHash].header, p.parentHash,
                               Attributes(p.timestamp, p.random, p.feeRecipient), p)
  }

  ghost predicate CacheIsOwn(w: World, s: EngineState, ops: seq<RelayOp>) {
    && Keyed(w, s.store)
    && forall k :: k in s.recent.items ==>
         && IsOwn(w, s.store, s.recent.items[k]) && WasAsked(ops, s.recent.items[k])
         && (k.Parent? ==> s.recent.items[k].parentHash == k.hash)
  }

  lemma OwnGrows(w: World, a: Store, b: Store, p: ExecutionPayload)
    requires Network.Within(a, b) && IsOwn(w, a, p)
    ensures IsOwn(w, b, p)
  {
    hide ExecutionLaw.IsPrepared;
  }

  lemma AskedGrows(ops: seq<RelayOp>, op: RelayOp, p: ExecutionPayload)
    ensures WasAsked(ops, p) || AsksFor(op, p) ==> WasAsked(ops + [op], p)
  {
  }

  /** Whatever the engine is asked, its cache holds only payloads it was asked to build. */
  lemma EngineKeepsOwn(w: World, s: EngineState, ops: seq<RelayOp>, op: RelayOp, e: Op)
    requires CacheIsOwn(w, s, ops) && (op.EngineCall? ==> e == op.op) && (!op.EngineCall? ==> e.GetByParent?)
    ensures CacheIsOwn(w, Do(w, s, e).0, ops + [op])
  {
    hide Process, HashIsValid, Prepared, IsOwn, WasAsked, AsksFor;
    var t := Do(w, s, e).0;
    StoreGrows(w, s, e);
    forall k | k in t.recent.items
      ensures IsOwn(w, t.store, t.recent.items[k]) && WasAsked(ops + [op], t.recent.items[k])
      ensures k.Parent? ==> t.recent.items[k].parentHash == k.hash
    {
      var p := t.recent.items[k];
      AskedGrows(ops, op, p);
      if k in s.recent.items && s.recent.items[k] == p {
        OwnGrows(w, s.store, t.store, p);
      } else {
        NewIsOwn(w, s, ops, e, k);
      }
    }
  }

  lemma StoreGrows(w: World, s: EngineState, e: Op)
    requires Keyed(w, s.store)
    ensures Keyed(w, Do(w, s, e).0.store) && Network.Within(s.store, Do(w, s, e).0.store)
  {
    hide HashIsValid, Prepared, Remember;
    if e.NewPayload? && Judge(w, s.store, e.payload) == Valid {
      Network.ProcessedBlock(w, s.store, e.payload);
    }
  }

  lemma NewIsOwn(w: World, s: EngineState, ops: seq<RelayOp>, e: Op, k: Key)
    requires var t := Do(w, s, e).0;
      k in t.recent.items && (k in s.recent.items ==> t.recent.items[k] != s.recent.items[k])
    ensures var t := Do(w, s, e).0;
      && IsOwn(w, t.store, t.recent.items[k]) && AsksFor(EngineCall(e), t.recent.items[k])
      && (k.Parent? ==> t.recent.items[k].parentHash == k.hash)
  {
    hide Process, HashIsValid, Prepared, Judge;
    assert e.ForkchoiceUpdated? && e.attributes.Some?;
    ExecutionLaw.PreparedIff(w, s.store, e.head, e.attributes.value);
  }

  lemma {:induction false} RunKeepsOwn(c: Config, ops: seq<RelayOp>)
    requires AllTyped(ops)
    ensures CacheIsOwn(c.w, RelayAfter(c, BuilderPath.RelayStart(c), ops).engine, ops)
  {
    hide RelayDo, CacheIsOwn;
    if ops == [] {
      StartIsOwn(c);
    } else {
      var n := |ops| - 1;
      RunKeepsOwn(c, ops[..n]);
      StepKeepsOwn(c, RelayAfter(c, BuilderPath.RelayStart(c), ops[..n]), ops[..n], ops[n]);
      assert ops[..n] + [ops[n]] == ops;
    }
  }

  lemma StartIsOwn(c: Config)
    ensures CacheIsOwn(c.w, BuilderPath.RelayStart(c).engine, [])
  {
  }

  lemma StepKeepsOwn(c: Config, s: RelayState, ops: seq<RelayOp>, op: RelayOp)
    requires OpTyped(op) && CacheIsOwn(c.w, s.engine, ops)
    ensures CacheIsOwn(c.w, RelayDo(c, s, op).0.engine, ops + [op])
  {
    hide Do, CacheIsOwn, IsProposal, HeaderOf, BidMessage, RestOf, ParentOf, Taken, EnteredAll, ReadKey, IsServed;
    IdleKeepsOwn(c.w, s.engine, ops, op);
    match op
    case Register(_) =>
    case GetHeader(request) =>
      if IsServed(request) {
        EngineKeepsOwn(c.w, s.engine, ops, op, GetByParent(ParentAsked(request)));
      }
    case Reveal(block, _) => EngineKeepsOwn(c.w, s.engine, ops, op, GetByParent(ParentOf(block)));
    case EngineCall(e) => EngineKeepsOwn(c.w, s.engine, ops, op, e);
  }

  lemma IdleKeepsOwn(w: World, s: EngineState, ops: seq<RelayOp>, op: RelayOp)
    requires CacheIsOwn(w, s, ops)
    ensures CacheIsOwn(w, s, ops + [op])
  {
    hide IsOwn, WasAsked, AsksFor;
    forall k | k in s.recent.items ensures WasAsked(ops + [op], s.recent.items[k]) {
      AskedGrows(ops, op, s.recent.items[k]);
    }
  }

  // ------------------------------------------------------------------------ offers

  /** The execution header that an offer's own fields make, for the empty transaction list. */
  function Rebuilt(w: World, o: PayloadHeader): Header {
    Header(o.parentHash, w.uncleRoot([]), o.feeRecipient, o.stateRoot, w.txRoot([]), o.receiptsRoot, o.logsBloom, 0,
           o.number, o.gasLimit, o.gasUsed, o.timestamp, o.extraData, o.random, Some(U256.BigEndian(o.baseFee)))
  }

  /** The offer is the empty block on `parent`: every field, and the hash over them. */
  predicate OffersOwn(c: Config, parent: Header, o: PayloadHeader) {
    var w, number := c.w, parent.number + 1;
    && w.isLondon(number)
    && o.stateRoot == w.stateRoot(w.open(parent.root), number) && o.receiptsRoot == w.receiptRoot([])
    && o.logsBloom == w.bloomOf([]) && o.number == number % 0x1_0000_0000_0000_0000
    && o.gasLimit == (if w.isLondon(parent.number) then w.genesis.header.gasLimit
                      else parent.gasLimit * 2 % 0x1_0000_0000_0000_0000)
    && o.gasUsed == 0 && o.extraData == []
    && o.transactionsRoot == ContainerRoots.ListRoot(c.h, [])
    && U256.BigEndian(o.baseFee) == w.calcBaseFee(parent) % Pow256(32)
    && (number < 0x1_0000_0000_0000_0000 && w.calcBaseFee(parent) < Pow256(32) ==> w.hash(Rebuilt(w, o)) == o.blockHash)
  }

  lemma BlindIsOwn(c: Config, store: Store, p: ExecutionPayload)
    requires IsOwn(c.w, store, p) && p.baseFee.Some?
    ensures Blind(c.h, p).Some?
    ensures var o := Blind(c.h, p).value;
      && o.parentHash == p.parentHash && o.timestamp == p.timestamp && o.random == p.random
      && o.feeRecipient == p.feeRecipient && OffersOwn(c, store[p.parentHash].header, o)
  {
    hide Pow256, ContainerRoots.ListRoot, U256.BigEndian, U256.ToHash, TransactionsRoot;
    ContainerRoots.TransactionsRootIs(c.h, []);
    var parent := store[p.parentHash].header;
    var fee := p.baseFee.value;
    U256.HashRoundTrip(fee);
    if fee < Pow256(32) {
      ModUnique(fee, Pow256(32), 0, fee);
    }
  }

  /** In every run: a header request gets an offer exactly when it is served and a payload with
      a base fee is cached for its parent. */
  lemma OfferedIff(c: Config, ops: seq<RelayOp>, request: HeaderRequest)
    requires AllTyped(ops)
    ensures var s := RelayAfter(c, BuilderPath.RelayStart(c), ops);
      RelayDo(c, s, GetHeader(request)).1.Offer?
      <==> && IsServed(request) && Parent(ParentAsked(request)) in s.engine.recent.items
           && s.engine.recent.items[Parent(ParentAsked(request))].baseFee.Some?
  {
    hide Blind, BidMessage, ReadKey, ParentAsked, IsServed, KeyGiven, IsOwn, WasAsked, OffersOwn;
    var s := RelayAfter(c, BuilderPath.RelayStart(c), ops);
    RunKeepsOwn(c, ops);
    if IsServed(request) && Parent(ParentAsked(request)) in s.engine.recent.items {
      var p := s.engine.recent.items[Parent(ParentAsked(request))];
      ServedKeyIsRead(s.latestPubkey, request);
      if p.baseFee.Some? {
        BlindIsOwn(c, s.engine.store, p);
        OwnHasMessage(c, s.engine.store, p);
      }
    }
  }

  lemma OwnHasMessage(c: Config, store: Store, p: ExecutionPayload)
    requires IsOwn(c.w, store, p) && p.baseFee.Some? && Blind(c.h, p).Some?
    ensures Blind(c.h, p).value.extraData == [] && BidMessage(c, Blind(c.h, p).value).Some?
  {
    ContainerRoots.BidMessageIs(c, Blind(c.h, p).value);
    hide BidMessage;
  }

  /** What the offer's payload is. */
  lemma OfferSource(c: Config, ops: seq<RelayOp>, request: HeaderRequest)
    requires AllTyped(ops)
    requires RelayDo(c, RelayAfter(c, BuilderPath.RelayStart(c), ops), GetHeader(request)).1.Offer?
    ensures var s := RelayAfter(c, BuilderPath.RelayStart(c), ops);
      && IsServed(request) && Parent(ParentAsked(request)) in s.engine.recent.items
      && var p := s.engine.recent.items[Parent(ParentAsked(request))];
      && p.baseFee.Some? && p.parentHash == ParentAsked(request) && IsOwn(c.w, s.engine.store, p) && WasAsked(ops, p)
      && Blind(c.h, p) == Some(RelayDo(c, s, GetHeader(request)).1.header)
  {
    hide RelayDo, Blind, ParentAsked, IsServed, IsOwn, WasAsked;
    var s := RelayAfter(c, BuilderPath.RelayStart(c), ops);
    RunKeepsOwn(c, ops);
    OfferIsCached(c, s, request, RelayDo(c, s, GetHeader(request)).1.header);
  }

  /** In every run, an offer is for the parent asked for, was asked for by a forkchoice update
      of the run, and is the empty block there in each of its fields. */
  lemma OfferIsOwn(c: Config, ops: seq<RelayOp>, request: HeaderRequest, o: PayloadHeader, message: Hash)
    requires AllTyped(ops)
    requires RelayDo(c, RelayAfter(c, BuilderPath.RelayStart(c), ops), GetHeader(request)).1 == Offer(o, message)
    ensures var s := RelayAfter(c, BuilderPath.RelayStart(c), ops);
      && IsServed(request) && o.parentHash == ParentAsked(request) && o.parentHash in s.engine.store
      && OffersOwn(c, s.engine.store[o.parentHash].header, o)
    ensures Asked(ops, o.parentHash, o.timestamp, o.random, o.feeRecipient)
  {
    hide RelayDo, Blind, ParentAsked, IsServed, OffersOwn, Asked, ExecutionLaw.IsPrepared;
    var s := RelayAfter(c, BuilderPath.RelayStart(c), ops);
    OfferSource(c, ops, request);
    BlindIsOwn(c, s.engine.store, s.engine.recent.items[Parent(ParentAsked(request))]);
  }

  /** And the message signed with it is the hash of this header in a bid under the relay's key,
      under the builder domain. */
  lemma OfferMessage(c: Config, ops: seq<RelayOp>, request: HeaderRequest, o: PayloadHeader, message: Hash)
    requires AllTyped(ops)
    requires RelayDo(c, RelayAfter(c, BuilderPath.RelayStart(c), ops), GetHeader(request)).1 == Offer(o, message)
    ensures |ContainerRoots.BuilderDomainBytes(c.h)| == 32 && o.extraData == []
    ensures message == c.h(
      Four(c.h, ContainerRoots.HeaderRoot(c.h, o), [1] + Zeros(31), c.h(c.pk[..32], Short(c.pk[32..])), Z),
      ContainerRoots.BuilderDomainBytes(c.h))
  {
    hide RelayDo, Blind, ParentAsked, IsServed, IsOwn, BidMessage, Four, ContainerRoots.HeaderRoot;
    var s := RelayAfter(c, BuilderPath.RelayStart(c), ops);
    OfferSource(c, ops, request);
    OwnHasMessage(c, s.engine.store, s.engine.recent.items[Parent(ParentAsked(request))]);
    ContainerRoots.BidMessageIs(c, o);
    MessageIsBid(c, s, request);
  }

  lemma MessageIsBid(c: Config, s: RelayState, request: HeaderRequest)
    requires RelayDo(c, s, GetHeader(request)).1.Offer?
    ensures var answer := RelayDo(c, s, GetHeader(request)).1; BidMessage(c, answer.header) == Some(answer.message)
  {
    hide Blind, IsServed, ReadKey, ParentAsked, BidMessage, Do;
  }

  // ----------------------------------------------------------------------- reveals

  /** The same for a payload in its REST form. */
  predicate RevealsOwn(w: World, parent: Header, r: RestPayload) {
    var number := parent.number + 1;
    && w.isLondon(number)
    && r.stateRoot == w.stateRoot(w.open(parent.root), number) && r.receiptsRoot == w.receiptRoot([])
    && r.logsBloom == w.bloomOf([]) && r.number == number % 0x1_0000_0000_0000_0000
    && r.gasLimit == (if w.isLondon(parent.number) then w.genesis.header.gasLimit
                      else parent.gasLimit * 2 % 0x1_0000_0000_0000_0000)
    && r.gasUsed == 0 && r.extraData == [] && r.transactions == []
    && U256.BigEndian(r.baseFee) == w.calcBaseFee(parent) % Pow256(32)
    && (number < 0x1_0000_0000_0000_0000 && w.calcBaseFee(parent) < Pow256(32) ==>
          r.blockHash == w.hash(Header(
            r.parentHash, w.uncleRoot([]), r.feeRecipient, r.stateRoot, w.txRoot([]), r.receiptsRoot, r.logsBloom, 0,
            r.number, r.gasLimit, 0, r.timestamp, [], r.random, Some(U256.BigEndian(r.baseFee)))))
  }

  lemma RestIsOwn(w: World, store: Store, p: ExecutionPayload)
    requires IsOwn(w, store, p) && p.baseFee.Some?
    ensures var r := ToRest(p);
      && r.parentHash == p.parentHash && r.timestamp == p.timestamp && r.random == p.random
      && r.feeRecipient == p.feeRecipient && RevealsOwn(w, store[p.parentHash].header, r)
  {
    hide Pow256, U256.BigEndian, U256.ToHash;
    var fee := p.baseFee.value;
    U256.HashRoundTrip(fee);
    if fee < Pow256(32) {
      ModUnique(fee, Pow256(32), 0, fee);
    }
  }

  /** In every run, what is revealed is for the parent in the block's payload header, was asked
      for in the run, and is the empty payload there in each of its fields. */
  lemma RevealIsOwn(c: Config, ops: seq<RelayOp>, block: Val, signature: Signature, r: RestPayload)
    requires AllTyped(ops) && Typed(BLINDED_BLOCK, block)
    requires RelayDo(c, RelayAfter(c, BuilderPath.RelayStart(c), ops), Reveal(block, signature)).1 == Revealed(r)
    ensures var s := RelayAfter(c, BuilderPath.RelayStart(c), ops);
      && r.parentHash == ParentOf(block) && r.parentHash in s.engine.store
      && RevealsOwn(c.w, s.engine.store[r.parentHash].header, r)
    ensures Asked(ops, r.parentHash, r.timestamp, r.random, r.feeRecipient)
  {
    hide ParentOf, IsOwn, RevealsOwn, RelayDo, Asked, ToRest;
    var s := RelayAfter(c, BuilderPath.RelayStart(c), ops);
    RunKeepsOwn(c, ops);
    RevealIsCached(c, s, block, signature, r);
    RestIsOwn(c.w, s.engine.store, s.engine.recent.items[Parent(ParentOf(block))]);
    OwnHasParent(c.w, s.engine.store, s.engine.recent.items[Parent(ParentOf(block))]);
  }

  lemma OwnHasParent(w: World, store: Store, p: ExecutionPayload)
    requires IsOwn(w, store, p)
    ensures p.parentHash in store
  {
  }
}
