/** The chain object of mock.go: a block store that builds and re-executes blocks. */
module MockChain {
  import opened ByteCodec
  import opened Payload
  import opened Chain

  /** The store after InsertChain; a known block is kept. */
  function Insert(w: World, store: Store, b: Block): Store {
    var k := w.hash(b.header);
    if k in store then store else store[k := b]
  }

  /** What VerifyHeader checks: the header is known, or its parent is, with the number before it. */
  predicate HeaderIsVerified(w: World, store: Store, h: Header) {
    w.hash(h) in store || (h.parentHash in store && store[h.parentHash].header.number + 1 == h.number)
  }

  class MockChain {
    const w: World
    var store: Store
    var head: Hash

    ghost predicate Valid()
      reads this
    {
      Keyed(w, store) && head in store
    }

    constructor (w: World)
      ensures Valid() && this.w == w
      ensures store == map[w.hash(w.genesis.header) := w.genesis] && head == w.hash(w.genesis.header)
    {
      this.w := w;
      head := w.hash(w.genesis.header);
      store := map[w.hash(w.genesis.header) := w.genesis];
    }

    /** Adds the block and makes it the head, if its header can be verified. */
    method InsertChain(b: Block) returns (ok: bool)
      requires Valid()
      modifies this
      ensures Valid()
      ensures ok <==> w.hash(b.header) in old(store)
                      || (b.header.parentHash in old(store)
                          && old(store)[b.header.parentHash].header.number + 1 == b.header.number)
      ensures ok ==> head == w.hash(b.header) && head in store
      ensures ok && w.hash(b.header) in old(store) ==> store == old(store)
      ensures ok && w.hash(b.header) !in old(store) ==> store == old(store)[w.hash(b.header) := b]
      ensures !ok ==> store == old(store) && head == old(head)
    {
      ok := HeaderIsVerified(w, store, b.header);
      if ok {
        store := Insert(w, store, b);
        head := w.hash(b.header);
      }
    }

    /** Applies the transactions one after the other to the opened parent state. */
    method ApplyAll(parent: Header, env: Header, txs: seq<Tx>) returns (m: Option<Machine>)
      ensures m == Run(w, env, Start(w, parent, env), txs)
    {
      var cur := Start(w, parent, env);
      ghost var start := cur;
      for i := 0 to |txs|
        invariant Run(w, env, start, txs[..i]) == Some(cur)
      {
        var next := Step(w, env, cur, txs[i]);
        assert txs[..i + 1][..i] == txs[..i];
        if next.None? {
          RunFails(w, env, start, txs, i + 1);
          return None;
        }
        cur := next.value;
      }
      assert txs[..|txs|] == txs;
      m := Some(cur);
    }

    method AddNewBlock(plan: Plan, storeBlock: bool) returns (r: Option<Block>)
      requires Valid()
      modifies this
      ensures Valid()
      ensures r == Build(w, old(store), plan)
      ensures r.Some? && storeBlock ==> store == Insert(w, old(store), r.value) && head == w.hash(r.value.header)
      ensures r.None? || !storeBlock ==> store == old(store) && head == old(head)
    {
      if plan.parentHash !in store {
        return None;
      }
      var parent := store[plan.parentHash].header;
      var env := PlanHeader(w, parent, plan);
      var m := ApplyAll(parent, env, plan.txs);
      if m.None? {
        return None;
      }
      var block := Assemble(w, env, m.value, (env.gasLimit - m.value.pool) % TWO64, plan.txs, plan.uncles);
      if storeBlock {
        var ok := InsertChain(block);
        assert ok;
      }
      r := Some(block);
    }

    /** Decodes and applies each transaction in turn, then compares and inserts. */
    method ProcessPayload(p: ExecutionPayload) returns (r: Option<Block>)
      requires Valid()
      modifies this
      ensures Valid()
      ensures r == Process(w, old(store), p)
      ensures r.Some? ==> store == Insert(w, old(store), r.value) && head == w.hash(r.value.header)
      ensures r.None? ==> store == old(store) && head == old(head)
    {
      if p.parentHash !in store {
        return None;
      }
      var parent := store[p.parentHash].header;
      var env := PayloadEnv(w, parent, p);
      var txs, m := DecodeAndApply(parent, env, p.transactions);
      if m.None? {
        return None;
      }
      var block := Assemble(w, env, m.value, m.value.used % TWO64, txs, []);
      if !Matches(w, block, p) {
        return None;
      }
      var ok := InsertChain(block);
      assert ok;
      r := Some(block);
    }

    method DecodeAndApply(parent: Header, env: Header, enc: seq<Bytes>) returns (txs: seq<Tx>, m: Option<Machine>)
      ensures var all := Decoded(w, enc);
        if all.None? then m.None? else m == Run(w, env, Start(w, parent, env), all.value)
      ensures m.Some? ==> Decoded(w, enc) == Some(txs)
    {
      var cur := Start(w, parent, env);
      ghost var start := cur;
      txs := [];
      for i := 0 to |enc|
        invariant Decoded(w, enc[..i]) == Some(txs) && Run(w, env, start, txs) == Some(cur)
      {
        assert enc[..i + 1][..i] == enc[..i];
        var tx := w.decode(enc[i]);
        if tx.None? {
          DecodingFails(w, enc, i + 1);
          return txs, None;
        }
        var next := Step(w, env, cur, tx.value);
        assert (txs + [tx.value])[..|txs|] == txs;
        txs := txs + [tx.value];
        if next.None? {
          ApplyingFails(w, env, start, enc, txs, i + 1);
          return txs, None;
        }
        cur := next.value;
      }
      assert enc[..|enc|] == enc;
      m := Some(cur);
    }
  }

  lemma {:induction false} DecodingFails(w: World, enc: seq<Bytes>, k: nat)
    requires k <= |enc| && Decoded(w, enc[..k]).None?
    ensures Decoded(w, enc).None?
  {
    if k == |enc| {
      assert enc[..k] == enc;
    } else {
      var front := enc[..|enc| - 1];
      assert front[..k] == enc[..k];
      DecodingFails(w, front, k);
    }
  }

  lemma {:induction false} DecodedPrefix(w: World, enc: seq<Bytes>, k: nat)
    requires k <= |enc| && Decoded(w, enc).Some?
    ensures Decoded(w, enc[..k]) == Some(Decoded(w, enc).value[..k])
  {
    if k == |enc| {
      assert enc[..k] == enc && Decoded(w, enc).value[..k] == Decoded(w, enc).value;
    } else {
      var front := enc[..|enc| - 1];
      assert front[..k] == enc[..k];
      DecodedPrefix(w, front, k);
      assert Decoded(w, enc).value[..k] == Decoded(w, front).value[..k];
    }
  }

  /** A transaction that cannot be applied fails the payload, whatever follows it. */
  lemma ApplyingFails(w: World, env: Header, start: Machine, enc: seq<Bytes>, txs: seq<Tx>, k: nat)
    requires k <= |enc| && Decoded(w, enc[..k]) == Some(txs) && Run(w, env, start, txs).None?
    ensures Decoded(w, enc).Some? ==> Run(w, env, start, Decoded(w, enc).value).None?
  {
    if Decoded(w, enc).Some? {
      DecodedPrefix(w, enc, k);
      RunFails(w, env, start, Decoded(w, enc).value, k);
    }
  }

  /** The loop of api.encodeTransactions. */
  method EncodeTransactions(w: World, txs: seq<Tx>) returns (enc: seq<Bytes>)
    ensures enc == Encoded(w, txs)
  {
    enc := [];
    for i := 0 to |txs|
      invariant enc == Encoded(w, txs[..i])
    {
      assert txs[..i + 1][..i] == txs[..i];
      enc := enc + [w.encode(txs[i])];
    }
    assert txs[..|txs|] == txs;
  }

  /** The loop of types.decodeTransactions, with its early exit. */
  method DecodeTransactions(w: World, enc: seq<Bytes>) returns (r: Option<seq<Tx>>)
    ensures r == Decoded(w, enc)
  {
    var txs := [];
    for i := 0 to |enc|
      invariant Decoded(w, enc[..i]) == Some(txs)
    {
      assert enc[..i + 1][..i] == enc[..i];
      var tx := w.decode(enc[i]);
      if tx.None? {
        DecodingFails(w, enc, i + 1);
        return None;
      }
      txs := txs + [tx.value];
    }
    assert enc[..|enc|] == enc;
    r := Some(txs);
  }

  method ValidateHash(w: World, p: ExecutionPayload) returns (ok: bool)
    ensures ok <==> HashIsValid(w, p)
  {
    var txs := DecodeTransactions(w, p.transactions);
    ok := txs.Some? && w.hash(ClaimedHeader(w, p, txs.value)) == p.blockHash;
  }
}
