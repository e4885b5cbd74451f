/** What building, re-executing, judging and preparing do, told by the transactions applied
    one after the other and by the fields of the results. */
module ExecutionLaw {
  import opened ByteCodec
  import opened Payload
  import opened Chain
  import opened MockChain
  import opened Engine
  import EngineRuns
  import Lru
  import U256

  function Sum(used: seq<nat>): nat {
    if used == [] then 0 else Sum(used[..|used| - 1]) + used[|used| - 1]
  }

  /** Transaction `i` takes the machine from one state to the next, with the gas left over by
      the ones before it. */
  predicate Applies(w: World, env: Header, txs: seq<Tx>, states: seq<State>, used: seq<nat>,
                    receipts: seq<Receipt>, i: nat)
    requires |states| == |txs| + 1 && |used| == |txs| && |receipts| == |txs| && i < |txs|
  {
    && Sum(used[..i]) <= env.gasLimit && Sum(used[..i + 1]) <= env.gasLimit
    && w.apply(states[i], env, env.gasLimit - Sum(used[..i]), Sum(used[..i]), txs[i])
       == Some(Applied(states[i + 1], env.gasLimit - Sum(used[..i + 1]), used[i], receipts[i]))
  }

  /** All transactions in order, from the first state to the last. */
  predicate IsExecution(w: World, env: Header, txs: seq<Tx>, states: seq<State>, used: seq<nat>,
                        receipts: seq<Receipt>) {
    && |states| == |txs| + 1 && |used| == |txs| && |receipts| == |txs|
    && forall i :: 0 <= i < |txs| ==> Applies(w, env, txs, states, used, receipts, i)
  }

  /** The header under which transactions run. */
  predicate IsPending(w: World, parent: Header, env: Header, parentHash: Hash, coinbase: Address, time: u64,
                      gasLimit: u64, random: Hash, extra: Bytes, fee: Option<nat>)
  {
    && env.parentHash == parentHash && env.coinbase == coinbase && env.time == time
    && env.mixDigest == random && env.extra == extra
    && env.number == parent.number + 1 && env.difficulty == 0 && env.gasUsed == 0
    && env.uncleHash == Zeros(32) && env.root == Zeros(32) && env.txHash == Zeros(32)
    && env.receiptHash == Zeros(32) && env.bloom == Zeros(256)
    && env.baseFee == (if w.isLondon(parent.number + 1) then Some(w.calcBaseFee(parent)) else fee)
    && env.gasLimit == (if w.isLondon(parent.number + 1) && !w.isLondon(parent.number)
                        then parent.gasLimit * 2 % 0x1_0000_0000_0000_0000 else gasLimit)
  }

  /** The block comes from opening the parent's state and executing its transactions. */
  predicate IsExecuted(w: World, parent: Header, env: Header, txs: seq<Tx>, uncles: seq<Header>, b: Block,
                       states: seq<State>, used: seq<nat>, receipts: seq<Receipt>)
  {
    && IsExecution(w, env, txs, states, used, receipts) && states[0] == w.open(parent.root)
    && b.txs == txs && b.uncles == uncles
    && b.header.parentHash == env.parentHash && b.header.coinbase == env.coinbase && b.header.time == env.time
    && b.header.mixDigest == env.mixDigest && b.header.extra == env.extra && b.header.number == env.number
    && b.header.difficulty == 0 && b.header.gasLimit == env.gasLimit && b.header.baseFee == env.baseFee
    && b.header.root == w.stateRoot(states[|txs|], env.number)
    && b.header.gasUsed == Sum(used) && b.header.txHash == w.txRoot(txs)
    && b.header.receiptHash == w.receiptRoot(receipts) && b.header.bloom == w.bloomOf(receipts)
    && b.header.uncleHash == w.uncleRoot(uncles)
  }

  // --------------------------------------------------------- machines and executions

  function After(env: Header, txs: seq<Tx>, states: seq<State>, used: seq<nat>, receipts: seq<Receipt>): Machine
    requires |states| == |txs| + 1 && Sum(used) <= env.gasLimit
  {
    Machine(states[|txs|], env.gasLimit - Sum(used), Sum(used), receipts)
  }

  lemma {:induction false} RunIsExecution(w: World, env: Header, s: State, txs: seq<Tx>)
    returns (states: seq<State>, used: seq<nat>, receipts: seq<Receipt>)
    requires Lawful(w) && Run(w, env, Machine(s, env.gasLimit, 0, []), txs).Some?
    ensures IsExecution(w, env, txs, states, used, receipts) && states[0] == s && Sum(used) <= env.gasLimit
    ensures Run(w, env, Machine(s, env.gasLimit, 0, []), txs) == Some(After(env, txs, states, used, receipts))
  {
    var start := Machine(s, env.gasLimit, 0, []);
    if txs == [] {
      states, used, receipts := [s], [], [];
    } else {
      var n := |txs| - 1;
      var front := txs[..n];
      var ss, us, rs := RunIsExecution(w, env, s, front);
      var m := Run(w, env, start, front).value;
      var a := w.apply(m.state, env, m.pool, m.used, txs[n]).value;
      states, used, receipts := ss + [a.state], us + [a.used], rs + [a.receipt];
      assert used[..n] == us && used[..n + 1] == used;
      LongerExecution(w, env, front, txs[n], ss, us, rs, a);
      assert front + [txs[n]] == txs;
    }
  }

  lemma LongerExecution(w: World, env: Header, txs: seq<Tx>, tx: Tx, states: seq<State>, used: seq<nat>,
                        receipts: seq<Receipt>, a: Applied)
    requires IsExecution(w, env, txs, states, used, receipts)
    requires Sum(used) <= env.gasLimit && Sum(used) + a.used <= env.gasLimit
    requires a.pool == env.gasLimit - Sum(used) - a.used
    requires w.apply(states[|txs|], env, env.gasLimit - Sum(used), Sum(used), tx) == Some(a)
    ensures IsExecution(w, env, txs + [tx], states + [a.state], used + [a.used], receipts + [a.receipt])
  {
    var n := |txs|;
    var all, ss, us, rs := txs + [tx], states + [a.state], used + [a.used], receipts + [a.receipt];
    assert us[..n] == used && us[..n + 1] == us;
    forall i | 0 <= i < |all| ensures Applies(w, env, all, ss, us, rs, i) {
      if i < n {
        assert Applies(w, env, txs, states, used, receipts, i);
        assert us[..i] == used[..i] && us[..i + 1] == used[..i + 1];
      }
    }
  }

  lemma {:induction false} ExecutionIsRun(w: World, env: Header, txs: seq<Tx>, states: seq<State>, used: seq<nat>,
                                          receipts: seq<Receipt>)
    requires IsExecution(w, env, txs, states, used, receipts)
    ensures Sum(used) <= env.gasLimit
    ensures Run(w, env, Machine(states[0], env.gasLimit, 0, []), txs) == Some(After(env, txs, states, used, receipts))
    decreases |txs|
  {
    if txs != [] {
      var n := |txs| - 1;
      ShorterExecution(w, env, txs, states, used, receipts);
      ExecutionIsRun(w, env, txs[..n], states[..n + 1], used[..n], receipts[..n]);
      assert Applies(w, env, txs, states, used, receipts, n);
      assert used[..n + 1] == used && receipts == receipts[..n] + [receipts[n]];
    }
  }

  lemma ShorterExecution(w: World, env: Header, txs: seq<Tx>, states: seq<State>, used: seq<nat>,
                         receipts: seq<Receipt>)
    requires IsExecution(w, env, txs, states, used, receipts) && txs != []
    ensures var n := |txs| - 1; IsExecution(w, env, txs[..n], states[..n + 1], used[..n], receipts[..n])
  {
    var n := |txs| - 1;
    var ts, ss, us, rs := txs[..n], states[..n + 1], used[..n], receipts[..n];
    forall i | 0 <= i < n ensures Applies(w, env, ts, ss, us, rs, i) {
      assert Applies(w, env, txs, states, used, receipts, i);
      assert us[..i] == used[..i] && us[..i + 1] == used[..i + 1];
    }
  }

  // ------------------------------------------------------------------------- building

  /** What AddNewBlock may return. */
  ghost predicate Builds(w: World, store: Store, plan: Plan, b: Block) {
    && plan.parentHash in store
    && var parent := store[plan.parentHash].header;
    exists env, states, used, receipts ::
      && IsPending(w, parent, env, plan.parentHash, plan.coinbase, plan.timestamp, plan.gasLimit, plan.random,
                   plan.extra, None)
      && IsExecuted(w, parent, env, plan.txs, plan.uncles, b, states, used, receipts)
  }

  lemma BuildBuilds(w: World, store: Store, plan: Plan, b: Block)
    requires Lawful(w) && Build(w, store, plan) == Some(b)
    ensures Builds(w, store, plan, b)
  {
    hide IsExecution, Lawful, Run;
    var parent := store[plan.parentHash].header;
    var env := PlanHeader(w, parent, plan);
    var states, used, receipts := RunIsExecution(w, env, w.open(parent.root), plan.txs);
    assert IsExecuted(w, parent, env, plan.txs, plan.uncles, b, states, used, receipts);
  }

  /** Building returns a block exactly when it comes from executing the plan's transactions on
      the parent's state. */
  lemma BuildIff(w: World, store: Store, plan: Plan, b: Block)
    requires Lawful(w)
    ensures Build(w, store, plan) == Some(b) <==> Builds(w, store, plan, b)
  {
    hide IsExecution, Lawful, Run;
    if Build(w, store, plan) == Some(b) {
      BuildBuilds(w, store, plan, b);
    }
    if Builds(w, store, plan, b) {
      var parent := store[plan.parentHash].header;
      var env, states, used, receipts :|
        && IsPending(w, parent, env, plan.parentHash, plan.coinbase, plan.timestamp, plan.gasLimit, plan.random,
                     plan.extra, None)
        && IsExecuted(w, parent, env, plan.txs, plan.uncles, b, states, used, receipts);
      assert env == PlanHeader(w, parent, plan);
      ExecutionIsRun(w, env, plan.txs, states, used, receipts);
    }
  }

  // ------------------------------------------------------------------ re-executing

  /** The payload's transactions, decoded one by one. */
  predicate Decodes(w: World, enc: seq<Bytes>, txs: seq<Tx>) {
    |txs| == |enc| && forall i :: 0 <= i < |enc| ==> w.decode(enc[i]) == Some(txs[i])
  }

  lemma {:induction false} DecodedIff(w: World, enc: seq<Bytes>, txs: seq<Tx>)
    ensures Decoded(w, enc) == Some(txs) <==> Decodes(w, enc, txs)
  {
    if enc != [] {
      var n := |enc| - 1;
      if |txs| == |enc| {
        DecodedIff(w, enc[..n], txs[..n]);
        assert txs == txs[..n] + [txs[n]];
        if Decodes(w, enc, txs) {
          assert Decodes(w, enc[..n], txs[..n]) && w.decode(enc[n]) == Some(txs[n]);
        }
        if Decoded(w, enc) == Some(txs) {
          assert Decoded(w, enc[..n]).value == txs[..n];
          forall i | 0 <= i < |enc| ensures w.decode(enc[i]) == Some(txs[i]) {
            if i < n {
              assert w.decode(enc[..n][i]) == Some(txs[..n][i]);
            }
          }
        }
      }
    }
  }

  /** What ProcessPayload may return: the block of the payload's own transactions, whose gas,
      roots, bloom and hash are the payload's. */
  ghost predicate Processes(w: World, store: Store, p: ExecutionPayload, b: Block) {
    && p.parentHash in store
    && var parent := store[p.parentHash].header;
    && b.header.gasUsed == p.gasUsed && b.header.receiptHash == p.receiptsRoot && b.header.bloom == p.logsBloom
    && b.header.root == p.stateRoot && w.hash(b.header) == p.blockHash
    && exists env, txs, states, used, receipts ::
         && Decodes(w, p.transactions, txs)
         && IsPending(w, parent, env, p.parentHash, p.feeRecipient, p.timestamp, p.gasLimit, p.random, p.extraData,
                      p.baseFee)
         && IsExecuted(w, parent, env, txs, [], b, states, used, receipts)
  }

  lemma ProcessProcesses(w: World, store: Store, p: ExecutionPayload, b: Block)
    requires Lawful(w) && Keyed(w, store) && Process(w, store, p) == Some(b)
    ensures Processes(w, store, p, b)
  {
    hide IsExecution, Lawful, Run, Decoded, Decodes;
    var parent := store[p.parentHash].header;
    var env, txs := PayloadEnv(w, parent, p), Decoded(w, p.transactions).value;
    DecodedIff(w, p.transactions, txs);
    var states, used, receipts := RunIsExecution(w, env, w.open(parent.root), txs);
    assert IsExecuted(w, parent, env, txs, [], b, states, used, receipts);
  }

  /** Re-execution returns a block exactly when the payload's transactions decode, execute on
      the parent's state, and give what the payload claims. */
  lemma ProcessIff(w: World, store: Store, p: ExecutionPayload, b: Block)
    requires Lawful(w) && Keyed(w, store)
    ensures Process(w, store, p) == Some(b) <==> Processes(w, store, p, b)
  {
    hide IsExecution, Lawful, Run, Decoded, Decodes;
    if Process(w, store, p) == Some(b) {
      ProcessProcesses(w, store, p, b);
    }
    if Processes(w, store, p, b) {
      var parent := store[p.parentHash].header;
      var env, txs, states, used, receipts :|
        && Decodes(w, p.transactions, txs)
        && IsPending(w, parent, env, p.parentHash, p.feeRecipient, p.timestamp, p.gasLimit, p.random, p.extraData,
                     p.baseFee)
        && IsExecuted(w, parent, env, txs, [], b, states, used, receipts);
      DecodedIff(w, p.transactions, txs);
      assert env == PayloadEnv(w, parent, p);
      ExecutionIsRun(w, env, txs, states, used, receipts);
    }
  }

  // ---------------------------------------------------------------------- judging

  /** The payload's hash is that of the header its own fields make. */
  ghost predicate HasItsHash(w: World, p: ExecutionPayload) {
    exists txs, h: Header ::
      && Decodes(w, p.transactions, txs) && w.hash(h) == p.blockHash
      && h.parentHash == p.parentHash && h.uncleHash == w.uncleRoot([]) && h.coinbase == p.feeRecipient
      && h.root == p.stateRoot && h.txHash == w.txRoot(txs) && h.receiptHash == p.receiptsRoot
      && h.bloom == p.logsBloom && h.difficulty == 0 && h.number == p.number && h.gasLimit == p.gasLimit
      && h.gasUsed == p.gasUsed && h.time == p.timestamp && h.extra == p.extraData && h.mixDigest == p.random
      && h.baseFee == p.baseFee
  }

  lemma HashIsValidIff(w: World, p: ExecutionPayload)
    ensures HashIsValid(w, p) <==> HasItsHash(w, p)
  {
    if HashIsValid(w, p) {
      var txs := Decoded(w, p.transactions).value;
      DecodedIff(w, p.transactions, txs);
      assert w.hash(ClaimedHeader(w, p, txs)) == p.blockHash;
    }
    if HasItsHash(w, p) {
      var txs, h: Header :|
        && Decodes(w, p.transactions, txs) && w.hash(h) == p.blockHash
        && h.parentHash == p.parentHash && h.uncleHash == w.uncleRoot([]) && h.coinbase == p.feeRecipient
        && h.root == p.stateRoot && h.txHash == w.txRoot(txs) && h.receiptHash == p.receiptsRoot
        && h.bloom == p.logsBloom && h.difficulty == 0 && h.number == p.number && h.gasLimit == p.gasLimit
        && h.gasUsed == p.gasUsed && h.time == p.timestamp && h.extra == p.extraData && h.mixDigest == p.random
        && h.baseFee == p.baseFee;
      DecodedIff(w, p.transactions, txs);
      assert h == ClaimedHeader(w, p, txs);
    }
  }

  /** The answer to a payload, case by case: first its own hash, then its parent, then the
      parent's difficulty, then its execution. */
  lemma AnswerIff(w: World, s: EngineState, p: ExecutionPayload)
    requires Lawful(w) && Keyed(w, s.store)
    ensures var answer, known := Do(w, s, NewPayload(p)).1, p.parentHash in s.store;
      var difficulty := if known then s.store[p.parentHash].header.difficulty else 0;
      && (answer == Judged(InvalidBlockHash) <==> !HasItsHash(w, p))
      && (answer == Judged(Syncing) <==> HasItsHash(w, p) && !known)
      && (answer == Judged(InvalidTerminalBlock) <==> HasItsHash(w, p) && known && difficulty < w.ttd)
      && (answer == Judged(Valid) <==>
            HasItsHash(w, p) && known && difficulty >= w.ttd && exists b :: Processes(w, s.store, p, b))
      && (answer == Judged(ExecutionFailed) <==>
            HasItsHash(w, p) && known && difficulty >= w.ttd && !exists b :: Processes(w, s.store, p, b))
  {
    hide HasItsHash, HashIsValid, Process, Processes, Lawful;
    HashIsValidIff(w, p);
    if Process(w, s.store, p).Some? {
      ProcessIff(w, s.store, p, Process(w, s.store, p).value);
    }
    forall b | Processes(w, s.store, p, b) ensures Process(w, s.store, p) == Some(b) {
      ProcessIff(w, s.store, p, b);
    }
  }

  // -------------------------------------------------------------------- preparing

  /** The payload a forkchoice update asks for: an empty block on the head. */
  predicate IsPrepared(w: World, parent: Header, head: Hash, a: Attributes, p: ExecutionPayload) {
    var number, london := parent.number + 1, w.isLondon(parent.number + 1);
    && p.parentHash == head && p.feeRecipient == a.feeRecipient && p.timestamp == a.timestamp && p.random == a.random
    && p.stateRoot == w.stateRoot(w.open(parent.root), number) && p.receiptsRoot == w.receiptRoot([])
    && p.logsBloom == w.bloomOf([]) && p.number == number % 0x1_0000_0000_0000_0000
    && p.gasLimit == (if london && !w.isLondon(parent.number) then parent.gasLimit * 2 % 0x1_0000_0000_0000_0000
                      else w.genesis.header.gasLimit)
    && p.gasUsed == 0 && p.extraData == [] && p.transactions == []
    && p.baseFee == (if london then Some(w.calcBaseFee(parent)) else None)
    && p.blockHash == w.hash(Header(head, w.uncleRoot([]), a.feeRecipient, p.stateRoot, w.txRoot([]), p.receiptsRoot,
                                    p.logsBloom, 0, number, p.gasLimit, 0, a.timestamp, [], a.random, p.baseFee))
  }

  lemma PreparedIff(w: World, store: Store, head: Hash, a: Attributes)
    ensures Prepared(w, store, head, a).Some? <==> head in store
    ensures head in store ==> IsPrepared(w, store[head].header, head, a, Prepared(w, store, head, a).value)
  {
    assert Encoded(w, []) == [];
  }

  /** The payload id is the counter, most significant byte first. */
  lemma IdIsBigEndian(n: nat)
    ensures forall i :: 0 <= i < 8 ==> IdOf(n)[i] == (n / Pow256(7 - i)) % 256
  {
    forall i | 0 <= i < 8 ensures IdOf(n)[i] == (n / Pow256(7 - i)) % 256 {
      ByteOfLE(n, 8, 7 - i);
    }
  }

  /** A forkchoice update with attributes, at any point of a run: it fails exactly when the head
      is unknown; otherwise the number of updates so far, in big-endian order, is the id, and
      the empty payload on the head is found under the id and under the head. */
  lemma UpdateIff(w: World, ops: seq<Op>, head: Hash, a: Attributes)
    requires EngineRuns.Builds(ops) + 1 < TWO64
    ensures var s := Engine.After(w, ops);
      var (t, answer) := Do(w, s, ForkchoiceUpdated(head, Some(a)));
      && t.store == s.store && t.counter == EngineRuns.Builds(ops) + 1
      && (head !in s.store ==> answer == BuildFailed && t.recent == s.recent)
      && (head in s.store ==>
            && answer == Updated(Some(IdOf(EngineRuns.Builds(ops) + 1)))
            && Id(answer.id.value) in t.recent.items && Parent(head) in t.recent.items
            && t.recent.items[Id(answer.id.value)] == t.recent.items[Parent(head)]
            && IsPrepared(w, s.store[head].header, head, a, t.recent.items[Parent(head)]))
  {
    hide Prepared, IsPrepared, IdOf, Engine.After, EngineRuns.Builds, Remember;
    var s, op := Engine.After(w, ops), ForkchoiceUpdated(head, Some(a));
    EngineRuns.CounterCountsBuilds(w, ops);
    PreparedIff(w, s.store, head, a);
    if head in s.store {
      UpdateIsCached(w, ops, head, a);
    }
  }

  lemma UpdateIsCached(w: World, ops: seq<Op>, head: Hash, a: Attributes)
    requires EngineRuns.Builds(ops) + 1 < TWO64 && Prepared(w, Engine.After(w, ops).store, head, a).Some?
    ensures var s := Engine.After(w, ops);
      var items, id := Do(w, s, ForkchoiceUpdated(head, Some(a))).0.recent.items, Id(IdOf(Next(s.counter)));
      && id in items && Parent(head) in items
      && items[id] == items[Parent(head)] == Prepared(w, s.store, head, a).value
  {
    hide Prepared, IdOf;
    var s, op := Engine.After(w, ops), ForkchoiceUpdated(head, Some(a));
    var run := ops + [op];
    assert run[..|ops|] == ops && run + [] == run;
    assert EngineRuns.Issued(w, run, |ops|, IdOf(Next(s.counter)));
    EngineRuns.IdSurvivesFourBuilds(w, run, [], IdOf(Next(s.counter)));
    EngineRuns.PreparedServes(w, s.store, op);
    EngineRuns.CacheFollowsHistory(w, ops);
    Lru.CacheIsRecent(CACHE_SIZE, EngineRuns.History(w, ops));
    LastAddedIsHeld(s.recent, Id(IdOf(Next(s.counter))), Parent(head), Prepared(w, s.store, head, a).value);
  }

  lemma LastAddedIsHeld(c: PayloadCache, a: Key, b: Key, p: ExecutionPayload)
    requires a != b && Lru.Coherent(c, CACHE_SIZE)
    ensures var items := Lru.Add(Lru.Add(c, CACHE_SIZE, a, p), CACHE_SIZE, b, p).items;
      b in items && items[b] == p && (a in items ==> items[a] == p)
  {
    var d := Lru.Add(c, CACHE_SIZE, a, p);
    assert Lru.Recent(c, CACHE_SIZE, c.order, c.items) by {
      assert Take(c.order, CACHE_SIZE) == c.order;
    }
    Lru.AddKeepsRecent(c, CACHE_SIZE, c.order, c.items, a, p);
    SecondAdd(c, a, p);
    SecondAdd(d, b, p);
  }

  lemma SecondAdd(d: PayloadCache, b: Key, p: ExecutionPayload)
    requires Lru.Coherent(d, CACHE_SIZE)
    ensures var e := Lru.Add(d, CACHE_SIZE, b, p);
      && b in e.items && e.items[b] == p
      && forall k :: k in e.items && k != b ==> k in d.items && e.items[k] == d.items[k]
  {
    Lru.TouchMembers(d.order, b);
    var order := Lru.Touch(d.order, b);
    assert order[0] == b;
  }
}
