/** What holds over every run of the engine: payload identity, cache against history,
    and the meaning of its answers. */
module EngineRuns {
  import opened ByteCodec
  import opened Payload
  import opened Chain
  import opened MockChain
  import opened Engine
  import Lru

  // ---------------------------------------------------------- payload identity

  predicate IsBuild(op: Op) {
    op.ForkchoiceUpdated? && op.attributes.Some?
  }

  /** Number of forkchoice updates with attributes. */
  function Builds(ops: seq<Op>): nat {
    if ops == [] then 0 else Builds(ops[..|ops| - 1]) + if IsBuild(ops[|ops| - 1]) then 1 else 0
  }

  lemma {:induction false} CounterCountsBuilds(w: World, ops: seq<Op>)
    requires Builds(ops) < TWO64
    ensures After(w, ops).counter == Builds(ops)
  {
    if ops != [] {
      CounterCountsBuilds(w, ops[..|ops| - 1]);
    }
  }

  lemma {:induction false} BuildsOfPrefix(ops: seq<Op>, i: nat)
    requires i <= |ops|
    ensures Builds(ops[..i]) <= Builds(ops)
  {
    if i < |ops| {
      var front := ops[..|ops| - 1];
      BuildsOfPrefix(front, i);
      assert front[..i] == ops[..i];
    } else {
      assert ops[..i] == ops;
    }
  }

  /** The `i`-th call answered with the id `x`. */
  predicate Issued(w: World, ops: seq<Op>, i: nat, x: PayloadId) {
    i < |ops| && AnswerTo(w, ops, i) == Updated(Some(x))
  }

  lemma IssuedIsCounted(w: World, ops: seq<Op>, i: nat, x: PayloadId)
    requires Issued(w, ops, i, x) && Builds(ops) < TWO64
    ensures IsBuild(ops[i]) && x == IdOf(Builds(ops[..i + 1])) && Builds(ops[..i + 1]) == Builds(ops[..i]) + 1
    ensures Builds(ops[..i + 1]) < TWO64
  {
    hide After, Prepared, Remember, Judge, IdOf;
    BuildsOfPrefix(ops, i);
    BuildsOfPrefix(ops, i + 1);
    CounterCountsBuilds(w, ops[..i]);
    assert ops[..i + 1][..i] == ops[..i];
  }

  /** No two forkchoice updates of a run return the same id. */
  lemma IdsAreUnique(w: World, ops: seq<Op>, i: nat, j: nat, x: PayloadId)
    requires Issued(w, ops, i, x) && Issued(w, ops, j, x) && Builds(ops) < TWO64
    ensures i == j
  {
    hide Do, After;
    IssuedIsCounted(w, ops, i, x);
    IssuedIsCounted(w, ops, j, x);
    IdsDiffer(Builds(ops[..i + 1]), Builds(ops[..j + 1]));
    if i < j {
      assert ops[..j][..i + 1] == ops[..i + 1];
      BuildsOfPrefix(ops[..j], i + 1);
    } else if j < i {
      assert ops[..i][..j + 1] == ops[..j + 1];
      BuildsOfPrefix(ops[..i], j + 1);
    }
  }

  /** The payload is on the parent, and has the time, randomness and recipient, that the
      forkchoice update asked for. */
  predicate Serves(p: ExecutionPayload, op: Op) {
    && IsBuild(op)
    && p.parentHash == op.head
    && p.timestamp == op.attributes.value.timestamp
    && p.random == op.attributes.value.random
    && p.feeRecipient == op.attributes.value.feeRecipient
  }

  predicate IssuedFor(w: World, ops: seq<Op>, i: nat, x: PayloadId, p: ExecutionPayload) {
    Issued(w, ops, i, x) && Serves(p, ops[i])
  }

  /** Calls answer the same in a run and in its extensions. */
  lemma IssuedInPrefix(w: World, ops: seq<Op>, n: nat, i: nat, x: PayloadId, p: ExecutionPayload)
    requires n <= |ops|
    ensures IssuedFor(w, ops[..n], i, x, p) <==> i < n && IssuedFor(w, ops, i, x, p)
  {
    hide Do, After, Serves;
    if i < n {
      assert ops[..n][..i] == ops[..i];
    }
  }

  /** Every cached payload has its issuing call, or its parent, under the right key. */
  ghost predicate CacheIsTrue(w: World, ops: seq<Op>) {
    forall k :: k in After(w, ops).recent.items ==>
      EntryIsTrue(w, ops, k, After(w, ops).recent.items[k])
  }

  ghost predicate EntryIsTrue(w: World, ops: seq<Op>, k: Key, p: ExecutionPayload) {
    match k
    case Parent(h) => p.parentHash == h
    case Id(x) => exists i: nat :: IssuedFor(w, ops, i, x, p)
  }

  lemma EntryStaysTrue(w: World, ops: seq<Op>, op: Op, k: Key, p: ExecutionPayload)
    requires EntryIsTrue(w, ops, k, p)
    ensures EntryIsTrue(w, ops + [op], k, p)
  {
    if k.Id? {
      var i: nat :| IssuedFor(w, ops, i, k.id, p);
      IssuedInPrefix(w, ops + [op], |ops|, i, k.id, p);
      assert (ops + [op])[..|ops|] == ops;
    }
  }

  lemma PreparedServes(w: World, store: Store, op: Op)
    requires IsBuild(op) && Prepared(w, store, op.head, op.attributes.value).Some?
    ensures Serves(Prepared(w, store, op.head, op.attributes.value).value, op)
  {
  }

  lemma {:induction false} CacheStaysTrue(w: World, ops: seq<Op>)
    ensures CacheIsTrue(w, ops)
  {
    if ops != [] {
      var front, op := ops[..|ops| - 1], ops[|ops| - 1];
      CacheStaysTrue(w, front);
      assert ops == front + [op];
      var s, t := After(w, front), After(w, ops);
      forall k | k in t.recent.items ensures EntryIsTrue(w, ops, k, t.recent.items[k]) {
        if k in s.recent.items && t.recent.items[k] == s.recent.items[k] {
          EntryStaysTrue(w, front, op, k, s.recent.items[k]);
        } else {
          NewEntry(w, front, op, k);
        }
      }
    }
  }

  lemma NewEntry(w: World, front: seq<Op>, op: Op, k: Key)
    requires var s, t := After(w, front), Do(w, After(w, front), op).0;
      k in t.recent.items && (k in s.recent.items ==> t.recent.items[k] != s.recent.items[k])
    ensures EntryIsTrue(w, front + [op], k, Do(w, After(w, front), op).0.recent.items[k])
  {
    assert IsBuild(op);
    var ops, s := front + [op], After(w, front);
    PreparedServes(w, s.store, op);
    assert ops[..|front|] == front;
    if k.Id? {
      assert IssuedFor(w, ops, |front|, k.id, Do(w, s, op).0.recent.items[k]);
    }
  }

  /** Something fetched by id was issued earlier, for a call that it serves. */
  lemma FetchedWasIssued(w: World, ops: seq<Op>, n: nat, x: PayloadId, p: ExecutionPayload) returns (i: nat)
    requires n < |ops| && ops[n] == GetPayload(x) && AnswerTo(w, ops, n) == Found(Some(p))
    ensures i < n && IssuedFor(w, ops, i, x, p)
  {
    CacheStaysTrue(w, ops[..n]);
    assert EntryIsTrue(w, ops[..n], Id(x), p);
    i :| IssuedFor(w, ops[..n], i, x, p);
    IssuedInPrefix(w, ops, n, i, x, p);
  }

  /** A payload fetched by id is the one built for the one call that issued the id. */
  lemma FetchedPayloadServes(w: World, ops: seq<Op>, i: nat, n: nat, x: PayloadId, p: ExecutionPayload)
    requires Builds(ops) < TWO64 && Issued(w, ops, i, x)
    requires n < |ops| && ops[n] == GetPayload(x) && AnswerTo(w, ops, n) == Found(Some(p))
    ensures i < n && Serves(p, ops[i])
  {
    hide Do, After, Serves, Builds;
    var j := FetchedWasIssued(w, ops, n, x, p);
    IdsAreUnique(w, ops, i, j, x);
  }

  // ------------------------------------------------------- cache and history

  type CacheOps = seq<Lru.Op<Key, ExecutionPayload>>

  /** What one call does to the cache. */
  function Effect(w: World, s: EngineState, op: Op): CacheOps {
    match op
    case GetPayload(id) => [Lru.Look(Id(id))]
    case GetByParent(h) => [Lru.Look(Parent(h))]
    case ForkchoiceUpdated(head, Some(a)) =>
      var p := Prepared(w, s.store, head, a);
      if p.None? then []
      else [Lru.Put(Id(IdOf(Next(s.counter))), p.value), Lru.Put(Parent(p.value.parentHash), p.value)]
    case _ => []
  }

  function History(w: World, ops: seq<Op>): CacheOps {
    if ops == [] then []
    else
      var front := ops[..|ops| - 1];
      History(w, front) + Effect(w, After(w, front), ops[|ops| - 1])
  }

  /** The keys touched, in order. */
  function Trace(w: World, ops: seq<Op>): seq<Key> {
    Lru.Touched(CACHE_SIZE, History(w, ops))
  }

  lemma {:induction false} CacheFollowsHistory(w: World, ops: seq<Op>)
    ensures After(w, ops).recent == Lru.After(CACHE_SIZE, History(w, ops))
  {
    hide Do, Effect;
    if ops != [] {
      var front := ops[..|ops| - 1];
      CacheFollowsHistory(w, front);
      EffectIsApplied(w, After(w, front), ops[|ops| - 1], History(w, front));
    }
  }

  lemma EffectIsApplied(w: World, s: EngineState, op: Op, h: CacheOps)
    requires s.recent == Lru.After(CACHE_SIZE, h)
    ensures Do(w, s, op).0.recent == Lru.After(CACHE_SIZE, h + Effect(w, s, op))
  {
    hide Prepared, Judge, Lru.After;
    var e := Effect(w, s, op);
    AfterEffect(h, e);
  }

  lemma AfterEffect(h: CacheOps, e: CacheOps)
    requires |e| <= 2
    ensures var c := Lru.After(CACHE_SIZE, h);
      Lru.After(CACHE_SIZE, h + e) ==
      if |e| == 0 then c
      else if |e| == 1 then Lru.Apply(c, CACHE_SIZE, e[0])
      else Lru.Apply(Lru.Apply(c, CACHE_SIZE, e[0]), CACHE_SIZE, e[1])
  {
    hide Lru.Apply;
    if |e| == 0 {
      assert h + e == h;
    } else if |e| == 1 {
      assert (h + e)[..|h|] == h;
    } else {
      assert (h + e)[..|h| + 1] == h + [e[0]];
      assert (h + [e[0]])[..|h|] == h;
    }
  }

  /** A cached payload is the last one stored under its key, and a key is cached exactly
      when fewer than ten distinct other keys were touched since it was. */
  lemma CachedIff(w: World, ops: seq<Op>, k: Key)
    ensures k in After(w, ops).recent.items <==> k in Trace(w, ops) && |Lru.Since(Trace(w, ops), k)| < 10
    ensures k in After(w, ops).recent.items ==>
              k in Lru.Memory(History(w, ops)) && After(w, ops).recent.items[k] == Lru.Memory(History(w, ops))[k]
  {
    CacheFollowsHistory(w, ops);
    Lru.PresentIff(CACHE_SIZE, History(w, ops), k);
  }

  /** The keys a successful build touches. */
  function Stored(w: World, s: EngineState, op: Op): seq<Key> {
    var answer := Do(w, s, op).1;
    if op.ForkchoiceUpdated? && answer.Updated? && answer.id.Some? then [Id(answer.id.value), Parent(op.head)] else []
  }

  /** Updates and payloads, but nothing is looked up. */
  predicate NoLookups(ops: seq<Op>) {
    forall i :: 0 <= i < |ops| ==> !ops[i].GetPayload? && !ops[i].GetByParent?
  }

  /** The keys touched by the calls `more` after the run `ops`. */
  function StoredBy(w: World, ops: seq<Op>, more: seq<Op>): seq<Key> {
    if more == [] then []
    else
      var front := more[..|more| - 1];
      StoredBy(w, ops, front) + Stored(w, After(w, ops + front), more[|more| - 1])
  }

  lemma TouchedByPuts(h: CacheOps, e: CacheOps)
    requires |e| == 0 || (|e| == 2 && e[0].Put? && e[1].Put?)
    ensures Lru.Touched(CACHE_SIZE, h + e) ==
            Lru.Touched(CACHE_SIZE, h) + if |e| == 0 then [] else [e[0].k, e[1].k]
  {
    if |e| == 0 {
      assert h + e == h;
    } else {
      assert (h + e)[..|h| + 1] == h + [e[0]];
      assert (h + [e[0]])[..|h|] == h;
    }
  }

  lemma TraceOfCall(w: World, ops: seq<Op>, op: Op)
    requires !op.GetPayload? && !op.GetByParent?
    ensures Trace(w, ops + [op]) == Trace(w, ops) + Stored(w, After(w, ops), op)
  {
    hide Prepared, Judge, Remember;
    var s := After(w, ops);
    assert (ops + [op])[..|ops|] == ops;
    if IsBuild(op) && Prepared(w, s.store, op.head, op.attributes.value).Some? {
      PreparedServes(w, s.store, op);
    }
    TouchedByPuts(History(w, ops), Effect(w, s, op));
  }

  lemma {:induction false} TraceOfCalls(w: World, ops: seq<Op>, more: seq<Op>)
    requires NoLookups(more)
    ensures Trace(w, ops + more) == Trace(w, ops) + StoredBy(w, ops, more)
  {
    hide Trace, Stored, After;
    if more == [] {
      assert ops + more == ops;
    } else {
      var front, last := more[..|more| - 1], more[|more| - 1];
      TraceOfCalls(w, ops, front);
      TraceOfCall(w, ops + front, last);
      assert ops + more == ops + front + [last];
    }
  }

  /** Later updates store other ids. */
  lemma {:induction false} NotStoredAgain(w: World, ops: seq<Op>, more: seq<Op>, i: nat, x: PayloadId)
    requires Builds(ops + more) < TWO64 && i < |ops| && Issued(w, ops, i, x)
    ensures Id(x) !in StoredBy(w, ops, more)
  {
    if more != [] {
      hide After, Builds, Do;
      var front, last := more[..|more| - 1], more[|more| - 1];
      var run, n := ops + more, |ops| + |front|;
      assert run[..n] == ops + front && run[n] == last && run[..i] == ops[..i];
      BuildsOfPrefix(run, n);
      NotStoredAgain(w, ops, front, i, x);
      if Id(x) in Stored(w, After(w, ops + front), last) {
        assert Issued(w, run, n, x);
        IdsAreUnique(w, run, i, n, x);
      }
    }
  }

  lemma SinceLast(trace: seq<Key>, a: Key, b: Key)
    requires a != b
    ensures Lru.Since(trace + [a, b], a) == {b} && a in trace + [a, b]
  {
    var t := trace + [a, b];
    assert t[|t| - 1] == b && t[..|t| - 1] == trace + [a];
    assert Lru.Since(trace + [a], a) == {};
  }

  /** How many of the calls `more` after `ops` built a payload, and on which heads. */
  function Built(w: World, ops: seq<Op>, more: seq<Op>): nat {
    if more == [] then 0
    else
      var front := more[..|more| - 1];
      Built(w, ops, front) + if Stored(w, After(w, ops + front), more[|more| - 1]) == [] then 0 else 1
  }

  function BuiltOn(w: World, ops: seq<Op>, more: seq<Op>): set<Hash> {
    if more == [] then {}
    else
      var front, last := more[..|more| - 1], more[|more| - 1];
      BuiltOn(w, ops, front) + if Stored(w, After(w, ops + front), last) == [] then {} else {last.head}
  }

  /** Where a stored id comes from. */
  lemma {:induction false} StoredOrigin(w: World, ops: seq<Op>, more: seq<Op>, x: PayloadId) returns (i: nat)
    requires Id(x) in StoredBy(w, ops, more)
    ensures i < |more| && Issued(w, ops + more, |ops| + i, x)
  {
    hide After, Do;
    var n := |more| - 1;
    var front, run := more[..n], ops + more;
    if Id(x) in Stored(w, After(w, ops + front), more[n]) {
      i := n;
      assert run[..|ops| + n] == ops + front && run[|ops| + n] == more[n];
    } else {
      i := StoredOrigin(w, ops, front, x);
      assert run[..|ops| + i] == (ops + front)[..|ops| + i] && run[|ops| + i] == (ops + front)[|ops| + i];
    }
  }

  /** The set of keys stored, given the run's last key `head`. */
  ghost function KeySet(head: Hash, keys: seq<Key>): set<Key> {
    {Parent(head)} + set k | k in keys
  }

  lemma KeySetSnoc(head: Hash, keys: seq<Key>, a: Key, b: Key)
    ensures KeySet(head, keys + [a, b]) == KeySet(head, keys) + {a} + {b}
  {
  }

  lemma AddOne<K>(s: set<K>, k: K)
    ensures |s + {k}| == if k in s then |s| else |s| + 1
  {
    if k in s {
      assert s + {k} == s;
    }
  }

  /** Each build stores one new id, and the parent key of its head. */
  lemma {:induction false} StoredCount(w: World, ops: seq<Op>, more: seq<Op>, head: Hash)
    requires Builds(ops + more) < TWO64
    ensures forall h :: Parent(h) in KeySet(head, StoredBy(w, ops, more)) <==> h in {head} + BuiltOn(w, ops, more)
    ensures |KeySet(head, StoredBy(w, ops, more))| == Built(w, ops, more) + |{head} + BuiltOn(w, ops, more)|
  {
    hide After, Builds, Stored, KeySet;
    if more == [] {
      NoKeys(head);
    } else {
      var n := |more| - 1;
      var front, last := more[..n], more[n];
      assert (ops + more)[..|ops| + n] == ops + front;
      BuildsOfPrefix(ops + more, |ops| + n);
      StoredCount(w, ops, front, head);
      var keys, new' := StoredBy(w, ops, front), Stored(w, After(w, ops + front), last);
      if new' == [] {
        assert keys + new' == keys;
      } else {
        StoredPair(w, After(w, ops + front), last);
        assert new' == [new'[0], Parent(last.head)];
        NewIdIsNew(w, ops, more, new'[0].id);
        CountPair(head, keys, BuiltOn(w, ops, front), new'[0], last.head);
      }
    }
  }

  lemma NoKeys(head: Hash)
    ensures KeySet(head, []) == {Parent(head)}
  {
  }

  lemma StoredPair(w: World, s: EngineState, op: Op)
    requires Stored(w, s, op) != []
    ensures op.ForkchoiceUpdated? && |Stored(w, s, op)| == 2 && Stored(w, s, op)[0].Id?
    ensures Stored(w, s, op)[1] == Parent(op.head)
  {
    hide Do;
  }

  lemma NewIdIsNew(w: World, ops: seq<Op>, more: seq<Op>, x: PayloadId)
    requires more != [] && Builds(ops + more) < TWO64
    requires Id(x) in Stored(w, After(w, ops + more[..|more| - 1]), more[|more| - 1])
    ensures Id(x) !in StoredBy(w, ops, more[..|more| - 1])
  {
    hide After, Builds, Do, StoredBy;
    var n := |more| - 1;
    var front, run := more[..n], ops + more;
    assert run[..|ops| + n] == ops + front && run[|ops| + n] == more[n];
    assert Issued(w, run, |ops| + n, x);
    if Id(x) in StoredBy(w, ops, front) {
      var i := StoredOrigin(w, ops, front, x);
      assert run[..|ops| + i] == (ops + front)[..|ops| + i] && run[|ops| + i] == (ops + front)[|ops| + i];
      IdsAreUnique(w, run, |ops| + i, |ops| + n, x);
    }
  }

  lemma CountPair(head: Hash, keys: seq<Key>, on: set<Hash>, id: Key, h: Hash)
    requires id.Id? && id !in keys
    requires forall k :: Parent(k) in KeySet(head, keys) <==> k in {head} + on
    ensures var all := KeySet(head, keys + [id, Parent(h)]);
      && (forall k :: Parent(k) in all <==> k in {head} + (on + {h}))
      && |all| - |KeySet(head, keys)| == 1 + |{head} + (on + {h})| - |{head} + on|
  {
    var s, heads := KeySet(head, keys), {head} + on;
    KeySetSnoc(head, keys, id, Parent(h));
    AddOne(s, id);
    AddOne(s + {id}, Parent(h));
    AddOne(heads, h);
    assert {head} + (on + {h}) == heads + {h};
  }

  /** How long an id lives while nothing is looked up: as long as the builds since, and the
      different heads of these and its own, are fewer than ten together. */
  lemma IdSurvivesIff(w: World, ops: seq<Op>, more: seq<Op>, x: PayloadId)
    requires ops != [] && Issued(w, ops, |ops| - 1, x)
    requires NoLookups(more) && Builds(ops + more) < TWO64
    ensures ops[|ops| - 1].ForkchoiceUpdated?
    ensures Id(x) in After(w, ops + more).recent.items
       <==> Built(w, ops, more) + |{ops[|ops| - 1].head} + BuiltOn(w, ops, more)| < 10
  {
    hide Do, After, Builds;
    var front, last := ops[..|ops| - 1], ops[|ops| - 1];
    assert ops == front + [last];
    BuildsOfPrefix(ops + more, |ops|);
    assert (ops + more)[..|ops|] == ops;
    IssuedIsCounted(w, ops, |ops| - 1, x);
    TraceOfCall(w, front, last);
    SinceLast(Trace(w, front), Id(x), Parent(last.head));
    TraceOfCalls(w, ops, more);
    NotStoredAgain(w, ops, more, |ops| - 1, x);
    Lru.SinceGrows(Trace(w, ops), StoredBy(w, ops, more), Id(x));
    CachedIff(w, ops + more, Id(x));
    StoredCount(w, ops, more, last.head);
  }

  lemma {:induction false} HeadsAreFew(w: World, ops: seq<Op>, more: seq<Op>)
    ensures |BuiltOn(w, ops, more)| <= Built(w, ops, more) <= Builds(more)
  {
    if more != [] {
      var front, last := more[..|more| - 1], more[|more| - 1];
      HeadsAreFew(w, ops, front);
      if last.ForkchoiceUpdated? {
        AddOne(BuiltOn(w, ops, front), last.head);
      }
    }
  }

  /** An id survives the next four payload-building updates, whatever else is sent. */
  lemma IdSurvivesFourBuilds(w: World, ops: seq<Op>, more: seq<Op>, x: PayloadId)
    requires ops != [] && Issued(w, ops, |ops| - 1, x)
    requires NoLookups(more) && Builds(ops + more) < TWO64 && Builds(more) <= 4
    ensures Id(x) in After(w, ops + more).recent.items
  {
    IdSurvivesIff(w, ops, more, x);
    HeadsAreFew(w, ops, more);
    AddOne(BuiltOn(w, ops, more), ops[|ops| - 1].head);
    assert {ops[|ops| - 1].head} + BuiltOn(w, ops, more) == BuiltOn(w, ops, more) + {ops[|ops| - 1].head};
  }

  /** Successful builds on five different heads push it out, whatever else is sent. */
  lemma IdIsDroppedByFiveBuilds(w: World, ops: seq<Op>, more: seq<Op>, x: PayloadId)
    requires ops != [] && Issued(w, ops, |ops| - 1, x)
    requires NoLookups(more) && Builds(ops + more) < TWO64 && |BuiltOn(w, ops, more)| >= 5
    ensures Id(x) !in After(w, ops + more).recent.items
  {
    IdSurvivesIff(w, ops, more, x);
    HeadsAreFew(w, ops, more);
    AddOne(BuiltOn(w, ops, more), ops[|ops| - 1].head);
    assert {ops[|ops| - 1].head} + BuiltOn(w, ops, more) == BuiltOn(w, ops, more) + {ops[|ops| - 1].head};
  }

  // --------------------------------------------------------- meaning of answers

  lemma {:induction false} StoreStaysKeyed(w: World, ops: seq<Op>)
    ensures Keyed(w, After(w, ops).store)
  {
    if ops != [] {
      StoreStaysKeyed(w, ops[..|ops| - 1]);
    }
  }

  /** VALID means full agreement between the payload and re-execution, unless the claimed
      and the computed header collide. The re-executed block is what the store then holds under
      the payload's hash exactly when no other block was there before. */
  lemma ValidMeansAgreement(w: World, ops: seq<Op>, p: ExecutionPayload)
    requires Lawful(w) && Do(w, After(w, ops), NewPayload(p)).1 == Judged(Valid)
    requires var s := After(w, ops);
      var c, h := ClaimedHeader(w, p, Decoded(w, p.transactions).value), Process(w, s.store, p).value.header;
      w.hash(c) == w.hash(h) ==> c == h
    ensures var s, t := After(w, ops), Do(w, After(w, ops), NewPayload(p)).0;
      && p.parentHash in s.store && Process(w, s.store, p).Some?
      && var b, parent := Process(w, s.store, p).value, s.store[p.parentHash].header;
      && t == s.(store := Insert(w, s.store, b)) && Agrees(w, parent, p, b)
      && p.blockHash in t.store
      && (t.store[p.blockHash] == b <==> (p.blockHash in s.store ==> s.store[p.blockHash] == b))
  {
    StoreStaysKeyed(w, ops);
    CheckedPayloadAgrees(w, After(w, ops).store, p);
  }

  /** Any other answer, and any other call, leaves the block store alone. */
  lemma OnlyValidChangesStore(w: World, s: EngineState, op: Op)
    ensures Do(w, s, op).1 != Judged(Valid) ==> Do(w, s, op).0.store == s.store
    ensures Do(w, s, op).1 == Judged(Valid) ==> op.NewPayload? && op.payload.blockHash in Do(w, s, op).0.store
  {
  }

  /** In every run, whatever is stored besides the genesis block was answered VALID before. */
  lemma {:induction false} StoredWasValid(w: World, ops: seq<Op>, k: Hash) returns (i: nat)
    requires k in After(w, ops).store && k != w.hash(w.genesis.header)
    ensures i < |ops| && AnswerTo(w, ops, i) == Judged(Valid)
    ensures ops[i].NewPayload? && ops[i].payload.blockHash == k
  {
    hide Do;
    var n := |ops| - 1;
    var front, s := ops[..n], After(w, ops[..n]);
    if k in s.store {
      i := StoredWasValid(w, front, k);
      assert front[..i] == ops[..i];
    } else {
      NewBlockWasValid(w, s, ops[n], k);
      i := n;
    }
  }

  lemma NewBlockWasValid(w: World, s: EngineState, op: Op, k: Hash)
    requires k !in s.store && k in Do(w, s, op).0.store
    ensures Do(w, s, op).1 == Judged(Valid) && op.NewPayload? && op.payload.blockHash == k
  {
    OnlyValidChangesStore(w, s, op);
  }

  /** On a proof-of-stake parent, whose difficulty is zero, the terminal check rejects every
      payload exactly when the terminal total difficulty is positive, although such a
      parent is past it. */
  lemma StakeParentRejectedIff(w: World, store: Store, p: ExecutionPayload)
    requires HashIsValid(w, p) && p.parentHash in store && store[p.parentHash].header.difficulty == 0
    ensures Judge(w, store, p) == InvalidTerminalBlock <==> w.ttd > 0
  {
  }

  /** A payload for a block built here is judged VALID exactly when the parent's own
      difficulty reaches the terminal one. */
  lemma BuiltIsValidIff(w: World, store: Store, plan: Plan)
    requires Lawful(w) && Keyed(w, store) && PostLondon(w, store, plan) && |plan.extra| <= 32
    requires Build(w, store, plan).Some? && plan.uncles == []
    requires w.calcBaseFee(store[plan.parentHash].header) < Pow256(32)
    requires store[plan.parentHash].header.number + 1 < TWO64
    ensures var b := Build(w, store, plan).value;
      && b.header.baseFee.Some? && b.header.extra == plan.extra
      && (Judge(w, store, Sent(w, b)) == Valid <==> w.ttd <= store[plan.parentHash].header.difficulty)
  {
    hide Process, HashIsValid, Build, Sent;
    BuildReexecuteAgree(w, store, plan);
    BuiltHashIsValid(w, store, plan);
    SamePending(w, store, plan);
  }

  /** The second block after the merge. The first one, built here on any parent, has difficulty
      zero; a block built on it re-executes to itself, and yet its payload is answered
      INVALID_TERMINAL_BLOCK exactly when the terminal total difficulty is positive. */
  lemma SecondStakeBlockRejectedIff(w: World, store: Store, first: Plan, second: Plan)
    requires Lawful(w) && Keyed(w, store) && Build(w, store, first).Some?
    requires var b := Build(w, store, first).value;
      && (w.hash(b.header) in store ==> store[w.hash(b.header)] == b)
      && second.parentHash == w.hash(b.header) && w.calcBaseFee(b.header) < Pow256(32) && b.header.number + 1 < TWO64
    requires var grown := Insert(w, store, Build(w, store, first).value);
      PostLondon(w, grown, second) && |second.extra| <= 32 && second.uncles == [] && Build(w, grown, second).Some?
    ensures var grown := Insert(w, store, Build(w, store, first).value);
      var b := Build(w, grown, second).value;
      && b.header.baseFee.Some? && b.header.extra == second.extra
      && Process(w, grown, Sent(w, b)) == Some(b)
      && (Judge(w, grown, Sent(w, b)) == InvalidTerminalBlock <==> w.ttd > 0)
      && (Judge(w, grown, Sent(w, b)) == Valid <==> w.ttd == 0)
  {
    hide Process, HashIsValid, Sent, Run, Lawful;
    var grown := Insert(w, store, Build(w, store, first).value);
    BuildReexecuteAgree(w, grown, second);
    BuiltHashIsValid(w, grown, second);
    SamePending(w, grown, second);
    StakeParentRejectedIff(w, grown, Sent(w, Build(w, grown, second).value));
  }

  /** Besides the genesis block the store has only children of it, all of difficulty zero. */
  predicate OneBlockDeep(w: World, store: Store) {
    forall k :: k in store && k != w.hash(w.genesis.header) ==>
      store[k].header.difficulty == 0 && store[k].header.parentHash == w.hash(w.genesis.header)
  }

  /** While the terminal difficulty is positive no call takes the engine any deeper. */
  lemma CallStaysShallow(w: World, s: EngineState, op: Op)
    requires w.ttd > 0 && Keyed(w, s.store) && OneBlockDeep(w, s.store)
    ensures Keyed(w, Do(w, s, op).0.store) && OneBlockDeep(w, Do(w, s, op).0.store)
  {
    hide HashIsValid, Run, Decoded, Prepared, Remember;
    if Do(w, s, op).1 == Judged(Valid) {
      assert s.store[op.payload.parentHash].header.difficulty > 0;
      assert op.payload.parentHash == w.hash(w.genesis.header);
    }
  }

  /** With a positive terminal difficulty the engine never gets past one block: in every run
      each stored block but the genesis block is its child, and the genesis block's own
      difficulty reaches the terminal one if there is any. */
  lemma {:induction false} NeverPastOneBlock(w: World, ops: seq<Op>)
    requires w.ttd > 0
    ensures Keyed(w, After(w, ops).store) && OneBlockDeep(w, After(w, ops).store)
    ensures w.genesis.header.difficulty < w.ttd ==> After(w, ops).store == Init(w).store
  {
    hide Do, Keyed, OneBlockDeep;
    if ops == [] {
      StartsShallow(w);
    } else {
      var front := ops[..|ops| - 1];
      NeverPastOneBlock(w, front);
      CallStaysShallow(w, After(w, front), ops[|ops| - 1]);
      if w.genesis.header.difficulty < w.ttd {
        GenesisTakesNothing(w, After(w, front), ops[|ops| - 1]);
      }
    }
  }

  lemma StartsShallow(w: World)
    ensures Keyed(w, Init(w).store) && OneBlockDeep(w, Init(w).store)
  {
  }

  lemma GenesisTakesNothing(w: World, s: EngineState, op: Op)
    requires s.store == Init(w).store && w.genesis.header.difficulty < w.ttd
    ensures Do(w, s, op).0.store == s.store
  {
    hide HashIsValid, Process, Prepared, Remember;
  }
}
