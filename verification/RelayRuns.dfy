/** What holds over every run of the relay. */
module RelayRuns {
  import opened ByteCodec
  import opened Ssz
  import opened Schemas
  import opened Payload
  import opened Engine
  import opened Relay

  // -------------------------------------------------------------- registrations

  /** Registrations that were each acceptable after the ones before. */
  ghost predicate Orderly(c: Config, log: seq<SignedRegistration>) {
    forall i :: 0 <= i < |log| ==> Acceptable(c, EnteredAll(map[], log[..i]), log[i])
  }

  lemma {:induction false} EnteredConcat(table: Table, a: seq<SignedRegistration>, b: seq<SignedRegistration>)
    ensures EnteredAll(table, a + b) == EnteredAll(EnteredAll(table, a), b)
  {
    if b == [] {
      assert a + b == a;
    } else {
      var n := |b| - 1;
      assert (a + b)[..|a| + n] == a + b[..n];
      EnteredConcat(table, a, b[..n]);
    }
  }

  /** A batch is the fold of single registrations up to the first one that is rejected. */
  lemma {:induction false} BatchIsFold(c: Config, table: Table, batch: seq<SignedRegistration>, i: nat)
    requires i <= Taken(c, table, batch)
    ensures i < Taken(c, table, batch) ==> Acceptable(c, EnteredAll(table, batch[..i]), batch[i])
    ensures i == Taken(c, table, batch) < |batch| ==> !Acceptable(c, EnteredAll(table, batch[..i]), batch[i])
    decreases |batch|
  {
    hide Acceptable;
    if i == 0 {
      assert batch[..0] == [];
    } else {
      var first, rest := batch[0], batch[1..];
      BatchIsFold(c, Entered(table, first), rest, i - 1);
      assert batch[..i] == [first] + rest[..i - 1];
      EnteredConcat(table, [first], rest[..i - 1]);
      assert [first][..0] == [];
    }
  }

  /** All registrations accepted so far, in order. */
  function Log(c: Config, batches: seq<seq<SignedRegistration>>): seq<SignedRegistration> {
    if batches == [] then []
    else
      var n := |batches| - 1;
      var before := Log(c, batches[..n]);
      before + batches[n][..Taken(c, EnteredAll(map[], before), batches[n])]
  }

  /** After any batches, the table is what the accepted registrations give one by one. */
  lemma {:induction false} LogIsOrderly(c: Config, batches: seq<seq<SignedRegistration>>)
    ensures Orderly(c, Log(c, batches))
  {
    if batches != [] {
      hide Acceptable;
      var n := |batches| - 1;
      var before := Log(c, batches[..n]);
      LogIsOrderly(c, batches[..n]);
      OrderlyExtends(c, before, batches[n]);
    }
  }

  lemma OrderlyExtends(c: Config, before: seq<SignedRegistration>, batch: seq<SignedRegistration>)
    requires Orderly(c, before)
    ensures Orderly(c, before + batch[..Taken(c, EnteredAll(map[], before), batch)])
  {
    hide Acceptable, EnteredAll, Taken;
    var table := EnteredAll(map[], before);
    var more := batch[..Taken(c, table, batch)];
    var log := before + more;
    forall i | 0 <= i < |log| ensures Acceptable(c, EnteredAll(map[], log[..i]), log[i]) {
      if i < |before| {
        assert log[..i] == before[..i];
      } else {
        var k := i - |before|;
        assert log[..i] == before + batch[..k];
        BatchIsFold(c, table, batch, k);
        EnteredConcat(map[], before, batch[..k]);
      }
    }
  }

  /** Every entry is the last accepted registration for its key, and verified under it. */
  lemma {:induction false} EntriesAreSigned(c: Config, log: seq<SignedRegistration>, k: PublicKey) returns (i: nat)
    requires Orderly(c, log) && k in EnteredAll(map[], log)
    ensures i < |log| && log[i].message == EnteredAll(map[], log)[k]
    ensures log[i].message.pubkey == k && IsSigned(c, log[i])
  {
    var n := |log| - 1;
    if log[n].message.pubkey == k {
      i := n;
    } else {
      OrderlyPrefix(c, log, n);
      i := EntriesAreSigned(c, log[..n], k);
    }
  }

  lemma OrderlyPrefix(c: Config, log: seq<SignedRegistration>, n: nat)
    requires Orderly(c, log) && n <= |log|
    ensures Orderly(c, log[..n])
  {
    hide Acceptable, EnteredAll;
    forall i | 0 <= i < n ensures Acceptable(c, EnteredAll(map[], log[..n][..i]), log[..n][i]) {
      assert log[..n][..i] == log[..i];
    }
  }

  /** How often a key was accepted, and when first. */
  function Count(log: seq<SignedRegistration>, k: PublicKey): nat {
    if log == [] then 0
    else Count(log[..|log| - 1], k) + if log[|log| - 1].message.pubkey == k then 1 else 0
  }

  function FirstTime(log: seq<SignedRegistration>, k: PublicKey): nat {
    if log == [] then 0
    else if log[0].message.pubkey == k then log[0].message.timestamp
    else FirstTime(log[1..], k)
  }

  lemma {:induction false} FirstTimeStays(log: seq<SignedRegistration>, k: PublicKey)
    requires log != [] && Count(log[..|log| - 1], k) > 0
    ensures FirstTime(log, k) == FirstTime(log[..|log| - 1], k)
  {
    var front := log[..|log| - 1];
    if log[0].message.pubkey != k {
      assert front != [];
      var tail := log[1..];
      assert front[1..] == tail[..|tail| - 1];
      CountOfTail(front, k);
      FirstTimeStays(tail, k);
    }
  }

  lemma {:induction false} CountOfTail(log: seq<SignedRegistration>, k: PublicKey)
    requires log != []
    ensures Count(log, k) == Count(log[1..], k) + if log[0].message.pubkey == k then 1 else 0
  {
    var n := |log| - 1;
    if n > 0 {
      CountOfTail(log[..n], k);
      assert log[1..][..n - 1] == log[..n][1..];
    } else {
      assert log[..0] == [] && log[1..] == [];
    }
  }

  lemma {:induction false} FirstTimeOfOne(log: seq<SignedRegistration>, k: PublicKey)
    requires log != [] && Count(log[..|log| - 1], k) == 0 && log[|log| - 1].message.pubkey == k
    ensures FirstTime(log, k) == log[|log| - 1].message.timestamp
  {
    if |log| > 1 {
      var front, tail := log[..|log| - 1], log[1..];
      CountOfTail(front, k);
      assert front[1..] == tail[..|tail| - 1];
      FirstTimeOfOne(tail, k);
    }
  }

  /** The entry of a key is no newer than any registration accepted for it. */
  lemma {:induction false} EntryIsOldest(c: Config, log: seq<SignedRegistration>, i: nat)
    requires Orderly(c, log) && i < |log|
    ensures var table, k := EnteredAll(map[], log), log[i].message.pubkey;
      k in table && table[k].timestamp <= log[i].message.timestamp
  {
    hide IsSigned;
    var n := |log| - 1;
    OrderlyPrefix(c, log, n);
    assert Acceptable(c, EnteredAll(map[], log[..n]), log[n]);
    if i < n {
      EntryIsOldest(c, log[..n], i);
    }
  }

  /** Of two registrations accepted for the same key the later one is older. */
  lemma TimestampsDecrease(c: Config, log: seq<SignedRegistration>, i: nat, j: nat)
    requires Orderly(c, log) && i < j < |log| && log[i].message.pubkey == log[j].message.pubkey
    ensures log[j].message.timestamp < log[i].message.timestamp
  {
    hide IsSigned, EnteredAll;
    OrderlyPrefix(c, log, j);
    EntryIsOldest(c, log[..j], i);
    assert Acceptable(c, EnteredAll(map[], log[..j]), log[j]);
  }

  /** So each acceptance leaves room for fewer: those so far, less one, plus the current
      timestamp stay within the first. */
  lemma {:induction false} RoomShrinks(c: Config, log: seq<SignedRegistration>, k: PublicKey)
    requires Orderly(c, log)
    ensures k in EnteredAll(map[], log) <==> Count(log, k) > 0
    ensures k in EnteredAll(map[], log) ==>
              Count(log, k) + EnteredAll(map[], log)[k].timestamp <= FirstTime(log, k) + 1
  {
    if log != [] {
      hide IsSigned;
      var n := |log| - 1;
      OrderlyPrefix(c, log, n);
      RoomShrinks(c, log[..n], k);
      assert Acceptable(c, EnteredAll(map[], log[..n]), log[n]);
      if Count(log[..n], k) > 0 {
        FirstTimeStays(log, k);
      } else if log[n].message.pubkey == k {
        FirstTimeOfOne(log, k);
      }
    }
  }

  /** A key first registered at time t is accepted at most t+1 times, over any batches. */
  lemma AcceptedAtMost(c: Config, batches: seq<seq<SignedRegistration>>, k: PublicKey)
    ensures var log := Log(c, batches); Count(log, k) > 0 ==> Count(log, k) <= FirstTime(log, k) + 1
  {
    LogIsOrderly(c, batches);
    RoomShrinks(c, Log(c, batches), k);
  }

  // ------------------------------------------------------------ offers and reveals

  predicate AllTyped(ops: seq<RelayOp>) {
    forall i :: 0 <= i < |ops| ==> OpTyped(ops[i])
  }

  function RelayAfter(c: Config, s: RelayState, ops: seq<RelayOp>): RelayState
    requires AllTyped(ops)
  {
    if ops == [] then s else RelayDo(c, RelayAfter(c, s, ops[..|ops| - 1]), ops[|ops| - 1]).0
  }

  /** The operation stores a payload on the parent `h`. */
  predicate BuildsOn(op: RelayOp, h: Hash) {
    op.EngineCall? && op.op.ForkchoiceUpdated? && op.op.attributes.Some? && op.op.head == h
  }

  /** A cached payload for a parent can be dropped, but changes only by a build on that parent. */
  lemma EntryStays(c: Config, s: RelayState, op: RelayOp, h: Hash)
    requires OpTyped(op) && !BuildsOn(op, h)
    ensures var before, now := s.engine.recent.items, RelayDo(c, s, op).0.engine.recent.items;
      Parent(h) in now ==> Parent(h) in before && now[Parent(h)] == before[Parent(h)]
  {
    hide IsSigned, IsProposal, HeaderOf, BidMessage, RestOf, ParentOf, Judge, Taken, EnteredAll;
  }

  lemma {:induction false} EntryStaysOver(c: Config, s: RelayState, ops: seq<RelayOp>, h: Hash)
    requires AllTyped(ops) && forall i :: 0 <= i < |ops| ==> !BuildsOn(ops[i], h)
    ensures var before, now := s.engine.recent.items, RelayAfter(c, s, ops).engine.recent.items;
      Parent(h) in now ==> Parent(h) in before && now[Parent(h)] == before[Parent(h)]
  {
    hide RelayDo;
    if ops != [] {
      var n := |ops| - 1;
      EntryStaysOver(c, s, ops[..n], h);
      EntryStays(c, RelayAfter(c, s, ops[..n]), ops[n], h);
    }
  }

  /** What is revealed is what was offered: unless a payload was built on the same parent
      in between, converting the revealed payload back and blinding it gives the offered
      header. */
  lemma RevealMatchesOffer(c: Config, s: RelayState, request: HeaderRequest, header: PayloadHeader,
                           ops: seq<RelayOp>, block: Val, signature: Signature, rest: RestPayload)
    requires RelayDo(c, s, GetHeader(request)).1.Offer? && RelayDo(c, s, GetHeader(request)).1.header == header
    requires AllTyped(ops) && Typed(BLINDED_BLOCK, block)
    requires IsServed(request) && ParentOf(block) == ParentAsked(request)
    requires forall i :: 0 <= i < |ops| ==> !BuildsOn(ops[i], ParentAsked(request))
    requires var t := RelayAfter(c, RelayDo(c, s, GetHeader(request)).0, ops);
      RelayDo(c, t, Reveal(block, signature)).1 == Revealed(rest)
    ensures Blind(c.h, FromRest(rest)) == Some(header)
  {
    hide RelayDo, ParentOf, Blind, ToRest, FromRest, IsServed, ParentAsked;
    var t := RelayAfter(c, RelayDo(c, s, GetHeader(request)).0, ops);
    OfferIsCached(c, s, request, header);
    EntryStaysOver(c, RelayDo(c, s, GetHeader(request)).0, ops, ParentAsked(request));
    EntryStays(c, s, GetHeader(request), ParentAsked(request));
    RevealIsCached(c, t, block, signature, rest);
    BlindAfterRest(c.h, t.engine.recent.items[Parent(ParentAsked(request))]);
  }

  /** Only served requests get an offer, and it is of the payload cached for their parent. */
  lemma OfferIsCached(c: Config, s: RelayState, request: HeaderRequest, header: PayloadHeader)
    requires RelayDo(c, s, GetHeader(request)).1.Offer? && RelayDo(c, s, GetHeader(request)).1.header == header
    ensures IsServed(request)
    ensures var items, k := s.engine.recent.items, Parent(ParentAsked(request));
      k in items && items[k].baseFee.Some? && Blind(c.h, items[k]) == Some(header)
  {
    hide Blind, IsSigned, IsProposal, Taken, EnteredAll, Judge, Prepared, Remember, ReadKey, ParentAsked, IsServed;
    hide BidMessage;
  }

  lemma RevealIsCached(c: Config, s: RelayState, block: Val, signature: Signature, rest: RestPayload)
    requires Typed(BLINDED_BLOCK, block) && RelayDo(c, s, Reveal(block, signature)).1 == Revealed(rest)
    ensures var items, k := s.engine.recent.items, Parent(ParentOf(block));
      k in items && items[k].baseFee.Some? && rest == ToRest(items[k])
  {
    hide Blind, IsSigned, IsProposal, ParentOf, Taken, EnteredAll, Judge, Prepared, Remember;
  }

  /** The operation is a header request that gets an offer. */
  predicate IsOffered(c: Config, s: RelayState, op: RelayOp)
    requires OpTyped(op)
  {
    op.GetHeader? && RelayDo(c, s, op).1.Offer?
  }

  lemma OfferedIsServed(c: Config, s: RelayState, op: RelayOp)
    requires OpTyped(op) && IsOffered(c, s, op)
    ensures IsServed(op.request) && RelayDo(c, s, op).0.latestPubkey == KeyGiven(op.request)
  {
    OfferIsCached(c, s, op.request, RelayDo(c, s, op).1.header);
    ServedKeyIsRead(s.latestPubkey, op.request);
    hide ReadKey, KeyGiven, IsServed, ParentAsked, HeaderOf, BidMessage, Do;
  }

  /** The key given in the most recent header request that got an offer. */
  function LatestKey(c: Config, s: RelayState, ops: seq<RelayOp>): PublicKey
    requires AllTyped(ops)
  {
    if ops == [] then s.latestPubkey
    else
      var n := |ops| - 1;
      var before := RelayAfter(c, s, ops[..n]);
      if IsOffered(c, before, ops[n]) then
        OfferedIsServed(c, before, ops[n]);
        KeyGiven(ops[n].request)
      else LatestKey(c, s, ops[..n])
  }

  /** Nothing but an offer changes the key. */
  lemma KeyStays(c: Config, s: RelayState, op: RelayOp)
    requires OpTyped(op) && !IsOffered(c, s, op)
    ensures RelayDo(c, s, op).0.latestPubkey == s.latestPubkey
  {
    hide IsSigned, IsProposal, HeaderOf, BidMessage, RestOf, ParentOf;
    hide Do, Taken, EnteredAll, ReadKey, IsServed, ParentAsked;
  }

  lemma {:induction false} LatestKeyIsKept(c: Config, s: RelayState, ops: seq<RelayOp>)
    requires AllTyped(ops)
    ensures RelayAfter(c, s, ops).latestPubkey == LatestKey(c, s, ops)
  {
    hide RelayDo, IsOffered, KeyGiven, IsServed;
    if ops != [] {
      var n := |ops| - 1;
      LatestKeyIsKept(c, s, ops[..n]);
      if IsOffered(c, RelayAfter(c, s, ops[..n]), ops[n]) {
        OfferedIsServed(c, RelayAfter(c, s, ops[..n]), ops[n]);
      } else {
        KeyStays(c, RelayAfter(c, s, ops[..n]), ops[n]);
      }
    }
  }

  /** A payload is revealed only for a block signed under that key. */
  lemma RevealIsSigned(c: Config, s: RelayState, ops: seq<RelayOp>, block: Val, signature: Signature)
    requires AllTyped(ops) && Typed(BLINDED_BLOCK, block)
    requires RelayDo(c, RelayAfter(c, s, ops), Reveal(block, signature)).1.Revealed?
    ensures IsProposal(c, LatestKey(c, s, ops), block, signature)
  {
    LatestKeyIsKept(c, s, ops);
  }

  /** Of two registrations signed for one key the second is accepted only if it is older; a
      newer one is refused, although it is signed. */
  lemma SecondIsAcceptedIffOlder(c: Config, s: RelayState, first: SignedRegistration, second: SignedRegistration)
    requires IsSigned(c, first) && IsSigned(c, second) && first.message.pubkey == second.message.pubkey
    requires RelayDo(c, s, Register([first])).1 == Registered
    ensures var t := RelayDo(c, s, Register([first])).0;
      && RelayDo(c, t, Register([second])).1
         == (if second.message.timestamp < first.message.timestamp then Registered else Refused)
      && (second.message.timestamp >= first.message.timestamp ==> RelayDo(c, t, Register([second])).0 == t)
  {
    hide IsSigned;
    var table := s.registrations;
    OneEntered(table, first);
    assert [first][1..] == [] && [second][1..] == [] && [second][..0] == [] && [first][..1] == [first];
  }

  lemma OneEntered(table: Table, r: SignedRegistration)
    ensures EnteredAll(table, [r]) == Entered(table, r) && EnteredAll(table, []) == table
  {
    assert [r][..0] == [];
  }

  /** The batches among the operations of a run. */
  function Batches(ops: seq<RelayOp>): seq<seq<SignedRegistration>> {
    if ops == [] then []
    else
      var front, op := Batches(ops[..|ops| - 1]), ops[|ops| - 1];
      if op.Register? then front + [op.batch] else front
  }

  /** In every run the relay's table is what the accepted registrations give one by one. */
  lemma {:induction false} TableIsLog(c: Config, s: RelayState, ops: seq<RelayOp>)
    requires AllTyped(ops) && s.registrations == map[]
    ensures RelayAfter(c, s, ops).registrations == EnteredAll(map[], Log(c, Batches(ops)))
  {
    hide IsSigned, IsProposal, HeaderOf, BidMessage, RestOf, ParentOf, Do, Taken, EnteredAll;
    if ops == [] {
      NothingEntered();
    } else {
      var front, op := ops[..|ops| - 1], ops[|ops| - 1];
      TableIsLog(c, s, front);
      if op.Register? {
        var before := Batches(front);
        var log := Log(c, before);
        assert (before + [op.batch])[..|before|] == before;
        EnteredConcat(map[], log, op.batch[..Taken(c, EnteredAll(map[], log), op.batch)]);
      }
    }
  }

  lemma NothingEntered()
    ensures EnteredAll(map[], []) == map[]
  {
  }

  /** What the relay accepted in a run, in order. */
  function Accepted(c: Config, ops: seq<RelayOp>): seq<SignedRegistration> {
    Log(c, Batches(ops))
  }

  /** Over every run, timestamps accepted for a key strictly decrease. */
  lemma RunTimestampsDecrease(c: Config, ops: seq<RelayOp>, i: nat, j: nat)
    requires i < j < |Accepted(c, ops)| && Accepted(c, ops)[i].message.pubkey == Accepted(c, ops)[j].message.pubkey
    ensures Accepted(c, ops)[j].message.timestamp < Accepted(c, ops)[i].message.timestamp
  {
    LogIsOrderly(c, Batches(ops));
    TimestampsDecrease(c, Accepted(c, ops), i, j);
  }

  /** Over every run, a table entry is a registration that was accepted, verified under its
      own key, and older than every other accepted for that key. */
  lemma RunEntriesAreSigned(c: Config, s: RelayState, ops: seq<RelayOp>, k: PublicKey) returns (i: nat)
    requires AllTyped(ops) && s.registrations == map[] && k in RelayAfter(c, s, ops).registrations
    ensures i < |Accepted(c, ops)| && Accepted(c, ops)[i].message == RelayAfter(c, s, ops).registrations[k]
    ensures Accepted(c, ops)[i].message.pubkey == k && IsSigned(c, Accepted(c, ops)[i])
    ensures forall j :: 0 <= j < |Accepted(c, ops)| && Accepted(c, ops)[j].message.pubkey == k && j != i ==>
              Accepted(c, ops)[i].message.timestamp < Accepted(c, ops)[j].message.timestamp
  {
    hide IsSigned, RelayDo, EnteredAll;
    var log := Accepted(c, ops);
    TableIsLog(c, s, ops);
    LogIsOrderly(c, Batches(ops));
    i := EntriesAreSigned(c, log, k);
    forall j | 0 <= j < |log| && log[j].message.pubkey == k && j != i
      ensures log[i].message.timestamp < log[j].message.timestamp
    {
      EntryIsOldest(c, log, j);
      if i < j {
        TimestampsDecrease(c, log, i, j);
      } else {
        TimestampsDecrease(c, log, j, i);
      }
    }
  }

  /** Over every run, a key first registered at time t is accepted at most t+1 times. */
  lemma RunAcceptsAtMost(c: Config, ops: seq<RelayOp>, k: PublicKey)
    ensures var log := Accepted(c, ops); Count(log, k) > 0 ==> Count(log, k) <= FirstTime(log, k) + 1
  {
    AcceptedAtMost(c, Batches(ops), k);
  }
}
