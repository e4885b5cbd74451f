/** Slot timestamps, and the timestamps of the blocks a consensus node stores. */
module SlotClock {
  import opened ByteCodec
  import opened Payload
  import opened Chain
  import opened MockChain

  const SECOND: nat := 1_000_000_000

  /** Genesis in seconds, the slot time in nanoseconds. */
  datatype Clock = Clock(genesis: nat, slotTime: nat)

  /** The slot's start in whole seconds. */
  function Timestamp(c: Clock, slot: nat): nat {
    c.genesis + slot * c.slotTime / SECOND
  }

  /** The genesis slot starts at genesis, and every slot in the second in which its time is up:
      to the second if slots take whole seconds. */
  lemma TimestampIs(c: Clock, slot: nat)
    ensures Timestamp(c, 0) == c.genesis
    ensures var seconds := Timestamp(c, slot) - c.genesis;
      seconds * SECOND <= slot * c.slotTime < (seconds + 1) * SECOND
    ensures forall seconds: nat :: c.slotTime == seconds * SECOND ==> Timestamp(c, slot) == c.genesis + slot * seconds
  {
    assert 0 * c.slotTime / SECOND == 0;
    forall seconds: nat | c.slotTime == seconds * SECOND ensures Timestamp(c, slot) == c.genesis + slot * seconds {
      assert slot * c.slotTime == (slot * seconds) * SECOND;
    }
  }

  predicate TimestampIsValid(c: Clock, timestamp: nat, slot: nat) {
    timestamp == Timestamp(c, slot)
  }

  lemma DivMono(a: nat, b: nat)
    requires a <= b
    ensures a / SECOND <= b / SECOND
    ensures a + SECOND <= b ==> a / SECOND < b / SECOND
  {
  }

  lemma LaterSlot(c: Clock, r: nat, s: nat)
    requires r < s
    ensures r * c.slotTime + c.slotTime <= s * c.slotTime
  {
    assert s * c.slotTime == r * c.slotTime + (s - r) * c.slotTime;
    MulAtLeast(s - r, c.slotTime);
  }

  lemma TimestampsGrow(c: Clock, r: nat, s: nat)
    requires r < s
    ensures Timestamp(c, r) <= Timestamp(c, s)
    ensures c.slotTime >= SECOND ==> Timestamp(c, r) < Timestamp(c, s)
  {
    LaterSlot(c, r, s);
    DivMono(r * c.slotTime, s * c.slotTime);
  }

  /** A payload requested for one slot passes the check at no other. Slot 0 neither proposes
      nor validates. */
  ghost predicate SlotsAreDistinguished(c: Clock) {
    forall r: nat, s: nat :: r > 0 && s > 0 && TimestampIsValid(c, Timestamp(c, s), r) ==> r == s
  }

  /** Two later slots that share a timestamp when slots are shorter than a second. */
  lemma ShortSlotsCollide(c: Clock)
    requires c.slotTime < SECOND
    ensures Timestamp(c, SECOND + 1) == Timestamp(c, SECOND)
  {
    assert (SECOND + 1) * c.slotTime == SECOND * c.slotTime + c.slotTime;
  }

  /** Payloads are fresh exactly when slots take a second or more. */
  lemma FreshIffWholeSeconds(c: Clock)
    ensures SlotsAreDistinguished(c) <==> c.slotTime >= SECOND
  {
    if c.slotTime >= SECOND {
      forall r: nat, s: nat | r > 0 && s > 0 && TimestampIsValid(c, Timestamp(c, s), r) ensures r == s {
        if r < s {
          TimestampsGrow(c, r, s);
        } else if s < r {
          TimestampsGrow(c, s, r);
        }
      }
    } else {
      hide Timestamp;
      ShortSlotsCollide(c);
      assert TimestampIsValid(c, Timestamp(c, SECOND + 1), SECOND);
    }
  }

  // ------------------------------------------------------------------------ runs

  /** A slot in which a block is stored: built here, or a payload that passed the check. */
  datatype Event =
    | External(slot: nat, plan: Plan)
    | Proposal(slot: nat, payload: ExecutionPayload)

  function Stored(w: World, store: Store, e: Event): Option<Block> {
    if e.External? then Build(w, store, e.plan) else Process(w, store, e.payload)
  }

  function AfterEvent(w: World, store: Store, e: Event): Store {
    var b := Stored(w, store, e);
    if b.None? then store else Insert(w, store, b.value)
  }

  /** The event's block has its slot's timestamp, and no other block has its hash. */
  predicate Happens(w: World, c: Clock, store: Store, e: Event) {
    var b := Stored(w, store, e);
    && TimestampIsValid(c, if e.External? then e.plan.timestamp else e.payload.timestamp, e.slot)
    && (b.Some? && w.hash(b.value.header) in store ==> store[w.hash(b.value.header)] == b.value)
  }

  function After(w: World, events: seq<Event>): Store {
    if events == [] then map[w.hash(w.genesis.header) := w.genesis]
    else AfterEvent(w, After(w, events[..|events| - 1]), events[|events| - 1])
  }

  function SlotBefore(events: seq<Event>): nat {
    if events == [] then 0 else events[|events| - 1].slot
  }

  /** Slots strictly increase from the first one after genesis. */
  predicate IsRun(w: World, c: Clock, events: seq<Event>) {
    forall i :: 0 <= i < |events| ==>
      events[i].slot > SlotBefore(events[..i]) && Happens(w, c, After(w, events[..i]), events[i])
  }

  /** Every block is younger than its parent, and none is from a later slot. */
  predicate InOrder(w: World, c: Clock, store: Store, slot: nat) {
    && Keyed(w, store)
    && (forall k :: k in store ==> store[k].header.time <= Timestamp(c, slot))
    && forall k :: k in store && k != w.hash(w.genesis.header) ==> IsYounger(store, k)
  }

  /** The block is stored, as is its parent, which has a smaller timestamp. */
  predicate IsYounger(store: Store, k: Hash) {
    && k in store
    && var parent := store[k].header.parentHash;
    parent in store && store[parent].header.time < store[k].header.time
  }

  lemma StoredBlock(w: World, store: Store, e: Event)
    requires Keyed(w, store) && Stored(w, store, e).Some?
    ensures var b := Stored(w, store, e).value;
      && b.header.time == (if e.External? then e.plan.timestamp else e.payload.timestamp)
      && b.header.parentHash in store
  {
  }

  lemma LaterSlotKeepsOrder(w: World, c: Clock, store: Store, slot: nat, later: nat)
    requires InOrder(w, c, store, slot) && Timestamp(c, slot) <= Timestamp(c, later)
    ensures InOrder(w, c, store, later)
  {
    hide Timestamp;
  }

  lemma InsertKeepsOrder(w: World, c: Clock, store: Store, slot: nat, later: nat, b: Block)
    requires InOrder(w, c, store, slot) && Timestamp(c, slot) < Timestamp(c, later)
    requires w.hash(b.header) !in store && b.header.time == Timestamp(c, later) && b.header.parentHash in store
    ensures InOrder(w, c, store[w.hash(b.header) := b], later)
  {
    hide Timestamp;
    var h := w.hash(b.header);
    var grown := store[h := b];
    forall k | k in grown && k != w.hash(w.genesis.header) ensures IsYounger(grown, k) {
      if k != h {
        assert IsYounger(store, k);
      }
    }
  }

  lemma EventKeepsOrder(w: World, c: Clock, store: Store, slot: nat, e: Event)
    requires c.slotTime >= SECOND && InOrder(w, c, store, slot) && slot < e.slot && Happens(w, c, store, e)
    ensures InOrder(w, c, AfterEvent(w, store, e), e.slot)
  {
    hide Stored, Timestamp, InOrder;
    TimestampsGrow(c, slot, e.slot);
    LaterSlotKeepsOrder(w, c, store, slot, e.slot);
    var b := Stored(w, store, e);
    if b.Some? && w.hash(b.value.header) !in store {
      OrderIsKeyed(w, c, store, slot);
      StoredBlock(w, store, e);
      InsertKeepsOrder(w, c, store, slot, e.slot, b.value);
    }
  }

  lemma OrderIsKeyed(w: World, c: Clock, store: Store, slot: nat)
    requires InOrder(w, c, store, slot)
    ensures Keyed(w, store)
  {
  }

  lemma ShorterRun(w: World, c: Clock, events: seq<Event>)
    requires IsRun(w, c, events) && events != []
    ensures var n := |events| - 1;
      && IsRun(w, c, events[..n])
      && events[n].slot > SlotBefore(events[..n]) && Happens(w, c, After(w, events[..n]), events[n])
  {
    hide Happens, After, SlotBefore;
    var front := events[..|events| - 1];
    forall i | 0 <= i < |front|
      ensures front[i].slot > SlotBefore(front[..i]) && Happens(w, c, After(w, front[..i]), front[i])
    {
      assert front[..i] == events[..i];
    }
  }

  /** In every run from a genesis block that is not younger than the genesis slot, timestamps
      strictly increase along every parent link. */
  lemma {:induction false} TimesIncrease(w: World, c: Clock, events: seq<Event>)
    requires c.slotTime >= SECOND && w.genesis.header.time <= c.genesis && IsRun(w, c, events)
    ensures InOrder(w, c, After(w, events), SlotBefore(events))
  {
    hide Happens, AfterEvent, IsRun;
    if events == [] {
      assert 0 * c.slotTime / SECOND == 0;
    } else {
      var n := |events| - 1;
      ShorterRun(w, c, events);
      TimesIncrease(w, c, events[..n]);
      EventKeepsOrder(w, c, After(w, events[..n]), SlotBefore(events[..n]), events[n]);
    }
  }
}
