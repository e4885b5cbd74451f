/** The slot loop over a real block store: slots that build with AddNewBlock or process a
    payload are slots of the loop over block trees, so what holds there holds here. */
module NodeRuns {
  import opened ByteCodec
  import opened Payload
  import opened Chain
  import opened MockChain
  import opened Tree
  import Finality

  /** The consensus node: its chain, its markers, and the parent of the pending proposal. */
  datatype StoreNode = StoreNode(
    store: Store, head: Hash, finalized: Hash, safe: Hash, next: Hash, pending: Option<Hash>)

  /** A block slot comes with the plan for an external block, whose parent the slot decides,
      and with the payload fetched for a pending proposal, none if it could not be fetched or
      has another slot's timestamp. */
  datatype StoreDraw =
    | GapSlot
    | BadHashSlot
    | BlockSlot(depth: Option<real>, plan: Plan, payload: Option<ExecutionPayload>, ask: bool)

  datatype StoreTick = StoreTick(slot: int, draw: StoreDraw)

  datatype StoreOutcome = StoreRunning(node: StoreNode) | StoreHalted(node: StoreNode) | StoreCrashed

  /** The node as the tree loop sees it. */
  function Seen(n: StoreNode): Finality.Node {
    Finality.Node(Links(n.store), n.head, n.finalized, n.safe, n.next, n.pending)
  }

  predicate Sane(w: World, root: Hash, n: StoreNode) {
    Keyed(w, n.store) && Finality.WellFormed(root, Seen(n))
  }

  predicate DepthOk(c: Finality.Config, draw: StoreDraw) {
    draw.BlockSlot? && draw.depth.Some? ==> 0.0 <= draw.depth.value < c.maxDepth
  }

  /** The parent the slot builds on; none when the header lookup fails. */
  function ParentFor(w: World, c: Finality.Config, root: Hash, n: StoreNode, draw: StoreDraw): Option<Hash>
    requires Sane(w, root, n) && draw.BlockSlot? && DepthOk(c, draw)
  {
    Finality.SlotParent(c, root, Seen(n), draw.depth)
  }

  /** The block of the slot: the processed proposal, or the external block. */
  function BlockOf(w: World, n: StoreNode, draw: StoreDraw, parent: Hash): Option<Block>
    requires draw.BlockSlot?
  {
    if n.pending.Some? then
      if draw.payload.None? then None else Process(w, n.store, draw.payload.value)
    else Build(w, n.store, draw.plan.(parentHash := parent))
  }

  /** The proposal's payload is on the parent it was asked for, and no two blocks met have
      the same hash, nor any the genesis block's or none. */
  predicate CanHappen(w: World, c: Finality.Config, root: Hash, n: StoreNode, draw: StoreDraw)
    requires Sane(w, root, n)
  {
    && DepthOk(c, draw)
    && (draw.BlockSlot? && n.pending.Some? && draw.payload.Some? ==> draw.payload.value.parentHash == n.pending.value)
    && (draw.BlockSlot? ==>
          var parent := ParentFor(w, c, root, n, draw);
          parent.Some? ==>
            var b := BlockOf(w, n, draw, parent.value);
            b.Some? ==>
              var h := w.hash(b.value.header);
              h != root && h != Finality.NO_HASH && (h in n.store ==> n.store[h] == b.value))
  }

  /** A slot after its epoch update: AddNewBlock with storing, or ProcessPayload. */
  function StoreSlot(w: World, c: Finality.Config, root: Hash, n: StoreNode, draw: StoreDraw): StoreOutcome
    requires Sane(w, root, n) && DepthOk(c, draw)
  {
    match draw
    case GapSlot => StoreRunning(n.(pending := None))
    case BadHashSlot => StoreRunning(n)
    case BlockSlot(_, _, _, ask) =>
      var parent := ParentFor(w, c, root, n, draw);
      if parent.None? then StoreCrashed
      else
        var b := BlockOf(w, n, draw, parent.value);
        if b.None? then StoreRunning(n.(pending := None))
        else
          var h := w.hash(b.value.header);
          StoreRunning(n.(store := Insert(w, n.store, b.value), head := h,
                          pending := if n.pending.None? && ask then Some(h) else None))
  }

  function MarkersAt(c: Finality.Config, n: StoreNode, slot: int): StoreNode {
    if Finality.IsEpoch(c, slot) then n.(finalized := n.next, safe := n.next, next := n.head) else n
  }

  predicate StoreTickOk(w: World, c: Finality.Config, root: Hash, n: StoreNode, tick: StoreTick)
    requires Sane(w, root, n)
  {
    tick.slot > 0 ==> CanHappen(w, c, root, MarkersAt(c, n, tick.slot), tick.draw)
  }

  function StoreTickStep(w: World, c: Finality.Config, root: Hash, n: StoreNode, tick: StoreTick): StoreOutcome
    requires Sane(w, root, n) && StoreTickOk(w, c, root, n, tick)
  {
    if tick.slot < 0 then StoreRunning(n)
    else if tick.slot == 0 then StoreRunning(n.(safe := n.head))
    else if 0 < c.slotBound < tick.slot then StoreHalted(n)
    else StoreSlot(w, c, root, MarkersAt(c, n, tick.slot), tick.draw)
  }

  // ------------------------------------------------------------------ what is seen

  function SeenDraw(w: World, c: Finality.Config, root: Hash, n: StoreNode, draw: StoreDraw): Finality.Draw
    requires Sane(w, root, n) && DepthOk(c, draw)
  {
    match draw
    case GapSlot => Finality.Gap
    case BadHashSlot => Finality.BadHash
    case BlockSlot(depth, _, _, ask) =>
      var parent := ParentFor(w, c, root, n, draw);
      var b := if parent.None? then None else BlockOf(w, n, draw, parent.value);
      Finality.Block(depth, if b.None? then None else Some(w.hash(b.value.header)), ask)
  }

  function SeenTick(w: World, c: Finality.Config, root: Hash, n: StoreNode, tick: StoreTick): Finality.Tick
    requires Sane(w, root, n) && StoreTickOk(w, c, root, n, tick)
  {
    Finality.Tick(tick.slot,
                  if tick.slot > 0 then SeenDraw(w, c, root, MarkersAt(c, n, tick.slot), tick.draw) else Finality.Gap)
  }

  function SeenOutcome(r: StoreOutcome): Finality.Outcome {
    match r
    case StoreRunning(n) => Finality.Running(Seen(n))
    case StoreHalted(n) => Finality.Halted(Seen(n))
    case StoreCrashed => Finality.Crashed
  }

  // -------------------------------------------------------------------- refinement

  /** The slot's block is a child of the pending or of the chosen parent. */
  lemma BlockGrows(w: World, c: Finality.Config, root: Hash, n: StoreNode, draw: StoreDraw, parent: Hash)
    requires Sane(w, root, n) && draw.BlockSlot? && CanHappen(w, c, root, n, draw)
    requires ParentFor(w, c, root, n, draw) == Some(parent) && BlockOf(w, n, draw, parent).Some?
    ensures var b := BlockOf(w, n, draw, parent).value;
      var on, h := if n.pending.Some? then n.pending.value else parent, w.hash(b.header);
      && on in n.store && Fits(Links(n.store), root, h, on)
      && Links(Insert(w, n.store, b)) == Grow(Links(n.store), h, on) && Keyed(w, Insert(w, n.store, b))
  {
    hide Linked, AncestorAt;
    if n.pending.Some? {
      ProcessGrows(w, n.store, draw.payload.value);
    } else {
      BuildGrows(w, n.store, draw.plan.(parentHash := parent));
    }
    BlockIsChild(w, n, draw, parent);
  }

  lemma BlockIsChild(w: World, n: StoreNode, draw: StoreDraw, parent: Hash)
    requires Keyed(w, n.store) && draw.BlockSlot? && BlockOf(w, n, draw, parent).Some?
    requires n.pending.Some? && draw.payload.Some? ==> draw.payload.value.parentHash == n.pending.value
    ensures var h, on := BlockOf(w, n, draw, parent).value.header, if n.pending.Some? then n.pending.value else parent;
      h.parentHash == on && on in n.store && h.number == n.store[on].header.number + 1
  {
  }

  /** A slot over the store is a slot over its tree. */
  lemma SlotIsSeen(w: World, c: Finality.Config, root: Hash, n: StoreNode, draw: StoreDraw)
    requires Sane(w, root, n) && CanHappen(w, c, root, n, draw)
    ensures Finality.Possible(c, root, Seen(n), SeenDraw(w, c, root, n, draw))
    ensures Finality.SlotStep(c, root, Seen(n), SeenDraw(w, c, root, n, draw))
         == SeenOutcome(StoreSlot(w, c, root, n, draw))
    ensures StoreSlot(w, c, root, n, draw).StoreRunning? ==> Keyed(w, StoreSlot(w, c, root, n, draw).node.store)
  {
    hide Linked, AncestorAt, Links, BlockOf, Insert, Grow, Fits;
    if draw.BlockSlot? {
      var parent := ParentFor(w, c, root, n, draw);
      if parent.Some? && BlockOf(w, n, draw, parent.value).Some? {
        BlockGrows(w, c, root, n, draw, parent.value);
      }
    }
  }

  lemma TickIsSeen(w: World, c: Finality.Config, root: Hash, n: StoreNode, tick: StoreTick)
    requires Sane(w, root, n) && StoreTickOk(w, c, root, n, tick)
    ensures Finality.TickOk(c, root, Seen(n), SeenTick(w, c, root, n, tick))
    ensures Finality.TickStep(c, root, Seen(n), SeenTick(w, c, root, n, tick))
         == SeenOutcome(StoreTickStep(w, c, root, n, tick))
    ensures var r := StoreTickStep(w, c, root, n, tick); r.StoreRunning? ==> Sane(w, root, r.node)
  {
    hide Linked, AncestorAt, Links, CanHappen, SeenDraw, StoreSlot, Finality.Possible, Finality.SlotStep;
    if tick.slot > 0 {
      SlotIsSeen(w, c, root, MarkersAt(c, n, tick.slot), tick.draw);
    }
    Finality.TickKeepsWellFormed(c, root, Seen(n), SeenTick(w, c, root, n, tick));
  }

  /** A run over the store that neither crashes nor ends. */
  predicate IsStoreTrace(w: World, c: Finality.Config, root: Hash, nodes: seq<StoreNode>, ticks: seq<StoreTick>) {
    && |nodes| == |ticks| + 1
    && (forall i :: 0 <= i < |nodes| ==> Sane(w, root, nodes[i]))
    && forall i :: 0 <= i < |ticks| ==>
         && StoreTickOk(w, c, root, nodes[i], ticks[i])
         && StoreTickStep(w, c, root, nodes[i], ticks[i]) == StoreRunning(nodes[i + 1])
  }

  function SeenTicks(w: World, c: Finality.Config, root: Hash, nodes: seq<StoreNode>, ticks: seq<StoreTick>)
    : (r: seq<Finality.Tick>)
    requires IsStoreTrace(w, c, root, nodes, ticks)
    ensures |r| == |ticks|
  {
    seq(|ticks|, i requires 0 <= i < |ticks| => SeenTick(w, c, root, nodes[i], ticks[i]))
  }

  function SeenNodes(nodes: seq<StoreNode>): seq<Finality.Node> {
    seq(|nodes|, i requires 0 <= i < |nodes| => Seen(nodes[i]))
  }

  /** Every run over a store is a run over the tree of its blocks. */
  lemma RunIsSeen(w: World, c: Finality.Config, root: Hash, nodes: seq<StoreNode>, ticks: seq<StoreTick>)
    requires IsStoreTrace(w, c, root, nodes, ticks)
    ensures Finality.IsTrace(c, root, SeenNodes(nodes), SeenTicks(w, c, root, nodes, ticks))
  {
    hide Seen, Sane, StoreTickOk, StoreTickStep, SeenTick, Finality.TickOk, Finality.TickStep, Finality.WellFormed;
    var seen, draws := SeenNodes(nodes), SeenTicks(w, c, root, nodes, ticks);
    forall i | 0 <= i < |seen| ensures Finality.WellFormed(root, seen[i]) {
      SaneIsWellFormed(w, root, nodes[i]);
    }
    forall i | 0 <= i < |draws|
      ensures Finality.TickOk(c, root, seen[i], draws[i])
      ensures Finality.TickStep(c, root, seen[i], draws[i]) == Finality.Running(seen[i + 1])
    {
      TickIsSeen(w, c, root, nodes[i], ticks[i]);
    }
  }

  lemma SaneIsWellFormed(w: World, root: Hash, n: StoreNode)
    requires Sane(w, root, n)
    ensures Finality.WellFormed(root, Seen(n))
  {
  }

  /** So the real node never displaces the transition block while it does not crash, and keeps
      transition, finalized, next and head on one chain exactly when no tick goes back behind
      the next block. */
  lemma StoreFinality(w: World, c: Finality.Config, root: Hash, nodes: seq<StoreNode>, ticks: seq<StoreTick>, t: Hash)
    requires IsStoreTrace(w, c, root, nodes, ticks) && Finality.Chained(c, root, Seen(nodes[0]), t)
    ensures forall i :: 0 <= i < |nodes| ==> Finality.HasTransition(c, root, Seen(nodes[i]), t)
    ensures (forall i :: 0 <= i < |nodes| ==> Finality.Chained(c, root, Seen(nodes[i]), t))
       <==> (forall i :: 0 <= i < |ticks| ==>
               Finality.Careful(c, root, Seen(nodes[i]), SeenTick(w, c, root, nodes[i], ticks[i])))
  {
    hide Seen, SeenTick, StoreTickOk, StoreTickStep, Finality.Careful, Finality.IsTrace;
    var seen, draws := SeenNodes(nodes), SeenTicks(w, c, root, nodes, ticks);
    RunIsSeen(w, c, root, nodes, ticks);
    forall i | 0 <= i < |nodes| ensures Finality.HasTransition(c, root, Seen(nodes[i]), t) {
      Finality.TransitionStays(c, root, seen, draws, t, i);
    }
    Finality.ChainStaysIff(c, root, seen, draws, t);
    assert forall i :: 0 <= i < |nodes| ==> seen[i] == Seen(nodes[i]);
    assert forall i :: 0 <= i < |ticks| ==> draws[i] == SeenTick(w, c, root, nodes[i], ticks[i]);
  }

  /** And the real node's finality never reverts, in a run that starts with next on finalized,
      if and only if at every update but the last the head descended from the next block. */
  lemma StoreNeverRevertsIff(w: World, c: Finality.Config, root: Hash, nodes: seq<StoreNode>, ticks: seq<StoreTick>)
    requires IsStoreTrace(w, c, root, nodes, ticks) && Finality.NextDescends(root, Seen(nodes[0]))
    ensures (forall i, j :: 0 <= i <= j < |nodes| ==> Finality.Keeps(root, Seen(nodes[i]), Seen(nodes[j])))
       <==> (forall k, l :: 0 <= k < l < |ticks| && UpdatesAt(c, ticks[k]) && UpdatesAt(c, ticks[l]) ==>
               Finality.HeadDescends(root, Seen(nodes[k])))
  {
    hide Seen, SeenTick, StoreTickOk, StoreTickStep, Finality.Keeps, Finality.HeadDescends, Finality.IsTrace;
    var seen, draws := SeenNodes(nodes), SeenTicks(w, c, root, nodes, ticks);
    RunIsSeen(w, c, root, nodes, ticks);
    assert forall i :: 0 <= i < |nodes| ==> seen[i] == Seen(nodes[i]);
    forall i | 0 <= i < |ticks| ensures Finality.Updates(c, draws[i]) <==> UpdatesAt(c, ticks[i]) {
      SlotIsKept(w, c, root, nodes[i], ticks[i]);
    }
    Finality.NeverRevertsIff(c, root, seen, draws);
  }

  predicate UpdatesAt(c: Finality.Config, tick: StoreTick) {
    tick.slot > 0 && Finality.IsEpoch(c, tick.slot)
  }

  lemma SlotIsKept(w: World, c: Finality.Config, root: Hash, n: StoreNode, tick: StoreTick)
    requires Sane(w, root, n) && StoreTickOk(w, c, root, n, tick)
    ensures SeenTick(w, c, root, n, tick).slot == tick.slot
  {
  }
}
