/** The slot loop of the consensus node: finality, reorgs, gaps, bad hashes, proposals. */
module Finality {
  import opened ByteCodec
  import opened Payload
  import opened Tree

  const NO_HASH: Hash := Zeros(32)

  type Positive = n: nat | n > 0 witness 1

  datatype Config = Config(slotsPerEpoch: Positive, slotBound: nat, transition: nat, maxDepth: real)

  /** `pending` is the parent of the block that the engine has been asked to build. */
  datatype Node = Node(tree: Tree, head: Hash, finalized: Hash, safe: Hash, next: Hash, pending: Option<Hash>)

  /** The random draws of one slot: the reorg depth if there is a reorg, the hash of the
      block that building or processing gives (none if it fails), and whether the engine
      is asked for the next one. */
  datatype Draw =
    | Gap
    | BadHash
    | Block(depth: Option<real>, hash: Option<Hash>, ask: bool)

  datatype Tick = Tick(slot: int, draw: Draw)

  datatype Outcome = Running(node: Node) | Halted(node: Node) | Crashed

  /** Where a reorg of depth `depth` goes, never below `min`: the whole part of the larger one
      of `parent - depth` and `min`. */
  function ReorgTarget(parent: nat, min: nat, depth: real): (target: int)
    requires 0.0 <= depth
    ensures min <= target <= if min <= parent then parent else min
    ensures var goal := if parent as real - depth > min as real then parent as real - depth else min as real;
      target as real <= goal < target as real + 1.0
  {
    if parent as real - depth > min as real then (parent as real - depth).Floor else min
  }

  /** The lowest block number a reorg may go back to. */
  function ReorgMin(c: Config, n: Node): nat {
    if n.finalized in n.tree && c.transition < n.tree[n.finalized].number then n.tree[n.finalized].number
    else c.transition
  }

  /** The header on the canonical chain with a given number; none above the head. */
  function ByNumber(t: Tree, root: Hash, head: Hash, target: nat): Option<Hash>
    requires Linked(t, root) && head in t
  {
    if target > t[head].number then None else Some(AncestorAt(t, root, head, target))
  }

  function EpochUpdate(n: Node): Node {
    n.(finalized := n.next, safe := n.next, next := n.head)
  }

  predicate IsEpoch(c: Config, slot: int) {
    slot % c.slotsPerEpoch == 0
  }

  /** The parent the slot builds on; none when the lookup fails. */
  function SlotParent(c: Config, root: Hash, n: Node, depth: Option<real>): Option<Hash>
    requires Linked(n.tree, root) && n.head in n.tree && (depth.Some? ==> 0.0 <= depth.value)
  {
    if depth.None? then Some(n.head)
    else ByNumber(n.tree, root, n.head, ReorgTarget(n.tree[n.head].number, ReorgMin(c, n), depth.value))
  }

  predicate WellFormed(root: Hash, n: Node) {
    && Linked(n.tree, root) && n.head in n.tree && NO_HASH !in n.tree
    && (n.pending.Some? ==> n.pending.value == n.head)
    && (n.finalized == NO_HASH || n.finalized in n.tree)
    && (n.next == NO_HASH || n.next in n.tree)
  }

  /** Depths are in range, and the block that comes out fits into the tree. */
  predicate Possible(c: Config, root: Hash, n: Node, draw: Draw)
    requires Linked(n.tree, root) && n.head in n.tree
  {
    draw.Block? ==>
      && (draw.depth.Some? ==> 0.0 <= draw.depth.value < c.maxDepth)
      && var parent := if n.pending.Some? then n.pending else SlotParent(c, root, n, draw.depth);
      draw.hash.Some? && parent.Some? ==>
        draw.hash.value != NO_HASH && Fits(n.tree, root, draw.hash.value, parent.value)
  }

  /** A slot after its epoch update. */
  function SlotStep(c: Config, root: Hash, n: Node, draw: Draw): Outcome
    requires WellFormed(root, n) && Possible(c, root, n, draw)
  {
    match draw
    case Gap => Running(n.(pending := None))
    case BadHash => Running(n)
    case Block(depth, hash, ask) =>
      var parent := SlotParent(c, root, n, depth);
      if parent.None? then Crashed
      else if n.pending.Some? then
        if hash.None? then Running(n.(pending := None))
        else Running(n.(tree := Grow(n.tree, hash.value, n.pending.value), head := hash.value, pending := None))
      else if hash.None? then Running(n)
      else Running(n.(tree := Grow(n.tree, hash.value, parent.value), head := hash.value,
                      pending := if ask then Some(hash.value) else None))
  }

  /** The node when the slot's random draws are made. */
  function AtDraw(c: Config, n: Node, slot: int): Node {
    if IsEpoch(c, slot) then EpochUpdate(n) else n
  }

  predicate TickOk(c: Config, root: Hash, n: Node, tick: Tick)
    requires WellFormed(root, n)
  {
    tick.slot > 0 ==> Possible(c, root, AtDraw(c, n, tick.slot), tick.draw)
  }

  function TickStep(c: Config, root: Hash, n: Node, tick: Tick): Outcome
    requires WellFormed(root, n) && TickOk(c, root, n, tick)
  {
    if tick.slot < 0 then Running(n)
    else if tick.slot == 0 then Running(n.(safe := n.head))
    else if 0 < c.slotBound < tick.slot then Halted(n)
    else SlotStep(c, root, AtDraw(c, n, tick.slot), tick.draw)
  }

  // ---------------------------------------------------------------- single steps

  /** How far back the slot goes: the number of the block it builds on, if it does. */
  function BuildsOn(c: Config, n: Node, depth: real): int
    requires n.head in n.tree && 0.0 <= depth
  {
    ReorgTarget(n.tree[n.head].number, ReorgMin(c, n), depth)
  }

  /** The slot stores no block on one behind `a`, unless it is `a` itself again. */
  predicate StaysAbove(c: Config, n: Node, draw: Draw, a: Hash)
    requires n.head in n.tree
  {
    draw.Block? && draw.hash.Some? && draw.hash.value != a && n.pending.None? &&
    draw.depth.Some? && 0.0 <= draw.depth.value && a in n.tree ==>
      n.tree[a].number <= BuildsOn(c, n, draw.depth.value)
  }

  /** A slot keeps every ancestor of the head that it does not go back behind. */
  lemma SlotKeepsAncestor(c: Config, root: Hash, n: Node, draw: Draw, a: Hash)
    requires WellFormed(root, n) && Possible(c, root, n, draw)
    requires IsAncestor(n.tree, root, a, n.head) && StaysAbove(c, n, draw, a)
    ensures var r := SlotStep(c, root, n, draw);
      r.Running? ==> WellFormed(root, r.node) && IsAncestor(r.node.tree, root, a, r.node.head)
  {
    if draw.Block? && draw.hash == Some(a) {
      var parent := if n.pending.Some? then n.pending else SlotParent(c, root, n, draw.depth);
      assert parent.Some? ==> Grow(n.tree, a, parent.value) == n.tree;
    } else if draw.Block? && draw.hash.Some? {
      var parent := if n.pending.Some? then n.pending else SlotParent(c, root, n, draw.depth);
      if parent.Some? {
        AncestorOfAncestor(n.tree, root, n.head, n.tree[parent.value].number, n.tree[a].number);
        if n.pending.None? && draw.depth.Some? {
          assert IsAncestor(n.tree, root, a, parent.value);
        }
        GrowExtends(n.tree, root, draw.hash.value, parent.value, a);
      }
    }
  }

  /** It loses every other one: a block stored on one behind `a` has at most the number of
      `a`, and is not `a`. */
  lemma SlotLosesAncestor(c: Config, root: Hash, n: Node, draw: Draw, a: Hash)
    requires WellFormed(root, n) && Possible(c, root, n, draw)
    requires IsAncestor(n.tree, root, a, n.head) && !StaysAbove(c, n, draw, a)
    ensures var r := SlotStep(c, root, n, draw);
      r.Running? ==> WellFormed(root, r.node) && !IsAncestor(r.node.tree, root, a, r.node.head)
  {
    var parent := SlotParent(c, root, n, draw.depth);
    if parent.Some? {
      RootIsAncestor(n.tree, root, parent.value);
      GrowExtends(n.tree, root, draw.hash.value, parent.value, root);
    }
  }

  /** What never changes: earlier ancestors stay ancestors of what they were. */
  lemma SlotKeepsOld(c: Config, root: Hash, n: Node, draw: Draw, a: Hash, k: Hash)
    requires WellFormed(root, n) && Possible(c, root, n, draw)
    requires k in n.tree && IsAncestor(n.tree, root, a, k)
    ensures var r := SlotStep(c, root, n, draw);
      r.Running? ==> k in r.node.tree && Linked(r.node.tree, root) && IsAncestor(r.node.tree, root, a, k)
  {
    if draw.Block? && draw.hash.Some? {
      var parent := if n.pending.Some? then n.pending else SlotParent(c, root, n, draw.depth);
      if parent.Some? {
        GrowKeepsAncestors(n.tree, root, draw.hash.value, parent.value, k, n.tree[a].number);
      }
    }
  }

  /** The root is an ancestor of everything. */
  lemma {:induction false} RootIsAncestor(t: Tree, root: Hash, h: Hash)
    requires Linked(t, root) && h in t
    ensures IsAncestor(t, root, root, h)
    decreases t[h].number
  {
    if h != root {
      RootIsAncestor(t, root, t[h].parent);
    }
  }

  lemma TickKeepsWellFormed(c: Config, root: Hash, n: Node, tick: Tick)
    requires WellFormed(root, n) && TickOk(c, root, n, tick)
    ensures var r := TickStep(c, root, n, tick); r.Running? ==> WellFormed(root, r.node)
  {
    var m := AtDraw(c, n, tick.slot);
    RootIsAncestor(n.tree, root, n.head);
    if tick.slot > 0 {
      SlotKeepsAncestor(c, root, m, tick.draw, root);
    }
  }

  /** Safety between epochs: once the finalized block is an ancestor of the head, whatever
      the slot does, it stays one, and the header lookup of a reorg succeeds. */
  lemma SlotKeepsFinalized(c: Config, root: Hash, n: Node, draw: Draw)
    requires WellFormed(root, n) && Possible(c, root, n, draw)
    requires n.finalized in n.tree && IsAncestor(n.tree, root, n.finalized, n.head)
    requires c.transition <= n.tree[n.head].number
    ensures var r := SlotStep(c, root, n, draw);
      && r.Running? && WellFormed(root, r.node) && r.node.finalized == n.finalized
      && IsAncestor(r.node.tree, root, n.finalized, r.node.head)
      && c.transition <= r.node.tree[r.node.head].number
  {
    hide AncestorAt, WellFormed;
    CrashesIff(c, root, n, draw);
    FinalizedIsLow(c, root, n, draw);
    SlotKeepsAncestor(c, root, n, draw, n.finalized);
    KeepsMarkers(c, root, n, draw);
    TransitionIsBelow(c, root, n, draw);
  }

  lemma FinalizedIsLow(c: Config, root: Hash, n: Node, draw: Draw)
    requires WellFormed(root, n) && n.finalized in n.tree && IsAncestor(n.tree, root, n.finalized, n.head)
    ensures n.tree[n.finalized].number <= n.tree[n.head].number && StaysAbove(c, n, draw, n.finalized)
  {
  }

  lemma TransitionIsBelow(c: Config, root: Hash, n: Node, draw: Draw)
    requires WellFormed(root, n) && Possible(c, root, n, draw) && c.transition <= n.tree[n.head].number
    ensures var r := SlotStep(c, root, n, draw);
      r.Running? ==> r.node.head in r.node.tree && c.transition <= r.node.tree[r.node.head].number
  {
  }

  /** The lookup fails, and the node crashes, exactly when a reorg is due while the head is
      below the finalized block or the transition. */
  lemma CrashesIff(c: Config, root: Hash, n: Node, draw: Draw)
    requires WellFormed(root, n) && Possible(c, root, n, draw)
    ensures SlotStep(c, root, n, draw).Crashed?
       <==> draw.Block? && draw.depth.Some? && n.tree[n.head].number < ReorgMin(c, n)
  {
  }

  /** Where a reorg's block goes: with nothing pending it is built on the head's ancestor whose
      number is the whole part of the larger one of head number minus depth, finalized number
      (if that block is known) and transition number. */
  lemma ReorgBuildsOn(c: Config, root: Hash, n: Node, depth: real, h: Hash, ask: bool)
    requires WellFormed(root, n) && Possible(c, root, n, Block(Some(depth), Some(h), ask))
    requires n.pending.None? && h !in n.tree && 0.0 <= depth
    requires SlotStep(c, root, n, Block(Some(depth), Some(h), ask)).Running?
    ensures var m := SlotStep(c, root, n, Block(Some(depth), Some(h), ask)).node;
      && m.head == h && h in m.tree && m.tree[h].parent in n.tree
      && IsAncestor(n.tree, root, m.tree[h].parent, n.head)
      && m.tree[h].number == n.tree[m.tree[h].parent].number + 1
      && var back, number := n.tree[n.head].number as real - depth, n.tree[m.tree[h].parent].number;
      && number >= c.transition && (n.finalized in n.tree ==> number >= n.tree[n.finalized].number)
      && (number as real <= back < number as real + 1.0
          || (back < number as real
              && (number == c.transition || (n.finalized in n.tree && number == n.tree[n.finalized].number))))
  {
    var parent := SlotParent(c, root, n, Some(depth)).value;
    AncestorOfAncestor(n.tree, root, n.head, n.tree[parent].number, n.tree[parent].number);
  }

  /** Without a reorg, and with nothing pending, it is built on the head. */
  lemma ExtensionBuildsOn(c: Config, root: Hash, n: Node, h: Hash, ask: bool)
    requires WellFormed(root, n) && Possible(c, root, n, Block(None, Some(h), ask)) && n.pending.None? && h !in n.tree
    ensures var r := SlotStep(c, root, n, Block(None, Some(h), ask));
      r.Running? && r.node.head == h && r.node.tree == n.tree[h := Link(n.head, n.tree[n.head].number + 1)]
      && r.node.pending == (if ask then Some(h) else None)
  {
  }

  /** A pending proposal is built on the block it was asked for, whatever the reorg draw. */
  lemma ProposalBuildsOn(c: Config, root: Hash, n: Node, depth: Option<real>, h: Hash, ask: bool)
    requires WellFormed(root, n) && Possible(c, root, n, Block(depth, Some(h), ask)) && n.pending.Some? && h !in n.tree
    requires SlotStep(c, root, n, Block(depth, Some(h), ask)).Running?
    ensures var m := SlotStep(c, root, n, Block(depth, Some(h), ask)).node;
      m.head == h && m.pending == None
      && m.tree == n.tree[h := Link(n.pending.value, n.tree[n.pending.value].number + 1)]
  {
  }

  // ------------------------------------------------------------------------- runs

  /** A run that neither crashes nor ends. */
  predicate IsTrace(c: Config, root: Hash, nodes: seq<Node>, ticks: seq<Tick>) {
    && |nodes| == |ticks| + 1
    && (forall i :: 0 <= i < |nodes| ==> WellFormed(root, nodes[i]))
    && forall i :: 0 <= i < |ticks| ==>
         TickOk(c, root, nodes[i], ticks[i]) && TickStep(c, root, nodes[i], ticks[i]) == Running(nodes[i + 1])
  }

  /** The slot loop. It goes through the ticks until one ends it: by the slot bound, by a
      failed header lookup, or because the tick's draw is impossible in the state reached. */
  method RunNode(c: Config, root: Hash, start: Node, ticks: seq<Tick>) returns (nodes: seq<Node>)
    requires WellFormed(root, start)
    ensures 0 < |nodes| <= |ticks| + 1 && nodes[0] == start
    ensures IsTrace(c, root, nodes, ticks[..|nodes| - 1])
    ensures |nodes| <= |ticks| ==>
              var n, tick := nodes[|nodes| - 1], ticks[|nodes| - 1];
              !TickOk(c, root, n, tick) || !TickStep(c, root, n, tick).Running?
  {
    hide Linked, IsTrace;
    var tree, head, pending := start.tree, start.head, start.pending;
    var finalized, safe, next := start.finalized, start.safe, start.next;
    nodes := [start];
    EmptyTrace(c, root, start, ticks);
    for i := 0 to |ticks|
      invariant |nodes| == i + 1 && nodes[0] == start && nodes[i] == Node(tree, head, finalized, safe, next, pending)
      invariant IsTrace(c, root, nodes, ticks[..i]) && WellFormed(root, nodes[i])
    {
      var slot, draw := ticks[i].slot, ticks[i].draw;
      if !TickOk(c, root, nodes[i], ticks[i]) {
        return;
      }
      TickKeepsWellFormed(c, root, nodes[i], ticks[i]);
      if slot == 0 {
        safe := head;
      } else if slot > 0 {
        if c.slotBound > 0 && slot > c.slotBound {
          return;
        }
        if slot % c.slotsPerEpoch == 0 {
          finalized := next;
          safe := finalized;
          next := head;
        }
        match draw {
          case Gap => pending := None;
          case BadHash =>
          case Block(depth, hash, ask) =>
            var parent := Some(head);
            if depth.Some? {
              var min := c.transition;
              if finalized in tree && min < tree[finalized].number {
                min := tree[finalized].number;
              }
              var target := ReorgTarget(tree[head].number, min, depth.value);
              parent := ByNumber(tree, root, head, target);
              if parent.None? {
                return;
              }
            }
            if pending.Some? {
              if hash.Some? {
                tree, head := Grow(tree, hash.value, pending.value), hash.value;
              }
              pending := None;
            } else if hash.Some? {
              tree, head := Grow(tree, hash.value, parent.value), hash.value;
              pending := if ask then Some(head) else None;
            }
        }
      }
      var node := Node(tree, head, finalized, safe, next, pending);
      TraceGrows(c, root, nodes, ticks, i, node);
      nodes := nodes + [node];
    }
  }

  lemma EmptyTrace(c: Config, root: Hash, n: Node, ticks: seq<Tick>)
    requires WellFormed(root, n)
    ensures IsTrace(c, root, [n], ticks[..0])
  {
  }

  lemma TraceGrows(c: Config, root: Hash, nodes: seq<Node>, ticks: seq<Tick>, i: nat, n: Node)
    requires i < |ticks| && IsTrace(c, root, nodes, ticks[..i]) && |nodes| == i + 1 && WellFormed(root, n)
    requires WellFormed(root, nodes[i]) && TickOk(c, root, nodes[i], ticks[i])
    requires TickStep(c, root, nodes[i], ticks[i]) == Running(n)
    ensures IsTrace(c, root, nodes + [n], ticks[..i + 1])
  {
    hide WellFormed, TickOk, TickStep;
    var more, run := nodes + [n], ticks[..i + 1];
    forall k | 0 <= k < |run|
      ensures TickOk(c, root, more[k], run[k]) && TickStep(c, root, more[k], run[k]) == Running(more[k + 1])
    {
      if k < i {
        assert ticks[..i][k] == run[k];
      }
    }
  }

  /** The transition block is on the head's chain. */
  predicate HasTransition(c: Config, root: Hash, n: Node, t: Hash)
    requires WellFormed(root, n)
  {
    t in n.tree && n.tree[t].number == c.transition && IsAncestor(n.tree, root, t, n.head)
  }

  lemma TickKeepsTransition(c: Config, root: Hash, n: Node, tick: Tick, t: Hash)
    requires WellFormed(root, n) && TickOk(c, root, n, tick) && HasTransition(c, root, n, t)
    ensures var r := TickStep(c, root, n, tick);
      r.Running? ==> WellFormed(root, r.node) && HasTransition(c, root, r.node, t)
  {
    TickKeepsWellFormed(c, root, n, tick);
    if tick.slot > 0 {
      var m := AtDraw(c, n, tick.slot);
      SlotKeepsAncestor(c, root, m, tick.draw, t);
      SlotKeepsNumber(c, root, m, tick.draw, t);
    }
  }

  lemma SlotKeepsNumber(c: Config, root: Hash, n: Node, draw: Draw, k: Hash)
    requires WellFormed(root, n) && Possible(c, root, n, draw) && k in n.tree
    ensures var r := SlotStep(c, root, n, draw); r.Running? ==> k in r.node.tree && r.node.tree[k] == n.tree[k]
  {
  }

  /** In every run that does not crash the transition block is never displaced. */
  lemma {:induction false} TransitionStays(c: Config, root: Hash, nodes: seq<Node>, ticks: seq<Tick>, t: Hash, i: nat)
    requires IsTrace(c, root, nodes, ticks) && HasTransition(c, root, nodes[0], t) && i < |nodes|
    ensures HasTransition(c, root, nodes[i], t)
  {
    hide HasTransition, WellFormed, TickOk, TickStep;
    if i > 0 {
      TransitionStays(c, root, nodes, ticks, t, i - 1);
      assert TickStep(c, root, nodes[i - 1], ticks[i - 1]) == Running(nodes[i]);
      TickKeepsTransition(c, root, nodes[i - 1], ticks[i - 1], t);
    }
  }

  /** Between two epoch updates the finalized block stays finalized and on the head's chain. */
  lemma {:induction false} FinalizedStays(c: Config, root: Hash, nodes: seq<Node>, ticks: seq<Tick>, i: nat)
    requires IsTrace(c, root, nodes, ticks) && i < |nodes|
    requires forall k :: 0 <= k < |ticks| ==> !IsEpoch(c, ticks[k].slot)
    requires nodes[0].finalized in nodes[0].tree
    requires IsAncestor(nodes[0].tree, root, nodes[0].finalized, nodes[0].head)
    requires c.transition <= nodes[0].tree[nodes[0].head].number
    ensures nodes[i].finalized == nodes[0].finalized
    ensures IsAncestor(nodes[i].tree, root, nodes[i].finalized, nodes[i].head)
    ensures c.transition <= nodes[i].tree[nodes[i].head].number
  {
    if i > 0 {
      FinalizedStays(c, root, nodes, ticks, i - 1);
      var n, tick := nodes[i - 1], ticks[i - 1];
      assert TickStep(c, root, n, tick) == Running(nodes[i]);
      if tick.slot > 0 {
        SlotKeepsFinalized(c, root, n, tick.draw);
      }
    }
  }

  // --------------------------------------------------------------- finality chain

  /** Transition, finalized, next and head lie on one chain, in this order. */
  predicate Chained(c: Config, root: Hash, n: Node, t: Hash)
    requires WellFormed(root, n)
  {
    && HasTransition(c, root, n, t)
    && (n.next in n.tree ==> IsAncestor(n.tree, root, n.next, n.head) && IsAncestor(n.tree, root, t, n.next))
    && (n.finalized in n.tree ==>
          n.next in n.tree && IsAncestor(n.tree, root, n.finalized, n.next) && IsAncestor(n.tree, root, t, n.finalized))
  }

  /** No reorg of the tick goes back behind the block to be finalized next. */
  predicate Careful(c: Config, root: Hash, n: Node, tick: Tick)
    requires WellFormed(root, n)
  {
    tick.slot > 0 ==> StaysAbove(c, AtDraw(c, n, tick.slot), tick.draw, AtDraw(c, n, tick.slot).next)
  }

  lemma SelfAncestor(t: Tree, root: Hash, h: Hash)
    requires Linked(t, root) && h in t
    ensures IsAncestor(t, root, h, h)
  {
  }

  lemma EpochKeepsChained(c: Config, root: Hash, n: Node, t: Hash)
    requires WellFormed(root, n) && Chained(c, root, n, t)
    ensures WellFormed(root, EpochUpdate(n)) && Chained(c, root, EpochUpdate(n), t)
    ensures n.finalized in n.tree ==>
              EpochUpdate(n).finalized in n.tree && IsAncestor(n.tree, root, n.finalized, EpochUpdate(n).finalized)
  {
    SelfAncestor(n.tree, root, n.head);
  }

  lemma SlotKeepsChained(c: Config, root: Hash, n: Node, draw: Draw, t: Hash)
    requires WellFormed(root, n) && Possible(c, root, n, draw) && Chained(c, root, n, t)
    requires StaysAbove(c, n, draw, n.next)
    ensures var r := SlotStep(c, root, n, draw);
      r.Running? ==> WellFormed(root, r.node) && Chained(c, root, r.node, t)
  {
    hide StaysAbove, Possible;
    var r := SlotStep(c, root, n, draw);
    if r.Running? {
      assert StaysAbove(c, n, draw, t) by {
        TransitionIsLow(c, root, n, draw, t);
      }
      SlotKeepsAncestor(c, root, n, draw, t);
      SlotKeepsNumber(c, root, n, draw, t);
      KeepsMarkers(c, root, n, draw);
      if n.next in n.tree {
        SlotKeepsAncestor(c, root, n, draw, n.next);
        SlotKeepsOld(c, root, n, draw, t, n.next);
      }
      if n.finalized in n.tree {
        SlotKeepsOld(c, root, n, draw, n.finalized, n.next);
        SlotKeepsOld(c, root, n, draw, t, n.finalized);
      }
    }
  }

  lemma TransitionIsLow(c: Config, root: Hash, n: Node, draw: Draw, t: Hash)
    requires WellFormed(root, n) && HasTransition(c, root, n, t)
    ensures StaysAbove(c, n, draw, t)
  {
  }

  lemma KeepsMarkers(c: Config, root: Hash, n: Node, draw: Draw)
    requires WellFormed(root, n) && Possible(c, root, n, draw)
    ensures var r := SlotStep(c, root, n, draw);
      r.Running? ==>
        && r.node.finalized == n.finalized && r.node.next == n.next
        && (n.finalized !in n.tree ==> n.finalized !in r.node.tree) && (n.next !in n.tree ==> n.next !in r.node.tree)
  {
  }

  lemma TickKeepsChained(c: Config, root: Hash, n: Node, tick: Tick, t: Hash)
    requires WellFormed(root, n) && TickOk(c, root, n, tick) && Chained(c, root, n, t) && Careful(c, root, n, tick)
    ensures var r := TickStep(c, root, n, tick);
      r.Running? ==>
        && WellFormed(root, r.node) && Chained(c, root, r.node, t)
        && (n.finalized in n.tree ==>
              r.node.finalized in r.node.tree && IsAncestor(r.node.tree, root, n.finalized, r.node.finalized))
  {
    hide Possible, StaysAbove, SlotStep;
    if tick.slot > 0 && !(0 < c.slotBound < tick.slot) {
      var m := AtDraw(c, n, tick.slot);
      EpochKeepsChained(c, root, n, t);
      SlotKeepsChained(c, root, m, tick.draw, t);
      KeepsMarkers(c, root, m, tick.draw);
      if n.finalized in n.tree {
        SelfAncestor(n.tree, root, n.finalized);
        SlotKeepsOld(c, root, m, tick.draw, n.finalized, m.finalized);
      }
    } else if n.finalized in n.tree {
      SelfAncestor(n.tree, root, n.finalized);
    }
  }

  ghost predicate IsCarefulTrace(c: Config, root: Hash, nodes: seq<Node>, ticks: seq<Tick>) {
    IsTrace(c, root, nodes, ticks) && forall i :: 0 <= i < |ticks| ==> Careful(c, root, nodes[i], ticks[i])
  }

  /** One half of the finality chain: if no reorg goes back behind the block to be finalized next, then
      transition, finalized, next and head stay on one chain. */
  lemma {:induction false} ChainStays(c: Config, root: Hash, nodes: seq<Node>, ticks: seq<Tick>, t: Hash, i: nat)
    requires IsCarefulTrace(c, root, nodes, ticks) && Chained(c, root, nodes[0], t) && i < |nodes|
    ensures Chained(c, root, nodes[i], t)
  {
    hide Chained, WellFormed, TickOk, TickStep, Careful;
    if i > 0 {
      ChainStays(c, root, nodes, ticks, t, i - 1);
      assert TickStep(c, root, nodes[i - 1], ticks[i - 1]) == Running(nodes[i]);
      TickKeepsChained(c, root, nodes[i - 1], ticks[i - 1], t);
    }
  }

  /** A slot keeps the chain exactly when it does not go back behind the next block. */
  lemma SlotKeepsChainedIff(c: Config, root: Hash, n: Node, draw: Draw, t: Hash)
    requires WellFormed(root, n) && Possible(c, root, n, draw) && Chained(c, root, n, t)
    requires SlotStep(c, root, n, draw).Running?
    ensures var m := SlotStep(c, root, n, draw).node;
      WellFormed(root, m) && (Chained(c, root, m, t) <==> StaysAbove(c, n, draw, n.next))
  {
    hide Possible, SlotStep;
    if StaysAbove(c, n, draw, n.next) {
      SlotKeepsChained(c, root, n, draw, t);
    } else {
      SlotLosesAncestor(c, root, n, draw, n.next);
      SlotKeepsNumber(c, root, n, draw, n.next);
      KeepsMarkers(c, root, n, draw);
    }
  }

  lemma TickKeepsChainedIff(c: Config, root: Hash, n: Node, tick: Tick, t: Hash)
    requires WellFormed(root, n) && TickOk(c, root, n, tick) && Chained(c, root, n, t)
    requires TickStep(c, root, n, tick).Running?
    ensures var m := TickStep(c, root, n, tick).node;
      WellFormed(root, m) && (Chained(c, root, m, t) <==> Careful(c, root, n, tick))
  {
    hide Possible, StaysAbove, SlotStep;
    if tick.slot > 0 {
      EpochKeepsChained(c, root, n, t);
      SlotKeepsChainedIff(c, root, AtDraw(c, n, tick.slot), tick.draw, t);
    }
  }

  /** In a run that starts with transition, finalized, next and head on one chain, they stay
      on one chain if and only if no tick goes back behind the next block. */
  lemma ChainStaysIff(c: Config, root: Hash, nodes: seq<Node>, ticks: seq<Tick>, t: Hash)
    requires IsTrace(c, root, nodes, ticks) && Chained(c, root, nodes[0], t)
    ensures (forall i :: 0 <= i < |nodes| ==> Chained(c, root, nodes[i], t))
       <==> (forall i :: 0 <= i < |ticks| ==> Careful(c, root, nodes[i], ticks[i]))
  {
    hide Chained, WellFormed, TickOk, TickStep, Careful;
    if forall i :: 0 <= i < |nodes| ==> Chained(c, root, nodes[i], t) {
      forall i | 0 <= i < |ticks| ensures Careful(c, root, nodes[i], ticks[i]) {
        assert TickStep(c, root, nodes[i], ticks[i]) == Running(nodes[i + 1]);
        TickKeepsChainedIff(c, root, nodes[i], ticks[i], t);
      }
    }
    if forall i :: 0 <= i < |ticks| ==> Careful(c, root, nodes[i], ticks[i]) {
      forall i | 0 <= i < |nodes| ensures Chained(c, root, nodes[i], t) {
        ChainStays(c, root, nodes, ticks, t, i);
      }
    }
  }

  lemma TickKeepsOld(c: Config, root: Hash, n: Node, tick: Tick, a: Hash, k: Hash)
    requires WellFormed(root, n) && TickOk(c, root, n, tick)
    requires k in n.tree && IsAncestor(n.tree, root, a, k)
    ensures var r := TickStep(c, root, n, tick);
      r.Running? ==> k in r.node.tree && Linked(r.node.tree, root) && IsAncestor(r.node.tree, root, a, k)
  {
    if tick.slot > 0 {
      SlotKeepsOld(c, root, AtDraw(c, n, tick.slot), tick.draw, a, k);
    }
  }

  // ------------------------------------------------------- when finality reverts

  /** The tick finalizes the next block. */
  predicate Updates(c: Config, tick: Tick) {
    tick.slot > 0 && IsEpoch(c, tick.slot)
  }

  /** The next block to be finalized descends from the finalized one. */
  predicate NextDescends(root: Hash, n: Node)
    requires WellFormed(root, n)
  {
    n.finalized in n.tree ==> n.next in n.tree && IsAncestor(n.tree, root, n.finalized, n.next)
  }

  /** The head, which an update makes the next block, descends from the next one. */
  predicate HeadDescends(root: Hash, n: Node)
    requires WellFormed(root, n)
  {
    n.next in n.tree ==> IsAncestor(n.tree, root, n.next, n.head)
  }

  /** What is finalized in `n` is an ancestor of what is finalized in `m`. */
  predicate Keeps(root: Hash, n: Node, m: Node)
    requires WellFormed(root, m)
  {
    n.finalized in n.tree ==> m.finalized in m.tree && IsAncestor(m.tree, root, n.finalized, m.finalized)
  }

  /** Ancestry among known blocks is the same before and after a tick. */
  lemma TickSeesSameAncestors(c: Config, root: Hash, n: Node, tick: Tick, a: Hash, k: Hash)
    requires WellFormed(root, n) && TickOk(c, root, n, tick) && TickStep(c, root, n, tick).Running?
    requires a in n.tree && k in n.tree
    ensures var m := TickStep(c, root, n, tick).node;
      && a in m.tree && k in m.tree && Linked(m.tree, root)
      && (IsAncestor(m.tree, root, a, k) <==> IsAncestor(n.tree, root, a, k))
  {
    hide AncestorAt, Linked, ReorgTarget, ReorgMin;
    if tick.slot > 0 {
      var at, draw := AtDraw(c, n, tick.slot), tick.draw;
      if draw.Block? && draw.hash.Some? {
        var parent := if at.pending.Some? then at.pending else SlotParent(c, root, at, draw.depth);
        GrowKeepsAncestors(n.tree, root, draw.hash.value, parent.value, k, n.tree[a].number);
      }
    }
  }

  /** What a tick leaves finalized and next. */
  lemma TickMarkers(c: Config, root: Hash, n: Node, tick: Tick)
    requires WellFormed(root, n) && TickOk(c, root, n, tick) && TickStep(c, root, n, tick).Running?
    ensures var m := TickStep(c, root, n, tick).node;
      && WellFormed(root, m)
      && m.finalized == (if Updates(c, tick) then n.next else n.finalized)
      && m.next == (if Updates(c, tick) then n.head else n.next)
      && (m.finalized in m.tree <==> m.finalized in n.tree) && (m.next in m.tree <==> m.next in n.tree)
  {
    TickKeepsWellFormed(c, root, n, tick);
    if tick.slot > 0 {
      KeepsMarkers(c, root, AtDraw(c, n, tick.slot), tick.draw);
      SlotKeepsNumber(c, root, AtDraw(c, n, tick.slot), tick.draw, n.head);
      if n.finalized in n.tree {
        SlotKeepsNumber(c, root, AtDraw(c, n, tick.slot), tick.draw, n.finalized);
      }
      if n.next in n.tree {
        SlotKeepsNumber(c, root, AtDraw(c, n, tick.slot), tick.draw, n.next);
      }
    }
  }

  /** An update leaves next on finalized exactly when the head was on next; other ticks leave
      this as it was. An update keeps what was finalized exactly when next was on it; other
      ticks always do. */
  lemma TickKeepsIff(c: Config, root: Hash, n: Node, tick: Tick)
    requires WellFormed(root, n) && TickOk(c, root, n, tick) && TickStep(c, root, n, tick).Running?
    ensures var m := TickStep(c, root, n, tick).node;
      && WellFormed(root, m)
      && (NextDescends(root, m) <==> if Updates(c, tick) then HeadDescends(root, n) else NextDescends(root, n))
      && (Keeps(root, n, m) <==> (Updates(c, tick) ==> NextDescends(root, n)))
  {
    hide TickOk, TickStep, IsAncestor, Linked, IsEpoch;
    TickMarkers(c, root, n, tick);
    if n.next in n.tree {
      TickSeesSameAncestors(c, root, n, tick, n.next, n.head);
    }
    if n.finalized in n.tree {
      SelfAncestor(n.tree, root, n.finalized);
      TickSeesSameAncestors(c, root, n, tick, n.finalized, n.finalized);
      if n.next in n.tree {
        TickSeesSameAncestors(c, root, n, tick, n.finalized, n.next);
      }
    }
  }

  /** Up to the last update, the head descended from the next block at every update. */
  predicate SteadyUpdates(c: Config, root: Hash, nodes: seq<Node>, ticks: seq<Tick>)
    requires IsTrace(c, root, nodes, ticks)
  {
    forall k, l :: 0 <= k < l < |ticks| && Updates(c, ticks[k]) && Updates(c, ticks[l]) ==> HeadDescends(root, nodes[k])
  }

  lemma {:induction false} DescendsUntil(c: Config, root: Hash, nodes: seq<Node>, ticks: seq<Tick>, i: nat, l: nat)
    requires IsTrace(c, root, nodes, ticks) && NextDescends(root, nodes[0]) && SteadyUpdates(c, root, nodes, ticks)
    requires i <= l < |ticks| && Updates(c, ticks[l])
    ensures NextDescends(root, nodes[i])
  {
    hide WellFormed, TickOk, TickStep, NextDescends, HeadDescends, Keeps, Updates;
    if i > 0 {
      DescendsUntil(c, root, nodes, ticks, i - 1, l);
      assert TickStep(c, root, nodes[i - 1], ticks[i - 1]) == Running(nodes[i]);
      TickKeepsIff(c, root, nodes[i - 1], ticks[i - 1]);
    }
  }

  lemma {:induction false} SteadyKeeps(c: Config, root: Hash, nodes: seq<Node>, ticks: seq<Tick>, i: nat, j: nat)
    requires IsTrace(c, root, nodes, ticks) && NextDescends(root, nodes[0]) && SteadyUpdates(c, root, nodes, ticks)
    requires i <= j < |nodes|
    ensures Keeps(root, nodes[i], nodes[j])
  {
    hide TickOk, TickStep, NextDescends, HeadDescends, Updates, IsAncestor, Linked;
    if i == j {
      if nodes[i].finalized in nodes[i].tree {
        SelfAncestor(nodes[i].tree, root, nodes[i].finalized);
      }
    } else {
      var n, m := nodes[j - 1], nodes[j];
      SteadyKeeps(c, root, nodes, ticks, i, j - 1);
      assert TickStep(c, root, n, ticks[j - 1]) == Running(m);
      if Updates(c, ticks[j - 1]) {
        DescendsUntil(c, root, nodes, ticks, j - 1, j - 1);
      }
      TickKeepsIff(c, root, n, ticks[j - 1]);
      if nodes[i].finalized in nodes[i].tree {
        TickKeepsOld(c, root, n, ticks[j - 1], nodes[i].finalized, n.finalized);
        Transitive(m.tree, root, nodes[i].finalized, n.finalized, m.finalized);
      }
    }
  }

  /** If finality never reverts, next is on finalized at every point up to an update. */
  lemma {:induction false} KeptDescends(c: Config, root: Hash, nodes: seq<Node>, ticks: seq<Tick>, i: nat, l: nat)
    requires IsTrace(c, root, nodes, ticks)
    requires forall k :: 0 <= k < |ticks| ==> Keeps(root, nodes[k], nodes[k + 1])
    requires i <= l < |ticks| && Updates(c, ticks[l])
    ensures NextDescends(root, nodes[i])
    decreases l - i
  {
    hide WellFormed, TickOk, TickStep, NextDescends, HeadDescends, Keeps, Updates;
    assert TickStep(c, root, nodes[i], ticks[i]) == Running(nodes[i + 1]);
    TickKeepsIff(c, root, nodes[i], ticks[i]);
    if !Updates(c, ticks[i]) {
      KeptDescends(c, root, nodes, ticks, i + 1, l);
    }
  }

  /** Finality never reverts, in a run that starts with next on finalized, if and only if at
      every update but the last the head descended from the next block. */
  lemma NeverRevertsIff(c: Config, root: Hash, nodes: seq<Node>, ticks: seq<Tick>)
    requires IsTrace(c, root, nodes, ticks) && NextDescends(root, nodes[0])
    ensures (forall i, j :: 0 <= i <= j < |nodes| ==> Keeps(root, nodes[i], nodes[j]))
       <==> SteadyUpdates(c, root, nodes, ticks)
  {
    hide WellFormed, TickOk, TickStep, NextDescends, HeadDescends, Keeps, Updates;
    if SteadyUpdates(c, root, nodes, ticks) {
      forall i, j | 0 <= i <= j < |nodes| ensures Keeps(root, nodes[i], nodes[j]) {
        SteadyKeeps(c, root, nodes, ticks, i, j);
      }
    }
    if forall i, j :: 0 <= i <= j < |nodes| ==> Keeps(root, nodes[i], nodes[j]) {
      forall k, l | 0 <= k < l < |ticks| && Updates(c, ticks[k]) && Updates(c, ticks[l])
        ensures HeadDescends(root, nodes[k])
      {
        KeptDescends(c, root, nodes, ticks, k + 1, l);
        assert TickStep(c, root, nodes[k], ticks[k]) == Running(nodes[k + 1]);
        TickKeepsIff(c, root, nodes[k], ticks[k]);
      }
    }
  }

  /** So it never reverts while no tick goes back behind the next block. */
  lemma FinalityNeverReverts(c: Config, root: Hash, nodes: seq<Node>, ticks: seq<Tick>, t: Hash, i: nat, j: nat)
    requires IsCarefulTrace(c, root, nodes, ticks) && Chained(c, root, nodes[0], t) && i <= j < |nodes|
    ensures Keeps(root, nodes[i], nodes[j])
  {
    hide TickOk, TickStep, Careful, IsAncestor, HasTransition, Keeps;
    forall k, l | 0 <= k < l < |ticks| && Updates(c, ticks[k]) && Updates(c, ticks[l])
      ensures HeadDescends(root, nodes[k])
    {
      ChainStays(c, root, nodes, ticks, t, k);
    }
    SteadyKeeps(c, root, nodes, ticks, i, j);
  }

  // --------------------------------------------------------------- why care is needed

  function Name(i: nat): Hash
    requires i < 256
  {
    [i] + Zeros(31)
  }

  /** Three ticks of a two-slot epoch, from a chain of two blocks on the genesis block. */
  const EPOCHS_OF_TWO: Config := Config(2, 0, 0, 8.0)
  const GENESIS: Hash := Name(1)
  const TWO_BLOCKS: Tree :=
    map[Name(1) := Link(Name(1), 0), Name(2) := Link(Name(1), 1), Name(3) := Link(Name(2), 2)]
  const BEFORE: Node := Node(TWO_BLOCKS, Name(3), NO_HASH, NO_HASH, NO_HASH, None)

  /** Block 3 becomes next to be finalized, a reorg to the genesis block leaves it behind, and
      it is finalized off the head's chain. */
  const FORGETFUL: seq<Tick> :=
    [Tick(2, Gap), Tick(3, Block(Some(5.0), Some(Name(4)), false)), Tick(4, Gap)]

  lemma NamesDiffer(i: nat, j: nat)
    requires i < 256 && j < 256 && i != j
    ensures Name(i) != Name(j) && (i != 0 ==> Name(i) != NO_HASH)
  {
    assert Name(i)[0] == i && Name(j)[0] == j && NO_HASH[0] == 0;
  }

  lemma AllNamesDiffer()
    ensures forall i, j :: 1 <= i < j < 6 ==> Name(i) != Name(j)
    ensures forall i :: 1 <= i < 6 ==> Name(i) != NO_HASH
  {
    forall i, j | 1 <= i < j < 6 ensures Name(i) != Name(j) {
      NamesDiffer(i, j);
    }
    forall i | 1 <= i < 6 ensures Name(i) != NO_HASH {
      NamesDiffer(i, 0);
    }
  }

  const FORKED: Tree := Grow(TWO_BLOCKS, Name(4), Name(1))

  function Forgotten(): seq<Node> {
    var n := BEFORE.(next := Name(3));
    var m := n.(tree := FORKED, head := Name(4));
    [BEFORE, n, m, m.(finalized := Name(3), safe := Name(3), next := Name(4))]
  }

  lemma TreesAreLinked()
    ensures Linked(TWO_BLOCKS, GENESIS) && Linked(FORKED, GENESIS)
    ensures NO_HASH !in TWO_BLOCKS && NO_HASH !in FORKED
    ensures TWO_BLOCKS[Name(3)].number == 2 && FORKED[Name(3)].number == 2 && FORKED[Name(4)].number == 1
    ensures Name(4) !in TWO_BLOCKS && Name(3) in TWO_BLOCKS && Name(3) in FORKED && Name(4) in FORKED
  {
    AllNamesDiffer();
  }

  lemma BackToGenesis()
    ensures Linked(TWO_BLOCKS, GENESIS) && Name(3) in TWO_BLOCKS
    ensures AncestorAt(TWO_BLOCKS, GENESIS, Name(3), 0) == GENESIS
  {
    TreesAreLinked();
    RootIsAncestor(TWO_BLOCKS, GENESIS, Name(3));
  }

  /** Without that care finality can be left behind: the run starts with everything on one
      chain, and ends with a finalized block that is no ancestor of the head. The next reorg
      then finds no header. */
  lemma FinalityCanBeLeftBehind()
    ensures IsTrace(EPOCHS_OF_TWO, GENESIS, Forgotten(), FORGETFUL)
    ensures Chained(EPOCHS_OF_TWO, GENESIS, Forgotten()[0], GENESIS)
    ensures var n := Forgotten()[3];
      && n.finalized in n.tree && !IsAncestor(n.tree, GENESIS, n.finalized, n.head)
      && Possible(EPOCHS_OF_TWO, GENESIS, n, Block(Some(0.0), None, false))
      && SlotStep(EPOCHS_OF_TWO, GENESIS, n, Block(Some(0.0), None, false)).Crashed?
  {
    AllNamesDiffer();
    TreesAreLinked();
    BackToGenesis();
    ForgottenNodes();
    ForgottenSteps();
  }

  lemma ForgottenNodes()
    ensures forall i :: 0 <= i < 4 ==> WellFormed(GENESIS, Forgotten()[i])
  {
    AllNamesDiffer();
    TreesAreLinked();
  }

  lemma ForkStep()
    requires forall i :: 0 <= i < 4 ==> WellFormed(GENESIS, Forgotten()[i])
    ensures TickOk(EPOCHS_OF_TWO, GENESIS, Forgotten()[1], FORGETFUL[1])
    ensures TickStep(EPOCHS_OF_TWO, GENESIS, Forgotten()[1], FORGETFUL[1]) == Running(Forgotten()[2])
  {
    AllNamesDiffer();
    TreesAreLinked();
    BackToGenesis();
    hide Linked, WellFormed, AncestorAt;
    assert SlotParent(EPOCHS_OF_TWO, GENESIS, Forgotten()[1], Some(5.0)) == Some(GENESIS);
  }

  lemma ForgottenSteps()
    requires forall i :: 0 <= i < 4 ==> WellFormed(GENESIS, Forgotten()[i])
    ensures forall i :: 0 <= i < 3 ==>
              && TickOk(EPOCHS_OF_TWO, GENESIS, Forgotten()[i], FORGETFUL[i])
              && TickStep(EPOCHS_OF_TWO, GENESIS, Forgotten()[i], FORGETFUL[i]) == Running(Forgotten()[i + 1])
  {
    hide WellFormed;
    ForkStep();
  }

  /** The next update of that run: the head's block is finalized in place of block 3. */
  const REVERTING: seq<Tick> := FORGETFUL + [Tick(6, Gap)]

  function Reverted(): seq<Node> {
    var n := Forgotten()[3];
    Forgotten() + [n.(finalized := Name(4), safe := Name(4))]
  }

  /** Finality does revert: a run that starts with everything on one chain finalizes block 3,
      and then block 4, which does not descend from it. */
  lemma FinalityCanRevert()
    ensures IsTrace(EPOCHS_OF_TWO, GENESIS, Reverted(), REVERTING)
    ensures Chained(EPOCHS_OF_TWO, GENESIS, Reverted()[0], GENESIS) && NextDescends(GENESIS, Reverted()[0])
    ensures var n, m := Reverted()[3], Reverted()[4];
      && n.finalized == Name(3) && n.finalized in n.tree && m.finalized == Name(4) && m.finalized in m.tree
      && !IsAncestor(m.tree, GENESIS, n.finalized, m.finalized) && !Keeps(GENESIS, n, m)
  {
    FinalityCanBeLeftBehind();
    AllNamesDiffer();
    TreesAreLinked();
    hide IsTrace, Linked, AncestorAt;
    var nodes, n, m := Forgotten(), Reverted()[3], Reverted()[4];
    assert REVERTING[..3] == FORGETFUL && REVERTING[..4] == REVERTING;
    ForgottenNodes();
    assert TickStep(EPOCHS_OF_TWO, GENESIS, n, REVERTING[3]) == Running(m);
    TraceGrows(EPOCHS_OF_TWO, GENESIS, nodes, REVERTING, 3, m);
  }
}
