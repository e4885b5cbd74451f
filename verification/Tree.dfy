/** A tree of blocks by hash, and ancestors in it. */
module Tree {
  import opened ByteCodec
  import opened Payload
  import opened Chain
  import opened MockChain

  datatype Link = Link(parent: Hash, number: nat)

  type Tree = map<Hash, Link>

  /** Numbers count up from the root along parent links. */
  predicate Linked(t: Tree, root: Hash) {
    && root in t && t[root].number == 0
    && forall k :: k in t && k != root ==> t[k].parent in t && t[k].number == t[t[k].parent].number + 1
  }

  /** The block with number `n` on the chain that ends in `h`; `h` itself when `n` is not below it. */
  function AncestorAt(t: Tree, root: Hash, h: Hash, n: nat): (a: Hash)
    requires Linked(t, root) && h in t
    ensures a in t && t[a].number == Min(n, t[h].number)
    decreases t[h].number
  {
    if t[h].number <= n then h else AncestorAt(t, root, t[h].parent, n)
  }

  predicate IsAncestor(t: Tree, root: Hash, a: Hash, h: Hash)
    requires Linked(t, root) && h in t
  {
    a in t && AncestorAt(t, root, h, t[a].number) == a
  }

  /** Each block is the parent of the one before it. */
  predicate IsPath(t: Tree, path: seq<Hash>) {
    && path != [] && (forall i :: 0 <= i < |path| ==> path[i] in t)
    && forall i :: 0 <= i < |path| - 1 ==> t[path[i]].parent == path[i + 1]
  }

  /** An ancestor is reached by following parent links. */
  lemma {:induction false} AncestorIsOnPath(t: Tree, root: Hash, h: Hash, n: nat) returns (path: seq<Hash>)
    requires Linked(t, root) && h in t
    ensures IsPath(t, path) && path[0] == h && path[|path| - 1] == AncestorAt(t, root, h, n)
    decreases t[h].number
  {
    if t[h].number <= n {
      path := [h];
    } else {
      var rest := AncestorIsOnPath(t, root, t[h].parent, n);
      path := [h] + rest;
    }
  }

  lemma {:induction false} AncestorOfAncestor(t: Tree, root: Hash, h: Hash, m: nat, n: nat)
    requires Linked(t, root) && h in t && n <= m
    ensures AncestorAt(t, root, AncestorAt(t, root, h, m), n) == AncestorAt(t, root, h, n)
    decreases t[h].number
  {
    if t[h].number > m {
      AncestorOfAncestor(t, root, t[h].parent, m, n);
    }
  }

  lemma Transitive(t: Tree, root: Hash, a: Hash, b: Hash, h: Hash)
    requires Linked(t, root) && h in t && b in t && IsAncestor(t, root, a, b) && IsAncestor(t, root, b, h)
    ensures IsAncestor(t, root, a, h)
  {
    AncestorOfAncestor(t, root, h, t[b].number, t[a].number);
  }

  /** The tree with a block `h` on `parent`; a known block stays as it is. */
  function Grow(t: Tree, h: Hash, parent: Hash): Tree
    requires parent in t
  {
    if h in t then t else t[h := Link(parent, t[parent].number + 1)]
  }

  /** `h` is new, or known as the same child. */
  predicate Fits(t: Tree, root: Hash, h: Hash, parent: Hash) {
    parent in t && h != root && (h in t ==> t[h] == Link(parent, t[parent].number + 1))
  }

  lemma {:induction false} GrowKeepsAncestors(t: Tree, root: Hash, h: Hash, parent: Hash, k: Hash, n: nat)
    requires Linked(t, root) && Fits(t, root, h, parent) && k in t
    ensures Linked(Grow(t, h, parent), root)
    ensures AncestorAt(Grow(t, h, parent), root, k, n) == AncestorAt(t, root, k, n)
    decreases t[k].number
  {
    if t[k].number > n {
      GrowKeepsAncestors(t, root, h, parent, t[k].parent, n);
    }
  }

  /** The new block's ancestors are its parent and the parent's. */
  lemma GrowExtends(t: Tree, root: Hash, h: Hash, parent: Hash, a: Hash)
    requires Linked(t, root) && Fits(t, root, h, parent) && IsAncestor(t, root, a, parent)
    ensures Linked(Grow(t, h, parent), root) && IsAncestor(Grow(t, h, parent), root, a, h)
    ensures IsAncestor(Grow(t, h, parent), root, a, parent)
  {
    GrowKeepsAncestors(t, root, h, parent, parent, t[a].number);
  }

  // ------------------------------------------------------ the store as a tree

  function Links(store: Store): Tree {
    map k | k in store :: Link(store[k].header.parentHash, store[k].header.number)
  }

  /** Storing a built block grows the tree by a child of the planned parent. */
  lemma BuildGrows(w: World, store: Store, plan: Plan)
    requires Build(w, store, plan).Some?
    ensures var b := Build(w, store, plan).value;
      && plan.parentHash in store
      && Links(Insert(w, store, b)) == Grow(Links(store), w.hash(b.header), plan.parentHash)
  {
  }

  /** So does storing a re-executed payload. */
  lemma ProcessGrows(w: World, store: Store, p: ExecutionPayload)
    requires Keyed(w, store) && Process(w, store, p).Some?
    ensures var b := Process(w, store, p).value;
      && p.parentHash in store && w.hash(b.header) == p.blockHash
      && Links(Insert(w, store, b)) == Grow(Links(store), p.blockHash, p.parentHash)
  {
  }
}
