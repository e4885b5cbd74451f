/** Domains and signing roots, and what a signature over a root commits to. */
module Signing {
  import opened ByteCodec
  import opened Ssz
  import opened SszProofs
  import opened Merkle
  import opened HashTree
  import opened Schemas

  type DomainType = b: Bytes | |b| == 4 witness [0, 0, 0, 0]
  type Root = Bytes32

  const DOMAIN_TYPE_BEACON_PROPOSER: DomainType := [0, 0, 0, 0]
  const DOMAIN_TYPE_APP_BUILDER: DomainType := [0, 0, 0, 1]

  function SigningData(root: Root, domain: Bytes32): (v: Val)
    ensures Typed(SIGNING_DATA, v) && HashOk(SIGNING_DATA, v) && BitsOk(SIGNING_DATA, v)
  {
    var v := Rec(Cons(Blob(root), Cons(Blob(domain), Nil)));
    TypedCons(Vec(32), Blob(domain), End, Nil);
    FixedSizes();
    FixedIsHashable(SIGNING_DATA, v);
    FixedHasNoLimits(SIGNING_DATA, v);
    v
  }

  function ForkData(version: nat, validators: Root): (v: Val)
    ensures Typed(FORK_DATA, v) && HashOk(FORK_DATA, v)
  {
    var v := Rec(Cons(Blob(LE(version, 4)), Cons(Blob(validators), Nil)));
    TypedCons(Vec(32), Blob(validators), End, Nil);
    FixedSizes();
    FixedIsHashable(FORK_DATA, v);
    v
  }

  function ForkDataRoot(h: HashFn, version: nat, validators: Option<Root>): Root {
    HashTreeRoot(h, FORK_DATA, ForkData(version, if validators.None? then Zeros(32) else validators.value))
  }

  /** Fills a 32-byte domain: the type, then as much of the fork data root as fits. A
      missing validators root stands for zeros. */
  method ComputeDomain(h: HashFn, dt: DomainType, version: nat, validators: Option<Root>) returns (domain: Bytes32)
    ensures domain == Domain(h, dt, version, validators)
  {
    var root := ForkDataRoot(h, version, validators);
    var bytes := new u8[32];
    forall i | 0 <= i < 4 {
      bytes[i] := dt[i];
    }
    forall i | 4 <= i < 32 {
      bytes[i] := root[i - 4];
    }
    domain := bytes[..];
  }

  function Domain(h: HashFn, dt: DomainType, version: nat, validators: Option<Root>): Bytes32 {
    dt + ForkDataRoot(h, version, validators)[..28]
  }

  /** The message a signature is over; none when the object cannot be hashed. */
  function SigningRoot(h: HashFn, t: Ty, v: Val, domain: Bytes32): (r: Option<Root>)
    requires Typed(t, v)
    ensures r.Some? <==> HashOk(t, v)
  {
    if !HashOk(t, v) then None
    else Some(HashTreeRoot(h, SIGNING_DATA, SigningData(HashTreeRoot(h, t, v), domain)))
  }

  /** Every pair hashed for a signing root is in `s`. */
  predicate SignedIn(s: set<(Chunk, Chunk)>, h: HashFn, t: Ty, v: Val, domain: Bytes32)
    requires Typed(t, v) && HashOk(t, v)
  {
    HashedIn(s, h, t, v) && HashedIn(s, h, SIGNING_DATA, SigningData(HashTreeRoot(h, t, v), domain))
  }

  /** Equal signing roots mean equal domains and equal objects, unless two hashed pairs
      collide. */
  lemma SigningRootBinds(h: HashFn, t: Ty, v: Val, w: Val, d: Bytes32, e: Bytes32, s: set<(Chunk, Chunk)>)
    requires Sound(t) && Typed(t, v) && Typed(t, w) && BitsOk(t, v) && BitsOk(t, w)
    requires HashOk(t, v) && HashOk(t, w)
    requires NoCollision(h, s) && SignedIn(s, h, t, v, d) && SignedIn(s, h, t, w, e)
    requires SigningRoot(h, t, v, d) == SigningRoot(h, t, w, e)
    ensures d == e && v == w
  {
    var x, y := SigningData(HashTreeRoot(h, t, v), d), SigningData(HashTreeRoot(h, t, w), e);
    RootDeterminesValue(h, SIGNING_DATA, x, y, s);
    RootDeterminesValue(h, t, v, w, s);
  }

  /** The same for two signed objects of different schemas: if their domains differ, so
      do their signing roots. */
  lemma DomainsSeparate(h: HashFn, t: Ty, v: Val, u: Ty, w: Val, d: Bytes32, e: Bytes32, s: set<(Chunk, Chunk)>)
    requires Typed(t, v) && Typed(u, w) && HashOk(t, v) && HashOk(u, w)
    requires NoCollision(h, s) && SignedIn(s, h, t, v, d) && SignedIn(s, h, u, w, e) && d != e
    ensures SigningRoot(h, t, v, d) != SigningRoot(h, u, w, e)
  {
    if SigningRoot(h, t, v, d) == SigningRoot(h, u, w, e) {
      var x, y := SigningData(HashTreeRoot(h, t, v), d), SigningData(HashTreeRoot(h, u, w), e);
      RootDeterminesValue(h, SIGNING_DATA, x, y, s);
    }
  }

  /** Domains of different types differ whatever the fork. */
  lemma DomainTypesSeparate(h: HashFn, a: DomainType, b: DomainType, m: nat, n: nat, x: Option<Root>, y: Option<Root>)
    requires a != b
    ensures Domain(h, a, m, x) != Domain(h, b, n, y)
  {
    assert Domain(h, a, m, x)[..4] == a && Domain(h, b, n, y)[..4] == b;
  }
}
