/** The least-recently-used cache of the engine, and how it compares with a map that
    never forgets. */
module Lru {
  import opened ByteCodec

  /** Keys from most to least recently used, and their values. */
  datatype Cache<K, V> = Cache(order: seq<K>, items: map<K, V>)

  function Remove<K(==)>(order: seq<K>, k: K): seq<K> {
    if order == [] then []
    else if order[0] == k then order[1..]
    else [order[0]] + Remove(order[1..], k)
  }

  /** `k` moved to, or put at, the front. */
  function Touch<K(==)>(order: seq<K>, k: K): seq<K> {
    [k] + Remove(order, k)
  }

  function Add<K(==), V>(c: Cache<K, V>, size: nat, k: K, v: V): Cache<K, V> {
    var order := Touch(c.order, k);
    if k in c.items || |order| <= size then Cache(order, c.items[k := v])
    else
      var oldest := order[|order| - 1];
      Cache(order[..|order| - 1], c.items[k := v] - {oldest})
  }

  function Get<K(==), V>(c: Cache<K, V>, k: K): Cache<K, V> {
    if k in c.items then Cache(Touch(c.order, k), c.items) else c
  }

  predicate Distinct<K(==)>(s: seq<K>) {
    forall i, j :: 0 <= i < j < |s| ==> s[i] != s[j]
  }

  ghost predicate Coherent<K(!new), V>(c: Cache<K, V>, size: nat) {
    && |c.order| <= size
    && Distinct(c.order)
    && (forall k :: k in c.items <==> k in c.order)
  }

  // ------------------------------------------------------------ lists of keys

  lemma {:induction false} RemoveMembers<K>(s: seq<K>, k: K)
    requires Distinct(s)
    ensures Distinct(Remove(s, k)) && k !in Remove(s, k)
    ensures forall x :: x in Remove(s, k) <==> x in s && x != k
    ensures |Remove(s, k)| == if k in s then |s| - 1 else |s|
  {
    if s != [] {
      RemoveMembers(s[1..], k);
      assert s == [s[0]] + s[1..];
      assert s[0] !in s[1..];
      assert Distinct(Remove(s, k)) by {
        ConsDistinct(s[0], Remove(s[1..], k));
      }
    }
  }

  lemma ConsDistinct<K>(k: K, s: seq<K>)
    requires Distinct(s)
    ensures k !in s ==> Distinct([k] + s)
  {
  }

  lemma TouchMembers<K>(s: seq<K>, k: K)
    requires Distinct(s)
    ensures Distinct(Touch(s, k))
    ensures forall x :: x in Touch(s, k) <==> x == k || x in s
    ensures |Touch(s, k)| == if k in s then |s| else |s| + 1
  {
    RemoveMembers(s, k);
    ConsDistinct(k, Remove(s, k));
  }

  /** Touching a key changes the front of the list in the same way whether the list has
      been cut off behind it or not. */
  lemma {:induction false} RemoveTake<K>(s: seq<K>, k: K, n: nat)
    requires Distinct(s)
    ensures k in Take(s, n) ==> Remove(Take(s, n), k) == Take(Remove(s, k), n - 1)
    ensures k !in Take(s, n) ==> Remove(Take(s, n), k) == Take(s, n)
    ensures k !in Take(s, n) ==> Take(Remove(s, k), n) == Take(s, n)
  {
    if s != [] && n > 0 {
      RemoveTake(s[1..], k, n - 1);
      assert Take(s, n) == [s[0]] + Take(s[1..], n - 1);
      assert Take(s, n)[1..] == Take(s[1..], n - 1);
      if s[0] != k {
        assert Remove(s, k) == [s[0]] + Remove(s[1..], k);
        if n > 1 {
          assert Take(Remove(s, k), n - 1) == [s[0]] + Take(Remove(s[1..], k), n - 2);
        }
      }
    }
  }

  // ------------------------------------------------------------------ histories

  datatype Op<K, V> = Put(k: K, v: V) | Look(k: K)

  function Apply<K(==), V>(c: Cache<K, V>, size: nat, op: Op<K, V>): Cache<K, V> {
    match op
    case Put(k, v) => Add(c, size, k, v)
    case Look(k) => Get(c, k)
  }

  function After<K(==), V>(size: nat, ops: seq<Op<K, V>>): Cache<K, V> {
    if ops == [] then Cache([], map[])
    else Apply(After(size, ops[..|ops| - 1]), size, ops[|ops| - 1])
  }

  /** The keys touched: added, or looked up and found. */
  function Touched<K(==), V>(size: nat, ops: seq<Op<K, V>>): seq<K> {
    if ops == [] then []
    else
      var front, op := ops[..|ops| - 1], ops[|ops| - 1];
      if op.Put? || op.k in After(size, front).items then Touched(size, front) + [op.k]
      else Touched(size, front)
  }

  /** What a map that never forgets would hold. */
  function Memory<K(==), V>(ops: seq<Op<K, V>>): map<K, V> {
    if ops == [] then map[]
    else
      var front, op := Memory(ops[..|ops| - 1]), ops[|ops| - 1];
      if op.Put? then front[op.k := op.v] else front
  }

  /** All keys of a trace, the most recently touched first. */
  function Recency<K(==)>(trace: seq<K>): seq<K> {
    if trace == [] then [] else Touch(Recency(trace[..|trace| - 1]), trace[|trace| - 1])
  }

  /** The keys touched since `k` was. */
  function Since<K(==)>(trace: seq<K>, k: K): set<K> {
    if trace == [] || trace[|trace| - 1] == k then {}
    else Since(trace[..|trace| - 1], k) + {trace[|trace| - 1]}
  }

  lemma {:induction false} RecencyMembers<K>(trace: seq<K>)
    ensures Distinct(Recency(trace))
    ensures forall k :: k in Recency(trace) <==> k in trace
  {
    if trace != [] {
      var front, last := trace[..|trace| - 1], trace[|trace| - 1];
      RecencyMembers(front);
      TouchMembers(Recency(front), last);
      assert trace == front + [last];
    }
  }

  /** The cache holds the first `size` keys of `all`, with the values `memory` has. */
  ghost predicate Recent<K(!new), V>(c: Cache<K, V>, size: nat, all: seq<K>, memory: map<K, V>) {
    && Coherent(c, size) && Distinct(all) && c.order == Take(all, size)
    && (forall k :: k in c.items ==> k in memory && memory[k] == c.items[k])
  }

  lemma AddKeepsRecent<K(!new), V>(c: Cache<K, V>, size: nat, all: seq<K>, memory: map<K, V>, k: K, v: V)
    requires size > 0 && Recent(c, size, all, memory)
    ensures Recent(Add(c, size, k, v), size, Touch(all, k), memory[k := v])
  {
    hide Touch, Distinct, Take;
    TouchIsRecent(all, c.order, k, size);
    TouchMembers(c.order, k);
    TouchMembers(all, k);
    var order := Touch(c.order, k);
    if k !in c.items && |order| > size {
      CutLast(order);
    }
  }

  lemma CutLast<K>(s: seq<K>)
    requires Distinct(s) && s != []
    ensures Distinct(s[..|s| - 1])
    ensures forall x :: x in s[..|s| - 1] <==> x in s && x != s[|s| - 1]
  {
    assert s == s[..|s| - 1] + [s[|s| - 1]];
  }

  lemma GetKeepsRecent<K(!new), V>(c: Cache<K, V>, size: nat, all: seq<K>, memory: map<K, V>, k: K)
    requires size > 0 && Recent(c, size, all, memory) && k in c.items
    ensures Recent(Get(c, k), size, Touch(all, k), memory)
  {
    TouchIsRecent(all, c.order, k, size);
    TouchMembers(c.order, k);
    TouchMembers(all, k);
  }

  lemma {:induction false} CacheIsRecent<K(!new), V>(size: nat, ops: seq<Op<K, V>>)
    requires size > 0
    ensures Recent(After(size, ops), size, Recency(Touched(size, ops)), Memory(ops))
  {
    if ops != [] {
      hide Recent;
      var front, op := ops[..|ops| - 1], ops[|ops| - 1];
      CacheIsRecent(size, front);
      var trace, c := Touched(size, front), After(size, front);
      assert (trace + [op.k])[..|trace|] == trace;
      if op.Put? {
        AddKeepsRecent(c, size, Recency(trace), Memory(front), op.k, op.v);
      } else if op.k in c.items {
        GetKeepsRecent(c, size, Recency(trace), Memory(front), op.k);
      }
    }
  }

  lemma TouchIsRecent<K>(all: seq<K>, order: seq<K>, k: K, size: nat)
    requires size > 0 && Distinct(all) && order == Take(all, size)
    ensures k in order || |Touch(order, k)| <= size ==> Touch(order, k) == Take(Touch(all, k), size)
    ensures k !in order && |Touch(order, k)| > size ==>
              Touch(order, k)[..|Touch(order, k)| - 1] == Take(Touch(all, k), size)
  {
    RemoveTake(all, k, size);
    RemoveMembers(all, k);
    RemoveMembers(order, k);
    assert Take(Touch(all, k), size) == [k] + Take(Remove(all, k), size - 1);
  }

  // ------------------------------------------------------------------- presence

  /** How far back a touched key is: behind exactly the keys touched since. */
  lemma {:induction false} Rank<K>(trace: seq<K>, k: K) returns (p: nat)
    requires k in trace
    ensures p < |Recency(trace)| && Recency(trace)[p] == k
    ensures p == |Since(trace, k)|
    ensures forall x :: x in Since(trace, k) <==> x in Recency(trace)[..p]
  {
    var front, last := trace[..|trace| - 1], trace[|trace| - 1];
    var before := Recency(front);
    RecencyMembers(front);
    if last == k {
      p := 0;
    } else {
      assert trace == front + [last];
      var q := Rank(front, k);
      p := RankAfterTouch(before, k, q, last);
      RankSet(before, q, last, Since(front, k));
    }
  }

  lemma {:induction false} RankAfterTouch<K>(s: seq<K>, k: K, q: nat, last: K) returns (p: nat)
    requires Distinct(s) && q < |s| && s[q] == k && last != k
    ensures p == if last in s[..q] then q else q + 1
    ensures p < |Touch(s, last)| && Touch(s, last)[p] == k
    ensures forall x :: x in Touch(s, last)[..p] <==> x == last || x in s[..q]
  {
    p := if last in s[..q] then q else q + 1;
    RemoveBefore(s, q, last);
    var r := if last in s[..q] then q - 1 else q;
    assert Touch(s, last)[..p] == [last] + Remove(s, last)[..r];
  }

  lemma {:induction false} RemoveBefore<K>(s: seq<K>, q: nat, last: K)
    requires Distinct(s) && q < |s| && s[q] != last
    ensures var r := if last in s[..q] then q - 1 else q;
      && r < |Remove(s, last)| && Remove(s, last)[r] == s[q]
      && forall x :: x in Remove(s, last)[..r] <==> x in s[..q] && x != last
  {
    if s[0] == last {
      assert s[..q] == [s[0]] + s[1..][..q - 1];
    } else if q > 0 {
      RemoveBefore(s[1..], q - 1, last);
      assert s[..q] == [s[0]] + s[1..][..q - 1];
      var r := if last in s[..q] then q - 1 else q;
      assert Remove(s, last)[..r] == [s[0]] + Remove(s[1..], last)[..r - 1];
    }
  }

  lemma RankSet<K>(s: seq<K>, q: nat, last: K, since: set<K>)
    requires q <= |s| && q == |since|
    requires forall x :: x in since <==> x in s[..q]
    ensures |since + {last}| == if last in s[..q] then q else q + 1
  {
    if last in since {
      assert since + {last} == since;
    }
  }

  /** A key is in the cache exactly when it was touched and fewer than `size` distinct
      other keys were touched since; its value is the last one added. */
  lemma PresentIff<K(!new), V>(size: nat, ops: seq<Op<K, V>>, k: K)
    requires size > 0
    ensures k in After(size, ops).items <==> k in Touched(size, ops) && |Since(Touched(size, ops), k)| < size
    ensures k in After(size, ops).items ==> k in Memory(ops) && After(size, ops).items[k] == Memory(ops)[k]
  {
    CacheIsRecent(size, ops);
    var trace := Touched(size, ops);
    RecencyMembers(trace);
    if k in trace {
      var p := Rank(trace, k);
      var all := Recency(trace);
      if p < size {
        assert Take(all, size)[p] == k;
      }
      if k in Take(all, size) {
        var i :| 0 <= i < |Take(all, size)| && Take(all, size)[i] == k;
        assert i == p;
      }
    }
  }

  /** The keys touched since `k` after further touches of other keys. */
  lemma {:induction false} SinceGrows<K>(trace: seq<K>, more: seq<K>, k: K)
    requires k !in more
    ensures Since(trace + more, k) == Since(trace, k) + set x | x in more
  {
    if more == [] {
      assert trace + more == trace;
    } else {
      var n := |more| - 1;
      assert (trace + more)[..|trace| + n] == trace + more[..n];
      SinceGrows(trace, more[..n], k);
      assert more == more[..n] + [more[n]];
    }
  }
}
