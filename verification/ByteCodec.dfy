/** Bytes, machine words and the little-endian number codec that the SSZ
    encoding and the 256-bit text codec are built on. */
module ByteCodec {

  type u8 = x: nat | x < 256
  type u64 = x: nat | x < 0x1_0000_0000_0000_0000
  type Bytes = seq<u8>
  type Bytes32 = b: Bytes | |b| == 32 witness seq(32, _ => 0)

  datatype Option<+T> = None | Some(value: T)

  const TWO32: nat := 0x1_0000_0000

  /** `k` zero bytes. */
  function Zeros(k: nat): (b: Bytes)
    ensures |b| == k
  {
    seq(k, _ => 0)
  }

  function Min(a: nat, b: nat): nat {
    if a <= b then a else b
  }

  /** The first `n` elements, or all if there are fewer. */
  function Take<T>(s: seq<T>, n: nat): (t: seq<T>)
    ensures |t| == Min(|s|, n)
  {
    s[..Min(|s|, n)]
  }

  /** 256 to the power `k`. */
  function Pow256(k: nat): (p: nat)
    ensures p > 0
  {
    if k == 0 then 1 else 256 * Pow256(k - 1)
  }

  /** The low `k` bytes of `n`, least significant first; higher bytes are dropped,
      as a Go conversion to a narrower unsigned type drops them. */
  function LE(n: nat, k: nat): (b: Bytes)
    ensures |b| == k
  {
    if k == 0 then [] else [n % 256] + LE(n / 256, k - 1)
  }

  /** The number a little-endian byte string denotes. */
  function Value(b: Bytes): nat {
    if b == [] then 0 else b[0] + 256 * Value(b[1..])
  }

  lemma {:induction false} ModSplit(n: nat, p: nat)
    requires p > 0
    ensures n % 256 + 256 * ((n / 256) % p) == n % (256 * p)
  {
    var q, r := (n / 256) / p, (n / 256) % p;
    var low := n % 256 + 256 * r;
    assert n / 256 == q * p + r;
    assert n == 256 * (q * p + r) + n % 256;
    assert n == q * (256 * p) + low by {
      assert 256 * (q * p) == q * (256 * p);
    }
    assert low < 256 * p;
    ModUnique(n, 256 * p, q, low);
  }

  lemma ModUnique(n: nat, d: nat, q: nat, r: nat)
    requires d > 0 && n == q * d + r && r < d
    ensures n % d == r
  {
    var q', r' := n / d, n % d;
    assert n == q' * d + r';
    assert (q - q') * d == r' - r;
    if q > q' {
      assert (q - q') * d >= d by { MulAtLeast(q - q', d); }
    } else if q < q' {
      assert (q' - q) * d >= d by { MulAtLeast(q' - q, d); }
    }
  }

  lemma MulAtLeast(a: nat, d: nat)
    requires a >= 1
    ensures a * d >= d
  {
    assert a * d == (a - 1) * d + d;
  }

  /** Byte `i` is digit `i` of the number in base 256. */
  lemma {:induction false} ByteOfLE(n: nat, k: nat, i: nat)
    requires i < k
    ensures LE(n, k)[i] == (n / Pow256(i)) % 256
  {
    if i > 0 {
      ByteOfLE(n / 256, k - 1, i - 1);
      DivTwice(n, Pow256(i - 1));
    }
  }

  lemma DivTwice(n: nat, p: nat)
    requires p > 0
    ensures (n / 256) / p == n / (256 * p)
  {
    var q, r := (n / 256) / p, (n / 256) % p;
    var low := n % 256 + 256 * r;
    assert n == 256 * (q * p + r) + n % 256;
    assert n == q * (256 * p) + low by {
      assert 256 * (q * p) == q * (256 * p);
    }
    DivUnique(n, 256 * p, q, low);
  }

  lemma DivUnique(n: nat, d: nat, q: nat, r: nat)
    requires d > 0 && n == q * d + r && r < d
    ensures n / d == q
  {
    ModUnique(n, d, q, r);
    assert (n / d - q) * d == 0;
  }

  /** Reading back what was written gives the number modulo 256^k. */
  lemma {:induction false} ValueOfLE(n: nat, k: nat)
    ensures Value(LE(n, k)) == n % Pow256(k)
  {
    if k > 0 {
      ValueOfLE(n / 256, k - 1);
      ModSplit(n, Pow256(k - 1));
      assert LE(n, k)[1..] == LE(n / 256, k - 1);
    }
  }

  lemma {:induction false} ValueBound(b: Bytes)
    ensures Value(b) < Pow256(|b|)
  {
    if b != [] {
      ValueBound(b[1..]);
    }
  }

  /** Writing back what was read gives the same bytes. */
  lemma {:induction false} LEOfValue(b: Bytes)
    ensures LE(Value(b), |b|) == b
  {
    if b != [] {
      LEOfValue(b[1..]);
      assert Value(b) % 256 == b[0] && Value(b) / 256 == Value(b[1..]);
      assert b == [b[0]] + b[1..];
    }
  }

  lemma Pow256Four()
    ensures Pow256(4) == TWO32
  {
    assert Pow256(1) == 256 && Pow256(2) == 0x1_0000 && Pow256(3) == 0x100_0000;
  }

  lemma Pow256Eight()
    ensures Pow256(8) == 0x1_0000_0000_0000_0000
  {
    Pow256Four();
    assert Pow256(5) == 0x100_0000_0000 && Pow256(6) == 0x1_0000_0000_0000;
    assert Pow256(7) == 0x100_0000_0000_0000;
  }

  /** A 4-byte offset below 2^32 survives writing and reading. */
  lemma OffsetRoundTrip(n: nat)
    requires n < TWO32
    ensures Value(LE(n, 4)) == n
  {
    ValueOfLE(n, 4);
    Pow256Four();
  }

  lemma WordRoundTrip(n: u64)
    ensures Value(LE(n, 8)) == n
  {
    ValueOfLE(n, 8);
    Pow256Eight();
  }

  lemma ReadOffsetBound(b: Bytes)
    requires |b| == 4
    ensures Value(b) < TWO32 && LE(Value(b), 4) == b
  {
    ValueBound(b);
    Pow256Four();
    LEOfValue(b);
  }

  lemma ReadWordBound(b: Bytes)
    requires |b| == 8
    ensures Value(b) < 0x1_0000_0000_0000_0000 && LE(Value(b), 8) == b
  {
    ValueBound(b);
    Pow256Eight();
    LEOfValue(b);
  }

  /** `n` times `w`, by repeated addition. */
  function Times(n: nat, w: nat): nat {
    if n == 0 then 0 else w + Times(n - 1, w)
  }

  lemma {:induction false} TimesIsProduct(n: nat, w: nat)
    ensures Times(n, w) == n * w
  {
    if n > 0 {
      TimesIsProduct(n - 1, w);
      assert n * w == w + (n - 1) * w;
    }
  }

  // ---------------------------------------------------------------- slices

  /** Cutting the first piece off what starts at `i`. */
  lemma Peel(buf: Bytes, i: nat, x: Bytes, rest: Bytes)
    requires i <= |buf| && buf[i..] == x + rest
    ensures i + |x| <= |buf|
    ensures buf[i..i + |x|] == x && buf[i + |x|..] == rest
  {
    assert buf[i..][..|x|] == x && buf[i..][|x|..] == rest;
  }

  lemma Rejoin(buf: Bytes, i: nat)
    requires i <= |buf|
    ensures buf == buf[..i] + buf[i..]
  {
  }

  lemma Cut(x: Bytes, y: Bytes)
    ensures (x + y)[..|x|] == x && (x + y)[|x|..] == y
  {
  }

  lemma Assoc(a: Bytes, b: Bytes, c: Bytes)
    ensures (a + b) + c == a + (b + c)
  {
  }
}
