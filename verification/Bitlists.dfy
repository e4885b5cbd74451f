/** Bitlists as sequences of bits: which byte strings the decoder accepts, told without its
    own check. */
module Bitlists {
  import opened ByteCodec
  import opened Ssz
  import opened Merkle
  import opened HashTree
  import opened Schemas
  import opened Divergence

  /** Up to eight bits as a byte, the first bit lowest. */
  function ByteOf(s: seq<bool>): (x: u8)
    requires |s| <= 8
    ensures x < Pow2(|s|)
  {
    if s == [] then 0
    else
      Pow2AtMost(|s| - 1, 7);
      (if s[0] then 1 else 0) + 2 * ByteOf(s[1..])
  }

  lemma {:induction false} Pow2AtMost(k: nat, m: nat)
    requires k <= m
    ensures Pow2(k) <= Pow2(m)
    ensures Pow2(7) == 128
  {
    assert Pow2(3) == 8 && Pow2(7) == 128;
    if k < m {
      Pow2AtMost(k, m - 1);
    }
  }

  /** Bits packed eight to a byte. */
  function Packed(s: seq<bool>): (b: Bytes)
    ensures |b| == (|s| + 7) / 8
  {
    if s == [] then []
    else if |s| <= 8 then [ByteOf(s)]
    else [ByteOf(s[..8])] + Packed(s[8..])
  }

  /** The bitlist with these bits: a one follows them as delimiter. */
  function Delimited(s: seq<bool>): Bytes {
    Packed(s + [true])
  }

  // ------------------------------------------------------------------- single bytes

  lemma {:induction false} ByteOfSnoc(s: seq<bool>)
    requires |s| < 8
    ensures ByteOf(s + [true]) == ByteOf(s) + Pow2(|s|)
  {
    if s == [] {
      assert [true][1..] == [];
    } else {
      assert (s + [true])[1..] == s[1..] + [true];
      ByteOfSnoc(s[1..]);
    }
  }

  function LowBits(x: nat, k: nat): (s: seq<bool>)
    ensures |s| == k
  {
    if k == 0 then [] else [x % 2 == 1] + LowBits(x / 2, k - 1)
  }

  lemma {:induction false} ByteOfLowBits(x: u8, k: nat)
    requires k <= 8 && x < Pow2(k)
    ensures ByteOf(LowBits(x, k)) == x
  {
    if k > 0 {
      ByteOfLowBits(x / 2, k - 1);
      assert LowBits(x, k)[1..] == LowBits(x / 2, k - 1);
    }
  }

  /** The delimiter is the highest bit of its byte. */
  lemma DelimiterIsHighest(s: seq<bool>)
    requires |s| < 8
    ensures ByteOf(s + [true]) > 0 && Msb(ByteOf(s + [true])) == |s|
  {
    ByteOfSnoc(s);
    var x := ByteOf(s + [true]);
    MsbPower(x);
    MsbUnique(x, Msb(x), |s|);
  }

  lemma {:induction false} MsbUnique(x: nat, m: nat, n: nat)
    requires Pow2(m) <= x < 2 * Pow2(m) && Pow2(n) <= x < 2 * Pow2(n)
    ensures m == n
  {
    if m < n {
      Pow2Grows(m, n);
    } else if n < m {
      Pow2Grows(n, m);
    }
  }

  lemma {:induction false} Pow2Grows(m: nat, n: nat)
    requires m < n
    ensures 2 * Pow2(m) <= Pow2(n)
  {
    if m + 1 < n {
      Pow2Grows(m, n - 1);
    }
  }

  /** Every non-zero byte is some bits and a delimiter. */
  lemma LastByte(x: u8)
    requires x > 0
    ensures Pow2(Msb(x)) <= x
    ensures ByteOf(LowBits(x - Pow2(Msb(x)), Msb(x)) + [true]) == x
  {
    MsbPower(x);
    ByteOfLowBits(x - Pow2(Msb(x)), Msb(x));
    ByteOfSnoc(LowBits(x - Pow2(Msb(x)), Msb(x)));
  }

  // ------------------------------------------------------------------- whole bitlists

  /** The length of a bitlist, and its last byte, tell the number of its bits. */
  lemma {:induction false} DelimitedCount(s: seq<bool>)
    ensures var b := Delimited(s);
      |b| == |s| / 8 + 1 && b[|b| - 1] > 0 && BitCount(b) == |s|
    decreases |s|
  {
    var t := s + [true];
    if |s| < 8 {
      DelimiterIsHighest(s);
    } else {
      assert t[8..] == s[8..] + [true];
      DelimitedCount(s[8..]);
    }
  }

  /** The bits of a byte string whose last byte is not zero. */
  function Bits(b: Bytes): seq<bool>
    requires |b| > 0 && b[|b| - 1] > 0
  {
    if |b| == 1 then
      MsbPower(b[0]);
      LowBits(b[0] - Pow2(Msb(b[0])), Msb(b[0]))
    else LowBits(b[0], 8) + Bits(b[1..])
  }

  lemma {:induction false} DelimitedBits(b: Bytes)
    requires |b| > 0 && b[|b| - 1] > 0
    ensures Delimited(Bits(b)) == b
  {
    if |b| == 1 {
      LastByte(b[0]);
    } else {
      var low, rest := LowBits(b[0], 8), Bits(b[1..]);
      var t := low + rest + [true];
      DelimitedBits(b[1..]);
      assert t[..8] == low && t[8..] == rest + [true];
      Pow2AtMost(7, 8);
      ByteOfLowBits(b[0], 8);
      assert Bits(b) + [true] == t;
      assert b == [b[0]] + b[1..];
    }
  }

  /** The decoder accepts exactly the packings of at most `n` bits. */
  lemma AcceptedIffPacked(n: nat, held: Bytes, b: Bytes)
    requires 2 <= n < TWO32
    ensures Dec(BitList(n), Blob(held), b).Ok? <==> exists s: seq<bool> :: |s| <= n && b == Delimited(s)
    ensures Dec(BitList(n), Blob(held), b).Ok? ==> Dec(BitList(n), Blob(held), b) == Ok(Blob(held + b))
  {
    if Dec(BitList(n), Blob(held), b).Ok? {
      DelimitedBits(b);
      DelimitedCount(Bits(b));
    }
    forall s: seq<bool> | |s| <= n && b == Delimited(s) ensures Dec(BitList(n), Blob(held), b).Ok? {
      DelimitedCount(s);
    }
  }

  /** Different bits have different packings. */
  lemma {:induction false} DelimitedInjective(s: seq<bool>, t: seq<bool>)
    requires Delimited(s) == Delimited(t)
    ensures s == t
  {
    DelimitedCount(s);
    DelimitedCount(t);
    PackedInjective(s + [true], t + [true]);
    assert s == (s + [true])[..|s|] && t == (t + [true])[..|t|];
  }

  lemma {:induction false} ByteOfInjective(s: seq<bool>, t: seq<bool>)
    requires |s| == |t| <= 8 && ByteOf(s) == ByteOf(t)
    ensures s == t
  {
    if s != [] {
      ByteOfInjective(s[1..], t[1..]);
      assert s == [s[0]] + s[1..] && t == [t[0]] + t[1..];
    }
  }

  lemma {:induction false} PackedInjective(s: seq<bool>, t: seq<bool>)
    requires |s| == |t| && Packed(s) == Packed(t)
    ensures s == t
    decreases |s|
  {
    if s == [] {
    } else if |s| <= 8 {
      ByteOfInjective(s, t);
    } else {
      assert Packed(s)[0] == Packed(t)[0] && Packed(s)[1..] == Packed(t)[1..];
      ByteOfInjective(s[..8], t[..8]);
      PackedInjective(s[8..], t[8..]);
      assert s == s[..8] + s[8..] && t == t[..8] + t[8..];
    }
  }

  /** A block whose one attestation has any 2048 bits or fewer is read back. */
  lemma PackedBlockIsReadBack(s: seq<bool>)
    requires |s| <= 2048
    ensures Sound(BLINDED_BLOCK) && Typed(BLINDED_BLOCK, AttestedBlock(Delimited(s)))
    ensures var v := AttestedBlock(Delimited(s));
      Dec(BLINDED_BLOCK, Zero(BLINDED_BLOCK), Enc(BLINDED_BLOCK, v)) == Ok(v)
  {
    hide Enc, Dec, EncOk, Typed, Zero, AttestedBlock, Sound, Delimited;
    DelimitedCount(s);
    AttestedBlockReadBackIff(Delimited(s));
  }

  /** Clearing the delimiter leaves the packing of the bits alone. */
  lemma {:induction false} ClearedIsPacked(s: seq<bool>)
    ensures |Delimited(s)| > 0 && Cleared(Delimited(s))[..(|s| + 7) / 8] == Packed(s)
    decreases |s|
  {
    DelimitedCount(s);
    var b := Delimited(s);
    if |s| < 8 {
      DelimiterIsHighest(s);
      ByteOfSnoc(s);
      assert Cleared(b) == [ByteOf(s)];
    } else {
      var t := s + [true];
      assert t[8..] == s[8..] + [true] && t[..8] == s[..8];
      ClearedIsPacked(s[8..]);
      DelimitedCount(s[8..]);
      var rest := Delimited(s[8..]);
      assert b == [ByteOf(s[..8])] + rest;
      assert Cleared(b) == [b[0]] + Cleared(rest);
      if |s| == 8 {
        assert s[..8] == s;
      }
    }
  }
}
