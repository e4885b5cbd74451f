/** Hexadecimal texts, as they stand in the relay's paths. */
module Hex {
  import opened ByteCodec

  predicate IsHexDigit(c: char) {
    '0' <= c <= '9' || 'a' <= c <= 'f' || 'A' <= c <= 'F'
  }

  predicate AllHex(s: string) {
    forall i :: 0 <= i < |s| ==> IsHexDigit(s[i])
  }

  function HexValue(c: char): (v: nat)
    requires IsHexDigit(c)
    ensures v < 16
  {
    if c <= '9' then c as int - '0' as int
    else if c <= 'F' then c as int - 'A' as int + 10
    else c as int - 'a' as int + 10
  }

  function HexChar(v: nat): (c: char)
    requires v < 16
    ensures IsHexDigit(c) && HexValue(c) == v
  {
    if v < 10 then '0' + v as char else 'a' + (v - 10) as char
  }

  /** Two digits a byte; none for an odd number of digits or for any other character. */
  function Decode(s: string): (r: Option<Bytes>)
    ensures r.Some? <==> |s| % 2 == 0 && AllHex(s)
    ensures r.Some? ==> |r.value| == |s| / 2
  {
    if s == [] then Some([])
    else if |s| == 1 || !IsHexDigit(s[0]) || !IsHexDigit(s[1]) then None
    else
      var rest := Decode(s[2..]);
      assert AllHex(s) <==> AllHex(s[2..]) by {
        assert s == [s[0], s[1]] + s[2..];
      }
      if rest.None? then None else Some([16 * HexValue(s[0]) + HexValue(s[1])] + rest.value)
  }

  function Encode(b: Bytes): (s: string)
    ensures |s| == 2 * |b|
  {
    if b == [] then [] else [HexChar(b[0] / 16), HexChar(b[0] % 16)] + Encode(b[1..])
  }

  lemma {:induction false} DecodeEncoded(b: Bytes)
    ensures Decode(Encode(b)) == Some(b)
  {
    if b != [] {
      DecodeEncoded(b[1..]);
      assert Encode(b)[2..] == Encode(b[1..]);
      assert b == [b[0]] + b[1..];
    }
  }

  function Lower(s: string): string {
    seq(|s|, i requires 0 <= i < |s| => if 'A' <= s[i] <= 'F' then s[i] + 32 as char else s[i])
  }

  /** Capital and small letters count the same: what is read is written as the text in small
      letters. */
  lemma {:induction false} EncodeDecoded(s: string)
    requires Decode(s).Some?
    ensures Encode(Decode(s).value) == Lower(s)
  {
    hide Encode, AllHex, HexChar, HexValue;
    if s == [] {
      assert Encode([]) == [] by {
        EncodeNothing();
      }
    } else {
      EncodeDecoded(s[2..]);
      EncodeByte(s[0], s[1], Decode(s[2..]).value);
      assert Lower(s) == Lower([s[0], s[1]]) + Lower(s[2..]);
    }
  }

  lemma EncodeNothing()
    ensures Encode([]) == []
  {
  }

  lemma EncodeByte(c: char, d: char, rest: Bytes)
    requires IsHexDigit(c) && IsHexDigit(d)
    ensures Encode([16 * HexValue(c) + HexValue(d)] + rest) == Lower([c, d]) + Encode(rest)
  {
    hide HexChar, HexValue;
    HexCharIsLower(c);
    HexCharIsLower(d);
    var x := 16 * HexValue(c) + HexValue(d);
    assert x / 16 == HexValue(c) && x % 16 == HexValue(d);
    assert ([x] + rest)[1..] == rest;
  }

  lemma HexCharIsLower(c: char)
    requires IsHexDigit(c)
    ensures HexChar(HexValue(c)) == if 'A' <= c <= 'F' then c + 32 as char else c
  {
  }

  /** The route pattern of a path variable: 0x and at least one hexadecimal digit. */
  predicate MatchesRoute(s: string) {
    |s| > 2 && s[0] == '0' && s[1] == 'x' && AllHex(s[2..])
  }

  /** The bytes of a prefixed text; none where the text decoder reports an error. */
  function Prefixed(s: string): Option<Bytes> {
    if s == [] then Some([])
    else if |s| < 2 || s[0] != '0' || s[1] !in ['x', 'X'] then None
    else Decode(s[2..])
  }
}
