/** The 256-bit text codec: 32 little-endian bytes as a decimal string. */
module U256 {
  import opened ByteCodec

  function Reversed(s: Bytes): (r: Bytes)
    ensures |r| == |s|
  {
    seq(|s|, i requires 0 <= i < |s| => s[|s| - 1 - i])
  }

  lemma ReversedTwice(s: Bytes)
    ensures Reversed(Reversed(s)) == s
  {
  }

  /** Copies `src` and swaps opposite ends, from the middle outwards. */
  method Reverse(src: array<u8>) returns (dst: array<u8>)
    ensures fresh(dst) && dst[..] == Reversed(src[..])
  {
    var n := src.Length;
    dst := new u8[n](i requires 0 <= i < n reads src => src[i]);
    var i := n / 2 - 1;
    while i >= 0
      invariant -1 <= i < n / 2
      invariant forall k :: 0 <= k < n && (k <= i || n - 1 - i <= k) ==> dst[k] == src[k]
      invariant forall k :: i < k < n - 1 - i ==> dst[k] == src[n - 1 - k]
    {
      var opp := n - 1 - i;
      dst[i], dst[opp] := dst[opp], dst[i];
      i := i - 1;
    }
  }

  /** The number a big-endian byte string denotes. */
  function BigEndian(b: Bytes): nat {
    Value(Reversed(b))
  }

  /** The low 32 bytes of `n`, most significant first; higher bytes are cropped. */
  function ToHash(n: nat): Bytes32 {
    Reversed(LE(n, 32))
  }

  lemma HashRoundTrip(n: nat)
    ensures BigEndian(ToHash(n)) == n % Pow256(32)
  {
    ReversedTwice(LE(n, 32));
    ValueOfLE(n, 32);
  }

  lemma FitsInWord(n: nat)
    requires n < Pow256(32)
    ensures Value(LE(n, 32)) == n
  {
    ValueOfLE(n, 32);
    ModUnique(n, Pow256(32), 0, n);
  }

  // ------------------------------------------------------------- decimal text

  predicate IsDigit(c: char) {
    '0' <= c <= '9'
  }

  function Digit(d: nat): (c: char)
    requires d < 10
    ensures IsDigit(c) && c as int - '0' as int == d
  {
    '0' + d as char
  }

  function Decimal(n: nat): (s: string)
    ensures |s| > 0 && (|s| > 1 ==> s[0] != '0')
    ensures forall i :: 0 <= i < |s| ==> IsDigit(s[i])
  {
    if n < 10 then [Digit(n)] else Decimal(n / 10) + [Digit(n % 10)]
  }

  /** What a character counts as a digit; letters continue after nine, in either case. */
  function DigitValue(c: char): nat {
    if '0' <= c <= '9' then c as int - '0' as int
    else if 'a' <= c <= 'z' then c as int - 'a' as int + 10
    else if 'A' <= c <= 'Z' then c as int - 'A' as int + 10
    else 63
  }

  /** The number that digits in base `b` denote; underscores are skipped. */
  function Parse(b: nat, s: string): Option<nat> {
    if s == [] then Some(0)
    else
      var n := |s| - 1;
      var front := Parse(b, s[..n]);
      if s[n] == '_' then front
      else if front.None? || DigitValue(s[n]) >= b then None
      else Some(b * front.value + DigitValue(s[n]))
  }

  /** Underscores stand between digits, or after a base prefix. */
  predicate Separated(s: string, prefixed: bool) {
    && (s != [] ==> s[|s| - 1] != '_' && (s[0] == '_' ==> prefixed))
    && forall i :: 0 < i < |s| && s[i] == '_' ==> s[i - 1] != '_'
  }

  function Numeral(b: nat, s: string, prefixed: bool): Option<nat> {
    if s == [] || !Separated(s, prefixed) then None else Parse(b, s)
  }

  /** A number without sign: base ten unless a prefix, or a leading zero, says otherwise. */
  function Unsigned(s: string): Option<nat> {
    if |s| >= 2 && s[0] == '0' then
      if s[1] in ['b', 'B'] then Numeral(2, s[2..], true)
      else if s[1] in ['o', 'O'] then Numeral(8, s[2..], true)
      else if s[1] in ['x', 'X'] then Numeral(16, s[2..], true)
      else Numeral(8, s[1..], true)
    else Numeral(10, s, false)
  }

  /** The absolute value of the number a text denotes. */
  function Number(s: string): Option<nat> {
    Unsigned(if s != [] && s[0] in ['+', '-'] then s[1..] else s)
  }

  /** Decimal digits without superfluous zeros. */
  predicate Canonical(s: string) {
    s != [] && (|s| > 1 ==> s[0] != '0') && forall i :: 0 <= i < |s| ==> IsDigit(s[i])
  }

  lemma CanonicalNumber(s: string)
    requires Canonical(s)
    ensures Number(s) == Parse(10, s)
  {
    assert IsDigit(s[0]);
    assert Separated(s, false) by {
      forall i | 0 <= i < |s| ensures s[i] != '_' {
        assert IsDigit(s[i]);
      }
    }
  }

  lemma {:induction false} ParseDecimal(n: nat)
    ensures Parse(10, Decimal(n)) == Some(n)
  {
    if n < 10 {
      assert Decimal(n)[..0] == [];
      assert Parse(10, []) == Some(0);
    } else {
      ParseDecimal(n / 10);
      var s := Decimal(n);
      assert s[..|s| - 1] == Decimal(n / 10);
    }
  }

  lemma DecimalIsCanonical(n: nat)
    ensures Canonical(Decimal(n)) && Number(Decimal(n)) == Some(n)
  {
    CanonicalNumber(Decimal(n));
    ParseDecimal(n);
  }

  /** A canonical numeral is the one that is printed for its number. */
  lemma {:induction false} DecimalParse(s: string)
    requires Canonical(s)
    ensures Parse(10, s).Some? && Decimal(Parse(10, s).value) == s
    ensures |s| > 1 ==> Parse(10, s).value >= 10
    ensures |s| == 1 && s[0] != '0' ==> Parse(10, s).value > 0
  {
    hide Parse;
    var n := |s| - 1;
    var front := s[..n];
    assert s == front + [s[n]] && IsDigit(s[n]);
    if n == 0 {
      assert front == [];
      NothingParsed();
      DigitParsed(front, s[n]);
    } else {
      DecimalParse(front);
      DigitParsed(front, s[n]);
    }
  }

  lemma NothingParsed()
    ensures Parse(10, []) == Some(0)
  {
  }

  lemma DigitParsed(front: string, c: char)
    requires IsDigit(c) && Parse(10, front).Some?
    ensures Parse(10, front + [c]) == Some(10 * Parse(10, front).value + (c as int - '0' as int))
  {
    assert (front + [c])[..|front|] == front;
  }

  // ------------------------------------------------------------- other notations

  function DigitChar(d: nat): (c: char)
    requires d < 16
    ensures DigitValue(c) == d && c != '_'
  {
    if d < 10 then '0' + d as char else 'a' + (d - 10) as char
  }

  /** Digits below `b`, the most significant one first, and the number they stand for. */
  predicate AreDigits(b: nat, ds: seq<nat>) {
    forall i :: 0 <= i < |ds| ==> ds[i] < b
  }

  function Denoted(b: nat, ds: seq<nat>): nat {
    if ds == [] then 0 else b * Denoted(b, ds[..|ds| - 1]) + ds[|ds| - 1]
  }

  function Written(ds: seq<nat>): (s: string)
    requires AreDigits(16, ds)
    ensures |s| == |ds| && forall i :: 0 <= i < |s| ==> DigitValue(s[i]) == ds[i] && s[i] != '_'
  {
    seq(|ds|, i requires 0 <= i < |ds| => DigitChar(ds[i]))
  }

  lemma {:induction false} ParseWritten(b: nat, ds: seq<nat>)
    requires b <= 16 && AreDigits(b, ds)
    ensures AreDigits(16, ds) && Parse(b, Written(ds)) == Some(Denoted(b, ds))
  {
    if ds != [] {
      var n := |ds| - 1;
      ParseWritten(b, ds[..n]);
      assert Written(ds)[..n] == Written(ds[..n]);
    }
  }

  lemma NumeralWritten(b: nat, ds: seq<nat>)
    requires b <= 16 && AreDigits(b, ds) && ds != []
    ensures AreDigits(16, ds) && Numeral(b, Written(ds), true) == Some(Denoted(b, ds))
  {
    ParseWritten(b, ds);
  }

  lemma SkipTwo(c: char, s: string)
    ensures (['0', c] + s)[2..] == s
  {
  }

  /** Digits after 0x are hexadecimal, after 0o octal, after 0b binary. */
  lemma PrefixedNumber(b: nat, c: char, ds: seq<nat>)
    requires (b == 16 && c in ['x', 'X']) || (b == 8 && c in ['o', 'O']) || (b == 2 && c in ['b', 'B'])
    requires AreDigits(b, ds) && ds != []
    ensures AreDigits(16, ds) && Number(['0', c] + Written(ds)) == Some(Denoted(b, ds))
  {
    hide Parse, Numeral, Denoted;
    NumeralWritten(b, ds);
    SkipTwo(c, Written(ds));
  }

  /** Digits after a mere zero are octal. */
  lemma LeadingZeroIsOctal(ds: seq<nat>)
    requires AreDigits(8, ds) && ds != []
    ensures AreDigits(16, ds) && Number(['0'] + Written(ds)) == Some(Denoted(8, ds))
  {
    hide Parse, Numeral, Denoted;
    NumeralWritten(8, ds);
    var s := ['0'] + Written(ds);
    assert s[1..] == Written(ds);
    assert DigitValue(Written(ds)[0]) == ds[0] < 8;
  }

  function Lower(s: string): string {
    seq(|s|, i requires 0 <= i < |s| => if 'A' <= s[i] <= 'Z' then s[i] + 32 as char else s[i])
  }

  /** Capital and small letters count the same. */
  lemma {:induction false} ParseLower(b: nat, s: string)
    ensures Parse(b, Lower(s)) == Parse(b, s)
  {
    if s != [] {
      var n := |s| - 1;
      ParseLower(b, s[..n]);
      assert Lower(s)[..n] == Lower(s[..n]);
    }
  }

  /** Groups of digits. */
  predicate AreGroups(b: nat, gs: seq<string>) {
    gs != [] && forall i :: 0 <= i < |gs| ==> gs[i] != [] && AllBelow(b, gs[i])
  }

  predicate AllBelow(b: nat, s: string) {
    forall i :: 0 <= i < |s| ==> DigitValue(s[i]) < b
  }

  /** The groups with one underscore between any two. */
  function Joined(gs: seq<string>): string {
    if gs == [] then [] else if |gs| == 1 then gs[0] else gs[0] + ['_'] + Joined(gs[1..])
  }

  function Together(gs: seq<string>): string {
    if gs == [] then [] else gs[0] + Together(gs[1..])
  }

  lemma {:induction false} ParseIff(b: nat, s: string)
    ensures Parse(b, s).Some? <==> forall i :: 0 <= i < |s| && s[i] != '_' ==> DigitValue(s[i]) < b
  {
    if s != [] {
      var n := |s| - 1;
      ParseIff(b, s[..n]);
      assert forall i :: 0 <= i < n ==> s[..n][i] == s[i];
    }
  }

  lemma {:induction false} GroupsAreNumeral(b: nat, gs: seq<string>)
    requires b <= 36 && AreGroups(b, gs)
    ensures var s := Joined(gs);
      s != [] && s[0] != '_' && Separated(s, false) && forall i :: 0 <= i < |s| && s[i] != '_' ==> DigitValue(s[i]) < b
  {
    if |gs| > 1 {
      GroupsAreNumeral(b, gs[1..]);
    }
  }

  lemma {:induction false} NumeralHasGroups(b: nat, s: string) returns (gs: seq<string>)
    requires s != [] && Separated(s, false)
    requires forall i :: 0 <= i < |s| && s[i] != '_' ==> DigitValue(s[i]) < b
    ensures AreGroups(b, gs) && Joined(gs) == s
  {
    hide DigitValue;
    var first := [s[0]];
    if |s| == 1 {
      gs := [first];
    } else if s[1] == '_' {
      var rest := NumeralHasGroups(b, s[2..]);
      gs := [first] + rest;
      assert gs[1..] == rest && s == first + ['_'] + s[2..];
    } else {
      var rest := NumeralHasGroups(b, s[1..]);
      gs := [first + rest[0]] + rest[1..];
      assert AllBelow(b, rest[0]) && AllBelow(b, gs[0]);
      assert gs[1..] == rest[1..] && s == first + s[1..];
    }
  }

  lemma {:induction false} UnderscoreIsSkipped(b: nat, s: string, t: string)
    ensures Parse(b, s + ['_'] + t) == Parse(b, s + t)
  {
    if t == [] {
      assert (s + ['_'] + t)[..|s|] == s && s + t == s;
    } else {
      var n := |t| - 1;
      UnderscoreIsSkipped(b, s, t[..n]);
      assert (s + ['_'] + t)[..|s| + 1 + n] == s + ['_'] + t[..n] && (s + t)[..|s| + n] == s + t[..n];
    }
  }

  lemma {:induction false} JoinedValue(b: nat, s: string, gs: seq<string>)
    ensures Parse(b, s + Joined(gs)) == Parse(b, s + Together(gs))
    decreases |gs|
  {
    hide Parse;
    if |gs| == 1 {
      assert gs[0] + [] == gs[0];
    } else if |gs| > 1 {
      var rest := gs[1..];
      UnderscoreIsSkipped(b, s + gs[0], Joined(rest));
      JoinedValue(b, s + gs[0], rest);
      assert s + Joined(gs) == s + gs[0] + ['_'] + Joined(rest);
      assert s + Together(gs) == s + gs[0] + Together(rest);
    }
  }

  ghost predicate IsGrouped(b: nat, s: string) {
    exists gs :: AreGroups(b, gs) && Joined(gs) == s
  }

  lemma GroupsAreRead(b: nat, s: string, prefixed: bool)
    requires b <= 36 && IsGrouped(b, s)
    ensures Numeral(b, s, prefixed).Some? && Numeral(b, ['_'] + s, true).Some?
  {
    hide Parse, Joined, AreGroups;
    var gs :| AreGroups(b, gs) && Joined(gs) == s;
    GroupsAreNumeral(b, gs);
    ParseIff(b, s);
    ParseIff(b, ['_'] + s);
  }

  lemma PlainIsGrouped(b: nat, s: string)
    requires Numeral(b, s, false).Some?
    ensures IsGrouped(b, s)
  {
    hide Parse, Joined, AreGroups;
    ParseIff(b, s);
    var gs := NumeralHasGroups(b, s);
  }

  lemma WithoutLeadingUnderscore(b: nat, s: string)
    requires s != [] && s[0] == '_' && Numeral(b, s, true).Some?
    ensures Numeral(b, s[1..], false).Some?
  {
    hide Parse;
    ParseIff(b, s);
    ParseIff(b, s[1..]);
    assert s[0] == '_' && forall i :: 0 < i < |s| ==> s[1..][i - 1] == s[i];
  }

  /** What is read as digits: groups of them with single underscores between, and after a base
      prefix also one in front. */
  lemma NumeralIff(b: nat, s: string, prefixed: bool)
    requires b <= 36
    ensures Numeral(b, s, prefixed).Some?
      <==> IsGrouped(b, s) || (prefixed && s != [] && s[0] == '_' && IsGrouped(b, s[1..]))
  {
    hide Parse, IsGrouped;
    if IsGrouped(b, s) {
      GroupsAreRead(b, s, prefixed);
    } else if prefixed && s != [] && s[0] == '_' && IsGrouped(b, s[1..]) {
      GroupsAreRead(b, s[1..], true);
      assert s == ['_'] + s[1..];
    } else if Numeral(b, s, prefixed).Some? {
      if s[0] == '_' {
        WithoutLeadingUnderscore(b, s);
        PlainIsGrouped(b, s[1..]);
      } else {
        PlainIsGrouped(b, s);
      }
    }
  }

  /** Underscores do not change the number. */
  lemma GroupsValue(b: nat, gs: seq<string>, prefixed: bool)
    requires b <= 36 && AreGroups(b, gs)
    ensures Numeral(b, Joined(gs), prefixed) == Parse(b, Together(gs))
    ensures Numeral(b, ['_'] + Joined(gs), true) == Parse(b, Together(gs))
  {
    hide Parse, Joined, Together, AreGroups, Separated;
    assert IsGrouped(b, Joined(gs));
    GroupsAreRead(b, Joined(gs), prefixed);
    JoinedValue(b, [], gs);
    UnderscoreIsSkipped(b, [], Joined(gs));
    NothingBefore(Joined(gs));
    NothingBefore(Together(gs));
  }

  lemma NothingBefore(s: string)
    ensures [] + s == s && [] + ['_'] + s == ['_'] + s
  {
  }

  /** The sign is ignored. */
  lemma SignedNumber(n: nat)
    ensures Number(['-'] + Decimal(n)) == Some(n) && Number(['+'] + Decimal(n)) == Some(n)
  {
    hide Parse, Numeral, Decimal;
    DecimalIsCanonical(n);
    assert IsDigit(Decimal(n)[0]);
    assert (['-'] + Decimal(n))[1..] == Decimal(n) && (['+'] + Decimal(n))[1..] == Decimal(n);
  }

  // -------------------------------------------------------------- text methods

  function MarshalText(b: Bytes32): string {
    Decimal(BigEndian(Reversed(b)))
  }

  /** No result stands for a syntax error, and for the panic on numbers that do not fit. */
  function UnmarshalText(s: string): (r: Option<Bytes32>)
    ensures r.Some? <==> Number(s).Some? && Number(s).value < Pow256(32)
  {
    var x := Number(s);
    if x.None? || x.value >= Pow256(32) then None else Some(Reversed(ToHash(x.value)))
  }

  /** The value between the quotes, where null leaves the number at zero. */
  function UnmarshalJSON(input: string): Option<Bytes32> {
    if |input| < 2 then None
    else
      var text := input[1..|input| - 1];
      if text == "null" then Some(Zeros(32)) else UnmarshalText(text)
  }

  /** Text and back is the identity on all 32-byte values. */
  lemma TextRoundTrip(b: Bytes32)
    ensures UnmarshalText(MarshalText(b)) == Some(b)
  {
    hide Number, Decimal, Pow256, LE, Value;
    var n := BigEndian(Reversed(b));
    ReversedTwice(b);
    DecimalIsCanonical(n);
    ValueBound(b);
    LEOfValue(b);
    ReversedTwice(LE(n, 32));
  }

  /** A text that is read is printed again as it was exactly when it is canonical: signs,
      base prefixes, underscores and leading zeros are read and not printed. */
  lemma ReadIsPrintedIff(s: string)
    requires UnmarshalText(s).Some?
    ensures MarshalText(UnmarshalText(s).value) == s <==> Canonical(s)
  {
    hide Parse, Decimal, LE, Pow256, Number;
    var n := Number(s).value;
    ReversedTwice(LE(n, 32));
    FitsInWord(n);
    DecimalIsCanonical(n);
    if Canonical(s) {
      CanonicalNumber(s);
      DecimalParse(s);
    }
  }

  function Quoted(s: string): string {
    ['"'] + s + ['"']
  }

  lemma JsonRoundTrip(b: Bytes32)
    ensures UnmarshalJSON(Quoted(MarshalText(b))) == Some(b)
  {
    TextRoundTrip(b);
    var s := MarshalText(b);
    assert IsDigit(s[0]);
    assert Quoted(s)[1..|Quoted(s)| - 1] == s;
  }

  /** The quoted null reads as zero. */
  lemma NullIsZero()
    ensures UnmarshalJSON(Quoted("null")) == Some(Zeros(32))
  {
    assert Quoted("null")[1..|Quoted("null")| - 1] == "null";
  }

  /** IntToU256 goes through decimal text and gives the little-endian bytes. */
  lemma IntToU256IsLittleEndian(i: u64)
    ensures UnmarshalText(Decimal(i)) == Some(LE(i, 32))
  {
    SmallFits(i);
    FitsInWord(i);
    ReversedTwice(LE(i, 32));
    TextRoundTrip(LE(i, 32));
  }

  lemma {:induction false} PowMono(k: nat, m: nat)
    requires k <= m
    ensures Pow256(k) <= Pow256(m)
  {
    if k < m {
      PowMono(k, m - 1);
    }
  }

  lemma SmallFits(i: u64)
    ensures i < Pow256(32)
  {
    Pow256Eight();
    PowMono(8, 32);
  }

  // ----------------------------------------------------------------- base fees

  /** The base fee's whole way: big-endian REST bytes, JSON text, bytes, number. */
  lemma BaseFeeRoundTrip(fee: nat)
    ensures var input := Quoted(MarshalText(ToHash(fee)));
      UnmarshalJSON(input).Some? && BigEndian(UnmarshalJSON(input).value) == fee % Pow256(32)
  {
    JsonRoundTrip(ToHash(fee));
    HashRoundTrip(fee);
  }

  /** The decimal printed on the way is the base fee only when its 32 bytes read the same
      in both directions, because the REST form is big-endian and the text little-endian. */
  lemma PrintedFeeIsFeeIffPalindrome(fee: nat)
    requires fee < Pow256(32)
    ensures MarshalText(ToHash(fee)) == Decimal(fee) <==> ToHash(fee) == LE(fee, 32)
  {
    hide LE, Pow256, Parse, Decimal, Value;
    var b := ToHash(fee);
    ReversedTwice(b);
    FitsInWord(fee);
    LEOfValue(b);
    ParseDecimal(Value(b));
    ParseDecimal(fee);
  }

  /** Every base fee below 256 wei but zero is printed wrongly: as 2^248 times itself. */
  lemma SmallFeePrintedWrongly(fee: nat)
    requires 0 < fee < 256
    ensures MarshalText(ToHash(fee)) != Decimal(fee)
  {
    hide LE, MarshalText, Decimal, Pow256;
    SmallFits(fee);
    HighByteIsZero(fee, 32);
    assert ToHash(fee)[0] == LE(fee, 32)[31];
    PrintedFeeIsFeeIffPalindrome(fee);
  }

  lemma {:induction false} HighByteIsZero(n: nat, k: nat)
    requires n < 256 && k > 1
    ensures LE(n, k)[0] == n && LE(n, k)[k - 1] == 0
  {
    if k == 2 {
      assert LE(n / 256, 1) == [0] + LE(0, 0);
    } else {
      assert LE(0, k - 1)[0] == 0;
      HighByteIsZero(0, k - 1);
    }
  }
}
