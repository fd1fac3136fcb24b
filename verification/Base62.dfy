/** Base62 for API keys and refresh tokens: `internal/auth/{base62,token,apikey}.go`. A leading zero byte is
    kept as a leading '0'; the rest is the number the bytes spell, written in base 62. */
module Base62 {
  import opened Prelude
  import Text

  type byte = n: int | 0 <= n < 256

  const DECIMALS := "0123456789"
  const CAPITALS := "ABCDEFGHIJKLMNOPQRSTUVWXYZ"
  const SMALLS := "abcdefghijklmnopqrstuvwxyz"
  const ALPHABET := DECIMALS + CAPITALS + SMALLS

  /** The inverse table: the place of a character in the alphabet, or -1. */
  function Index(c: char): int {
    if '0' <= c <= '9' then c as int - '0' as int
    else if 'A' <= c <= 'Z' then 10 + c as int - 'A' as int
    else if 'a' <= c <= 'z' then 36 + c as int - 'a' as int
    else -1
  }

  lemma DecimalsAscend()
    ensures forall i | 0 <= i < 10 :: DECIMALS[i] as int == '0' as int + i
  {
  }

  lemma CapitalsAscend()
    ensures forall i | 0 <= i < 26 :: CAPITALS[i] as int == 'A' as int + i
  {
  }

  lemma SmallsAscend()
    ensures forall i | 0 <= i < 26 :: SMALLS[i] as int == 'a' as int + i
  {
  }

  lemma IndexInvertsAlphabet()
    ensures forall i | 0 <= i < 62 :: Index(ALPHABET[i]) == i
    ensures forall c | Index(c) >= 0 :: Index(c) < 62 && ALPHABET[Index(c)] == c
  {
    DecimalsAscend();
    CapitalsAscend();
    SmallsAscend();
    forall i | 0 <= i < 62 ensures Index(ALPHABET[i]) == i {
      assert ALPHABET[i] == if i < 10 then DECIMALS[i] else if i < 36 then CAPITALS[i - 10] else SMALLS[i - 36];
    }
    forall c | Index(c) >= 0 ensures ALPHABET[Index(c)] == c {
      var i := Index(c);
      assert ALPHABET[i] == if i < 10 then DECIMALS[i] else if i < 36 then CAPITALS[i - 10] else SMALLS[i - 36];
    }
  }

  // ---------- Radix conversion

  /** Big-endian digits in a base. */
  ghost predicate InBase(d: seq<nat>, base: nat) {
    base > 1 && forall i | 0 <= i < |d| :: d[i] < base
  }

  function Value(d: seq<nat>, base: nat): nat {
    if d == [] then 0 else Value(d[..|d| - 1], base) * base + d[|d| - 1]
  }

  /** The shortest digits of x; none for zero. */
  function Digits(x: nat, base: nat): seq<nat>
    requires base > 1
  {
    if x == 0 then []
    else
      Quotient(x, base);
      Digits(x / base, base) + [x % base]
  }

  function LeadingZeroes(d: seq<nat>): nat {
    if d != [] && d[0] == 0 then 1 + LeadingZeroes(d[1..]) else 0
  }

  function Zeroes(n: nat): seq<nat> {
    seq(n, _ => 0)
  }

  function Convert(d: seq<nat>, from: nat, to: nat): seq<nat>
    requires to > 1
  {
    Zeroes(LeadingZeroes(d)) + Digits(Value(d, from), to)
  }

  // Division by a base that is not a literal.

  lemma {:induction false} AtLeastTwice(base: nat, q: nat)
    requires base > 1
    ensures q * base >= 2 * q
  {
    if q > 0 { AtLeastTwice(base, q - 1); }
  }

  lemma Quotient(x: nat, base: nat)
    requires base > 1
    ensures x == (x / base) * base + x % base && 0 <= x % base < base && (x > 0 ==> x / base < x)
  {
    AtLeastTwice(base, x / base);
  }

  lemma {:induction false} MultiplesAreApart(base: nat, a: nat, b: nat)
    requires a < b
    ensures b * base >= a * base + base
  {
    if a + 1 < b { MultiplesAreApart(base, a, b - 1); }
  }

  lemma QuotientIs(a: nat, r: nat, base: nat)
    requires r < base && base > 1
    ensures (a * base + r) / base == a && (a * base + r) % base == r
  {
    var x := a * base + r;
    Quotient(x, base);
    if a < x / base { MultiplesAreApart(base, a, x / base); }
    if x / base < a { MultiplesAreApart(base, x / base, a); }
  }

  lemma QuotientGrows(x: nat, y: nat, base: nat)
    requires x <= y && base > 1
    ensures x / base <= y / base
  {
    Quotient(x, base);
    Quotient(y, base);
    if y / base < x / base { MultiplesAreApart(base, y / base, x / base); }
  }

  lemma {:induction false} DigitsAreInBase(x: nat, base: nat)
    requires base > 1
    ensures InBase(Digits(x, base), base) && Value(Digits(x, base), base) == x
    ensures x > 0 ==> Digits(x, base) != [] && Digits(x, base)[0] != 0
  {
    if x > 0 {
      Quotient(x, base);
      DigitsAreInBase(x / base, base);
      ValuePush(Digits(x / base, base), x % base, base);
    }
  }

  lemma ValuePush(d: seq<nat>, last: nat, base: nat)
    ensures Value(d + [last], base) == Value(d, base) * base + last
  {
    assert (d + [last])[..|d|] == d;
  }

  lemma {:induction false} ZeroesInFront(n: nat, d: seq<nat>, base: nat)
    requires d == [] || d[0] != 0
    ensures LeadingZeroes(Zeroes(n) + d) == n
  {
    if n == 0 {
      assert Zeroes(0) + d == d;
    } else {
      ZeroesInFront(n - 1, d, base);
      assert (Zeroes(n) + d)[1..] == Zeroes(n - 1) + d;
    }
  }

  lemma {:induction false} ZeroesAddNothing(n: nat, d: seq<nat>, base: nat)
    ensures Value(Zeroes(n) + d, base) == Value(d, base)
    decreases n + |d|
  {
    var z := Zeroes(n) + d;
    if d != [] {
      ZeroesAddNothing(n, d[..|d| - 1], base);
      assert z[..|z| - 1] == Zeroes(n) + d[..|d| - 1];
    } else if n > 0 {
      ZeroesAddNothing(n - 1, [], base);
      assert z[..|z| - 1] == Zeroes(n - 1) + [];
    }
  }

  /** Digits are their leading zeros followed by the shortest digits of their value. */
  lemma {:induction false} DigitsAreCanonical(d: seq<nat>, base: nat)
    requires InBase(d, base)
    ensures d == Zeroes(LeadingZeroes(d)) + Digits(Value(d, base), base)
  {
    if d != [] {
      var front, last := d[..|d| - 1], d[|d| - 1];
      DigitsAreCanonical(front, base);
      DigitsPush(Value(front, base), last, base);
      ZeroesPush(LeadingZeroes(front), Digits(Value(front, base), base), last, base);
      assert d == front + [last];
    }
  }

  lemma DigitsPush(x: nat, last: nat, base: nat)
    requires last < base && base > 1
    ensures Digits(x * base + last, base) == if x == 0 && last == 0 then [] else Digits(x, base) + [last]
    ensures x > 0 ==> Digits(x, base) != [] && Digits(x, base)[0] != 0
  {
    QuotientIs(x, last, base);
    DigitsAreInBase(x, base);
    if x > 0 { AtLeastTwice(base, x); }
  }

  /** One more digit behind zeros and shortest digits. */
  lemma ZeroesPush(n: nat, tail: seq<nat>, last: nat, base: nat)
    requires tail == [] || tail[0] != 0
    ensures var d := Zeroes(n) + tail + [last];
      d == Zeroes(LeadingZeroes(d)) + if tail == [] && last == 0 then [] else tail + [last]
  {
    if tail == [] && last == 0 {
      ZeroesInFront(n + 1, [], base);
      assert Zeroes(n) + tail + [last] == Zeroes(n + 1) + [];
    } else {
      ZeroesInFront(n, tail + [last], base);
      assert Zeroes(n) + tail + [last] == Zeroes(n) + (tail + [last]);
    }
  }

  /** Converting there and back changes nothing, leading zeros included. */
  lemma ConversionIsInvertible(d: seq<nat>, from: nat, to: nat)
    requires InBase(d, from) && to > 1
    ensures InBase(Convert(d, from, to), to) && Convert(Convert(d, from, to), to, from) == d
  {
    var n, x := LeadingZeroes(d), Value(d, from);
    DigitsAreInBase(x, to);
    ZeroesInFront(n, Digits(x, to), to);
    ZeroesAddNothing(n, Digits(x, to), to);
    DigitsAreCanonical(d, from);
  }

  // ---------- The specification of the codec

  function Symbols(d: seq<nat>): (s: string)
    requires forall i | 0 <= i < |d| :: d[i] < 62
    ensures |s| == |d| && forall i | 0 <= i < |d| :: s[i] == ALPHABET[d[i]]
  {
    seq(|d|, i requires 0 <= i < |d| => ALPHABET[d[i]])
  }

  /** The characters that spell x. */
  ghost function Spelled(x: nat): string {
    if x == 0 then "" else Spelled(x / 62) + [ALPHABET[x % 62]]
  }

  lemma {:induction false} SpelledIsSymbols(x: nat)
    ensures InBase(Digits(x, 62), 62) && Spelled(x) == Symbols(Digits(x, 62))
  {
    DigitsAreInBase(x, 62);
    if x > 0 { SpelledIsSymbols(x / 62); }
  }

  ghost predicate InAlphabet(s: string) {
    forall i | 0 <= i < |s| :: Index(s[i]) >= 0
  }

  function Indexes(s: string): (d: seq<nat>)
    requires InAlphabet(s)
    ensures |d| == |s| && forall i | 0 <= i < |s| :: d[i] == Index(s[i])
  {
    seq(|s|, i requires 0 <= i < |s| => Index(s[i]))
  }

  ghost function Encoded(src: seq<byte>): string {
    ConversionIsInvertible(src, 256, 62);
    Symbols(Convert(src, 256, 62))
  }

  ghost function Decoded(s: string): seq<byte>
    requires InAlphabet(s)
  {
    IndexInvertsAlphabet();
    ConversionIsInvertible(Indexes(s), 62, 256);
    Convert(Indexes(s), 62, 256)
  }

  // ---------- Lengths

  lemma {:induction false} LongerIsLarger(x: nat, y: nat, base: nat)
    requires base > 1 && x <= y
    ensures |Digits(x, base)| <= |Digits(y, base)|
    decreases y
  {
    if x > 0 {
      QuotientGrows(x, y, base);
      Quotient(y, base);
      LongerIsLarger(x / base, y / base, base);
    }
  }

  lemma {:induction false} Base62Length(x: nat)
    ensures |Digits(x, 256)| <= |Digits(x, 62)| <= 2 * |Digits(x, 256)|
  {
    if x > 0 {
      Base62Length(x / 256);
      LongerIsLarger(x / 256, x / 62, 62);
      if x / 62 > 0 { LongerIsLarger(x / 62 / 62, x / 256, 62); }
    }
  }

  /** n bytes encode to between n and 2n characters. */
  lemma EncodedLength(src: seq<byte>)
    ensures |src| <= |Encoded(src)| <= 2 * |src|
    ensures |Encoded(src)| == LeadingZeroes(src) + |Digits(Value(src, 256), 62)|
  {
    DigitsAreCanonical(src, 256);
    Base62Length(Value(src, 256));
  }

  // ---------- The implementation

  function Reversed<T>(s: seq<T>): seq<T> {
    if s == [] then [] else Reversed(s[1..]) + [s[0]]
  }

  lemma {:induction false} ReversedAt<T>(s: seq<T>, k: nat)
    requires k < |s|
    ensures |Reversed(s)| == |s| && Reversed(s)[k] == s[|s| - 1 - k]
  {
    if |s| > 1 { ReversedAt(s[1..], if k < |s| - 1 then k else 0); }
  }

  lemma {:induction false} ReversedPush<T>(s: seq<T>, x: T)
    ensures Reversed(s + [x]) == [x] + Reversed(s)
  {
    if s != [] {
      ReversedPush(s[1..], x);
      assert (s + [x])[1..] == s[1..] + [x];
    }
  }

  /** `reverseBytes` on the first n places of the buffer. */
  method ReverseBytes(b: array<char>, n: nat)
    requires n <= b.Length
    modifies b
    ensures b[..n] == Reversed(old(b[..n]))
  {
    ghost var was := b[..n];
    var i := 0;
    while i < n / 2
      invariant 0 <= i <= n / 2
      invariant forall k | 0 <= k < i :: b[k] == was[n - 1 - k] && b[n - 1 - k] == was[k]
      invariant forall k | i <= k < n - i :: b[k] == was[k]
    {
      b[i], b[n - 1 - i] := b[n - 1 - i], b[i];
      i := i + 1;
    }
    MirrorIsReversed(was, b[..n]);
  }

  lemma MirrorIsReversed<T>(was: seq<T>, now: seq<T>)
    requires |now| == |was| && forall k | 0 <= k < |now| :: now[k] == was[|was| - 1 - k]
    ensures now == Reversed(was)
  {
    if was != [] {
      forall k | 0 <= k < |now| ensures |Reversed(was)| == |was| && now[k] == Reversed(was)[k] { ReversedAt(was, k); }
    }
  }

  method CountLeadingZeroes(src: seq<byte>) returns (n: nat)
    ensures n == LeadingZeroes(src)
  {
    n := 0;
    while n < |src| && src[n] == 0
      invariant n <= |src| && LeadingZeroes(src) == n + LeadingZeroes(src[n..])
    {
      assert src[n..][1..] == src[n + 1..];
      n := n + 1;
    }
  }

  /** The DivMod loop: appends the digits, last digit first. */
  method AppendDigits(number: nat, out: array<char>) returns (n: nat)
    requires |Spelled(number)| <= out.Length
    modifies out
    ensures n == |Spelled(number)| && Reversed(out[..n]) == Spelled(number)
  {
    var x := number;
    n := 0;
    while x > 0
      invariant n + |Spelled(x)| == |Spelled(number)|
      invariant Spelled(x) + Reversed(out[..n]) == Spelled(number)
    {
      ReversedPush(out[..n], ALPHABET[x % 62]);
      out[n] := ALPHABET[x % 62];
      assert out[..n + 1] == out[..n] + [ALPHABET[x % 62]];
      x, n := x / 62, n + 1;
    }
    assert Spelled(x) == "" && "" + Reversed(out[..n]) == Reversed(out[..n]);
  }

  method AppendZeroes(count: nat, out: array<char>, start: nat) returns (n: nat)
    requires start + count <= out.Length
    modifies out
    ensures n == start + count && Reversed(out[..n]) == seq(count, _ => ALPHABET[0]) + Reversed(old(out[..start]))
  {
    n := start;
    for i := 0 to count
      invariant n == start + i && Reversed(out[..n]) == seq(i, _ => ALPHABET[0]) + Reversed(old(out[..start]))
    {
      ReversedPush(out[..n], ALPHABET[0]);
      out[n] := ALPHABET[0];
      assert out[..n + 1] == out[..n] + [ALPHABET[0]];
      n := n + 1;
    }
  }

  /** The buffer has the capacity Go preallocates, and is never outgrown. */
  method Base62Encode(src: seq<byte>) returns (s: string)
    ensures s == Encoded(src)
  {
    EncodedLength(src);
    EncodedSpells(src);
    if |src| == 0 { return ""; }
    var leadingZeroes := CountLeadingZeroes(src);
    var x := Value(src, 256);
    if x == 0 { return seq(leadingZeroes, _ => ALPHABET[0]); }
    var out := new char[2 * |src|];
    var n := AppendDigits(x, out);
    n := AppendZeroes(leadingZeroes, out, n);
    ReverseBytes(out, n);
    s := out[..n];
  }

  lemma EncodedSpells(src: seq<byte>)
    ensures Encoded(src) == seq(LeadingZeroes(src), _ => ALPHABET[0]) + Spelled(Value(src, 256))
  {
    SpelledIsSymbols(Value(src, 256));
    ConversionIsInvertible(src, 256, 62);
  }

  method CountLeadingZeroChars(s: string) returns (n: nat)
    ensures n <= |s| && (forall i | 0 <= i < n :: s[i] == ALPHABET[0]) && (n < |s| ==> s[n] != ALPHABET[0])
  {
    n := 0;
    while n < |s| && s[n] == ALPHABET[0]
      invariant 0 <= n <= |s|
      invariant forall i | 0 <= i < n :: s[i] == ALPHABET[0]
    {
      n := n + 1;
    }
  }

  /** The first character outside the alphabet. */
  ghost predicate IsFirstForeign(s: string, c: char) {
    exists i :: 0 <= i < |s| && c == s[i] && Index(c) < 0 && InAlphabet(s[..i])
  }

  /** The Mul-Add loop: the number the characters spell, in base 62. */
  method ReadNumber(s: string) returns (r: Result<nat, char>)
    ensures r.Ok? <==> InAlphabet(s)
    ensures r.Ok? ==> r.value == Value(Indexes(s), 62)
    ensures r.Err? ==> IsFirstForeign(s, r.error)
  {
    var x := 0;
    for i := 0 to |s|
      invariant InAlphabet(s[..i]) && x == Value(Indexes(s[..i]), 62)
    {
      var idx := Index(s[i]);
      if idx < 0 { return Err(s[i]); }
      IndexesPush(s[..i], s[i]);
      assert s[..i] + [s[i]] == s[..i + 1];
      x := x * 62 + idx;
    }
    assert s[..|s|] == s;
    return Ok(x);
  }

  method Base62Decode(s: string) returns (r: Result<seq<byte>, char>)
    ensures r.Ok? <==> InAlphabet(s)
    ensures r.Ok? ==> r.value == Decoded(s)
    ensures r.Err? ==> IsFirstForeign(s, r.error)
  {
    if s == "" { return Ok([]); }
    var leadingZeroes := CountLeadingZeroChars(s);
    var x := ReadNumber(s);
    if x.Err? { return Err(x.error); }
    DecodedIs(s, leadingZeroes, x.value);
    DigitsAreInBase(x.value, 256);
    var decoded: seq<byte> := Digits(x.value, 256);
    if leadingZeroes == 0 {
      assert Zeroes(0) + decoded == decoded;
      return Ok(decoded);
    }
    return Ok(seq(leadingZeroes, _ => 0) + decoded);
  }

  lemma IndexesPush(s: string, c: char)
    requires InAlphabet(s) && Index(c) >= 0
    ensures InAlphabet(s + [c]) && Value(Indexes(s + [c]), 62) == Value(Indexes(s), 62) * 62 + Index(c)
  {
    assert Indexes(s + [c]) == Indexes(s) + [Index(c)];
    ValuePush(Indexes(s), Index(c), 62);
  }

  lemma DecodedIs(s: string, zeroes: nat, x: nat)
    requires InAlphabet(s) && zeroes <= |s| && x == Value(Indexes(s), 62)
    requires (forall i | 0 <= i < zeroes :: s[i] == ALPHABET[0]) && (zeroes < |s| ==> s[zeroes] != ALPHABET[0])
    ensures Decoded(s) == Zeroes(zeroes) + Digits(x, 256)
  {
    IndexInvertsAlphabet();
    assert zeroes < |s| ==> Index(s[zeroes]) != 0;
    LeadingZeroesAre(Indexes(s), zeroes);
  }

  lemma {:induction false} LeadingZeroesAre(d: seq<nat>, n: nat)
    requires n <= |d| && (forall i | 0 <= i < n :: d[i] == 0) && (n < |d| ==> d[n] != 0)
    ensures LeadingZeroes(d) == n
  {
    if n > 0 { LeadingZeroesAre(d[1..], n - 1); }
  }

  // ---------- The codec is a bijection

  /** Decoding an encoding gives the bytes back; encoding a decoding gives the string back, for every byte
      string and every string over the alphabet. */
  lemma DecodeEncode(src: seq<byte>)
    ensures InAlphabet(Encoded(src)) && Decoded(Encoded(src)) == src
  {
    IndexInvertsAlphabet();
    ConversionIsInvertible(src, 256, 62);
    assert Indexes(Encoded(src)) == Convert(src, 256, 62);
  }

  lemma EncodeDecode(s: string)
    requires InAlphabet(s)
    ensures Encoded(Decoded(s)) == s
  {
    IndexInvertsAlphabet();
    ConversionIsInvertible(Indexes(s), 62, 256);
    assert Symbols(Indexes(s)) == s;
  }

  // ---------- API keys

  const API_KEY_PREFIX_LENGTH := 12

  datatype KeyError = BadHint | TooFewBytes | NoRandomness

  function TokenBytes(randomBytes: int): int {
    if randomBytes == 0 then 32 else randomBytes
  }

  /** `generateOpaqueToken`; `random(n)` stands for reading n bytes from crypto/rand, which can fail. */
  method GenerateOpaqueToken(randomBytes: int, random: nat -> Option<seq<byte>>) returns (r: Result<string, KeyError>)
    requires forall n :: random(n).Some? ==> |random(n).value| == n
    ensures r.Ok? <==> TokenBytes(randomBytes) >= 16 && random(TokenBytes(randomBytes)).Some?
    ensures r.Ok? ==> r.value == Encoded(random(TokenBytes(randomBytes)).value)
    ensures TokenBytes(randomBytes) < 16 ==> r == Err(TooFewBytes)
  {
    var n := TokenBytes(randomBytes);
    if n < 16 { return Err(TooFewBytes); }
    var bytes := random(n);
    if bytes.None? { return Err(NoRandomness); }
    var token := Base62Encode(bytes.value);
    return Ok(token);
  }

  datatype APIKey = APIKey(raw: string, hash: string, prefix: string)

  /** `GenerateAPIKey`. Every key it makes has a prefix of exactly 12 characters: "fs_live_" or "fs_test_", and
      four of the token. */
  method GenerateAPIKey(envHint: string, randomBytes: int, random: nat -> Option<seq<byte>>, sha256Hex: string -> string)
      returns (r: Result<APIKey, KeyError>)
    requires forall n :: random(n).Some? ==> |random(n).value| == n
    ensures var hint := Text.ToLower(Text.TrimSpace(envHint));
      && (r.Ok? <==> (hint == "live" || hint == "test") && TokenBytes(randomBytes) >= 16 && random(TokenBytes(randomBytes)).Some?)
      && (r.Ok? ==> r.value.raw == "fs_" + hint + "_" + Encoded(random(TokenBytes(randomBytes)).value))
    ensures r.Ok? ==>
      && r.value.hash == sha256Hex(r.value.raw)
      && |r.value.prefix| == API_KEY_PREFIX_LENGTH && r.value.prefix <= r.value.raw
  {
    var hint := Text.ToLower(Text.TrimSpace(envHint));
    if hint != "live" && hint != "test" { return Err(BadHint); }
    var token := GenerateOpaqueToken(randomBytes, random);
    if token.Err? { return Err(token.error); }
    EncodedLength(random(TokenBytes(randomBytes)).value);
    var raw := "fs_" + hint + "_" + token.value;
    var prefix := raw;
    if |prefix| > API_KEY_PREFIX_LENGTH { prefix := prefix[..API_KEY_PREFIX_LENGTH]; }
    return Ok(APIKey(raw, sha256Hex(raw), prefix));
  }
}
