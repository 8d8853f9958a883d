/**
 * String primitives shared by the models: Python's `str.split(sep)` with a
 * one-character separator, `strip()` over a chosen whitespace class, ASCII
 * lower-casing, prefix and substring tests, and decimal digit strings.
 */
module Text {

  /** The characters for which Python's `str.isspace()` holds; `str.strip()`
      with no argument removes exactly these from both ends. */
  predicate IsPySpace(c: char) {
    || c == ' '
    || ('\t' <= c <= '\r')
    || ('\U{1c}' <= c <= '\U{1f}')
    || c == '\U{85}' || c == '\U{a0}' || c == '\U{1680}'
    || ('\U{2000}' <= c <= '\U{200a}')
    || c == '\U{2028}' || c == '\U{2029}' || c == '\U{202f}'
    || c == '\U{205f}' || c == '\U{3000}'
  }

  /** Number of leading characters of `s` in the class `space`. */
  function LeadingCount(space: char -> bool, s: string): (k: nat)
    ensures k <= |s|
    ensures forall i :: 0 <= i < k ==> space(s[i])
    ensures k == |s| || !space(s[k])
    decreases |s|
  {
    if |s| > 0 && space(s[0]) then 1 + LeadingCount(space, s[1..]) else 0
  }

  /** Index where the trailing run of `space` characters of `s` starts. */
  function TrailingStart(space: char -> bool, s: string): (k: nat)
    ensures k <= |s|
    ensures forall i :: k <= i < |s| ==> space(s[i])
    ensures k == 0 || !space(s[k - 1])
    decreases |s|
  {
    if |s| > 0 && space(s[|s| - 1]) then TrailingStart(space, s[..|s| - 1]) else |s|
  }

  /** `s` with its leading and trailing `space` characters removed. */
  function StripBy(space: char -> bool, s: string): (r: string)
  {
    var a := LeadingCount(space, s);
    s[a..][..TrailingStart(space, s[a..])]
  }

  /** What `StripBy` returns: the unique slice of `s` between a blank prefix
      and a blank suffix that neither starts nor ends with a blank. */
  lemma StripBySlice(space: char -> bool, s: string)
    ensures exists i, j ::
              && 0 <= i <= j <= |s| && StripBy(space, s) == s[i..j]
              && (forall k :: 0 <= k < i ==> space(s[k]))
              && (forall k :: j <= k < |s| ==> space(s[k]))
              && (i < j ==> !space(s[i]) && !space(s[j - 1]))
  {
    var a := LeadingCount(space, s);
    var b := TrailingStart(space, s[a..]);
    assert StripBy(space, s) == s[a..a + b];
    if b > 0 {
      assert !space(s[a]);
      assert s[a..][b - 1] == s[a + b - 1];
    }
    forall k | a + b <= k < |s| ensures space(s[k]) {
      assert s[a..][k - a] == s[k];
    }
  }

  /** Python's `str.strip()`. */
  function Strip(s: string): string {
    StripBy(IsPySpace, s)
  }

  /** Python's `str.lower()` restricted to ASCII letters. */
  function LowerChar(c: char): (r: char)
    ensures 'A' <= c <= 'Z' ==> r as int == c as int + 32
    ensures !('A' <= c <= 'Z') ==> r == c
  {
    if 'A' <= c <= 'Z' then (c as int + 32) as char else c
  }

  function Lower(s: string): (r: string)
    ensures |r| == |s| && forall i :: 0 <= i < |s| ==> r[i] == LowerChar(s[i])
  {
    seq(|s|, i requires 0 <= i < |s| => LowerChar(s[i]))
  }

  /** Python's `s.startswith(p)`. */
  predicate StartsWith(s: string, p: string) {
    |p| <= |s| && s[..|p|] == p
  }

  /** Python's `sub in s` for strings. */
  predicate Contains(s: string, sub: string) {
    exists i :: 0 <= i <= |s| - |sub| && StartsWith(s[i..], sub)
  }

  /** Position of the first `c` in `s`. */
  function IndexOf(s: string, c: char): (k: nat)
    requires c in s
    ensures k < |s| && s[k] == c && c !in s[..k]
  {
    if s[0] == c then 0 else 1 + IndexOf(s[1..], c)
  }

  lemma {:induction false} IndexOfFirst(s: string, c: char, k: nat)
    requires k < |s| && s[k] == c && c !in s[..k]
    ensures IndexOf(s, c) == k
  {
    if k > 0 {
      assert s[0] == s[..k][0];
      assert s[1..][..k - 1] == s[1..k];
      assert s[1..k] == s[..k][1..];
      IndexOfFirst(s[1..], c, k - 1);
    }
  }

  /** Python's `sep.join(parts)` with a one-character separator. */
  function Join(parts: seq<string>, sep: char): string
    requires |parts| >= 1
  {
    if |parts| == 1 then parts[0] else parts[0] + [sep] + Join(parts[1..], sep)
  }

  /** Python's `s.split(sep)` with a one-character separator: the pieces
      between separators, empty pieces included, never an empty list. */
  function Split(s: string, sep: char): (parts: seq<string>)
    ensures |parts| >= 1
    ensures forall i :: 0 <= i < |parts| ==> sep !in parts[i]
    ensures Join(parts, sep) == s
    ensures |parts| == 1 <==> sep !in s
    decreases |s|
  {
    if sep !in s then [s]
    else
      var i := IndexOf(s, sep);
      assert s == s[..i] + [sep] + s[i + 1..];
      [s[..i]] + Split(s[i + 1..], sep)
  }

  /** Splitting a join of separator-free pieces gives the pieces back. */
  lemma {:induction false} SplitJoin(parts: seq<string>, sep: char)
    requires |parts| >= 1
    requires forall i :: 0 <= i < |parts| ==> sep !in parts[i]
    ensures Split(Join(parts, sep), sep) == parts
    decreases |parts|
  {
    if |parts| == 1 {
      assert sep !in parts[0];
    } else {
      var s := Join(parts, sep);
      var rest := Join(parts[1..], sep);
      assert s == parts[0] + [sep] + rest;
      assert sep !in parts[0];
      assert s[|parts[0]|] == sep;
      var k := |parts[0]|;
      assert s[..k] == parts[0];
      IndexOfFirst(s, sep, k);
      assert s[k + 1..] == rest;
      SplitJoin(parts[1..], sep);
    }
  }

  predicate IsAsciiDigit(c: char) {
    '0' <= c <= '9'
  }

  predicate AllDigits(s: string) {
    forall i :: 0 <= i < |s| ==> IsAsciiDigit(s[i])
  }

  /** Python's `str.isdigit()` restricted to ASCII: non-empty, digits only. */
  predicate IsDigits(s: string) {
    |s| > 0 && AllDigits(s)
  }

  function Zeros(n: nat): (z: string)
    ensures |z| == n && forall i :: 0 <= i < n ==> z[i] == '0'
  {
    seq(n, _ => '0')
  }

  function DigitValue(c: char): (d: nat)
    requires IsAsciiDigit(c)
    ensures d < 10
  {
    c as int - '0' as int
  }

  function DigitChar(d: nat): (c: char)
    requires d < 10
    ensures IsAsciiDigit(c) && DigitValue(c) == d
  {
    (d + '0' as int) as char
  }

  /** Python's `int(s)` on an ASCII digit string (leading zeros allowed). */
  function ParseDigits(s: string): nat
    requires AllDigits(s)
  {
    if |s| == 0 then 0 else 10 * ParseDigits(s[..|s| - 1]) + DigitValue(s[|s| - 1])
  }

  /** Python's `str(n)` for a natural number. */
  function Decimal(n: nat): (s: string)
    ensures IsDigits(s)
    ensures |s| > 1 ==> s[0] != '0'
  {
    if n < 10 then [DigitChar(n)] else Decimal(n / 10) + [DigitChar(n % 10)]
  }

  /** `int(str(n)) == n`. */
  lemma {:induction false} ParseDecimal(n: nat)
    ensures ParseDigits(Decimal(n)) == n
  {
    if n >= 10 {
      var s := Decimal(n);
      assert s[..|s| - 1] == Decimal(n / 10);
      ParseDecimal(n / 10);
    }
  }

  /** Leading zeros do not change the value `int()` reads. */
  lemma {:induction false} ParseLeadingZeros(z: nat, s: string)
    requires AllDigits(s)
    ensures AllDigits(Zeros(z) + s)
    ensures ParseDigits(Zeros(z) + s) == ParseDigits(s)
    decreases |s|
  {
    var zs := Zeros(z);
    if |s| == 0 {
      assert zs + s == zs;
      ZerosParseToZero(z);
    } else {
      var t := zs + s;
      assert t[..|t| - 1] == zs + s[..|s| - 1];
      ParseLeadingZeros(z, s[..|s| - 1]);
    }
  }

  lemma {:induction false} ZerosParseToZero(z: nat)
    ensures AllDigits(Zeros(z))
    ensures ParseDigits(Zeros(z)) == 0
  {
    if z > 0 {
      assert Zeros(z)[..z - 1] == Zeros(z - 1);
      ZerosParseToZero(z - 1);
    }
  }
}
