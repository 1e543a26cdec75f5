/**
 * The few .NET string operations the storefront relies on, over `seq<char>`:
 * whitespace tests and trimming (Char.IsWhiteSpace), ordinal prefix, suffix,
 * containment and last-index search, ordinal Replace, ordinal case-insensitive
 * containment, and Int32.ToString together with the number parsing the query
 * string binder applies to it.
 */
module Strings {

  /** Char.IsWhiteSpace: the Unicode space separators, U+2028, U+2029, and U+0009..U+000D, U+0085. */
  predicate IsWhiteSpace(c: char) {
    || c == ' '
    || ('\t' <= c <= '\r')
    || c == '\U{0085}'
    || c == '\U{00A0}'
    || c == '\U{1680}'
    || ('\U{2000}' <= c <= '\U{200A}')
    || c == '\U{2028}'
    || c == '\U{2029}'
    || c == '\U{202F}'
    || c == '\U{205F}'
    || c == '\U{3000}'
  }

  /** string.IsNullOrWhiteSpace on a non-null string (the empty string included). */
  predicate IsBlank(s: string) {
    forall i :: 0 <= i < |s| ==> IsWhiteSpace(s[i])
  }

  /** Ordinal string.StartsWith. */
  /** The length .NET reports: UTF-16 code units, two for a scalar value above U+FFFF. */
  function Utf16Length(s: string): (n: nat)
    ensures |s| <= n <= 2 * |s|
  {
    if s == [] then 0 else (if s[0] as int > 0xFFFF then 2 else 1) + Utf16Length(s[1..])
  }

  /** Only characters outside the Basic Multilingual Plane add to the length in code units. */
  lemma {:induction false} Utf16LengthOfBmp(s: string)
    ensures Utf16Length(s) == |s| <==> forall i :: 0 <= i < |s| ==> s[i] as int <= 0xFFFF
  {
    if s != [] {
      Utf16LengthOfBmp(s[1..]);
      assert forall i :: 1 <= i < |s| ==> s[i] == s[1..][i - 1];
    }
  }

  predicate StartsWith(s: string, prefix: string) {
    |prefix| <= |s| && s[..|prefix|] == prefix
  }

  /** Ordinal string.EndsWith. */
  predicate EndsWith(s: string, suffix: string) {
    |suffix| <= |s| && s[|s| - |suffix|..] == suffix
  }

  /** `needle` occurs in `s` at position `i`. */
  predicate OccursAt(s: string, needle: string, i: int) {
    0 <= i && i + |needle| <= |s| && s[i..i + |needle|] == needle
  }

  /** Ordinal string.Contains. */
  predicate Contains(s: string, needle: string) {
    exists i | 0 <= i <= |s| - |needle| :: OccursAt(s, needle, i)
  }

  /** string.LastIndexOf for a one-character needle: the last position of `c`, or -1. */
  function LastIndexOf(s: string, c: char): (r: int)
    ensures -1 <= r < |s|
    ensures r >= 0 ==> s[r] == c
    ensures forall j :: r < j < |s| ==> s[j] != c
  {
    if s == [] then -1
    else if s[|s| - 1] == c then |s| - 1
    else LastIndexOf(s[..|s| - 1], c)
  }

  /**
   * Ordinal string.Replace: scans left to right and replaces each
   * non-overlapping occurrence of `oldValue`. .NET refuses an empty `oldValue`.
   */
  function Replace(s: string, oldValue: string, newValue: string): string
    requires oldValue != ""
    decreases |s|
  {
    if |s| < |oldValue| then s
    else if s[..|oldValue|] == oldValue then newValue + Replace(s[|oldValue|..], oldValue, newValue)
    else [s[0]] + Replace(s[1..], oldValue, newValue)
  }

  /** Replace leaves a string without an occurrence unchanged. */
  lemma {:induction false} ReplaceWithoutOccurrence(s: string, oldValue: string, newValue: string)
    requires oldValue != ""
    requires forall i :: 0 <= i <= |s| - |oldValue| ==> !OccursAt(s, oldValue, i)
    ensures Replace(s, oldValue, newValue) == s
    decreases |s|
  {
    if |s| >= |oldValue| {
      assert !OccursAt(s, oldValue, 0);
      forall i | 0 <= i <= |s[1..]| - |oldValue|
        ensures !OccursAt(s[1..], oldValue, i)
      {
        assert !OccursAt(s, oldValue, i + 1);
        assert s[1..][i..i + |oldValue|] == s[i + 1..i + 1 + |oldValue|];
      }
      ReplaceWithoutOccurrence(s[1..], oldValue, newValue);
    }
  }

  /** No occurrence of `oldValue` in `a + c` starts in `a` and ends in `c`. */
  predicate NoStraddle(a: string, c: string, oldValue: string) {
    forall i :: 0 <= i < |a| < i + |oldValue| ==> !OccursAt(a + c, oldValue, i)
  }

  /** Dropping a prefix of `a` keeps the boundary free of occurrences. */
  lemma NoStraddleAfterDrop(a: string, c: string, oldValue: string, k: nat)
    requires k <= |a| && NoStraddle(a, c, oldValue)
    ensures NoStraddle(a[k..], c, oldValue)
  {
    var n := |oldValue|;
    var a' := a[k..];
    assert (a + c)[k..] == a' + c;
    forall i | 0 <= i < |a'| < i + n
      ensures !OccursAt(a' + c, oldValue, i)
    {
      assert !OccursAt(a + c, oldValue, i + k);
      if i + n <= |a' + c| {
        assert (a' + c)[i..i + n] == (a + c)[i + k..i + k + n];
      }
    }
  }

  /**
   * When no occurrence of `oldValue` straddles the boundary between `a` and `c`,
   * Replace works on the two halves independently.
   */
  lemma {:induction false} ReplaceSplits(a: string, c: string, oldValue: string, newValue: string)
    requires oldValue != ""
    requires NoStraddle(a, c, oldValue)
    ensures Replace(a + c, oldValue, newValue) == Replace(a, oldValue, newValue) + Replace(c, oldValue, newValue)
    decreases |a|, 1
  {
    var n := |oldValue|;
    if a == [] {
      assert a + c == c;
    } else if |a + c| < n {
      assert Replace(a, oldValue, newValue) == a;
    } else if (a + c)[..n] == oldValue {
      ReplaceSplitsAtMatch(a, c, oldValue, newValue);
    } else {
      ReplaceSplitsAtMiss(a, c, oldValue, newValue);
    }
  }

  /** ReplaceSplits when `a + c` starts with an occurrence, which then lies inside `a`. */
  lemma {:induction false} ReplaceSplitsAtMatch(a: string, c: string, oldValue: string, newValue: string)
    requires oldValue != "" && a != []
    requires NoStraddle(a, c, oldValue)
    requires |oldValue| <= |a + c| && (a + c)[..|oldValue|] == oldValue
    ensures Replace(a + c, oldValue, newValue) == Replace(a, oldValue, newValue) + Replace(c, oldValue, newValue)
    decreases |a|, 0
  {
    var n := |oldValue|;
    assert OccursAt(a + c, oldValue, 0);
    assert a[..n] == oldValue;
    assert (a + c)[n..] == a[n..] + c;
    NoStraddleAfterDrop(a, c, oldValue, n);
    ReplaceSplits(a[n..], c, oldValue, newValue);
  }

  /** ReplaceSplits when `a + c` does not start with an occurrence: the first character is kept. */
  lemma {:induction false} ReplaceSplitsAtMiss(a: string, c: string, oldValue: string, newValue: string)
    requires oldValue != "" && a != []
    requires NoStraddle(a, c, oldValue)
    requires |oldValue| <= |a + c| && (a + c)[..|oldValue|] != oldValue
    ensures Replace(a + c, oldValue, newValue) == Replace(a, oldValue, newValue) + Replace(c, oldValue, newValue)
    decreases |a|, 0
  {
    var n := |oldValue|;
    var ra, rc := Replace(a[1..], oldValue, newValue), Replace(c, oldValue, newValue);
    ReplaceMissKeepsHead(a, c, oldValue, newValue);
    NoStraddleAfterDrop(a, c, oldValue, 1);
    ReplaceSplits(a[1..], c, oldValue, newValue);
    ConsAppend(a[0], ra, rc);
  }

  lemma ConsAppend(x: char, s: string, t: string)
    ensures [x] + (s + t) == ([x] + s) + t
  {
  }

  /**
   * When `a + c` does not start with `oldValue`, neither does `a`, and Replace
   * keeps the first character of both.
   */
  lemma ReplaceMissKeepsHead(a: string, c: string, oldValue: string, newValue: string)
    requires oldValue != "" && a != []
    requires |oldValue| <= |a + c| && (a + c)[..|oldValue|] != oldValue
    ensures Replace(a + c, oldValue, newValue) == [a[0]] + Replace(a[1..] + c, oldValue, newValue)
    ensures Replace(a, oldValue, newValue) == [a[0]] + Replace(a[1..], oldValue, newValue)
  {
    var n := |oldValue|;
    assert (a + c)[0] == a[0] && (a + c)[1..] == a[1..] + c;
    if |a| < n {
      assert [a[0]] + a[1..] == a;
    } else {
      assert a[..n] == (a + c)[..n];
    }
  }

  /** string.TrimStart(): drops the leading whitespace. */
  function TrimStart(s: string): (r: string)
    ensures |r| <= |s| && r == s[|s| - |r|..]
    ensures forall i :: 0 <= i < |s| - |r| ==> IsWhiteSpace(s[i])
    ensures r != [] ==> !IsWhiteSpace(r[0])
  {
    if s != [] && IsWhiteSpace(s[0]) then TrimStart(s[1..]) else s
  }

  /** string.TrimEnd(): drops the trailing whitespace. */
  function TrimEnd(s: string): (r: string)
    ensures |r| <= |s| && r == s[..|r|]
    ensures forall i :: |r| <= i < |s| ==> IsWhiteSpace(s[i])
    ensures r != [] ==> !IsWhiteSpace(r[|r| - 1])
  {
    if s != [] && IsWhiteSpace(s[|s| - 1]) then TrimEnd(s[..|s| - 1]) else s
  }

  /** `r` is `s` with the whitespace before position `k` and after `r` cut away. */
  predicate TrimmedAt(s: string, r: string, k: int) {
    && 0 <= k <= |s| - |r|
    && s[k..k + |r|] == r
    && (forall i :: 0 <= i < k ==> IsWhiteSpace(s[i]))
    && (forall i :: k + |r| <= i < |s| ==> IsWhiteSpace(s[i]))
  }

  /** string.Trim(): the middle of `s` between leading and trailing whitespace. */
  function Trim(s: string): (r: string)
    ensures r == [] || (!IsWhiteSpace(r[0]) && !IsWhiteSpace(r[|r| - 1]))
    ensures exists k :: TrimmedAt(s, r, k)
  {
    var t := TrimStart(s);
    var r := TrimEnd(t);
    TrimmedBothEnds(s, t, r);
    r
  }

  /** Cutting whitespace off the front and then off the back leaves a trimmed middle. */
  lemma TrimmedBothEnds(s: string, t: string, r: string)
    requires |t| <= |s| && t == s[|s| - |t|..]
    requires forall i :: 0 <= i < |s| - |t| ==> IsWhiteSpace(s[i])
    requires |r| <= |t| && r == t[..|r|]
    requires forall i :: |r| <= i < |t| ==> IsWhiteSpace(t[i])
    ensures TrimmedAt(s, r, |s| - |t|)
  {
    var k := |s| - |t|;
    assert s[k..k + |r|] == r by {
      assert s[k..][..|r|] == s[k..k + |r|];
    }
    forall i | k + |r| <= i < |s|
      ensures IsWhiteSpace(s[i])
    {
      assert s[i] == t[i - k];
    }
  }

  /** Upper-casing as OrdinalIgnoreCase does it, for the ASCII letters. */
  function ToUpperAscii(c: char): (u: char)
    ensures 'a' <= c <= 'z' ==> u as int == c as int - 32
    ensures !('a' <= c <= 'z') ==> u == c
  {
    if 'a' <= c <= 'z' then (c as int - 32) as char else c
  }

  predicate EqualsIgnoreCase(a: string, b: string) {
    |a| == |b| && forall i :: 0 <= i < |a| ==> ToUpperAscii(a[i]) == ToUpperAscii(b[i])
  }

  predicate OccursAtIgnoreCase(s: string, needle: string, i: int) {
    0 <= i && i + |needle| <= |s| && EqualsIgnoreCase(s[i..i + |needle|], needle)
  }

  /** string.Contains(needle, StringComparison.OrdinalIgnoreCase). */
  predicate ContainsIgnoreCase(s: string, needle: string) {
    exists i | 0 <= i <= |s| - |needle| :: OccursAtIgnoreCase(s, needle, i)
  }

  predicate IsDigit(c: char) {
    '0' <= c <= '9'
  }

  predicate AllDigits(s: string) {
    forall i :: 0 <= i < |s| ==> IsDigit(s[i])
  }

  function DigitChar(d: int): (c: char)
    requires 0 <= d < 10
    ensures IsDigit(c) && c as int - '0' as int == d
  {
    ('0' as int + d) as char
  }

  /** The decimal digits of `n`, most significant first, without leading zeros. */
  function NatToString(n: nat): (s: string)
    ensures s != [] && AllDigits(s)
    ensures |s| > 1 ==> s[0] != '0'
  {
    if n < 10 then [DigitChar(n)] else NatToString(n / 10) + [DigitChar(n % 10)]
  }

  /** Int32.ToString() in the invariant culture. */
  function IntToString(n: int): string {
    if n < 0 then "-" + NatToString(-n) else NatToString(n)
  }

  /** The value of a string of decimal digits. */
  function ParseNat(s: string): nat
    requires AllDigits(s)
  {
    if s == [] then 0 else 10 * ParseNat(s[..|s| - 1]) + (s[|s| - 1] as int - '0' as int)
  }

  predicate IsIntString(s: string) {
    if s != [] && s[0] == '-' then |s| > 1 && AllDigits(s[1..]) else s != [] && AllDigits(s)
  }

  /** Int32 parsing, as the query-string binder applies it. */
  function ParseInt(s: string): int
    requires IsIntString(s)
  {
    if s[0] == '-' then 0 - ParseNat(s[1..]) else ParseNat(s)
  }

  lemma {:induction false} ParseNatToString(n: nat)
    ensures ParseNat(NatToString(n)) == n
    decreases n
  {
    if n >= 10 {
      var s := NatToString(n / 10);
      var t := s + [DigitChar(n % 10)];
      assert t[..|t| - 1] == s;
      ParseNatToString(n / 10);
    }
  }

  /** ToString and parsing are inverse: the printed id is read back as the same id. */
  lemma IntToStringRoundTrip(n: int)
    ensures IsIntString(IntToString(n))
    ensures ParseInt(IntToString(n)) == n
  {
    if n < 0 {
      var s := NatToString(-n);
      assert ("-" + s)[1..] == s;
      ParseNatToString(-n);
    } else {
      ParseNatToString(n);
    }
  }
}
