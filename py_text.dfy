/**
 * The Python string built-ins the controller relies on, over `seq<char>`:
 * `str(int)`, `str.upper()` and `str.strip()`. Only ASCII case mapping and
 * the whitespace below U+0080 are modelled.
 */
module PyText {

  // ---------------------------------------------------------------------------
  // str(int): decimal rendering, and the parse that undoes it

  predicate IsDigit(c: char) {
    '0' <= c <= '9'
  }

  function DigitChar(d: nat): (c: char)
    requires d < 10
    ensures IsDigit(c) && (c as int) - ('0' as int) == d
  {
    (('0' as int) + d) as char
  }

  /** Decimal digits of `n`, most significant first, no leading zeros. */
  function NatToString(n: nat): (s: string)
    ensures |s| > 0 && IsDigit(s[0])
    ensures s[0] == '0' <==> n == 0
    ensures n == 0 ==> s == "0"
    ensures forall i :: 0 <= i < |s| ==> IsDigit(s[i])
    decreases n
  {
    if n < 10 then [DigitChar(n)] else NatToString(n / 10) + [DigitChar(n % 10)]
  }

  /** Python's `str(i)` for an `int`: a minus sign for negatives, then the digits. */
  function IntToString(i: int): (s: string)
    ensures |s| > 0
    ensures forall k :: 0 <= k < |s| ==> IsDigit(s[k]) || (k == 0 && s[k] == '-')
    ensures s[0] == '-' <==> i < 0
    ensures s[0] == '0' ==> s == "0"
    ensures i < 0 ==> |s| > 1 && s[1] != '0'
  {
    if i < 0 then "-" + NatToString(-i) else NatToString(i)
  }

  function DigitValue(c: char): nat
    requires IsDigit(c)
  {
    (c as int) - ('0' as int)
  }

  function ParseNat(s: string): nat
    requires forall i :: 0 <= i < |s| ==> IsDigit(s[i])
  {
    if |s| == 0 then 0 else ParseNat(s[..|s| - 1]) * 10 + DigitValue(s[|s| - 1])
  }

  /** Reads back what `IntToString` writes. */
  function ParseInt(s: string): int
    requires |s| > 0
    requires forall k :: 0 <= k < |s| ==> IsDigit(s[k]) || (k == 0 && s[k] == '-')
  {
    if s[0] == '-' then -(ParseNat(s[1..]) as int) else ParseNat(s)
  }

  lemma {:induction false} ParseNatToString(n: nat)
    ensures ParseNat(NatToString(n)) == n
    decreases n
  {
    if n >= 10 {
      var s := NatToString(n);
      assert s[..|s| - 1] == NatToString(n / 10);
      ParseNatToString(n / 10);
    }
  }

  /** `str(int)` loses nothing: parsing its output gives the number back. */
  lemma IntToStringRoundTrip(i: int)
    ensures ParseInt(IntToString(i)) == i
  {
    if i < 0 {
      assert IntToString(i)[1..] == NatToString(-i);
      ParseNatToString(-i);
    } else {
      ParseNatToString(i);
    }
  }

  /** Distinct numbers have distinct decimal renderings. */
  lemma IntToStringInjective(i: int, j: int)
    ensures IntToString(i) == IntToString(j) ==> i == j
  {
    IntToStringRoundTrip(i);
    IntToStringRoundTrip(j);
  }

  // ---------------------------------------------------------------------------
  // str.upper()

  function UpperChar(c: char): char {
    if 'a' <= c <= 'z' then (c as int - 'a' as int + 'A' as int) as char else c
  }

  /** `s.upper()`: each ASCII lower-case letter becomes its capital, all else is kept. */
  function Upper(s: string): (r: string)
    ensures |r| == |s|
    ensures forall i :: 0 <= i < |s| ==> r[i] == UpperChar(s[i])
  {
    seq(|s|, i requires 0 <= i < |s| => UpperChar(s[i]))
  }

  lemma UpperIdempotent(s: string)
    ensures Upper(Upper(s)) == Upper(s)
  {
  }

  // ---------------------------------------------------------------------------
  // str.strip()

  /**
   * The characters below U+0080 that `str.isspace()` accepts: space, tab,
   * line feed, vertical tab, form feed, carriage return, and the four
   * separators U+001C to U+001F.
   */
  predicate IsWhitespace(c: char) {
    || c == ' ' || c == '\t' || c == '\n' || c == '\r' || c == '\U{000B}' || c == '\U{000C}'
    || ('\U{001C}' <= c <= '\U{001F}')
  }

  /** The first index at or after `i` that does not hold whitespace, or `|s|`. */
  function SkipSpace(s: string, i: nat): (j: nat)
    requires i <= |s|
    ensures i <= j <= |s|
    ensures forall k :: i <= k < j ==> IsWhitespace(s[k])
    ensures j < |s| ==> !IsWhitespace(s[j])
    decreases |s| - i
  {
    if i < |s| && IsWhitespace(s[i]) then SkipSpace(s, i + 1) else i
  }

  /** The end of `s[lo..hi]` once its trailing whitespace is dropped. */
  function TrimEnd(s: string, lo: nat, hi: nat): (e: nat)
    requires lo <= hi <= |s|
    ensures lo <= e <= hi
    ensures forall k :: e <= k < hi ==> IsWhitespace(s[k])
    ensures e > lo ==> !IsWhitespace(s[e - 1])
    decreases hi
  {
    if lo < hi && IsWhitespace(s[hi - 1]) then TrimEnd(s, lo, hi - 1) else hi
  }

  /**
   * `s.strip()`: the slice of `s` left after dropping leading and trailing
   * whitespace; everything dropped is whitespace, the ends of what is kept
   * are not, and nothing is kept exactly when `s` is all whitespace.
   */
  function Strip(s: string): (r: string)
    ensures var lo := SkipSpace(s, 0);
      var hi := TrimEnd(s, lo, |s|);
      && r == s[lo..hi]
      && (forall k :: 0 <= k < lo ==> IsWhitespace(s[k]))
      && (forall k :: hi <= k < |s| ==> IsWhitespace(s[k]))
    ensures r == [] || (!IsWhitespace(r[0]) && !IsWhitespace(r[|r| - 1]))
    ensures r == [] <==> forall k :: 0 <= k < |s| ==> IsWhitespace(s[k])
  {
    var lo := SkipSpace(s, 0);
    s[lo..TrimEnd(s, lo, |s|)]
  }

  lemma StripIdempotent(s: string)
    ensures Strip(Strip(s)) == Strip(s)
  {
    var r := Strip(s);
    if r != [] {
      assert SkipSpace(r, 0) == 0;
      assert TrimEnd(r, 0, |r|) == |r|;
      assert r[0..|r|] == r;
    }
  }
}
