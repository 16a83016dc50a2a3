/**
 * The few string and list primitives of JavaScript and Python that the
 * thumbnail pipeline relies on: `includes` / `in`, `substring`,
 * `replace(/,/g, "")`, `split(sep)[0]`, `indexOf`, and the decimal
 * conversions `Number(s)`, `parseInt(s)` and `int(s)` restricted to plain
 * digit strings.
 */
module Strings {
  import opened Common

  /** `t` occurs in `s` starting at index `i`. */
  predicate OccursAt(s: string, t: string, i: nat) {
    i + |t| <= |s| && s[i..i + |t|] == t
  }

  /** The first index at or after `from` where `t` occurs in `s`. */
  function FindFrom(s: string, t: string, from: nat): (r: Option<nat>)
    ensures r.Some? ==> from <= r.value && OccursAt(s, t, r.value)
    ensures r.Some? ==> forall j :: from <= j < r.value ==> !OccursAt(s, t, j)
    ensures r.None? ==> forall j :: from <= j ==> !OccursAt(s, t, j)
    decreases |s| - from
  {
    if from + |t| > |s| then None
    else if OccursAt(s, t, from) then Some(from)
    else FindFrom(s, t, from + 1)
  }

  /** JavaScript `s.includes(t)`, Python `t in s`. */
  function Contains(s: string, t: string): (b: bool)
    ensures b <==> exists i: nat :: OccursAt(s, t, i)
  {
    FindFrom(s, t, 0).Some?
  }

  /** Python `s.split(sep)[0]`: everything before the first `sep`, or all of `s`. */
  function BeforeFirst(s: string, sep: string): (r: string)
    requires sep != []
    ensures r <= s
    ensures !Contains(s, sep) ==> r == s
    ensures Contains(s, sep) ==> OccursAt(s, sep, |r|) && forall j :: 0 <= j < |r| ==> !OccursAt(s, sep, j)
  {
    match FindFrom(s, sep, 0)
    case Some(i) => s[..i]
    case None => s
  }

  /** Digits followed by a separator that starts with a non-digit: the part before the separator is the digits. */
  lemma BeforeFirstAfterDigits(d: string, sep: string)
    requires AllDigits(d) && sep != [] && !IsDigit(sep[0])
    ensures Contains(d + sep, sep)
    ensures BeforeFirst(d + sep, sep) == d
  {
    var s := d + sep;
    assert OccursAt(s, sep, |d|) by {
      assert s[|d|..|d| + |sep|] == sep;
    }
    var r := BeforeFirst(s, sep);
    assert OccursAt(s, sep, |r|);
    assert s[|r|] == sep[0];
  }

  function Min(a: nat, b: nat): nat {
    if a <= b then a else b
  }

  /** JavaScript `s.substring(start, end)`: both ends clamped to the length, swapped when reversed. */
  function Substring(s: string, start: nat, end: nat): (r: string)
    ensures |r| <= |s|
    ensures start <= end <= |s| ==> r == s[start..end]
    ensures start <= end && |s| <= end ==> r == s[Min(start, |s|)..]
  {
    var a, b := Min(start, |s|), Min(end, |s|);
    if a <= b then s[a..b] else s[b..a]
  }

  /** JavaScript `s.replace(/,/g, "")`. */
  function StripCommas(s: string): (r: string)
    ensures ',' !in r
    ensures |r| <= |s|
    ensures ',' !in s ==> r == s
    ensures forall c :: c != ',' ==> multiset(r)[c] == multiset(s)[c]
  {
    if s == [] then []
    else
      assert s == [s[0]] + s[1..];
      (if s[0] == ',' then [] else [s[0]]) + StripCommas(s[1..])
  }

  /**
   * Removing commas works piece by piece and keeps the order of what is
   * left: a single character is dropped exactly when it is a comma, and the
   * result for `a + b` is that for `a` followed by that for `b`.
   */
  lemma {:induction false} StripCommasAppend(a: string, b: string)
    ensures |a| == 1 ==> StripCommas(a) == if a[0] == ',' then [] else a
    ensures StripCommas(a + b) == StripCommas(a) + StripCommas(b)
  {
    if a != [] {
      assert (a + b)[1..] == a[1..] + b;
      StripCommasAppend(a[1..], b);
    } else {
      assert a + b == b;
    }
  }

  predicate IsDigit(c: char) {
    '0' <= c <= '9'
  }

  predicate AllDigits(s: string) {
    forall i :: 0 <= i < |s| ==> IsDigit(s[i])
  }

  /** The value of a string of decimal digits, most significant first. */
  function DecimalValue(s: string): nat
    requires AllDigits(s)
  {
    if s == [] then 0
    else DecimalValue(s[..|s| - 1]) * 10 + (s[|s| - 1] as int - '0' as int)
  }

  /**
   * Python `int(s)` and JavaScript `Number(s)` on a non-empty string of
   * decimal digits; `None` stands for Python's ValueError and JavaScript's NaN.
   */
  function ParseDecimal(s: string): (r: Option<nat>)
    ensures r.Some? <==> s != [] && AllDigits(s)
  {
    if s != [] && AllDigits(s) then Some(DecimalValue(s)) else None
  }

  /** The character of a decimal digit. */
  function DigitChar(d: nat): (c: char)
    requires d < 10
    ensures IsDigit(c) && c as int - '0' as int == d
  {
    ('0' as int + d) as char
  }

  /** Python `"{}".format(n)`, JavaScript `String(n)`: the decimal digits of `n`, without leading zeros. */
  function Decimal(n: nat): (r: string)
    ensures r != [] && AllDigits(r)
    ensures |r| > 1 ==> r[0] != '0'
  {
    if n < 10 then [DigitChar(n)] else Decimal(n / 10) + [DigitChar(n % 10)]
  }

  /** Reading back the digits of a number gives the number. */
  lemma {:induction false} DecimalRoundTrip(n: nat)
    ensures ParseDecimal(Decimal(n)) == Some(n)
  {
    if n >= 10 {
      DecimalRoundTrip(n / 10);
      var d, c := Decimal(n / 10), DigitChar(n % 10);
      assert (d + [c])[..|d|] == d;
      assert DecimalValue(d + [c]) == DecimalValue(d) * 10 + n % 10;
      assert Decimal(n) == d + [c];
      assert n == (n / 10) * 10 + n % 10;
    } else {
      var c := DigitChar(n);
      assert [c][..0] == [];
      assert DecimalValue([c]) == DecimalValue([]) * 10 + (c as int - '0' as int);
    }
  }

  /** A digit string without a leading zero, and of more than one digit, is worth at least 10. */
  lemma {:induction false} DecimalValueAtLeast(s: string)
    requires s != [] && AllDigits(s) && s[0] != '0'
    ensures DecimalValue(s) >= 1
    ensures |s| > 1 ==> DecimalValue(s) >= 10
  {
    if |s| > 1 {
      DecimalValueAtLeast(s[..|s| - 1]);
    }
  }

  /**
   * The other direction: a digit string without a leading zero is the
   * printed form of the number it is read as, so `int()` is one-to-one on
   * such strings.
   */
  lemma {:induction false} DecimalCanonical(s: string)
    requires s != [] && AllDigits(s) && (|s| == 1 || s[0] != '0')
    ensures ParseDecimal(s).Some? && Decimal(ParseDecimal(s).value) == s
  {
    if |s| > 1 {
      var p := s[..|s| - 1];
      DecimalCanonical(p);
      DecimalValueAtLeast(s);
      var v := DecimalValue(s);
      assert v / 10 == DecimalValue(p) && v % 10 == s[|s| - 1] as int - '0' as int;
      assert s == p + [s[|s| - 1]];
    }
  }

  /** The longest prefix of `s` made of decimal digits. */
  function LeadingDigits(s: string): (r: string)
    ensures r <= s && AllDigits(r)
    ensures |r| < |s| ==> !IsDigit(s[|r|])
  {
    if s != [] && IsDigit(s[0]) then [s[0]] + LeadingDigits(s[1..]) else []
  }

  /** A run of digits followed by a non-digit, or by nothing, is exactly the leading digits. */
  lemma {:induction false} LeadingDigitsOf(d: string, rest: string)
    requires AllDigits(d) && (rest == [] || !IsDigit(rest[0]))
    ensures LeadingDigits(d + rest) == d
  {
    if d != [] {
      assert (d + rest)[1..] == d[1..] + rest;
      LeadingDigitsOf(d[1..], rest);
    } else {
      assert d + rest == rest;
    }
  }

  /**
   * JavaScript `Number.parseInt(s)`: NaN (`None`) when `s` does not start
   * with a digit, otherwise the value of the longest digit prefix.
   */
  function ParseIntPrefix(s: string): (r: Option<nat>)
    ensures r.None? <==> (s == [] || !IsDigit(s[0]))
    ensures r.Some? ==> exists k :: && 0 < k <= |s| && AllDigits(s[..k]) && (k == |s| || !IsDigit(s[k]))
                                    && ParseDecimal(s[..k]) == r
  {
    var d := LeadingDigits(s);
    if d == [] then None
    else
      assert s[..|d|] == d;
      Some(DecimalValue(d))
  }

  /** `parseInt` of a number's digits followed by text not starting with a digit reads back the number. */
  lemma ParseIntPrefixDecimal(n: nat, rest: string)
    requires rest == [] || !IsDigit(rest[0])
    ensures ParseIntPrefix(Decimal(n) + rest) == Some(n)
  {
    LeadingDigitsOf(Decimal(n), rest);
    DecimalRoundTrip(n);
  }

  /** JavaScript `xs.indexOf(x)`: the first position of `x`, or -1. */
  function IndexOf(xs: seq<string>, x: string): (r: int)
    ensures -1 <= r < |xs|
    ensures r == -1 <==> x !in xs
    ensures r >= 0 ==> xs[r] == x && x !in xs[..r]
  {
    if xs == [] then -1
    else if xs[0] == x then 0
    else
      var k := IndexOf(xs[1..], x);
      assert xs[1..][..if k < 0 then 0 else k] == xs[1..if k < 0 then 1 else k + 1];
      if k == -1 then -1 else k + 1
  }
}
