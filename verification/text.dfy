/**
 * The handful of Python `str` methods the service applies to its inputs:
 * `strip()`, `upper()`, `lower()`, `isupper()`, `isalpha()` and the first
 * two fields of `split(sep)`.
 *
 * Letter case is classified over ASCII; whitespace is Python's full
 * `str.isspace` set.
 */
module Text {
  import opened Wrappers

  /** Python's `str.isspace` for one character. */
  predicate IsSpace(c: char) {
    c == ' ' || ('\t' <= c <= '\r') || ('\U{1c}' <= c <= '\U{1f}')
    || c == '\U{85}' || c == '\U{a0}' || c == '\U{1680}'
    || ('\U{2000}' <= c <= '\U{200a}') || c == '\U{2028}' || c == '\U{2029}'
    || c == '\U{202f}' || c == '\U{205f}' || c == '\U{3000}'
  }

  predicate IsUpperChar(c: char) { 'A' <= c <= 'Z' }
  predicate IsLowerChar(c: char) { 'a' <= c <= 'z' }
  predicate IsLetter(c: char) { IsUpperChar(c) || IsLowerChar(c) }
  predicate IsDigit(c: char) { '0' <= c <= '9' }

  function UpperChar(c: char): char {
    if IsLowerChar(c) then (c as int - 32) as char else c
  }

  function LowerChar(c: char): char {
    if IsUpperChar(c) then (c as int + 32) as char else c
  }

  /** Drops the leading characters that satisfy `p` and nothing else. */
  function LStripBy(s: string, p: char -> bool): (r: string)
    ensures |r| <= |s| && r == s[|s| - |r|..]
    ensures forall k :: 0 <= k < |s| - |r| ==> p(s[k])
    ensures |r| > 0 ==> !p(r[0])
  {
    if |s| > 0 && p(s[0]) then LStripBy(s[1..], p) else s
  }

  /** Drops the trailing characters that satisfy `p` and nothing else. */
  function RStripBy(s: string, p: char -> bool): (r: string)
    ensures |r| <= |s| && r == s[..|r|]
    ensures forall k :: |r| <= k < |s| ==> p(s[k])
    ensures |r| > 0 ==> !p(r[|r| - 1])
  {
    if |s| > 0 && p(s[|s| - 1]) then RStripBy(s[..|s| - 1], p) else s
  }

  /** `s.strip()`. */
  function Strip(s: string): string {
    RStripBy(LStripBy(s, IsSpace), IsSpace)
  }

  /** `s.upper()` over ASCII letters. */
  function Upper(s: string): (r: string)
    ensures |r| == |s|
    ensures forall i :: 0 <= i < |s| ==> r[i] == UpperChar(s[i])
  {
    seq(|s|, i requires 0 <= i < |s| => UpperChar(s[i]))
  }

  /** `s.lower()` over ASCII letters. */
  function Lower(s: string): (r: string)
    ensures |r| == |s|
    ensures forall i :: 0 <= i < |s| ==> r[i] == LowerChar(s[i])
  {
    seq(|s|, i requires 0 <= i < |s| => LowerChar(s[i]))
  }

  /** `s.isupper()`: at least one cased character and no lower-case one. */
  predicate PyIsUpper(s: string) {
    (exists i :: 0 <= i < |s| && IsUpperChar(s[i]))
    && (forall i :: 0 <= i < |s| ==> !IsLowerChar(s[i]))
  }

  /** `s.isalpha()`: non-empty and letters only. */
  predicate PyIsAlpha(s: string) {
    |s| > 0 && forall i :: 0 <= i < |s| ==> IsLetter(s[i])
  }

  /** `s.split(sep)[0]`: everything before the first `sep`. */
  function Before(s: string, sep: char): (r: string)
    ensures |r| <= |s| && r == s[..|r|]
    ensures sep !in r
    ensures |r| < |s| ==> s[|r|] == sep
  {
    if |s| == 0 || s[0] == sep then "" else [s[0]] + Before(s[1..], sep)
  }

  /** Everything after the first `sep`, or None when `sep` does not occur. */
  function After(s: string, sep: char): (r: Option<string>)
    ensures r.None? <==> sep !in s
    ensures r.Some? ==> s == Before(s, sep) + [sep] + r.value
  {
    if |s| == 0 then None
    else if s[0] == sep then Some(s[1..])
    else
      var t := After(s[1..], sep);
      assert s == [s[0]] + s[1..];
      t
  }

  /** `s.split(sep)[1]`, or None where Python raises IndexError. */
  function SecondField(s: string, sep: char): (r: Option<string>)
    ensures r.None? <==> sep !in s
    ensures r.Some? ==> sep !in r.value
  {
    match After(s, sep)
    case None => None
    case Some(t) => Some(Before(t, sep))
  }

  /** Splitting `w + " " + rest` at its first space gives back `w` and `rest`. */
  lemma {:induction false} SplitFirstWord(w: string, rest: string)
    requires ' ' !in w
    ensures Before(w + " " + rest, ' ') == w
    ensures After(w + " " + rest, ' ') == Some(rest)
  {
    if |w| > 0 {
      assert (w + " " + rest)[1..] == w[1..] + " " + rest;
      SplitFirstWord(w[1..], rest);
      assert w == [w[0]] + w[1..];
    } else {
      assert w + " " + rest == [' '] + rest;
    }
  }

  lemma {:induction false} StripEmptyIffAllSpace(s: string)
    ensures Strip(s) == "" <==> forall k :: 0 <= k < |s| ==> IsSpace(s[k])
  {
    var l := LStripBy(s, IsSpace);
    if Strip(s) == "" {
      assert |l| == 0;
    } else {
      var r := Strip(s);
      assert r[0] == l[0];
      assert l[0] == s[|s| - |l|];
    }
  }

  lemma {:induction false} UpperIdempotent(s: string)
    ensures Upper(Upper(s)) == Upper(s)
  {
  }

  lemma {:induction false} LowerIdempotent(s: string)
    ensures Lower(Lower(s)) == Lower(s)
  {
  }

  /** After `upper()` no ASCII lower-case letter is left. */
  lemma UpperHasNoLower(s: string)
    ensures forall i :: 0 <= i < |Upper(s)| ==> !IsLowerChar(Upper(s)[i])
  {
  }

  /** Python's `a <= b` on strings: code point by code point, a proper prefix first. */
  predicate StrLe(a: string, b: string) {
    |a| == 0 || (|b| > 0 && (a[0] < b[0] || (a[0] == b[0] && StrLe(a[1..], b[1..]))))
  }

  lemma {:induction false} StrLeTotal(a: string, b: string)
    ensures StrLe(a, b) || StrLe(b, a)
  {
    if |a| > 0 && |b| > 0 && a[0] == b[0] {
      StrLeTotal(a[1..], b[1..]);
    }
  }

  lemma {:induction false} StrLeTrans(a: string, b: string, c: string)
    requires StrLe(a, b) && StrLe(b, c)
    ensures StrLe(a, c)
  {
    if |a| > 0 && a[0] == b[0] && b[0] == c[0] {
      StrLeTrans(a[1..], b[1..], c[1..]);
    }
  }

  lemma {:induction false} StrLeAntisym(a: string, b: string)
    requires StrLe(a, b) && StrLe(b, a)
    ensures a == b
  {
    if |a| > 0 {
      StrLeAntisym(a[1..], b[1..]);
      assert a == [a[0]] + a[1..] && b == [b[0]] + b[1..];
    }
  }

  function DigitChar(d: nat): char
    requires d < 10
  {
    ('0' as int + d) as char
  }

  /** `str(n)` for a natural number. */
  function Decimal(n: nat): (r: string)
    ensures |r| > 0 && forall i :: 0 <= i < |r| ==> IsDigit(r[i])
    ensures n > 0 ==> r[0] != '0'
  {
    if n < 10 then [DigitChar(n)] else Decimal(n / 10) + [DigitChar(n % 10)]
  }

  /** The number a string of decimal digits spells. */
  function DecimalValue(s: string): nat
    requires forall i :: 0 <= i < |s| ==> IsDigit(s[i])
  {
    if |s| == 0 then 0
    else
      assert IsDigit(s[|s| - 1]);
      DecimalValue(s[..|s| - 1]) * 10 + (s[|s| - 1] as int - '0' as int)
  }

  /** `int(str(n)) == n`. */
  lemma {:induction false} DecimalRoundTrip(n: nat)
    ensures DecimalValue(Decimal(n)) == n
  {
    if n >= 10 {
      DecimalRoundTrip(n / 10);
      var s := Decimal(n);
      assert s[..|s| - 1] == Decimal(n / 10);
    }
  }
}
