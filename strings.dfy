/**
 * The JavaScript string built-ins the setup page relies on: `String.prototype.trim`,
 * `parseInt` with its default radix, and the decimal text of a whole number.
 */
module Strings {

  import opened Optional

  /** The characters `trim` removes: ECMAScript WhiteSpace and LineTerminator. */
  predicate IsWhitespace(c: char) {
    c == '\t' || c == '\n' || c == '\U{B}' || c == '\U{C}' || c == '\r' || c == ' '
    || c == '\U{A0}' || c == '\U{1680}' || ('\U{2000}' <= c <= '\U{200A}')
    || c == '\U{2028}' || c == '\U{2029}' || c == '\U{202F}' || c == '\U{205F}'
    || c == '\U{3000}' || c == '\U{FEFF}'
  }

  predicate AllWhitespace(s: string) {
    forall k :: 0 <= k < |s| ==> IsWhitespace(s[k])
  }

  /** The first position at or after `i` that does not hold whitespace (`|s|` if none does). */
  function SkipWhitespace(s: string, i: nat): (j: nat)
    requires i <= |s|
    ensures i <= j <= |s|
    ensures forall k :: i <= k < j ==> IsWhitespace(s[k])
    ensures j < |s| ==> !IsWhitespace(s[j])
    decreases |s| - i
  {
    if i < |s| && IsWhitespace(s[i]) then SkipWhitespace(s, i + 1) else i
  }

  /** The end of `s[lo..j]` once its trailing whitespace is dropped. */
  function SkipWhitespaceBack(s: string, lo: nat, j: nat): (e: nat)
    requires lo <= j <= |s|
    ensures lo <= e <= j
    ensures forall k :: e <= k < j ==> IsWhitespace(s[k])
    ensures e > lo ==> !IsWhitespace(s[e - 1])
    decreases j
  {
    if j > lo && IsWhitespace(s[j - 1]) then SkipWhitespaceBack(s, lo, j - 1) else j
  }

  /** Where the text `trim` keeps begins. */
  function TrimOffset(s: string): (k: nat)
    ensures k <= |s|
  {
    SkipWhitespace(s, 0)
  }

  /**
   * `s.trim()`: `s` without its leading and trailing whitespace. What is dropped is
   * whitespace, and what is kept is one piece of `s` that neither starts nor ends with
   * whitespace, empty exactly when `s` is all whitespace.
   */
  function Trim(s: string): (r: string)
    ensures TrimOffset(s) + |r| <= |s| && r == s[TrimOffset(s)..TrimOffset(s) + |r|]
    ensures forall k :: 0 <= k < TrimOffset(s) ==> IsWhitespace(s[k])
    ensures forall k :: TrimOffset(s) + |r| <= k < |s| ==> IsWhitespace(s[k])
    ensures r == [] <==> AllWhitespace(s)
    ensures r != [] ==> !IsWhitespace(r[0]) && !IsWhitespace(r[|r| - 1])
  {
    var i := TrimOffset(s);
    var e := SkipWhitespaceBack(s, i, |s|);
    assert e == i ==> AllWhitespace(s) by {
      if e == i {
        forall k | 0 <= k < |s| ensures IsWhitespace(s[k]) {
        }
      }
    }
    s[i..e]
  }

  /** Trimming twice is trimming once. */
  lemma TrimIdempotent(s: string)
    ensures Trim(Trim(s)) == Trim(s)
  {
    var r := Trim(s);
    if r != [] {
      assert TrimOffset(r) == 0;
      assert SkipWhitespaceBack(r, 0, |r|) == |r|;
      assert r[0..|r|] == r;
    }
  }

  predicate IsDigit(c: char) {
    '0' <= c <= '9'
  }

  predicate AllDigits(s: string) {
    forall k :: 0 <= k < |s| ==> IsDigit(s[k])
  }

  function DigitChar(d: nat): (c: char)
    requires d < 10
    ensures IsDigit(c) && c as int - '0' as int == d
  {
    (d + '0' as int) as char
  }

  /** The plain decimal digits of `n`, most significant first. */
  function NatToString(n: nat): (r: string)
    ensures r != [] && AllDigits(r)
    ensures r[0] == '0' <==> n == 0
  {
    if n < 10 then [DigitChar(n)] else NatToString(n / 10) + [DigitChar(n % 10)]
  }

  /** The number a string of decimal digits denotes. */
  function DigitsValue(s: string): nat
    requires AllDigits(s)
  {
    if s == [] then 0 else DigitsValue(s[..|s| - 1]) * 10 + (s[|s| - 1] as int - '0' as int)
  }

  /** Reading back the decimal text of a number gives the number. */
  lemma {:induction false} DigitsValueOfNatToString(n: nat)
    ensures DigitsValue(NatToString(n)) == n
  {
    if n >= 10 {
      var s := NatToString(n);
      assert s[..|s| - 1] == NatToString(n / 10);
      DigitsValueOfNatToString(n / 10);
    }
  }

  /** The longest prefix of `s` made of decimal digits. */
  function DigitPrefix(s: string): (r: string)
    ensures |r| <= |s| && r == s[..|r|] && AllDigits(r)
    ensures |r| < |s| ==> !IsDigit(s[|r|])
  {
    if s != [] && IsDigit(s[0]) then [s[0]] + DigitPrefix(s[1..]) else []
  }

  /**
   * `parseInt(s)` with no radix on decimal text: leading whitespace is skipped, one
   * optional sign is read, then the longest run of digits; with no digit the result
   * is NaN, written here as None.
   */
  function ParseInt(s: string): (r: Option<int>)
    ensures r.None? <==> DigitPrefix(SignedBody(s[TrimOffset(s)..])) == []
    ensures r.Some? && TrimOffset(s) < |s| && s[TrimOffset(s)] == '-' ==> r.value <= 0
    ensures r.Some? && !(TrimOffset(s) < |s| && s[TrimOffset(s)] == '-') ==> r.value >= 0
  {
    var t := s[TrimOffset(s)..];
    var ds := DigitPrefix(SignedBody(t));
    var magnitude: int := DigitsValue(ds);
    if ds == [] then None
    else if |t| > 0 && t[0] == '-' then Some(-magnitude)
    else Some(magnitude)
  }

  /** The text after one optional leading sign. */
  function SignedBody(t: string): (r: string)
    ensures |t| > 0 && (t[0] == '-' || t[0] == '+') ==> r == t[1..]
    ensures !(|t| > 0 && (t[0] == '-' || t[0] == '+')) ==> r == t
  {
    if |t| > 0 && (t[0] == '-' || t[0] == '+') then t[1..] else t
  }

  /**
   * What `parseInt` reads from any text of the shape whitespace, optional sign, digits,
   * then anything that does not start with a digit: the signed value of those digits.
   * So "010" reads as 10, "+5" as 5, " 7" as 7, and both "1.5" and "1e2" as 1.
   */
  lemma ParseIntReads(w: string, sign: string, d: string, rest: string)
    requires AllWhitespace(w) && (sign == "" || sign == "+" || sign == "-")
    requires d != [] && AllDigits(d) && (rest == [] || !IsDigit(rest[0]))
    ensures ParseInt(w + sign + d + rest) ==
      Some(if sign == "-" then -(DigitsValue(d) as int) else DigitsValue(d) as int)
  {
    var t := sign + d + rest;
    assert w + sign + d + rest == w + t;
    SignedText(sign, d, rest);
    AfterWhitespace(w, t);
    DigitPrefixOfDigitsThen(d, rest);
    ParseIntOfText(w + t, t, d);
  }

  /** `ParseInt` once the text after the whitespace and its digits are known. */
  lemma ParseIntOfText(s: string, t: string, d: string)
    requires s[TrimOffset(s)..] == t && t != [] && d != []
    requires DigitPrefix(SignedBody(t)) == d
    ensures ParseInt(s) == Some(if t[0] == '-' then -(DigitsValue(d) as int) else DigitsValue(d) as int)
  {
  }

  /** The sign in front of the digits is what `SignedBody` drops. */
  lemma SignedText(sign: string, d: string, rest: string)
    requires sign == "" || sign == "+" || sign == "-"
    requires d != [] && AllDigits(d)
    ensures var t := sign + d + rest;
      t != [] && !IsWhitespace(t[0]) && SignedBody(t) == d + rest && (t[0] == '-' <==> sign == "-")
  {
    var t := sign + d + rest;
    assert IsDigit(d[0]);
    if sign == "" {
      assert t == d + rest;
    } else {
      assert t[0] == sign[0] && t[1..] == d + rest;
    }
  }

  /** Leading whitespace is all that comes before the text `parseInt` reads. */
  lemma AfterWhitespace(w: string, t: string)
    requires AllWhitespace(w) && t != [] && !IsWhitespace(t[0])
    ensures (w + t)[TrimOffset(w + t)..] == t
  {
    var s := w + t;
    assert s[|w|] == t[0];
    SkipWhitespaceOver(s, 0, |w|);
    assert s[|w|..] == t;
  }

  lemma {:induction false} SkipWhitespaceOver(s: string, i: nat, e: nat)
    requires i <= e < |s| && !IsWhitespace(s[e])
    requires forall k :: i <= k < e ==> IsWhitespace(s[k])
    ensures SkipWhitespace(s, i) == e
    decreases e - i
  {
    if i < e {
      SkipWhitespaceOver(s, i + 1, e);
    }
  }

  lemma {:induction false} DigitPrefixOfDigitsThen(d: string, rest: string)
    requires AllDigits(d) && (rest == [] || !IsDigit(rest[0]))
    ensures DigitPrefix(d + rest) == d
  {
    if d == [] {
      assert d + rest == rest;
    } else {
      assert (d + rest)[1..] == d[1..] + rest;
      DigitPrefixOfDigitsThen(d[1..], rest);
    }
  }

  /** `parseInt` reads back the decimal text of every whole number. */
  lemma ParseIntOfNatToString(n: nat)
    ensures ParseInt(NatToString(n)) == Some(n)
  {
    var s := NatToString(n);
    ParseIntReads("", "", s, "");
    assert "" + "" + s + "" == s;
    DigitsValueOfNatToString(n);
  }
}
