/**
 * The two pieces of Java string handling the game relies on: rendering an
 * int inside a string concatenation (Integer.toString), and, as the partner
 * that lets properties of rendered text be stated, reading the numbers and
 * the space-separated words back out of it.
 */
module Strings {

  predicate IsDigit(c: char) {
    '0' <= c <= '9'
  }

  predicate IsDigits(s: string) {
    forall i :: 0 <= i < |s| ==> IsDigit(s[i])
  }

  function DigitChar(d: nat): (c: char)
    requires d < 10
    ensures IsDigit(c)
  {
    ('0' as int + d) as char
  }

  function DigitValue(c: char): (d: nat)
    requires IsDigit(c)
    ensures d < 10 && DigitChar(d) == c
  {
    c as int - '0' as int
  }

  /** The decimal digits of n, most significant first, without leading zeros. */
  function NatToString(n: nat): (s: string)
    ensures |s| >= 1 && IsDigits(s)
    ensures |s| > 1 ==> s[0] != '0'
    decreases n
  {
    if n < 10 then [DigitChar(n)] else NatToString(n / 10) + [DigitChar(n % 10)]
  }

  /** Integer.toString: an optional minus sign followed by the digits of the magnitude. */
  function IntToString(i: int): (s: string)
    ensures |s| >= 1
    ensures s[0] == '-' <==> i < 0
    ensures ' ' !in s
  {
    if i < 0 then "-" + NatToString(-i) else NatToString(i)
  }

  /** The number a string of decimal digits denotes. */
  function ParseDigits(s: string): nat
    requires IsDigits(s)
  {
    if s == [] then 0 else ParseDigits(s[..|s| - 1]) * 10 + DigitValue(s[|s| - 1])
  }

  /** An optional minus sign followed by at least one digit. */
  predicate IsNumeral(s: string) {
    |s| > 0 && (if s[0] == '-' then |s| > 1 && IsDigits(s[1..]) else IsDigits(s))
  }

  /** Integer.parseInt on a numeral. */
  function ParseInt(s: string): int
    requires IsNumeral(s)
  {
    if |s| > 0 && s[0] == '-' then -(ParseDigits(s[1..]) as int) else ParseDigits(s)
  }

  lemma {:induction false} ParseNatToString(n: nat)
    ensures ParseDigits(NatToString(n)) == n
    decreases n
  {
    var s := NatToString(n);
    if n >= 10 {
      ParseNatToString(n / 10);
      assert s[..|s| - 1] == NatToString(n / 10);
      assert DigitValue(s[|s| - 1]) == n % 10;
    } else {
      assert s[..|s| - 1] == [];
    }
  }

  /** Reading back a rendered int gives the int. */
  lemma IntToStringRoundTrip(i: int)
    ensures IsNumeral(IntToString(i)) && ParseInt(IntToString(i)) == i
  {
    if i < 0 {
      assert IntToString(i)[1..] == NatToString(-i);
      ParseNatToString(-i);
    } else {
      ParseNatToString(i);
    }
  }

  /** The longest prefix of s that holds no space. */
  function Word(s: string): (w: string)
    ensures |w| <= |s| && w == s[..|w|]
    ensures ' ' !in w
    ensures |s| > 0 && s[0] != ' ' ==> |w| >= 1
  {
    if s == [] || s[0] == ' ' then "" else [s[0]] + Word(s[1..])
  }

  /** The non-empty space-separated words of s, in order; leading, trailing and repeated spaces yield no empty word. */
  function Words(s: string): seq<string>
    decreases |s|
  {
    if s == [] then []
    else if s[0] == ' ' then Words(s[1..])
    else [Word(s)] + Words(s[|Word(s)|..])
  }

  /** A word that may stand between spaces: non-empty and free of them. */
  predicate IsWord(w: string) {
    w != [] && ' ' !in w
  }

  /** s is empty or starts a new word boundary. */
  predicate AtBoundary(s: string) {
    s == [] || s[0] == ' '
  }

  lemma {:induction false} WordOfJoin(w: string, rest: string)
    requires ' ' !in w && AtBoundary(rest)
    ensures Word(w + rest) == w
    decreases |w|
  {
    if w != [] {
      assert (w + rest)[1..] == w[1..] + rest;
      WordOfJoin(w[1..], rest);
    } else {
      assert w + rest == rest;
    }
  }

  /** A word followed by a boundary splits off as the first word. */
  lemma WordsJoin(w: string, rest: string)
    requires IsWord(w) && AtBoundary(rest)
    ensures Words(w + rest) == [w] + Words(rest)
  {
    WordOfJoin(w, rest);
    assert (w + rest)[|w|..] == rest;
  }

  lemma AppendAssoc(a: string, b: string, c: string)
    ensures a + (b + c) == a + b + c
  {
  }

  /** A leading space separates nothing. */
  lemma WordsSkipSpace(s: string)
    ensures Words(" " + s) == Words(s)
  {
    assert (" " + s)[1..] == s;
  }

  function Spaces(n: nat): (s: string)
    ensures |s| == n && forall i :: 0 <= i < n ==> s[i] == ' '
  {
    if n == 0 then "" else " " + Spaces(n - 1)
  }

  /** Any run of leading spaces separates nothing. */
  lemma {:induction false} WordsSkipSpaces(n: nat, s: string)
    ensures Words(Spaces(n) + s) == Words(s)
  {
    if n > 0 {
      WordsSkipSpaces(n - 1, s);
      AppendAssoc(" ", Spaces(n - 1), s);
      WordsSkipSpace(Spaces(n - 1) + s);
    } else {
      assert Spaces(n) + s == s;
    }
  }
}
