/**
  Decimal text: the integer rendering used by the dashboard (`%ld`, `%lld`,
  stream insertion of an integer) and the integer reading done by
  `strtoll(s, nullptr, 10)` / `atoi` when command-line values are parsed.
  C's fixed integer widths (saturation on overflow) are not modelled here.
*/
module Decimal {

  predicate IsDigit(c: char) {
    '0' <= c <= '9'
  }

  predicate AllDigits(s: string) {
    forall i :: 0 <= i < |s| ==> IsDigit(s[i])
  }

  /** C's `isspace` in the "C" locale. */
  predicate IsSpace(c: char) {
    c == ' ' || c == '\t' || c == '\n' || c == '\U{B}' || c == '\U{C}' || c == '\r'
  }

  function DigitValue(c: char): (d: nat)
    requires IsDigit(c)
    ensures d < 10
  {
    c as int - '0' as int
  }

  function DigitChar(d: nat): (c: char)
    requires d < 10
    ensures IsDigit(c) && DigitValue(c) == d
  {
    ('0' as int + d) as char
  }

  /** Shortest decimal rendering of a natural number, most significant digit first. */
  function NatToString(n: nat): (s: string)
    ensures 1 <= |s|
    ensures AllDigits(s)
    ensures |s| > 1 ==> s[0] != '0'
    decreases n
  {
    if n < 10 then [DigitChar(n)] else NatToString(n / 10) + [DigitChar(n % 10)]
  }

  /** Rendering of a signed integer, as printf's `%lld` writes it. */
  function IntToString(x: int): (s: string)
    ensures 1 <= |s|
    ensures x >= 0 ==> AllDigits(s)
    ensures x < 0 ==> s[0] == '-' && AllDigits(s[1..])
    ensures x >= 0 ==> DigitsValue(s) == x
    ensures x < 0 ==> DigitsValue(s[1..]) == -x
  {
    if x >= 0 then
      DigitsValueOfNatToString(x);
      NatToString(x)
    else
      DigitsValueOfNatToString(-x);
      assert ("-" + NatToString(-x))[1..] == NatToString(-x);
      "-" + NatToString(-x)
  }

  /** The number a digit string denotes, most significant digit first. */
  function DigitsValue(s: string): nat
    requires AllDigits(s)
  {
    if |s| == 0 then 0 else DigitsValue(s[..|s| - 1]) * 10 + DigitValue(s[|s| - 1])
  }

  /** Reading back a rendered natural number gives the number. */
  lemma {:induction false} DigitsValueOfNatToString(n: nat)
    ensures DigitsValue(NatToString(n)) == n
    decreases n
  {
    if n >= 10 {
      var s := NatToString(n);
      var p := NatToString(n / 10);
      assert s == p + [DigitChar(n % 10)];
      assert s[..|s| - 1] == p;
      DigitsValueOfNatToString(n / 10);
    }
  }

  /** Length of the longest all-digit prefix of s. */
  function DigitRun(s: string): (k: nat)
    ensures k <= |s|
    ensures AllDigits(s[..k])
    ensures k < |s| ==> !IsDigit(s[k])
  {
    if |s| == 0 || !IsDigit(s[0]) then 0
    else
      var k := 1 + DigitRun(s[1..]);
      assert s[..k] == [s[0]] + s[1..][..k - 1];
      k
  }

  /** Number of leading white-space characters of s. */
  function SpaceRun(s: string): (k: nat)
    ensures k <= |s|
    ensures forall i :: 0 <= i < k ==> IsSpace(s[i])
    ensures k < |s| ==> !IsSpace(s[k])
  {
    if |s| == 0 || !IsSpace(s[0]) then 0 else 1 + SpaceRun(s[1..])
  }

  /**
    `strtoll(s, nullptr, 10)`: leading white space is skipped, an optional
    sign is read, then the longest run of digits; with no digits the value
    is 0.
  */
  function StrToLL(s: string): (v: int)
    ensures SpaceRun(s) == |s| ==> v == 0
    ensures SpaceRun(s) < |s| && !IsDigit(s[SpaceRun(s)]) && s[SpaceRun(s)] != '-' && s[SpaceRun(s)] != '+' ==> v == 0
    ensures v < 0 ==> s[SpaceRun(s)] == '-'
  {
    var t := s[SpaceRun(s)..];
    var neg := |t| > 0 && t[0] == '-';
    var u := if |t| > 0 && (t[0] == '-' || t[0] == '+') then t[1..] else t;
    var mag: int := DigitsValue(u[..DigitRun(u)]);
    if neg then -mag else mag
  }

  /**
    A rendered natural number followed by a non-digit (or nothing) reads back
    as that number.
  */
  lemma StrToLLOfRendered(n: nat, rest: string)
    requires |rest| > 0 ==> !IsDigit(rest[0])
    ensures StrToLL(NatToString(n) + rest) == n
  {
    var d := NatToString(n);
    var s := d + rest;
    DigitsValueOfNatToString(n);
    assert s[0] == d[0];
    assert SpaceRun(s) == 0;
    assert s[0..] == s;
    DigitRunOfDigits(d, rest);
    assert s[..|d|] == d;
  }

  /** A minus sign in front of a rendered number negates the value read. */
  lemma StrToLLOfNegated(n: nat, rest: string)
    requires |rest| > 0 ==> !IsDigit(rest[0])
    ensures StrToLL("-" + NatToString(n) + rest) == -(n as int)
  {
    var d := NatToString(n);
    var s := "-" + d + rest;
    DigitsValueOfNatToString(n);
    assert SpaceRun(s) == 0;
    assert s[0..] == s;
    assert s[1..] == d + rest;
    DigitRunOfDigits(d, rest);
    assert (d + rest)[..|d|] == d;
  }

  /** Any leading white space is skipped before the number is read. */
  lemma {:induction false} StrToLLSkipsSpace(ws: string, s: string)
    requires forall i :: 0 <= i < |ws| ==> IsSpace(ws[i])
    ensures StrToLL(ws + s) == StrToLL(s)
    decreases |ws|
  {
    if |ws| > 0 {
      var t := ws + s;
      assert t[1..] == ws[1..] + s;
      assert SpaceRun(t) == 1 + SpaceRun(ws[1..] + s);
      assert t[SpaceRun(t)..] == (ws[1..] + s)[SpaceRun(ws[1..] + s)..];
      StrToLLSkipsSpace(ws[1..], s);
    } else {
      assert ws + s == s;
    }
  }

  lemma {:induction false} DigitRunOfDigits(d: string, rest: string)
    requires AllDigits(d)
    requires |rest| > 0 ==> !IsDigit(rest[0])
    ensures DigitRun(d + rest) == |d|
    decreases |d|
  {
    if |d| > 0 {
      assert (d + rest)[1..] == d[1..] + rest;
      DigitRunOfDigits(d[1..], rest);
    } else {
      assert d + rest == rest;
    }
  }
}
