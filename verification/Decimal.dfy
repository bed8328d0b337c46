/** Decimal text of integers: what "%d" prints and what atoi reads. */
module Decimal {

  predicate IsDigit(c: char) { '0' <= c <= '9' }

  predicate IsSpace(c: char) { c == ' ' || '\t' <= c <= '\r' }

  function PrintNat(n: nat): (s: string)
    ensures s != [] && forall c :: c in s ==> IsDigit(c)
  {
    if n < 10 then [('0' as int + n) as char] else PrintNat(n / 10) + [('0' as int + n % 10) as char]
  }

  function PrintInt(n: int): (s: string)
    ensures s != [] && (IsDigit(s[0]) || s[0] == '-')
    ensures forall c :: c in s ==> IsDigit(c) || c == '-'
  {
    if n < 0 then "-" + PrintNat(-n) else PrintNat(n)
  }

  /** The value of the digits at the front of s, appended to acc. */
  function Digits(s: string, acc: nat): nat {
    if s != [] && IsDigit(s[0]) then Digits(s[1..], acc * 10 + (s[0] as int - '0' as int)) else acc
  }

  function SkipSpaces(s: string): string {
    if s != [] && IsSpace(s[0]) then SkipSpaces(s[1..]) else s
  }

  function Atoi(s: string): int {
    var t := SkipSpaces(s);
    if t == [] then 0
    else if t[0] == '-' then 0 - Digits(t[1..], 0)
    else if t[0] == '+' then Digits(t[1..], 0)
    else Digits(t, 0)
  }

  lemma {:induction false} DigitsOfPrinted(n: nat, rest: string)
    ensures Digits(PrintNat(n) + rest, 0) == Digits(rest, n)
  {
    var d := [('0' as int + n % 10) as char];
    if n < 10 {
      assert (PrintNat(n) + rest)[1..] == rest;
    } else {
      assert PrintNat(n) + rest == PrintNat(n / 10) + (d + rest);
      DigitsOfPrinted(n / 10, d + rest);
      assert (d + rest)[1..] == rest;
    }
  }

  /** atoi reads back the integer that "%d" printed in front of a non-digit. */
  lemma {:induction false} AtoiOfPrinted(n: int, rest: string)
    requires rest == [] || !IsDigit(rest[0])
    ensures Atoi(PrintInt(n) + rest) == n
  {
    var s := PrintInt(n) + rest;
    assert s[0] == PrintInt(n)[0] && SkipSpaces(s) == s;
    if n < 0 {
      assert s[1..] == PrintNat(-n) + rest;
      DigitsOfPrinted(-n, rest);
    } else {
      DigitsOfPrinted(n, rest);
    }
  }

  lemma {:induction false} NoLeadingZero(n: nat)
    ensures PrintNat(n)[0] == '0' <==> n == 0
    ensures n == 0 ==> PrintNat(n) == "0"
  {
    if n >= 10 { NoLeadingZero(n / 10); }
  }

  /** "%d" prints digits only, without a leading zero or a plus, and a minus in front of a negative number. */
  lemma {:induction false} PrintedPlainly(n: int)
    ensures var s := PrintInt(n); var digits := if n < 0 then s[1..] else s;
      && s == (if n < 0 then "-" else "") + digits && digits != [] && (forall c <- digits :: IsDigit(c))
      && (digits[0] == '0' ==> digits == "0" && n == 0)
  {
    if n < 0 { NoLeadingZero(-n); } else { NoLeadingZero(n); }
  }

  lemma {:induction false} SkipAll(spaces: string, rest: string)
    requires forall c <- spaces :: c == ' ' || 9 <= c as int <= 13
    requires rest != [] && !IsSpace(rest[0])
    ensures SkipSpaces(spaces + rest) == rest
  {
    if spaces == [] {
      assert spaces + rest == rest;
    } else {
      assert (spaces + rest)[1..] == spaces[1..] + rest && spaces[0] in spaces;
      assert forall c :: c in spaces[1..] ==> c in spaces;
      SkipAll(spaces[1..], rest);
    }
  }

  /** Spaces and control characters from tab to carriage return in front of a number, and a plus, make no difference. */
  lemma {:induction false} AtoiSkips(spaces: string, n: int, rest: string)
    requires rest == [] || !IsDigit(rest[0])
    requires forall c <- spaces :: c == ' ' || 9 <= c as int <= 13
    ensures Atoi(spaces + (PrintInt(n) + rest)) == n
    ensures n >= 0 ==> Atoi(spaces + ("+" + (PrintInt(n) + rest))) == n
  {
    var s := PrintInt(n) + rest;
    AtoiOfPrinted(n, rest);
    assert s[0] == PrintInt(n)[0];
    SkipAll(spaces, s);
    SkipAll([], s);
    assert [] + s == s;
    SkipAll(spaces, "+" + s);
    assert ("+" + s)[1..] == s;
  }

  function Pow10(k: nat): nat {
    if k == 0 then 1 else 10 * Pow10(k - 1)
  }

  lemma {:induction false} PrintNatLength(n: nat, k: nat)
    requires 1 <= k && n < Pow10(k)
    ensures |PrintNat(n)| <= k
  {
    if n >= 10 {
      PrintNatLength(n / 10, k - 1);
    }
  }

  /** A C int prints in at most eleven characters. */
  lemma {:induction false} PrintIntLength(n: int)
    requires -0x8000_0000 <= n < 0x8000_0000
    ensures |PrintInt(n)| <= 11
  {
    assert Pow10(10) == 10000000000;
    PrintNatLength(if n < 0 then -n else n, 10);
  }
}
