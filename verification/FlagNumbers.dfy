/** Numbers in the filter language of page-types.c, and its one alias. */
module FlagNumbers {
  import opened Decimal
  import opened FlagTable
  import opened FlagNames

  const LLONG_MAX: nat := 0x7fff_ffff_ffff_ffff

  /** A digit of a number in base up to sixteen, in small letters or capitals. */
  function Digit(d: nat, capital: bool): char
    requires d < 16
  {
    if d < 10 then ('0' as int + d) as char else ((if capital then 'A' as int else 'a' as int) + (d - 10)) as char
  }

  function InBase(n: nat, base: nat, capital: bool): (s: string)
    requires 2 <= base <= 16
    ensures s != ""
  {
    if n < base then [Digit(n, capital)] else InBase(n / base, base, capital) + [Digit(n % base, capital)]
  }

  lemma {:induction false} DigitReads(d: nat, capital: bool)
    requires d < 16
    ensures DigitValue(Digit(d, capital)) == d
  {
  }

  lemma {:induction false} Quotient(n: nat, base: nat)
    requires base >= 2
    ensures n / base * base + n % base == n && 0 <= n % base < base && (n >= base ==> n / base < n)
  {
  }

  lemma {:induction false} DigitFirst(d: char, rest: string, base: nat, acc: nat)
    requires DigitValue(d) < base
    ensures DigitsIn([d] + rest, base, acc) == DigitsIn(rest, base, acc * base + DigitValue(d))
  {
    assert ([d] + rest)[1..] == rest;
  }

  lemma {:induction false} ReadsBack(n: nat, base: nat, capital: bool, rest: string)
    requires 2 <= base <= 16
    ensures DigitsIn(InBase(n, base, capital) + rest, base, 0) == DigitsIn(rest, base, n)
  {
    Quotient(n, base);
    var c := Digit(n % base, capital);
    DigitReads(n % base, capital);
    if n < base {
      DigitFirst(c, rest, base, 0);
    } else {
      ReadsBack(n / base, base, capital, [c] + rest);
      assert InBase(n, base, capital) + rest == InBase(n / base, base, capital) + ([c] + rest);
      DigitFirst(c, rest, base, n / base);
    }
    hide Digit, DigitValue, DigitsIn;
  }

  lemma {:induction false} FirstDigit(n: nat, base: nat, capital: bool)
    requires 2 <= base <= 16
    ensures DigitValue(InBase(n, base, capital)[0]) < base
    ensures n > 0 ==> InBase(n, base, capital)[0] != '0'
  {
    if n < base { DigitReads(n, capital); } else { FirstDigit(n / base, base, capital); }
  }

  /** The three ways to write a number. */
  datatype Notation = Hex(capital: bool) | Octal | Plain

  function Written(n: nat, notation: Notation): (s: string)
    ensures s != ""
  {
    match notation
    case Hex(capital) => "0x" + InBase(n, 16, capital)
    case Octal => "0" + InBase(n, 8, false)
    case Plain => InBase(n, 10, false)
  }

  lemma {:induction false} NoMore(base: nat, acc: nat)
    ensures DigitsIn("", base, acc) == acc
  {
  }

  lemma {:induction false} MagnitudeOfWritten(n: nat, notation: Notation)
    ensures Magnitude(Written(n, notation)) == n
    ensures IsDigit(Written(n, notation)[0])
    ensures n == 0 ==> Written(n, notation)[0] == '0'
  {
    match notation
    case Hex(capital) =>
      var s := InBase(n, 16, capital);
      ReadsBack(n, 16, capital, "");
      NoMore(16, n);
      FirstDigit(n, 16, capital);
      assert s + "" == s && Written(n, notation)[2..] == s;
    case Octal =>
      var s := InBase(n, 8, false);
      ReadsBack(n, 8, false, "");
      NoMore(8, n);
      FirstDigit(n, 8, false);
      OctalDigit(s[0]);
      assert s + "" == s && Written(n, notation)[1..] == s;
      LeadingZero(s);
    case Plain =>
      var s := InBase(n, 10, false);
      ReadsBack(n, 10, false, "");
      NoMore(10, n);
      FirstDigit(n, 10, false);
      DecimalDigit(s[0]);
      assert s + "" == s;
      if n == 0 { Zero(); }
  }

  lemma {:induction false} Zero()
    ensures InBase(0, 10, false) == "0" && DigitsIn("0", 8, 0) == 0
  {
  }

  lemma {:induction false} OctalDigit(c: char)
    requires DigitValue(c) < 8
    ensures '0' <= c <= '7'
  {
  }

  lemma {:induction false} DecimalDigit(c: char)
    requires DigitValue(c) < 10
    ensures IsDigit(c)
  {
  }

  lemma {:induction false} LeadingZero(s: string)
    ensures DigitsIn("0" + s, 8, 0) == DigitsIn(s, 8, 0)
  {
    assert ("0" + s)[1..] == s;
  }

  /** A number without sign, in any notation, comes out as itself, or as the largest long long if it is larger. */
  lemma {:induction false} WrittenReads(n: nat, notation: Notation)
    ensures Strtoll(Written(n, notation)) == if n > LLONG_MAX then LLONG_MAX else n
  {
    hide Magnitude, Written;
    MagnitudeOfWritten(n, notation);
    var s := Written(n, notation);
    assert SkipSpaces(s) == s;
  }

  lemma {:induction false} MinusReads(n: nat)
    ensures Strtoll("-" + Written(n, Plain)) == if n > LLONG_MAX + 1 then -0x8000_0000_0000_0000 else 0 - n
  {
    hide Magnitude, Written;
    MagnitudeOfWritten(n, Plain);
    var s := "-" + Written(n, Plain);
    assert SkipSpaces(s) == s && s[1..] == Written(n, Plain);
  }

  lemma {:induction false} NameStarts(i: nat)
    requires Named(i)
    ensures 'a' <= Name(i)[0] <= 'z'
  {
  }

  lemma {:induction false} NoNameStarts(token: string, i: nat)
    requires i <= 64 && token != "" && !('a' <= token[0] <= 'z')
    ensures FirstMatch(token, i) == 64
    decreases 64 - i
  {
    if i < 64 && Named(i) { NameStarts(i); }
    hide Name;
    if i < 64 { NoNameStarts(token, i + 1); }
  }

  lemma {:induction false} NumberWord(str: string)
    requires str != "" && !('a' <= str[0] <= 'z')
    ensures ParseFlagName(str, |str|) == ParseNumber(str)
  {
    hide Name, FirstMatch, Strtoll;
    NoNameStarts(str, 0);
    assert str[..|str|] == str && "compound"[0] == 'c';
  }

  /** The bitfield format of the usage text: a flags word written as a number, in any notation, is read as that word if and
      only if its last bit is off; otherwise all the other bits are read instead. */
  lemma {:induction false} WordReadsBackExactly(word: Word, notation: Notation)
    ensures var r := ParseFlagName(Written(word as nat, notation), |Written(word as nat, notation)|);
      && (r == Ok(word) <==> word as nat <= LLONG_MAX)
      && (word as nat > LLONG_MAX ==> r == Ok(0x7fff_ffff_ffff_ffff))
  {
    NumberAsWord(word);
    hide ToWord, Written, Strtoll, ParseFlagName, Magnitude;
    WrittenWord(word as nat, notation);
  }

  lemma {:induction false} WrittenWord(n: nat, notation: Notation)
    ensures ParseFlagName(Written(n, notation), |Written(n, notation)|) == Ok(ToWord(if n > LLONG_MAX then LLONG_MAX else n))
  {
    MagnitudeOfWritten(n, notation);
    hide ToWord, Written, Strtoll, ParseFlagName, Magnitude;
    WrittenReads(n, notation);
    NumberWord(Written(n, notation));
  }

  lemma {:induction false} NumberAsWord(word: Word)
    ensures word as nat <= LLONG_MAX ==> ToWord(word as nat) == word
    ensures ToWord(LLONG_MAX) == 0x7fff_ffff_ffff_ffff && (0x7fff_ffff_ffff_ffff as Word) as nat == LLONG_MAX
  {
  }

  /** "compound" and what it begins with, down to one letter, stand for the head and the tail bit together, although the names
      of both begin like it; with the underscore behind it the names count again. */
  lemma {:induction false} CompoundAlias(token: string)
    requires token != ""
    ensures Name(15) == "compound" + "_head" && Name(16) == "compound" + "_tail"
    ensures token <= "compound" ==> ParseFlagName(token, |token|) == Ok(Union(Bit(15), Bit(16)))
    ensures "compound_" <= token && token <= Name(15) ==> ParseFlagName(token, |token|) == Ok(Bit(15))
    ensures "compound_t" <= token && token <= Name(16) ==> ParseFlagName(token, |token|) == Ok(Bit(16))
  {
    CompoundBits();
    CompoundNames();
    assert token[..|token|] == token;
    if "compound_" <= token && token <= Name(15) { HeadFirst(token); }
    if "compound_t" <= token && token <= Name(16) { TailFirst(token); }
    hide Name, FirstMatch, Bit, ParseNumber;
  }

  lemma {:induction false} CompoundNames()
    ensures Name(15) == "compound_head" && Name(16) == "compound_tail"
  {
  }

  lemma {:induction false} CompoundBits()
    ensures Union(Bit(15), Bit(16)) == COMPOUND
  {
    assert Bit(5) == 0x20;
    assert Bit(10) == 0x400;
    assert Bit(15) == 0x8000;
  }

  lemma {:induction false} FirstHere(token: string, i: nat)
    requires i < 64 && Named(i) && Matches(token, Name(i))
    ensures FirstMatch(token, i) == i
  {
  }

  lemma {:induction false} FirstLater(token: string, i: nat)
    requires i < 64 && !(Named(i) && Matches(token, Name(i)))
    ensures FirstMatch(token, i) == FirstMatch(token, i + 1)
  {
    hide Name;
  }

  lemma {:induction false} HeadFirst(token: string)
    requires "compound_" <= token && token <= Name(15)
    ensures FirstMatch(token, 0) == 15 && |token| > 8
  {
    CompoundNames();
    hide Name;
    OnlyCompound(token, 0);
    FirstHere(token, 15);
  }

  lemma {:induction false} TailFirst(token: string)
    requires "compound_t" <= token && token <= Name(16)
    ensures FirstMatch(token, 0) == 16 && |token| > 8
  {
    CompoundNames();
    hide Name;
    OnlyCompound(token, 0);
    assert token[9] == 't' && Name(15)[9] == 'h';
    FirstLater(token, 15);
    FirstHere(token, 16);
  }

  /** No entry before the two begins like that. */
  lemma {:induction false} OnlyCompound(token: string, i: nat)
    requires i <= 15 && token != "" && token[0] == 'c'
    ensures FirstMatch(token, i) == FirstMatch(token, 15)
    decreases 15 - i
  {
    if i < 15 {
      NoCBefore(i);
      hide Name, FirstMatch;
      FirstLater(token, i);
      OnlyCompound(token, i + 1);
    }
  }

  lemma {:induction false} NoCBefore(i: nat)
    requires i < 15
    ensures Name(i) == "" || Name(i)[0] != 'c'
  {
  }
}
