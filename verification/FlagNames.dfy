/** The names of page flags in page-types.c: `page_flag_longname` prints them, `parse_flag_names` reads them back. */
module FlagNames {
  import opened Decimal
  import opened FlagTable

  type Word = bv64

  datatype Result = Ok(word: Word) | Fatal

  /** 1ULL << i, shifted one place at a time. */
  function Bit(i: nat): Word {
    if i == 0 then 1 else Bit(i - 1) << 1
  }

  /** BIT(COMPOUND_HEAD) | BIT(COMPOUND_TAIL). */
  const COMPOUND: Word := 0x1_8000

  function Masked(flags: Word, mask: Word): Word { flags & mask }

  /** Bit i of the word, the test (flags >> i) & 1. */
  predicate IsSet(flags: Word, i: nat) {
    Masked(flags, Bit(i)) != 0
  }

  // -------------------------------------------------------------------- printing

  /** The names of the set bits from i on, each followed by a comma. */
  function Listed(flags: Word, i: nat): string
    requires i <= 64
    decreases 64 - i
  {
    if i == 64 then ""
    else (if Named(i) && IsSet(flags, i) then Name(i) + "," else "") + Listed(flags, i + 1)
  }

  /** What page_flag_longname returns: the last comma is cut off. */
  function LongName(flags: Word): string {
    var s := Listed(flags, 0);
    if s == "" then "" else s[..|s| - 1]
  }

  /** The names are listed in the order of their bits. */
  lemma {:induction false} NamesInOrder(flags: Word, k: nat, i: nat, j: nat) returns (a: string, b: string, c: string)
    requires k <= i < j < 64 && Named(i) && IsSet(flags, i) && Named(j) && IsSet(flags, j)
    ensures Listed(flags, k) == a + ((Name(i) + ",") + (b + ((Name(j) + ",") + c)))
    decreases i - k
  {
    hide Name, IsSet;
    if k == i {
      a := "";
      b, c := NameSomewhere(flags, i + 1, j);
    } else {
      var front := if Named(k) && IsSet(flags, k) then Name(k) + "," else "";
      a, b, c := NamesInOrder(flags, k + 1, i, j);
      var rest := (Name(i) + ",") + (b + ((Name(j) + ",") + c));
      assert front + (a + rest) == (front + a) + rest;
      a := front + a;
    }
  }

  lemma {:induction false} NameSomewhere(flags: Word, k: nat, j: nat) returns (b: string, c: string)
    requires k <= j < 64 && Named(j) && IsSet(flags, j)
    ensures Listed(flags, k) == b + ((Name(j) + ",") + c)
    decreases j - k
  {
    hide Name, IsSet;
    if k == j {
      b, c := "", Listed(flags, j + 1);
    } else {
      var front := if Named(k) && IsSet(flags, k) then Name(k) + "," else "";
      b, c := NameSomewhere(flags, k + 1, j);
      var rest := (Name(j) + ",") + c;
      assert front + (b + rest) == (front + b) + rest;
      b := front + b;
    }
  }

  // --------------------------------------------------------------------- parsing

  /** strncmp(str, name, len) == 0 for len <= strlen(str). */
  predicate Matches(token: string, name: string) { token <= name }

  /** The first named bit from i on whose name starts with the token; 64 if there is none. */
  function FirstMatch(token: string, i: nat): (r: nat)
    requires i <= 64
    ensures i <= r <= 64 && (r < 64 ==> Named(r) && Matches(token, Name(r)))
    ensures forall k :: i <= k < r && Named(k) ==> !Matches(token, Name(k))
    decreases 64 - i
  {
    if i == 64 || (Named(i) && Matches(token, Name(i))) then i else FirstMatch(token, i + 1)
  }

  /** The digit value of c, 36 if it has none. */
  function DigitValue(c: char): nat {
    if '0' <= c <= '9' then c as int - '0' as int
    else if 'a' <= c <= 'z' then c as int - 'a' as int + 10
    else if 'A' <= c <= 'Z' then c as int - 'A' as int + 10
    else 36
  }

  function DigitsIn(s: string, base: nat, acc: nat): nat {
    if s != "" && DigitValue(s[0]) < base then DigitsIn(s[1..], base, acc * base + DigitValue(s[0])) else acc
  }

  /** The unsigned part of a number with automatic base: 0x for sixteen, a leading 0 for eight, else ten. */
  function Magnitude(t: string): nat {
    if |t| >= 3 && t[0] == '0' && (t[1] == 'x' || t[1] == 'X') && DigitValue(t[2]) < 16 then DigitsIn(t[2..], 16, 0)
    else if t != "" && t[0] == '0' then DigitsIn(t, 8, 0)
    else DigitsIn(t, 10, 0)
  }

  predicate HasSign(s: string) { s != "" && (s[0] == '-' || s[0] == '+') }

  /** strtoll(str, NULL, 0), saturating at the ends of its range. */
  function Strtoll(str: string): (n: int)
    ensures -0x8000_0000_0000_0000 <= n <= 0x7fff_ffff_ffff_ffff
  {
    var s := SkipSpaces(str);
    var magnitude := Magnitude(if HasSign(s) then s[1..] else s);
    if s != "" && s[0] == '-' then (if magnitude > 0x8000_0000_0000_0000 then -0x8000_0000_0000_0000 else 0 - magnitude)
    else (if magnitude > 0x7fff_ffff_ffff_ffff then 0x7fff_ffff_ffff_ffff else magnitude)
  }

  /** A long long as an unsigned 64-bit word. */
  function ToWord(n: int): Word
    requires -0x8000_0000_0000_0000 <= n <= 0x7fff_ffff_ffff_ffff
  {
    (if n < 0 then n + 0x1_0000_0000_0000_0000 else n) as bv64
  }

  function ParseNumber(str: string): Result {
    var n := Strtoll(str);
    if n == 0 && (str == "" || str[0] != '0') then Fatal
    else Ok(ToWord(n))
  }

  /** parse_flag_name on the text str, of which the token is the first len characters. */
  function ParseFlagName(str: string, len: nat): Result
    requires len <= |str|
  {
    if len == 0 then Ok(0)
    else if len <= 8 && Matches(str[..len], "compound") then Ok(COMPOUND)
    else
      var i := FirstMatch(str[..len], 0);
      if i < 64 then Ok(Bit(i)) else ParseNumber(str)
  }

  predicate EndsToken(c: char) { c == ',' || c == '=' }

  /** The length of the token at the front of str. */
  function TokenLength(str: string): (n: nat)
    ensures n <= |str| && (n < |str| ==> EndsToken(str[n]))
    ensures forall k :: 0 <= k < n ==> !EndsToken(str[k])
  {
    if str == "" || EndsToken(str[0]) then 0 else 1 + TokenLength(str[1..])
  }

  /** The value of the token at the front of str. A token with a tilde counts, without it, only when `all` is set. */
  function TokenValue(str: string, all: bool): Result {
    var n := TokenLength(str);
    if n == 0 || str[0] != '~' then ParseFlagName(str, n)
    else if all && |str| > 1 then ParseFlagName(str[1..], n - 1)
    else Ok(0)
  }

  /** flags |= ... */
  function Union(a: Word, b: Word): Word { a | b }

  function Or(a: Result, b: Result): Result {
    if a.Ok? && b.Ok? then Ok(Union(a.word, b.word)) else Fatal
  }

  /** parse_flag_names: the tokens up to '=' or the end of the text. */
  function ParseFlagNames(str: string, all: bool): Result
    decreases |str|
  {
    var n := TokenLength(str);
    if n < |str| && str[n] == ',' then Or(TokenValue(str, all), ParseFlagNames(str[n + 1..], all))
    else TokenValue(str, all)
  }

  // -------------------------------------------------------------- names are keys

  lemma {:induction false} NameLength(i: nat)
    requires Named(i)
    ensures i < 64 && 3 <= |Name(i)| <= 14
  {
  }

  lemma {:induction false} NotCompound(i: nat)
    requires Named(i) && |Name(i)| <= 8
    ensures Name(i)[0] != 'c'
  {
  }

  /** The text holds none of the characters that mean something to the parser. */
  predicate PlainText(s: string) {
    forall k :: 0 <= k < |s| ==> s[k] == '_' || s[k] == '2' || 'a' <= s[k] <= 'z'
  }

  lemma {:induction false} PlainNames(i: nat)
    ensures PlainText(Name(i))
  {
    hide Name;
    if i < 10 { Plain0(i); } else if i < 20 { Plain10(i); } else if i < 34 { Plain20(i); }
    else if i < 40 { Plain34(i); } else { Plain40(i); }
  }

  lemma {:induction false} Plain0(i: nat) requires i < 10 ensures PlainText(Name(i)) { }
  lemma {:induction false} Plain10(i: nat) requires 10 <= i < 20 ensures PlainText(Name(i)) { }
  lemma {:induction false} Plain20(i: nat) requires 20 <= i < 34 ensures PlainText(Name(i)) { }
  lemma {:induction false} Plain34(i: nat) requires 34 <= i < 40 ensures PlainText(Name(i)) { }
  lemma {:induction false} Plain40(i: nat) requires 40 <= i ensures PlainText(Name(i)) { }

  /** Name a, no longer than name b, differs from it at one of a few places. */
  predicate Differs(a: string, b: string) {
    |a| < 3 || |a| > |b| || a[0] != b[0] || a[1] != b[1] || a[2] != b[2] || (|a| > 4 && a[4] != b[4]) || (|a| > 9 && a[9] != b[9])
  }

  lemma {:induction false} Differ0(i: nat, j: nat) requires j < i < 32 && Named(i) && Named(j) ensures Differs(Name(i), Name(j)) { }

  lemma {:induction false} Differ32(i: nat, j: nat)
    requires j < i && 32 <= i < 40 && Named(i) && Named(j)
    ensures Differs(Name(i), Name(j))
  {
  }

  lemma {:induction false} Differ40(i: nat, j: nat)
    requires j < i && 40 <= i < 48 && Named(i) && Named(j)
    ensures Differs(Name(i), Name(j))
  {
  }

  lemma {:induction false} Differ48(i: nat, j: nat)
    requires j < i && 48 <= i && Named(i) && Named(j)
    ensures Differs(Name(i), Name(j))
  {
  }

  lemma {:induction false} PrefixAgrees(a: string, b: string)
    requires a <= b && |a| >= 3
    ensures !Differs(a, b)
  {
  }

  /** No name is a prefix of an earlier one. */
  lemma {:induction false} NoEarlierMatch(i: nat, j: nat)
    requires j < i && Named(i) && Named(j)
    ensures !Matches(Name(i), Name(j))
  {
    NameLength(i);
    hide Name;
    if i < 32 { Differ0(i, j); } else if i < 40 { Differ32(i, j); } else if i < 48 { Differ40(i, j); } else { Differ48(i, j); }
    if Matches(Name(i), Name(j)) { PrefixAgrees(Name(i), Name(j)); }
  }

  /** Although a token stands for the first name it is a prefix of, every full name stands for its own bit. */
  lemma {:induction false} NameMatchesItself(i: nat)
    requires Named(i)
    ensures i < 64 && FirstMatch(Name(i), 0) == i && !(|Name(i)| <= 8 && Matches(Name(i), "compound"))
  {
    NameLength(i);
    hide Name;
    var r := FirstMatch(Name(i), 0);
    FirstMatchAtMost(Name(i), 0, i);
    if r < i { NoEarlierMatch(i, r); }
    if |Name(i)| <= 8 {
      NotCompound(i);
      assert "compound"[0] == 'c';
    }
  }

  lemma {:induction false} FirstMatchAtMost(token: string, i: nat, k: nat)
    requires i <= k < 64 && Named(k) && Matches(token, Name(k))
    ensures FirstMatch(token, i) <= k
  {
    hide Name;
    assert Matches(token, Name(k));
  }

  // ------------------------------------------------------------------ round trip

  function NamedBit(i: nat): Word { if Named(i) then Bit(i) else 0 }

  /** The bits from i on that have a name. */
  function NamedBits(i: nat): Word
    requires i <= 64
    decreases 64 - i
  {
    if i == 64 then 0 else Union(NamedBit(i), NamedBits(i + 1))
  }

  function ListedBit(flags: Word, i: nat): Word { if Named(i) && IsSet(flags, i) then Bit(i) else 0 }

  /** The bits of the names Listed prints. */
  function ListedBits(flags: Word, i: nat): Word
    requires i <= 64
    decreases 64 - i
  {
    if i == 64 then 0 else Union(ListedBit(flags, i), ListedBits(flags, i + 1))
  }

  /** b has at most one bit. */
  predicate Single(b: Word) { b & (b - 1) == 0 }

  lemma {:induction false} SingleSelects(flags: Word, b: Word)
    requires Single(b)
    ensures (if Masked(flags, b) != 0 then b else 0) == Masked(flags, b)
    ensures Single(b << 1)
  {
  }

  lemma {:induction false} BitIsSingle(i: nat)
    ensures Single(Bit(i))
  {
    if i > 0 {
      BitIsSingle(i - 1);
      SingleSelects(0, Bit(i - 1));
    }
  }

  lemma {:induction false} ListedBitIsMasked(flags: Word, i: nat)
    ensures ListedBit(flags, i) == Masked(flags, NamedBit(i))
  {
    hide Name, Bit, Single, Masked;
    BitIsSingle(i);
    SingleSelects(flags, Bit(i));
    AndZero(flags);
  }

  lemma {:induction false} AndZero(flags: Word)
    ensures Masked(flags, 0) == 0
  {
  }

  lemma {:induction false} UnionZero(a: Word)
    ensures Union(a, 0) == a && Union(0, a) == a
  {
  }

  lemma {:induction false} AndUnion(flags: Word, a: Word, b: Word)
    ensures Union(Masked(flags, a), Masked(flags, b)) == Masked(flags, Union(a, b))
  {
    hide Masked, Union;
    MaskedIs(flags, a);
    MaskedIs(flags, b);
    UnionIs(flags & a, flags & b);
    UnionIs(a, b);
    MaskedIs(flags, a | b);
    AndOr(flags, a, b);
  }

  lemma {:induction false} MaskedIs(flags: Word, mask: Word)
    ensures Masked(flags, mask) == flags & mask
  {
  }

  lemma {:induction false} UnionIs(a: Word, b: Word)
    ensures Union(a, b) == a | b
  {
  }

  lemma {:induction false} AndOr(flags: Word, a: Word, b: Word)
    ensures (flags & a) | (flags & b) == flags & (a | b)
  {
  }

  lemma {:induction false} ListedBitsAreMasked(flags: Word, i: nat)
    requires i <= 64
    ensures ListedBits(flags, i) == Masked(flags, NamedBits(i))
    decreases 64 - i
  {
    hide ListedBit, NamedBit, Union, Masked;
    if i < 64 {
      ListedBitIsMasked(flags, i);
      ListedBitsAreMasked(flags, i + 1);
      AndUnion(flags, NamedBit(i), NamedBits(i + 1));
    } else {
      AndZero(flags);
    }
  }

  lemma {:induction false} TokenLengthOf(name: string, rest: string)
    requires PlainText(name) && (rest == "" || EndsToken(rest[0]))
    ensures TokenLength(name + rest) == |name|
  {
    if name == "" {
      assert name + rest == rest;
    } else {
      assert (name + rest)[1..] == name[1..] + rest && (name + rest)[0] == name[0];
      TokenLengthOf(name[1..], rest);
    }
  }

  /** A printed name followed by a comma or the end of the text is read as its own bit. */
  lemma {:induction false} NameTokenValue(i: nat, rest: string, all: bool)
    requires Named(i) && (rest == "" || EndsToken(rest[0]))
    ensures i < 64 && TokenLength(Name(i) + rest) == |Name(i)|
    ensures TokenValue(Name(i) + rest, all) == Ok(Bit(i))
  {
    NameLength(i);
    PlainNames(i);
    hide Name, Bit;
    TokenLengthOf(Name(i), rest);
    NameMatchesItself(i);
    var str := Name(i) + rest;
    assert str[0] == Name(i)[0] != '~';
    assert str[..|Name(i)|] == Name(i);
  }

  /** Reading a name and then the rest of a list. */
  lemma {:induction false} ParseNameAndRest(i: nat, rest: string)
    requires Named(i)
    ensures ParseFlagNames(Name(i), false) == Ok(Bit(i))
    ensures ParseFlagNames(Name(i) + "," + rest, false) == Or(Ok(Bit(i)), ParseFlagNames(rest, false))
  {
    hide Name, Bit, TokenValue, Union;
    NameTokenValue(i, "", false);
    assert Name(i) + "" == Name(i);
    var tail := "," + rest;
    NameTokenValue(i, tail, false);
    assert Name(i) + "," + rest == Name(i) + tail;
    assert (Name(i) + tail)[|Name(i)| + 1..] == rest;
  }

  /** Cutting the last comma off a list cuts it off the rest, or off the only name. */
  lemma {:induction false} CutComma(name: string, rest: string)
    ensures var s := (name + ",") + rest;
      s[..|s| - 1] == if rest == "" then name else name + "," + rest[..|rest| - 1]
  {
  }

  lemma {:induction false} ParseListed(flags: Word, i: nat)
    requires i <= 64
    ensures var s := Listed(flags, i);
      if s == "" then ListedBits(flags, i) == 0
      else ParseFlagNames(s[..|s| - 1], false) == Ok(ListedBits(flags, i))
    decreases 64 - i
  {
    hide Name, Bit, IsSet, ParseFlagNames, Union;
    if i < 64 {
      ParseListed(flags, i + 1);
      var rest := Listed(flags, i + 1);
      UnionZero(ListedBits(flags, i + 1));
      if Named(i) && IsSet(flags, i) {
        UnionZero(Bit(i));
        CutComma(Name(i), rest);
        ParseNameAndRest(i, if rest == "" then "" else rest[..|rest| - 1]);
      } else {
        assert Listed(flags, i) == rest;
      }
    }
  }

  lemma {:induction false} ParseNothing(all: bool)
    ensures ParseFlagNames("", all) == Ok(0)
  {
    assert TokenLength("") == 0;
  }

  /** Reading back a printed long name gives the flags word restricted to the bits that have a name, although tokens
      are matched as prefixes, the first match wins and "compound" is an alias. */
  lemma {:induction false} LongNameRoundTrip(flags: Word)
    ensures ParseFlagNames(LongName(flags), false) == Ok(Masked(flags, NamedBits(0)))
  {
    hide Listed, ListedBits, NamedBits, ParseFlagNames, Masked;
    ParseNothing(false);
    ParseListed(flags, 0);
    ListedBitsAreMasked(flags, 0);
  }

  lemma {:induction false} ListedLength(flags: Word, i: nat)
    requires i <= 64
    ensures |Listed(flags, i)| <= 15 * (64 - i)
    decreases 64 - i
  {
    if i < 64 && Named(i) { NameLength(i); }
    hide Name;
    if i < 64 { ListedLength(flags, i + 1); }
  }

  /** The static buffer of 1024 characters is never filled: snprintf truncates nothing. */
  lemma {:induction false} LongNameFits(flags: Word)
    ensures |Listed(flags, 0)| < 1024
  {
    hide Listed;
    ListedLength(flags, 0);
  }

  // ----------------------------------------------------------------------- loops

  lemma {:induction false} ListedStep(flags: Word, i: nat)
    requires i <= 64
    ensures Listed(flags, i) ==
      if i == 64 then "" else (if Named(i) && IsSet(flags, i) then Name(i) + "," else "") + Listed(flags, i + 1)
  {
    hide Name;
  }

  method PageFlagLongname(flags: Word) returns (buf: string)
    ensures buf == LongName(flags)
  {
    hide Name, Listed;
    buf := "";
    var i := 0;
    assert buf + Listed(flags, i) == Listed(flags, 0);
    while i < 64
      invariant 0 <= i <= 64 && buf + Listed(flags, i) == Listed(flags, 0)
    {
      ListedStep(flags, i);
      if Named(i) && IsSet(flags, i) {
        assert buf + ((Name(i) + ",") + Listed(flags, i + 1)) == (buf + (Name(i) + ",")) + Listed(flags, i + 1);
        buf := buf + (Name(i) + ",");
      } else {
        assert "" + Listed(flags, i + 1) == Listed(flags, i + 1);
      }
      i := i + 1;
    }
    ListedStep(flags, 64);
    assert buf + "" == buf;
    if buf != "" {
      buf := buf[..|buf| - 1];
    }
  }

  lemma {:induction false} OrAssoc(a: Result, b: Result, c: Result)
    ensures Or(Or(a, b), c) == Or(a, Or(b, c))
  {
    hide Union;
    if a.Ok? && b.Ok? && c.Ok? { UnionAssoc(a.word, b.word, c.word); }
  }

  lemma {:induction false} UnionAssoc(a: Word, b: Word, c: Word)
    ensures Union(Union(a, b), c) == Union(a, Union(b, c))
  {
    hide Union;
    UnionIs(a, b);
    UnionIs(b, c);
    UnionIs(a | b, c);
    UnionIs(a, b | c);
    OrBits(a, b, c);
  }

  lemma {:induction false} OrBits(a: Word, b: Word, c: Word)
    ensures (a | b) | c == a | (b | c)
  {
  }

  lemma {:induction false} OrZero(a: Result)
    ensures Or(Ok(0), a) == a
  {
  }

  lemma {:induction false} TokenEndsAt(str: string, n: nat)
    requires n <= |str| && (n < |str| ==> EndsToken(str[n])) && forall k :: 0 <= k < n ==> !EndsToken(str[k])
    ensures TokenLength(str) == n
  {
    if n > 0 { TokenEndsAt(str[1..], n - 1); }
  }

  /** One token of parse_flag_names: `start` is str, `p` is p. */
  method ParseToken(str: string, start: nat, p: nat, all: bool) returns (value: Result)
    requires start <= p <= |str| && TokenLength(str[start..]) == p - start
    ensures value == TokenValue(str[start..], all)
  {
    hide ParseFlagName, TokenLength;
    if start == |str| || str[start] != '~' {
      value := ParseFlagName(str[start..], p - start);
    } else {
      value := Ok(0);
      if all {
        var next := start + 1;
        assert str[start..][1..] == str[next..];
        if next < |str| {
          value := ParseFlagName(str[next..], p - next);
        }
      }
    }
  }

  lemma {:induction false} ParseStep(str: string, start: nat, p: nat, all: bool)
    requires start <= p <= |str| && (p < |str| ==> EndsToken(str[p])) && forall k :: start <= k < p ==> !EndsToken(str[k])
    ensures TokenLength(str[start..]) == p - start
    ensures ParseFlagNames(str[start..], all) ==
      if p < |str| && str[p] == ',' then Or(TokenValue(str[start..], all), ParseFlagNames(str[p + 1..], all))
      else TokenValue(str[start..], all)
  {
    hide Or, TokenValue;
    TokenEndsAt(str[start..], p - start);
    if p < |str| { assert str[start..][p - start + 1..] == str[p + 1..]; }
  }

  /** parse_flag_names with its two pointers. */
  method ParseFlagNamesLoop(str: string, all: bool) returns (r: Result)
    ensures r == ParseFlagNames(str, all)
  {
    hide TokenValue, ParseFlagNames, Or, TokenLength;
    var p, start := 0, 0;
    r := Ok(0);
    OrZero(ParseFlagNames(str, all));
    assert str[0..] == str;
    while true
      invariant 0 <= start <= p <= |str|
      invariant forall k :: start <= k < p ==> !EndsToken(str[k])
      invariant Or(r, ParseFlagNames(str[start..], all)) == ParseFlagNames(str, all)
      decreases |str| - p
    {
      if p == |str| || EndsToken(str[p]) {
        ParseStep(str, start, p, all);
        var value := ParseToken(str, start, p, all);
        if p == |str| || str[p] != ',' {
          r := Or(r, value);
          return;
        }
        OrAssoc(r, value, ParseFlagNames(str[p + 1..], all));
        r := Or(r, value);
        start := p + 1;
      }
      p := p + 1;
    }
  }
}
