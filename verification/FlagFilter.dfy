/** The filter language of page-types.c: `parse_bits_mask` reads a bits-spec, `bit_mask_ok` applies the filters. */
module FlagFilter {
  import opened FlagNames
  import FlagNumbers
  import opened FlagTable
  import opened Decimal

  const ALL_BITS: Word := 0xffff_ffff_ffff_ffff

  /** opt_mask[i] and opt_bits[i]. */
  datatype Filter = Filter(mask: Word, bits: Word)

  datatype Parsed = Parsed(filter: Filter) | Invalid

  /** One turn of the loop of bit_mask_ok. A bits value of all ones means "any bit of the mask". */
  predicate Accepts(f: Filter, flags: Word) {
    if f.bits == ALL_BITS then Masked(flags, f.mask) != 0 else Masked(flags, f.mask) == f.bits
  }

  /** All filters accept the word. */
  predicate Passes(filters: seq<Filter>, flags: Word) {
    forall i :: 0 <= i < |filters| ==> Accepts(filters[i], flags)
  }

  /** bit_mask_ok: several filters act as a conjunction. */
  method BitMaskOk(filters: seq<Filter>, flags: Word) returns (ok: bool)
    ensures ok <==> Passes(filters, flags)
  {
    var i := 0;
    while i < |filters|
      invariant 0 <= i <= |filters| && forall k :: 0 <= k < i ==> Accepts(filters[k], flags)
    {
      if filters[i].bits == ALL_BITS {
        if Masked(flags, filters[i].mask) == 0 {
          return false;
        }
      } else {
        if Masked(flags, filters[i].mask) != filters[i].bits {
          return false;
        }
      }
      i := i + 1;
    }
    return true;
  }

  /** strchr(s, c): the first position of c, |s| if there is none. */
  function Position(s: string, c: char): (i: nat)
    ensures i <= |s| && (i < |s| ==> s[i] == c) && forall k :: 0 <= k < i ==> s[k] != c
  {
    if s == "" || s[0] == c then 0 else 1 + Position(s[1..], c)
  }

  function MakeFilter(mask: Result, bits: Result): Parsed {
    if mask.Ok? && bits.Ok? then Parsed(Filter(mask.word, bits.word)) else Invalid
  }

  function ParseBitsMask(optarg: string): Parsed {
    var p := Position(optarg, '=');
    if p < |optarg| && p == 0 then MakeFilter(Ok(ALL_BITS), ParseFlagNames(optarg[1..], false))
    else if p < |optarg| then MakeFilter(ParseFlagNames(optarg, false), ParseFlagNames(optarg[p + 1..], false))
    else if Position(optarg, '~') < |optarg| then MakeFilter(ParseFlagNames(optarg, true), ParseFlagNames(optarg, false))
    else MakeFilter(ParseFlagNames(optarg, false), Ok(ALL_BITS))
  }

  // ------------------------------------------------------- the documented language

  /** A bit of a list: a name or number, with a tilde or without. */
  datatype Token = Token(negated: bool, name: string) {
    function Text(): string { (if negated then "~" else "") + name }
  }

  /** The four forms of the usage text. */
  datatype Spec =
    | AnyOf(bits: seq<Token>)                    // bit1,bit2
    | Equals(bits: seq<Token>, to: seq<Token>)   // bit1,bit2=bit1
    | Signed(bits: seq<Token>)                   // bit1,~bit2
    | Exactly(to: seq<Token>)                    // =bit1,bit2

  /** A name does not hold the characters that structure a spec. */
  predicate PlainName(s: string) {
    s != "" && forall k :: 0 <= k < |s| ==> s[k] != ',' && s[k] != '=' && s[k] != '~'
  }

  predicate PlainTokens(ts: seq<Token>) {
    ts != [] && forall i :: 0 <= i < |ts| ==> PlainName(ts[i].name)
  }

  predicate Unsigned(ts: seq<Token>) {
    forall i :: 0 <= i < |ts| ==> !ts[i].negated
  }

  predicate WellFormed(spec: Spec) {
    match spec
    case AnyOf(bits) => PlainTokens(bits) && Unsigned(bits)
    case Equals(bits, to) => PlainTokens(bits) && Unsigned(bits) && PlainTokens(to) && Unsigned(to)
    case Signed(bits) => PlainTokens(bits) && !Unsigned(bits)
    case Exactly(to) => PlainTokens(to) && Unsigned(to)
  }

  function Join(ts: seq<Token>): string {
    if ts == [] then "" else if |ts| == 1 then ts[0].Text() else ts[0].Text() + "," + Join(ts[1..])
  }

  function Render(spec: Spec): string {
    match spec
    case AnyOf(bits) => Join(bits)
    case Equals(bits, to) => Join(bits) + "=" + Join(to)
    case Signed(bits) => Join(bits)
    case Exactly(to) => "=" + Join(to)
  }

  /** The word a name stands for: the bit of the first flag it abbreviates, the compound bits, or a number. */
  function NameWord(name: string): Result { ParseFlagName(name, |name|) }

  /** The union of the words of the tokens, with the negated ones or without. */
  function ListWord(ts: seq<Token>, negatedToo: bool): Result {
    if ts == [] then Ok(0)
    else Or(if ts[0].negated && !negatedToo then Ok(0) else NameWord(ts[0].name), ListWord(ts[1..], negatedToo))
  }

  /** The two words the usage text compares: flags & mask against bits. */
  function SpecMask(spec: Spec): Result {
    match spec
    case AnyOf(bits) => ListWord(bits, true)
    case Equals(bits, _) => ListWord(bits, true)
    case Signed(bits) => ListWord(bits, true)
    case Exactly(_) => Ok(ALL_BITS)
  }

  function SpecBits(spec: Spec): Result {
    match spec
    case AnyOf(_) => Ok(ALL_BITS)
    case Equals(_, to) => ListWord(to, true)
    case Signed(bits) => ListWord(bits, false)
    case Exactly(to) => ListWord(to, true)
  }

  predicate Valid(spec: Spec) { WellFormed(spec) && SpecMask(spec).Ok? && SpecBits(spec).Ok? }

  /** What the usage text promises for a spec. */
  predicate Meaning(spec: Spec, flags: Word)
    requires Valid(spec)
  {
    if spec.AnyOf? then Masked(flags, SpecMask(spec).word) != 0
    else Masked(flags, SpecMask(spec).word) == SpecBits(spec).word
  }

  // -------------------------------------------------- numbers in front of a comma

  /** What can follow a token in a spec. */
  predicate Tail(rest: string) { rest == "" || EndsToken(rest[0]) }

  lemma {:induction false} DigitsInTail(s: string, rest: string, base: nat, acc: nat)
    requires Tail(rest) && base <= 36
    ensures DigitsIn(s + rest, base, acc) == DigitsIn(s, base, acc)
  {
    if s == "" {
      assert s + rest == rest;
    } else {
      assert (s + rest)[1..] == s[1..] + rest && (s + rest)[0] == s[0];
      DigitsInTail(s[1..], rest, base, acc * base + DigitValue(s[0]));
    }
  }

  lemma {:induction false} SkipSpacesTail(s: string, rest: string)
    requires Tail(rest)
    ensures SkipSpaces(s + rest) == SkipSpaces(s) + rest
  {
    if s == "" {
      assert s + rest == rest;
    } else {
      assert (s + rest)[1..] == s[1..] + rest && (s + rest)[0] == s[0];
      SkipSpacesTail(s[1..], rest);
    }
  }

  lemma {:induction false} MagnitudeTail(t: string, rest: string)
    requires Tail(rest)
    ensures Magnitude(t + rest) == Magnitude(t)
  {
    hide DigitsIn;
    DigitsInTail(t, rest, 8, 0);
    DigitsInTail(t, rest, 10, 0);
    if |t| >= 2 {
      assert (t + rest)[2..] == t[2..] + rest;
      DigitsInTail(t[2..], rest, 16, 0);
    }
    if t == "" {
      assert t + rest == rest;
    }
  }

  /** strtoll stops at a comma, an equals sign or the end. */
  lemma {:induction false} StrtollTail(s: string, rest: string)
    requires Tail(rest)
    ensures Strtoll(s + rest) == Strtoll(s)
  {
    hide Magnitude;
    SkipSpacesTail(s, rest);
    var t := SkipSpaces(s);
    MagnitudeTail(t, rest);
    if t == "" {
      assert t + rest == rest;
    } else {
      assert (t + rest)[0] == t[0] && (t + rest)[1..] == t[1..] + rest;
      MagnitudeTail(t[1..], rest);
    }
  }

  lemma {:induction false} ParseNumberTail(s: string, rest: string)
    requires s != "" && Tail(rest)
    ensures ParseNumber(s + rest) == ParseNumber(s)
  {
    hide Strtoll, ToWord;
    StrtollTail(s, rest);
  }

  /** A token means the same in front of the rest of a spec as alone. */
  lemma {:induction false} NameWordTail(name: string, rest: string)
    requires name != "" && Tail(rest)
    ensures ParseFlagName(name + rest, |name|) == NameWord(name)
  {
    hide Name, ParseNumber, FirstMatch, Bit;
    assert (name + rest)[..|name|] == name && name[..|name|] == name;
    ParseNumberTail(name, rest);
  }

  // --------------------------------------------------------------- lists of tokens

  lemma {:induction false} TokenLengthTail(text: string, rest: string)
    requires Tail(rest) && forall k :: 0 <= k < |text| ==> !EndsToken(text[k])
    ensures TokenLength(text + rest) == |text|
  {
    TokenEndsAt(text + rest, |text|);
  }

  function TokenWord(t: Token, all: bool): Result {
    if t.negated && !all then Ok(0) else NameWord(t.name)
  }

  lemma {:induction false} TokenValueIs(t: Token, rest: string, all: bool)
    requires PlainName(t.name) && Tail(rest)
    ensures TokenLength(t.Text() + rest) == |t.Text()|
    ensures TokenValue(t.Text() + rest, all) == TokenWord(t, all)
  {
    hide ParseFlagName, TokenLength;
    var str := t.Text() + rest;
    TokenLengthTail(t.Text(), rest);
    NameWordTail(t.name, rest);
    if t.negated {
      assert str[0] == '~' && str[1..] == t.name + rest;
    } else {
      assert t.Text() == t.name && str[0] == t.name[0];
    }
  }

  /** Parsing a rendered list, up to the end or an equals sign, gives the union of its tokens' words. */
  lemma {:induction false} ParseJoin(ts: seq<Token>, rest: string, all: bool)
    requires PlainTokens(ts) && (rest == "" || rest[0] == '=')
    ensures ParseFlagNames(Join(ts) + rest, all) == ListWord(ts, all)
    decreases |ts|
  {
    hide TokenValue, Or, NameWord, TokenLength;
    var t := ts[0];
    if |ts| == 1 {
      TokenValueIs(t, rest, all);
      OrNothing(TokenWord(t, all));
      assert ListWord(ts[1..], all) == Ok(0);
    } else {
      var tail := "," + Join(ts[1..]) + rest;
      TokenValueIs(t, tail, all);
      assert Join(ts) + rest == t.Text() + tail;
      assert (t.Text() + tail)[|t.Text()| + 1..] == Join(ts[1..]) + rest;
      ParseJoin(ts[1..], rest, all);
    }
  }

  lemma {:induction false} OrNothing(a: Result)
    ensures Or(a, Ok(0)) == a
  {
  }

  lemma {:induction false} JoinHasNone(ts: seq<Token>, c: char)
    requires PlainTokens(ts) && (c == '=' || (c == '~' && Unsigned(ts)))
    ensures forall k :: 0 <= k < |Join(ts)| ==> Join(ts)[k] != c
    ensures Join(ts) != ""
    decreases |ts|
  {
    if |ts| > 1 {
      JoinHasNone(ts[1..], c);
      var a, b := ts[0].Text() + ",", Join(ts[1..]);
      assert Join(ts) == a + b;
      assert forall k :: 0 <= k < |a| ==> a[k] != c;
    }
  }

  lemma {:induction false} JoinHasTilde(ts: seq<Token>)
    requires PlainTokens(ts) && !Unsigned(ts)
    ensures exists k :: 0 <= k < |Join(ts)| && Join(ts)[k] == '~'
    decreases |ts|
  {
    if ts[0].negated {
      assert ts[0].Text()[0] == '~';
      assert Join(ts)[0] == ts[0].Text()[0];
    } else {
      JoinHasTilde(ts[1..]);
      var k :| 0 <= k < |Join(ts[1..])| && Join(ts[1..])[k] == '~';
      assert Join(ts)[|ts[0].Text()| + 1 + k] == '~';
    }
  }

  lemma {:induction false} PositionAt(s: string, c: char, i: nat)
    requires i <= |s| && (i < |s| ==> s[i] == c) && forall k :: 0 <= k < i ==> s[k] != c
    ensures Position(s, c) == i
  {
  }

  /** Parsing a rendered spec gives the mask and the bits the usage text speaks of. */
  lemma {:induction false} ParseRendered(spec: Spec)
    requires WellFormed(spec)
    ensures ParseBitsMask(Render(spec)) == MakeFilter(SpecMask(spec), SpecBits(spec))
  {
    hide ParseFlagNames, ListWord;
    var str := Render(spec);
    match spec
    case AnyOf(bits) =>
      JoinHasNone(bits, '=');
      JoinHasNone(bits, '~');
      PositionAt(str, '=', |str|);
      PositionAt(str, '~', |str|);
      ParseJoin(bits, "", false);
      assert Join(bits) + "" == str;
      UnsignedWord(bits);
    case Equals(bits, to) =>
      JoinHasNone(bits, '=');
      PositionAt(str, '=', |Join(bits)|);
      ParseJoin(bits, "=" + Join(to), false);
      assert str == Join(bits) + ("=" + Join(to));
      assert str[|Join(bits)| + 1..] == Join(to) + "";
      ParseJoin(to, "", false);
      UnsignedWord(bits);
      UnsignedWord(to);
    case Signed(bits) =>
      JoinHasNone(bits, '=');
      JoinHasTilde(bits);
      PositionAt(str, '=', |str|);
      ParseJoin(bits, "", true);
      ParseJoin(bits, "", false);
      assert Join(bits) + "" == str;
    case Exactly(to) =>
      PositionAt(str, '=', 0);
      assert str[1..] == Join(to) + "";
      ParseJoin(to, "", false);
      UnsignedWord(to);
  }

  lemma {:induction false} UnsignedWord(ts: seq<Token>)
    requires Unsigned(ts)
    ensures ListWord(ts, false) == ListWord(ts, true)
  {
    hide NameWord;
    if ts != [] { UnsignedWord(ts[1..]); }
  }

  // -------------------------------------------------------------------- the meaning

  /** Comparing through the filter is the documented comparison for all flags words exactly when the bits are not the
      all-ones sentinel, or nothing is masked in. */
  lemma {:induction false} SentinelExactly(mask: Word, bits: Word)
    ensures (forall flags :: Accepts(Filter(mask, bits), flags) <==> Masked(flags, mask) == bits) <==> bits != ALL_BITS || mask == 0
  {
    if bits == ALL_BITS && mask != 0 {
      var flags := if mask == ALL_BITS then 1 else mask;
      MaskedSelf(mask);
      assert Accepts(Filter(mask, bits), flags) && Masked(flags, mask) != bits;
    }
    if mask == 0 {
      forall flags ensures Masked(flags, 0) == 0 { AndZero(flags); }
    }
  }

  lemma {:induction false} MaskedSelf(mask: Word)
    ensures Masked(mask, mask) == mask && Masked(1, ALL_BITS) == 1
  {
  }

  /** For every well-formed spec of the four forms whose names and numbers are valid, the parsed filter accepts exactly
      the flags words that satisfy the documented formula, for all of them if and only if the comparison value is not
      the sentinel (or the form is the first, where the sentinel is meant, or nothing is masked in). */
  lemma {:induction false} FilterMeansDocumentation(spec: Spec)
    requires Valid(spec)
    ensures ParseBitsMask(Render(spec)) == Parsed(Filter(SpecMask(spec).word, SpecBits(spec).word))
    ensures (forall flags :: Accepts(Filter(SpecMask(spec).word, SpecBits(spec).word), flags) <==> Meaning(spec, flags))
       <==> spec.AnyOf? || SpecBits(spec).word != ALL_BITS || SpecMask(spec).word == 0
  {
    hide ParseBitsMask, ListWord, Masked;
    ParseRendered(spec);
    SentinelExactly(SpecMask(spec).word, SpecBits(spec).word);
  }

  /** The family that fails is reachable: "=-1" asks for all bits set and accepts any nonzero word. */
  lemma {:induction false} AllOnesSpec()
    ensures ParseBitsMask("=-1") == Parsed(Filter(ALL_BITS, ALL_BITS))
    ensures Accepts(Filter(ALL_BITS, ALL_BITS), 1)
  {
    MinusOne();
    hide ParseFlagNames;
    assert "=-1"[1..] == "-1";
    MaskedSelf(1);
  }

  lemma {:induction false} MinusOne()
    ensures ParseFlagNames("-1", false) == Ok(ALL_BITS)
  {
    hide Name, ToWord, Strtoll, FirstMatch;
    var str := "-1";
    TokenEndsAt(str, 2);
    assert str[..2] == str;
    FlagNumbers.NoNameStarts(str, 0);
    assert "compound"[0] == 'c';
    MinusOneNumber();
  }

  lemma {:induction false} MinusOneNumber()
    ensures Strtoll("-1") == -1 && ToWord(-1) == ALL_BITS
  {
    assert SkipSpaces("-1") == "-1" && "-1"[1..] == "1";
    assert Magnitude("1") == 1;
  }
}
