/** `page_flag_name` of page-types.c: the short name of a flags word, one character for each entry of the table. It ends the
    program at a word with a bit that has no entry. */
module FlagLetters {
  import opened Basics
  import opened FlagTable

  /** flags >> i. */
  function Shift(flags: nat, i: nat): nat {
    if i == 0 then flags else Shift(flags / 2, i - 1)
  }

  predicate BitAt(flags: nat, i: nat) { Shift(flags, i) % 2 == 1 }

  /** A bit is set that has no entry in the table from i on. */
  predicate UnknownFrom(flags: ULong, i: nat) {
    exists k :: i <= k < 64 && !Named(k) && BitAt(flags, k)
  }

  predicate Unknown(flags: ULong) { UnknownFrom(flags, 0) }

  /** The character for entry i, if there is such an entry. */
  function Mark(flags: ULong, i: nat): string {
    if !Named(i) then "" else if BitAt(flags, i) then [Letter(i)] else "_"
  }

  /** The characters for the entries from i on. */
  function Letters(flags: ULong, i: nat): string
    requires i <= 64
    decreases 64 - i
  {
    if i == 64 then ""
    else Mark(flags, i) + Letters(flags, i + 1)
  }

  /** None is the fatal "unknown flag bit". */
  function ShortName(flags: ULong): Option<string> {
    if Unknown(flags) then None else Some(Letters(flags, 0))
  }

  lemma {:induction false} UnknownStep(flags: ULong, i: nat)
    requires i < 64
    ensures UnknownFrom(flags, i) <==> (!Named(i) && BitAt(flags, i)) || UnknownFrom(flags, i + 1)
  {
    hide Named, BitAt;
  }

  /** The loop over the table. */
  method PageFlagName(flags: ULong) returns (buf: Option<string>)
    ensures buf == ShortName(flags)
  {
    hide Named, BitAt, Letters, Letter, UnknownFrom;
    var s := "";
    assert s + Letters(flags, 0) == Letters(flags, 0);
    for i := 0 to 64
      invariant Unknown(flags) <==> UnknownFrom(flags, i)
      invariant s + Letters(flags, i) == Letters(flags, 0)
    {
      UnknownStep(flags, i);
      AddMark(s, flags, i);
      var present := BitAt(flags, i);
      if !Named(i) {
        if present {
          return None;
        }
        assert s + "" == s;
      } else {
        s := s + if present then [Letter(i)] else "_";
      }
    }
    NoneLeft(flags);
    assert s + "" == s;
    return Some(s);
  }

  lemma {:induction false} AddMark(s: string, flags: ULong, i: nat)
    requires i < 64
    ensures (s + Mark(flags, i)) + Letters(flags, i + 1) == s + Letters(flags, i)
  {
    hide Named, BitAt, Letter, Mark;
  }

  lemma {:induction false} NoneLeft(flags: ULong)
    ensures !UnknownFrom(flags, 64) && Letters(flags, 64) == ""
  {
  }

  lemma {:induction false} LettersLength(flags: ULong, i: nat)
    requires i <= 64
    ensures |Letters(flags, i)| <= 64 - i
    decreases 64 - i
  {
    hide Named, BitAt, Letter;
    if i < 64 { LettersLength(flags, i + 1); }
  }

  // ------------------------------------------------------------- what the name tells

  lemma {:induction false} SameBits(a: ULong, b: ULong, i: nat, k: nat)
    requires i <= k < 64 && Named(k) && Letters(a, i) == Letters(b, i)
    ensures BitAt(a, k) <==> BitAt(b, k)
    decreases 64 - i
  {
    hide Named, BitAt, Letter;
    SplitSame(Mark(a, i), Letters(a, i + 1), Mark(b, i), Letters(b, i + 1));
    if i < k { SameBits(a, b, i + 1, k); } else { assert Mark(a, i)[0] == Mark(b, i)[0]; }
  }

  lemma {:induction false} SplitSame(p: string, x: string, q: string, y: string)
    requires p + x == q + y && |p| == |q|
    ensures p == q && x == y
  {
    assert p == (p + x)[..|p|] && q == (q + y)[..|q|];
    assert x == (p + x)[|p|..] && y == (q + y)[|q|..];
  }

  /** How many entries of the table stand before place i. */
  function EntriesBelow(i: nat): nat {
    if i == 0 then 0 else EntriesBelow(i - 1) + if Named(i - 1) then 1 else 0
  }

  /** The bit of a number, by division. */
  lemma {:induction false} ShiftDivides(flags: nat, k: nat)
    ensures Pow2(k) > 0 && Shift(flags, k) == flags / Pow2(k)
  {
    if k > 0 {
      ShiftDivides(flags / 2, k - 1);
      HalfThen(flags, Pow2(k - 1));
    }
  }

  lemma {:induction false} HalfThen(a: nat, b: nat)
    requires b > 0
    ensures a / 2 / b == a / (2 * b)
  {
    var q, r := a / 2 / b, a / 2 % b;
    assert a == 2 * (q * b + r) + a % 2;
    assert q * (2 * b) == 2 * (q * b);
    DivModUnique(a, 2 * b, q, 2 * r + a % 2);
  }

  lemma {:induction false} LettersFrom(flags: ULong, i: nat, k: nat)
    requires i <= k < 64 && Named(k)
    ensures EntriesBelow(i) <= EntriesBelow(k) < EntriesBelow(64)
    ensures |Letters(flags, i)| == EntriesBelow(64) - EntriesBelow(i)
    ensures Letters(flags, i)[EntriesBelow(k) - EntriesBelow(i)] == if BitAt(flags, k) then Letter(k) else '_'
    decreases 64 - i
  {
    hide Named, BitAt, Letter;
    EntriesGrow(i, k);
    EntriesGrow(k + 1, 64);
    LettersCount(flags, i);
    if i < k { LettersFrom(flags, i + 1, k); }
  }

  lemma {:induction false} LettersCount(flags: ULong, i: nat)
    requires i <= 64
    ensures EntriesBelow(i) <= EntriesBelow(64)
    ensures |Letters(flags, i)| == EntriesBelow(64) - EntriesBelow(i)
    decreases 64 - i
  {
    hide Named, BitAt, Letter;
    if i < 64 { LettersCount(flags, i + 1); }
  }

  lemma {:induction false} EntriesGrow(i: nat, k: nat)
    requires i <= k
    ensures EntriesBelow(i) <= EntriesBelow(k)
    decreases k - i
  {
    hide Named;
    if i < k { EntriesGrow(i, k - 1); }
  }

  /** The short name has one character for each entry of the table, in its order: the letter of the entry if that bit of the
      word, counted by division, is set, and an underscore if it is not. */
  lemma {:induction false} LetterOfBit(flags: ULong, k: nat)
    requires k < 64 && Named(k) && !Unknown(flags)
    ensures Pow2(k) > 0 && ShortName(flags).Some?
    ensures var name := ShortName(flags).value;
      && |name| == EntriesBelow(64) && EntriesBelow(k) < |name|
      && name[EntriesBelow(k)] == if flags / Pow2(k) % 2 == 1 then Letter(k) else '_'
  {
    hide Named, Letter, Letters, EntriesBelow;
    LettersFrom(flags, 0, k);
    ShiftDivides(flags, k);
    assert EntriesBelow(0) == 0 by { NoneBelow(); }
  }

  lemma {:induction false} NoneBelow()
    ensures EntriesBelow(0) == 0
  {
  }

  /** There are forty entries, and a word without bits is forty underscores. */
  lemma {:induction false} NoBits()
    ensures EntriesBelow(64) == 40 && ShortName(0) == Some(seq(40, _ => '_'))
  {
    ZeroIsKnown();
    hide Letters, EntriesBelow, Unknown;
    EntriesAre(64);
    EntriesAre(0);
    LettersCount(0, 0);
    UnderscoresFrom(0);
    var name := Letters(0, 0);
    forall i | 0 <= i < 40 ensures name[i] == '_' { assert name[i] in name; }
    assert name == seq(40, _ => '_');
  }

  lemma {:induction false} UnderscoresFrom(i: nat)
    requires i <= 64
    ensures forall c :: c in Letters(0, i) ==> c == '_'
    decreases 64 - i
  {
    hide Named, Letter, BitAt;
    if i < 64 {
      assert !BitAt(0, i) by { ZeroBit(i); }
      UnderscoresFrom(i + 1);
    }
  }

  lemma {:induction false} ZeroBit(i: nat)
    ensures !BitAt(0, i)
  {
    ZeroShift(i);
  }

  /** Which places of the table have an entry. */
  lemma {:induction false} NamedPlaces(i: nat)
    ensures Named(i) <==> i < 25 || 32 <= i < 41 || 48 <= i < 52 || 62 <= i < 64
  {
  }

  lemma {:induction false} EntriesAre(i: nat)
    requires i <= 64
    ensures EntriesBelow(i) == if i <= 25 then i else if i <= 32 then 25 else if i <= 41 then i - 7
                               else if i <= 48 then 34 else if i <= 52 then i - 14 else if i <= 62 then 38 else i - 24
  {
    hide Named;
    if i > 0 {
      EntriesAre(i - 1);
      NamedPlaces(i - 1);
    }
  }

  function Pow2(k: nat): nat { if k == 0 then 1 else 2 * Pow2(k - 1) }

  /** A number is its bits. */
  lemma {:induction false} BitsDetermine(a: nat, b: nat, k: nat)
    requires a < Pow2(k) && b < Pow2(k) && forall i :: 0 <= i < k ==> (BitAt(a, i) <==> BitAt(b, i))
    ensures a == b
  {
    if k > 0 {
      assert BitAt(a, 0) <==> BitAt(b, 0);
      forall i | 0 <= i < k - 1 ensures BitAt(a / 2, i) <==> BitAt(b / 2, i) {
        assert BitAt(a, i + 1) <==> BitAt(b, i + 1);
      }
      BitsDetermine(a / 2, b / 2, k - 1);
    }
  }

  lemma {:induction false} Pow64()
    ensures Pow2(64) == ULONG_RANGE
  {
    Pow16();
    PowSum(16, 16);
    PowSum(32, 32);
  }

  lemma {:induction false} Pow16()
    ensures Pow2(8) == 0x100 && Pow2(16) == 0x1_0000
  {
    assert Pow2(4) == 16;
    PowSum(4, 4);
    PowSum(8, 8);
  }

  lemma {:induction false} PowSum(a: nat, b: nat)
    ensures Pow2(a + b) == Pow2(a) * Pow2(b)
  {
    if b > 0 { PowSum(a, b - 1); }
  }

  /** The short name, where there is one, tells the whole word: two words have the same short name exactly if they are the
      same, or neither has one. */
  lemma {:induction false} ShortNameTellsAll(a: ULong, b: ULong)
    ensures ShortName(a) == ShortName(b) <==> a == b || (Unknown(a) && Unknown(b))
  {
    if !Unknown(a) && !Unknown(b) && Letters(a, 0) == Letters(b, 0) {
      forall i | 0 <= i < 64 ensures BitAt(a, i) <==> BitAt(b, i) {
        if Named(i) { SameBits(a, b, 0, i); } else { assert !BitAt(a, i) && !BitAt(b, i); }
      }
      Pow64();
      BitsDetermine(a, b, 64);
    }
  }

  /** The static buffer of 65 characters holds every short name and its end. */
  lemma {:induction false} ShortNameFits(flags: ULong)
    ensures |Letters(flags, 0)| < 65
  {
    LettersLength(flags, 0);
  }

  /** Bit 25, which kernels use for idle pages, has no entry. */
  lemma {:induction false} IdleIsUnknown()
    ensures Unknown(0x200_0000) && ShortName(0x200_0000) == None
  {
    Pow16();
    PowSum(16, 8);
    PowSum(24, 1);
    ShiftDown(25);
    assert !Named(25) && BitAt(0x200_0000, 25);
  }

  lemma {:induction false} ShiftDown(k: nat)
    ensures Shift(Pow2(k), k) == 1
  {
    if k > 0 { ShiftDown(k - 1); }
  }

  /** A word without bits has the name of underscores. */
  lemma {:induction false} ZeroIsKnown()
    ensures !Unknown(0)
  {
    forall i: nat ensures !BitAt(0, i) { ZeroShift(i); }
  }

  lemma {:induction false} ZeroShift(i: nat)
    ensures Shift(0, i) == 0
  {
    if i > 0 { ZeroShift(i - 1); }
  }
}
