/** What several modules share: optional values, the numbers of the machine, and division. */
module Basics {

  datatype Option<+T> = None | Some(value: T)

  const ULONG_RANGE: nat := 0x1_0000_0000_0000_0000
  const ULONG_MAX: nat := 0xffff_ffff_ffff_ffff

  /** An `unsigned long` or `uint64_t` as a number. */
  type ULong = x: nat | x < ULONG_RANGE

  lemma {:induction false} MulAwayFromZero(d: int, b: int)
    requires b > 0
    ensures d >= 1 ==> d * b >= b
    ensures d <= -1 ==> d * b <= -b
  {
  }

  lemma {:induction false} DivModUnique(a: int, b: int, q: int, r: int)
    requires b > 0 && 0 <= r < b && a == q * b + r
    ensures a / b == q && a % b == r
  {
    var d := a / b - q;
    assert d * b == r - a % b;
    MulAwayFromZero(d, b);
  }

  /** What counting one up does to quotient and remainder. */
  lemma {:induction false} NextDivMod(a: int, b: int)
    requires a >= 0 && b > 0
    ensures if a % b == b - 1 then (a + 1) / b == a / b + 1 && (a + 1) % b == 0
            else (a + 1) / b == a / b && (a + 1) % b == a % b + 1
  {
    var q, r := a / b, a % b;
    if r == b - 1 {
      assert a + 1 == (q + 1) * b;
      DivModUnique(a + 1, b, q + 1, 0);
    } else {
      DivModUnique(a + 1, b, q, r + 1);
    }
  }
}
