// Java's 32-bit `int` and the integer operations of java.lang that the
// monitor's index arithmetic relies on: `+`/`-` with wrap-around,
// Math.abs, the remainder `%` and Math.floorMod.

module JavaInt {

  const MinInt32: int := -0x8000_0000
  const MaxInt32: int := 0x7fff_ffff

  /** Java's primitive `int`. */
  newtype Int32 = x: int | -0x8000_0000 <= x < 0x8000_0000

  /** Two's-complement truncation to 32 bits of a value at most one wrap
    * away from the `int` range: what Java's `+`, `-`, `++` and `--` on two
    * `int`s whose mathematical result is `x` produce.  Java keeps the
    * low-order 32 bits; `WrapIsCongruentInt` shows that this is what Wrap
    * computes. */
  function Wrap(x: int): (r: Int32)
    requires MinInt32 - 0x1_0000_0000 <= x <= MaxInt32 + 0x1_0000_0000
    ensures MinInt32 <= x <= MaxInt32 ==> r as int == x
    ensures x > MaxInt32 ==> r as int == x - 0x1_0000_0000
    ensures x < MinInt32 ==> r as int == x + 0x1_0000_0000
  {
    if x > MaxInt32 then (x - 0x1_0000_0000) as Int32
    else if x < MinInt32 then (x + 0x1_0000_0000) as Int32
    else x as Int32
  }

  /** Wrap(x) keeps the low-order 32 bits of `x`: it is the one `int`
    * that differs from `x` by a multiple of 2^32. */
  lemma WrapIsCongruentInt(x: int, y: Int32)
    requires MinInt32 - 0x1_0000_0000 <= x <= MaxInt32 + 0x1_0000_0000
    ensures (x - y as int) % 0x1_0000_0000 == 0 <==> y == Wrap(x)
  {
  }

  /** Math.abs(int): the magnitude, except that the most negative int
    * has no positive counterpart and is returned unchanged. */
  function Abs(x: Int32): (r: Int32)
    ensures x as int != MinInt32 ==> r as int == if x < 0 then -(x as int) else x as int
    ensures r < 0 <==> x as int == MinInt32
    ensures x as int == MinInt32 ==> r == x
  {
    if x < 0 && x as int != MinInt32 then -x else x
  }

  /** Remainder of a non-negative `a` by a positive `n`, by repeated
    * subtraction of `n`. */
  function NatRem(a: nat, n: nat): (r: nat)
    requires n > 0
    ensures r < n
    ensures a < n ==> r == a
    ensures r <= a
    ensures a == n ==> r == 0
    decreases a
  {
    if a < n then a else NatRem(a - n, n)
  }

  /** Java's `a % n` for a positive divisor: the remainder of division
    * truncated toward zero, so it takes the sign of `a`. */
  function Rem(a: int, n: int): (r: int)
    requires n > 0
    ensures -n < r < n
    ensures r < 0 ==> a < 0
    ensures 0 <= a < n ==> r == a
    ensures a == n ==> r == 0
  {
    if a >= 0 then NatRem(a, n) else -(NatRem(-a, n) as int)
  }

  /** Math.floorMod(a, n) for a positive divisor: the remainder of floor
    * division, always in [0, n). */
  function FloorMod(a: int, n: int): (r: int)
    requires n > 0
    ensures 0 <= r < n
    ensures 0 <= a < n ==> r == a
    ensures a == -1 ==> r == n - 1
  {
    if a >= 0 then NatRem(a, n)
    else if NatRem(-a, n) == 0 then 0
    else n - NatRem(-a, n)
  }

  /** Quotient of a non-negative `a` by a positive `n`: how many times
    * NatRem subtracts `n`. */
  function NatQuot(a: nat, n: nat): nat
    requires n > 0
    decreases a
  {
    if a < n then 0 else 1 + NatQuot(a - n, n)
  }

  /** Division identity for the non-negative case. */
  lemma {:induction false} NatDivision(a: nat, n: nat)
    requires n > 0
    ensures a == NatQuot(a, n) * n + NatRem(a, n)
    decreases a
  {
    if a >= n {
      NatDivision(a - n, n);
    }
  }

  /** Java's integer `/` for a positive divisor, truncating toward zero. */
  function Quot(a: int, n: int): int
    requires n > 0
  {
    if a >= 0 then NatQuot(a, n) else -(NatQuot(-a, n) as int)
  }

  /** The identity `(a / n) * n + a % n == a` that Java's remainder is
    * defined by, with the quotient truncated toward zero; together with
    * Rem's bounds and sign it pins Rem down. */
  lemma RemDivision(a: int, n: int)
    requires n > 0
    ensures a == Quot(a, n) * n + Rem(a, n)
  {
    if a >= 0 { NatDivision(a, n); } else { NatDivision(-a, n); }
  }

  /** Math.floorDiv for a positive divisor: the quotient rounded down. */
  function FloorQuot(a: int, n: int): int
    requires n > 0
  {
    if a >= 0 then NatQuot(a, n)
    else if NatRem(-a, n) == 0 then -(NatQuot(-a, n) as int)
    else -(NatQuot(-a, n) as int) - 1
  }

  /** The same identity for floor division, whose remainder is never
    * negative. */
  lemma FloorModDivision(a: int, n: int)
    requires n > 0
    ensures a == FloorQuot(a, n) * n + FloorMod(a, n)
  {
    if a >= 0 {
      NatDivision(a, n);
    } else {
      NatDivision(-a, n);
    }
  }
}
