/**
 * Reference integer arithmetic the contract tests compare KucoCoin and the
 * Uniswap V2 pair against (packages/contracts/test/utils/calculations.ts).
 *
 * Every quantity is a JavaScript `bigint`, so parameters are `int`. Bigint
 * division truncates toward zero and throws a `RangeError` on a zero divisor;
 * both are written out here (`TruncDiv`, `Throws(RangeError)`).
 */
module Calculations {

  /** The two exceptions the reference code can raise. */
  datatype JsError =
    | RangeError   // bigint division by zero
    | SqrtError    // `sqrt` of a negative value: `throw Error()`

  /** A value, or the exception thrown while computing it. */
  datatype Computed<T> = Ok(value: T) | Throws(error: JsError)

  function Abs(x: int): nat { if x < 0 then -x else x }

  /** Bigint `x / d`: the magnitude is the floor of the magnitudes, the sign the product of the signs. */
  function TruncDiv(x: int, d: int): (q: int)
    requires d != 0
    ensures Abs(q) == Abs(x) / Abs(d)
    ensures q > 0 ==> (x > 0) == (d > 0)
    ensures q < 0 ==> (x > 0) != (d > 0)
  {
    var magnitude := Abs(x) / Abs(d);
    DivBracket(Abs(x), Abs(d));
    if (x >= 0) == (d > 0) then magnitude else -magnitude
  }

  /** Bigint division as the interpreter evaluates it. */
  function BigDiv(x: int, d: int): (r: Computed<int>)
    ensures r.Throws? <==> d == 0
    ensures r.Throws? ==> r.error == RangeError
  {
    if d == 0 then Throws(RangeError) else Ok(TruncDiv(x, d))
  }

  // ---------------------------------------------------------------------------
  // Operations
  // ---------------------------------------------------------------------------

  /** `optimalAddedLiquidity`: the ratio-preserving part of a desired deposit. */
  function OptimalAddedLiquidity(addedA: int, addedB: int, reserveA: int, reserveB: int): Computed<(int, int)>
  {
    if reserveB == 0 then Throws(RangeError)
    else
      var exactAddedA := TruncDiv(addedB * reserveA, reserveB);
      if exactAddedA <= addedA then Ok((exactAddedA, addedB))
      else if reserveA == 0 then Throws(RangeError)
      else Ok((addedA, TruncDiv(addedA * reserveB, reserveA)))
  }

  /** `swapOutput`: constant-product quote with a 0.3% fee on the input. */
  function SwapOutput(reserveA: int, reserveB: int, amountA: int): (r: Computed<int>)
    ensures r.Throws? <==> 1000 * reserveA + 997 * amountA == 0
  {
    var amountAWithFee := 997 * amountA;
    BigDiv(amountAWithFee * reserveB, 1000 * reserveA + amountAWithFee)
  }

  /** `applyBips`: scale by `ratio` basis points. */
  function ApplyBips(value: int, ratio: int): int
  {
    TruncDiv(value * ratio, 10000)
  }

  /** `rewardKucoFromInvestedNat`: KUCO credited for an investment, priced at the given reserves. */
  function RewardKucoFromInvestedNat(investedNat: int, reserveKuco: int, reserveNat: int, investmentReturnBips: int): Computed<int>
  {
    BigDiv(ApplyBips(investedNat * reserveKuco, investmentReturnBips), reserveNat)
  }

  /** `retractedNatFromInvestedNat`: NAT refunded when an investment is retracted. */
  function RetractedNatFromInvestedNat(investedNat: int, retractFeeBips: int): int
  {
    ApplyBips(investedNat, 10000 - retractFeeBips)
  }

  // ---------------------------------------------------------------------------
  // Integer square root
  // ---------------------------------------------------------------------------

  /** `x` is the floor of the square root of `n`. */
  predicate IsFloorSqrt(n: int, x: int)
  {
    0 <= x && x * x <= n < (x + 1) * (x + 1)
  }

  /** One Newton step `((n / x) + x) >> 1` (both operands are positive here). */
  function NewtonStep(n: int, x: int): int
    requires 0 <= n && 1 <= x
  {
    (n / x + x) / 2
  }

  /** A Newton step never lands below any `s` whose square is at most `n`. */
  lemma NewtonStepAtLeast(n: int, x: int, s: int)
    requires 0 <= n && 1 <= x && 0 <= s && s * s <= n
    ensures NewtonStep(n, x) >= s
  {
    var q := n / x;
    DivBracket(n, x);
    assert (2 * s - x) * x == s * s - (s - x) * (s - x);
    SquareNonNegative(s - x);
    if q + x < 2 * s {
      MulMonotone(q + 1, 2 * s - x, x);
      assert false;
    }
  }

  /** Hence every Newton iterate is at least the floor root. */
  lemma NewtonStepAboveRoot(n: int, x: int)
    requires 0 <= n && 1 <= x
    ensures n < (NewtonStep(n, x) + 1) * (NewtonStep(n, x) + 1)
  {
    var x1 := NewtonStep(n, x);
    if (x1 + 1) * (x1 + 1) <= n {
      NewtonStepAtLeast(n, x, x1 + 1);
      assert false;
    }
  }

  /** Above the root, a Newton step strictly decreases. */
  lemma NewtonStepBelow(n: int, x: int)
    requires 0 <= n && 1 <= x && n < x * x
    ensures NewtonStep(n, x) < x
  {
    DivAtMost(x - 1, n, x);
  }

  /** At the root, a Newton step stays at the root or moves one above it. */
  lemma NewtonStepAtRoot(n: int, x: int)
    requires 1 <= x && IsFloorSqrt(n, x)
    ensures NewtonStep(n, x) <= x + 1
  {
    assert (x + 3) * x == (x + 1) * (x + 1) + x - 1;
    DivAtMost(x + 2, n, x);
  }

  function NewtonMeasure(n: int, x: int): nat
    requires 1 <= x <= n
  {
    if (x + 1) * (x + 1) <= n then 2 * n + 2 - x else x
  }

  /** When the iteration stops at `x0`, `x0` does not overshoot the root. */
  lemma NewtonStop(n: int, x0: int)
    requires 2 <= n && 1 <= x0 <= n
    requires NewtonStep(n, x0) == x0 || NewtonStep(n, x0) == x0 + 1
    ensures x0 * x0 <= n
  {
    if n < x0 * x0 {
      NewtonStepBelow(n, x0);
      assert false;
    }
  }

  /** When the iteration goes on, the next iterate is in range, at least the floor root, and the measure drops. */
  lemma NewtonProgress(n: int, x0: int)
    requires 2 <= n && 1 <= x0 <= n
    requires NewtonStep(n, x0) != x0 && NewtonStep(n, x0) != x0 + 1
    ensures 1 <= NewtonStep(n, x0) <= n
    ensures n < (NewtonStep(n, x0) + 1) * (NewtonStep(n, x0) + 1)
    ensures NewtonMeasure(n, NewtonStep(n, x0)) < NewtonMeasure(n, x0)
  {
    var x1 := NewtonStep(n, x0);
    NewtonStepAtLeast(n, x0, 1);
    NewtonStepAboveRoot(n, x0);
    DivBracket(n, x0);
    MulMonotone(1, x0, n / x0);
    assert n / x0 <= n;
    assert x1 <= n;
    assert NewtonMeasure(n, x1) == x1;
    if n < (x0 + 1) * (x0 + 1) {
      if n < x0 * x0 {
        NewtonStepBelow(n, x0);
      } else {
        NewtonStepAtRoot(n, x0);
        NewtonStepAtLeast(n, x0, x0);
        assert false;
      }
    }
  }

  /**
   * `newtonIteration(n, x0)` of `sqrt`. It stops when the next iterate equals
   * `x0` or exceeds it by one. Its result never overshoots the root, and it is
   * the floor root whenever `x0` itself is at least the floor root.
   */
  function NewtonIteration(n: int, x0: int): (r: int)
    requires 2 <= n && 1 <= x0 <= n
    ensures 1 <= r && r * r <= n
    ensures n < (x0 + 1) * (x0 + 1) ==> IsFloorSqrt(n, r)
    decreases NewtonMeasure(n, x0)
  {
    var x1 := NewtonStep(n, x0);
    if x0 == x1 || x0 == x1 - 1 then
      NewtonStop(n, x0);
      x0
    else
      NewtonProgress(n, x0);
      NewtonIteration(n, x1)
  }

  /** `sqrt` as written: Newton's iteration started at 1. */
  function Sqrt(value: int): (r: Computed<int>)
    ensures r.Throws? <==> value < 0
    ensures r.Throws? ==> r.error == SqrtError
    ensures r.Ok? ==> 0 <= r.value && r.value * r.value <= value
  {
    if value < 0 then Throws(SqrtError)
    else if value < 2 then Ok(value)
    else Ok(NewtonIteration(value, 1))
  }

  /** `sqrt` returns the floor root for every non-negative input except 4. */
  lemma SqrtFloorExceptFour(value: int)
    requires 0 <= value && value != 4
    ensures Sqrt(value).Ok? && IsFloorSqrt(value, Sqrt(value).value)
  {
    if value >= 5 {
      var x1 := NewtonStep(value, 1);
      assert x1 >= 3;
      NewtonStepAboveRoot(value, 1);
      assert NewtonIteration(value, 1) == NewtonIteration(value, x1);
    } else if value >= 2 {
      assert NewtonIteration(value, 1) == 1;
    }
  }

  /** The early exit `x0 === x1 - 1` fires on the first step for 4: x1 = 2, so `sqrt(4)` is 1. */
  lemma SqrtOfFourIsOne()
    ensures Sqrt(4) == Ok(1)
    ensures !IsFloorSqrt(4, Sqrt(4).value)
  {
    assert NewtonStep(4, 1) == 2;
  }

  /**
   * The corrected root: the same iteration started at `value`, which is at
   * least the floor root, so both early exits are only taken at the root.
   */
  function FloorSqrt(value: int): (r: Computed<int>)
    ensures r.Throws? <==> value < 0
    ensures r.Throws? ==> r.error == SqrtError
    ensures r.Ok? ==> IsFloorSqrt(value, r.value)
  {
    if value < 0 then Throws(SqrtError)
    else if value < 2 then Ok(value)
    else
      assert value < (value + 1) * (value + 1);
      Ok(NewtonIteration(value, value))
  }

  /** The radicand of `investmentFromKucoClaim`. */
  function ClaimRadicand(reserveKuco: int, reserveNat: int, amountKuco: int, rewardRatioBips: int): int
  {
    ApplyBips(
      reserveKuco * reserveNat * reserveNat * (ApplyBips(reserveKuco, rewardRatioBips) - 4 * amountKuco),
      rewardRatioBips)
  }

  /**
   * `investmentFromKucoClaim`: the NAT investment whose claim would be
   * `amountKuco`, the positive root of a quadratic, taken with `sqrt` as
   * written (`ClaimRootIsFloor`: for non-negative reserves and ratio and a
   * positive claim, its flaw at 4 does not reach here).
   */
  function InvestmentFromKucoClaim(reserveKuco: int, reserveNat: int, amountKuco: int, rewardRatioBips: int): Computed<int>
  {
    var a := 2 * reserveNat * amountKuco;
    var b := ApplyBips(reserveKuco * reserveNat, rewardRatioBips);
    match Sqrt(ClaimRadicand(reserveKuco, reserveNat, amountKuco, rewardRatioBips))
    case Throws(e) => Throws(e)
    case Ok(c) => BigDiv(b - a + c, 2 * amountKuco)
  }

  // ---------------------------------------------------------------------------
  // Properties
  // ---------------------------------------------------------------------------

  lemma MulMonotone(a: int, b: int, c: int)
    requires a <= b && 0 <= c
    ensures a * c <= b * c
  {
  }

  lemma MulNonNegative(a: int, b: int)
    requires 0 <= a && 0 <= b
    ensures 0 <= a * b
  {
  }

  lemma MulPositive(a: int, b: int)
    requires 0 < a && 0 < b
    ensures 0 < a * b
  {
  }

  lemma SquareNonNegative(a: int)
    ensures 0 <= a * a
  {
    if a < 0 {
      MulPositive(-a, -a);
    }
  }

  /** Non-negative division: the quotient brackets the dividend. */
  lemma DivBracket(x: int, d: int)
    requires 0 <= x && 0 < d
    ensures 0 <= x / d && (x / d) * d <= x < (x / d) * d + d
  {
  }

  /** A `q` with `q * d <= x` is at most the quotient. */
  lemma DivAtLeast(q: int, x: int, d: int)
    requires 0 <= x && 0 < d && q * d <= x
    ensures q <= x / d
  {
    DivBracket(x, d);
    if q > x / d {
      MulMonotone(x / d + 1, q, d);
      assert false;
    }
  }

  /** A `q` with `x < (q + 1) * d` is at least the quotient. */
  lemma DivAtMost(q: int, x: int, d: int)
    requires 0 <= x && 0 < d && x < (q + 1) * d
    ensures x / d <= q
  {
    DivBracket(x, d);
    if x / d > q {
      MulMonotone(q + 1, x / d, d);
      assert false;
    }
  }

  /** On non-negative operands bigint division is Euclidean division. */
  lemma TruncDivNonNegative(x: int, d: int)
    requires 0 <= x && 0 < d
    ensures TruncDiv(x, d) == x / d
  {
  }

  /** Bigint division by a positive divisor is monotone in the dividend. */
  lemma TruncDivMonotone(x: int, y: int, d: int)
    requires x <= y && 0 < d
    ensures TruncDiv(x, d) <= TruncDiv(y, d)
  {
    if 0 <= x {
      DivMonotone(x, y, d);
    } else if y < 0 {
      DivMonotone(-y, -x, d);
    }
  }

  lemma DivMonotone(x: int, y: int, d: int)
    requires 0 <= x <= y && 0 < d
    ensures x / d <= y / d
  {
    DivBracket(x, d);
    DivAtLeast(x / d, y, d);
  }

  lemma Regroup(q: int, a: int, b: int)
    ensures (q * b) * a == q * (a * b)
    ensures (q * b + b) * a == (q + 1) * (a * b)
  {
  }

  lemma AddOneMul(x: int, a: int)
    ensures (x + 1) * a == x * a + a
  {
  }

  /** Nested floors collapse: `(x / a) / b == x / (a * b)`. */
  lemma NestedDiv(x: int, a: int, b: int)
    requires 0 <= x && 0 < a && 0 < b
    ensures (x / a) / b == x / (a * b)
  {
    var q1 := x / a;
    DivBracket(x, a);
    var q := q1 / b;
    DivBracket(q1, b);
    // q * (a * b) == (q * b) * a <= q1 * a <= x
    MulMonotone(q * b, q1, a);
    // x < q1 * a + a == (q1 + 1) * a <= (q * b + b) * a == (q + 1) * (a * b)
    MulMonotone(q1 + 1, q * b + b, a);
    Regroup(q, a, b);
    AddOneMul(q1, a);
    MulPositive(a, b);
    DivAtLeast(q, x, a * b);
    DivAtMost(q, x, a * b);
  }

  /** With a positive `reserveB` the deposit never exceeds the desired amounts and uses one of them fully. */
  lemma OptimalAddedLiquidityBounded(addedA: int, addedB: int, reserveA: int, reserveB: int)
    requires 0 <= addedA && 0 <= addedB && 0 <= reserveA && 0 < reserveB
    ensures OptimalAddedLiquidity(addedA, addedB, reserveA, reserveB).Ok?
    ensures var (usedA, usedB) := OptimalAddedLiquidity(addedA, addedB, reserveA, reserveB).value;
      && 0 <= usedA <= addedA && 0 <= usedB <= addedB
      && (usedA == addedA || usedB == addedB)
  {
    if reserveA == 0 {
      assert addedB * reserveA == 0;
    } else {
      MulNonNegative(addedB, reserveA);
      TruncDivNonNegative(addedB * reserveA, reserveB);
      if TruncDiv(addedB * reserveA, reserveB) > addedA {
        ScaledSideBounded(addedA, addedB, reserveA, reserveB);
      }
    }
  }

  /** When the first branch overshoots `addedA`, the scaled `addedB` side stays below `addedB`. */
  lemma ScaledSideBounded(addedA: int, addedB: int, reserveA: int, reserveB: int)
    requires 0 <= addedA && 0 <= addedB && 0 < reserveA && 0 < reserveB
    requires addedA < (addedB * reserveA) / reserveB
    ensures 0 <= TruncDiv(addedA * reserveB, reserveA) < addedB
  {
    var exactAddedA := (addedB * reserveA) / reserveB;
    MulNonNegative(addedB, reserveA);
    DivBracket(addedB * reserveA, reserveB);
    MulNonNegative(addedA, reserveB);
    // (addedA + 1) * reserveB <= exactAddedA * reserveB <= addedB * reserveA
    MulMonotone(addedA + 1, exactAddedA, reserveB);
    TruncDivNonNegative(addedA * reserveB, reserveA);
    DivAtMost(addedB - 1, addedA * reserveB, reserveA);
  }

  /** The deposit keeps the reserve ratio up to one floor step of the side that was scaled. */
  lemma OptimalAddedLiquidityRatio(addedA: int, addedB: int, reserveA: int, reserveB: int)
    requires 0 <= addedA && 0 <= addedB && 0 <= reserveA && 0 < reserveB
    ensures OptimalAddedLiquidity(addedA, addedB, reserveA, reserveB).Ok?
    ensures var (usedA, usedB) := OptimalAddedLiquidity(addedA, addedB, reserveA, reserveB).value;
      || (usedB == addedB && usedA * reserveB <= usedB * reserveA < usedA * reserveB + reserveB)
      || (usedA == addedA && usedB * reserveA <= usedA * reserveB < usedB * reserveA + reserveA)
  {
    if reserveA == 0 {
      assert addedB * reserveA == 0;
      return;
    }
    MulNonNegative(addedB, reserveA);
    TruncDivNonNegative(addedB * reserveA, reserveB);
    DivBracket(addedB * reserveA, reserveB);
    if addedB * reserveA / reserveB > addedA {
      MulNonNegative(addedA, reserveB);
      TruncDivNonNegative(addedA * reserveB, reserveA);
      DivBracket(addedA * reserveB, reserveA);
    }
  }

  /** With non-negative arguments the deposit throws exactly when `reserveB` is zero. */
  lemma OptimalAddedLiquidityThrows(addedA: int, addedB: int, reserveA: int, reserveB: int)
    requires 0 <= addedA && 0 <= addedB && 0 <= reserveA && 0 <= reserveB
    ensures OptimalAddedLiquidity(addedA, addedB, reserveA, reserveB).Throws? <==> reserveB == 0
  {
    if reserveB != 0 && reserveA == 0 {
      assert addedB * reserveA == 0;
    }
  }

  /** On non-negative arguments the quote is the floored closed form and never exceeds the output reserve. */
  lemma SwapOutputClosedForm(reserveA: int, reserveB: int, amountA: int)
    requires 0 <= reserveA && 0 <= reserveB && 0 <= amountA && (0 < reserveA || 0 < amountA)
    ensures SwapOutput(reserveA, reserveB, amountA)
      == Ok((997 * amountA * reserveB) / (1000 * reserveA + 997 * amountA))
    ensures 0 <= SwapOutput(reserveA, reserveB, amountA).value <= reserveB
  {
    var n := 997 * amountA * reserveB;
    var d := 1000 * reserveA + 997 * amountA;
    MulNonNegative(997 * amountA, reserveB);
    MulNonNegative(1000 * reserveA, reserveB);
    assert (reserveB + 1) * d == 1000 * reserveA * reserveB + n + d;
    TruncDivNonNegative(n, d);
    DivBracket(n, d);
    DivAtMost(reserveB, n, d);
  }

  /** A zero input quotes a zero output, and the only exception is an empty pool with a zero input. */
  lemma SwapOutputZero(reserveA: int, reserveB: int)
    requires 0 <= reserveA && 0 <= reserveB
    ensures SwapOutput(reserveA, reserveB, 0) == if reserveA == 0 then Throws(RangeError) else Ok(0)
  {
  }

  lemma SwapGrowth(q: int, d: int, k: int, amount: int, reserveB: int)
    ensures q * (d + 997 * k) == q * d + 997 * (q * k)
    ensures 997 * (amount + k) * reserveB == 997 * amount * reserveB + 997 * (reserveB * k)
  {
  }

  /** The quote is non-decreasing in the input amount. */
  lemma SwapOutputMonotone(reserveA: int, reserveB: int, amount1: int, amount2: int)
    requires 0 < reserveA && 0 <= reserveB && 0 <= amount1 <= amount2
    ensures SwapOutput(reserveA, reserveB, amount1).Ok? && SwapOutput(reserveA, reserveB, amount2).Ok?
    ensures SwapOutput(reserveA, reserveB, amount1).value <= SwapOutput(reserveA, reserveB, amount2).value
  {
    SwapOutputClosedForm(reserveA, reserveB, amount1);
    SwapOutputClosedForm(reserveA, reserveB, amount2);
    var n1, d1 := 997 * amount1 * reserveB, 1000 * reserveA + 997 * amount1;
    var n2, d2 := 997 * amount2 * reserveB, 1000 * reserveA + 997 * amount2;
    var q1 := n1 / d1;
    DivBracket(n1, d1);
    // q1 * d2 = q1 * d1 + 997 * q1 * (amount2 - amount1) <= n1 + 997 * reserveB * (amount2 - amount1) = n2
    var k := amount2 - amount1;
    assert d2 == d1 + 997 * k;
    SwapGrowth(q1, d1, k, amount1, reserveB);
    MulMonotone(q1, reserveB, k);
    MulNonNegative(997 * amount2, reserveB);
    DivAtLeast(q1, n2, d2);
  }

  /** The ring identities behind the swap bounds, with `d = 1000 * reserveA + 997 * amountA`. */
  lemma SwapIdentities(out: int, reserveA: int, reserveB: int, amountA: int)
    ensures 997 * amountA * reserveB == 997 * (amountA * reserveB)
    ensures reserveB * (1000 * reserveA + 997 * amountA) == 1000 * (reserveA * reserveB) + 997 * amountA * reserveB
    ensures out * (1000 * reserveA + 997 * amountA) == 1000 * (out * reserveA) + 997 * (out * amountA)
    ensures 1000 * (out * (reserveA + amountA)) == out * (1000 * reserveA + 997 * amountA) + 3 * (out * amountA)
    ensures (reserveA + amountA) * (reserveB - out) == reserveA * reserveB + amountA * reserveB - out * (reserveA + amountA)
    ensures out * amountA == amountA * out
  {
  }

  /** A funded pool is never drained by a swap, and the fee makes the output strictly worse than the spot price. */
  lemma SwapOutputBelowReserve(reserveA: int, reserveB: int, amountA: int)
    requires 0 < reserveA && 0 < reserveB && 0 <= amountA
    ensures SwapOutput(reserveA, reserveB, amountA).Ok?
    ensures SwapOutput(reserveA, reserveB, amountA).value < reserveB
    ensures 0 < amountA ==> SwapOutput(reserveA, reserveB, amountA).value * reserveA < amountA * reserveB
  {
    SwapOutputClosedForm(reserveA, reserveB, amountA);
    var n := 997 * amountA * reserveB;
    var d := 1000 * reserveA + 997 * amountA;
    var out := n / d;
    DivBracket(n, d);
    MulPositive(reserveA, reserveB);
    SwapIdentities(out, reserveA, reserveB, amountA);
    DivAtMost(reserveB - 1, n, d);
    if 0 < amountA {
      MulPositive(amountA, reserveB);
      MulNonNegative(out, amountA);
      assert 1000 * (out * reserveA) <= 997 * (amountA * reserveB);
    }
  }

  /** Constant-product invariant: a swap never lowers `reserveA * reserveB`. */
  lemma SwapKeepsConstantProduct(reserveA: int, reserveB: int, amountA: int)
    requires 0 < reserveA && 0 <= reserveB && 0 <= amountA
    ensures SwapOutput(reserveA, reserveB, amountA).Ok?
    ensures (reserveA + amountA) * (reserveB - SwapOutput(reserveA, reserveB, amountA).value) >= reserveA * reserveB
  {
    SwapOutputClosedForm(reserveA, reserveB, amountA);
    var n := 997 * amountA * reserveB;
    var d := 1000 * reserveA + 997 * amountA;
    var out := n / d;
    DivBracket(n, d);
    // 1000 * out * (reserveA + amountA) = out * d + 3 * amountA * out <= n + 3 * amountA * reserveB
    SwapIdentities(out, reserveA, reserveB, amountA);
    MulMonotone(out, reserveB, amountA);
    assert out * (reserveA + amountA) <= amountA * reserveB;
  }

  /** The buy quote the KucoCoin test checks against a 100 NAT / 100,000,000 KUCO pool. */
  lemma SwapOutputExample()
    ensures SwapOutput(100, 100_000_000, 100) == Ok(49_924_887)
  {
  }

  /** The nested floors collapse to a single division. */
  lemma RewardCollapses(investedNat: int, reserveKuco: int, reserveNat: int, investmentReturnBips: int)
    requires 0 <= investedNat && 0 <= reserveKuco && 0 < reserveNat && 0 <= investmentReturnBips
    ensures RewardKucoFromInvestedNat(investedNat, reserveKuco, reserveNat, investmentReturnBips)
      == Ok(investedNat * reserveKuco * investmentReturnBips / (10000 * reserveNat))
  {
    var x := investedNat * reserveKuco;
    assert 0 <= x;
    assert x * investmentReturnBips >= 0;
    TruncDivNonNegative(x * investmentReturnBips, 10000);
    assert 0 <= (x * investmentReturnBips) / 10000;
    TruncDivNonNegative((x * investmentReturnBips) / 10000, reserveNat);
    NestedDiv(x * investmentReturnBips, 10000, reserveNat);
  }

  /** The reward throws exactly when the NAT reserve is zero. */
  lemma RewardThrows(investedNat: int, reserveKuco: int, reserveNat: int, investmentReturnBips: int)
    ensures RewardKucoFromInvestedNat(investedNat, reserveKuco, reserveNat, investmentReturnBips).Throws? <==> reserveNat == 0
  {
  }

  /** The reward the KucoCoin tests expect for a 100 NAT investment at a 110% return. */
  lemma RewardExample()
    ensures RewardKucoFromInvestedNat(100, 100_000_000, 100, 11000) == Ok(110_000_000)
  {
    RewardCollapses(100, 100_000_000, 100, 11000);
  }

  /** `applyBips(v, 10000)` is the identity. */
  lemma ApplyBipsFull(value: int)
    ensures ApplyBips(value, 10000) == value
  {
    if value < 0 {
      assert (-(value * 10000)) / 10000 == -value;
    }
  }

  /** `applyBips` is monotone in the value for a non-negative ratio. */
  lemma ApplyBipsMonotone(v1: int, v2: int, ratio: int)
    requires v1 <= v2 && 0 <= ratio
    ensures ApplyBips(v1, ratio) <= ApplyBips(v2, ratio)
  {
    assert v1 * ratio <= v2 * ratio;
    TruncDivMonotone(v1 * ratio, v2 * ratio, 10000);
  }

  /** A retract refund never exceeds the investment and is the whole investment without a fee. */
  lemma RetractedBounded(investedNat: int, retractFeeBips: int)
    requires 0 <= investedNat && 0 <= retractFeeBips <= 10000
    ensures 0 <= RetractedNatFromInvestedNat(investedNat, retractFeeBips) <= investedNat
    ensures retractFeeBips == 0 ==> RetractedNatFromInvestedNat(investedNat, retractFeeBips) == investedNat
  {
    var x := investedNat * (10000 - retractFeeBips);
    assert 0 <= x <= investedNat * 10000;
    TruncDivNonNegative(x, 10000);
    DivMonotone(x, investedNat * 10000, 10000);
    ApplyBipsFull(investedNat);
  }

  /** `investmentFromKucoClaim` throws exactly for a negative radicand (from `sqrt`) or a zero claim (from the division). */
  lemma InvestmentFromKucoClaimThrows(reserveKuco: int, reserveNat: int, amountKuco: int, rewardRatioBips: int)
    ensures var r := InvestmentFromKucoClaim(reserveKuco, reserveNat, amountKuco, rewardRatioBips);
      && (r.Throws? <==> ClaimRadicand(reserveKuco, reserveNat, amountKuco, rewardRatioBips) < 0 || amountKuco == 0)
      && (ClaimRadicand(reserveKuco, reserveNat, amountKuco, rewardRatioBips) < 0 ==> r == Throws(SqrtError))
  {
  }

  /** A claim of at most a quarter of the scaled KUCO reserve always has a defined investment. */
  lemma InvestmentFromKucoClaimDefined(reserveKuco: int, reserveNat: int, amountKuco: int, rewardRatioBips: int)
    requires 0 <= reserveKuco && 0 <= reserveNat && 0 < amountKuco && 0 <= rewardRatioBips
    requires 4 * amountKuco <= ApplyBips(reserveKuco, rewardRatioBips)
    ensures InvestmentFromKucoClaim(reserveKuco, reserveNat, amountKuco, rewardRatioBips).Ok?
  {
    var d := ApplyBips(reserveKuco, rewardRatioBips) - 4 * amountKuco;
    var x := reserveKuco * reserveNat * reserveNat * d;
    assert reserveKuco * reserveNat >= 0;
    assert reserveKuco * reserveNat * reserveNat >= 0;
    assert x >= 0;
    assert x * rewardRatioBips >= 0;
    TruncDivNonNegative(x * rewardRatioBips, 10000);
    InvestmentFromKucoClaimThrows(reserveKuco, reserveNat, amountKuco, rewardRatioBips);
  }

  /** There is only one floor square root. */
  lemma FloorSqrtUnique(n: int, x: int, y: int)
    requires IsFloorSqrt(n, x) && IsFloorSqrt(n, y)
    ensures x == y
  {
    if x < y {
      MulMonotone(x + 1, y, x + 1);
      MulMonotone(x + 1, y, y);
    } else if y < x {
      MulMonotone(y + 1, x, y + 1);
      MulMonotone(y + 1, x, x);
    }
  }

  /**
   * For non-negative reserves and ratio and a positive claim, the radicand
   * of `investmentFromKucoClaim` is never 1 to 4: it is at most 0, or the
   * positive factor is at least 5 scaled KUCO, and so is the radicand.
   */
  lemma ClaimRadicandAvoidsFour(reserveKuco: int, reserveNat: int, amountKuco: int, rewardRatioBips: int)
    requires 0 <= reserveKuco && 0 <= reserveNat && 0 < amountKuco && 0 <= rewardRatioBips
    ensures var x := ClaimRadicand(reserveKuco, reserveNat, amountKuco, rewardRatioBips);
      x <= 0 || 5 <= x
  {
    var d := ApplyBips(reserveKuco, rewardRatioBips) - 4 * amountKuco;
    var x := reserveKuco * reserveNat * reserveNat * d;
    if d <= 0 || reserveNat == 0 {
      ProductNonPositive(reserveKuco, reserveNat, d);
      ApplyBipsMonotone(x, 0, rewardRatioBips);
    } else {
      ProductAtLeastFirst(reserveKuco, reserveNat, d);
      ApplyBipsMonotone(reserveKuco, x, rewardRatioBips);
    }
  }

  /** `K·N·N·d` is not positive when `d` is not positive or `N` is zero. */
  lemma ProductNonPositive(k: int, n: int, d: int)
    requires 0 <= k && 0 <= n && (d <= 0 || n == 0)
    ensures k * n * n * d <= 0
  {
    MulNonNegative(k, n);
    MulNonNegative(k * n, n);
  }

  /** `K·N·N·d` is at least `K` when `N` and `d` are positive. */
  lemma ProductAtLeastFirst(k: int, n: int, d: int)
    requires 0 <= k && 1 <= n && 1 <= d
    ensures k <= k * n * n * d
  {
    MulMonotone(1, n, k);
    MulMonotone(1, n, k * n);
    MulNonNegative(k * n, n);
    MulMonotone(1, d, k * n * n);
  }

  /**
   * On non-negative reserves and ratio and a positive claim, the root
   * `investmentFromKucoClaim` takes with `sqrt` as written is the floor root:
   * the one input where `sqrt` is wrong, 4, is never its radicand.
   */
  lemma ClaimRootIsFloor(reserveKuco: int, reserveNat: int, amountKuco: int, rewardRatioBips: int)
    requires 0 <= reserveKuco && 0 <= reserveNat && 0 < amountKuco && 0 <= rewardRatioBips
    ensures Sqrt(ClaimRadicand(reserveKuco, reserveNat, amountKuco, rewardRatioBips))
         == FloorSqrt(ClaimRadicand(reserveKuco, reserveNat, amountKuco, rewardRatioBips))
  {
    var x := ClaimRadicand(reserveKuco, reserveNat, amountKuco, rewardRatioBips);
    ClaimRadicandAvoidsFour(reserveKuco, reserveNat, amountKuco, rewardRatioBips);
    if 5 <= x {
      SqrtFloorExceptFour(x);
      FloorSqrtUnique(x, Sqrt(x).value, FloorSqrt(x).value);
    }
  }

  /** Scaling by `reserveNat` before the basis points loses no more than scaling after. */
  lemma ScaledBipsBelow(reserveKuco: int, reserveNat: int, rewardRatioBips: int)
    requires 0 <= reserveKuco && 0 <= reserveNat && 0 <= rewardRatioBips
    ensures reserveNat * ApplyBips(reserveKuco, rewardRatioBips) <= ApplyBips(reserveKuco * reserveNat, rewardRatioBips)
  {
    var kb := reserveKuco * rewardRatioBips;
    var q := kb / 10000;
    MulNonNegative(reserveKuco, rewardRatioBips);
    DivBracket(kb, 10000);
    MulMonotone(q * 10000, kb, reserveNat);
    Regroup3(reserveKuco, reserveNat, rewardRatioBips);
    MulNonNegative(kb, reserveNat);
    DivAtLeast(reserveNat * q, kb * reserveNat, 10000);
  }

  /** `(K·N)·bips` and `(K·bips)·N` are one product. */
  lemma Regroup3(k: int, n: int, b: int)
    ensures k * n * b == k * b * n
  {
  }

  /**
   * A positive claim of at most a quarter of the scaled KUCO reserve needs a
   * non-negative investment: `b` already covers `a`, and the root is not negative.
   */
  lemma InvestmentFromKucoClaimNonNegative(reserveKuco: int, reserveNat: int, amountKuco: int, rewardRatioBips: int)
    requires 0 <= reserveKuco && 0 <= reserveNat && 0 < amountKuco && 0 <= rewardRatioBips
    requires 4 * amountKuco <= ApplyBips(reserveKuco, rewardRatioBips)
    ensures InvestmentFromKucoClaim(reserveKuco, reserveNat, amountKuco, rewardRatioBips).Ok?
    ensures 0 <= InvestmentFromKucoClaim(reserveKuco, reserveNat, amountKuco, rewardRatioBips).value
  {
    InvestmentFromKucoClaimDefined(reserveKuco, reserveNat, amountKuco, rewardRatioBips);
    var b := ApplyBips(reserveKuco * reserveNat, rewardRatioBips);
    var a := 2 * reserveNat * amountKuco;
    ScaledBipsBelow(reserveKuco, reserveNat, rewardRatioBips);
    LinearTermCovered(reserveNat, amountKuco, ApplyBips(reserveKuco, rewardRatioBips));
    var root := Sqrt(ClaimRadicand(reserveKuco, reserveNat, amountKuco, rewardRatioBips));
    assert InvestmentFromKucoClaim(reserveKuco, reserveNat, amountKuco, rewardRatioBips) == BigDiv(b - a + root.value, 2 * amountKuco);
    TruncDivNonNegative(b - a + root.value, 2 * amountKuco);
  }

  /** `2·N·amount` is at most `N·q` when `4·amount <= q`. */
  lemma LinearTermCovered(reserveNat: int, amountKuco: int, q: int)
    requires 0 <= reserveNat && 0 < amountKuco && 4 * amountKuco <= q
    ensures 2 * reserveNat * amountKuco <= reserveNat * q
  {
    MulMonotone(4 * amountKuco, q, reserveNat);
  }
}
