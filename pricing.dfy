/** The pricing formulas of the AMM program, each written as the program
    evaluates it (fixed-point `I64F64` steps and checked `u64` steps, a failed
    step being a panic) and each proved equal to a closed integer formula,
    together with the bounds the formulas promise. */
module Pricing {
  import opened Types
  import opened FixedPoint

  /* ---------------- clamping ---------------- */

  /** A requested amount above the holder's balance is cut down to the balance. */
  function Clamp(requested: u64, balance: u64): (r: u64)
    ensures r <= requested && r <= balance
    ensures r == requested || r == balance
  {
    if requested > balance then balance else requested
  }

  /** Clamping is the minimum: clamping again, or clamping a request already
      within the balance, changes nothing. */
  lemma ClampIdempotent(requested: u64, balance: u64)
    ensures Clamp(Clamp(requested, balance), balance) == Clamp(requested, balance)
    ensures requested <= balance ==> Clamp(requested, balance) == requested
  {
  }

  /* ---------------- deposit ---------------- */

  /** When the rebalancing of a non-first deposit stays within range. */
  predicate RebalanceFits(reserveA: nat, reserveB: nat, amountA: nat, amountB: nat) {
    && reserveA < INT_LIMIT && reserveB < INT_LIMIT
    && reserveA * reserveB < INT_LIMIT
    && if reserveA > reserveB
       then amountB < INT_LIMIT && amountB * (reserveA * reserveB) < INT_LIMIT
       else amountA < INT_LIMIT && reserveA * reserveB > 0
  }

  /** The amounts a later deposit accepts from `a` and `b`, in integers, as
      written: the ratio is the product of the reserves, not their quotient.
      With more A than B in the pool the amount of B is kept and A becomes
      `b * (reserveA * reserveB)`; otherwise A is kept and B becomes
      `a / (reserveA * reserveB)`. */
  function AsWrittenAmounts(reserveA: nat, reserveB: nat, a: nat, b: nat): (nat, nat) {
    if reserveA > reserveB then (b * (reserveA * reserveB), b)
    else if reserveA * reserveB == 0 then (a, 0)
    else (a, a / (reserveA * reserveB))
  }

  /** The rebalancing of a non-first deposit as written, in 64.64 fixed
      point: it computes the integer amounts `AsWrittenAmounts`, and it
      panics when a step overflows or `ratio` is zero in the division
      branch. */
  function Rebalance(reserveA: u64, reserveB: u64, amountA: u64, amountB: u64): (r: Option<(u64, u64)>)
    ensures r.Some? <==> RebalanceFits(reserveA, reserveB, amountA, amountB)
    ensures r.Some? ==> r.value == AsWrittenAmounts(reserveA, reserveB, amountA, amountB)
  {
    var fa :- FromNum(reserveA);
    var fb :- FromNum(reserveB);
    MulWhole(reserveA, reserveB);
    var ratio :- CheckedMul(fa, fb);
    if reserveA > reserveB then
      var x :- FromNum(amountB);
      MulWhole(amountB, reserveA * reserveB);
      var p :- CheckedMul(x, ratio);
      MulDiv(amountB * (reserveA * reserveB), ONE);
      Some((ToNum(p), amountB))
    else
      var x :- FromNum(amountA);
      if reserveA * reserveB == 0 then None
      else
        DivWhole(amountA, reserveA * reserveB);
        DivAtMost(amountA, reserveA * reserveB);
        var q := CheckedDiv(x, ratio).value;
        Some((amountA, ToNum(q)))
  }

  /** When the liquidity computation stays within range. */
  predicate LiquidityFits(amountA: nat, amountB: nat) {
    amountA < INT_LIMIT && amountB < INT_LIMIT && amountA * amountB < INT_LIMIT
  }

  /** The LP amount of a deposit, the fixed-point square root of the product
      of the two amounts, truncated: it is the integer square root of the
      product, so its square never exceeds the product. */
  function Liquidity(amountA: u64, amountB: u64): (r: Option<u64>)
    ensures r.Some? <==> LiquidityFits(amountA, amountB)
    ensures r.Some? ==> r.value == Isqrt(amountA * amountB)
  {
    var fa :- FromNum(amountA);
    var fb :- FromNum(amountB);
    MulWhole(amountA, amountB);
    var p :- CheckedMul(fa, fb);
    SqrtWhole(amountA * amountB);
    IsqrtAtMost(amountA * amountB);
    Some(ToNum(Sqrt(p)))
  }

  /* ---------------- withdraw ---------------- */

  /** When a withdrawal payout stays within range. */
  predicate PayoutFits(amount: nat, reserve: nat, supply: nat) {
    amount < INT_LIMIT && reserve < INT_LIMIT && amount * reserve < INT_LIMIT
    && supply + MINIMUM_LIQUIDITY < INT_LIMIT
  }

  /** The payout of one leg of a withdrawal, as written for token A: `amount`
      LP units are worth `amount * reserve / (supply + 100)` of a reserve, the
      100 withheld units counting in the denominator. */
  function WithdrawPayout(amount: u64, reserve: u64, supply: u64): (r: Option<u64>)
    ensures r.Some? <==> PayoutFits(amount, reserve, supply)
    ensures r.Some? ==> r.value == amount * reserve / (supply + MINIMUM_LIQUIDITY)
  {
    var fa :- FromNum(amount);
    var fr :- FromNum(reserve);
    MulWhole(amount, reserve);
    var p :- CheckedMul(fa, fr);
    var den :- AddU64(supply, MINIMUM_LIQUIDITY);
    var fd :- FromNum(den);
    WholeInRange(amount * reserve);
    DivWhole(amount * reserve, den);
    var q := CheckedDiv(p, fd).value;
    DivAtMost(amount * reserve, den);
    Some(ToNum(Floor(q)))
  }

  /** When the as-written payout of token B stays within range. */
  predicate PayoutBFits(amount: nat, reserveB: nat, supply: nat) {
    amount < INT_LIMIT && 0 < reserveB < INT_LIMIT && supply + MINIMUM_LIQUIDITY < INT_LIMIT
  }

  /** The payout of token B as written: the amount is DIVIDED by the
      reserve, then by `supply + 100`; it panics on an empty reserve. */
  function WithdrawPayoutB(amount: u64, reserveB: u64, supply: u64): (r: Option<u64>)
    ensures r.Some? <==> PayoutBFits(amount, reserveB, supply)
    ensures r.Some? ==> r.value == amount / (reserveB * (supply + MINIMUM_LIQUIDITY))
  {
    var fa :- FromNum(amount);
    var fr :- FromNum(reserveB);
    if reserveB == 0 then None
    else
      WholeInRange(amount);
      DivByWhole(Fixed(amount * ONE), reserveB);
      var q1 := CheckedDiv(fa, fr).value;
      var den :- AddU64(supply, MINIMUM_LIQUIDITY);
      var fd :- FromNum(den);
      DivAtMost(amount * ONE, reserveB);
      DivByWhole(q1, den);
      var q2 := CheckedDiv(q1, fd).value;
      PayoutBExact(amount, reserveB, den);
      Some(ToNum(Floor(q2)))
  }

  lemma PayoutBExact(amount: nat, reserveB: nat, den: nat)
    requires reserveB > 0 && den > 0
    ensures (amount * ONE / reserveB / den) / ONE == amount / (reserveB * den)
  {
    DivDiv(amount * ONE, reserveB, den);
    DivDiv(amount * ONE, reserveB * den, ONE);
    DivCancel(amount, reserveB * den, ONE);
  }

  /** A payout is the floor of the holder's share of the reserve, and when
      the LP units burnt are at most the supply it is below a positive
      reserve: the 100 withheld units are never paid out. */
  lemma PayoutShare(amount: nat, reserve: nat, supply: nat)
    ensures var den := supply + MINIMUM_LIQUIDITY;
            var p := amount * reserve / den;
            p * den <= amount * reserve < (p + 1) * den
    ensures amount <= supply && reserve > 0 ==>
              amount * reserve / (supply + MINIMUM_LIQUIDITY) < reserve
  {
    var den := supply + MINIMUM_LIQUIDITY;
    var p := amount * reserve / den;
    FloorBracket(amount * reserve, den, p);
    if amount <= supply && reserve > 0 {
      MulRight(amount, den, reserve);
      assert amount * reserve < den * reserve by {
        MulLeftStrict(reserve, amount, den);
      }
      if p >= reserve {
        MulRight(reserve, p, den);
      }
    }
  }

  /* ---------------- swap ---------------- */

  /** When the fee computation stays within `u64`. */
  predicate TaxFits(input: nat, fee: nat) {
    input * fee < U64_LIMIT && input * fee / FEE_DENOMINATOR <= input
  }

  /** The input left after the fee: `input - input * fee / 10000` in `u64`
      arithmetic, which panics when the product overflows or the fee
      exceeds the input. */
  function TaxedInput(input: u64, fee: u16): (r: Option<u64>)
    ensures r.Some? <==> TaxFits(input, fee)
    ensures r.Some? ==> r.value + input * fee / FEE_DENOMINATOR == input
  {
    var charged :- MulU64(input, fee);
    if charged / FEE_DENOMINATOR > input then None
    else Some(input - charged / FEE_DENOMINATOR)
  }

  /** For a fee below 100%: the fee is taken off the top, leaving at most the
      input and at least its `(10000 - fee) / 10000` share, rounded in the
      trader's favour; with no fee nothing is taken; and only an overflowing
      product can make it panic. */
  lemma TaxedInputBounds(input: u64, fee: u16)
    requires fee < FEE_DENOMINATOR
    ensures TaxedInput(input, fee).Some? <==> input * fee < U64_LIMIT
    ensures TaxedInput(input, fee).Some? ==>
              var t := TaxedInput(input, fee).value;
              && t <= input
              && t * FEE_DENOMINATOR >= input * (FEE_DENOMINATOR - fee)
              && (fee == 0 ==> t == input)
  {
    var cut := input * fee / FEE_DENOMINATOR;
    assert input * fee == cut * FEE_DENOMINATOR + (input * fee) % FEE_DENOMINATOR;
    assert cut <= input by {
      if cut > input {
        MulRight(input + 1, cut, FEE_DENOMINATOR);
        MulLeft(input, fee, FEE_DENOMINATOR);
      }
    }
    if TaxedInput(input, fee).Some? {
      var t := TaxedInput(input, fee).value;
      assert t == input - cut;
      assert t * FEE_DENOMINATOR == input * FEE_DENOMINATOR - cut * FEE_DENOMINATOR;
      assert input * (FEE_DENOMINATOR - fee) == input * FEE_DENOMINATOR - input * fee;
    }
  }

  /** When the swap pricing stays within range. */
  predicate OutputFits(taxed: nat, reserveIn: nat, reserveOut: nat) {
    && taxed < INT_LIMIT && reserveIn < INT_LIMIT && reserveOut < INT_LIMIT
    && taxed * reserveOut < INT_LIMIT
    && reserveIn + taxed < INT_LIMIT
    && reserveIn + taxed > 0
  }

  /** The output of a swap on the constant-product curve, from the taxed
      input and the reserves of the token paid in and the token paid out. */
  function SwapOutput(taxed: u64, reserveIn: u64, reserveOut: u64): (r: Option<u64>)
    ensures r.Some? <==> OutputFits(taxed, reserveIn, reserveOut)
    ensures r.Some? ==> r.value == taxed * reserveOut / (reserveIn + taxed)
  {
    var ft :- FromNum(taxed);
    var fo :- FromNum(reserveOut);
    MulWhole(taxed, reserveOut);
    var p :- CheckedMul(ft, fo);
    var fi :- FromNum(reserveIn);
    AddWhole(reserveIn, taxed);
    var d :- CheckedAdd(fi, ft);
    if reserveIn + taxed == 0 then None
    else
      DivWhole(taxed * reserveOut, reserveIn + taxed);
      DivAtMost(taxed * reserveOut, reserveIn + taxed);
      var q := CheckedDiv(p, d).value;
      Some(ToNum(q))
  }

  /** The curve: the output never exceeds the reserve paid out, and paying in
      at least the taxed input while paying out the output never lowers the
      product of the reserves. */
  lemma ConstantProduct(taxed: nat, paidIn: nat, reserveIn: nat, reserveOut: nat)
    requires reserveIn + taxed > 0 && taxed <= paidIn
    ensures var out := taxed * reserveOut / (reserveIn + taxed);
            && out <= reserveOut
            && (reserveIn + paidIn) * (reserveOut - out) >= reserveIn * reserveOut
  {
    var d := reserveIn + taxed;
    var out := taxed * reserveOut / d;
    assert out * d <= taxed * reserveOut by {
      assert taxed * reserveOut == out * d + (taxed * reserveOut) % d;
    }
    assert out <= reserveOut by {
      MulRight(taxed, d, reserveOut);
      if out > reserveOut {
        MulLeftStrict(d, reserveOut, out);
      }
    }
    assert d * (reserveOut - out) >= reserveIn * reserveOut by {
      assert d * (reserveOut - out) == d * reserveOut - out * d;
      assert d * reserveOut == reserveIn * reserveOut + taxed * reserveOut;
    }
    MulRight(d, reserveIn + paidIn, reserveOut - out);
  }
}
