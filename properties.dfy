/** What the instructions promise, stated over their specifying functions:
    clamping, the first and later deposits, the withdrawal payout, the fee,
    the curve, the slippage bound and the invariant check, and the balances
    each successful instruction moves. */
module Properties {
  import opened Types
  import opened FixedPoint
  import opened Pricing
  import opened AmmProgram
  import Token

  /** No holder other than `who` sees a balance change. */
  ghost predicate OthersUnchanged(before: map<Pubkey, u64>, after: map<Pubkey, u64>, who: Pubkey) {
    forall h :: h != who ==> Token.Balance(after, h) == Token.Balance(before, h)
  }

  /* ---------------- deposit ---------------- */

  /** A request above the depositor's balance is treated as a request for the
      whole balance: clamping first changes nothing, and a first deposit is
      never refused for want of funds. */
  lemma DepositClampsRequests(s: Balances, depositor: Pubkey, amountA: u64, amountB: u64)
    ensures var balanceA := Token.Balance(s.holdingsA, depositor);
            var balanceB := Token.Balance(s.holdingsB, depositor);
            Deposit(s, depositor, amountA, amountB)
              == Deposit(s, depositor, Clamp(amountA, balanceA), Clamp(amountB, balanceB))
    ensures s.reserveA == 0 && s.reserveB == 0 ==>
              Deposit(s, depositor, amountA, amountB) != Err(InsufficientFunds)
  {
    var balanceA := Token.Balance(s.holdingsA, depositor);
    var balanceB := Token.Balance(s.holdingsB, depositor);
    ClampIdempotent(amountA, balanceA);
    ClampIdempotent(amountB, balanceB);
  }

  /** The first deposit into an empty pool: it is refused with
      `DepositTooSmall` when the root of the product of the clamped amounts
      is below `MINIMUM_LIQUIDITY`; otherwise the depositor receives the root
      less the 100 withheld units, the LP supply grows by that much only, and
      the vaults hold exactly the clamped amounts. */
  lemma FirstDeposit(s: Balances, depositor: Pubkey, amountA: u64, amountB: u64)
    requires s.reserveA == 0 && s.reserveB == 0
    ensures var balanceA := Token.Balance(s.holdingsA, depositor);
            var balanceB := Token.Balance(s.holdingsB, depositor);
            var balanceLP := Token.Balance(s.holdingsLP, depositor);
            var a := Clamp(amountA, balanceA);
            var b := Clamp(amountB, balanceB);
            var out := Deposit(s, depositor, amountA, amountB);
            && (!LiquidityFits(a, b) ==> out == Err(Abort))
            && (LiquidityFits(a, b) && Isqrt(a * b) < MINIMUM_LIQUIDITY ==> out == Err(DepositTooSmall))
            && (LiquidityFits(a, b) && Isqrt(a * b) >= MINIMUM_LIQUIDITY ==>
                  var minted := Isqrt(a * b) - MINIMUM_LIQUIDITY;
                  && (out.Ok? <==> s.lpSupply + minted < U64_LIMIT && balanceLP + minted < U64_LIMIT)
                  && (out.Ok? ==>
                        && out.value.reserveA == a && out.value.reserveB == b
                        && out.value.lpSupply == s.lpSupply + minted
                        && Token.Balance(out.value.holdingsLP, depositor) == balanceLP + minted
                        && Token.Balance(out.value.holdingsA, depositor) == balanceA - a
                        && Token.Balance(out.value.holdingsB, depositor) == balanceB - b))
  {
  }

  /** A later deposit succeeds exactly when the rebalancing and the root of
      the product of the rebalanced amounts stay in range. */
  lemma LaterDepositQuote(reserveA: u64, reserveB: u64, balanceA: u64, balanceB: u64,
                          amountA: u64, amountB: u64)
    requires reserveA != 0 || reserveB != 0
    ensures var a := Clamp(amountA, balanceA);
            var b := Clamp(amountB, balanceB);
            var amounts := AsWrittenAmounts(reserveA, reserveB, a, b);
            var q := QuoteDeposit(reserveA, reserveB, balanceA, balanceB, amountA, amountB);
            q.Ok? <==> RebalanceFits(reserveA, reserveB, a, b) && LiquidityFits(amounts.0, amounts.1)
  {
    var a := Clamp(amountA, balanceA);
    var b := Clamp(amountB, balanceB);
    LaterDepositSteps(reserveA, reserveB, balanceA, balanceB, amountA, amountB);
    assert RebalanceFits(reserveA, reserveB, a, b) ==>
             Rebalance(reserveA, reserveB, a, b).value == AsWrittenAmounts(reserveA, reserveB, a, b);
  }

  /** A later deposit is never refused as too small: it fails only by
      aborting on an overflow or a division by zero. */
  lemma LaterDepositAborts(reserveA: u64, reserveB: u64, balanceA: u64, balanceB: u64,
                           amountA: u64, amountB: u64)
    requires reserveA != 0 || reserveB != 0
    ensures var q := QuoteDeposit(reserveA, reserveB, balanceA, balanceB, amountA, amountB);
            q.Err? ==> q.error == Abort
  {
    LaterDepositSteps(reserveA, reserveB, balanceA, balanceB, amountA, amountB);
  }

  /** A later deposit that succeeds accepts the as-written amounts. */
  lemma LaterDepositAmounts(reserveA: u64, reserveB: u64, balanceA: u64, balanceB: u64,
                            amountA: u64, amountB: u64)
    requires reserveA != 0 || reserveB != 0
    requires QuoteDeposit(reserveA, reserveB, balanceA, balanceB, amountA, amountB).Ok?
    ensures var q := QuoteDeposit(reserveA, reserveB, balanceA, balanceB, amountA, amountB).value;
            (q.amountA, q.amountB) == AsWrittenAmounts(reserveA, reserveB, Clamp(amountA, balanceA), Clamp(amountB, balanceB))
  {
    LaterDepositSteps(reserveA, reserveB, balanceA, balanceB, amountA, amountB);
  }

  /** A later deposit mints the root of the product of the accepted amounts,
      withholding nothing. */
  lemma LaterDepositMints(reserveA: u64, reserveB: u64, balanceA: u64, balanceB: u64,
                          amountA: u64, amountB: u64)
    requires reserveA != 0 || reserveB != 0
    requires QuoteDeposit(reserveA, reserveB, balanceA, balanceB, amountA, amountB).Ok?
    ensures var q := QuoteDeposit(reserveA, reserveB, balanceA, balanceB, amountA, amountB).value;
            q.liquidity == Isqrt(q.amountA * q.amountB)
  {
    LaterDepositSteps(reserveA, reserveB, balanceA, balanceB, amountA, amountB);
  }

  /** A later deposit is the rebalancing followed by the square root. */
  lemma LaterDepositSteps(reserveA: u64, reserveB: u64, balanceA: u64, balanceB: u64,
                          amountA: u64, amountB: u64)
    requires reserveA != 0 || reserveB != 0
    ensures var r := Rebalance(reserveA, reserveB, Clamp(amountA, balanceA), Clamp(amountB, balanceB));
            QuoteDeposit(reserveA, reserveB, balanceA, balanceB, amountA, amountB)
              == if r.None? then Err(Abort)
                 else if Liquidity(r.value.0, r.value.1).None? then Err(Abort)
                 else Ok(DepositQuote(r.value.0, r.value.1, Liquidity(r.value.0, r.value.1).value))
  {
  }

  /** A deposit that succeeds moves exactly what its quote says: the vaults
      grow by the accepted amounts, which leave the depositor's accounts;
      the LP supply and the depositor's LP balance grow by the units minted;
      no other holder is touched. */
  lemma DepositSettles(s: Balances, depositor: Pubkey, amountA: u64, amountB: u64)
    requires Deposit(s, depositor, amountA, amountB).Ok?
    ensures var q := QuoteDeposit(s.reserveA, s.reserveB,
                                  Token.Balance(s.holdingsA, depositor), Token.Balance(s.holdingsB, depositor),
                                  amountA, amountB);
            var t := Deposit(s, depositor, amountA, amountB).value;
            && q.Ok?
            && t.reserveA == s.reserveA + q.value.amountA
            && t.reserveB == s.reserveB + q.value.amountB
            && t.lpSupply == s.lpSupply + q.value.liquidity
            && Token.Balance(t.holdingsA, depositor) + q.value.amountA == Token.Balance(s.holdingsA, depositor)
            && Token.Balance(t.holdingsB, depositor) + q.value.amountB == Token.Balance(s.holdingsB, depositor)
            && Token.Balance(t.holdingsLP, depositor) == Token.Balance(s.holdingsLP, depositor) + q.value.liquidity
            && OthersUnchanged(s.holdingsA, t.holdingsA, depositor)
            && OthersUnchanged(s.holdingsB, t.holdingsB, depositor)
            && OthersUnchanged(s.holdingsLP, t.holdingsLP, depositor)
  {
  }

  /* ---------------- withdraw ---------------- */

  /** A withdrawal that succeeds pays `amount * reserveA / (supply + 100)` of
      A and, as written, `amount / (reserveB * (supply + 100))` of B, and
      burns exactly `amount` LP units of the holder; no other holder is
      touched. */
  lemma WithdrawSettles(s: Balances, holder: Pubkey, amount: u64)
    requires Withdraw(s, holder, amount).Ok?
    ensures var t := Withdraw(s, holder, amount).value;
            var den := s.lpSupply + MINIMUM_LIQUIDITY;
            var payA := amount * s.reserveA / den;
            var payB := amount / (s.reserveB * den);
            && s.reserveB > 0
            && t.reserveA == s.reserveA - payA
            && t.reserveB == s.reserveB - payB
            && t.lpSupply == s.lpSupply - amount
            && Token.Balance(t.holdingsA, holder) == Token.Balance(s.holdingsA, holder) + payA
            && Token.Balance(t.holdingsB, holder) == Token.Balance(s.holdingsB, holder) + payB
            && Token.Balance(t.holdingsLP, holder) + amount == Token.Balance(s.holdingsLP, holder)
            && OthersUnchanged(s.holdingsA, t.holdingsA, holder)
            && OthersUnchanged(s.holdingsB, t.holdingsB, holder)
            && OthersUnchanged(s.holdingsLP, t.holdingsLP, holder)
  {
  }

  /** Burning no more than the supply never empties a non-empty reserve of
      A: the 100 withheld units keep a floor under it. */
  lemma WithdrawKeepsReserve(s: Balances, holder: Pubkey, amount: u64)
    requires amount <= s.lpSupply && s.reserveA > 0
    requires Withdraw(s, holder, amount).Ok?
    ensures Withdraw(s, holder, amount).value.reserveA > 0
  {
    PayoutShare(amount, s.reserveA, s.lpSupply);
    WithdrawSettles(s, holder, amount);
  }

  /** Burning more LP units than the holder has fails, and the failed
      transaction is discarded. */
  lemma WithdrawNeedsShares(s: Balances, holder: Pubkey, amount: u64)
    requires amount > Token.Balance(s.holdingsLP, holder)
    ensures Withdraw(s, holder, amount).Err?
    ensures Settled(s, Withdraw(s, holder, amount)) == s
  {
  }

  /* ---------------- swap ---------------- */

  /** A swap's quote: the input is the request clamped to the trader's
      balance of the token paid in, the fee never adds to it, the output is
      the curve's price of the taxed input and never exceeds the reserve paid
      out, the output meets the slippage bound, and the recorded product is
      that of the reserves. */
  lemma SwapQuoted(fee: u16, swapA: bool, balanceA: u64, balanceB: u64,
                   reserveA: u64, reserveB: u64, inputAmount: u64, minOutputAmount: u64)
    requires QuoteSwap(fee, swapA, balanceA, balanceB, reserveA, reserveB, inputAmount, minOutputAmount).Ok?
    ensures var q := QuoteSwap(fee, swapA, balanceA, balanceB, reserveA, reserveB, inputAmount, minOutputAmount).value;
            var reserveIn := if swapA then reserveA else reserveB;
            var reserveOut := if swapA then reserveB else reserveA;
            && q.input == Clamp(inputAmount, if swapA then balanceA else balanceB)
            && q.taxed <= q.input
            && (fee == 0 ==> q.taxed == q.input)
            && reserveIn + q.taxed > 0
            && q.output == q.taxed * reserveOut / (reserveIn + q.taxed)
            && q.output <= reserveOut
            && q.output >= minOutputAmount
            && q.productBefore == reserveA * reserveB
  {
    var q := QuoteSwap(fee, swapA, balanceA, balanceB, reserveA, reserveB, inputAmount, minOutputAmount).value;
    var reserveIn := if swapA then reserveA else reserveB;
    var reserveOut := if swapA then reserveB else reserveA;
    ConstantProduct(q.taxed, q.taxed, reserveIn, reserveOut);
  }

  /** An output below the slippage bound refuses the swap with
      `OutputTooSmall`, before any transfer. */
  lemma SwapSlippage(s: Balances, fee: u16, trader: Pubkey, swapA: bool,
                     inputAmount: u64, minOutputAmount: u64)
    ensures var input := Clamp(inputAmount, Token.Balance(if swapA then s.holdingsA else s.holdingsB, trader));
            var taxed := TaxedInput(input, fee);
            var output := if taxed.None? then None
                          else if swapA then SwapOutput(taxed.value, s.reserveA, s.reserveB)
                          else SwapOutput(taxed.value, s.reserveB, s.reserveA);
            output.Some? && output.value < minOutputAmount ==>
              && Swap(s, fee, trader, swapA, inputAmount, minOutputAmount) == Err(OutputTooSmall)
              && Settled(s, Swap(s, fee, trader, swapA, inputAmount, minOutputAmount)) == s
  {
  }

  /** A swap completes only if the product of the reserves before the trade
      does not exceed the check computed on the reloaded vaults, which as
      written is the square of the reserve of A. */
  lemma SwapPassedCheck(s: Balances, fee: u16, trader: Pubkey, swapA: bool,
                        inputAmount: u64, minOutputAmount: u64)
    requires Swap(s, fee, trader, swapA, inputAmount, minOutputAmount).Ok?
    ensures var t := Swap(s, fee, trader, swapA, inputAmount, minOutputAmount).value;
            s.reserveA * s.reserveB <= t.reserveA * t.reserveA
  {
  }

  /** A completed swap of A for B changes exactly four balances: the trader
      pays the clamped input of A into the vault of A and receives the output
      of B from the vault of B; the LP token and every other holder are
      untouched. */
  lemma SwapAMovesFourBalances(s: Balances, fee: u16, trader: Pubkey,
                               inputAmount: u64, minOutputAmount: u64)
    requires Swap(s, fee, trader, true, inputAmount, minOutputAmount).Ok?
    ensures var q := QuoteSwap(fee, true, Token.Balance(s.holdingsA, trader), Token.Balance(s.holdingsB, trader),
                               s.reserveA, s.reserveB, inputAmount, minOutputAmount);
            var t := Swap(s, fee, trader, true, inputAmount, minOutputAmount).value;
            && q.Ok?
            && Token.Balance(t.holdingsA, trader) + q.value.input == Token.Balance(s.holdingsA, trader)
            && t.reserveA == s.reserveA + q.value.input
            && t.reserveB + q.value.output == s.reserveB
            && Token.Balance(t.holdingsB, trader) == Token.Balance(s.holdingsB, trader) + q.value.output
            && t.lpSupply == s.lpSupply && t.holdingsLP == s.holdingsLP
            && OthersUnchanged(s.holdingsA, t.holdingsA, trader)
            && OthersUnchanged(s.holdingsB, t.holdingsB, trader)
  {
  }

  /** For a swap of A for B the product of the reserves never falls: the
      constant-product guarantee holds in this direction whatever the check
      computes. */
  lemma SwapAKeepsProduct(s: Balances, fee: u16, trader: Pubkey,
                          inputAmount: u64, minOutputAmount: u64)
    requires Swap(s, fee, trader, true, inputAmount, minOutputAmount).Ok?
    ensures var t := Swap(s, fee, trader, true, inputAmount, minOutputAmount).value;
            t.reserveA * t.reserveB >= s.reserveA * s.reserveB
  {
    var q := QuoteSwap(fee, true, Token.Balance(s.holdingsA, trader), Token.Balance(s.holdingsB, trader),
                       s.reserveA, s.reserveB, inputAmount, minOutputAmount).value;
    SwapQuoted(fee, true, Token.Balance(s.holdingsA, trader), Token.Balance(s.holdingsB, trader),
               s.reserveA, s.reserveB, inputAmount, minOutputAmount);
    SwapAMovesFourBalances(s, fee, trader, inputAmount, minOutputAmount);
    ConstantProduct(q.taxed, q.input, s.reserveA, s.reserveB);
  }

  /** A holder who burns no more than the LP supply receives less than the
      whole reserve of A and, as written, nothing of B: the second leg
      divides by `reserveB * (supply + 100)`, which exceeds the amount
      burnt. */
  lemma WithdrawWithinReserves(s: Balances, holder: Pubkey, amount: u64)
    requires amount <= s.lpSupply
    requires Withdraw(s, holder, amount).Ok?
    ensures var t := Withdraw(s, holder, amount).value;
            && Token.Balance(t.holdingsA, holder) - Token.Balance(s.holdingsA, holder) <= s.reserveA
            && (s.reserveA > 0 ==> t.reserveA > 0)
            && Token.Balance(t.holdingsB, holder) == Token.Balance(s.holdingsB, holder)
            && t.reserveB == s.reserveB
  {
    WithdrawSettles(s, holder, amount);
    PayoutShare(amount, s.reserveA, s.lpSupply);
    LegBNothing(amount, s.reserveB, s.lpSupply);
  }

  lemma LegBNothing(amount: nat, reserveB: nat, supply: nat)
    requires amount <= supply && reserveB > 0
    ensures amount / (reserveB * (supply + MINIMUM_LIQUIDITY)) == 0
  {
    var den := supply + MINIMUM_LIQUIDITY;
    MulRight(1, reserveB, den);
    DivBracket(amount, reserveB * den, 0);
  }

  /* ---------------- deposit, then withdraw ---------------- */

  /** Depositing into an empty pool and withdrawing every LP unit received
      never returns more of either token than was deposited, and leaves
      tokens of A in the pool. */
  lemma FirstDepositThenWithdraw(s: Balances, holder: Pubkey, amountA: u64, amountB: u64)
    requires s.reserveA == 0 && s.reserveB == 0 && s.lpSupply == 0
    requires Token.Balance(s.holdingsLP, holder) == 0
    requires Deposit(s, holder, amountA, amountB).Ok?
    ensures var t := Deposit(s, holder, amountA, amountB).value;
            var minted := Token.Balance(t.holdingsLP, holder);
            var u := Withdraw(t, holder, minted);
            u.Ok? ==>
              && Token.Balance(u.value.holdingsA, holder) <= Token.Balance(s.holdingsA, holder)
              && Token.Balance(u.value.holdingsB, holder) <= Token.Balance(s.holdingsB, holder)
              && u.value.reserveA > 0
  {
    var t := Deposit(s, holder, amountA, amountB).value;
    var minted := Token.Balance(t.holdingsLP, holder);
    DepositSettles(s, holder, amountA, amountB);
    FirstDeposit(s, holder, amountA, amountB);
    assert t.reserveA > 0 by {
      var a := Clamp(amountA, Token.Balance(s.holdingsA, holder));
      var b := Clamp(amountB, Token.Balance(s.holdingsB, holder));
      if a == 0 || b == 0 {
        ZeroProduct(a, b);
      }
    }
    assert minted == t.lpSupply;
    if Withdraw(t, holder, minted).Ok? {
      WithdrawWithinReserves(t, holder, minted);
    }
  }

  lemma ZeroProduct(a: nat, b: nat)
    requires a == 0 || b == 0
    ensures Isqrt(a * b) == 0
  {
    assert a * b == 0;
    IsqrtUnique(a * b, 0);
  }
}
