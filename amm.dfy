/** The five instructions of the AMM program.  Each instruction that moves
    tokens is specified by a function over a snapshot of the balances it
    touches, and implemented by a method of `Pool` that follows the program
    step by step and is proved to agree with that function.  A transaction
    that fails is discarded as a whole, so a method commits its writes only
    once every step has succeeded. */
module AmmProgram {
  import opened Types
  import opened Pricing
  import Token

  /** The balances the instructions read and write: the pool's two vaults,
      the supply of the LP mint, and every holder's token accounts for A, B
      and the LP token. */
  datatype Balances = Balances(
    reserveA: u64,
    reserveB: u64,
    lpSupply: u64,
    holdingsA: map<Pubkey, u64>,
    holdingsB: map<Pubkey, u64>,
    holdingsLP: map<Pubkey, u64>)

  /** What a deposit will move: the accepted amounts of A and B and the LP
      units minted to the depositor. */
  datatype DepositQuote = DepositQuote(amountA: u64, amountB: u64, liquidity: u64)

  /** What a swap will move: the clamped input, the input after the fee, the
      output, and the product of the reserves before the trade. */
  datatype SwapQuote = SwapQuote(input: u64, taxed: u64, output: u64, productBefore: u64)

  /* ---------------- deposit_liquidity ---------------- */

  /** The amounts a deposit accepts and the LP units it mints, before any
      transfer: clamp both requests to the depositor's balances, rebalance
      them when the pool is not empty, take the square root of their product,
      and on the first deposit require and withhold `MINIMUM_LIQUIDITY`. */
  function QuoteDeposit(reserveA: u64, reserveB: u64, balanceA: u64, balanceB: u64,
                        amountA: u64, amountB: u64): Result<DepositQuote>
  {
    var a := Clamp(amountA, balanceA);
    var b := Clamp(amountB, balanceB);
    var poolCreation := reserveA == 0 && reserveB == 0;
    var accepted :- if poolCreation then Ok((a, b)) else Unwrap(Rebalance(reserveA, reserveB, a, b));
    var liquidity :- Unwrap(Liquidity(accepted.0, accepted.1));
    if poolCreation && liquidity < MINIMUM_LIQUIDITY then Err(DepositTooSmall)
    else
      var minted := if poolCreation then liquidity - MINIMUM_LIQUIDITY else liquidity;
      Ok(DepositQuote(accepted.0, accepted.1, minted))
  }

  /** The first half of `deposit_liquidity`, step by step: the amounts and
      the LP units, computed before any transfer. */
  method ComputeDepositQuote(reserveA: u64, reserveB: u64, balanceA: u64, balanceB: u64,
                             amountA: u64, amountB: u64) returns (r: Result<DepositQuote>)
    ensures r == QuoteDeposit(reserveA, reserveB, balanceA, balanceB, amountA, amountB)
  {
    var a := Clamp(amountA, balanceA);
    var b := Clamp(amountB, balanceB);
    var poolCreation := reserveA == 0 && reserveB == 0;
    if !poolCreation {
      var rebalanced := Rebalance(reserveA, reserveB, a, b);
      if rebalanced.None? {
        return Err(Abort);
      }
      a, b := rebalanced.value.0, rebalanced.value.1;
    }
    var root := Liquidity(a, b);
    if root.None? {
      return Err(Abort);
    }
    var liquidity := root.value;
    if poolCreation {
      if liquidity < MINIMUM_LIQUIDITY {
        return Err(DepositTooSmall);
      }
      liquidity := liquidity - MINIMUM_LIQUIDITY;
    }
    r := Ok(DepositQuote(a, b, liquidity));
  }

  /** `deposit_liquidity`: the quote, then the transfer of A and of B from the
      depositor to the vaults, then the minting of the LP units. */
  function Deposit(s: Balances, depositor: Pubkey, amountA: u64, amountB: u64): Result<Balances> {
    var q :- QuoteDeposit(s.reserveA, s.reserveB,
                          Token.Balance(s.holdingsA, depositor), Token.Balance(s.holdingsB, depositor),
                          amountA, amountB);
    var movedA :- Token.Transfer(Token.Balance(s.holdingsA, depositor), s.reserveA, q.amountA);
    var movedB :- Token.Transfer(Token.Balance(s.holdingsB, depositor), s.reserveB, q.amountB);
    var minted :- Token.MintTo(s.lpSupply, Token.Balance(s.holdingsLP, depositor), q.liquidity);
    Ok(Balances(movedA.1, movedB.1, minted.0,
                s.holdingsA[depositor := movedA.0],
                s.holdingsB[depositor := movedB.0],
                s.holdingsLP[depositor := minted.1]))
  }

  /* ---------------- withdraw_liquidity ---------------- */

  /** `withdraw_liquidity`: pay out A, pay out B (each leg priced just before
      its transfer, from the balances read at the start), then burn the LP
      units. */
  function Withdraw(s: Balances, holder: Pubkey, amount: u64): Result<Balances> {
    var payA :- Unwrap(WithdrawPayout(amount, s.reserveA, s.lpSupply));
    var movedA :- Token.Transfer(s.reserveA, Token.Balance(s.holdingsA, holder), payA);
    var payB :- Unwrap(WithdrawPayoutB(amount, s.reserveB, s.lpSupply));
    var movedB :- Token.Transfer(s.reserveB, Token.Balance(s.holdingsB, holder), payB);
    var burnt :- Token.Burn(s.lpSupply, Token.Balance(s.holdingsLP, holder), amount);
    Ok(Balances(movedA.0, movedB.0, burnt.0,
                s.holdingsA[holder := movedA.1],
                s.holdingsB[holder := movedB.1],
                s.holdingsLP[holder := burnt.1]))
  }

  /* ---------------- swap_exact_tokens_for_tokens ---------------- */

  /** The amounts of a swap, before any transfer: clamp the input to the
      trader's balance of the token paid in, take the fee off it, price the
      output on the curve, enforce the slippage bound, and record the
      product of the reserves. */
  function QuoteSwap(fee: u16, swapA: bool, balanceA: u64, balanceB: u64,
                     reserveA: u64, reserveB: u64, inputAmount: u64, minOutputAmount: u64): Result<SwapQuote>
  {
    var input := Clamp(inputAmount, if swapA then balanceA else balanceB);
    var taxed :- Unwrap(TaxedInput(input, fee));
    var output :- Unwrap(if swapA then SwapOutput(taxed, reserveA, reserveB)
                         else SwapOutput(taxed, reserveB, reserveA));
    if output < minOutputAmount then Err(OutputTooSmall)
    else
      var productBefore :- Unwrap(MulU64(reserveA, reserveB));
      Ok(SwapQuote(input, taxed, output, productBefore))
  }

  /** The first half of `swap_exact_tokens_for_tokens`, step by step: the
      amounts of the swap, computed before any transfer. */
  method ComputeSwapQuote(fee: u16, swapA: bool, balanceA: u64, balanceB: u64,
                          reserveA: u64, reserveB: u64, inputAmount: u64, minOutputAmount: u64)
    returns (r: Result<SwapQuote>)
    ensures r == QuoteSwap(fee, swapA, balanceA, balanceB, reserveA, reserveB, inputAmount, minOutputAmount)
  {
    var input := Clamp(inputAmount, if swapA then balanceA else balanceB);
    var taxed := TaxedInput(input, fee);
    if taxed.None? {
      return Err(Abort);
    }
    var output := if swapA then SwapOutput(taxed.value, reserveA, reserveB)
                  else SwapOutput(taxed.value, reserveB, reserveA);
    if output.None? {
      return Err(Abort);
    }
    if output.value < minOutputAmount {
      return Err(OutputTooSmall);
    }
    var productBefore := MulU64(reserveA, reserveB);
    if productBefore.None? {
      return Err(Abort);
    }
    r := Ok(SwapQuote(input, taxed.value, output.value, productBefore.value));
  }

  /** The two transfers of a swap as written.  With `swapA` the trader pays
      `input` of A into the pool and receives `output` of B; otherwise the
      pool pays `input` of A to the trader and the trader pays `output` of B
      into the pool. */
  function SwapTransfers(s: Balances, trader: Pubkey, swapA: bool, q: SwapQuote): Result<Balances> {
    var traderA := Token.Balance(s.holdingsA, trader);
    var traderB := Token.Balance(s.holdingsB, trader);
    if swapA then
      var movedA :- Token.Transfer(traderA, s.reserveA, q.input);
      var movedB :- Token.Transfer(s.reserveB, traderB, q.output);
      Ok(s.(reserveA := movedA.1, reserveB := movedB.0,
            holdingsA := s.holdingsA[trader := movedA.0],
            holdingsB := s.holdingsB[trader := movedB.1]))
    else
      var movedA :- Token.Transfer(s.reserveA, traderA, q.input);
      var movedB :- Token.Transfer(traderB, s.reserveB, q.output);
      Ok(s.(reserveA := movedA.0, reserveB := movedB.1,
            holdingsA := s.holdingsA[trader := movedA.1],
            holdingsB := s.holdingsB[trader := movedB.0]))
  }

  /** The invariant check as written: the product before the trade may not
      exceed the square of the reloaded reserve of A. */
  function CheckInvariant(productBefore: u64, reserveAAfter: u64): Result<()> {
    var square :- Unwrap(MulU64(reserveAAfter, reserveAAfter));
    if productBefore > square then Err(InvariantViolated) else Ok(())
  }

  /** `swap_exact_tokens_for_tokens`: the quote, the transfers, then the
      invariant check on the reloaded vaults. */
  function Swap(s: Balances, fee: u16, trader: Pubkey, swapA: bool,
                inputAmount: u64, minOutputAmount: u64): Result<Balances>
  {
    var q :- QuoteSwap(fee, swapA, Token.Balance(s.holdingsA, trader), Token.Balance(s.holdingsB, trader),
                       s.reserveA, s.reserveB, inputAmount, minOutputAmount);
    var after :- SwapTransfers(s, trader, swapA, q);
    var checked :- CheckInvariant(q.productBefore, after.reserveA);
    Ok(after)
  }

  /* ---------------- outcome of a transaction ---------------- */

  /** What the instruction returns to its caller. */
  function Status(outcome: Result<Balances>): (r: Result<()>)
    ensures r.Ok? <==> outcome.Ok?
    ensures r.Err? ==> r.error == outcome.error
  {
    match outcome
    case Ok(_) => Ok(())
    case Err(e) => Err(e)
  }

  /** The balances once the transaction is settled: a failed transaction
      leaves them as they were. */
  function Settled(before: Balances, outcome: Result<Balances>): (r: Balances)
    ensures outcome.Err? ==> r == before
    ensures outcome.Ok? ==> r == outcome.value
  {
    match outcome
    case Ok(after) => after
    case Err(_) => before
  }

  /* ---------------- the accounts ---------------- */

  /** The AMM configuration account. */
  class Amm {
    var id: Pubkey
    var admin: Pubkey
    var fee: u16

    /** The zero-filled account the runtime allocates. */
    constructor Allocate()
      ensures id == 0 && admin == 0 && fee == 0
    {
      id, admin, fee := 0, 0, 0;
    }

    /** `create_amm`: a fee of 100% or more is refused before anything is
        written; otherwise the identifier, the admin and the fee are stored. */
    method CreateAmm(id: Pubkey, admin: Pubkey, fee: u16) returns (r: Result<()>)
      modifies this
      ensures r.Ok? <==> fee < FEE_DENOMINATOR
      ensures r.Err? ==> r.error == InvalidFee && unchanged(this)
      ensures r.Ok? ==> this.id == id && this.admin == admin && this.fee == fee
    {
      if fee >= FEE_DENOMINATOR {
        return Err(InvalidFee);
      }
      this.id := id;
      this.admin := admin;
      this.fee := fee;
      r := Ok(());
    }
  }

  /** A pool: the `Pool` account (its AMM and its two mints) together with
      the token balances its instructions move. */
  class Pool {
    var amm: Pubkey
    var mintA: Pubkey
    var mintB: Pubkey
    var reserveA: u64
    var reserveB: u64
    var lpSupply: u64
    var holdingsA: map<Pubkey, u64>
    var holdingsB: map<Pubkey, u64>
    var holdingsLP: map<Pubkey, u64>

    function Snapshot(): Balances
      reads this
    {
      Balances(reserveA, reserveB, lpSupply, holdingsA, holdingsB, holdingsLP)
    }

    /** `create_pool`: records the AMM and the two mints; the vaults and the
        LP mint are created empty, beside the holders' existing balances of
        A and B.  The mints differ, or the two vaults would be one account. */
    constructor CreatePool(amm: Pubkey, mintA: Pubkey, mintB: Pubkey,
                           holdingsA: map<Pubkey, u64>, holdingsB: map<Pubkey, u64>)
      requires mintA != mintB
      ensures this.amm == amm && this.mintA == mintA && this.mintB == mintB
      ensures Snapshot() == Balances(0, 0, 0, holdingsA, holdingsB, map[])
    {
      this.amm, this.mintA, this.mintB := amm, mintA, mintB;
      reserveA, reserveB, lpSupply := 0, 0, 0;
      this.holdingsA, this.holdingsB, holdingsLP := holdingsA, holdingsB, map[];
    }

    /** `deposit_liquidity`, step by step. */
    method DepositLiquidity(depositor: Pubkey, amountA: u64, amountB: u64) returns (r: Result<()>)
      modifies this
      ensures amm == old(amm) && mintA == old(mintA) && mintB == old(mintB)
      ensures r == Status(Deposit(old(Snapshot()), depositor, amountA, amountB))
      ensures Snapshot() == Settled(old(Snapshot()), Deposit(old(Snapshot()), depositor, amountA, amountB))
    {
      var balanceA := Token.Balance(holdingsA, depositor);
      var balanceB := Token.Balance(holdingsB, depositor);
      var quote := ComputeDepositQuote(reserveA, reserveB, balanceA, balanceB, amountA, amountB);
      if quote.Err? {
        return Err(quote.error);
      }
      var q := quote.value;
      var movedA := Token.Transfer(balanceA, reserveA, q.amountA);
      if movedA.Err? {
        return Err(movedA.error);
      }
      var movedB := Token.Transfer(balanceB, reserveB, q.amountB);
      if movedB.Err? {
        return Err(movedB.error);
      }
      var minted := Token.MintTo(lpSupply, Token.Balance(holdingsLP, depositor), q.liquidity);
      if minted.Err? {
        return Err(minted.error);
      }
      holdingsA, reserveA := holdingsA[depositor := movedA.value.0], movedA.value.1;
      holdingsB, reserveB := holdingsB[depositor := movedB.value.0], movedB.value.1;
      lpSupply, holdingsLP := minted.value.0, holdingsLP[depositor := minted.value.1];
      r := Ok(());
    }

    /** `withdraw_liquidity`, step by step. */
    method WithdrawLiquidity(holder: Pubkey, amount: u64) returns (r: Result<()>)
      modifies this
      ensures amm == old(amm) && mintA == old(mintA) && mintB == old(mintB)
      ensures r == Status(Withdraw(old(Snapshot()), holder, amount))
      ensures Snapshot() == Settled(old(Snapshot()), Withdraw(old(Snapshot()), holder, amount))
    {
      var payA := WithdrawPayout(amount, reserveA, lpSupply);
      if payA.None? {
        return Err(Abort);
      }
      var movedA := Token.Transfer(reserveA, Token.Balance(holdingsA, holder), payA.value);
      if movedA.Err? {
        return Err(movedA.error);
      }
      var payB := WithdrawPayoutB(amount, reserveB, lpSupply);
      if payB.None? {
        return Err(Abort);
      }
      var movedB := Token.Transfer(reserveB, Token.Balance(holdingsB, holder), payB.value);
      if movedB.Err? {
        return Err(movedB.error);
      }
      var burnt := Token.Burn(lpSupply, Token.Balance(holdingsLP, holder), amount);
      if burnt.Err? {
        return Err(burnt.error);
      }
      reserveA, holdingsA := movedA.value.0, holdingsA[holder := movedA.value.1];
      reserveB, holdingsB := movedB.value.0, holdingsB[holder := movedB.value.1];
      lpSupply, holdingsLP := burnt.value.0, holdingsLP[holder := burnt.value.1];
      r := Ok(());
    }

    /** `swap_exact_tokens_for_tokens`, step by step; the fee is read from
        the pool's AMM account. */
    method SwapExactTokensForTokens(amm: Amm, trader: Pubkey, swapA: bool,
                                    inputAmount: u64, minOutputAmount: u64) returns (r: Result<()>)
      modifies this
      ensures this.amm == old(this.amm) && mintA == old(mintA) && mintB == old(mintB)
      ensures r == Status(Swap(old(Snapshot()), amm.fee, trader, swapA, inputAmount, minOutputAmount))
      ensures Snapshot() == Settled(old(Snapshot()), Swap(old(Snapshot()), amm.fee, trader, swapA, inputAmount, minOutputAmount))
    {
      var traderA := Token.Balance(holdingsA, trader);
      var traderB := Token.Balance(holdingsB, trader);
      var quote := ComputeSwapQuote(amm.fee, swapA, traderA, traderB, reserveA, reserveB,
                                    inputAmount, minOutputAmount);
      if quote.Err? {
        return Err(quote.error);
      }
      var q := quote.value;
      var newReserveA, newReserveB, newTraderA, newTraderB;
      if swapA {
        var movedA := Token.Transfer(traderA, reserveA, q.input);
        if movedA.Err? {
          // the trader holds the clamped input, and the vault cannot overflow
          assert false;
        }
        var movedB := Token.Transfer(reserveB, traderB, q.output);
        if movedB.Err? {
          return Err(movedB.error);
        }
        newTraderA, newReserveA := movedA.value.0, movedA.value.1;
        newReserveB, newTraderB := movedB.value.0, movedB.value.1;
      } else {
        var movedA := Token.Transfer(reserveA, traderA, q.input);
        if movedA.Err? {
          return Err(movedA.error);
        }
        var movedB := Token.Transfer(traderB, reserveB, q.output);
        if movedB.Err? {
          return Err(movedB.error);
        }
        newReserveA, newTraderA := movedA.value.0, movedA.value.1;
        newTraderB, newReserveB := movedB.value.0, movedB.value.1;
      }
      // the vaults are reloaded after the transfers
      var square := MulU64(newReserveA, newReserveA);
      if square.None? {
        return Err(Abort);
      }
      if q.productBefore > square.value {
        return Err(InvariantViolated);
      }
      reserveA, reserveB := newReserveA, newReserveB;
      holdingsA, holdingsB := holdingsA[trader := newTraderA], holdingsB[trader := newTraderB];
      r := Ok(());
    }
  }
}
