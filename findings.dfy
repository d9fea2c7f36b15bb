/** Five places where the program as written departs from what its
    comments and tests evidently intend.  For each: the behaviour as
    written, shown on a concrete input or for all inputs, and a corrected
    definition with the intended property proved about it.  The handlers of
    `AmmProgram` keep the behaviour as written. */
module Findings {
  import opened Types
  import opened FixedPoint
  import opened Pricing
  import opened AmmProgram
  import Token
  import Properties

  const User: Pubkey := 7

  /* ---------------- 1. the deposit ratio ---------------- */

  /** As written, a later deposit into reserves of 10 A and 20 B with 100 of
      each accepts all 100 A, no B, and mints no LP units: the ratio is the
      product of the reserves, so the B side becomes `100 / 200`. */
  lemma RebalanceCounterexample()
    ensures var s := Balances(10, 20, 1_000, map[User := 100], map[User := 100], map[]);
            Deposit(s, User, 100, 100)
              == Ok(Balances(110, 20, 1_000, map[User := 0], map[User := 100], map[User := 0]))
  {
    assert Rebalance(10, 20, 100, 100) == Some((100, 0));
    assert Liquidity(100, 0) == Some(0);
    assert map[User := 100][User := 0] == map[User := 0];
    assert map[User := 100][User := 100] == map[User := 100];
    assert map[][User := 0] == map[User := 0];
  }

  /** The intended rebalancing: the ratio is `reserveA / reserveB`.  With
      more A than B in the pool the amount of B is kept and A becomes
      `amountB * reserveA / reserveB`; otherwise A is kept and B becomes
      `amountA * reserveB / reserveA`.  The accepted amounts are then in the
      pool's proportion, rounded down on the recomputed side.  An empty
      reserve or a result beyond `u64` aborts. */
  function IntendedAmounts(reserveA: u64, reserveB: u64, amountA: u64, amountB: u64): (r: Option<(u64, u64)>)
    ensures r.Some? ==> reserveA > 0 && reserveB > 0
    ensures r.Some? && reserveA > reserveB ==>
              r.value.1 == amountB
              && r.value.0 * reserveB <= amountB * reserveA < (r.value.0 + 1) * reserveB
    ensures r.Some? && reserveA <= reserveB ==>
              r.value.0 == amountA
              && r.value.1 * reserveA <= amountA * reserveB < (r.value.1 + 1) * reserveA
  {
    if reserveA == 0 || reserveB == 0 then None
    else if reserveA > reserveB then
      var x := amountB * reserveA / reserveB;
      FloorBracket(amountB * reserveA, reserveB, x);
      if x < U64_LIMIT then Some((x, amountB)) else None
    else
      var y := amountA * reserveB / reserveA;
      FloorBracket(amountA * reserveB, reserveA, y);
      if y < U64_LIMIT then Some((amountA, y)) else None
  }

  /** The intended rebalancing of the counterexample accepts 100 A and 200 B. */
  lemma IntendedRebalanceExample()
    ensures IntendedAmounts(10, 20, 100, 100) == Some((100, 200))
  {
  }

  /* ---------------- 2. the second leg of a withdrawal ---------------- */

  /** As written, burning all 900 LP units of a pool holding 1000 of each
      token pays 900 of A and nothing of B. */
  lemma WithdrawLegBCounterexample()
    ensures var s := Balances(1_000, 1_000, 900, map[], map[], map[User := 900]);
            Withdraw(s, User, 900)
              == Ok(Balances(100, 1_000, 0, map[User := 900], map[User := 0], map[User := 0]))
  {
    assert WithdrawPayout(900, 1_000, 900) == Some(900);
    assert WithdrawPayoutB(900, 1_000, 900) == Some(0);
    assert map[User := 900][User := 0] == map[User := 0];
  }

  /** The intended withdrawal: both legs priced alike, `amount * reserve /
      (supply + 100)`. */
  function WithdrawIntended(s: Balances, holder: Pubkey, amount: u64): Result<Balances> {
    var payA :- Unwrap(WithdrawPayout(amount, s.reserveA, s.lpSupply));
    var movedA :- Token.Transfer(s.reserveA, Token.Balance(s.holdingsA, holder), payA);
    var payB :- Unwrap(WithdrawPayout(amount, s.reserveB, s.lpSupply));
    var movedB :- Token.Transfer(s.reserveB, Token.Balance(s.holdingsB, holder), payB);
    var burnt :- Token.Burn(s.lpSupply, Token.Balance(s.holdingsLP, holder), amount);
    Ok(Balances(movedA.0, movedB.0, burnt.0,
                s.holdingsA[holder := movedA.1],
                s.holdingsB[holder := movedB.1],
                s.holdingsLP[holder := burnt.1]))
  }

  /** The intended withdrawal pays the holder's share of each reserve,
      rounded down, and never empties a non-empty reserve when at most the
      supply is burnt. */
  lemma WithdrawIntendedProportional(s: Balances, holder: Pubkey, amount: u64)
    requires WithdrawIntended(s, holder, amount).Ok?
    ensures var t := WithdrawIntended(s, holder, amount).value;
            var den := s.lpSupply + MINIMUM_LIQUIDITY;
            && Token.Balance(t.holdingsA, holder) == Token.Balance(s.holdingsA, holder) + amount * s.reserveA / den
            && Token.Balance(t.holdingsB, holder) == Token.Balance(s.holdingsB, holder) + amount * s.reserveB / den
            && t.reserveA == s.reserveA - amount * s.reserveA / den
            && t.reserveB == s.reserveB - amount * s.reserveB / den
            && t.lpSupply == s.lpSupply - amount
            && (amount <= s.lpSupply && s.reserveA > 0 ==> t.reserveA > 0)
            && (amount <= s.lpSupply && s.reserveB > 0 ==> t.reserveB > 0)
  {
    PayoutShare(amount, s.reserveA, s.lpSupply);
    PayoutShare(amount, s.reserveB, s.lpSupply);
  }

  /** The intended withdrawal of the counterexample pays 900 of each token. */
  lemma IntendedWithdrawExample()
    ensures var s := Balances(1_000, 1_000, 900, map[], map[], map[User := 900]);
            WithdrawIntended(s, User, 900)
              == Ok(Balances(100, 100, 0, map[User := 900], map[User := 900], map[User := 0]))
  {
    assert WithdrawPayout(900, 1_000, 900) == Some(900);
    assert map[User := 900][User := 0] == map[User := 0];
  }

  /* ---------------- 3. the direction of a swap of B for A ---------------- */

  /** As written, a swap with `swapA` false moves the tokens the wrong way
      for every input: the trader receives the input amount of A from the
      pool and pays the output amount of B into it. */
  lemma SwapBReversed(s: Balances, fee: u16, trader: Pubkey, inputAmount: u64, minOutputAmount: u64)
    requires Swap(s, fee, trader, false, inputAmount, minOutputAmount).Ok?
    ensures var q := QuoteSwap(fee, false, Token.Balance(s.holdingsA, trader), Token.Balance(s.holdingsB, trader),
                               s.reserveA, s.reserveB, inputAmount, minOutputAmount);
            var t := Swap(s, fee, trader, false, inputAmount, minOutputAmount).value;
            && q.Ok?
            && Token.Balance(t.holdingsA, trader) == Token.Balance(s.holdingsA, trader) + q.value.input
            && Token.Balance(t.holdingsB, trader) + q.value.output == Token.Balance(s.holdingsB, trader)
  {
  }

  /** As written, a trader holding 6000 B who asks to sell 100 B into
      reserves of 10000 A and 100 B at no fee receives 100 A and pays
      5000 B, and the swap succeeds. */
  lemma SwapBCounterexample()
    ensures var s := Balances(10_000, 100, 0, map[User := 0], map[User := 6_000], map[]);
            Swap(s, 0, User, false, 100, 0)
              == Ok(Balances(9_900, 5_100, 0, map[User := 100], map[User := 1_000], map[]))
  {
    var s := Balances(10_000, 100, 0, map[User := 0], map[User := 6_000], map[]);
    assert SwapOutput(100, 100, 10_000) == Some(5_000);
    var q := SwapQuote(100, 100, 5_000, 1_000_000);
    assert QuoteSwap(0, false, 0, 6_000, 10_000, 100, 100, 0) == Ok(q);
    assert map[User := 0][User := 100] == map[User := 100];
    assert map[User := 6_000][User := 1_000] == map[User := 1_000];
    assert SwapTransfers(s, User, false, q)
             == Ok(Balances(9_900, 5_100, 0, map[User := 100], map[User := 1_000], map[]));
  }

  /* ---------------- 4. the invariant check ---------------- */

  /** As written, a fair swap of 100 A into reserves of 1000 A and 4000 B at
      no fee is refused as violating the invariant: the product after the
      trade, 1100 * 3637, exceeds the 4000000 before it, but the check
      compares against 1100 * 1100. */
  lemma InvariantCheckCounterexample()
    ensures var s := Balances(1_000, 4_000, 0, map[User := 100], map[User := 0], map[]);
            && Swap(s, 0, User, true, 100, 0) == Err(InvariantViolated)
            && 1_100 * 3_637 >= 1_000 * 4_000
  {
    var s := Balances(1_000, 4_000, 0, map[User := 100], map[User := 0], map[]);
    assert SwapOutput(100, 1_000, 4_000) == Some(363);
    var q := SwapQuote(100, 100, 363, 4_000_000);
    assert QuoteSwap(0, true, 100, 0, 1_000, 4_000, 100, 0) == Ok(q);
    assert SwapTransfers(s, User, true, q).Ok?;
    assert SwapTransfers(s, User, true, q).value.reserveA == 1_100;
  }

  /* ---------------- the intended swap ---------------- */

  /** The intended transfers: the trader pays `input` of the token sold into
      its vault and receives `output` of the other token from its vault. */
  function SwapTransfersIntended(s: Balances, trader: Pubkey, swapA: bool, q: SwapQuote): Result<Balances> {
    var traderA := Token.Balance(s.holdingsA, trader);
    var traderB := Token.Balance(s.holdingsB, trader);
    if swapA then
      var movedA :- Token.Transfer(traderA, s.reserveA, q.input);
      var movedB :- Token.Transfer(s.reserveB, traderB, q.output);
      Ok(s.(reserveA := movedA.1, reserveB := movedB.0,
            holdingsA := s.holdingsA[trader := movedA.0],
            holdingsB := s.holdingsB[trader := movedB.1]))
    else
      var movedB :- Token.Transfer(traderB, s.reserveB, q.input);
      var movedA :- Token.Transfer(s.reserveA, traderA, q.output);
      Ok(s.(reserveA := movedA.0, reserveB := movedB.1,
            holdingsA := s.holdingsA[trader := movedA.1],
            holdingsB := s.holdingsB[trader := movedB.0]))
  }

  /** The intended check: the product of the reserves after the trade may
      not be below the product before it. */
  function CheckInvariantIntended(productBefore: u64, reserveAAfter: u64, reserveBAfter: u64): Result<()> {
    var productAfter :- Unwrap(MulU64(reserveAAfter, reserveBAfter));
    if productBefore > productAfter then Err(InvariantViolated) else Ok(())
  }

  /** The intended swap: the same quote, the intended transfers, the
      intended check. */
  function SwapIntended(s: Balances, fee: u16, trader: Pubkey, swapA: bool,
                        inputAmount: u64, minOutputAmount: u64): Result<Balances>
  {
    var q :- QuoteSwap(fee, swapA, Token.Balance(s.holdingsA, trader), Token.Balance(s.holdingsB, trader),
                       s.reserveA, s.reserveB, inputAmount, minOutputAmount);
    var after :- SwapTransfersIntended(s, trader, swapA, q);
    var checked :- CheckInvariantIntended(q.productBefore, after.reserveA, after.reserveB);
    Ok(after)
  }

  /** The intended swap moves the tokens the right way in both directions:
      the trader's balance of the token sold falls by the input, their
      balance of the other token rises by the output, and the vaults move
      the opposite way. */
  lemma SwapIntendedDirection(s: Balances, fee: u16, trader: Pubkey, swapA: bool,
                              inputAmount: u64, minOutputAmount: u64)
    requires SwapIntended(s, fee, trader, swapA, inputAmount, minOutputAmount).Ok?
    ensures var q := QuoteSwap(fee, swapA, Token.Balance(s.holdingsA, trader), Token.Balance(s.holdingsB, trader),
                               s.reserveA, s.reserveB, inputAmount, minOutputAmount);
            var t := SwapIntended(s, fee, trader, swapA, inputAmount, minOutputAmount).value;
            var soldBefore := Token.Balance(if swapA then s.holdingsA else s.holdingsB, trader);
            var soldAfter := Token.Balance(if swapA then t.holdingsA else t.holdingsB, trader);
            var boughtBefore := Token.Balance(if swapA then s.holdingsB else s.holdingsA, trader);
            var boughtAfter := Token.Balance(if swapA then t.holdingsB else t.holdingsA, trader);
            && q.Ok?
            && soldAfter + q.value.input == soldBefore
            && boughtAfter == boughtBefore + q.value.output
            && (if swapA then t.reserveA else t.reserveB) == (if swapA then s.reserveA else s.reserveB) + q.value.input
            && (if swapA then t.reserveB else t.reserveA) + q.value.output == (if swapA then s.reserveB else s.reserveA)
  {
  }

  /** The intended check never refuses a priced trade: whatever the inputs,
      the intended swap does not fail with `InvariantViolated`, and when it
      succeeds the product of the reserves has not fallen. */
  lemma SwapIntendedKeepsProduct(s: Balances, fee: u16, trader: Pubkey, swapA: bool,
                                 inputAmount: u64, minOutputAmount: u64)
    ensures SwapIntended(s, fee, trader, swapA, inputAmount, minOutputAmount) != Err(InvariantViolated)
    ensures var r := SwapIntended(s, fee, trader, swapA, inputAmount, minOutputAmount);
            r.Ok? ==> r.value.reserveA * r.value.reserveB >= s.reserveA * s.reserveB
  {
    var balanceA := Token.Balance(s.holdingsA, trader);
    var balanceB := Token.Balance(s.holdingsB, trader);
    var quote := QuoteSwap(fee, swapA, balanceA, balanceB, s.reserveA, s.reserveB, inputAmount, minOutputAmount);
    if quote.Ok? {
      Properties.SwapQuoted(fee, swapA, balanceA, balanceB, s.reserveA, s.reserveB, inputAmount, minOutputAmount);
      if SwapTransfersIntended(s, trader, swapA, quote.value).Ok? {
        IntendedTransfersKeepProduct(s, trader, swapA, quote.value);
      }
    }
  }

  /** The intended transfers of a quote priced on the curve never lower the
      product of the reserves. */
  lemma IntendedTransfersKeepProduct(s: Balances, trader: Pubkey, swapA: bool, q: SwapQuote)
    requires SwapTransfersIntended(s, trader, swapA, q).Ok?
    requires var reserveIn := if swapA then s.reserveA else s.reserveB;
             var reserveOut := if swapA then s.reserveB else s.reserveA;
             && q.taxed <= q.input && reserveIn + q.taxed > 0
             && q.output == q.taxed * reserveOut / (reserveIn + q.taxed)
    ensures var t := SwapTransfersIntended(s, trader, swapA, q).value;
            t.reserveA * t.reserveB >= s.reserveA * s.reserveB
  {
    var reserveIn := if swapA then s.reserveA else s.reserveB;
    var reserveOut := if swapA then s.reserveB else s.reserveA;
    ConstantProduct(q.taxed, q.input, reserveIn, reserveOut);
    var t := SwapTransfersIntended(s, trader, swapA, q).value;
    if swapA {
      assert t.reserveA == reserveIn + q.input && t.reserveB == reserveOut - q.output;
    } else {
      assert t.reserveB == reserveIn + q.input && t.reserveA == reserveOut - q.output;
      assert t.reserveA * t.reserveB == t.reserveB * t.reserveA;
      assert s.reserveA * s.reserveB == reserveIn * reserveOut;
    }
  }

  /** The intended swap of the invariant counterexample succeeds. */
  lemma IntendedSwapExample()
    ensures var s := Balances(1_000, 4_000, 0, map[User := 100], map[User := 0], map[]);
            SwapIntended(s, 0, User, true, 100, 0)
              == Ok(Balances(1_100, 3_637, 0, map[User := 0], map[User := 363], map[]))
  {
    var s := Balances(1_000, 4_000, 0, map[User := 100], map[User := 0], map[]);
    assert SwapOutput(100, 1_000, 4_000) == Some(363);
    var q := SwapQuote(100, 100, 363, 4_000_000);
    assert QuoteSwap(0, true, 100, 0, 1_000, 4_000, 100, 0) == Ok(q);
    assert map[User := 100][User := 0] == map[User := 0];
    assert map[User := 0][User := 363] == map[User := 363];
    assert SwapTransfersIntended(s, User, true, q)
             == Ok(Balances(1_100, 3_637, 0, map[User := 0], map[User := 363], map[]));
  }

  /* ---------------- 5. the LP units of a later deposit ---------------- */

  /** The states of the drained-pool run below. */
  function DrainStart(): Balances {
    Balances(0, 0, 0, map[User := 6_000_000], map[User := 5_000_001], map[])
  }

  function DrainDeposited(): Balances {
    Balances(10_000, 10_000, 9_900, map[User := 5_990_000], map[User := 4_990_001], map[User := 9_900])
  }

  function DrainWithdrawn(): Balances {
    Balances(100, 10_000, 0, map[User := 5_999_900], map[User := 4_990_001], map[User := 0])
  }

  function Drained(): Balances {
    Balances(1_000_000, 1, 0, map[User := 5_000_000], map[User := 5_000_000], map[User := 0])
  }

  function ProfitDeposited(): Balances {
    Balances(2_000_000, 2, 1_000, map[User := 4_000_000], map[User := 4_999_999], map[User := 1_000])
  }

  function ProfitWithdrawn(): Balances {
    Balances(181_819, 2, 0, map[User := 5_818_181], map[User := 4_999_999], map[User := 0])
  }

  /** As written, a pool with no LP units outstanding but non-empty vaults
      is reachable: a first deposit of 10000 of each side, a withdrawal of
      all 9900 LP units (which leaves 100 A and, by the second finding, all
      of B), then a swap of 999900 A at no fee leave reserves of 1000000 A
      and 1 B with an LP supply of 0. */
  lemma DrainedPoolReachable()
    ensures Deposit(DrainStart(), User, 10_000, 10_000) == Ok(DrainDeposited())
    ensures Withdraw(DrainDeposited(), User, 9_900) == Ok(DrainWithdrawn())
    ensures Swap(DrainWithdrawn(), 0, User, true, 999_900, 0) == Ok(Drained())
    ensures Drained().lpSupply == 0 && Drained().reserveA > 0 && Drained().reserveB > 0
  {
    DrainDeposit();
    DrainWithdraw();
    DrainSwap();
  }

  lemma DrainDeposit()
    ensures Deposit(DrainStart(), User, 10_000, 10_000) == Ok(DrainDeposited())
  {
    var s := DrainStart();
    DrainQuote();
    assert s.holdingsA[User := 5_990_000] == map[User := 5_990_000];
    assert s.holdingsB[User := 4_990_001] == map[User := 4_990_001];
    assert s.holdingsLP[User := 9_900] == map[User := 9_900];
  }

  lemma DrainQuote()
    ensures QuoteDeposit(0, 0, 6_000_000, 5_000_001, 10_000, 10_000) == Ok(DepositQuote(10_000, 10_000, 9_900))
  {
    IsqrtUnique(10_000 * 10_000, 10_000);
    assert Liquidity(10_000, 10_000) == Some(10_000);
  }

  lemma DrainWithdraw()
    ensures Withdraw(DrainDeposited(), User, 9_900) == Ok(DrainWithdrawn())
  {
    var s := DrainDeposited();
    assert WithdrawPayout(9_900, 10_000, 9_900) == Some(9_900);
    assert WithdrawPayoutB(9_900, 10_000, 9_900) == Some(0);
    assert s.holdingsA[User := 5_999_900] == map[User := 5_999_900];
    assert s.holdingsB[User := 4_990_001] == s.holdingsB;
    assert s.holdingsLP[User := 0] == map[User := 0];
  }

  lemma DrainSwap()
    ensures Swap(DrainWithdrawn(), 0, User, true, 999_900, 0) == Ok(Drained())
  {
    var s := DrainWithdrawn();
    assert SwapOutput(999_900, 100, 10_000) == Some(9_999);
    var q := SwapQuote(999_900, 999_900, 9_999, 1_000_000);
    assert QuoteSwap(0, true, 5_999_900, 4_990_001, 100, 10_000, 999_900, 0) == Ok(q);
    assert s.holdingsA[User := 5_000_000] == map[User := 5_000_000];
    assert s.holdingsB[User := 5_000_000] == map[User := 5_000_000];
    assert SwapTransfers(s, User, true, q) == Ok(Drained());
    assert CheckInvariant(q.productBefore, 1_000_000) == Ok(());
  }

  /** As written, a later deposit mints `sqrt(a * b)` LP units whatever the
      LP supply: into the drained pool, depositing 1000000 A and 1 B mints
      1000 units, and withdrawing those 1000 at once pays out 1818181 A,
      more than was put in, and gives back the 1 B. */
  lemma LaterDepositCounterexample()
    ensures Deposit(Drained(), User, 1_000_000, 1) == Ok(ProfitDeposited())
    ensures Withdraw(ProfitDeposited(), User, 1_000) == Ok(ProfitWithdrawn())
    ensures Token.Balance(ProfitWithdrawn().holdingsA, User) > Token.Balance(Drained().holdingsA, User)
    ensures Token.Balance(ProfitWithdrawn().holdingsB, User) + 1 == Token.Balance(Drained().holdingsB, User)
  {
    ProfitDeposit();
    ProfitWithdraw();
  }

  lemma ProfitDeposit()
    ensures Deposit(Drained(), User, 1_000_000, 1) == Ok(ProfitDeposited())
  {
    ProfitQuote();
    ProfitHoldings();
  }

  lemma ProfitHoldings()
    ensures Drained().holdingsA[User := 4_000_000] == ProfitDeposited().holdingsA
    ensures Drained().holdingsB[User := 4_999_999] == ProfitDeposited().holdingsB
    ensures Drained().holdingsLP[User := 1_000] == ProfitDeposited().holdingsLP
  {
    assert map[User := 5_000_000][User := 4_000_000] == map[User := 4_000_000];
    assert map[User := 5_000_000][User := 4_999_999] == map[User := 4_999_999];
    assert map[User := 0][User := 1_000] == map[User := 1_000];
  }

  lemma ProfitQuote()
    ensures QuoteDeposit(1_000_000, 1, 5_000_000, 5_000_000, 1_000_000, 1) == Ok(DepositQuote(1_000_000, 1, 1_000))
  {
    assert Rebalance(1_000_000, 1, 1_000_000, 1) == Some((1_000_000, 1));
    IsqrtUnique(1_000_000 * 1, 1_000);
    assert Liquidity(1_000_000, 1) == Some(1_000);
  }

  lemma ProfitWithdraw()
    ensures Withdraw(ProfitDeposited(), User, 1_000) == Ok(ProfitWithdrawn())
  {
    var t := ProfitDeposited();
    assert WithdrawPayout(1_000, 2_000_000, 1_000) == Some(1_818_181);
    assert WithdrawPayoutB(1_000, 2, 1_000) == Some(0);
    assert t.holdingsA[User := 5_818_181] == map[User := 5_818_181];
    assert t.holdingsB[User := 4_999_999] == t.holdingsB;
    assert t.holdingsLP[User := 0] == map[User := 0];
  }

  /** The LP units a later deposit evidently should mint: the depositor's
      share of the outstanding units (the supply plus the 100 withheld), as
      the smaller of the shares its two amounts buy, rounded down.  It is
      the largest number of units that both amounts pay for, and an empty
      reserve or a result beyond `u64` aborts. */
  function IntendedLiquidity(reserveA: u64, reserveB: u64, supply: u64,
                             amountA: u64, amountB: u64): (r: Option<u64>)
    ensures r.Some? ==> reserveA > 0 && reserveB > 0
    ensures r.Some? ==>
              var units := supply + MINIMUM_LIQUIDITY;
              && r.value * reserveA <= amountA * units
              && r.value * reserveB <= amountB * units
              && ((r.value + 1) * reserveA > amountA * units || (r.value + 1) * reserveB > amountB * units)
  {
    if reserveA == 0 || reserveB == 0 then None
    else
      var units := supply + MINIMUM_LIQUIDITY;
      var shareA := amountA * units / reserveA;
      var shareB := amountB * units / reserveB;
      FloorBracket(amountA * units, reserveA, shareA);
      FloorBracket(amountB * units, reserveB, shareB);
      var m := if shareA <= shareB then shareA else shareB;
      if m < U64_LIMIT then
        if shareA <= shareB then
          MulRight(shareA, shareB, reserveB);
          Some(m)
        else
          MulRight(shareB, shareA, reserveA);
          Some(m)
      else None
  }

  /** With the intended LP units, withdrawing at once what a deposit just
      minted pays out, on each side, no more than the deposit put in: the
      payout `m * (reserve + amount) / (supply + m + 100)` of the corrected
      withdrawal is at most `amount`. */
  lemma {:induction false} IntendedDepositNoProfit(reserveA: u64, reserveB: u64, supply: u64,
                                                   amountA: u64, amountB: u64)
    requires IntendedLiquidity(reserveA, reserveB, supply, amountA, amountB).Some?
    ensures var m := IntendedLiquidity(reserveA, reserveB, supply, amountA, amountB).value;
            var units := supply + m + MINIMUM_LIQUIDITY;
            && m * (reserveA + amountA) / units <= amountA
            && m * (reserveB + amountB) / units <= amountB
  {
    var m := IntendedLiquidity(reserveA, reserveB, supply, amountA, amountB).value;
    var units := supply + MINIMUM_LIQUIDITY;
    NoProfitSide(m, reserveA, amountA, units);
    NoProfitSide(m, reserveB, amountB, units);
  }

  /** One side of `IntendedDepositNoProfit`: units bought at no more than the
      pool's price redeem for no more than was paid. */
  lemma NoProfitSide(m: nat, reserve: nat, amount: nat, units: nat)
    requires units > 0 && m * reserve <= amount * units
    ensures m * (reserve + amount) / (units + m) <= amount
  {
    var x := m * (reserve + amount);
    var d := units + m;
    assert x == m * reserve + m * amount;
    assert amount * d == amount * units + amount * m;
    var q := x / d;
    FloorBracket(x, d, q);
    if q > amount {
      MulRight(amount + 1, q, d);
    }
  }
}
