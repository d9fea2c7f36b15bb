/** Concrete runs of the instructions: the flow of the program's own test
    suite (an AMM with a 3% fee, a pool, a first deposit of 100 tokens of
    each side with six decimals, then a swap of one token of A), and two
    small examples: a first deposit of 10000 of each side, and a swap of
    1000 at a 0.3% fee. */
module Scenarios {
  import opened Types
  import opened FixedPoint
  import opened Pricing
  import opened AmmProgram
  import Token

  const Admin: Pubkey := 1
  const User: Pubkey := 2
  const AmmId: Pubkey := 3
  /** The address of the AMM account, which a pool records; it is distinct
      from the identifier stored inside the account. */
  const AmmAccount: Pubkey := 6
  const MintA: Pubkey := 4
  const MintB: Pubkey := 5

  /** The balances of the test suite once the pool exists: the user holds
      1000 tokens (six decimals) of each side, the pool nothing. */
  function TestStart(): Balances {
    Balances(0, 0, 0, map[User := 1_000_000_000], map[User := 1_000_000_000], map[])
  }

  /** After the test suite's deposit of 100 tokens of each side. */
  function TestAfterDeposit(): Balances {
    Balances(100_000_000, 100_000_000, 99_999_900,
             map[User := 900_000_000], map[User := 900_000_000], map[User := 99_999_900])
  }

  /** After the test suite's swap of one token of A at a 3% fee. */
  function TestAfterSwap(): Balances {
    Balances(101_000_000, 99_039_319, 99_999_900,
             map[User := 899_000_000], map[User := 900_960_681], map[User := 99_999_900])
  }

  /** The test suite's first deposit: the pool's vaults become non-empty and
      the user receives `sqrt(10^16) - 100` LP units. */
  lemma TestDeposit()
    ensures Deposit(TestStart(), User, 100_000_000, 100_000_000) == Ok(TestAfterDeposit())
  {
    IsqrtUnique(100_000_000 * 100_000_000, 100_000_000);
    assert Liquidity(100_000_000, 100_000_000) == Some(100_000_000);
    assert QuoteDeposit(0, 0, 1_000_000_000, 1_000_000_000, 100_000_000, 100_000_000)
             == Ok(DepositQuote(100_000_000, 100_000_000, 99_999_900));
    TestDepositHoldings();
  }

  lemma TestDepositHoldings()
    ensures TestStart().holdingsA[User := 900_000_000] == TestAfterDeposit().holdingsA
    ensures TestStart().holdingsB[User := 900_000_000] == TestAfterDeposit().holdingsB
    ensures TestStart().holdingsLP[User := 99_999_900] == TestAfterDeposit().holdingsLP
  {
    assert map[User := 1_000_000_000][User := 900_000_000] == map[User := 900_000_000];
    assert map[][User := 99_999_900] == map[User := 99_999_900];
  }

  /** The test suite's swap: 3% of the input is kept as the fee, the user's
      balance of A falls and their balance of B rises. */
  lemma TestSwap()
    ensures QuoteSwap(300, true, 900_000_000, 900_000_000, 100_000_000, 100_000_000, 1_000_000, 1)
              == Ok(SwapQuote(1_000_000, 970_000, 960_681, 10_000_000_000_000_000))
    ensures Swap(TestAfterDeposit(), 300, User, true, 1_000_000, 1) == Ok(TestAfterSwap())
  {
    assert TaxedInput(1_000_000, 300) == Some(970_000);
    assert SwapOutput(970_000, 100_000_000, 100_000_000) == Some(960_681);
    var q := SwapQuote(1_000_000, 970_000, 960_681, 10_000_000_000_000_000);
    var s := TestAfterDeposit();
    assert s.holdingsA[User := 899_000_000] == map[User := 899_000_000];
    assert s.holdingsB[User := 900_960_681] == map[User := 900_960_681];
    assert SwapTransfers(s, User, true, q) == Ok(TestAfterSwap());
    assert CheckInvariant(q.productBefore, 101_000_000) == Ok(());
  }

  /** The test suite's flow on the accounts: create the AMM, create the
      pool, deposit, swap; every instruction succeeds, the vaults end
      non-empty, and the swap lowers the user's A and raises their B. */
  method TestFlow() returns (created: Result<()>, deposited: Result<()>, swapped: Result<()>,
                             amm: Amm, pool: Pool)
    ensures created.Ok? && deposited.Ok? && swapped.Ok?
    ensures amm.id == AmmId && amm.admin == Admin && amm.fee == 300
    ensures pool.amm == AmmAccount && pool.mintA == MintA && pool.mintB == MintB
    ensures pool.reserveA > 0 && pool.reserveB > 0
    ensures Token.Balance(pool.holdingsA, User) < 900_000_000
    ensures Token.Balance(pool.holdingsB, User) > 900_000_000
  {
    amm := new Amm.Allocate();
    created := amm.CreateAmm(AmmId, Admin, 300);
    pool := new Pool.CreatePool(AmmAccount, MintA, MintB, TestStart().holdingsA, TestStart().holdingsB);
    TestDeposit();
    deposited := pool.DepositLiquidity(User, 100_000_000, 100_000_000);
    assert pool.Snapshot() == TestAfterDeposit();
    TestSwap();
    swapped := pool.SwapExactTokensForTokens(amm, User, true, 1_000_000, 1);
    assert pool.Snapshot() == TestAfterSwap();
  }

  /** A first deposit of 10000 of each side mints 9900 LP units. */
  lemma FirstDepositExample()
    ensures var s := Balances(0, 0, 0, map[User := 10_000], map[User := 10_000], map[]);
            Deposit(s, User, 10_000, 10_000)
              == Ok(Balances(10_000, 10_000, 9_900, map[User := 0], map[User := 0], map[User := 9_900]))
  {
    IsqrtUnique(10_000 * 10_000, 10_000);
    assert Liquidity(10_000, 10_000) == Some(10_000);
    assert QuoteDeposit(0, 0, 10_000, 10_000, 10_000, 10_000) == Ok(DepositQuote(10_000, 10_000, 9_900));
    assert map[User := 10_000][User := 0] == map[User := 0];
    assert map[][User := 9_900] == map[User := 9_900];
  }

  /** A swap of 1000 of A at a 0.3% fee leaves 997 after the fee
      and buys 906 of B from reserves of 10000 each; asking for at least 907
      refuses the swap. */
  lemma SlippageExample()
    ensures QuoteSwap(30, true, 1_000, 0, 10_000, 10_000, 1_000, 906)
              == Ok(SwapQuote(1_000, 997, 906, 100_000_000))
    ensures QuoteSwap(30, true, 1_000, 0, 10_000, 10_000, 1_000, 907) == Err(OutputTooSmall)
  {
  }
}
