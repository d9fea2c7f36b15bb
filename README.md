# Constant-product AMM (Anchor program) — a Dafny model

This project models the accounting core of a Solana/Anchor program that runs
constant-product automated market makers. The program has five instructions:

- `create_amm` records an AMM: its identifier, its admin and a swap fee in basis points, which must be below 10000.
- `create_pool` creates a pool for a pair of mints under an AMM. The pool gets two empty vaults and an LP mint.
- `deposit_liquidity` works as follows:
  - it clamps the requested amounts to the depositor's balances;
  - on a later deposit it rebalances the amounts against the pool's reserves;
  - it mints `sqrt(a*b)` LP units, withholding `MINIMUM_LIQUIDITY = 100` on the first deposit;
  - it transfers both tokens into the vaults.
- `withdraw_liquidity` pays each token out of its vault and burns the LP units.
- `swap_exact_tokens_for_tokens` works as follows:
  - it clamps the input;
  - it takes the fee;
  - it prices the output on the `x*y = k` curve;
  - it refuses an output below the trader's minimum;
  - it moves the tokens;
  - it checks the product invariant after the trade.

## How the model is organised

The model is spread across eight files, one module each:

- `types.dfy` (`Types`): the program's integer types, its error enum and the `Result`/`Option` wrappers.
  - `u64` overflow aborts the instruction, as it does when the program is built with overflow checks on.
  - `unwrap()` on `None` aborts too; both give `Abort`.
- `fixed_point.dfy` (`FixedPoint`): the `I64F64` fixed-point type, modelled exactly on its raw value with 64 fractional bits.
  - Covers `from_num`, `checked_mul`, `checked_div`, `checked_add`, `sqrt`, `floor` and `to_num`.
  - Includes the integer square root `Isqrt` and the lemmas that reduce fixed-point arithmetic on whole numbers to integer arithmetic.
- `token.dfy` (`Token`): the three SPL token operations the program calls: transfer, mint_to and burn. Each has its failure conditions.
- `pricing.dfy` (`Pricing`): each arithmetic step of the handlers, as written, with the condition under which it aborts.
- `amm.dfy` (`AmmProgram`): the three instructions that move tokens, specified in two layers.
  - Each is a pure function over a `Balances` snapshot: the reserves, the LP supply and every holder's balance of A, B and LP.
  - Each is also a method of the class `Pool`, which follows the handler step by step and is proved equal to that function.
  - A failing instruction is discarded as a whole. So a method writes its fields only when every step has succeeded, and on an error the pool is unchanged.
  - The class `Amm` holds the AMM's fields, and `CreateAmm` enforces the fee constraint.
- `properties.dfy` (`Properties`): what the handlers guarantee, proved on the spec functions.
- `scenarios.dfy` (`Scenarios`): the flow of the program's test suite and the worked examples, computed exactly.
- `findings.dfy` (`Findings`): five places where the code does not do what its comments and tests evidently intend.
  - Each has a concrete input that shows it, and a corrected definition with the intended property proved.

The handlers in `AmmProgram` keep the code's behaviour as written, including the five defects under "## Findings". The corrected definitions stand beside them in `Findings` and are not wired into the handlers, so every property in `Properties` is a statement about the program as it is.

## Model

| member | source | states |
|---|---|---|
| Types.Unwrap | anchor/programs/amm/src/lib.rs:159-164 | `unwrap()` succeeds exactly on `Some` and returns its value; on `None` the instruction aborts |
| Types.AddU64 | anchor/programs/amm/src/lib.rs:162 | `u64` addition succeeds iff the sum is below 2^64, and then equals the sum |
| Types.MulU64 | anchor/programs/amm/src/lib.rs:255 | `u64` multiplication succeeds iff the product is below 2^64, and then equals the product |
| FixedPoint.Isqrt | anchor/programs/amm/src/lib.rs:82-86 | the integer square root `r` satisfies `r*r <= n < (r+1)*(r+1)` |
| FixedPoint.IsqrtUnique | anchor/programs/amm/src/lib.rs:82-86 | any `r` with `r*r <= n < (r+1)^2` is `Isqrt(n)`: the root is unique |
| FixedPoint.IsqrtScaled | anchor/programs/amm/src/lib.rs:85 | the root of `n*f*f`, divided by `f`, is the root of `n` (how the 64.64 root of a whole number reduces to the integer root) |
| FixedPoint.FromNum | anchor/programs/amm/src/lib.rs:59 | `from_num` succeeds iff the integer fits the 63 integer bits, and converting back gives the same integer |
| FixedPoint.Floor | anchor/programs/amm/src/lib.rs:164 | `floor` keeps the integer part: `to_num` of the floor equals `to_num` of the value |
| FixedPoint.MulWhole | anchor/programs/amm/src/lib.rs:60 | `checked_mul` of two whole numbers is the whole product when it fits, and fails otherwise |
| FixedPoint.AddWhole | anchor/programs/amm/src/lib.rs:233 | `checked_add` of two whole numbers is the whole sum when it fits, and fails otherwise |
| FixedPoint.DivByWhole | anchor/programs/amm/src/lib.rs:179-181 | `checked_div` by a positive whole number divides the raw value, rounding down |
| FixedPoint.DivWhole | anchor/programs/amm/src/lib.rs:74 | `checked_div` of two whole numbers succeeds, and its integer part is the integer quotient |
| FixedPoint.SqrtWhole | anchor/programs/amm/src/lib.rs:85 | the integer part of the 64.64 `sqrt` of a whole number `n` is `Isqrt(n)` |
| FixedPoint.WholeInRange | anchor/programs/amm/src/lib.rs:59 | a whole number below 2^63 has a raw value within the signed 128-bit range |
| FixedPoint.IsqrtAtMost | anchor/programs/amm/src/lib.rs:82-86 | the root never exceeds its argument, so the minted liquidity fits `u64` whenever the product's root does |
| Token.Transfer | anchor/programs/amm/src/lib.rs:98-119 | a transfer succeeds iff the source holds the amount and the destination does not overflow. Too little gives `InsufficientFunds`. On success the source loses the amount and the total is conserved |
| Token.MintTo | anchor/programs/amm/src/lib.rs:132-143 | minting succeeds iff neither the supply nor the destination overflows. Both grow by exactly the amount |
| Token.Burn | anchor/programs/amm/src/lib.rs:196-208 | burning succeeds iff the holder has the amount and the supply covers it. A holder short of the amount gives `InsufficientFunds`. Supply and holder both shrink by the amount |
| Pricing.Clamp | anchor/programs/amm/src/lib.rs:40-49 | the clamped amount is the smaller of the request and the balance: at most both, and equal to one of them |
| Pricing.ClampIdempotent | anchor/programs/amm/src/lib.rs:40-49 | clamping twice is clamping once, and a request within the balance is kept |
| Pricing.Rebalance | anchor/programs/amm/src/lib.rs:58-79 | the rebalanced amounts, as written: the 64.64 steps compute the integer amounts `AsWrittenAmounts`: with `reserveA > reserveB` B is kept and A becomes `b*(ra*rb)`; otherwise A is kept and B becomes `a/(ra*rb)`. The step aborts exactly when a fixed-point step overflows or divides by zero |
| Pricing.Liquidity | anchor/programs/amm/src/lib.rs:82-86 | the liquidity is `Isqrt(a*b)`, and it is computed exactly when the product fits the fixed-point range |
| Pricing.WithdrawPayout | anchor/programs/amm/src/lib.rs:159-164 | the A payout is `amount*reserveA/(supply+100)`, rounded down. It aborts exactly when a fixed-point step overflows |
| Pricing.WithdrawPayoutB | anchor/programs/amm/src/lib.rs:178-182 | the B payout, as written, is `amount/(reserveB*(supply+100))`, rounded down. It aborts when `reserveB` is 0 |
| Pricing.PayoutBExact | anchor/programs/amm/src/lib.rs:178-182 | dividing twice in 64.64 fixed point and flooring gives the integer quotient by the product of the divisors |
| Pricing.PayoutShare | anchor/programs/amm/src/lib.rs:159-164 | the A payout is the floor of the pro-rata share `amount*reserve/(supply+100)`, bracketed from both sides; burning at most the supply pays strictly less than a non-empty reserve |
| Pricing.TaxedInput | anchor/programs/amm/src/lib.rs:223 | the taxed input plus the fee `input*fee/10000` equals the input. For any fee up to 10000 it aborts exactly on `u64` overflow of `input*fee` |
| Pricing.TaxedInputBounds | anchor/programs/amm/src/lib.rs:222-223 | with a fee below 10000, taxing succeeds iff `input*fee` fits `u64`. The taxed input is at most the input and at least `input*(10000-fee)/10000` |
| Pricing.SwapOutput | anchor/programs/amm/src/lib.rs:225-248 | the output is `taxed*reserveOut/(reserveIn+taxed)`, rounded down, and it is computed exactly when no fixed-point step overflows or divides by zero |
| Pricing.ConstantProduct | anchor/programs/amm/src/lib.rs:225-248 | paying in at least the taxed input and taking out that output never lowers `reserveIn*reserveOut`, and the output never exceeds the out-reserve |
| AmmProgram.Status | anchor/programs/amm/src/lib.rs:39-145 | an instruction's result is `Ok` iff its new state exists, and otherwise carries the same error |
| AmmProgram.Settled | anchor/programs/amm/src/lib.rs:39-145 | a failed instruction leaves the accounts as they were, and a successful one installs its new state |
| AmmProgram.ComputeDepositQuote | anchor/programs/amm/src/lib.rs:39-95 | the step-by-step computation of the deposit amounts and the minted liquidity equals the deposit quote |
| AmmProgram.ComputeSwapQuote | anchor/programs/amm/src/lib.rs:212-255 | the step-by-step computation of the swap equals the swap quote. It covers the clamp, the fee, the curve, the slippage check and the product before the trade |
| AmmProgram.Amm.Allocate | anchor/programs/amm/src/lib.rs:648-652 | a freshly initialised AMM account holds zeroes |
| AmmProgram.Amm.CreateAmm | anchor/programs/amm/src/lib.rs:23-29 | creation succeeds iff `fee < 10000`. Otherwise it fails with `InvalidFee` and changes nothing. On success id, admin and fee are stored |
| AmmProgram.Pool.CreatePool | anchor/programs/amm/src/lib.rs:31-37 | a new pool records its AMM and its two mints, with empty vaults and no LP supply |
| AmmProgram.Pool.DepositLiquidity | anchor/programs/amm/src/lib.rs:39-145 | the handler returns the deposit's status and leaves exactly the deposit's new balances, or, on error, the old ones. The AMM and the mints are unchanged |
| AmmProgram.Pool.WithdrawLiquidity | anchor/programs/amm/src/lib.rs:147-210 | the handler returns the withdrawal's status and leaves exactly the withdrawal's new balances, or, on error, the old ones |
| AmmProgram.Pool.SwapExactTokensForTokens | anchor/programs/amm/src/lib.rs:212-329 | the handler, with the fee read from its AMM, returns the swap's status and leaves exactly the swap's new balances, or, on error, the old ones |
| Properties.DepositClampsRequests | anchor/programs/amm/src/lib.rs:40-49 | a request beyond a balance behaves exactly like a request for the whole balance. A first deposit is never refused for want of funds |
| Properties.FirstDeposit | anchor/programs/amm/src/lib.rs:82-95 | on an empty pool the deposit aborts iff the product overflows, and is `DepositTooSmall` iff the root is below 100. Otherwise the depositor gets `root - 100` LP units, the supply grows by that much, and the vaults hold the clamped amounts |
| Properties.LaterDepositQuote | anchor/programs/amm/src/lib.rs:58-86 | a later deposit's quote succeeds iff the rebalancing fits and the liquidity of the rebalanced amounts fits |
| Properties.LaterDepositAborts | anchor/programs/amm/src/lib.rs:88-95 | a later deposit is never refused as too small: every failure of its quote is an abort |
| Properties.LaterDepositAmounts | anchor/programs/amm/src/lib.rs:58-79 | a later deposit takes the as-written rebalanced amounts: `(b*(ra*rb), b)` with more A in the pool, `(a, a/(ra*rb))` otherwise |
| Properties.LaterDepositMints | anchor/programs/amm/src/lib.rs:82-86 | a later deposit mints `Isqrt(amountA*amountB)` with nothing withheld |
| Properties.LaterDepositSteps | anchor/programs/amm/src/lib.rs:54-95 | a later deposit is the rebalancing followed by the root of the product |
| Properties.DepositSettles | anchor/programs/amm/src/lib.rs:97-143 | a successful deposit moves exactly the quoted amounts from the depositor into the vaults. The depositor's LP and the supply grow by the minted liquidity, and every other holder is untouched |
| Properties.WithdrawSettles | anchor/programs/amm/src/lib.rs:147-210 | a successful withdrawal pays the two as-written payouts out of the vaults and burns the LP units, and every other holder is untouched. Success needs a non-empty B reserve |
| Properties.WithdrawKeepsReserve | anchor/programs/amm/src/lib.rs:159-164 | burning at most the supply never empties a non-empty reserve of A |
| Properties.WithdrawNeedsShares | anchor/programs/amm/src/lib.rs:196-208 | burning more LP units than the holder has fails, and the whole instruction is rolled back |
| Properties.WithdrawWithinReserves | anchor/programs/amm/src/lib.rs:159-182 | burning at most the supply pays at most the A reserve and, as written, nothing of B |
| Properties.LegBNothing | anchor/programs/amm/src/lib.rs:178-182 | the as-written B payout is 0 whenever the amount is at most the supply |
| Properties.SwapQuoted | anchor/programs/amm/src/lib.rs:212-255 | a successful quote satisfies all of the following: the input is the clamped request; the taxed input is at most the input, and equals it at a zero fee; the output follows the curve, does not exceed the out-reserve and meets the minimum; the product before is `ra*rb` |
| Properties.SwapSlippage | anchor/programs/amm/src/lib.rs:250-252 | an output below the minimum fails with `OutputTooSmall` and changes nothing |
| Properties.SwapPassedCheck | anchor/programs/amm/src/lib.rs:319-326 | a swap that succeeds passed the check as written: `ra*rb <= ra'*ra'` |
| Properties.SwapAMovesFourBalances | anchor/programs/amm/src/lib.rs:267-290 | swapping A for B moves the input from the trader to vault A and the output from vault B to the trader. Nothing else changes |
| Properties.SwapAKeepsProduct | anchor/programs/amm/src/lib.rs:267-290 | swapping A for B never lowers the product of the reserves |
| Properties.FirstDepositThenWithdraw | anchor/programs/amm/src/lib.rs:39-210 | depositing into an empty pool and withdrawing every minted unit returns no more of either token than was put in, and leaves A in the pool |
| Scenarios.TestDeposit | anchor/tests/amm.test.ts:173-207 | the test suite's deposit of 100 tokens (six decimals) of each side leaves both vaults at 10^8 and mints 99_999_900 LP units |
| Scenarios.TestSwap | anchor/tests/amm.test.ts:209-249 | the test suite's swap of one token of A at a 3% fee takes 970_000 after the fee and buys 960_681 of B. The user's A falls and their B rises |
| Scenarios.TestFlow | anchor/tests/amm.test.ts:127-249 | creating the AMM, creating the pool, depositing and swapping all succeed on the accounts. The stored fee reads back 300, the vaults end non-empty, and the user's A falls while their B rises |
| Scenarios.FirstDepositExample | anchor/programs/amm/src/lib.rs:82-95 | a first deposit of 10000 of each side mints 9900 LP units |
| Scenarios.SlippageExample | anchor/programs/amm/src/lib.rs:225-252 | 1000 of A at 0.3% against reserves of 10000 each buys 906 of B, and a minimum of 907 refuses the swap |
| Findings.RebalanceCounterexample | anchor/programs/amm/src/lib.rs:58-79 | with reserves 10/20, a deposit of 100/100 takes 100 of A and 0 of B |
| Findings.IntendedAmounts | anchor/programs/amm/src/lib.rs:58-79 | the corrected rebalancing keeps one side and sets the other to the pool's proportion, rounded down. It aborts on an empty reserve or on a result beyond `u64` |
| Findings.IntendedRebalanceExample | anchor/programs/amm/src/lib.rs:58-79 | the corrected rebalancing of 100/100 against reserves 10/20 takes 100 of A and 200 of B |
| Findings.WithdrawLegBCounterexample | anchor/programs/amm/src/lib.rs:178-182 | burning all 900 LP units of a 1000/1000 pool pays 900 of A and 0 of B |
| Findings.WithdrawIntendedProportional | anchor/programs/amm/src/lib.rs:159-182 | the corrected withdrawal pays `amount*reserve/(supply+100)` of each token, and never empties a non-empty reserve when at most the supply is burnt |
| Findings.IntendedWithdrawExample | anchor/programs/amm/src/lib.rs:159-182 | the corrected withdrawal of 900 units from the 1000/1000 pool pays 900 of each token |
| Findings.DrainedPoolReachable | anchor/programs/amm/src/lib.rs:39-329 | a first deposit of 10000 of each side, a withdrawal of all 9900 LP units and a swap of 999900 A at no fee lead to reserves 1000000/1 with no LP units outstanding |
| Findings.LaterDepositCounterexample | anchor/programs/amm/src/lib.rs:82-86 | into that pool, a deposit of 1000000 A and 1 B mints 1000 LP units, and withdrawing them at once pays 1818181 A: more A than was put in |
| Findings.IntendedLiquidity | anchor/programs/amm/src/lib.rs:82-86 | the corrected LP units of a later deposit: the largest number of units that both amounts pay for at the pool's price of `reserve/(supply+100)` per unit. It aborts on an empty reserve or a result beyond `u64` |
| Findings.IntendedDepositNoProfit | anchor/programs/amm/src/lib.rs:82-86 | with the corrected units, withdrawing at once what a deposit minted pays out, on each side, no more than the deposit put in |
| Findings.SwapBReversed | anchor/programs/amm/src/lib.rs:291-315 | every successful swap of B for A, as written, gives the trader `input` of A and takes `output` of B |
| Findings.SwapBCounterexample | anchor/programs/amm/src/lib.rs:291-315 | a trader offering 100 of B receives 100 of A and loses 5000 of B |
| Findings.InvariantCheckCounterexample | anchor/programs/amm/src/lib.rs:319-326 | a fair swap whose reserves' product grows is refused with `InvariantViolated` |
| Findings.SwapIntendedDirection | anchor/programs/amm/src/lib.rs:267-315 | the corrected swap, in both directions, takes the input from the trader into the sold side's vault and pays the output from the bought side's vault |
| Findings.SwapIntendedKeepsProduct | anchor/programs/amm/src/lib.rs:319-326 | the corrected swap never fails the invariant check, and never lowers `reserveA*reserveB` |
| Findings.IntendedSwapExample | anchor/programs/amm/src/lib.rs:319-326 | the swap refused above goes through under the corrected check |

## Left out

- Account validation: PDA seeds and bumps, associated token accounts, `init` and `has_one` checks, signer checks.
  - The pool's link to its AMM (`has_one = amm` on the swap) is modelled only as the swap method being given its `Amm`.
  - `Pool.CreatePool` requires the two mints to differ, because two vaults for the same mint and authority would be the same `init` account.
- An uninitialised token account reads as a zero balance instead of failing account validation.
- `InvalidMint` is declared in the error enum and never raised by the program. It is declared in the model for completeness.
- Cross-program invocation: signer seeds, and the `reload()` of the vaults after the CPIs. The token program is modelled by `Token.Transfer`, `Token.MintTo` and `Token.Burn` on plain balances.
- `msg!` logging, compute budget and rent.
- Concurrency: a failing instruction is modelled as rolled back as a whole, which is what the runtime does.
- `I64F64` negative values and its bit layout. The model keeps non-negative raw values below 2^127.
  - `sqrt` is assumed to round down.
  - `to_num` is assumed to truncate the fraction.
  - `from_num` of an integer at or above 2^63 is assumed to abort (`FixedPoint.FromNum`).
- `u64` arithmetic in the handlers is assumed to abort on overflow, as in a release build with overflow checks.
- `Findings.IntendedAmounts`: the corrected rebalancing uses exact integer division. A 64.64 quotient followed by `to_num` can round one unit lower whenever the 64.64 ratio is inexact (reserves 4/3 with 3 of B give 3 of A in 64.64, 4 here).
- `Findings.IntendedLiquidity` is likewise stated in exact integer arithmetic, and it is not wired into the deposit handler.
- `Properties.FirstDepositThenWithdraw`: the no-profit round trip is proved only for a first deposit into an empty pool. For a later deposit it fails as written, because the minted units ignore the LP supply; `Findings.LaterDepositCounterexample` shows a withdrawal that pays out more than was deposited.
- The counter program in the same workspace, and the test suite's setup of mints and token accounts.

## Findings

| source | as written | input that shows it | evidently intended | confidence | as-written member | corrected member |
|---|---|---|---|---|---|---|
| anchor/programs/amm/src/lib.rs:59-78 | the deposit "ratio" is `reserveA * reserveB`, and A is multiplied by it (or B divided by it) | reserves 10/20, deposit 100/100: takes 100 of A and 0 of B | keep one side and scale the other by the pool's proportion, e.g. 100/200 | not executed | Findings.RebalanceCounterexample | Findings.IntendedAmounts |
| anchor/programs/amm/src/lib.rs:178-182 | the B payout divides the amount by `reserveB` and then by `supply + 100`, so it is 0 whenever the amount is at most the supply | pool 1000/1000 with supply 900, withdraw 900: pays 900 of A, 0 of B | `amount * reserveB / (supply + 100)`, like the A payout | not executed | Findings.WithdrawLegBCounterexample | Findings.WithdrawIntendedProportional |
| anchor/programs/amm/src/lib.rs:291-315 | selling B moves `input` from vault A to the trader and `output` from the trader to vault B | reserves 10000/100, trader offers 100 of B: receives 100 of A, loses 5000 of B | the trader pays `input` of B into vault B and receives `output` of A from vault A | not executed | Findings.SwapBCounterexample | Findings.SwapIntendedDirection |
| anchor/programs/amm/src/lib.rs:82-86 | a later deposit mints `sqrt(a*b)` LP units whatever the LP supply | after `Findings.DrainedPoolReachable`, reserves 1000000/1 with supply 0: depositing 1000000 A and 1 B mints 1000 units, whose withdrawal pays 1818181 A | mint the depositor's share of the outstanding units, `min(a*(supply+100)/reserveA, b*(supply+100)/reserveB)` | not executed | Findings.LaterDepositCounterexample | Findings.IntendedDepositNoProfit |
| anchor/programs/amm/src/lib.rs:324 | the check compares the old product with `reserveA' * reserveA'` | reserves 1000/4000, swap 100 of A at no fee: the product grows, yet `InvariantViolated` | compare with `reserveA' * reserveB'` | not executed | Findings.InvariantCheckCounterexample | Findings.SwapIntendedKeepsProduct |
