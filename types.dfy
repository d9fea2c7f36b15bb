/** Machine integers, account keys, the program's error kinds and the
    failure-compatible wrappers used by every other module. */
module Types {

  /** 2^64: one past the largest `u64`. */
  const U64_LIMIT: nat := 0x1_0000_0000_0000_0000

  type u64 = x: int | 0 <= x < 0x1_0000_0000_0000_0000
  type u16 = x: int | 0 <= x < 0x1_0000

  /** A 32-byte public key, kept abstract as a number. */
  type Pubkey = nat

  /** `MINIMUM_LIQUIDITY`: LP units withheld on the first deposit. */
  const MINIMUM_LIQUIDITY: nat := 100

  /** Fees are expressed in basis points of this denominator. */
  const FEE_DENOMINATOR: nat := 10000

  /** The program's own error codes (`TutorialError`), a panic of the program
      (`Abort`: an `unwrap` of a failed checked operation, or an overflowing
      `u64` operation), and the two failures of the token program's
      instructions. */
  datatype Error =
    | InvalidFee
    | InvalidMint
    | DepositTooSmall
    | OutputTooSmall
    | InvariantViolated
    | Abort
    | InsufficientFunds
    | TokenOverflow

  datatype Option<+T> = None | Some(value: T) {
    predicate IsFailure() { None? }
    function PropagateFailure<U>(): Option<U> requires None? { None }
    function Extract(): T requires Some? { value }
  }

  datatype Result<+T> = Ok(value: T) | Err(error: Error) {
    predicate IsFailure() { Err? }
    function PropagateFailure<U>(): Result<U> requires Err? { Err(error) }
    function Extract(): T requires Ok? { value }
  }

  /** `.unwrap()`: a missing value panics the program. */
  function Unwrap<T>(o: Option<T>): (r: Result<T>)
    ensures r.Ok? <==> o.Some?
    ensures r.Ok? ==> r.value == o.value
    ensures r.Err? ==> r.error == Abort
  {
    match o
    case Some(v) => Ok(v)
    case None => Err(Abort)
  }

  /** `u64 + u64` with overflow checks: the sum, or nothing when it wraps. */
  function AddU64(x: u64, y: u64): (r: Option<u64>)
    ensures r.Some? <==> x + y < U64_LIMIT
    ensures r.Some? ==> r.value == x + y
  {
    if x + y < U64_LIMIT then Some(x + y) else None
  }

  /** `u64 * u64` with overflow checks: the product, or nothing when it wraps. */
  function MulU64(x: u64, y: u64): (r: Option<u64>)
    ensures r.Some? <==> x * y < U64_LIMIT
    ensures r.Some? ==> r.value == x * y
  {
    if x * y < U64_LIMIT then Some(x * y) else None
  }
}
