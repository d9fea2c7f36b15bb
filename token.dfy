/** The token program's instructions that the AMM invokes (`transfer`,
    `mint_to`, `burn`), as their effect on the balances involved.  Each
    instruction either applies in full or fails with the token program's
    error and changes nothing. */
module Token {
  import opened Types

  /** The balance of a holder's token account; an account that does not exist
      yet reads as empty (it is created empty when needed). */
  function Balance(holdings: map<Pubkey, u64>, holder: Pubkey): u64 {
    if holder in holdings then holdings[holder] else 0
  }

  /** `token::transfer` of `amount` from `source` to a different account
      `dest`: fails when the source holds too little or the destination
      would overflow; otherwise it moves the amount and creates no tokens. */
  function Transfer(source: u64, dest: u64, amount: u64): (r: Result<(u64, u64)>)
    ensures r.Ok? <==> amount <= source && dest + amount < U64_LIMIT
    ensures amount > source ==> r == Err(InsufficientFunds)
    ensures r.Err? ==> r.error in {InsufficientFunds, TokenOverflow}
    ensures r.Ok? ==> r.value.0 == source - amount
    ensures r.Ok? ==> r.value.0 + r.value.1 == source + dest
  {
    if source < amount then Err(InsufficientFunds)
    else if dest + amount >= U64_LIMIT then Err(TokenOverflow)
    else Ok((source - amount, dest + amount))
  }

  /** `token::mint_to`: credits `amount` new tokens to `dest` and raises the
      mint's `supply` by the same amount; fails when either would overflow. */
  function MintTo(supply: u64, dest: u64, amount: u64): (r: Result<(u64, u64)>)
    ensures r.Ok? <==> supply + amount < U64_LIMIT && dest + amount < U64_LIMIT
    ensures r.Err? ==> r.error == TokenOverflow
    ensures r.Ok? ==> r.value.0 - supply == amount && r.value.1 - dest == amount
  {
    if dest + amount >= U64_LIMIT then Err(TokenOverflow)
    else if supply + amount >= U64_LIMIT then Err(TokenOverflow)
    else Ok((supply + amount, dest + amount))
  }

  /** `token::burn`: destroys `amount` tokens of `source`, lowering the mint's
      `supply` by the same amount; fails when the holder has too few. */
  function Burn(supply: u64, source: u64, amount: u64): (r: Result<(u64, u64)>)
    ensures r.Ok? <==> amount <= source && amount <= supply
    ensures amount > source ==> r == Err(InsufficientFunds)
    ensures r.Ok? ==> supply - r.value.0 == amount && source - r.value.1 == amount
  {
    if source < amount then Err(InsufficientFunds)
    else if supply < amount then Err(TokenOverflow)
    else Ok((supply - amount, source - amount))
  }
}
