/** Token holdings and the three token-service steps the program invokes.
    Every holding account the program touches is the associated account of
    its owner and mint, so a holding is keyed by (owner, mint); its address
    is `Ata(owner, mint)`. Only the steps' effects and failure conditions are
    modelled, not the token programs themselves. */
module Tokens {
  import opened Bytes
  import opened Results
  import opened Addresses

  datatype Holding = Holding(owner: Pubkey, mint: Pubkey)

  type Balances = map<Holding, U64>

  /** The total that two holdings hold, an absent one counting as empty. */
  function PairTotal(b: Balances, h1: Holding, h2: Holding): nat {
    var first: nat := if h1 in b then b[h1] else 0;
    var second: nat := if h2 in b && h2 != h1 then b[h2] else 0;
    first + second
  }

  /** The token program's `transfer` of `amount` from one holding to
      another (the caller has already been checked as the source's owner). */
  function Transfer(b: Balances, from: Holding, to: Holding, amount: U64): (r: Result<Balances>)
    ensures r.Ok? ==> r.value.Keys == b.Keys
    ensures r.Ok? ==> PairTotal(r.value, from, to) == PairTotal(b, from, to)
    ensures r.Ok? ==> forall h :: h in b && h != from && h != to ==> r.value[h] == b[h]
    ensures r.Ok? && from != to ==> from in r.value && to in r.value && r.value[from] == b[from] - amount && r.value[to] == b[to] + amount
    ensures r.Ok? <==> from in b && to in b && amount <= b[from] && (from != to ==> b[to] + amount < U64_LIMIT)
  {
    if from !in b || to !in b then Err(Token(UninitializedAccount))
    else if b[from] < amount then Err(Token(InsufficientFunds))
    else if from == to then Ok(b)
    else if b[to] + amount >= U64_LIMIT then Err(Token(Overflow))
    else Ok(b[from := b[from] - amount][to := b[to] + amount])
  }

  /** `create_associated_token_account(funder, wallet, mint)` given the
      account at `address`. The new account is paid for by the funder, who
      must sign; the runtime refuses to pass on a signature the caller was
      not given, before the associated-token program runs. That program then
      refuses an address that is not `Ata(wallet, mint)`. The new holding is
      empty. */
  function CreateHolding(b: Balances, funderSigned: bool, address: Pubkey, wallet: Pubkey, mint: Pubkey): (r: Result<Balances>)
    ensures r.Ok? <==> address == Ata(wallet, mint) && funderSigned && Holding(wallet, mint) !in b
    ensures r.Ok? ==> r.value == b[Holding(wallet, mint) := 0]
    ensures !funderSigned ==> r == Err(PrivilegeEscalation)
  {
    if !funderSigned then Err(PrivilegeEscalation)
    else if address != Ata(wallet, mint) then Err(InvalidSeeds)
    else if Holding(wallet, mint) in b then Err(AccountAlreadyInUse)
    else Ok(b[Holding(wallet, mint) := 0])
  }

  /** The token program's `close_account`: only an empty holding can be closed. */
  function Close(b: Balances, h: Holding): (r: Result<Balances>)
    ensures r.Ok? <==> h in b && b[h] == 0
    ensures r.Ok? ==> r.value.Keys == b.Keys - {h} && forall g :: g in r.value ==> r.value[g] == b[g]
  {
    if h !in b then Err(Token(UninitializedAccount))
    else if b[h] != 0 then Err(Token(NonNativeHasBalance))
    else Ok(b - {h})
  }
}
