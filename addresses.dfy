/** Ledger addresses. An ordinary address (a wallet, a mint, a program or a
    sysvar) is named by its base58 text; a program derived address is made
    from the deriving program and its seeds, as `find_program_address` makes
    it. Derivation is therefore deterministic and injective: two derivations
    give the same address only from the same program and the same seeds, and
    a derived address is never an ordinary one. */
module Addresses {

  datatype Pubkey =
    | Key(name: string)
    | Pda(program: Pubkey, seeds: seq<Seed>)

  /** One seed: literal bytes, or the 32 bytes of an address. */
  datatype Seed = Text(text: string) | KeyBytes(key: Pubkey)

  /** The all-zero address: also what an all-zero `staker` field reads as. */
  const SYSTEM_PROGRAM: Pubkey := Key("11111111111111111111111111111111")
  const TOKEN_PROGRAM: Pubkey := Key("TokenkegQfeZyiNwAJbNbGKPFXCWuBvf9Ss623VQ5DA")
  const ASSOCIATED_TOKEN_PROGRAM: Pubkey := Key("ATokenGPvbdGVxr1b2hvZbsiqW5xWH25efTNsLJA8knL")
  const METADATA_PROGRAM: Pubkey := Key("metaqbxxUerdq28cj1RbAWkYQm3ybzjb6a8bt518x1s")
  const RENT_SYSVAR: Pubkey := Key("SysvarRent111111111111111111111111111111111")

  /** The compiled-in administrator and reward token. */
  const ADMIN: Pubkey := Key("Ek6Vqf4cCq6zXAp9TwSqeAbQXm8Eo3Y8DV7abbJYntwv")
  const REWARD_MINT: Pubkey := Key("Aoz9EBZPZ8oQHnuV8UY5bCV87xJ5DpwFcy84TrRWBCzp")

  function Derive(program: Pubkey, seeds: seq<Seed>): Pubkey {
    Pda(program, seeds)
  }

  /** The vault: seeds ["vault"]. */
  function VaultAddress(programId: Pubkey): Pubkey {
    Derive(programId, [Text("vault")])
  }

  /** The price record of a collection: seeds ["whitelist", collection]. */
  function WhitelistAddress(programId: Pubkey, collection: Pubkey): Pubkey {
    Derive(programId, [Text("whitelist"), KeyBytes(collection)])
  }

  /** The stake record of a mint: seeds [mint]. */
  function StakeAddress(programId: Pubkey, mint: Pubkey): Pubkey {
    Derive(programId, [KeyBytes(mint)])
  }

  /** The metadata account of a mint in the metadata program. */
  function MetadataAddress(mint: Pubkey): Pubkey {
    Derive(METADATA_PROGRAM, [Text("metadata"), KeyBytes(METADATA_PROGRAM), KeyBytes(mint)])
  }

  /** `get_associated_token_address`: the holding account of `wallet` for `mint`. */
  function Ata(wallet: Pubkey, mint: Pubkey): Pubkey {
    Derive(ASSOCIATED_TOKEN_PROGRAM, [KeyBytes(wallet), KeyBytes(TOKEN_PROGRAM), KeyBytes(mint)])
  }

  /** The address families the program checks against never overlap, and
      each is injective in its key. */
  lemma DerivedAddressesDistinct(programId: Pubkey, a: Pubkey, b: Pubkey, c: Pubkey, d: Pubkey)
    ensures VaultAddress(programId) != WhitelistAddress(programId, a)
    ensures VaultAddress(programId) != StakeAddress(programId, a)
    ensures WhitelistAddress(programId, a) != StakeAddress(programId, b)
    ensures WhitelistAddress(programId, a) == WhitelistAddress(programId, b) ==> a == b
    ensures StakeAddress(programId, a) == StakeAddress(programId, b) ==> a == b
    ensures MetadataAddress(a) == MetadataAddress(b) ==> a == b
    ensures Ata(a, b) == Ata(c, d) ==> a == c && b == d
    ensures !Ata(a, b).Key? && !VaultAddress(programId).Key?
  {
  }
}
