# NFT staking program — a verified model

The staking program is a Solana on-chain program. It has one entry point,
`process_instruction`, which decodes a tagged instruction and runs one of
five handlers:

- **GenerateVault**: the administrator configures the vault's minimum staking
  period and reward period (a `ContractData` record at the vault address).
- **AddToWhitelist**: the administrator sets the reward price of an NFT
  collection (a `RateData` record at the collection's whitelist address).
- **Stake**: a holder puts one NFT of a whitelisted, verified collection into
  the vault's custody. This writes a `StakeData` record at the mint's stake
  address.
- **Unstake**: once the minimum period has passed, the holder gets the NFT
  back and a reward of whole reward periods times the price, paid in the
  reward token.
- **Withdraw**: the administrator takes reward tokens out of the vault.

The model has two layers:

- Each instruction's net effect is a function from the ledger before it to
  an error or to the ledger after it (module `Program`).
- A `Ledger` class runs each handler step by step, in the program's order of
  checks, allocations, writes and token invocations (module `Processor`).
  Every method is proved to agree with the function. `Ledger.Execute` is the
  runtime's transaction: it throws away every write of a failed instruction.

Modules:

| module | contents |
|---|---|
| `Results` | `Option`, `Result`, and the errors: custom codes, runtime program errors, token-program errors, panics |
| `Bytes` | bytes, `U64`, and the little-endian u64 layout |
| `Instruction` | `StakeInstruction` and its Borsh wire form |
| `Addresses` | addresses; derived addresses (vault, whitelist, stake, metadata, associated token account); the compiled-in administrator and reward mint |
| `Records` | `ContractData`, `RateData`, `StakeData`, and reading them back from program-owned accounts |
| `Tokens` | token holdings by (owner, mint), and the transfer, create-account and close-account steps |
| `Reward` | the reward formula in checked u64 arithmetic |
| `Program` | each handler's net effect, `ProcessInstruction`, and the all-or-nothing `Execute` |
| `Processor` | the `Ledger` class with one method per handler |
| `Properties` | what each instruction guarantees: refusals and their error codes, exact effects, and the invariants every instruction keeps |
| `Scenarios` | stake-then-unstake sequences with concrete periods and prices |

Two invariants are preserved by every instruction (`Ledger.Valid`):

- Records match their addresses: the vault holds a `ContractData`, a
  whitelist address holds a `RateData`, and a stake address holds a
  `StakeData`.
- Custody: while a mint's stake record is active, the vault's holding of that
  mint holds at least one unit. The reward mint is excluded, because the
  vault's reward-mint holding is also the reward pool that Unstake and
  Withdraw draw from.

Both are defined in module `Program`. The model's starting state is a ledger
on which the program has created no account yet (the `Ledger` constructor);
it satisfies both invariants.

## Model

| member | source | states |
|---|---|---|
| Instruction.DecodeEncode | src/lib.rs:23-41 | Every instruction decodes from its Borsh encoding, whatever bytes follow it, because the decoder does not require the whole payload to be consumed. |
| Instruction.DecodeOnlyEncodings | src/lib.rs:69 | A payload that decodes begins with the encoding of the instruction it decodes to. |
| Bytes.U64Of | src/lib.rs:23-41 | The u64 read from 8 little-endian bytes re-encodes to exactly those bytes. |
| Bytes.U64Bytes | src/lib.rs:23-41 | A u64's 8-byte little-endian encoding reads back as that u64. |
| Bytes.LeValueOfLeBytes | src/lib.rs:23-41 | Decoding the n-byte little-endian encoding of a number below 256^n gives the number back. |
| Bytes.LeBytesOfLeValue | src/lib.rs:23-41 | Encoding the value of a byte string gives the byte string back. |
| Addresses.DerivedAddressesDistinct | src/lib.rs:94-96 | Vault, whitelist and stake addresses never coincide. Whitelist, stake, metadata and associated-token addresses are injective in their keys. |
| Records.ReadRate | src/lib.rs:308-313 | The price record deserializes exactly when the program-owned account holds an 8-byte record, and the price read is the one stored there. |
| Records.ReadContract | src/lib.rs:315-320 | The vault record deserializes exactly when the account holds a 16-byte record, and the minimum and reward periods read are the ones stored there. |
| Records.ReadStake | src/lib.rs:322-327 | The stake record deserializes exactly when the account holds a 41-byte record, and the timestamp, staker and active flag read are the ones stored there. |
| Tokens.Transfer | src/lib.rs:372-388 | A transfer succeeds iff both holdings exist, the source has enough and the destination does not overflow. On success it moves exactly `amount`, keeps the pair's total, and leaves every other holding alone. |
| Tokens.CreateHolding | src/lib.rs:351-370 | Creating an associated holding succeeds iff the address is the owner's and mint's associated address, the funder signed, and no holding exists yet. An unsigned funder is refused first, with `PrivilegeEscalation`. The new holding is empty. |
| Tokens.Close | src/lib.rs:430-445 | Closing succeeds iff the holding exists and is empty. Only that holding disappears. |
| Reward.CheckedReward | src/lib.rs:348-349 | A reward period of 0 aborts with division by zero. Otherwise the result is whole periods times the price, or an abort when that exceeds u64. |
| Reward.PeriodsAreWhole | src/lib.rs:349 | The period count is the number of completely elapsed reward periods. |
| Reward.RewardMonotone | src/lib.rs:349 | The reward never decreases as time passes. |
| Reward.RewardConstantWithinPeriod | src/lib.rs:349 | Division comes before multiplication, so the reward is constant within a period. |
| Reward.RewardExamples | src/lib.rs:348-349 | 90000 s at a 3600 s period and price 10 pays 250. 5400 s pays 10, not 15. |
| Program.CheckAndTakeCustodyAfterWrite | src/lib.rs:520-587 | Stake writes its record before its later checks run, but none of those checks reads the stake address, so the write does not change their result. |
| Processor.Ledger.Allocate | src/lib.rs:177-208 | Allocating a program account succeeds iff the funder signed. The account then reads as the zero-filled record of its size. |
| Processor.Ledger.Serialize | src/lib.rs:210-213 | Writing a record replaces the account's data and touches nothing else. |
| Processor.Ledger.CreateHolding | src/lib.rs:351-370 | The create-account invocation has exactly the effect and the error of `Tokens.CreateHolding`. |
| Processor.Ledger.Transfer | src/lib.rs:372-388 | The transfer invocation has exactly the effect and the error of `Tokens.Transfer`. |
| Processor.Ledger.CloseHolding | src/lib.rs:430-445 | The close invocation has exactly the effect and the error of `Tokens.Close`. |
| Processor.Ledger.EnsureHolding | src/lib.rs:351-370 | A missing holding is created when its owner's holding account is not yet a token account. An existing holding is left alone. |
| Processor.Ledger.Withdraw | src/lib.rs:77-151 | Withdraw's step-by-step run returns the net effect's result and leaves its ledger. No record is touched, even on failure. |
| Processor.Ledger.AddToWhitelist | src/lib.rs:152-214 | The admin and address checks come before the allocation. A failed call writes no record. |
| Processor.Ledger.GenerateVault | src/lib.rs:627-689 | The vault is allocated before the caller is checked. A failed admin check (0x02) therefore leaves a zero-filled vault behind inside the failed instruction. |
| Processor.Ledger.Stake | src/lib.rs:450-625 | The stake record {now, payer, active} is written before the metadata, whitelist, vault and holding checks. When one of them fails (0x03 … 0x09), the record is already in place within the failed instruction. The result still equals the net effect. |
| Processor.Ledger.CheckAndTakeCustody | src/lib.rs:527-623 | Stake's checks after its record write, then the token movement, agreeing with the net effect. |
| Processor.Ledger.TakeCustody | src/lib.rs:589-623 | Creates the vault's holding of the mint if it is missing, then moves one unit into it from the payer's holding. |
| Processor.Ledger.Unstake | src/lib.rs:217-448 | Unstake's checks, then the transfers and the close, then the inactive record write; equal to the net effect. |
| Processor.Ledger.CheckUnstake | src/lib.rs:246-349 | Unstake's checks, in source order, with the claim they establish; the ledger is not changed. |
| Processor.Ledger.ReturnCustody | src/lib.rs:351-445 | Pays the reward, returns the NFT and closes the vault's NFT holding, each step in source order and agreeing with the net effect. |
| Processor.Ledger.ProcessInstruction | src/lib.rs:63-76 | A payload that does not decode aborts. Otherwise the decoded instruction's handler runs. |
| Processor.Ledger.Execute | src/lib.rs:63-693 | A failed instruction leaves no trace on the ledger. Every instruction preserves the ledger invariant. |
| Properties.EnsureHoldingKeeps | src/lib.rs:351-370 | Creating a missing holding never alters an existing one. |
| Properties.WithdrawPreserves | src/lib.rs:113-150 | Withdraw keeps records well typed and keeps every active stake in custody. |
| Properties.StakePreserves | src/lib.rs:520-623 | Stake keeps records well typed and keeps every active stake in custody, including the new one. |
| Properties.ReturnCustodyLeavesOthers | src/lib.rs:351-445 | Unstake's token movements leave every holding other than the four it names with its balance. |
| Properties.UnstakePreserves | src/lib.rs:351-447 | Unstake keeps records well typed and keeps every other active stake in custody. |
| Properties.ExecutePreservesInvariants | src/lib.rs:63-693 | Every transaction of one instruction, successful or not, keeps both ledger invariants. |
| Properties.EncodedDecodes | src/lib.rs:69 | The instruction a client encodes is the instruction the program runs. |
| Properties.GenerateVaultSets | src/lib.rs:684-688 | A signed administrator call sets the vault record to exactly (min_period, reward_period), whether or not the vault existed. Nothing else changes. |
| Properties.GenerateVaultRefuses | src/lib.rs:635-682 | A wrong vault address gets 0x00 and a non-administrator or non-signer gets 0x02, except that a non-signer creating the vault is refused first by the runtime when the funding transfer is invoked (`PrivilegeEscalation`). The ledger is unchanged. |
| Properties.AddToWhitelistSets | src/lib.rs:177-213 | A signed administrator call stores the price at the collection's whitelist address, overwriting any earlier price. No other record, no holding and no metadata changes. |
| Properties.AddToWhitelistRefuses | src/lib.rs:161-170 | A non-administrator or non-signer gets 0x31. A whitelist address not derived from the collection gets 0x32. The ledger is unchanged. |
| Properties.WithdrawRefuses | src/lib.rs:89-111 | 0x231 for a non-administrator or non-signer, then 0x261, 0x262 or 0x263 for a wrong vault, administrator-holding or vault-holding address. The ledger is unchanged. |
| Properties.WithdrawMoves | src/lib.rs:113-150 | A successful Withdraw moves exactly `amount` from the vault's reward holding to the administrator's. It changes nothing else, except creating the administrator's holding when it was missing. |
| Properties.StakeErrorOrder | src/lib.rs:469-587 | Stake's refusals in order: 0x345, 0x11, 0x10, 0x03, the metadata errors, 0x900, 0x902, 0x06, 0x07, 0x08, 0x09. Each leaves the ledger unchanged although the record was written. |
| Properties.StakeNeverReportsUnreadablePrice | src/lib.rs:550-560 | On a well-typed ledger 0x901 never occurs: the ownership check before it already guarantees a price record. |
| Properties.StakeMovesOneUnit | src/lib.rs:520-525 | A successful Stake sets the stake record to {now, payer, active}, overwriting an inactive one, and moves exactly one unit from the payer's holding to the vault's. No other record, no other holding and no metadata changes. |
| Properties.CheckUnstakeOk | src/lib.rs:246-349 | Unstake's checks pass exactly when the addresses and records are right and the stake is due: active, held by the caller, past the minimum period, and with a nonzero reward period and a reward that fits u64. The claim is then the stake and whole periods times the price. |
| Properties.UnstakeGuards | src/lib.rs:334-347 | Past the address checks: inactive gets 0x107, another staker gets 0x108, too early gets 0x109. The ledger is unchanged. |
| Properties.ReturnCustodyNeedsOtherHolder | src/lib.rs:412-445 | The token return fails when the holder is the vault itself: the NFT unit moved to itself stays in the holding that must be empty to close. |
| Properties.ReturnCustodyMoves | src/lib.rs:351-445 | The reward moves from the vault's reward holding to the holder's, one NFT moves back, and the vault's NFT holding is closed. The holding set changes exactly by that, and every other holding keeps its balance. |
| Properties.UnstakePays | src/lib.rs:217-447 | A successful Unstake passed every check and found the stake due. The record becomes inactive with its timestamp and staker kept, and the balances are the movements of the computed reward. |
| Properties.UnstakeMoves | src/lib.rs:334-447 | A successful Unstake, as the runtime applies it: the record turns inactive with its timestamp and staker kept; exactly (elapsed / reward_period) * price moves from the vault's reward holding to the holder's; one NFT unit returns to the holder; the vault's NFT holding closes; nothing else changes. |
| Properties.UnstakeIgnoresSignature | src/lib.rs:217-347 | When the holder's holdings exist, the holder's signature makes no difference to Unstake. |
| Scenarios.StakeFromReady | src/lib.rs:450-625 | Staking from a ready ledger succeeds with the record {t0, payer, active} and one unit in the vault. |
| Scenarios.EarlyUnstakeRefused | src/lib.rs:344-347 | One hour after staking, with a one-day minimum, Unstake fails with 0x109 and nothing changes. |
| Scenarios.LateUnstakePays | src/lib.rs:348-447 | 25 hours after staking, with one-hour periods at price 10, Unstake pays 250, returns the NFT, closes the vault's holding and deactivates the record. |
| Scenarios.StakeThenUnstake | src/lib.rs:217-625 | Stake, then an early Unstake refused, then a late one that pays 250: the holder ends with their NFT back. |
| Scenarios.RestakeAfterUnstake | src/lib.rs:520-525 | The inactive record Unstake leaves is overwritten by a new active stake. |
| Scenarios.ZeroRewardPeriodBlocksUnstake | src/lib.rs:348-349 | With a reward period of 0 no Unstake succeeds. One that passes every other check aborts on division by zero. |
| Scenarios.ZeroRewardPeriodAccepted | src/lib.rs:627-689 | GenerateVault accepts a reward period of 0, after which no Unstake can succeed. |

## Left out

- Cross-program invocations are abstract steps (move a balance, create a
  holding, close a holding). The internals of the system, SPL Token and
  associated-token programs are not modelled.
- Address derivation is symbolic: a derived address is the program plus its
  seeds. Hashing, the bump search and the bump seed used for signing are not
  modelled, and neither is the program's ability to sign for its
  addresses.
- Rent and lamports are not modelled: the rent-exemption amount, the
  `saturating_sub` top-up, and the lamports refunded when a holding is
  closed. Only the check that the rent account is the rent sysvar is kept.
- Metadata parsing: a metadata account is only its optional creator list.
  A failed parse becomes a distinct `MetadataUnreadable` error.
- The clock is not modelled. `now` is a parameter, and the
  `unix_timestamp as u64` conversion of a negative time is not modelled.
- `msg!` logging is not modelled.
- The two compiled-in keys are constants. Their base58 parsing is not
  modelled.
- Stake and Unstake check the token-program account (0x345,
  src/lib.rs:469 and 246); only Withdraw leaves it unchecked, so there a
  wrong token program makes the token invocation fail. That failure's
  distinct error is collapsed to `IncorrectProgramId`.
- StakeMovesOneUnit: requires that the payer is not the vault. A derived
  address has no private key and never signs, and this program never
  invokes itself, but the model lets any account be marked as a signer.
- Writable flags, and the runtime's checks that a CPI was given every
  account it needs, are not modelled.
- Token supply and mint accounts are not tracked. A holding is only an
  (owner, mint) pair with a balance.
- Records are typed values, not bytes. Deserialization succeeds exactly when
  the account holds a record of the requested kind and size. Byte layouts are
  modelled only for instruction decoding.
- Arithmetic is taken to be overflow-checked. An underflow of
  `now - timestamp`, a zero reward period and a product above u64 are aborts;
  a build with wrapping arithmetic is not modelled.
- Concurrency and transaction scheduling belong to the runtime and are not
  modelled.

- UnstakeMoves: stated for an NFT whose mint is not the reward mint. For
  the reward mint the holder's and vault's reward and NFT holdings coincide,
  so the two movements add up in one holding; that case is covered only by
  UnstakePays, which gives the balances as the token steps' result.
- ReturnCustodyMoves: stated for an NFT whose mint is not the reward mint,
  for the same reason.
- A cross-program invocation that needs the funder's signature, when the
  funder did not sign, is refused by the runtime before the invoked program
  runs. The model reports it as one error, `PrivilegeEscalation`; the
  runtime's exact error value is not modelled.

Behaviour of the code worth knowing:

- AddToWhitelist checks the administrator and the whitelist address before
  it allocates the account (src/lib.rs:161-178).
- GenerateVault allocates the vault before it checks the administrator
  (src/lib.rs:643-682). Stake allocates and writes its record after its
  signer check (src/lib.rs:477-480) but before its metadata, whitelist,
  vault and holding checks.
- GenerateVault stores a reward period of 0 without complaint
  (src/lib.rs:684-688). While that configuration stands, no Unstake
  succeeds: one that fails an earlier check still returns that check's
  error, and one that passes every other check aborts dividing by zero,
  first at the logged period count (src/lib.rs:348). Configuring the vault
  again with a nonzero period lets Unstakes succeed again.
- Stake's checks run in this order: metadata address, whitelist address,
  whitelist ownership, price record, creator verified, vault, holdings
  (src/lib.rs:527-587). The stake record is written before all of them
  (src/lib.rs:520-525).
- A non-signer calling GenerateVault while the vault does not exist is
  refused by the runtime when the program invokes the system transfer that
  funds the vault (`PrivilegeEscalation`), before the 0x02 check
  (src/lib.rs:643-682).
- Unstake never checks that the holder signed (src/lib.rs:217-347). Only
  creating a missing holding for them needs their signature.
