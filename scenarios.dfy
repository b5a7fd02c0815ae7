/** Sequences of instructions as a client sends them, with the accounts in
    the order each handler expects. */
module Scenarios {
  import opened Bytes
  import opened Results
  import opened Addresses
  import opened Records
  import opened Tokens
  import opened Reward
  import opened Instruction
  import opened Program
  import opened Properties

  /** Stake's accounts for `payer` staking `mint` of `collection`, signed by
      the payer (the system and associated-token program slots are not read). */
  predicate IsStakeAccounts(a: seq<AccountMeta>, programId: Pubkey, payer: Pubkey, mint: Pubkey, collection: Pubkey) {
    var vault := VaultAddress(programId);
    && |a| == 12 && a[0] == AccountMeta(payer, true) && a[1].key == mint && a[2].key == MetadataAddress(mint)
    && a[3].key == vault && a[4].key == Ata(payer, mint) && a[5].key == Ata(vault, mint)
    && a[6].key == TOKEN_PROGRAM && a[8].key == RENT_SYSVAR
    && a[10].key == StakeAddress(programId, mint) && a[11].key == WhitelistAddress(programId, collection)
  }

  /** Unstake's accounts for `payer` taking `mint` of `collection` back,
      signed by the payer as the one who funds any holding that is missing. */
  predicate IsUnstakeAccounts(a: seq<AccountMeta>, programId: Pubkey, payer: Pubkey, mint: Pubkey, collection: Pubkey) {
    var vault := VaultAddress(programId);
    && |a| == 15 && a[0] == AccountMeta(payer, true) && a[2].key == mint && a[3].key == TOKEN_PROGRAM
    && a[6].key == StakeAddress(programId, mint) && a[7].key == vault
    && a[8].key == Ata(payer, REWARD_MINT) && a[9].key == Ata(vault, REWARD_MINT)
    && a[10].key == Ata(payer, mint) && a[11].key == Ata(vault, mint)
    && a[12].key == MetadataAddress(mint) && a[13].key == WhitelistAddress(programId, collection)
    && a[14].key == REWARD_MINT
  }

  /** The NFT's metadata names `collection` as its first, verified creator. */
  predicate VerifiedBy(s: State, mint: Pubkey, collection: Pubkey) {
    FirstCreator(s, MetadataAddress(mint)) == Ok(Creator(collection, true))
  }

  /** The holding's balance, zero when it does not exist. */
  function BalanceOf(b: Balances, h: Holding): nat {
    if h in b then b[h] else 0
  }

  /** The ledger a stake of `mint` by `payer` can start from. */
  ghost predicate ReadyToStake(s: State, programId: Pubkey, payer: Pubkey, mint: Pubkey, collection: Pubkey) {
    && payer.Key? && mint != REWARD_MINT
    && ReadContract(s.records, VaultAddress(programId)) == Some(ContractData(86400, 3600))
    && ReadRate(s.records, WhitelistAddress(programId, collection)) == Some(RateData(10))
    && VerifiedBy(s, mint, collection)
    && Holding(payer, mint) in s.balances && s.balances[Holding(payer, mint)] >= 1
    && BalanceOf(s.balances, Holding(VaultAddress(programId), mint)) == 0
  }

  /** Staking from such a ledger succeeds: the stake record is {t0, payer,
      active}, the vault holds exactly the one unit, the rest keeps its balance. */
  lemma StakeFromReady(s: State, programId: Pubkey, payer: Pubkey, mint: Pubkey, collection: Pubkey,
                       accounts: seq<AccountMeta>, t0: U64)
    requires ReadyToStake(s, programId, payer, mint, collection)
    requires IsStakeAccounts(accounts, programId, payer, mint, collection)
    ensures var o := Execute(s, programId, Encode(Stake), accounts, t0);
      var vault := VaultAddress(programId);
      && o.result == Ok(())
      && o.state.records == s.records[StakeAddress(programId, mint) := StakeRecord(StakeData(t0, payer, true))]
      && o.state.metadata == s.metadata
      && Holding(payer, mint) in o.state.balances && o.state.balances[Holding(payer, mint)] == s.balances[Holding(payer, mint)] - 1
      && Holding(vault, mint) in o.state.balances && o.state.balances[Holding(vault, mint)] == 1
      && forall h :: h in s.balances && h != Holding(payer, mint) && h != Holding(vault, mint) ==>
           h in o.state.balances && o.state.balances[h] == s.balances[h]
  {
    EncodedDecodes(Stake);
    assert CheckAndTakeCustody(s, programId, accounts).Ok?;
    StakeMovesOneUnit(s, programId, accounts, t0);
  }

  /** The ledger once `payer` has staked `mint` at `t0` from a ready ledger. */
  ghost predicate StakedAt(s: State, programId: Pubkey, payer: Pubkey, mint: Pubkey, collection: Pubkey, t0: U64) {
    && payer.Key? && mint != REWARD_MINT
    && ReadContract(s.records, VaultAddress(programId)) == Some(ContractData(86400, 3600))
    && ReadRate(s.records, WhitelistAddress(programId, collection)) == Some(RateData(10))
    && VerifiedBy(s, mint, collection)
    && ReadStake(s.records, StakeAddress(programId, mint)) == Some(StakeData(t0, payer, true))
    && Holding(payer, mint) in s.balances && s.balances[Holding(payer, mint)] + 1 < U64_LIMIT
    && Holding(VaultAddress(programId), mint) in s.balances && s.balances[Holding(VaultAddress(programId), mint)] == 1
  }

  /** One hour after staking, with a minimum period of one day, the stake
      cannot be taken back (0x109) and nothing changes. */
  lemma EarlyUnstakeRefused(s: State, programId: Pubkey, payer: Pubkey, mint: Pubkey, collection: Pubkey,
                            accounts: seq<AccountMeta>, t0: U64)
    requires StakedAt(s, programId, payer, mint, collection, t0) && t0 + 3600 < U64_LIMIT
    requires IsUnstakeAccounts(accounts, programId, payer, mint, collection)
    ensures Execute(s, programId, Encode(Unstake), accounts, t0 + 3600) ==
            Outcome(Err(Custom(0x109)), s)
  {
    assert UnstakeReachesGuards(s, programId, accounts);
    UnstakeGuards(s, programId, accounts, t0 + 3600);
  }

  /** 25 hours after staking, with a reward period of one hour and a price
      of 10, taking the stake back pays 250 and returns the NFT. */
  lemma LateUnstakePays(s: State, programId: Pubkey, payer: Pubkey, mint: Pubkey, collection: Pubkey,
                        accounts: seq<AccountMeta>, t0: U64)
    requires StakedAt(s, programId, payer, mint, collection, t0) && t0 + 90000 < U64_LIMIT
    requires IsUnstakeAccounts(accounts, programId, payer, mint, collection)
    requires Holding(VaultAddress(programId), REWARD_MINT) in s.balances
    requires s.balances[Holding(VaultAddress(programId), REWARD_MINT)] >= 250
    requires BalanceOf(s.balances, Holding(payer, REWARD_MINT)) + 250 < U64_LIMIT
    ensures var o := Execute(s, programId, Encode(Unstake), accounts, t0 + 90000);
      var vault := VaultAddress(programId);
      && o.result == Ok(())
      && BalanceOf(o.state.balances, Holding(payer, mint)) == s.balances[Holding(payer, mint)] + 1
      && Holding(vault, mint) !in o.state.balances
      && BalanceOf(o.state.balances, Holding(vault, REWARD_MINT)) == s.balances[Holding(vault, REWARD_MINT)] - 250
      && BalanceOf(o.state.balances, Holding(payer, REWARD_MINT)) == BalanceOf(s.balances, Holding(payer, REWARD_MINT)) + 250
      && o.state.records == s.records[StakeAddress(programId, mint) := StakeRecord(StakeData(t0, payer, false))]
      && o.state.metadata == s.metadata
  {
    EncodedDecodes(Unstake);
    RewardExamples();
    assert UnstakeReachesGuards(s, programId, accounts);
    CheckUnstakeOk(s, programId, accounts, t0 + 90000);
    assert CheckUnstake(s, programId, accounts, t0 + 90000) == Ok(Claim(StakeData(t0, payer, true), 250));
    assert ReturnCustody(s.balances, accounts, 250).Ok?;
    var b := ReturnCustody(s.balances, accounts, 250).value;
    ReturnCustodyMoves(s.balances, accounts, 250);
    assert Execute(s, programId, Encode(Unstake), accounts, t0 + 90000) ==
           Outcome(Ok(()), s.(records := s.records[StakeAddress(programId, mint) := StakeRecord(StakeData(t0, payer, false))], balances := b));
  }

  /** With a minimum period of one day, a reward period of one hour and a
      price of 10: a stake is refused back after one hour (0x109, nothing
      changes) and after 25 hours returns the NFT with a reward of 250,
      leaving the stake record inactive with its timestamp and staker. */
  lemma StakeThenUnstake(s: State, programId: Pubkey, payer: Pubkey, mint: Pubkey, collection: Pubkey,
                         stakeAccounts: seq<AccountMeta>, unstakeAccounts: seq<AccountMeta>, t0: U64)
    requires ReadyToStake(s, programId, payer, mint, collection)
    requires IsStakeAccounts(stakeAccounts, programId, payer, mint, collection)
    requires IsUnstakeAccounts(unstakeAccounts, programId, payer, mint, collection)
    requires Holding(VaultAddress(programId), REWARD_MINT) in s.balances
    requires s.balances[Holding(VaultAddress(programId), REWARD_MINT)] >= 250
    requires BalanceOf(s.balances, Holding(payer, REWARD_MINT)) + 250 < U64_LIMIT
    requires t0 + 90000 < U64_LIMIT
    ensures var staked := Execute(s, programId, Encode(Stake), stakeAccounts, t0);
      var early := Execute(staked.state, programId, Encode(Unstake), unstakeAccounts, t0 + 3600);
      var late := Execute(staked.state, programId, Encode(Unstake), unstakeAccounts, t0 + 90000);
      var vault := VaultAddress(programId);
      && staked.result == Ok(())
      && early == Outcome(Err(Custom(0x109)), staked.state)
      && late.result == Ok(())
      && BalanceOf(late.state.balances, Holding(payer, mint)) == s.balances[Holding(payer, mint)]
      && Holding(vault, mint) !in late.state.balances
      && BalanceOf(late.state.balances, Holding(vault, REWARD_MINT)) == s.balances[Holding(vault, REWARD_MINT)] - 250
      && BalanceOf(late.state.balances, Holding(payer, REWARD_MINT)) == BalanceOf(s.balances, Holding(payer, REWARD_MINT)) + 250
      && late.state.records == s.records[StakeAddress(programId, mint) := StakeRecord(StakeData(t0, payer, false))]
  {
    var vault := VaultAddress(programId);
    StakeFromReady(s, programId, payer, mint, collection, stakeAccounts, t0);
    var s1 := Execute(s, programId, Encode(Stake), stakeAccounts, t0).state;
    assert StakedAt(s1, programId, payer, mint, collection, t0);
    assert BalanceOf(s1.balances, Holding(payer, REWARD_MINT)) == BalanceOf(s.balances, Holding(payer, REWARD_MINT));
    EarlyUnstakeRefused(s1, programId, payer, mint, collection, unstakeAccounts, t0);
    LateUnstakePays(s1, programId, payer, mint, collection, unstakeAccounts, t0);
  }

  /** A stake taken back can be made again: the inactive record left by
      Unstake is overwritten by a fresh active one. */
  lemma RestakeAfterUnstake(s: State, programId: Pubkey, payer: Pubkey, mint: Pubkey, collection: Pubkey,
                            stakeAccounts: seq<AccountMeta>, unstakeAccounts: seq<AccountMeta>, t0: U64, t1: U64)
    requires StakedAt(s, programId, payer, mint, collection, t0) && t0 + 90000 < U64_LIMIT
    requires IsStakeAccounts(stakeAccounts, programId, payer, mint, collection)
    requires IsUnstakeAccounts(unstakeAccounts, programId, payer, mint, collection)
    requires Holding(VaultAddress(programId), REWARD_MINT) in s.balances
    requires s.balances[Holding(VaultAddress(programId), REWARD_MINT)] >= 250
    requires BalanceOf(s.balances, Holding(payer, REWARD_MINT)) + 250 < U64_LIMIT
    ensures var back := Execute(s, programId, Encode(Unstake), unstakeAccounts, t0 + 90000);
      var again := Execute(back.state, programId, Encode(Stake), stakeAccounts, t1);
      && ReadStake(back.state.records, StakeAddress(programId, mint)) == Some(StakeData(t0, payer, false))
      && again.result == Ok(())
      && ReadStake(again.state.records, StakeAddress(programId, mint)) == Some(StakeData(t1, payer, true))
  {
    LateUnstakePays(s, programId, payer, mint, collection, unstakeAccounts, t0);
    var back := Execute(s, programId, Encode(Unstake), unstakeAccounts, t0 + 90000);
    assert ReadyToStake(back.state, programId, payer, mint, collection);
    StakeFromReady(back.state, programId, payer, mint, collection, stakeAccounts, t1);
  }

  /** With a reward period of zero in the vault record no Unstake can
      succeed: one that passes every other check aborts dividing by zero. */
  lemma ZeroRewardPeriodBlocksUnstake(s: State, programId: Pubkey, accounts: seq<AccountMeta>, now: U64)
    requires ReadContract(s.records, VaultAddress(programId)).Some?
    requires ReadContract(s.records, VaultAddress(programId)).value.rewardPeriod == 0
    ensures var o := Execute(s, programId, Encode(Unstake), accounts, now);
      && o == Outcome(o.result, s) && o.result.Err?
      && (UnstakeReachesGuards(s, programId, accounts) ==>
            var stake := ReadStake(s.records, accounts[6].key).value;
            var config := ReadContract(s.records, VaultAddress(programId)).value;
            stake.active && stake.staker == accounts[0].key && stake.timestamp + config.minPeriod <= now ==>
              o.result == Err(Panic(DivideByZero)))
  {
    EncodedDecodes(Unstake);
  }

  /** GenerateVault accepts a reward period of zero, and after it no Unstake
      can succeed until the vault is configured again. */
  lemma ZeroRewardPeriodAccepted(s: State, programId: Pubkey, vaultAccounts: seq<AccountMeta>, minPeriod: U64, now: U64,
                                 accounts: seq<AccountMeta>, later: U64)
    requires |vaultAccounts| >= 4 && vaultAccounts[3].key == RENT_SYSVAR && vaultAccounts[2].key == VaultAddress(programId)
    requires vaultAccounts[0] == AccountMeta(ADMIN, true)
    ensures var configured := Execute(s, programId, Encode(GenerateVault(minPeriod, 0)), vaultAccounts, now);
      && configured.result == Ok(())
      && Execute(configured.state, programId, Encode(Unstake), accounts, later).result.Err?
  {
    GenerateVaultSets(s, programId, vaultAccounts, minPeriod, 0, now);
    var configured := Execute(s, programId, Encode(GenerateVault(minPeriod, 0)), vaultAccounts, now);
    ZeroRewardPeriodBlocksUnstake(configured.state, programId, accounts, later);
  }
}
