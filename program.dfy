/** What each instruction of the staking program does to the ledger, as a
    function of the ledger before it: the error that the first failing check
    (in the order the handler makes its checks) returns, or the ledger after
    a successful run. The checks read the ledger as it is when they run;
    Stake writes its record before some of its checks, and where that makes
    a difference to what a check reads, it is noted. */
module Program {
  import opened Bytes
  import opened Results
  import opened Addresses
  import opened Records
  import opened Tokens
  import opened Reward
  import opened Instruction

  /** One creator entry of an NFT's metadata. */
  datatype Creator = Creator(address: Pubkey, verified: bool)

  /** The part of an NFT's metadata the program reads: its creator list, which may be absent. */
  datatype Metadata = Metadata(creators: Option<seq<Creator>>)

  /** The ledger as this program sees it: the accounts it owns with their
      records, the token holdings, and the (read-only) metadata accounts of
      the metadata program, by address. */
  datatype State = State(
    records: map<Pubkey, Record>,
    balances: Balances,
    metadata: map<Pubkey, Metadata>)

  /** An account passed to an instruction: its address and whether it signed. */
  datatype AccountMeta = AccountMeta(key: Pubkey, isSigner: bool)

  // The ledger invariant: records match their addresses, and staked NFTs are in custody.

  /** Every account this program owns at one of its derived addresses holds
      the record of that address's kind: the only accounts it allocates
      there are sized for that record. */
  ghost predicate WellTyped(programId: Pubkey, records: map<Pubkey, Record>) {
    && (VaultAddress(programId) in records ==> records[VaultAddress(programId)].ContractRecord?)
    && (forall c :: WhitelistAddress(programId, c) in records ==> records[WhitelistAddress(programId, c)].RateRecord?)
    && (forall m :: StakeAddress(programId, m) in records ==> records[StakeAddress(programId, m)].StakeRecord?)
  }

  /** The account at `a` holds an active stake record. */
  predicate ActiveStake(records: map<Pubkey, Record>, a: Pubkey) {
    a in records && records[a].StakeRecord? && records[a].stake.active
  }

  /** Custody: while a mint's stake record is active, the vault's holding of
      that mint exists and holds at least one unit. The reward mint itself is
      excluded, since its vault holding is also the reward pool. */
  ghost predicate Custody(programId: Pubkey, s: State) {
    forall m :: ActiveStake(s.records, StakeAddress(programId, m)) && m != REWARD_MINT ==>
      Holding(VaultAddress(programId), m) in s.balances && s.balances[Holding(VaultAddress(programId), m)] >= 1
  }

  /** The first creator of a metadata account, read as the handlers do:
      no metadata at the address fails, a missing creator list or an empty
      one aborts. */
  function FirstCreator(s: State, metadataKey: Pubkey): Result<Creator> {
    if metadataKey !in s.metadata then Err(MetadataUnreadable)
    else
      var creators := s.metadata[metadataKey].creators;
      if creators.None? then Err(Panic(CreatorsMissing))
      else if creators.value == [] then Err(Panic(NoFirstCreator))
      else Ok(creators.value[0])
  }

  /** Creates the associated holding of (wallet, mint) if it does not yet exist. */
  function EnsureHolding(b: Balances, funder: AccountMeta, address: Pubkey, wallet: Pubkey, mint: Pubkey,
                         existing: Holding): Result<Balances>
  {
    if existing in b then Ok(b) else CreateHolding(b, funder.isSigner, address, wallet, mint)
  }

  /** Withdraw{amount}: accounts [admin, admin reward holding, vault reward
      holding, vault, reward mint, system, token program, rent, associated-token program]. */
  function HandleWithdraw(s: State, programId: Pubkey, accounts: seq<AccountMeta>, amount: U64): Result<State> {
    if |accounts| < 9 then Err(NotEnoughAccountKeys)
    else
      var payer, payerRewardHolder, vaultRewardHolder, vaultInfo, rewardMintInfo, tokenInfo :=
        accounts[0], accounts[1], accounts[2], accounts[3], accounts[4], accounts[6];
      if payer.key != ADMIN || !payer.isSigner then Err(Custom(0x231))
      else if VaultAddress(programId) != vaultInfo.key then Err(Custom(0x261))
      else if Ata(payer.key, REWARD_MINT) != payerRewardHolder.key then Err(Custom(0x262))
      else if Ata(vaultInfo.key, REWARD_MINT) != vaultRewardHolder.key then Err(Custom(0x263))
      else if tokenInfo.key != TOKEN_PROGRAM then Err(IncorrectProgramId)
      else
        var payerHolding := Holding(payer.key, REWARD_MINT);
        var b1 :- EnsureHolding(s.balances, payer, payerRewardHolder.key, payer.key, rewardMintInfo.key, payerHolding);
        var b2 :- Transfer(b1, Holding(vaultInfo.key, REWARD_MINT), payerHolding, amount);
        Ok(s.(balances := b2))
  }

  /** AddToWhitelist{price}: accounts [admin, collection, whitelist record, system, rent]. */
  function HandleAddToWhitelist(s: State, programId: Pubkey, accounts: seq<AccountMeta>, price: U64): Result<State> {
    if |accounts| < 5 then Err(NotEnoughAccountKeys)
    else
      var payer, collection, whitelistInfo, rentInfo := accounts[0], accounts[1], accounts[2], accounts[4];
      if rentInfo.key != RENT_SYSVAR then Err(InvalidArgument)
      else if payer.key != ADMIN || !payer.isSigner then Err(Custom(0x31))
      else if whitelistInfo.key != WhitelistAddress(programId, collection.key) then Err(Custom(0x32))
      else Ok(s.(records := s.records[whitelistInfo.key := RateRecord(RateData(price))]))
  }

  /** GenerateVault{min_period, reward_period}: accounts [admin, system, vault, rent].
      The vault account is allocated, paid for by the caller, before the
      caller is checked; paying needs the caller's signature. */
  function HandleGenerateVault(s: State, programId: Pubkey, accounts: seq<AccountMeta>, minPeriod: U64, rewardPeriod: U64): Result<State> {
    if |accounts| < 4 then Err(NotEnoughAccountKeys)
    else
      var payer, pda, rentInfo := accounts[0], accounts[2], accounts[3];
      if rentInfo.key != RENT_SYSVAR then Err(InvalidArgument)
      else if pda.key != VaultAddress(programId) then Err(Custom(0x00))
      else if pda.key !in s.records && !payer.isSigner then Err(PrivilegeEscalation)
      else if payer.key != ADMIN || !payer.isSigner then Err(Custom(0x02))
      else Ok(s.(records := s.records[pda.key := ContractRecord(ContractData(minPeriod, rewardPeriod))]))
  }

  /** Stake: accounts [holder, mint, metadata, vault, holder NFT holding,
      vault NFT holding, token program, system, rent, associated-token
      program, stake record, whitelist record]. The stake record is written
      after the stake-address check and before the metadata check; the
      checks after it read other addresses, so they see the ledger as before. */
  function HandleStake(s: State, programId: Pubkey, accounts: seq<AccountMeta>, now: U64): Result<State> {
    if |accounts| < 12 then Err(NotEnoughAccountKeys)
    else
      var payer, mint, tokenProgram, rentInfo, stakeInfo := accounts[0], accounts[1], accounts[6], accounts[8], accounts[10];
      if tokenProgram.key != TOKEN_PROGRAM then Err(Custom(0x345))
      else if rentInfo.key != RENT_SYSVAR then Err(InvalidArgument)
      else if !payer.isSigner then Err(Custom(0x11))
      else if StakeAddress(programId, mint.key) != stakeInfo.key then Err(Custom(0x10))
      else
        var b :- CheckAndTakeCustody(s, programId, accounts);
        Ok(s.(records := s.records[stakeInfo.key := StakeRecord(StakeData(now, payer.key, true))], balances := b))
  }

  /** The part of Stake that runs after the stake record is written: the
      metadata, whitelist, vault and holding checks, then the token movement. */
  function CheckAndTakeCustody(s: State, programId: Pubkey, accounts: seq<AccountMeta>): Result<Balances>
    requires |accounts| >= 12
  {
    var payer, mint, metadataInfo, vaultInfo, source, destination, whitelistInfo :=
      accounts[0], accounts[1], accounts[2], accounts[3], accounts[4], accounts[5], accounts[11];
    if MetadataAddress(mint.key) != metadataInfo.key then Err(Custom(0x03))
    else
      var cndy :- FirstCreator(s, metadataInfo.key);
      if whitelistInfo.key != WhitelistAddress(programId, cndy.address) then Err(Custom(0x900))
      else if whitelistInfo.key !in s.records then Err(Custom(0x902))
      else if ReadRate(s.records, whitelistInfo.key).None? then Err(Custom(0x901))
      else if !cndy.verified then Err(Custom(0x06))
      else if VaultAddress(programId) != vaultInfo.key then Err(Custom(0x07))
      else if Ata(payer.key, mint.key) != source.key then Err(Custom(0x08))
      else if Ata(VaultAddress(programId), mint.key) != destination.key then Err(Custom(0x09))
      else TakeCustody(s.balances, payer, destination.key, vaultInfo.key, mint.key)
  }

  /** Writing the stake record does not change what the later checks see:
      the whitelist address they read is never a stake address. */
  lemma CheckAndTakeCustodyAfterWrite(s: State, programId: Pubkey, accounts: seq<AccountMeta>, record: Record)
    requires |accounts| >= 12
    ensures var k := StakeAddress(programId, accounts[1].key);
      CheckAndTakeCustody(s.(records := s.records[k := record]), programId, accounts) == CheckAndTakeCustody(s, programId, accounts)
  {
  }

  /** Stake's token movement: create the vault's holding of the mint when it
      is missing, then move one unit into it from the payer's holding. */
  function TakeCustody(b: Balances, payer: AccountMeta, destination: Pubkey, vault: Pubkey, mint: Pubkey): Result<Balances> {
    var b1 :- EnsureHolding(b, payer, destination, vault, mint, Holding(vault, mint));
    Transfer(b1, Holding(payer.key, mint), Holding(vault, mint), 1)
  }

  /** Unstake: accounts [holder, system, mint, token program, rent,
      associated-token program, stake record, vault, holder reward holding,
      vault reward holding, holder NFT holding, vault NFT holding, metadata,
      whitelist record, reward mint]. The holder need not sign. */
  function HandleUnstake(s: State, programId: Pubkey, accounts: seq<AccountMeta>, now: U64): Result<State> {
    if |accounts| < 15 then Err(NotEnoughAccountKeys)
    else
      var claim :- CheckUnstake(s, programId, accounts, now);
      var b :- ReturnCustody(s.balances, accounts, claim.reward);
      Ok(s.(records := s.records[accounts[6].key := StakeRecord(claim.stake.(active := false))], balances := b))
  }

  /** What Unstake's checks establish: the stake record read and the reward owed. */
  datatype Claim = Claim(stake: StakeData, reward: U64)

  /** Unstake's checks, in source order, before anything is moved. */
  function CheckUnstake(s: State, programId: Pubkey, accounts: seq<AccountMeta>, now: U64): Result<Claim>
    requires |accounts| >= 15
  {
    var payer, nft, tokenInfo, stakeInfo, vaultInfo := accounts[0], accounts[2], accounts[3], accounts[6], accounts[7];
    var payerRewardHolder, vaultRewardHolder, payerNftHolder, vaultNftHolder := accounts[8], accounts[9], accounts[10], accounts[11];
    var metadataInfo, whitelistInfo, rewardMintInfo := accounts[12], accounts[13], accounts[14];
    if tokenInfo.key != TOKEN_PROGRAM then Err(Custom(0x345))
    else if StakeAddress(programId, nft.key) != stakeInfo.key then Err(Custom(0x60))
    else if VaultAddress(programId) != vaultInfo.key then Err(Custom(0x61))
    else if Ata(payer.key, REWARD_MINT) != payerRewardHolder.key then Err(Custom(0x62))
    else if Ata(vaultInfo.key, REWARD_MINT) != vaultRewardHolder.key then Err(Custom(0x63))
    else if Ata(payer.key, nft.key) != payerNftHolder.key then Err(Custom(0x64))
    else if Ata(vaultInfo.key, nft.key) != vaultNftHolder.key then Err(Custom(0x65))
    else if MetadataAddress(nft.key) != metadataInfo.key then Err(Custom(0x66))
    else if REWARD_MINT != rewardMintInfo.key then Err(Custom(0x67))
    else
      var cndy :- FirstCreator(s, metadataInfo.key);
      if whitelistInfo.key != WhitelistAddress(programId, cndy.address) then Err(Custom(0x910))
      else if ReadRate(s.records, whitelistInfo.key).None? then Err(Custom(0x911))
      else if ReadContract(s.records, vaultInfo.key).None? then Err(Custom(0x912))
      else if ReadStake(s.records, stakeInfo.key).None? then Err(Custom(0x913))
      else
        var price := ReadRate(s.records, whitelistInfo.key).value.price;
        var vault := ReadContract(s.records, vaultInfo.key).value;
        var stake := ReadStake(s.records, stakeInfo.key).value;
        if !cndy.verified then Err(Custom(0x106))
        else if !stake.active then Err(Custom(0x107))
        else if stake.staker != payer.key then Err(Custom(0x108))
        else if now < stake.timestamp then Err(Panic(SubtractOverflow))
        else if now - stake.timestamp < vault.minPeriod then Err(Custom(0x109))
        else
          var reward :- CheckedReward(now - stake.timestamp, vault.rewardPeriod, price);
          Ok(Claim(stake, reward))
  }

  /** Unstake's token movements once every check has passed: pay `reward`
      from the vault's reward holding to the holder's, return the NFT and
      close the vault's NFT holding, creating the holder's holdings first
      where they are missing. */
  function ReturnCustody(b: Balances, accounts: seq<AccountMeta>, reward: U64): Result<Balances>
    requires |accounts| >= 15
  {
    var payer, nft, vaultInfo := accounts[0], accounts[2], accounts[7];
    var payerRewardHolder, payerNftHolder, rewardMintInfo := accounts[8], accounts[10], accounts[14];
    var payerReward, vaultReward := Holding(payer.key, REWARD_MINT), Holding(vaultInfo.key, REWARD_MINT);
    var payerNft, vaultNft := Holding(payer.key, nft.key), Holding(vaultInfo.key, nft.key);
    var b1 :- EnsureHolding(b, payer, payerRewardHolder.key, payer.key, rewardMintInfo.key, payerReward);
    var b2 :- Transfer(b1, vaultReward, payerReward, reward);
    var b3 :- EnsureHolding(b2, payer, payerNftHolder.key, payer.key, nft.key, payerNft);
    var b4 :- Transfer(b3, vaultNft, payerNft, 1);
    Close(b4, vaultNft)
  }

  /** `process_instruction`: decode, then run the handler of the instruction.
      A payload that does not decode aborts. */
  function ProcessInstruction(s: State, programId: Pubkey, data: seq<Byte>, accounts: seq<AccountMeta>, now: U64): Result<State> {
    match Decode(data)
    case None => Err(Panic(DecodeFailed))
    case Some(GenerateVault(minPeriod, rewardPeriod)) => HandleGenerateVault(s, programId, accounts, minPeriod, rewardPeriod)
    case Some(Stake) => HandleStake(s, programId, accounts, now)
    case Some(Unstake) => HandleUnstake(s, programId, accounts, now)
    case Some(AddToWhitelist(price)) => HandleAddToWhitelist(s, programId, accounts, price)
    case Some(Withdraw(amount)) => HandleWithdraw(s, programId, accounts, amount)
  }

  /** The outcome of a transaction holding one instruction. */
  datatype Outcome = Outcome(result: Result<()>, state: State)

  /** The runtime applies all of an instruction's writes or none of them. */
  function Execute(s: State, programId: Pubkey, data: seq<Byte>, accounts: seq<AccountMeta>, now: U64): Outcome {
    match ProcessInstruction(s, programId, data, accounts, now)
    case Ok(s') => Outcome(Ok(()), s')
    case Err(e) => Outcome(Err(e), s)
  }
}
