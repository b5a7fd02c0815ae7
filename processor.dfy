/** The staking program run against a mutable ledger. Each handler performs
    its checks and its writes step by step in the order the program makes
    them, writing into the ledger as it goes; `Execute` is the runtime's
    transaction around one instruction, which discards every write of a
    failed instruction. Each method is proved against the net effect stated
    in module Program. */
module Processor {
  import opened Bytes
  import opened Results
  import opened Addresses
  import opened Records
  import opened Tokens
  import opened Reward
  import opened Instruction
  import opened Program
  import Properties

  class Ledger {
    /** The address this program is deployed at. */
    const programId: Pubkey
    /** Accounts owned by this program, with the record each holds. */
    var records: map<Pubkey, Record>
    /** Token holdings, by (owner, mint). */
    var balances: Balances
    /** Metadata accounts of the metadata program; the staking program only reads them. */
    const metadata: map<Pubkey, Metadata>

    function View(): State
      reads this
    {
      Program.State(records, balances, metadata)
    }

    /** The ledger's invariant: records match their addresses, and every
        active stake is backed by the NFT in custody. */
    ghost predicate Valid()
      reads this
    {
      WellTyped(programId, records) && Custody(programId, View())
    }

    /** A ledger on which the program has not yet created any account. */
    constructor (programId: Pubkey, balances: Balances, metadata: map<Pubkey, Metadata>)
      ensures this.programId == programId
      ensures View() == Program.State(map[], balances, metadata)
      ensures Valid()
    {
      this.programId := programId;
      this.records := map[];
      this.balances := balances;
      this.metadata := metadata;
    }

    /** The system-program transfer, allocate and assign that give this
        program a zero-filled account at one of its derived addresses. The
        funder pays for it and must sign. */
    method Allocate(funder: AccountMeta, address: Pubkey, zero: Record) returns (r: Result<()>)
      modifies this`records
      ensures r.Ok? <==> funder.isSigner
      ensures r.Err? ==> r.error == PrivilegeEscalation
      ensures records == if r.Ok? then old(records)[address := zero] else old(records)
    {
      if !funder.isSigner {
        return Err(PrivilegeEscalation);
      }
      records := records[address := zero];
      r := Ok(());
    }

    /** Borsh `serialize` of a record into the account's data. */
    method Serialize(address: Pubkey, record: Record)
      modifies this`records
      ensures records == old(records)[address := record]
    {
      records := records[address := record];
    }

    /** The invocation of the associated-token program's create instruction. */
    method CreateHolding(funder: AccountMeta, address: Pubkey, wallet: Pubkey, mint: Pubkey) returns (r: Result<()>)
      modifies this`balances
      ensures r == Tokens.CreateHolding(old(balances), funder.isSigner, address, wallet, mint).Status()
      ensures balances == if r.Ok? then Tokens.CreateHolding(old(balances), funder.isSigner, address, wallet, mint).value
                          else old(balances)
    {
      var created := Tokens.CreateHolding(balances, funder.isSigner, address, wallet, mint);
      if created.Err? {
        return Err(created.error);
      }
      balances := created.value;
      r := Ok(());
    }

    /** The invocation of the token program's transfer instruction. */
    method Transfer(from: Holding, to: Holding, amount: U64) returns (r: Result<()>)
      modifies this`balances
      ensures r == Tokens.Transfer(old(balances), from, to, amount).Status()
      ensures balances == if r.Ok? then Tokens.Transfer(old(balances), from, to, amount).value else old(balances)
    {
      var moved := Tokens.Transfer(balances, from, to, amount);
      if moved.Err? {
        return Err(moved.error);
      }
      balances := moved.value;
      r := Ok(());
    }

    /** The invocation of the token program's close_account instruction. */
    method CloseHolding(h: Holding) returns (r: Result<()>)
      modifies this`balances
      ensures r == Tokens.Close(old(balances), h).Status()
      ensures balances == if r.Ok? then Tokens.Close(old(balances), h).value else old(balances)
    {
      var closed := Tokens.Close(balances, h);
      if closed.Err? {
        return Err(closed.error);
      }
      balances := closed.value;
      r := Ok(());
    }

    /** Creates the holding of (wallet, mint) unless `existing` is already there. */
    method EnsureHolding(funder: AccountMeta, address: Pubkey, wallet: Pubkey, mint: Pubkey, existing: Holding)
      returns (r: Result<()>)
      modifies this`balances
      ensures r == Program.EnsureHolding(old(balances), funder, address, wallet, mint, existing).Status()
      ensures balances == if r.Ok? then Program.EnsureHolding(old(balances), funder, address, wallet, mint, existing).value
                          else old(balances)
    {
      if existing in balances {
        return Ok(());
      }
      r := CreateHolding(funder, address, wallet, mint);
    }

    method Withdraw(accounts: seq<AccountMeta>, amount: U64) returns (r: Result<()>)
      modifies this`balances
      ensures r == HandleWithdraw(old(View()), programId, accounts, amount).Status()
      ensures r.Ok? ==> View() == HandleWithdraw(old(View()), programId, accounts, amount).value
      ensures records == old(records)
    {
      if |accounts| < 9 {
        return Err(NotEnoughAccountKeys);
      }
      var payer, payerRewardHolder, vaultRewardHolder, vaultInfo, rewardMintInfo, tokenInfo :=
        accounts[0], accounts[1], accounts[2], accounts[3], accounts[4], accounts[6];
      if payer.key != ADMIN || !payer.isSigner {
        return Err(Custom(0x231));
      }
      var vaultAddress := VaultAddress(programId);
      var payerRewardAddress := Ata(payer.key, REWARD_MINT);
      var vaultRewardAddress := Ata(vaultInfo.key, REWARD_MINT);
      if vaultAddress != vaultInfo.key {
        return Err(Custom(0x261));
      }
      if payerRewardAddress != payerRewardHolder.key {
        return Err(Custom(0x262));
      }
      if vaultRewardAddress != vaultRewardHolder.key {
        return Err(Custom(0x263));
      }
      if tokenInfo.key != TOKEN_PROGRAM {
        return Err(IncorrectProgramId);
      }
      var payerHolding := Holding(payer.key, REWARD_MINT);
      r := EnsureHolding(payer, payerRewardHolder.key, payer.key, rewardMintInfo.key, payerHolding);
      if r.Err? {
        return;
      }
      r := Transfer(Holding(vaultInfo.key, REWARD_MINT), payerHolding, amount);
    }

    method AddToWhitelist(accounts: seq<AccountMeta>, price: U64) returns (r: Result<()>)
      modifies this`records
      ensures r == HandleAddToWhitelist(old(View()), programId, accounts, price).Status()
      ensures r.Ok? ==> View() == HandleAddToWhitelist(old(View()), programId, accounts, price).value
      ensures r.Err? ==> records == old(records)
    {
      if |accounts| < 5 {
        return Err(NotEnoughAccountKeys);
      }
      var payer, collection, whitelistInfo, rentInfo := accounts[0], accounts[1], accounts[2], accounts[4];
      if rentInfo.key != RENT_SYSVAR {
        return Err(InvalidArgument);
      }
      if payer.key != ADMIN || !payer.isSigner {
        return Err(Custom(0x31));
      }
      var dataAddress := WhitelistAddress(programId, collection.key);
      if whitelistInfo.key != dataAddress {
        return Err(Custom(0x32));
      }
      if whitelistInfo.key !in records {
        var funded := Allocate(payer, dataAddress, ZERO_RATE);
        assert funded.Ok?;  // the payer signed
      }
      Serialize(whitelistInfo.key, RateRecord(RateData(price)));
      r := Ok(());
    }

    method GenerateVault(accounts: seq<AccountMeta>, minPeriod: U64, rewardPeriod: U64) returns (r: Result<()>)
      modifies this`records
      ensures r == HandleGenerateVault(old(View()), programId, accounts, minPeriod, rewardPeriod).Status()
      ensures r.Ok? ==> View() == HandleGenerateVault(old(View()), programId, accounts, minPeriod, rewardPeriod).value
      // the vault is allocated before the caller is checked
      ensures r == Err(Custom(0x02)) && VaultAddress(programId) !in old(records) ==>
                records == old(records)[VaultAddress(programId) := ZERO_CONTRACT]
    {
      if |accounts| < 4 {
        return Err(NotEnoughAccountKeys);
      }
      var payer, pda, rentInfo := accounts[0], accounts[2], accounts[3];
      if rentInfo.key != RENT_SYSVAR {
        return Err(InvalidArgument);
      }
      var vaultPda := VaultAddress(programId);
      if pda.key != vaultPda {
        return Err(Custom(0x00));
      }
      if pda.key !in records {
        r := Allocate(payer, vaultPda, ZERO_CONTRACT);
        if r.Err? {
          return;
        }
      }
      if payer.key != ADMIN || !payer.isSigner {
        return Err(Custom(0x02));
      }
      Serialize(pda.key, ContractRecord(ContractData(minPeriod, rewardPeriod)));
      r := Ok(());
    }

    method Stake(accounts: seq<AccountMeta>, now: U64) returns (r: Result<()>)
      modifies this
      ensures r == HandleStake(old(View()), programId, accounts, now).Status()
      ensures r.Ok? ==> View() == HandleStake(old(View()), programId, accounts, now).value
      // the stake record is written before the metadata, whitelist, vault and holding checks
      ensures |accounts| >= 12 && r.Err? && r.error.Custom? && r.error.code in {0x03, 0x900, 0x902, 0x901, 0x06, 0x07, 0x08, 0x09} ==>
                accounts[10].key in records && records[accounts[10].key] == StakeRecord(StakeData(now, accounts[0].key, true))
    {
      if |accounts| < 12 {
        return Err(NotEnoughAccountKeys);
      }
      ghost var s0 := View();
      var payer, mint, tokenProgram, rentInfo, stakeInfo := accounts[0], accounts[1], accounts[6], accounts[8], accounts[10];
      if tokenProgram.key != TOKEN_PROGRAM {
        return Err(Custom(0x345));
      }
      if rentInfo.key != RENT_SYSVAR {
        return Err(InvalidArgument);
      }
      var stakeData := StakeAddress(programId, mint.key);
      if !payer.isSigner {
        return Err(Custom(0x11));
      }
      if stakeData != stakeInfo.key {
        return Err(Custom(0x10));
      }
      if stakeInfo.key !in records {
        var funded := Allocate(payer, stakeData, ZERO_STAKE);
        assert funded.Ok?;  // the payer signed
      }
      var record := StakeRecord(StakeData(now, payer.key, true));
      Serialize(stakeInfo.key, record);
      assert View() == s0.(records := s0.records[stakeInfo.key := record]);
      CheckAndTakeCustodyAfterWrite(s0, programId, accounts, record);
      r := CheckAndTakeCustody(accounts);
    }

    /** Stake after the record write: its remaining checks, then the token movement. */
    method CheckAndTakeCustody(accounts: seq<AccountMeta>) returns (r: Result<()>)
      requires |accounts| >= 12
      modifies this`balances
      ensures r == Program.CheckAndTakeCustody(old(View()), programId, accounts).Status()
      ensures r.Ok? ==> balances == Program.CheckAndTakeCustody(old(View()), programId, accounts).value
    {
      var payer, mint, metadataInfo, vaultInfo, source, destination, whitelistInfo :=
        accounts[0], accounts[1], accounts[2], accounts[3], accounts[4], accounts[5], accounts[11];
      if MetadataAddress(mint.key) != metadataInfo.key {
        return Err(Custom(0x03));
      }
      var first := FirstCreator(View(), metadataInfo.key);
      if first.Err? {
        return Err(first.error);
      }
      var cndy := first.value;
      var wlDataAddress := WhitelistAddress(programId, cndy.address);
      if whitelistInfo.key != wlDataAddress {
        return Err(Custom(0x900));
      }
      if whitelistInfo.key !in records {
        return Err(Custom(0x902));
      }
      if ReadRate(records, whitelistInfo.key).None? {
        return Err(Custom(0x901));
      }
      if !cndy.verified {
        return Err(Custom(0x06));
      }
      var vault := VaultAddress(programId);
      if vault != vaultInfo.key {
        return Err(Custom(0x07));
      }
      if Ata(payer.key, mint.key) != source.key {
        return Err(Custom(0x08));
      }
      if Ata(vault, mint.key) != destination.key {
        return Err(Custom(0x09));
      }
      r := TakeCustody(payer, destination.key, vaultInfo.key, mint.key);
    }

    /** Stake's token movement, in source order. */
    method TakeCustody(payer: AccountMeta, destination: Pubkey, vault: Pubkey, mint: Pubkey) returns (r: Result<()>)
      modifies this`balances
      ensures r == Program.TakeCustody(old(balances), payer, destination, vault, mint).Status()
      ensures r.Ok? ==> balances == Program.TakeCustody(old(balances), payer, destination, vault, mint).value
    {
      r := EnsureHolding(payer, destination, vault, mint, Holding(vault, mint));
      if r.Err? {
        return;
      }
      r := Transfer(Holding(payer.key, mint), Holding(vault, mint), 1);
    }

    method Unstake(accounts: seq<AccountMeta>, now: U64) returns (r: Result<()>)
      modifies this
      ensures r == HandleUnstake(old(View()), programId, accounts, now).Status()
      ensures r.Ok? ==> View() == HandleUnstake(old(View()), programId, accounts, now).value
    {
      if |accounts| < 15 {
        return Err(NotEnoughAccountKeys);
      }
      var claim := CheckUnstake(accounts, now);
      if claim.Err? {
        return Err(claim.error);
      }
      r := ReturnCustody(accounts, claim.value.reward);
      if r.Err? {
        return;
      }
      Serialize(accounts[6].key, StakeRecord(claim.value.stake.(active := false)));
    }

    /** Unstake's checks, in source order; nothing changes. */
    method CheckUnstake(accounts: seq<AccountMeta>, now: U64) returns (r: Result<Claim>)
      requires |accounts| >= 15
      ensures r == Program.CheckUnstake(View(), programId, accounts, now)
    {
      var payer, nft, tokenInfo, stakeInfo, vaultInfo := accounts[0], accounts[2], accounts[3], accounts[6], accounts[7];
      var payerRewardHolder, vaultRewardHolder, payerNftHolder, vaultNftHolder := accounts[8], accounts[9], accounts[10], accounts[11];
      var metadataInfo, whitelistInfo, rewardMintInfo := accounts[12], accounts[13], accounts[14];
      var stakeAddress := StakeAddress(programId, nft.key);
      var vaultAddress := VaultAddress(programId);
      if tokenInfo.key != TOKEN_PROGRAM {
        return Err(Custom(0x345));
      }
      if stakeAddress != stakeInfo.key {
        return Err(Custom(0x60));
      }
      if vaultAddress != vaultInfo.key {
        return Err(Custom(0x61));
      }
      if Ata(payer.key, REWARD_MINT) != payerRewardHolder.key {
        return Err(Custom(0x62));
      }
      if Ata(vaultInfo.key, REWARD_MINT) != vaultRewardHolder.key {
        return Err(Custom(0x63));
      }
      if Ata(payer.key, nft.key) != payerNftHolder.key {
        return Err(Custom(0x64));
      }
      if Ata(vaultInfo.key, nft.key) != vaultNftHolder.key {
        return Err(Custom(0x65));
      }
      if MetadataAddress(nft.key) != metadataInfo.key {
        return Err(Custom(0x66));
      }
      if REWARD_MINT != rewardMintInfo.key {
        return Err(Custom(0x67));
      }
      var first := FirstCreator(View(), metadataInfo.key);
      if first.Err? {
        return Err(first.error);
      }
      var cndy := first.value;
      if whitelistInfo.key != WhitelistAddress(programId, cndy.address) {
        return Err(Custom(0x910));
      }
      var rate := ReadRate(records, whitelistInfo.key);
      if rate.None? {
        return Err(Custom(0x911));
      }
      var vault := ReadContract(records, vaultInfo.key);
      if vault.None? {
        return Err(Custom(0x912));
      }
      var stake := ReadStake(records, stakeInfo.key);
      if stake.None? {
        return Err(Custom(0x913));
      }
      var stakeData := stake.value;
      if !cndy.verified {
        return Err(Custom(0x106));
      }
      if !stakeData.active {
        return Err(Custom(0x107));
      }
      if stakeData.staker != payer.key {
        return Err(Custom(0x108));
      }
      if now < stakeData.timestamp {
        return Err(Panic(SubtractOverflow));
      }
      if now - stakeData.timestamp < vault.value.minPeriod {
        return Err(Custom(0x109));
      }
      var reward := CheckedReward(now - stakeData.timestamp, vault.value.rewardPeriod, rate.value.price);
      if reward.Err? {
        return Err(reward.error);
      }
      r := Ok(Claim(stakeData, reward.value));
    }

    /** Unstake's transfers and the closing of the vault's NFT holding, in source order. */
    method ReturnCustody(accounts: seq<AccountMeta>, reward: U64) returns (r: Result<()>)
      requires |accounts| >= 15
      modifies this`balances
      ensures r == Program.ReturnCustody(old(balances), accounts, reward).Status()
      ensures r.Ok? ==> balances == Program.ReturnCustody(old(balances), accounts, reward).value
    {
      var payer, nft, vaultInfo := accounts[0], accounts[2], accounts[7];
      var payerRewardHolder, payerNftHolder, rewardMintInfo := accounts[8], accounts[10], accounts[14];
      var payerReward, vaultReward := Holding(payer.key, REWARD_MINT), Holding(vaultInfo.key, REWARD_MINT);
      var payerNft, vaultNft := Holding(payer.key, nft.key), Holding(vaultInfo.key, nft.key);
      r := EnsureHolding(payer, payerRewardHolder.key, payer.key, rewardMintInfo.key, payerReward);
      if r.Err? {
        return;
      }
      r := Transfer(vaultReward, payerReward, reward);
      if r.Err? {
        return;
      }
      r := EnsureHolding(payer, payerNftHolder.key, payer.key, nft.key, payerNft);
      if r.Err? {
        return;
      }
      r := Transfer(vaultNft, payerNft, 1);
      if r.Err? {
        return;
      }
      r := CloseHolding(vaultNft);
    }

    /** `process_instruction`: decode the payload, then run its handler. */
    method ProcessInstruction(data: seq<Byte>, accounts: seq<AccountMeta>, now: U64) returns (r: Result<()>)
      modifies this
      ensures r == Program.ProcessInstruction(old(View()), programId, data, accounts, now).Status()
      ensures r.Ok? ==> View() == Program.ProcessInstruction(old(View()), programId, data, accounts, now).value
    {
      var instruction := Decode(data);
      if instruction.None? {
        return Err(Panic(DecodeFailed));
      }
      match instruction.value
      case Withdraw(amount) =>
        r := Withdraw(accounts, amount);
      case AddToWhitelist(price) =>
        r := AddToWhitelist(accounts, price);
      case Unstake =>
        r := Unstake(accounts, now);
      case Stake =>
        r := Stake(accounts, now);
      case GenerateVault(minPeriod, rewardPeriod) =>
        r := GenerateVault(accounts, minPeriod, rewardPeriod);
    }

    /** One transaction: the runtime keeps the instruction's writes only if it succeeds. */
    method Execute(data: seq<Byte>, accounts: seq<AccountMeta>, now: U64) returns (r: Result<()>)
      modifies this
      ensures Outcome(r, View()) == Program.Execute(old(View()), programId, data, accounts, now)
      ensures r.Err? ==> View() == old(View())
      ensures old(Valid()) ==> Valid()
    {
      var savedRecords, savedBalances := records, balances;
      r := ProcessInstruction(data, accounts, now);
      if r.Err? {
        records, balances := savedRecords, savedBalances;
      }
      Properties.ExecutePreservesInvariants(old(View()), programId, data, accounts, now);
    }
  }
}
