/** Properties of the staking program, stated over the net effect of each
    instruction (module Program). */
module Properties {
  import opened Bytes
  import opened Results
  import opened Addresses
  import opened Records
  import opened Tokens
  import opened Reward
  import opened Instruction
  import opened Program

  /** Every holding that exists in `b` exists in `b'` with the same amount. */
  ghost predicate HoldingKept(b: Balances, b': Balances, h: Holding) {
    h in b ==> h in b' && b'[h] == b[h]
  }

  lemma EnsureHoldingKeeps(b: Balances, funder: AccountMeta, address: Pubkey, wallet: Pubkey, mint: Pubkey, existing: Holding, h: Holding)
    requires EnsureHolding(b, funder, address, wallet, mint, existing).Ok?
    ensures HoldingKept(b, EnsureHolding(b, funder, address, wallet, mint, existing).value, h)
  {
  }

  lemma WithdrawPreserves(s: State, programId: Pubkey, accounts: seq<AccountMeta>, amount: U64)
    requires WellTyped(programId, s.records) && Custody(programId, s)
    requires HandleWithdraw(s, programId, accounts, amount).Ok?
    ensures WellTyped(programId, HandleWithdraw(s, programId, accounts, amount).value.records)
    ensures Custody(programId, HandleWithdraw(s, programId, accounts, amount).value)
  {
    var s' := HandleWithdraw(s, programId, accounts, amount).value;
    var payer, payerRewardHolder, vaultInfo, rewardMintInfo := accounts[0], accounts[1], accounts[3], accounts[4];
    var payerHolding := Holding(payer.key, REWARD_MINT);
    var b1 := EnsureHolding(s.balances, payer, payerRewardHolder.key, payer.key, rewardMintInfo.key, payerHolding).value;
    forall m | ActiveStake(s'.records, StakeAddress(programId, m)) && m != REWARD_MINT
      ensures Holding(VaultAddress(programId), m) in s'.balances && s'.balances[Holding(VaultAddress(programId), m)] >= 1
    {
      EnsureHoldingKeeps(s.balances, payer, payerRewardHolder.key, payer.key, rewardMintInfo.key, payerHolding, Holding(VaultAddress(programId), m));
    }
  }

  lemma StakePreserves(s: State, programId: Pubkey, accounts: seq<AccountMeta>, now: U64)
    requires WellTyped(programId, s.records) && Custody(programId, s)
    requires HandleStake(s, programId, accounts, now).Ok?
    ensures WellTyped(programId, HandleStake(s, programId, accounts, now).value.records)
    ensures Custody(programId, HandleStake(s, programId, accounts, now).value)
  {
    var s' := HandleStake(s, programId, accounts, now).value;
    var payer, mint, vaultInfo, destination := accounts[0], accounts[1], accounts[3], accounts[5];
    var vaultHolding := Holding(vaultInfo.key, mint.key);
    var b1 := EnsureHolding(s.balances, payer, destination.key, vaultInfo.key, mint.key, vaultHolding).value;
    forall m | ActiveStake(s'.records, StakeAddress(programId, m)) && m != REWARD_MINT
      ensures Holding(VaultAddress(programId), m) in s'.balances && s'.balances[Holding(VaultAddress(programId), m)] >= 1
    {
      if m != mint.key {
        assert ActiveStake(s.records, StakeAddress(programId, m));
        EnsureHoldingKeeps(s.balances, payer, destination.key, vaultInfo.key, mint.key, vaultHolding, Holding(VaultAddress(programId), m));
      }
    }
  }

  /** Unstake's token movements touch only the holder's and the vault's
      reward and NFT holdings. */
  lemma ReturnCustodyLeavesOthers(b: Balances, accounts: seq<AccountMeta>, reward: U64)
    requires |accounts| >= 15 && ReturnCustody(b, accounts, reward).Ok?
    ensures var b' := ReturnCustody(b, accounts, reward).value;
      var payer, nft, vault := accounts[0].key, accounts[2].key, accounts[7].key;
      forall h :: h in b && h !in {Holding(payer, REWARD_MINT), Holding(vault, REWARD_MINT), Holding(payer, nft), Holding(vault, nft)} ==>
        h in b' && b'[h] == b[h]
  {
    var payer, nft, vault := accounts[0], accounts[2].key, accounts[7].key;
    var payerReward, vaultReward := Holding(payer.key, REWARD_MINT), Holding(vault, REWARD_MINT);
    var payerNft, vaultNft := Holding(payer.key, nft), Holding(vault, nft);
    var b1 := EnsureHolding(b, payer, accounts[8].key, payer.key, accounts[14].key, payerReward).value;
    var b2 := Transfer(b1, vaultReward, payerReward, reward).value;
    var b3 := EnsureHolding(b2, payer, accounts[10].key, payer.key, nft, payerNft).value;
    forall h | h in b && h !in {payerReward, vaultReward, payerNft, vaultNft}
      ensures h in ReturnCustody(b, accounts, reward).value && ReturnCustody(b, accounts, reward).value[h] == b[h]
    {
      EnsureHoldingKeeps(b, payer, accounts[8].key, payer.key, accounts[14].key, payerReward, h);
      EnsureHoldingKeeps(b2, payer, accounts[10].key, payer.key, nft, payerNft, h);
      assert h in b3 && b3[h] == b[h];
    }
  }

  lemma UnstakePreserves(s: State, programId: Pubkey, accounts: seq<AccountMeta>, now: U64)
    requires WellTyped(programId, s.records) && Custody(programId, s)
    requires HandleUnstake(s, programId, accounts, now).Ok?
    ensures WellTyped(programId, HandleUnstake(s, programId, accounts, now).value.records)
    ensures Custody(programId, HandleUnstake(s, programId, accounts, now).value)
  {
    var s' := HandleUnstake(s, programId, accounts, now).value;
    var claim := CheckUnstake(s, programId, accounts, now).value;
    var nft, vault := accounts[2].key, accounts[7].key;
    assert vault == VaultAddress(programId) && accounts[6].key == StakeAddress(programId, nft);
    ReturnCustodyLeavesOthers(s.balances, accounts, claim.reward);
    forall m | ActiveStake(s'.records, StakeAddress(programId, m)) && m != REWARD_MINT
      ensures Holding(VaultAddress(programId), m) in s'.balances && s'.balances[Holding(VaultAddress(programId), m)] >= 1
    {
      assert m != nft;
      assert ActiveStake(s.records, StakeAddress(programId, m));
    }
  }

  /** Every instruction keeps records matching their addresses and keeps
      every active stake backed by the NFT in the vault's custody. */
  lemma ExecutePreservesInvariants(s: State, programId: Pubkey, data: seq<Byte>, accounts: seq<AccountMeta>, now: U64)
    ensures WellTyped(programId, s.records) && Custody(programId, s) ==>
              WellTyped(programId, Execute(s, programId, data, accounts, now).state.records) &&
              Custody(programId, Execute(s, programId, data, accounts, now).state)
  {
    if WellTyped(programId, s.records) && Custody(programId, s) && ProcessInstruction(s, programId, data, accounts, now).Ok? {
      match Decode(data).value
      case Withdraw(amount) => WithdrawPreserves(s, programId, accounts, amount);
      case Stake => StakePreserves(s, programId, accounts, now);
      case Unstake => UnstakePreserves(s, programId, accounts, now);
      case AddToWhitelist(price) =>
      case GenerateVault(minPeriod, rewardPeriod) =>
    }
  }

  /** The instruction an encoded payload carries is the one its handler runs. */
  lemma EncodedDecodes(i: StakeInstruction)
    ensures Decode(Encode(i)) == Some(i)
  {
    DecodeEncode(i, []);
    assert Encode(i) + [] == Encode(i);
  }

  // ---------------------------------------------------------------- GenerateVault

  /** An administrator who signs sets the vault record to exactly the given
      periods, whether or not the vault existed, and changes nothing else. */
  lemma GenerateVaultSets(s: State, programId: Pubkey, accounts: seq<AccountMeta>, minPeriod: U64, rewardPeriod: U64, now: U64)
    requires |accounts| >= 4 && accounts[3].key == RENT_SYSVAR && accounts[2].key == VaultAddress(programId)
    requires accounts[0] == AccountMeta(ADMIN, true)
    ensures var o := Execute(s, programId, Encode(GenerateVault(minPeriod, rewardPeriod)), accounts, now);
      && o.result == Ok(())
      && ReadContract(o.state.records, VaultAddress(programId)) == Some(ContractData(minPeriod, rewardPeriod))
      && o.state.records - {VaultAddress(programId)} == s.records - {VaultAddress(programId)}
      && o.state.balances == s.balances && o.state.metadata == s.metadata
  {
    EncodedDecodes(GenerateVault(minPeriod, rewardPeriod));
  }

  /** A wrong vault address is refused with 0x00; a caller who is not the
      administrator or did not sign is refused with 0x02, except that a
      non-signer creating the vault is already refused when the funding
      transfer is invoked. Either way the ledger is unchanged. */
  lemma GenerateVaultRefuses(s: State, programId: Pubkey, accounts: seq<AccountMeta>, minPeriod: U64, rewardPeriod: U64, now: U64)
    requires |accounts| >= 4 && accounts[3].key == RENT_SYSVAR
    ensures var o := Execute(s, programId, Encode(GenerateVault(minPeriod, rewardPeriod)), accounts, now);
      && (accounts[2].key != VaultAddress(programId) ==> o == Outcome(Err(Custom(0x00)), s))
      && (accounts[2].key == VaultAddress(programId) && (accounts[0].key != ADMIN || !accounts[0].isSigner) ==>
            o.state == s &&
            o.result == if VaultAddress(programId) !in s.records && !accounts[0].isSigner
                        then Err(PrivilegeEscalation) else Err(Custom(0x02)))
  {
    EncodedDecodes(GenerateVault(minPeriod, rewardPeriod));
  }

  // ---------------------------------------------------------------- AddToWhitelist

  /** The administrator's signed call stores the price at the collection's
      whitelist address, overwriting any earlier price, and changes nothing else. */
  lemma AddToWhitelistSets(s: State, programId: Pubkey, accounts: seq<AccountMeta>, price: U64, now: U64)
    requires |accounts| >= 5 && accounts[4].key == RENT_SYSVAR && accounts[0] == AccountMeta(ADMIN, true)
    requires accounts[2].key == WhitelistAddress(programId, accounts[1].key)
    ensures var o := Execute(s, programId, Encode(AddToWhitelist(price)), accounts, now);
      && o.result == Ok(())
      && ReadRate(o.state.records, WhitelistAddress(programId, accounts[1].key)) == Some(RateData(price))
      && o.state.records - {accounts[2].key} == s.records - {accounts[2].key}
      && o.state.balances == s.balances && o.state.metadata == s.metadata
  {
    EncodedDecodes(AddToWhitelist(price));
  }

  /** A caller who is not the administrator or did not sign gets 0x31; a
      whitelist address not derived from the collection gets 0x32; nothing changes. */
  lemma AddToWhitelistRefuses(s: State, programId: Pubkey, accounts: seq<AccountMeta>, price: U64, now: U64)
    requires |accounts| >= 5 && accounts[4].key == RENT_SYSVAR
    ensures var o := Execute(s, programId, Encode(AddToWhitelist(price)), accounts, now);
      && (accounts[0].key != ADMIN || !accounts[0].isSigner ==> o == Outcome(Err(Custom(0x31)), s))
      && (accounts[0] == AccountMeta(ADMIN, true) && accounts[2].key != WhitelistAddress(programId, accounts[1].key) ==>
            o == Outcome(Err(Custom(0x32)), s))
  {
    EncodedDecodes(AddToWhitelist(price));
  }

  // ---------------------------------------------------------------- Withdraw

  /** Withdraw's refusals: 0x231 for a caller who is not the administrator
      or did not sign, then 0x261, 0x262, 0x263 for a wrong vault, admin
      holding or vault holding address; nothing changes. */
  lemma WithdrawRefuses(s: State, programId: Pubkey, accounts: seq<AccountMeta>, amount: U64, now: U64)
    requires |accounts| >= 9
    ensures var o := Execute(s, programId, Encode(Withdraw(amount)), accounts, now);
      && (accounts[0].key != ADMIN || !accounts[0].isSigner ==> o == Outcome(Err(Custom(0x231)), s))
      && (accounts[0] == AccountMeta(ADMIN, true) ==>
            && (accounts[3].key != VaultAddress(programId) ==> o == Outcome(Err(Custom(0x261)), s))
            && (accounts[3].key == VaultAddress(programId) && accounts[1].key != Ata(ADMIN, REWARD_MINT) ==>
                  o == Outcome(Err(Custom(0x262)), s))
            && (accounts[3].key == VaultAddress(programId) && accounts[1].key == Ata(ADMIN, REWARD_MINT) &&
                  accounts[2].key != Ata(VaultAddress(programId), REWARD_MINT) ==>
                  o == Outcome(Err(Custom(0x263)), s)))
  {
    EncodedDecodes(Withdraw(amount));
  }

  /** A successful Withdraw moves exactly `amount` reward tokens from the
      vault's reward holding to the administrator's and changes nothing else
      (beyond creating the administrator's holding when it was missing). */
  lemma WithdrawMoves(s: State, programId: Pubkey, accounts: seq<AccountMeta>, amount: U64, now: U64)
    requires Execute(s, programId, Encode(Withdraw(amount)), accounts, now).result.Ok?
    ensures var s' := Execute(s, programId, Encode(Withdraw(amount)), accounts, now).state;
      var vaultReward, adminReward := Holding(VaultAddress(programId), REWARD_MINT), Holding(ADMIN, REWARD_MINT);
      && s'.records == s.records && s'.metadata == s.metadata
      && vaultReward in s.balances && vaultReward in s'.balances && adminReward in s'.balances
      && s'.balances[vaultReward] == s.balances[vaultReward] - amount
      && s'.balances[adminReward] == (if adminReward in s.balances then s.balances[adminReward] else 0) + amount
      && s'.balances.Keys == s.balances.Keys + {adminReward}
      && forall h :: h in s.balances && h != vaultReward && h != adminReward ==> s'.balances[h] == s.balances[h]
  {
    EncodedDecodes(Withdraw(amount));
  }

  // ---------------------------------------------------------------- Stake

  /** Stake's checks, in the order they are made: 0x345 token program,
      0x11 payer not a signer, 0x10 stake address, 0x03 metadata address,
      0x900 whitelist address, 0x902 whitelist not owned by the program,
      0x06 creator not verified, 0x07 vault, 0x08 source, 0x09 destination.
      A failed check leaves the ledger unchanged, although the stake record
      was already written when the later ones run. */
  lemma StakeErrorOrder(s: State, programId: Pubkey, accounts: seq<AccountMeta>, now: U64)
    requires |accounts| >= 12 && accounts[8].key == RENT_SYSVAR
    ensures var o := Execute(s, programId, Encode(Stake), accounts, now);
      var payer, mint, metadataKey := accounts[0], accounts[1].key, accounts[2].key;
      var creator := FirstCreator(s, metadataKey);
      && (accounts[6].key != TOKEN_PROGRAM ==> o == Outcome(Err(Custom(0x345)), s))
      && (accounts[6].key == TOKEN_PROGRAM ==>
        && (!payer.isSigner ==> o == Outcome(Err(Custom(0x11)), s))
        && (payer.isSigner ==>
          && (accounts[10].key != StakeAddress(programId, mint) ==> o == Outcome(Err(Custom(0x10)), s))
          && (accounts[10].key == StakeAddress(programId, mint) ==>
            && (metadataKey != MetadataAddress(mint) ==> o == Outcome(Err(Custom(0x03)), s))
            && (metadataKey == MetadataAddress(mint) && creator.Err? ==> o == Outcome(Err(creator.error), s))
            && (metadataKey == MetadataAddress(mint) && creator.Ok? ==>
              var wl := WhitelistAddress(programId, creator.value.address);
              && (accounts[11].key != wl ==> o == Outcome(Err(Custom(0x900)), s))
              && (accounts[11].key == wl && wl !in s.records ==> o == Outcome(Err(Custom(0x902)), s))
              && (accounts[11].key == wl && wl in s.records && WellTyped(programId, s.records) ==>
                && (!creator.value.verified ==> o == Outcome(Err(Custom(0x06)), s))
                && (creator.value.verified ==>
                  && (accounts[3].key != VaultAddress(programId) ==> o == Outcome(Err(Custom(0x07)), s))
                  && (accounts[3].key == VaultAddress(programId) ==>
                    && (accounts[4].key != Ata(payer.key, mint) ==> o == Outcome(Err(Custom(0x08)), s))
                    && (accounts[4].key == Ata(payer.key, mint) && accounts[5].key != Ata(VaultAddress(programId), mint) ==>
                          o == Outcome(Err(Custom(0x09)), s)))))))))
  {
    EncodedDecodes(Stake);
  }

  /** On a ledger whose records match their addresses, Stake never reports
      an undecodable price record (0x901): the ownership check before it
      already guarantees one. */
  lemma StakeNeverReportsUnreadablePrice(s: State, programId: Pubkey, accounts: seq<AccountMeta>, now: U64)
    requires WellTyped(programId, s.records)
    ensures Execute(s, programId, Encode(Stake), accounts, now).result != Err(Custom(0x901))
  {
    EncodedDecodes(Stake);
    if |accounts| >= 12 && FirstCreator(s, accounts[2].key).Ok? {
      var wl := WhitelistAddress(programId, FirstCreator(s, accounts[2].key).value.address);
      assert wl in s.records ==> s.records[wl].RateRecord?;
    }
  }

  /** A successful Stake writes {timestamp = now, staker = payer, active}
      over whatever record the mint had, and moves exactly one unit of the
      mint from the payer's holding to the vault's; nothing else changes.
      The payer is not the vault: a derived address has no private key, so
      it never signs an instruction, and this program never invokes itself. */
  lemma StakeMovesOneUnit(s: State, programId: Pubkey, accounts: seq<AccountMeta>, now: U64)
    requires Execute(s, programId, Encode(Stake), accounts, now).result.Ok?
    requires accounts[0].key != VaultAddress(programId)
    ensures var s' := Execute(s, programId, Encode(Stake), accounts, now).state;
      var payer, mint := accounts[0].key, accounts[1].key;
      var source, custody := Holding(payer, mint), Holding(VaultAddress(programId), mint);
      && s'.records == s.records[StakeAddress(programId, mint) := StakeRecord(StakeData(now, payer, true))]
      && s'.metadata == s.metadata
      && source in s.balances && source in s'.balances && custody in s'.balances
      && s'.balances[source] == s.balances[source] - 1
      && s'.balances[custody] == (if custody in s.balances then s.balances[custody] else 0) + 1
      && s'.balances.Keys == s.balances.Keys + {custody}
      && forall h :: h in s.balances && h != source && h != custody ==> s'.balances[h] == s.balances[h]
  {
    EncodedDecodes(Stake);
  }

  // ---------------------------------------------------------------- Unstake

  /** Unstake has passed every address and decoding check: what remains are
      the guards on the stake itself. */
  ghost predicate UnstakeReachesGuards(s: State, programId: Pubkey, accounts: seq<AccountMeta>) {
    && |accounts| >= 15
    && accounts[3].key == TOKEN_PROGRAM
    && accounts[6].key == StakeAddress(programId, accounts[2].key)
    && accounts[7].key == VaultAddress(programId)
    && accounts[8].key == Ata(accounts[0].key, REWARD_MINT)
    && accounts[9].key == Ata(VaultAddress(programId), REWARD_MINT)
    && accounts[10].key == Ata(accounts[0].key, accounts[2].key)
    && accounts[11].key == Ata(VaultAddress(programId), accounts[2].key)
    && accounts[12].key == MetadataAddress(accounts[2].key)
    && accounts[14].key == REWARD_MINT
    && FirstCreator(s, accounts[12].key).Ok?
    && FirstCreator(s, accounts[12].key).value.verified
    && accounts[13].key == WhitelistAddress(programId, FirstCreator(s, accounts[12].key).value.address)
    && ReadRate(s.records, accounts[13].key).Some?
    && ReadContract(s.records, accounts[7].key).Some?
    && ReadStake(s.records, accounts[6].key).Some?
  }

  /** The stake may be taken back now: it is active, held by the caller,
      at least the minimum period old, and its reward is computable. */
  ghost predicate UnstakeDue(s: State, programId: Pubkey, accounts: seq<AccountMeta>, now: U64)
    requires UnstakeReachesGuards(s, programId, accounts)
  {
    var stake := ReadStake(s.records, accounts[6].key).value;
    var config := ReadContract(s.records, accounts[7].key).value;
    var price := ReadRate(s.records, accounts[13].key).value.price;
    && stake.active && stake.staker == accounts[0].key
    && stake.timestamp + config.minPeriod <= now
    && config.rewardPeriod > 0
    && Reward.Reward(now - stake.timestamp, config.rewardPeriod, price) < U64_LIMIT
  }

  /** Unstake's checks pass exactly when every address and record is right
      and the stake is due, and they then yield the stored stake and the
      reward (elapsed / reward_period) * price. */
  lemma CheckUnstakeOk(s: State, programId: Pubkey, accounts: seq<AccountMeta>, now: U64)
    requires |accounts| >= 15
    ensures CheckUnstake(s, programId, accounts, now).Ok? <==>
              UnstakeReachesGuards(s, programId, accounts) && UnstakeDue(s, programId, accounts, now)
    ensures CheckUnstake(s, programId, accounts, now).Ok? ==>
              var stake := ReadStake(s.records, accounts[6].key).value;
              var config := ReadContract(s.records, accounts[7].key).value;
              var price := ReadRate(s.records, accounts[13].key).value.price;
              CheckUnstake(s, programId, accounts, now).value ==
                Claim(stake, Reward.Reward(now - stake.timestamp, config.rewardPeriod, price))
  {
  }

  /** Unstake's guards: an inactive stake gets 0x107, a holder other than
      the recorded staker gets 0x108 however long the stake has lasted, and
      a stake younger than the minimum period gets 0x109; none of them
      changes the ledger. */
  lemma UnstakeGuards(s: State, programId: Pubkey, accounts: seq<AccountMeta>, now: U64)
    requires UnstakeReachesGuards(s, programId, accounts)
    ensures var o := Execute(s, programId, Encode(Unstake), accounts, now);
      var stake := ReadStake(s.records, accounts[6].key).value;
      var minPeriod := ReadContract(s.records, accounts[7].key).value.minPeriod;
      && (!stake.active ==> o == Outcome(Err(Custom(0x107)), s))
      && (stake.active && stake.staker != accounts[0].key ==> o == Outcome(Err(Custom(0x108)), s))
      && (stake.active && stake.staker == accounts[0].key && stake.timestamp <= now < stake.timestamp + minPeriod ==>
            o == Outcome(Err(Custom(0x109)), s))
  {
    EncodedDecodes(Unstake);
  }

  /** Unstake's token movements cannot succeed for a holder that is the
      vault itself: moving the NFT unit to itself leaves it in the holding
      that must then be empty to close. */
  lemma ReturnCustodyNeedsOtherHolder(b: Balances, accounts: seq<AccountMeta>, reward: U64)
    requires |accounts| >= 15 && ReturnCustody(b, accounts, reward).Ok?
    ensures accounts[0].key != accounts[7].key
  {
  }

  /** Unstake's token movements: the reward moves from the vault's reward
      holding to the holder's, the one NFT unit moves back to the holder, the
      vault's NFT holding is closed, and every other holding keeps its balance. */
  lemma ReturnCustodyMoves(b: Balances, accounts: seq<AccountMeta>, reward: U64)
    requires |accounts| >= 15 && ReturnCustody(b, accounts, reward).Ok?
    requires accounts[2].key != REWARD_MINT
    ensures accounts[0].key != accounts[7].key
    ensures var b' := ReturnCustody(b, accounts, reward).value;
      var payer, nft, vault := accounts[0].key, accounts[2].key, accounts[7].key;
      var payerReward, vaultReward := Holding(payer, REWARD_MINT), Holding(vault, REWARD_MINT);
      var payerNft, vaultNft := Holding(payer, nft), Holding(vault, nft);
      && vaultReward in b && vaultNft in b && b[vaultNft] == 1
      && payerReward in b' && payerNft in b' && vaultNft !in b'
      && b'[vaultReward] == b[vaultReward] - reward
      && b'[payerReward] == (if payerReward in b then b[payerReward] else 0) + reward
      && b'[payerNft] == (if payerNft in b then b[payerNft] else 0) + 1
      && b'.Keys == b.Keys + {payerReward, payerNft} - {vaultNft}
    ensures var b' := ReturnCustody(b, accounts, reward).value;
      var payer, nft, vault := accounts[0].key, accounts[2].key, accounts[7].key;
      forall h :: h in b && h != Holding(payer, REWARD_MINT) && h != Holding(vault, REWARD_MINT)
                  && h != Holding(payer, nft) && h != Holding(vault, nft)
                  ==> b'[h] == b[h]
  {
    ReturnCustodyNeedsOtherHolder(b, accounts, reward);
    ReturnCustodyLeavesOthers(b, accounts, reward);
    var payer, nft, vault := accounts[0], accounts[2].key, accounts[7].key;
    var payerReward, vaultReward := Holding(payer.key, REWARD_MINT), Holding(vault, REWARD_MINT);
    var payerNft, vaultNft := Holding(payer.key, nft), Holding(vault, nft);
    var b1 := EnsureHolding(b, payer, accounts[8].key, payer.key, accounts[14].key, payerReward).value;
    var b2 := Transfer(b1, vaultReward, payerReward, reward).value;
    var b3 := EnsureHolding(b2, payer, accounts[10].key, payer.key, nft, payerNft).value;
    var b4 := Transfer(b3, vaultNft, payerNft, 1).value;
    assert b1 == if payerReward in b then b else b[payerReward := 0];
    assert b3 == if payerNft in b2 then b2 else b2[payerNft := 0];
    assert b3[vaultNft] == 1 && b3[vaultNft] == b2[vaultNft] == b1[vaultNft];
  }

  /** A successful Unstake passed every check and found the stake due
      (UnstakeDue: active, held by the caller, at least the minimum period
      old, a positive reward period); it then made the token movements of
      ReturnCustodyMoves for the reward (elapsed / reward_period) * price,
      and marked the stake inactive, keeping its timestamp and staker. No
      other record changes. */
  lemma UnstakePays(s: State, programId: Pubkey, accounts: seq<AccountMeta>, now: U64)
    requires |accounts| >= 15 && HandleUnstake(s, programId, accounts, now).Ok?
    ensures UnstakeReachesGuards(s, programId, accounts) && UnstakeDue(s, programId, accounts, now)
    ensures var s' := HandleUnstake(s, programId, accounts, now).value;
      var stake := ReadStake(s.records, accounts[6].key).value;
      var config := ReadContract(s.records, accounts[7].key).value;
      var reward := Reward.Reward(now - stake.timestamp, config.rewardPeriod, ReadRate(s.records, accounts[13].key).value.price);
      && s'.records == s.records[StakeAddress(programId, accounts[2].key) := StakeRecord(stake.(active := false))]
      && reward < U64_LIMIT && ReturnCustody(s.balances, accounts, reward) == Ok(s'.balances)
  {
    var claim := CheckUnstake(s, programId, accounts, now);
    assert claim.Ok?;
    CheckUnstakeOk(s, programId, accounts, now);
  }

  /** A successful Unstake instruction is a successful Unstake handler run,
      and the runtime keeps the state the handler produced. */
  lemma ExecuteUnstakeIsHandler(s: State, programId: Pubkey, accounts: seq<AccountMeta>, now: U64)
    requires Execute(s, programId, Encode(Unstake), accounts, now).result.Ok?
    ensures HandleUnstake(s, programId, accounts, now).Ok?
    ensures Execute(s, programId, Encode(Unstake), accounts, now).state == HandleUnstake(s, programId, accounts, now).value
  {
    EncodedDecodes(Unstake);
  }

  /** A successful Unstake as the runtime applies it: the stake record turns
      inactive, keeping its timestamp and staker; the reward
      (elapsed / reward_period) * price moves from the vault's reward
      holding to the holder's; the one NFT unit moves back to the holder and
      the vault's NFT holding is closed; every other holding and record is
      unchanged. */
  lemma UnstakeMoves(s: State, programId: Pubkey, accounts: seq<AccountMeta>, now: U64)
    requires |accounts| >= 15 && Execute(s, programId, Encode(Unstake), accounts, now).result.Ok?
    requires accounts[2].key != REWARD_MINT
    ensures var s' := Execute(s, programId, Encode(Unstake), accounts, now).state;
      var payer, nft, vault, whitelist := accounts[0].key, accounts[2].key, VaultAddress(programId), accounts[13].key;
      var stakeAddress := StakeAddress(programId, nft);
      && ReadStake(s.records, stakeAddress).Some? && ReadContract(s.records, vault).Some? && ReadRate(s.records, whitelist).Some?
      && var stake, config := ReadStake(s.records, stakeAddress).value, ReadContract(s.records, vault).value;
         && stake.timestamp <= now && config.rewardPeriod > 0
         && var reward := Reward.Reward(now - stake.timestamp, config.rewardPeriod, ReadRate(s.records, whitelist).value.price);
            var payerReward, vaultReward := Holding(payer, REWARD_MINT), Holding(vault, REWARD_MINT);
            var payerNft, vaultNft := Holding(payer, nft), Holding(vault, nft);
            && s'.records == s.records[stakeAddress := StakeRecord(stake.(active := false))]
            && s'.metadata == s.metadata
            && vaultReward in s.balances && vaultNft in s.balances && s.balances[vaultNft] == 1
            && s'.balances[vaultReward] == s.balances[vaultReward] - reward
            && payerReward in s'.balances
            && s'.balances[payerReward] == (if payerReward in s.balances then s.balances[payerReward] else 0) + reward
            && payerNft in s'.balances
            && s'.balances[payerNft] == (if payerNft in s.balances then s.balances[payerNft] else 0) + 1
            && s'.balances.Keys == s.balances.Keys + {payerReward, payerNft} - {vaultNft}
            && forall h :: h in s.balances && h != payerReward && h != vaultReward && h != payerNft && h != vaultNft ==>
                 s'.balances[h] == s.balances[h]
  {
    ExecuteUnstakeIsHandler(s, programId, accounts, now);
    UnstakePays(s, programId, accounts, now);
    var stake, config := ReadStake(s.records, accounts[6].key).value, ReadContract(s.records, accounts[7].key).value;
    var reward := Reward.Reward(now - stake.timestamp, config.rewardPeriod, ReadRate(s.records, accounts[13].key).value.price);
    ReturnCustodyMoves(s.balances, accounts, reward);
  }

  /** Unstake does not ask the holder to sign: when the holder's reward and
      NFT holdings already exist, the outcome is the same whether or not the
      holder signed. */
  lemma UnstakeIgnoresSignature(s: State, programId: Pubkey, accounts: seq<AccountMeta>, now: U64)
    requires |accounts| >= 15
    requires Holding(accounts[0].key, REWARD_MINT) in s.balances && Holding(accounts[0].key, accounts[2].key) in s.balances
    ensures Execute(s, programId, Encode(Unstake), accounts, now) ==
            Execute(s, programId, Encode(Unstake), accounts[0 := accounts[0].(isSigner := !accounts[0].isSigner)], now)
  {
    EncodedDecodes(Unstake);
    var flipped := accounts[0 := accounts[0].(isSigner := !accounts[0].isSigner)];
    assert CheckUnstake(s, programId, flipped, now) == CheckUnstake(s, programId, accounts, now);
    forall reward: U64 ensures ReturnCustody(s.balances, flipped, reward) == ReturnCustody(s.balances, accounts, reward) {
      var payer, nft, vault := accounts[0].key, accounts[2].key, accounts[7].key;
      var payerReward, vaultReward := Holding(payer, REWARD_MINT), Holding(vault, REWARD_MINT);
      var b2 := Transfer(s.balances, vaultReward, payerReward, reward);
      assert b2.Ok? ==> EnsureHolding(b2.value, flipped[0], accounts[10].key, payer, nft, Holding(payer, nft)) == Ok(b2.value);
    }
  }
}
