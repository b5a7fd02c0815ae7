/** The three records the program stores in accounts it owns, and how it
    reads them back. Their Borsh layouts are 16 bytes (ContractData), 8 bytes
    (RateData) and 41 bytes (StakeData: u64, 32-byte key, bool). Because
    `try_from_slice` must consume the whole buffer and the three sizes
    differ, an account deserializes as a given record exactly when it holds
    a record of that kind; an address this program does not own holds no
    data and deserializes as nothing. */
module Records {
  import opened Bytes
  import opened Results
  import opened Addresses

  datatype ContractData = ContractData(minPeriod: U64, rewardPeriod: U64)
  datatype RateData = RateData(price: U64)
  datatype StakeData = StakeData(timestamp: U64, staker: Pubkey, active: bool)

  datatype Record =
    | ContractRecord(contract: ContractData)
    | RateRecord(rate: RateData)
    | StakeRecord(stake: StakeData)

  /** The byte sizes the program allocates for each record. */
  const CONTRACT_SIZE: nat := 16
  const RATE_SIZE: nat := 8
  const STAKE_SIZE: nat := 8 + 32 + 1

  function Size(r: Record): nat {
    match r
    case ContractRecord(_) => CONTRACT_SIZE
    case RateRecord(_) => RATE_SIZE
    case StakeRecord(_) => STAKE_SIZE
  }

  /** What a freshly allocated (zero-filled) account of each size reads as. */
  const ZERO_CONTRACT: Record := ContractRecord(ContractData(0, 0))
  const ZERO_RATE: Record := RateRecord(RateData(0))
  const ZERO_STAKE: Record := StakeRecord(StakeData(0, SYSTEM_PROGRAM, false))

  /** `RateData::try_from_slice` on the account at `a`. */
  function ReadRate(records: map<Pubkey, Record>, a: Pubkey): (r: Option<RateData>)
    ensures r.Some? <==> a in records && Size(records[a]) == RATE_SIZE
    ensures r.Some? ==> records[a] == RateRecord(r.value)
  {
    if a in records && records[a].RateRecord? then Some(records[a].rate) else None
  }

  /** `ContractData::try_from_slice` on the account at `a`. */
  function ReadContract(records: map<Pubkey, Record>, a: Pubkey): (r: Option<ContractData>)
    ensures r.Some? <==> a in records && Size(records[a]) == CONTRACT_SIZE
    ensures r.Some? ==> records[a] == ContractRecord(r.value)
  {
    if a in records && records[a].ContractRecord? then Some(records[a].contract) else None
  }

  /** `StakeData::try_from_slice` on the account at `a`. */
  function ReadStake(records: map<Pubkey, Record>, a: Pubkey): (r: Option<StakeData>)
    ensures r.Some? <==> a in records && Size(records[a]) == STAKE_SIZE
    ensures r.Some? ==> records[a] == StakeRecord(r.value)
  {
    if a in records && records[a].StakeRecord? then Some(records[a].stake) else None
  }
}
