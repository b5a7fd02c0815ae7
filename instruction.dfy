/** The tagged instruction record of the staking program and its Borsh wire
    form: one tag byte in declaration order (GenerateVault = 0, Stake = 1,
    Unstake = 2, AddToWhitelist = 3, Withdraw = 4) followed by the variant's
    u64 fields, little-endian. */
module Instruction {
  import opened Bytes
  import opened Results

  datatype StakeInstruction =
    | GenerateVault(minPeriod: U64, rewardPeriod: U64)
    | Stake
    | Unstake
    | AddToWhitelist(price: U64)
    | Withdraw(amount: U64)

  function Tag(i: StakeInstruction): Byte {
    match i
    case GenerateVault(_, _) => 0
    case Stake => 1
    case Unstake => 2
    case AddToWhitelist(_) => 3
    case Withdraw(_) => 4
  }

  function Encode(i: StakeInstruction): (data: seq<Byte>)
    ensures |data| > 0 && data[0] == Tag(i)
  {
    match i
    case GenerateVault(minPeriod, rewardPeriod) => [0] + U64Bytes(minPeriod) + U64Bytes(rewardPeriod)
    case Stake => [1]
    case Unstake => [2]
    case AddToWhitelist(price) => [3] + U64Bytes(price)
    case Withdraw(amount) => [4] + U64Bytes(amount)
  }

  /** `try_from_slice_unchecked`: reads a tag and the fields it needs and
      ignores whatever follows; an unknown tag or a short payload fails. */
  function Decode(data: seq<Byte>): Option<StakeInstruction> {
    if |data| == 0 then None
    else if data[0] == 0 then
      if |data| < 17 then None else Some(GenerateVault(U64Of(data[1..9]), U64Of(data[9..17])))
    else if data[0] == 1 then Some(Stake)
    else if data[0] == 2 then Some(Unstake)
    else if data[0] == 3 then
      if |data| < 9 then None else Some(AddToWhitelist(U64Of(data[1..9])))
    else if data[0] == 4 then
      if |data| < 9 then None else Some(Withdraw(U64Of(data[1..9])))
    else None
  }

  /** Every instruction decodes from its encoding, whatever bytes follow it. */
  lemma DecodeEncode(i: StakeInstruction, rest: seq<Byte>)
    ensures Decode(Encode(i) + rest) == Some(i)
  {
    var data := Encode(i) + rest;
    match i
    case GenerateVault(minPeriod, rewardPeriod) =>
      assert data[1..9] == U64Bytes(minPeriod);
      assert data[9..17] == U64Bytes(rewardPeriod);
    case AddToWhitelist(price) =>
      assert data[1..9] == U64Bytes(price);
    case Withdraw(amount) =>
      assert data[1..9] == U64Bytes(amount);
    case Stake =>
    case Unstake =>
  }

  /** Conversely, whatever decodes starts with the encoding of what it decodes to. */
  lemma DecodeOnlyEncodings(data: seq<Byte>)
    ensures Decode(data).Some? ==> Encode(Decode(data).value) <= data
  {
    if Decode(data).Some? {
      var i := Decode(data).value;
      match i
      case GenerateVault(minPeriod, rewardPeriod) =>
        assert Encode(i) == [data[0]] + data[1..9] + data[9..17];
        assert data[..17] == Encode(i);
      case AddToWhitelist(price) =>
        assert data[..9] == Encode(i);
      case Withdraw(amount) =>
        assert data[..9] == Encode(i);
      case Stake =>
        assert data[..1] == Encode(i);
      case Unstake =>
        assert data[..1] == Encode(i);
    }
  }
}
