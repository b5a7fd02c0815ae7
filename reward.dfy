/** The reward Unstake pays: whole reward periods elapsed, times the price.
    Division comes first, so a partly elapsed period earns nothing. */
module Reward {
  import opened Bytes
  import opened Results

  function Periods(elapsed: nat, rewardPeriod: nat): nat
    requires rewardPeriod > 0
  {
    elapsed / rewardPeriod
  }

  function Reward(elapsed: nat, rewardPeriod: nat, price: nat): nat
    requires rewardPeriod > 0
  {
    Periods(elapsed, rewardPeriod) * price
  }

  /** `elapsed / reward_period * price` in checked u64 arithmetic. */
  function CheckedReward(elapsed: U64, rewardPeriod: U64, price: U64): (r: Result<U64>)
    ensures rewardPeriod == 0 ==> r == Err(Panic(DivideByZero))
    ensures rewardPeriod > 0 ==> r == (if Reward(elapsed, rewardPeriod, price) < U64_LIMIT
                                       then Ok(Reward(elapsed, rewardPeriod, price))
                                       else Err(Panic(MultiplyOverflow)))
  {
    if rewardPeriod == 0 then Err(Panic(DivideByZero))
    else
      var total := elapsed / rewardPeriod * price;
      if total >= U64_LIMIT then Err(Panic(MultiplyOverflow)) else Ok(total)
  }

  /** Periods counts exactly the reward periods that have completely elapsed. */
  lemma PeriodsAreWhole(elapsed: nat, rewardPeriod: nat)
    requires rewardPeriod > 0
    ensures Periods(elapsed, rewardPeriod) * rewardPeriod <= elapsed
    ensures elapsed < (Periods(elapsed, rewardPeriod) + 1) * rewardPeriod
  {
    var k := Periods(elapsed, rewardPeriod);
    assert elapsed == k * rewardPeriod + elapsed % rewardPeriod;
  }

  /** Comparing multiples of a positive period compares the multipliers. */
  lemma MultiplesOrdered(a: nat, b: nat, p: nat)
    requires p > 0 && a * p < b * p
    ensures a < b
  {
    assert a * p - b * p == (a - b) * p;
  }

  /** The reward never decreases as time passes. */
  lemma RewardMonotone(e1: nat, e2: nat, rewardPeriod: nat, price: nat)
    requires rewardPeriod > 0 && e1 <= e2
    ensures Reward(e1, rewardPeriod, price) <= Reward(e2, rewardPeriod, price)
  {
    var k1, k2 := Periods(e1, rewardPeriod), Periods(e2, rewardPeriod);
    PeriodsAreWhole(e1, rewardPeriod);
    PeriodsAreWhole(e2, rewardPeriod);
    MultiplesOrdered(k1, k2 + 1, rewardPeriod);
    assert k1 * price <= k2 * price;
  }

  /** Within one reward period the reward stays the same. */
  lemma RewardConstantWithinPeriod(k: nat, extra: nat, rewardPeriod: nat, price: nat)
    requires extra < rewardPeriod
    ensures Reward(k * rewardPeriod + extra, rewardPeriod, price) == k * price
  {
    var e := k * rewardPeriod + extra;
    PeriodsAreWhole(e, rewardPeriod);
    var q := Periods(e, rewardPeriod);
    MultiplesOrdered(q, k + 1, rewardPeriod);
    MultiplesOrdered(k, q + 1, rewardPeriod);
  }

  /** 90000 s elapsed with one-hour periods at price 10: 25 periods, 250 tokens;
      and 5400 s earns one period's 10, not 15, since the floor comes first. */
  lemma RewardExamples()
    ensures CheckedReward(90000, 3600, 10) == Ok(250)
    ensures CheckedReward(5400, 3600, 10) == Ok(10)
  {
    RewardConstantWithinPeriod(25, 0, 3600, 10);
    RewardConstantWithinPeriod(1, 1800, 3600, 10);
  }
}
