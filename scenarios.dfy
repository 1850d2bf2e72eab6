/** Sequences of calls on one contract, and what the entry points' contracts
    let a caller conclude about them. */
module Scenarios {
  import opened RewardTypes
  import opened Distribution
  import opened Eligibility
  import opened Contract

  /** After a successful refund, a second refund of the same campaign aborts
      and issues no second transfer. */
  method RefundTwice(c: RewardsContract, sender: UInt160, key: string, first: bool, second: bool)
    returns (r1: Outcome, r2: Outcome)
    requires c.Valid()
    modifies c
    ensures c.Valid()
    ensures r1.Done? ==> r2 == Aborted(AlreadyRefunded)
    ensures r1.Done? ==> key in old(c.rewards)
    ensures r1.Done? && key in old(c.rewards) ==>
              var info := old(c.rewards)[key];
              && c.transfers == old(c.transfers) + [TransferCall(info.token, info.facilitator, info.amount, true)]
              && c.rewards == old(c.rewards)[key := info.(state := Refunded)]
  {
    r1 := c.Refund(sender, key, first);
    r2 := c.Refund(sender, key, second);
  }

  /** Submitting the same citizens twice leaves the ledger as one submission
      does. */
  method ResubmitCitizens(c: RewardsContract, sender: UInt160, key: string, cs: seq<UInt160>)
    returns (r1: Outcome, r2: Outcome)
    requires c.Valid()
    modifies c
    ensures c.Valid()
    ensures r1.Done? ==> r2.Done? && c.eligible == Submitted(old(c.eligible), key, cs)
    ensures r1.Aborted? ==> r2 == r1 && c.eligible == old(c.eligible)
  {
    r1 := c.SubmitCitizens(sender, key, Some(cs));
    r2 := c.SubmitCitizens(sender, key, Some(cs));
    if r1.Done? {
      SubmittedIdempotent(old(c.eligible), key, cs);
    }
  }

  /** LockRewards does not look at the state, so it turns a Refunded campaign
      back into a Locked one and a second Refund then succeeds: the
      facilitator is sent the whole deposit twice. */
  method RefundLockRefund(c: RewardsContract, admin: UInt160, key: string)
    returns (r1: Outcome, r2: Outcome, r3: Outcome)
    requires c.Valid()
    requires admin in c.admins && key in c.rewards
    requires c.rewards[key].state == Opened || c.rewards[key].state == Locked
    modifies c
    ensures c.Valid()
    ensures r1 == Done && r2 == Done && r3 == Done
    ensures var info := old(c.rewards)[key];
            var refund := TransferCall(info.token, info.facilitator, info.amount, true);
            c.transfers == old(c.transfers) + [refund, refund]
  {
    r1 := c.Refund(admin, key, true);
    r2 := c.LockRewards(admin, key);
    r3 := c.Refund(admin, key, true);
  }

  /** DistributeRewards does not look at the state either: a campaign can be
      distributed again, paying out against the same original amount. */
  method DistributeTwice(c: RewardsContract, admin: UInt160, key: string, top: seq<UInt160>, full: seq<UInt160>)
    returns (r1: Outcome, r2: Outcome)
    requires c.Valid()
    requires admin in c.admins && key in c.rewards
    requires FitsInteger(c.rewards[key].amount * 50)
    modifies c
    ensures c.Valid()
    ensures r1 == Done && r2 == Done
    ensures var info := old(c.rewards)[key];
            var calls := Issue(info.token, Planned(info.amount, key, old(c.eligible), top, full), i => true);
            && c.transfers == old(c.transfers) + calls + calls
            && key in c.rewards && c.rewards[key] == info.(state := Distributed)
  {
    r1 := c.DistributeRewards(admin, key, top, full, i => true);
    r2 := c.DistributeRewards(admin, key, top, full, i => true);
  }

  /** Deployment, a deposit of 1000 under a fresh key and the submission of
      three citizens leave one Opened campaign with those citizens eligible. */
  method OpenCampaign(owner: UInt160, facilitator: UInt160, token: UInt160, key: string,
                      x: UInt160, y: UInt160, z: UInt160)
    returns (c: RewardsContract)
    requires StorableKey(key)
    ensures fresh(c) && c.Valid()
    ensures owner in c.admins
    ensures c.rewards == map[key := RewardsInfo(facilitator, token, 1000, Opened)]
    ensures (x, key) in c.eligible && (y, key) in c.eligible && (z, key) in c.eligible
  {
    c := new RewardsContract();
    c.Deploy(owner, false);
    var r := c.OnNep17Payment(token, Some(facilitator), 1000, Some(key));
    assert r == Done;
    r := c.SubmitCitizens(owner, key, Some([x, y, z]));
    assert r == Done;
  }

  /** A whole campaign: the opened campaign above is locked, and a
      distribution in which every transfer is accepted pays x 100 and y and z
      250 each. */
  method Campaign(owner: UInt160, facilitator: UInt160, token: UInt160, key: string, x: UInt160, y: UInt160, z: UInt160)
    returns (c: RewardsContract)
    requires StorableKey(key)
    ensures c.Valid()
    ensures c.rewards == map[key := RewardsInfo(facilitator, token, 1000, Distributed)]
    ensures |c.events| > 0 && c.events[|c.events| - 1] == RewardDistributed(key, map[x := 100, y := 250, z := 250])
  {
    c := OpenCampaign(owner, facilitator, token, key, x, y, z);
    ExampleDistribution(token, key, c.eligible, x, y, z);
    var r := c.LockRewards(owner, key);
    r := c.DistributeRewards(owner, key, [x], [y, z], i => true);
  }
}
