/** The rewards contract: its persisted storage as the fields of one object
    and its entry points as methods. Every entry point either completes or
    aborts; an aborted call persists nothing. The transaction sender, the
    calling script and the token's answers to transfer calls are parameters. */
module Contract {
  import opened RewardTypes
  import opened Distribution
  import opened Eligibility

  class RewardsContract {
    /** The owner slot; absent until the first deploy. */
    var owner: Option<UInt160>
    /** The admin map, used as a set (each admin is stored under itself). */
    var admins: set<UInt160>
    /** Campaign records by campaign key. */
    var rewards: map<string, RewardsInfo>
    /** The eligibility markers. */
    var eligible: set<(UInt160, string)>
    /** Every transfer call of a completed operation, in order. */
    var transfers: seq<TransferCall>
    /** Every notification of a completed operation, in order. */
    var events: seq<Event>

    /** Eligibility markers only exist for campaigns that exist. */
    ghost predicate Valid()
      reads this
    {
      forall p | p in eligible :: p.1 in rewards
    }

    /** Fresh, empty storage. */
    constructor ()
      ensures Valid()
      ensures owner == None && admins == {} && rewards == map[] && eligible == {}
      ensures transfers == [] && events == []
    {
      owner, admins, rewards, eligible := None, {}, map[], {};
      transfers, events := [], [];
    }

    /** The stored owner. */
    function Owner(): (r: Option<UInt160>)
      reads this
      ensures r == owner
    {
      owner
    }

    /** The admin entry stored under `address`: the address itself when it
      is an admin, absent otherwise. */
    function Admin(address: UInt160): (r: Option<UInt160>)
      reads this
      ensures r.Some? <==> address in admins
      ensures r.Some? ==> r.value == address
    {
      if address in admins then Some(address) else None
    }

    /** The host's witness check, taken to hold exactly for the sender's own
      identity; an absent identity is never witnessed. */
    static predicate Witnessed(sender: UInt160, id: Option<UInt160>)
    {
      id == Some(sender)
    }

    /** `_deploy`: on first deployment the sender becomes owner and admin; on an
      update nothing changes. */
    method Deploy(sender: UInt160, update: bool)
      requires Valid()
      modifies this
      ensures Valid()
      ensures update ==> unchanged(this)
      ensures !update ==> owner == Some(sender) && admins == old(admins) + {sender}
      ensures rewards == old(rewards) && eligible == old(eligible)
      ensures transfers == old(transfers) && events == old(events)
    {
      if update {
        return;
      }
      owner := Some(sender);
      admins := admins + {sender};
    }

    /** Admits `admin`; only the owner may. */
    method AddAdmin(sender: UInt160, admin: UInt160) returns (r: Outcome)
      requires Valid()
      modifies this
      ensures Valid()
      ensures r == if old(owner) == Some(sender) then Done else Aborted(OnlyOwner)
      ensures r.Aborted? ==> unchanged(this)
      ensures r.Done? ==> admins == old(admins) + {admin} && events == old(events) + [AdminAdded(admin)]
      ensures owner == old(owner) && rewards == old(rewards) && eligible == old(eligible)
      ensures transfers == old(transfers)
    {
      var o := Owner();
      if !Witnessed(sender, o) {
        return Aborted(OnlyOwner);
      }
      admins := admins + {admin};
      events := events + [AdminAdded(admin)];
      r := Done;
    }

    /** `RemoveAddmin`: removes `admin`; only the owner may. */
    method RemoveAdmin(sender: UInt160, admin: UInt160) returns (r: Outcome)
      requires Valid()
      modifies this
      ensures Valid()
      ensures r == if old(owner) == Some(sender) then Done else Aborted(OnlyOwner)
      ensures r.Aborted? ==> unchanged(this)
      ensures r.Done? ==> admins == old(admins) - {admin} && events == old(events) + [AdminRemoved(admin)]
      ensures owner == old(owner) && rewards == old(rewards) && eligible == old(eligible)
      ensures transfers == old(transfers)
    {
      if !Witnessed(sender, Owner()) {
        return Aborted(OnlyOwner);
      }
      admins := admins - {admin};
      events := events + [AdminRemoved(admin)];
      r := Done;
    }

    /** `OnNEP17Payment`, the token callback: `caller` is the token contract
      that sent `amount` from `from`. */
    method OnNep17Payment(caller: UInt160, from: Option<UInt160>, amount: int, rewardKey: Option<string>)
      returns (r: Outcome)
      requires Valid()
      modifies this
      ensures Valid()
      ensures from.None? ==> r == (if caller == GasHash then Done else Aborted(MissingSender))
      ensures from.None? || rewardKey.None? ==> unchanged(this)
      ensures from.Some? && rewardKey.None? ==> r == Done
      ensures from.Some? && rewardKey.Some? ==>
                var key := rewardKey.value;
                && r == (if key in old(rewards) then Aborted(KeyInUse)
                         else if !StorableKey(key) then Aborted(KeyTooLong)
                         else Done)
                && (r.Aborted? ==> unchanged(this))
                && (r.Done? ==>
                      && rewards == old(rewards)[key := RewardsInfo(from.value, caller, amount, Opened)]
                      && events == old(events) + [RewardStored(key, from.value, caller, amount)])
      ensures from.Some? && rewardKey.Some? && r.Done? ==> forall p | p in eligible :: p.1 != rewardKey.value
      ensures Evolves(old(rewards), rewards)
      ensures owner == old(owner) && admins == old(admins) && eligible == old(eligible)
      ensures transfers == old(transfers)
    {
      if from.None? && caller == GasHash {
        // a GAS distribution to the contract, not a deposit
        return Done;
      }
      if from.None? {
        return Aborted(MissingSender);
      }
      r := Done;
      if rewardKey.Some? {
        r := StoreRewards(caller, from.value, amount, rewardKey.value);
      }
    }

    /** `_storeRewards`: opens a campaign under a fresh key, with the calling
      token as its token. A key too long to store faults the put, and the
      whole payment reverts. Because markers only exist for existing
      campaigns, the new campaign starts with no eligible citizen. */
    method StoreRewards(caller: UInt160, facilitator: UInt160, amount: int, rewardKey: string)
      returns (r: Outcome)
      requires Valid()
      modifies this
      ensures Valid()
      ensures r == if rewardKey in old(rewards) then Aborted(KeyInUse)
                   else if !StorableKey(rewardKey) then Aborted(KeyTooLong)
                   else Done
      ensures r.Aborted? ==> unchanged(this)
      ensures r.Done? ==>
                && rewards == old(rewards)[rewardKey := RewardsInfo(facilitator, caller, amount, Opened)]
                && events == old(events) + [RewardStored(rewardKey, facilitator, caller, amount)]
      ensures r.Done? ==> forall p | p in eligible :: p.1 != rewardKey
      ensures Evolves(old(rewards), rewards)
      ensures owner == old(owner) && admins == old(admins) && eligible == old(eligible)
      ensures transfers == old(transfers)
    {
      var token := caller;
      if rewardKey in rewards {
        return Aborted(KeyInUse);
      }
      if !StorableKey(rewardKey) {
        // the storage put faults and the deposit reverts
        return Aborted(KeyTooLong);
      }
      var info := RewardsInfo(facilitator, token, amount, Opened);
      rewards := rewards[rewardKey := info];
      events := events + [RewardStored(rewardKey, facilitator, token, amount)];
      r := Done;
    }

    /** Returns the whole deposit to the facilitator; `accepted` is the token's
      answer to the refund transfer. */
    method Refund(sender: UInt160, rewardKey: string, accepted: bool) returns (r: Outcome)
      requires Valid()
      modifies this
      ensures Valid()
      ensures r == if !Witnessed(sender, old(Admin(sender))) then Aborted(OnlyAdmin)
                   else if rewardKey !in old(rewards) then Aborted(NotFound)
                   else if old(rewards)[rewardKey].state == Refunded then Aborted(AlreadyRefunded)
                   else if old(rewards)[rewardKey].state == Distributed then Aborted(AlreadyDistributed)
                   else if !accepted then Aborted(RefundFailed)
                   else Done
      ensures r.Aborted? ==> unchanged(this)
      ensures r.Done? ==>
                var info := old(rewards)[rewardKey];
                && rewards == old(rewards)[rewardKey := info.(state := Refunded)]
                && transfers == old(transfers) + [TransferCall(info.token, info.facilitator, info.amount, true)]
                && events == old(events) + [RewardRefunded(rewardKey, info.facilitator, Refunded)]
      ensures Evolves(old(rewards), rewards)
      ensures owner == old(owner) && admins == old(admins) && eligible == old(eligible)
    {
      if !Witnessed(sender, Admin(sender)) {
        return Aborted(OnlyAdmin);
      }
      if rewardKey !in rewards {
        return Aborted(NotFound);
      }
      var info := rewards[rewardKey];
      if info.state == Refunded {
        return Aborted(AlreadyRefunded);
      }
      if info.state == Distributed {
        return Aborted(AlreadyDistributed);
      }
      var isRefunded := accepted;
      if !isRefunded {
        return Aborted(RefundFailed);
      }
      transfers := transfers + [TransferCall(info.token, info.facilitator, info.amount, true)];
      info := info.(state := Refunded);
      rewards := rewards[rewardKey := info];
      events := events + [RewardRefunded(rewardKey, info.facilitator, info.state)];
      r := Done;
    }

    /** Sets a campaign to Locked, whatever its current state. */
    method LockRewards(sender: UInt160, rewardKey: string) returns (r: Outcome)
      requires Valid()
      modifies this
      ensures Valid()
      ensures r == if !Witnessed(sender, old(Admin(sender))) then Aborted(OnlyAdmin)
                   else if rewardKey !in old(rewards) then Aborted(NotFound)
                   else Done
      ensures r.Aborted? ==> unchanged(this)
      ensures r.Done? ==>
                && rewards == old(rewards)[rewardKey := old(rewards)[rewardKey].(state := Locked)]
                && events == old(events) + [RewardLocked(rewardKey)]
      ensures rewards.Keys == old(rewards.Keys) && Evolves(old(rewards), rewards)
      ensures owner == old(owner) && admins == old(admins) && eligible == old(eligible)
      ensures transfers == old(transfers)
    {
      if !Witnessed(sender, Admin(sender)) {
        return Aborted(OnlyAdmin);
      }
      if rewardKey !in rewards {
        return Aborted(NotFound);
      }
      var info := rewards[rewardKey];
      info := info.(state := Locked);
      rewards := rewards[rewardKey := info];
      events := events + [RewardLocked(rewardKey)];
      r := Done;
    }

    /** Marks every listed citizen eligible for an Opened campaign. */
    method SubmitCitizens(sender: UInt160, rewardKey: string, citizens: Option<seq<UInt160>>)
      returns (r: Outcome)
      requires Valid()
      modifies this
      ensures Valid()
      ensures r == if !Witnessed(sender, old(Admin(sender))) then Aborted(OnlyAdmin)
                   else if citizens.None? || citizens.value == [] then Aborted(NoCitizens)
                   else if rewardKey !in old(rewards) then Aborted(NotFound)
                   else if old(rewards)[rewardKey].state != Opened then Aborted(NotOpened)
                   else Done
      ensures r.Aborted? ==> unchanged(this)
      ensures r.Done? ==>
                && eligible == Submitted(old(eligible), rewardKey, citizens.value)
                && (forall c | c in citizens.value :: (c, rewardKey) in eligible)
                && (forall p: (UInt160, string) | p.1 != rewardKey || p.0 !in citizens.value :: p in eligible <==> p in old(eligible))
                && events == old(events) + [CitizenSubmitted(rewardKey)]
      ensures owner == old(owner) && admins == old(admins) && rewards == old(rewards)
      ensures transfers == old(transfers)
    {
      if !Witnessed(sender, Admin(sender)) {
        return Aborted(OnlyAdmin);
      }
      if citizens.None? || |citizens.value| == 0 {
        return Aborted(NoCitizens);
      }
      if rewardKey !in rewards {
        return Aborted(NotFound);
      }
      var info := rewards[rewardKey];
      if info.state != Opened {
        return Aborted(NotOpened);
      }
      var cs := citizens.value;
      var i := 0;
      while i < |cs|
        invariant 0 <= i <= |cs|
        invariant eligible == Submitted(old(eligible), rewardKey, cs[..i])
        invariant rewards == old(rewards) && Valid()
        invariant owner == old(owner) && admins == old(admins)
        invariant transfers == old(transfers) && events == old(events)
      {
        assert cs[..i + 1][..i] == cs[..i];
        eligible := eligible + {(cs[i], rewardKey)};
        i := i + 1;
      }
      assert cs[..|cs|] == cs;
      forall p: (UInt160, string)
        ensures p in eligible <==> p in old(eligible) || (p.1 == rewardKey && p.0 in cs)
      {
        SubmittedExactly(old(eligible), rewardKey, cs, p);
      }
      events := events + [CitizenSubmitted(rewardKey)];
      r := Done;
    }

    /** Pays the top tier and the full-participation tier of a campaign and
      marks it Distributed, whatever its state; `accepted(i)` is the token's
      answer to the i-th transfer call. A refused transfer pays nothing and is
      skipped. An amount whose pool product `Amount * 50` does not fit a NeoVM
      integer faults the transaction, after the top tier's transfers, which the
      fault reverts with everything else. */
    method DistributeRewards(sender: UInt160, rewardKey: string, top: seq<UInt160>, full: seq<UInt160>,
                             accepted: nat -> bool)
      returns (r: Outcome)
      requires Valid()
      modifies this
      ensures Valid()
      ensures r == if !Witnessed(sender, old(Admin(sender))) then Aborted(OnlyAdmin)
                   else if rewardKey !in old(rewards) then Aborted(NotFound)
                   else if !FitsInteger(old(rewards)[rewardKey].amount * 50) then Aborted(Overflow)
                   else Done
      ensures r.Aborted? ==> unchanged(this)
      ensures r.Done? ==>
                var info := old(rewards)[rewardKey];
                var calls := Issue(info.token, Planned(info.amount, rewardKey, old(eligible), top, full), accepted);
                && rewards == old(rewards)[rewardKey := info.(state := Distributed)]
                && transfers == old(transfers) + calls
                && events == old(events) + [RewardDistributed(rewardKey, Recorded(calls))]
      ensures rewards.Keys == old(rewards.Keys) && Evolves(old(rewards), rewards)
      ensures owner == old(owner) && admins == old(admins) && eligible == old(eligible)
    {
      if !Witnessed(sender, Admin(sender)) {
        return Aborted(OnlyAdmin);
      }
      if rewardKey !in rewards {
        return Aborted(NotFound);
      }
      var info := rewards[rewardKey];
      if !FitsInteger(info.amount * 50) {
        return Aborted(Overflow);
      }
      var rewarded, calls := Distribute(info, rewardKey, eligible, top, full, accepted);
      transfers := transfers + calls;
      info := info.(state := Distributed);
      rewards := rewards[rewardKey := info];
      events := events + [RewardDistributed(rewardKey, rewarded)];
      r := Done;
    }
  }
}
