# Rewards contract: a verified model

This project models the Voxiberate rewards contract, a Neo N3 smart contract that holds a reward campaign's tokens in escrow and pays them out. A facilitator deposits a NEP-17 token amount under a campaign key. This opens a campaign record in state `Opened`. Admins then do three things:

- They register eligible citizens for the campaign. This writes presence-only markers keyed by the hash of (citizen, key).
- They lock the campaign.
- They either refund the whole deposit to the facilitator, or distribute it. A distribution gives each eligible top citizen a flat 10% and splits 50% evenly over the full-participation list.

A single owner, set at first deployment, manages the admin set.

The model is laid out as follows:

- `types.dfy`, module `RewardTypes`:
  - identities are 160-bit script hashes (`UInt160`);
  - the campaign record `RewardsInfo` and its `RewardState`;
  - abort reasons (`Error`) and operation outcomes (`Outcome`);
  - transfer calls (`TransferCall`) and the contract's notifications (`Event`);
  - `Evolves`, which says how the campaign registry may change in one operation;
  - the host's 64-byte limit on storage keys (`StorableKey`), with the UTF-8 length of a campaign key (`Utf8Length`).
- `distribution.dfy`, module `Distribution`:
  - the reward arithmetic, with C#'s truncating `BigInteger` division written out as `TDiv`;
  - the transfers a distribution attempts (`Attempts`, `Planned`), the calls it makes (`Issue`) and the rewarded map those calls build (`Recorded`);
  - the method `Distribute`, which holds the two tier loops of `DistributeRewards` and is proved against those functions;
  - lemmas about who gets paid and how much.
- `eligibility.dfy`, module `Eligibility`: the ledger update that `SubmitCitizens` performs (`Submitted`), with its exact effect and its idempotence.
- `contract.dfy`, module `Contract`: the class `RewardsContract`.
  - Its fields are the contract's persisted storage: the owner slot, the admin set, the campaign records and the eligibility set.
  - Two more fields are append-only logs: the transfer calls and the notifications of completed operations.
  - Each entry point is a method. Its contract states exactly which abort it takes, in the order the code checks them. For a completed call it states the whole new state. An aborted call changes nothing.
- `scenarios.dfy`, module `Scenarios`: client methods that chain entry points and state what their contracts imply.
  - A second refund aborts.
  - Resubmitting the same citizen list is idempotent.
  - A whole campaign ends with the 1000 → {x: 100, y: 250, z: 250} distribution.
  - Two consequences of the missing state checks (see below).

The host environment is replaced by parameters:

- The transaction sender is `sender`.
- The calling script hash is `caller`.
- The witness check `Runtime.CheckWitness(id)` holds exactly when `id` is the sender's own identity. An absent identity is never witnessed.
- A token's answer to a `transfer` call is an oracle:
  - `Refund` gets `accepted: bool` for its single call;
  - `DistributeRewards` gets `accepted: nat -> bool`, the answer to the i-th call that the operation makes.

Amounts are `BigInteger`s and may be negative, because the source never checks them. `BigInteger` division truncates toward zero, so `Amount * 10 / 100` and the other divisions are modelled with truncation toward zero, not with Dafny's Euclidean `/`.

On the NeoVM an integer holds at most 32 bytes. An arithmetic result outside [-2^255, 2^255) faults the transaction, and a fault reverts every effect.

- The model's integers are unbounded, so this limit is written out as `FitsInteger`.
- The only products are `Amount * 10` and `Amount * 50` in `DistributeRewards`.
- The pool product `Amount * 50` is computed on every distribution. `TopProductFits` shows that the top product fits whenever the pool product does.
- So `DistributeRewards` aborts with `Overflow` exactly when `Amount * 50` does not fit.
- The amount itself is never checked. A deposit can therefore open a campaign that can never be distributed.

Neo N3 refuses to store under a key longer than 64 bytes. A campaign record is stored under the one-byte prefix 0x00 followed by the campaign key's bytes (src/RewardsContract.cs:35, 150, 160).

- The model takes a key's bytes to be its UTF-8 encoding.
- `StoreRewards`, and with it a deposit through `OnNep17Payment`, aborts with `KeyTooLong` when a fresh key takes more than 63 bytes.
- For an ASCII key that means 64 or more characters, a 64-character hex digest for example (`AsciiKeyStorable`).
- Every other storage key is short: an admin entry is 1 + 20 bytes, an eligibility marker 1 + 32, the owner slot 1.

The model keeps these behaviours of the code, which no state check prevents:

- `LockRewards` sets `Locked` whatever the current state is.
- `DistributeRewards` runs from any state, including `Distributed`.
- `RefundLockRefund` proves the consequence: Refund, Lock, Refund succeeds twice and sends the facilitator the whole deposit twice.
- `DistributeTwice` proves that a campaign can be paid out twice against the same original amount.
- The length of the top list is never checked, although its parameter is named `top5citizens`. `TopTierUnchecked` shows six eligible top citizens and one full-participation citizen planning 1100 in payouts from a deposit of 1000. `PlannedWithinDeposit` therefore needs the five-citizen bound as a hypothesis.

An empty full-participation list never divides by zero. The division at src/RewardsContract.cs:278 sits inside the loop over that list, so `Distribute` always meets `FullShare`'s `n > 0`.

## Model

| member | source | states |
|---|---|---|
| Distribution.TDiv | src/RewardsContract.cs:278 | the quotient of a BigInteger division truncated toward zero: abs(q)·b ≤ abs(a) < (abs(q)+1)·b, with the sign of a |
| Distribution.TopReward | src/RewardsContract.cs:260 | the top bonus `Amount*10/100` is a tenth of the amount truncated toward zero, non-negative for a non-negative amount |
| Distribution.FullPool | src/RewardsContract.cs:267 | the participation pool `Amount*50/100` is half the amount truncated toward zero |
| Distribution.FullShare | src/RewardsContract.cs:278 | the per-citizen share of the pool among n listed citizens, truncated toward zero: abs(share)·n ≤ abs(pool) < (abs(share)+1)·n; for a non-negative amount 0 ≤ share and share·n ≤ pool, for a non-positive amount share ≤ 0 |
| Distribution.Attempts | src/RewardsContract.cs:250-265 | the payouts one tier loop attempts for a list and a reward; at most one per listed entry |
| Distribution.Planned | src/RewardsContract.cs:250-283 | the payouts of both tiers, top tier first; at most one per entry of either list |
| Distribution.Issue | src/RewardsContract.cs:261-279 | one transfer call per planned payout; `Distribute` is proved to make exactly these calls |
| Distribution.TopProductFits | src/RewardsContract.cs:260-267 | whenever the pool product `Amount * 50` fits a NeoVM integer, so does the top product `Amount * 10`, so only the pool product can fault a distribution |
| Distribution.Recorded | src/RewardsContract.cs:262-280 | every identity in the rewarded map received some successful transfer call |
| Distribution.Distribute | src/RewardsContract.cs:248-283 | the two loops make exactly the calls `Issue(token, Planned(...), accepted)` (eligible citizens only, top tier first, in list order, duplicates included, the i-th call answered by accepted(i)) and build the rewarded map `Recorded` of those calls |
| Distribution.AttemptsSound | src/RewardsContract.cs:250-283 | every attempted transfer goes to a listed citizen that has an eligibility marker for the key and carries the tier's reward; a tier attempts at most one transfer per listed entry |
| Distribution.AttemptsComplete | src/RewardsContract.cs:257-261 | every listed citizen with an eligibility marker gets a transfer attempt |
| Distribution.AttemptsAllEligible | src/RewardsContract.cs:250-265 | when every listed citizen is eligible, a tier attempts exactly one transfer per listed entry |
| Distribution.AttemptsPerCitizen | src/RewardsContract.cs:250-265 | duplicates are not removed: an eligible citizen listed k times gets k transfer attempts, an ineligible one none |
| Distribution.FullTierWithinPool | src/RewardsContract.cs:267-283 | for a non-negative amount the full-participation tier's attempted payouts sum to at most the 50% pool, however the list repeats |
| Distribution.PlannedWithinDeposit | src/RewardsContract.cs:235-283 | with at most five top citizens and a non-negative amount, all attempted payouts together never exceed the deposited amount; the contract never checks the bound on the top list (see TopTierUnchecked) |
| Distribution.TopTierWithinHalf | src/RewardsContract.cs:250-265 | with at most five top citizens and a non-negative amount, the top tier's payouts are non-negative and sum to at most half the amount |
| Distribution.TopTierUnchecked | src/RewardsContract.cs:235-283 | six eligible top citizens and one eligible full-participation citizen on a deposit of 1000 plan 1100 in payouts, more than the deposit |
| Distribution.RecordedSound | src/RewardsContract.cs:262 | an entry of the rewarded map comes from a successful transfer call to that identity, with that call's amount |
| Distribution.RecordedComplete | src/RewardsContract.cs:262 | every successful transfer call leaves an entry for its recipient |
| Distribution.LastSuccessWins | src/RewardsContract.cs:280 | the latest successful call to an identity decides its entry in the rewarded map |
| Distribution.DistributionSound | src/RewardsContract.cs:250-283 | only eligible identities listed in one of the tiers appear in the rewarded map, each with either the top bonus or the full-participation share |
| Distribution.IneligibleUnpaid | src/RewardsContract.cs:257-258 | an identity without an eligibility marker for the key gets no entry in the rewarded map |
| Distribution.FullTierPaid | src/RewardsContract.cs:268-283 | when every transfer is accepted, an eligible full-participation citizen is recorded with its share, which overwrites a top bonus for the same identity |
| Distribution.TopTierPaid | src/RewardsContract.cs:250-265 | when every transfer is accepted, an eligible top citizen not in the full list is recorded with the flat bonus |
| Distribution.ExampleDistribution | src/RewardsContract.cs:250-283 | amount 1000, top [x], full [y, z], all eligible and accepted gives {x: 100, y: 250, z: 250} |
| Eligibility.Submitted | src/RewardsContract.cs:223-230 | the ledger after a submission keeps every earlier marker, and every new one is for the submitted key and a listed citizen |
| Eligibility.SubmittedExactly | src/RewardsContract.cs:223-230 | after a submission a (citizen, key) pair is eligible iff it was before or the citizen is listed and the key is the submitted key |
| Eligibility.SubmittedIdempotent | src/RewardsContract.cs:223-230 | submitting the same list a second time leaves the ledger unchanged |
| Eligibility.SubmittedSameMembers | src/RewardsContract.cs:223-230 | the ledger after a submission depends only on which citizens are listed, not on order or repetition |
| RewardTypes.Utf8Length | src/RewardsContract.cs:150-160 | the byte length of a campaign key as UTF-8 text: between one and four bytes per character |
| RewardTypes.AsciiLength | src/RewardsContract.cs:150-160 | a key of ASCII characters takes exactly one byte per character |
| RewardTypes.AsciiKeyStorable | src/RewardsContract.cs:150-160 | with the one-byte prefix, an ASCII key fits the 64-byte storage key limit iff it has at most 63 characters |
| Contract.RewardsContract.Owner | src/RewardsContract.cs:43 | returns the owner slot, absent before the first deploy |
| Contract.RewardsContract.Admin | src/RewardsContract.cs:46 | the admin entry for an address is present iff the address is an admin, and is then the address itself |
| Contract.RewardsContract.Deploy | src/RewardsContract.cs:86-93 | on first deployment owner := sender and the sender joins the admin set; on update nothing changes; nothing else ever changes |
| Contract.RewardsContract.AddAdmin | src/RewardsContract.cs:112-119 | aborts with no change unless the owner witnessed; otherwise inserts exactly that identity and emits AdminAdded |
| Contract.RewardsContract.RemoveAdmin | src/RewardsContract.cs:121-127 | aborts with no change unless the owner witnessed; otherwise deletes exactly that identity and emits AdminRemoved |
| Contract.RewardsContract.OnNep17Payment | src/RewardsContract.cs:129-144 | without a sender: a no-op from GAS, an abort from any other caller; with a sender and no key: stores nothing; with both: exactly what StoreRewards does, including the KeyInUse and KeyTooLong aborts |
| Contract.RewardsContract.StoreRewards | src/RewardsContract.cs:146-163 | a key in use aborts and leaves every record unchanged; a fresh key longer than the storage key limit aborts with KeyTooLong and changes nothing; any other fresh key adds exactly one Opened record with facilitator = sender, token = calling token, amount = amount, and emits RewardStored; the new campaign has no eligible citizen yet |
| Contract.RewardsContract.Refund | src/RewardsContract.cs:165-188 | aborts with no change and no transfer for a non-admin, an unknown key, a Refunded or Distributed campaign, or a refused transfer; otherwise one transfer of the full amount to the facilitator, state Refunded, RewardRefunded emitted |
| Contract.RewardsContract.LockRewards | src/RewardsContract.cs:190-203 | aborts for a non-admin or an unknown key; otherwise sets Locked whatever the prior state, keeps facilitator, token and amount, emits RewardLocked |
| Contract.RewardsContract.SubmitCitizens | src/RewardsContract.cs:206-233 | aborts with no change for a non-admin, an absent or empty list, an unknown key or a campaign not Opened; otherwise every listed citizen becomes eligible for the key, every other pair keeps its eligibility, one CitizenSubmitted is emitted |
| Contract.RewardsContract.DistributeRewards | src/RewardsContract.cs:235-290 | aborts for a non-admin, then for an unknown key, then with Overflow when `Amount * 50` does not fit a NeoVM integer; otherwise appends the planned transfer calls, sets Distributed whatever the prior state and the transfer answers, keeps the amount, and emits the rewarded map of the successful calls |
| Scenarios.RefundTwice | src/RewardsContract.cs:165-188 | after a successful refund a second refund aborts with AlreadyRefunded, and exactly one refund transfer was issued |
| Scenarios.ResubmitCitizens | src/RewardsContract.cs:206-233 | submitting the same list twice gives the ledger of a single submission |
| Scenarios.RefundLockRefund | src/RewardsContract.cs:165-203 | Refund, Lock, Refund all succeed on an Opened or Locked campaign and send the full deposit to the facilitator twice |
| Scenarios.DistributeTwice | src/RewardsContract.cs:235-290 | for an amount whose pool product fits, a second distribution succeeds and issues the same transfer calls again |
| Scenarios.OpenCampaign | src/RewardsContract.cs:86-233 | deploy, deposit 1000 under a fresh key and submit [x, y, z] give one Opened record for the facilitator and token, the deployer as admin, and x, y, z eligible |
| Scenarios.Campaign | src/RewardsContract.cs:86-290 | deploy, deposit 1000, submit [x, y, z], lock and distribute [x] / [y, z] with all transfers accepted leaves one Distributed record and emits {x: 100, y: 250, z: 250} |

## Left out

- `Update` and `Destroy` (src/RewardsContract.cs:95-105): after the owner check they only call the host's contract management.
- `Transfer` (src/RewardsContract.cs:107-110): a pass-through call into the calling script.
- The internals of the tokens' `transfer`: each call is an oracle answer. The model assumes that no transfer changes this contract's storage, and the frame clauses of `Refund` and `DistributeRewards` rest on that assumption. It therefore leaves out re-entry:
  - a NEP-17 `transfer` calls the recipient's `onNEP17Payment`;
  - every call here passes empty `data` (src/RewardsContract.cs:180, 261, 279), so a recipient that is this contract itself would run `StoreRewards` under the key "", opening a campaign or faulting the operation;
  - any recipient contract could likewise call back into this contract in the middle of a distribution.
- A token `transfer` that faults, instead of answering, aborts the whole operation with no change. The model has no separate case for it: in `Refund` it is the same as an abort, and for `DistributeRewards` this abort path is not modelled.
- SHA-256 and the host's serialization (src/RewardsContract.cs:160, 174, 228, 255, 273):
  - records are stored as values;
  - eligibility markers are stored as (citizen, key) pairs, which assumes the hash is injective;
  - the round trip of a serialized record is therefore not a property of this model.
- The host's witness check (`Runtime.CheckWitness`): it is taken to hold exactly for the transaction sender. Witness scopes and multiple signers are not modelled.
- The transfers' source `Runtime.ExecutingScriptHash`: every `TransferCall` is from the contract's own custody, so the source is not recorded.
- Null citizen arrays passed to `DistributeRewards`: the tiers are sequences. A null array would fault and abort, like any abort.
- The record's `Citizens` field and the `OnRewardCitizenDelegate` notification: neither is written or emitted anywhere.
- The rewarded map's keys are `string` conversions of the citizen hashes in the source; the model keys it by `UInt160`.
- `StoreRewards`: only the storage key size limit is modelled. A campaign key's bytes are taken to be its UTF-8 encoding, so a key passed as raw bytes that are not valid UTF-8 has no counterpart.
- `DistributeRewards`: the 1024-byte cap on a notification's serialized size (src/RewardsContract.cs:288) is not modelled, because it needs the byte-level serialization of the rewarded map. Each paid citizen adds an entry of about 26 to 28 bytes. So a distribution that actually pays roughly 36 or more distinct citizens faults, and every transfer of it reverts. The contract promises `Done` for it. What counts is the number of distinct identities paid, not the length of the lists.
- NeoVM execution limits other than the 32-byte integer size, the 64-byte storage key and the notification size are not modelled either, because they depend on the transaction's budget. These include the GAS fee and the stack and item sizes. A long citizen list in `SubmitCitizens` or `DistributeRewards` can exhaust them and fault the transaction.
