/** Values shared by the rewards contract: identities, campaign records,
    outcomes, transfer calls and notifications. */
module RewardTypes {

  datatype Option<+T> = None | Some(value: T)

  /** A 160-bit script hash (an account or a contract). */
  newtype UInt160 = x: int | 0 <= x < 0x1_0000_0000_0000_0000_0000_0000_0000_0000_0000_0000

  /** The hash of the native GAS token, whose sender-less payments are ignored. */
  const GasHash: UInt160 := 0xd2a4cff31913016155e38e474a2c06d08be276cf

  /** Lifecycle of a campaign. */
  datatype RewardState = Opened | Locked | Distributed | Refunded

  /** One campaign record, stored under its campaign key. The record's
      `Citizens` array is never written or read and has no counterpart. */
  datatype RewardsInfo = RewardsInfo(facilitator: UInt160, token: UInt160, amount: int, state: RewardState)

  /** Why an operation aborts; an aborted operation persists nothing. */
  datatype Error =
    | OnlyOwner           // the owner's witness is missing
    | OnlyAdmin           // the sender is not an admin
    | MissingSender       // a payment without a sender from a token other than GAS
    | KeyInUse            // a deposit under a campaign key that already exists
    | NotFound            // the campaign key is unknown
    | AlreadyRefunded
    | AlreadyDistributed
    | RefundFailed        // the token refused the refund transfer
    | NoCitizens          // the citizen list is absent or empty
    | NotOpened           // citizens may only be submitted while the campaign is Opened
    | Overflow            // an arithmetic result does not fit a NeoVM integer
    | KeyTooLong          // the record's storage key is longer than the host allows

  datatype Outcome = Done | Aborted(error: Error)

  /** A call to a token's `transfer` from the contract's own custody, with the
      token's answer. */
  datatype TransferCall = TransferCall(token: UInt160, to: UInt160, amount: int, succeeded: bool)

  /** The notifications the contract emits. */
  datatype Event =
    | RewardStored(key: string, facilitator: UInt160, token: UInt160, amount: int)
    | RewardRefunded(key: string, facilitator: UInt160, state: RewardState)
    | CitizenSubmitted(key: string)
    | RewardDistributed(key: string, rewarded: map<UInt160, int>)
    | AdminAdded(admin: UInt160)
    | AdminRemoved(admin: UInt160)
    | RewardLocked(key: string)

  /** The number of bytes of one character in UTF-8. */
  function CharBytes(c: char): (n: nat)
    ensures 1 <= n <= 4
  {
    if c as int < 0x80 then 1
    else if c as int < 0x800 then 2
    else if c as int < 0x1_0000 then 3
    else 4
  }

  /** The length in bytes of a campaign key, taken to be UTF-8 text. */
  function Utf8Length(s: string): (n: nat)
    ensures |s| <= n <= 4 * |s|
  {
    if s == [] then 0 else CharBytes(s[0]) + Utf8Length(s[1..])
  }

  /** A key made of ASCII characters takes one byte per character. */
  lemma {:induction false} AsciiLength(s: string)
    requires forall i | 0 <= i < |s| :: s[i] as int < 0x80
    ensures Utf8Length(s) == |s|
  {
    if s != [] {
      assert forall i | 0 <= i < |s[1..]| :: s[1..][i] == s[i + 1];
      AsciiLength(s[1..]);
    }
  }

  /** The host refuses to store under a key longer than this many bytes. */
  const MaxStorageKeySize := 64

  /** A campaign record is stored under the one-byte prefix followed by the
      campaign key's bytes; the put faults when that key is too long. */
  predicate StorableKey(key: string)
  {
    1 + Utf8Length(key) <= MaxStorageKeySize
  }

  /** An ASCII campaign key can be stored exactly when it has at most 63
      characters; a key of 64 or more characters never can. */
  lemma AsciiKeyStorable(key: string)
    requires forall i | 0 <= i < |key| :: key[i] as int < 0x80
    ensures StorableKey(key) <==> |key| <= 63
  {
    AsciiLength(key);
  }

  /** How the campaign registry may change across one operation: no record
      disappears, a record's facilitator, token and amount never change, and no
      existing record returns to Opened. */
  ghost predicate Evolves(before: map<string, RewardsInfo>, after: map<string, RewardsInfo>)
  {
    && before.Keys <= after.Keys
    && forall k | k in before ::
         && after[k].facilitator == before[k].facilitator
         && after[k].token == before[k].token
         && after[k].amount == before[k].amount
         && (after[k].state == Opened ==> before[k].state == Opened)
  }
}
