/** The distribution engine: reward arithmetic, the transfers a distribution
    attempts, and the map of who was actually paid. */
module Distribution {
  import opened RewardTypes

  function Abs(x: int): (r: nat)
  {
    if x < 0 then -x else x
  }

  /** Integer division as C#'s BigInteger does it: the quotient is truncated
      toward zero (Dafny's own `/` is Euclidean). */
  function TDiv(a: int, b: int): (q: int)
    requires b > 0
    ensures Abs(q) * b <= Abs(a) < (Abs(q) + 1) * b
    ensures a >= 0 ==> q >= 0
    ensures a <= 0 ==> q <= 0
  {
    if a >= 0 then a / b else -((-a) / b)
  }

  /** The flat bonus of each top citizen, `Amount * 10 / 100`: a tenth of the
      deposit, truncated toward zero. */
  function TopReward(amount: int): (r: int)
    ensures Abs(r) * 10 <= Abs(amount) < (Abs(r) + 1) * 10
    ensures (amount >= 0 ==> r >= 0) && (amount <= 0 ==> r <= 0)
  {
    TDiv(amount * 10, 100)
  }

  /** The pool shared by the full-participation tier, `Amount * 50 / 100`: half
      the deposit, truncated toward zero. */
  function FullPool(amount: int): (r: int)
    ensures Abs(r) * 2 <= Abs(amount) < (Abs(r) + 1) * 2
    ensures (amount >= 0 ==> r >= 0) && (amount <= 0 ==> r <= 0)
  {
    TDiv(amount * 50, 100)
  }

  /** 2^255: a NeoVM integer is at most 32 bytes in two's complement, and an
      arithmetic result outside [-IntegerBound, IntegerBound) faults the whole
      transaction. */
  const IntegerBound: int := 0x8000_0000_0000_0000_0000_0000_0000_0000_0000_0000_0000_0000_0000_0000_0000_0000

  predicate FitsInteger(x: int)
  {
    -IntegerBound <= x < IntegerBound
  }

  /** DistributeRewards always computes the pool product `Amount * 50`, after
      the top tier; the top tier's product `Amount * 10` is smaller in
      magnitude, so the distribution faults exactly when the pool product does
      not fit. */
  lemma TopProductFits(amount: int)
    requires FitsInteger(amount * 50)
    ensures FitsInteger(amount * 10)
  {
  }

  /** Each full-participation citizen's share of the pool among `n` listed
      citizens; `n` is never zero because the share is only computed for an
      element of that list. */
  function FullShare(amount: int, n: nat): (r: int)
    requires n > 0
    ensures Abs(r) * n <= Abs(FullPool(amount)) < (Abs(r) + 1) * n
    ensures amount >= 0 ==> 0 <= r && r * n <= FullPool(amount)
    ensures amount <= 0 ==> r <= 0
  {
    TDiv(FullPool(amount), n)
  }

  /** A transfer the engine decides to attempt. */
  datatype Payout = Payout(to: UInt160, amount: int)

  /** The transfers one tier's loop attempts: one per listed citizen that holds
      an eligibility marker for `key`, in list order, duplicates included. */
  function Attempts(eligible: set<(UInt160, string)>, key: string, cs: seq<UInt160>, reward: int): (ps: seq<Payout>)
    ensures |ps| <= |cs|
    decreases |cs|
  {
    if cs == [] then []
    else
      var rest := Attempts(eligible, key, cs[..|cs| - 1], reward);
      var c := cs[|cs| - 1];
      if (c, key) in eligible then rest + [Payout(c, reward)] else rest
  }

  /** All transfers a distribution attempts: the top tier first, then the
      full-participation tier. */
  function Planned(amount: int, key: string, eligible: set<(UInt160, string)>,
                   top: seq<UInt160>, full: seq<UInt160>): (ps: seq<Payout>)
    ensures |ps| <= |top| + |full|
  {
    Attempts(eligible, key, top, TopReward(amount))
      + (if full == [] then [] else Attempts(eligible, key, full, FullShare(amount, |full|)))
  }

  /** The calls made for a plan; `accepted(i)` is the token's answer to the
      i-th call of the operation. */
  function Issue(token: UInt160, plan: seq<Payout>, accepted: nat -> bool): (calls: seq<TransferCall>)
    ensures |calls| == |plan|
  {
    seq(|plan|, i requires 0 <= i < |plan| => TransferCall(token, plan[i].to, plan[i].amount, accepted(i)))
  }

  /** Some successful call in `calls` went to `c`. */
  ghost predicate PaidBy(calls: seq<TransferCall>, c: UInt160) {
    exists i | 0 <= i < |calls| :: calls[i].to == c && calls[i].succeeded
  }

  /** The rewarded map built from a sequence of calls: each successful call
      records its amount for its recipient, overwriting an earlier entry. */
  function Recorded(calls: seq<TransferCall>): (m: map<UInt160, int>)
    ensures forall c | c in m :: PaidBy(calls, c)
    decreases |calls|
  {
    if calls == [] then map[]
    else
      var m := Recorded(calls[..|calls| - 1]);
      var last := calls[|calls| - 1];
      if last.succeeded then m[last.to := last.amount] else m
  }

  /** The sum of the amounts of a plan. */
  function Total(ps: seq<Payout>): (t: int)
    decreases |ps|
  {
    if ps == [] then 0 else Total(ps[..|ps| - 1]) + ps[|ps| - 1].amount
  }

  // ---------------------------------------------------------------------
  // Properties of the plan

  /** Every attempted transfer goes to a listed, eligible citizen and carries
      the tier's reward; a tier attempts no more transfers than it lists. */
  lemma {:induction false} AttemptsSound(eligible: set<(UInt160, string)>, key: string, cs: seq<UInt160>, reward: int)
    ensures |Attempts(eligible, key, cs, reward)| <= |cs|
    ensures forall p | p in Attempts(eligible, key, cs, reward) ::
              p.amount == reward && (p.to, key) in eligible && p.to in cs
  {
    if cs != [] {
      AttemptsSound(eligible, key, cs[..|cs| - 1], reward);
    }
  }

  /** Every listed citizen that is eligible gets an attempted transfer. */
  lemma {:induction false} AttemptsComplete(eligible: set<(UInt160, string)>, key: string, cs: seq<UInt160>, reward: int, c: UInt160)
    requires c in cs && (c, key) in eligible
    ensures Payout(c, reward) in Attempts(eligible, key, cs, reward)
  {
    var last := cs[|cs| - 1];
    if c != last {
      assert c in cs[..|cs| - 1] by {
        var i :| 0 <= i < |cs| && cs[i] == c;
        assert cs[..|cs| - 1][i] == c;
      }
      AttemptsComplete(eligible, key, cs[..|cs| - 1], reward, c);
    }
  }

  lemma {:induction false} TotalUniform(ps: seq<Payout>, r: int)
    requires forall p | p in ps :: p.amount == r
    ensures Total(ps) == |ps| * r
    decreases |ps|
  {
    if ps != [] {
      var init := ps[..|ps| - 1];
      assert forall p | p in init :: p in ps;
      TotalUniform(init, r);
      assert |ps| * r == |init| * r + r;
    }
  }

  lemma {:induction false} TotalAppend(a: seq<Payout>, b: seq<Payout>)
    ensures Total(a + b) == Total(a) + Total(b)
    decreases |b|
  {
    if b != [] {
      assert (a + b)[..|a + b| - 1] == a + b[..|b| - 1];
      assert (a + b)[|a + b| - 1] == b[|b| - 1];
      TotalAppend(a, b[..|b| - 1]);
    } else {
      assert a + b == a;
    }
  }

  /** The full-participation tier never attempts to pay out more than its pool,
      however many listed citizens are eligible or repeated. */
  lemma FullTierWithinPool(amount: int, eligible: set<(UInt160, string)>, key: string, full: seq<UInt160>)
    requires amount >= 0 && full != []
    ensures 0 <= Total(Attempts(eligible, key, full, FullShare(amount, |full|))) <= FullPool(amount)
  {
    var share := FullShare(amount, |full|);
    var ps := Attempts(eligible, key, full, share);
    AttemptsSound(eligible, key, full, share);
    TotalUniform(ps, share);
    MulMonotone(|ps|, |full|, share);
  }

  lemma MulMonotone(a: nat, b: nat, c: int)
    requires a <= b && c >= 0
    ensures a * c <= b * c
  {
  }

  /** With at most five top citizens (the size the parameter name
      `top5citizens` suggests, which the contract never checks) the planned
      payouts never exceed the deposit: at most 5 x 10% plus the 50% pool. */
  lemma PlannedWithinDeposit(amount: int, key: string, eligible: set<(UInt160, string)>,
                             top: seq<UInt160>, full: seq<UInt160>)
    requires amount >= 0 && |top| <= 5
    ensures 0 <= Total(Planned(amount, key, eligible, top, full)) <= amount
  {
    var head := Attempts(eligible, key, top, TopReward(amount));
    var tail := if full == [] then [] else Attempts(eligible, key, full, FullShare(amount, |full|));
    TopTierWithinHalf(amount, eligible, key, top);
    if full != [] {
      FullTierWithinPool(amount, eligible, key, full);
    }
    TotalAppend(head, tail);
  }

  /** At most five top bonuses of a tenth each stay within half the deposit. */
  lemma TopTierWithinHalf(amount: int, eligible: set<(UInt160, string)>, key: string, top: seq<UInt160>)
    requires amount >= 0 && |top| <= 5
    ensures var t := Total(Attempts(eligible, key, top, TopReward(amount)));
            0 <= t && 2 * t <= amount
  {
    var bonus := TopReward(amount);
    var head := Attempts(eligible, key, top, bonus);
    AttemptsSound(eligible, key, top, bonus);
    TotalUniform(head, bonus);
    MulMonotone(|head|, 5, bonus);
  }

  /** A tier whose listed citizens are all eligible attempts one transfer per
      entry. */
  lemma {:induction false} AttemptsAllEligible(eligible: set<(UInt160, string)>, key: string, cs: seq<UInt160>, reward: int)
    requires forall c | c in cs :: (c, key) in eligible
    ensures |Attempts(eligible, key, cs, reward)| == |cs|
    decreases |cs|
  {
    if cs != [] {
      var init := cs[..|cs| - 1];
      assert forall c | c in init :: c in cs;
      assert cs[|cs| - 1] in cs;
      AttemptsAllEligible(eligible, key, init, reward);
    }
  }

  /** The length of the top list is never checked: six eligible top citizens
      and one eligible full-participation citizen on a deposit of 1000 plan
      1100 in payouts, more than the campaign holds. */
  lemma TopTierUnchecked(key: string, eligible: set<(UInt160, string)>, top: seq<UInt160>, y: UInt160)
    requires |top| == 6 && (forall c | c in top :: (c, key) in eligible) && (y, key) in eligible
    ensures Total(Planned(1000, key, eligible, top, [y])) == 1100
  {
    var head := Attempts(eligible, key, top, TopReward(1000));
    assert TopReward(1000) == 100;
    AttemptsAllEligible(eligible, key, top, 100);
    AttemptsSound(eligible, key, top, 100);
    TotalUniform(head, 100);
    assert FullShare(1000, 1) == 500;
    assert [y][..0] == [];
    var tail := Attempts(eligible, key, [y], 500);
    assert tail == [Payout(y, 500)];
    TotalAppend(head, tail);
  }

  /** The recipients of a plan, in order. */
  function Recipients(ps: seq<Payout>): (rs: seq<UInt160>)
  {
    seq(|ps|, i requires 0 <= i < |ps| => ps[i].to)
  }

  /** Duplicates are not removed: an eligible citizen listed k times in a tier
      gets k transfer attempts, an ineligible one none. */
  lemma {:induction false} AttemptsPerCitizen(eligible: set<(UInt160, string)>, key: string, cs: seq<UInt160>, reward: int, c: UInt160)
    ensures multiset(Recipients(Attempts(eligible, key, cs, reward)))[c]
            == if (c, key) in eligible then multiset(cs)[c] else 0
    decreases |cs|
  {
    if cs != [] {
      var n := |cs| - 1;
      var init := cs[..n];
      var rest := Attempts(eligible, key, init, reward);
      AttemptsPerCitizen(eligible, key, init, reward, c);
      assert cs == init + [cs[n]];
      assert multiset(cs) == multiset(init) + multiset{cs[n]};
      if (cs[n], key) in eligible {
        assert Recipients(rest + [Payout(cs[n], reward)]) == Recipients(rest) + [cs[n]];
      }
    }
  }

  // ---------------------------------------------------------------------
  // Properties of the rewarded map

  lemma RecordedSnoc(calls: seq<TransferCall>, x: TransferCall)
    ensures Recorded(calls + [x]) == if x.succeeded then Recorded(calls)[x.to := x.amount] else Recorded(calls)
  {
    assert (calls + [x])[..|calls|] == calls;
  }

  /** An entry of the rewarded map comes from a successful call to that
      recipient, with that call's amount. */
  lemma {:induction false} RecordedSound(calls: seq<TransferCall>, c: UInt160)
    requires c in Recorded(calls)
    ensures exists i :: 0 <= i < |calls| && calls[i].succeeded && calls[i].to == c
                        && Recorded(calls)[c] == calls[i].amount
    decreases |calls|
  {
    var n := |calls| - 1;
    var init := calls[..n];
    if calls[n].succeeded && calls[n].to == c {
    } else {
      RecordedSound(init, c);
      var i :| 0 <= i < |init| && init[i].succeeded && init[i].to == c && Recorded(init)[c] == init[i].amount;
      assert calls[i] == init[i];
    }
  }

  /** The latest successful call to a recipient decides its entry. */
  lemma {:induction false} LastSuccessWins(calls: seq<TransferCall>, i: nat)
    requires i < |calls| && calls[i].succeeded
    requires forall j | i < j < |calls| :: calls[j].to == calls[i].to ==> !calls[j].succeeded
    ensures calls[i].to in Recorded(calls) && Recorded(calls)[calls[i].to] == calls[i].amount
    decreases |calls|
  {
    var n := |calls| - 1;
    if i < n {
      var init := calls[..n];
      assert init[i] == calls[i];
      LastSuccessWins(init, i);
    }
  }

  /** Every successful call leaves an entry for its recipient. */
  lemma {:induction false} RecordedComplete(calls: seq<TransferCall>, i: nat)
    requires i < |calls| && calls[i].succeeded
    ensures calls[i].to in Recorded(calls)
    decreases |calls|
  {
    var n := |calls| - 1;
    if i < n && !calls[n].succeeded {
      assert calls[..n][i] == calls[i];
      RecordedComplete(calls[..n], i);
    } else if i < n && calls[n].to != calls[i].to {
      assert calls[..n][i] == calls[i];
      RecordedComplete(calls[..n], i);
    }
  }

  // ---------------------------------------------------------------------
  // What a distribution pays

  /** Who appears in the rewarded map of a distribution: only eligible, listed
      citizens that a successful call paid, each with one of the two rewards. */
  lemma DistributionSound(amount: int, token: UInt160, key: string, eligible: set<(UInt160, string)>,
                          top: seq<UInt160>, full: seq<UInt160>, accepted: nat -> bool, c: UInt160)
    requires c in Recorded(Issue(token, Planned(amount, key, eligible, top, full), accepted))
    ensures (c, key) in eligible && (c in top || c in full)
    ensures var v := Recorded(Issue(token, Planned(amount, key, eligible, top, full), accepted))[c];
            v == TopReward(amount) || (full != [] && v == FullShare(amount, |full|))
  {
    var plan := Planned(amount, key, eligible, top, full);
    var calls := Issue(token, plan, accepted);
    RecordedSound(calls, c);
    var i :| 0 <= i < |calls| && calls[i].succeeded && calls[i].to == c && Recorded(calls)[c] == calls[i].amount;
    assert plan[i] in plan;
    AttemptsSound(eligible, key, top, TopReward(amount));
    if full != [] {
      AttemptsSound(eligible, key, full, FullShare(amount, |full|));
    }
  }

  /** A citizen without an eligibility marker for the key is never rewarded. */
  lemma IneligibleUnpaid(amount: int, token: UInt160, key: string, eligible: set<(UInt160, string)>,
                         top: seq<UInt160>, full: seq<UInt160>, accepted: nat -> bool, c: UInt160)
    requires (c, key) !in eligible
    ensures c !in Recorded(Issue(token, Planned(amount, key, eligible, top, full), accepted))
  {
    if c in Recorded(Issue(token, Planned(amount, key, eligible, top, full), accepted)) {
      DistributionSound(amount, token, key, eligible, top, full, accepted, c);
    }
  }

  /** When the token accepts every call, an eligible full-participation citizen
      is recorded with its share (the full tier is paid last, so its share
      overwrites a top bonus for the same identity). */
  lemma FullTierPaid(amount: int, token: UInt160, key: string, eligible: set<(UInt160, string)>,
                     top: seq<UInt160>, full: seq<UInt160>, accepted: nat -> bool, c: UInt160)
    requires forall i: nat :: accepted(i)
    requires c in full && (c, key) in eligible
    ensures var m := Recorded(Issue(token, Planned(amount, key, eligible, top, full), accepted));
            c in m && m[c] == FullShare(amount, |full|)
  {
    var share := FullShare(amount, |full|);
    var head := Attempts(eligible, key, top, TopReward(amount));
    var tail := Attempts(eligible, key, full, share);
    var plan := head + tail;
    var calls := Issue(token, plan, accepted);
    AttemptsComplete(eligible, key, full, share, c);
    AttemptsSound(eligible, key, full, share);
    var m :| 0 <= m < |tail| && tail[m] == Payout(c, share);
    // the last successful call to c lies in the full tier
    var k := |head| + m;
    while k + 1 < |calls| && exists j | k < j < |calls| :: calls[j].to == c
      invariant |head| + m <= k < |calls| && calls[k].to == c && calls[k].amount == share
      decreases |calls| - k
    {
      var j :| k < j < |calls| && calls[j].to == c;
      assert tail[j - |head|] in tail;
      k := j;
    }
    LastSuccessWins(calls, k);
  }

  /** When the token accepts every call, an eligible top citizen that is not
      also in the full-participation list is recorded with the flat bonus. */
  lemma TopTierPaid(amount: int, token: UInt160, key: string, eligible: set<(UInt160, string)>,
                    top: seq<UInt160>, full: seq<UInt160>, accepted: nat -> bool, c: UInt160)
    requires forall i: nat :: accepted(i)
    requires c in top && c !in full && (c, key) in eligible
    ensures var m := Recorded(Issue(token, Planned(amount, key, eligible, top, full), accepted));
            c in m && m[c] == TopReward(amount)
  {
    var bonus := TopReward(amount);
    var head := Attempts(eligible, key, top, bonus);
    var tail := if full == [] then [] else Attempts(eligible, key, full, FullShare(amount, |full|));
    var plan := head + tail;
    var calls := Issue(token, plan, accepted);
    AttemptsComplete(eligible, key, top, bonus, c);
    AttemptsSound(eligible, key, top, bonus);
    if full != [] {
      AttemptsSound(eligible, key, full, FullShare(amount, |full|));
    }
    var m :| 0 <= m < |head| && head[m] == Payout(c, bonus);
    var k := m;
    while k + 1 < |calls| && exists j | k < j < |calls| :: calls[j].to == c
      invariant m <= k < |head| && calls[k].to == c && calls[k].amount == bonus
      decreases |calls| - k
    {
      var j :| k < j < |calls| && calls[j].to == c;
      assert j < |head|;
      assert head[j] in head;
      k := j;
    }
    LastSuccessWins(calls, k);
  }

  /** A deposit of 1000 with top = [x] and full = [y, z], all eligible and all
      transfers accepted, records {x: 100, y: 250, z: 250}. */
  lemma ExampleDistribution(token: UInt160, key: string, eligible: set<(UInt160, string)>,
                            x: UInt160, y: UInt160, z: UInt160)
    requires (x, key) in eligible && (y, key) in eligible && (z, key) in eligible
    ensures Recorded(Issue(token, Planned(1000, key, eligible, [x], [y, z]), i => true))
            == map[x := 100, y := 250, z := 250]
  {
    var plan := [Payout(x, 100), Payout(y, 250), Payout(z, 250)];
    ExamplePlan(key, eligible, x, y, z);
    var cx, cy, cz := TransferCall(token, x, 100, true), TransferCall(token, y, 250, true), TransferCall(token, z, 250, true);
    assert Issue(token, plan, i => true) == [cx, cy, cz];
    ExampleRecorded(cx, cy, cz);
  }

  lemma ExamplePlan(key: string, eligible: set<(UInt160, string)>, x: UInt160, y: UInt160, z: UInt160)
    requires (x, key) in eligible && (y, key) in eligible && (z, key) in eligible
    ensures Planned(1000, key, eligible, [x], [y, z]) == [Payout(x, 100), Payout(y, 250), Payout(z, 250)]
  {
    assert Attempts(eligible, key, [y, z], 250) == [Payout(y, 250), Payout(z, 250)];
    assert TopReward(1000) == 100;
    assert FullShare(1000, 2) == 250;
  }

  lemma ExampleRecorded(cx: TransferCall, cy: TransferCall, cz: TransferCall)
    requires cx.succeeded && cy.succeeded && cz.succeeded
    ensures Recorded([cx, cy, cz]) == map[cx.to := cx.amount, cy.to := cy.amount, cz.to := cz.amount]
  {
    RecordedSnoc([], cx);
    assert [cx, cy] == [cx] + [cy];
    RecordedSnoc([cx], cy);
    assert [cx, cy, cz] == [cx, cy] + [cz];
    RecordedSnoc([cx, cy], cz);
  }

  // ---------------------------------------------------------------------
  // The two loops of DistributeRewards

  lemma IssueSnoc(token: UInt160, plan: seq<Payout>, p: Payout, accepted: nat -> bool)
    ensures Issue(token, plan + [p], accepted)
            == Issue(token, plan, accepted) + [TransferCall(token, p.to, p.amount, accepted(|plan|))]
  {
  }

  lemma AttemptsSnoc(eligible: set<(UInt160, string)>, key: string, cs: seq<UInt160>, i: nat, reward: int)
    requires i < |cs|
    ensures Attempts(eligible, key, cs[..i + 1], reward)
            == if (cs[i], key) in eligible then Attempts(eligible, key, cs[..i], reward) + [Payout(cs[i], reward)]
               else Attempts(eligible, key, cs[..i], reward)
  {
    assert cs[..i + 1][..i] == cs[..i];
  }

  /** The two tier loops of a distribution: for each listed citizen with an
      eligibility marker, compute its reward, call the token's transfer, and on
      success record the reward. Returns the rewarded map and the calls made. */
  method Distribute(info: RewardsInfo, key: string, eligible: set<(UInt160, string)>,
                    top: seq<UInt160>, full: seq<UInt160>, accepted: nat -> bool)
    returns (rewarded: map<UInt160, int>, calls: seq<TransferCall>)
    ensures calls == Issue(info.token, Planned(info.amount, key, eligible, top, full), accepted)
    ensures rewarded == Recorded(calls)
  {
    rewarded, calls := map[], [];
    var i := 0;
    while i < |top|
      invariant 0 <= i <= |top|
      invariant calls == Issue(info.token, Attempts(eligible, key, top[..i], TopReward(info.amount)), accepted)
      invariant rewarded == Recorded(calls)
    {
      var c := top[i];
      AttemptsSnoc(eligible, key, top, i, TopReward(info.amount));
      if (c, key) in eligible {
        var reward := TopReward(info.amount);
        var ok := accepted(|calls|);
        IssueSnoc(info.token, Attempts(eligible, key, top[..i], reward), Payout(c, reward), accepted);
        RecordedSnoc(calls, TransferCall(info.token, c, reward, ok));
        calls := calls + [TransferCall(info.token, c, reward, ok)];
        if ok {
          rewarded := rewarded[c := reward];
        }
      }
      i := i + 1;
    }
    assert top[..|top|] == top;
    ghost var head := Attempts(eligible, key, top, TopReward(info.amount));
    var pool := FullPool(info.amount);
    var j := 0;
    while j < |full|
      invariant 0 <= j <= |full|
      invariant calls == Issue(info.token, head + (if full == [] then [] else
                                 Attempts(eligible, key, full[..j], FullShare(info.amount, |full|))), accepted)
      invariant rewarded == Recorded(calls)
    {
      var c := full[j];
      AttemptsSnoc(eligible, key, full, j, FullShare(info.amount, |full|));
      if (c, key) in eligible {
        var reward := TDiv(pool, |full|);
        var ok := accepted(|calls|);
        ghost var done := Attempts(eligible, key, full[..j], reward);
        assert head + (done + [Payout(c, reward)]) == (head + done) + [Payout(c, reward)];
        IssueSnoc(info.token, head + done, Payout(c, reward), accepted);
        RecordedSnoc(calls, TransferCall(info.token, c, reward, ok));
        calls := calls + [TransferCall(info.token, c, reward, ok)];
        if ok {
          rewarded := rewarded[c := reward];
        }
      }
      j := j + 1;
    }
    assert full[..|full|] == full;
  }
}
