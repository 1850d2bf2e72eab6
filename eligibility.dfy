/** The citizen eligibility ledger: a presence-only set of (citizen, campaign
    key) pairs. The contract stores a marker under the SHA-256 of the
    serialized pair; the model takes that hash to be injective and keeps the
    pairs themselves. */
module Eligibility {
  import opened RewardTypes

  /** The ledger after SubmitCitizens's loop has put a marker for each
      citizen of `cs`, in order. */
  function Submitted(eligible: set<(UInt160, string)>, key: string, cs: seq<UInt160>): (r: set<(UInt160, string)>)
    ensures eligible <= r
    ensures forall p | p in r && p !in eligible :: p.1 == key && p.0 in cs
    decreases |cs|
  {
    if cs == [] then eligible
    else Submitted(eligible, key, cs[..|cs| - 1]) + {(cs[|cs| - 1], key)}
  }

  /** After a submission exactly the listed citizens are added for that key;
      every other (citizen, key) pair keeps its eligibility. */
  lemma {:induction false} SubmittedExactly(eligible: set<(UInt160, string)>, key: string, cs: seq<UInt160>, p: (UInt160, string))
    ensures p in Submitted(eligible, key, cs) <==> p in eligible || (p.1 == key && p.0 in cs)
    decreases |cs|
  {
    if cs != [] {
      var init := cs[..|cs| - 1];
      SubmittedExactly(eligible, key, init, p);
      assert p.0 in cs <==> p.0 in init || p.0 == cs[|cs| - 1] by {
        assert cs == init + [cs[|cs| - 1]];
      }
    }
  }

  /** Submitting the same list again changes nothing. */
  lemma SubmittedIdempotent(eligible: set<(UInt160, string)>, key: string, cs: seq<UInt160>)
    ensures Submitted(Submitted(eligible, key, cs), key, cs) == Submitted(eligible, key, cs)
  {
    var once := Submitted(eligible, key, cs);
    forall p | p in Submitted(once, key, cs)
      ensures p in once
    {
      SubmittedExactly(once, key, cs, p);
      SubmittedExactly(eligible, key, cs, p);
    }
    forall p | p in once
      ensures p in Submitted(once, key, cs)
    {
      SubmittedExactly(once, key, cs, p);
    }
  }

  /** A submission only depends on which citizens are listed, not on their
      order or repetitions. */
  lemma SubmittedSameMembers(eligible: set<(UInt160, string)>, key: string, cs: seq<UInt160>, ds: seq<UInt160>)
    requires forall c :: c in cs <==> c in ds
    ensures Submitted(eligible, key, cs) == Submitted(eligible, key, ds)
  {
    forall p | p in Submitted(eligible, key, cs)
      ensures p in Submitted(eligible, key, ds)
    {
      SubmittedExactly(eligible, key, cs, p);
      SubmittedExactly(eligible, key, ds, p);
    }
    forall p | p in Submitted(eligible, key, ds)
      ensures p in Submitted(eligible, key, cs)
    {
      SubmittedExactly(eligible, key, cs, p);
      SubmittedExactly(eligible, key, ds, p);
    }
  }
}
