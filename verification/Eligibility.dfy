/** Which wallets take part, and the totals used as the allocation denominator. */
module Eligibility {
  import opened PodModel
  import opened Sums
  import opened Sorting
  import opened Twab
  import opened Validate

  datatype Resolution = Resolution(
    eligibleWallets: seq<Address>, excluded: set<Address>, referenceTimestamp: nat,
    totalEligibleSnapshotBalance: int, totalBaseTwab: int, totalEffectiveWeight: int)

  /** Active under the cycle's policy at the epoch end, and not excluded. */
  predicate Eligible(cycle: Cycle, excluded: seq<Address>, r: EligibilityRecord) {
    && r.eligible && !r.revoked
    && r.policyVersion == cycle.eligibilityPolicyVersion
    && r.validFrom <= cycle.epochEnd
    && (r.expiry.Some? ==> cycle.epochEnd < r.expiry.value)
    && r.wallet !in excluded
  }

  function WeightIn(weights: map<Address, WalletWeight>): Address -> int {
    (w: Address) => if w in weights then weights[w].effectiveWeight else 0
  }

  function SnapshotIn(weights: map<Address, WalletWeight>): Address -> int {
    (w: Address) => if w in weights then weights[w].snapshotBalance else 0
  }

  function BaseTwabIn(weights: map<Address, WalletWeight>): Address -> int {
    (w: Address) => if w in weights then weights[w].baseTwab else 0
  }

  predicate AddressLeq(a: Address, b: Address) { a <= b }

  method ResolveEligibility(cycle: Cycle, excludedAddresses: seq<Address>, eligibility: seq<EligibilityRecord>,
        weights: map<Address, WalletWeight>)
      returns (r: Resolution)
    requires Distinct(Holders(eligibility))
    ensures Ordered(r.eligibleWallets, AddressLeq) && Distinct(r.eligibleWallets)
    ensures forall w :: w in r.eligibleWallets <==> Admitted(cycle, excludedAddresses, eligibility, w)
    ensures r.referenceTimestamp == cycle.epochEnd && r.excluded == set w | w in excludedAddresses
    ensures r.totalEligibleSnapshotBalance == Total(r.eligibleWallets, SnapshotIn(weights))
    ensures r.totalBaseTwab == Total(r.eligibleWallets, BaseTwabIn(weights))
    ensures r.totalEffectiveWeight == Total(r.eligibleWallets, WeightIn(weights))
  {
    var excluded := set w | w in excludedAddresses;
    var kept := FilterEligible(cycle, excludedAddresses, excluded, eligibility);
    var eligibleWallets := Sort(kept, AddressLeq);
    SortKeepsDistinct(kept, AddressLeq);
    assert forall w :: w in eligibleWallets <==> w in kept;
    var snapshot, base, effective := SumWeights(eligibleWallets, weights);
    return Resolution(eligibleWallets, excluded, cycle.epochEnd, snapshot, base, effective);
  }

  ghost predicate Admitted(cycle: Cycle, excluded: seq<Address>, eligibility: seq<EligibilityRecord>, w: Address) {
    exists k :: k in eligibility && k.wallet == w && Eligible(cycle, excluded, k)
  }

  /** The admitted wallets in the order of their records. */
  function Kept(cycle: Cycle, excluded: seq<Address>, rs: seq<EligibilityRecord>): seq<Address> {
    if rs == [] then []
    else
      var last := rs[|rs| - 1];
      Kept(cycle, excluded, rs[..|rs| - 1]) + if Eligible(cycle, excluded, last) then [last.wallet] else []
  }

  lemma {:induction false} KeptAreAdmitted(cycle: Cycle, excluded: seq<Address>, rs: seq<EligibilityRecord>)
    requires Distinct(Holders(rs))
    ensures Distinct(Kept(cycle, excluded, rs))
    ensures forall w :: w in Kept(cycle, excluded, rs) <==> Admitted(cycle, excluded, rs, w)
  {
    if rs != [] {
      var n := |rs| - 1;
      assert forall i :: 0 <= i < n ==> Holders(rs[..n])[i] == Holders(rs)[i];
      KeptAreAdmitted(cycle, excluded, rs[..n]);
      NewHolder(rs, n);
      AdmittedStep(cycle, excluded, rs, n);
      assert rs[..n + 1] == rs;
      assert !Admitted(cycle, excluded, rs[..n], rs[n].wallet);
      assert rs[n].wallet !in Kept(cycle, excluded, rs[..n]);
    }
  }

  method FilterEligible(cycle: Cycle, ghost excludedAddresses: seq<Address>, excluded: set<Address>,
        eligibility: seq<EligibilityRecord>)
      returns (kept: seq<Address>)
    requires Distinct(Holders(eligibility)) && excluded == set w | w in excludedAddresses
    ensures Distinct(kept)
    ensures forall w :: w in kept <==> Admitted(cycle, excludedAddresses, eligibility, w)
  {
    kept := [];
    for i := 0 to |eligibility|
      invariant Distinct(kept)
      invariant forall w :: w in kept <==> Admitted(cycle, excludedAddresses, eligibility[..i], w)
    {
      var k := eligibility[i];
      AdmittedStep(cycle, excludedAddresses, eligibility, i);
      if !k.eligible { continue; }
      if k.revoked { continue; }
      if k.policyVersion != cycle.eligibilityPolicyVersion { continue; }
      if k.validFrom > cycle.epochEnd { continue; }
      if k.expiry.Some? && cycle.epochEnd >= k.expiry.value { continue; }
      if k.wallet in excluded { continue; }
      NewHolder(eligibility, i);
      assert !Admitted(cycle, excludedAddresses, eligibility[..i], k.wallet);
      kept := kept + [k.wallet];
    }
    assert eligibility[..|eligibility|] == eligibility;
  }

  lemma AdmittedStep(cycle: Cycle, excluded: seq<Address>, rs: seq<EligibilityRecord>, i: nat)
    requires i < |rs|
    ensures forall w :: Admitted(cycle, excluded, rs[..i + 1], w) <==>
              Admitted(cycle, excluded, rs[..i], w) || (rs[i].wallet == w && Eligible(cycle, excluded, rs[i]))
  {
    assert rs[..i + 1] == rs[..i] + [rs[i]];
  }

  lemma NewHolder(rs: seq<EligibilityRecord>, i: nat)
    requires Distinct(Holders(rs)) && i < |rs|
    ensures forall k :: k in rs[..i] ==> k.wallet != rs[i].wallet
  {
    forall k | k in rs[..i]
      ensures k.wallet != rs[i].wallet
    {
      var j :| 0 <= j < i && rs[j] == k;
      assert Holders(rs)[j] != Holders(rs)[i];
    }
  }

  method SumWeights(eligibleWallets: seq<Address>, weights: map<Address, WalletWeight>)
      returns (snapshot: int, base: int, effective: int)
    ensures snapshot == Total(eligibleWallets, SnapshotIn(weights))
    ensures base == Total(eligibleWallets, BaseTwabIn(weights))
    ensures effective == Total(eligibleWallets, WeightIn(weights))
  {
    snapshot, base, effective := 0, 0, 0;
    for i := 0 to |eligibleWallets|
      invariant snapshot == Total(eligibleWallets[..i], SnapshotIn(weights))
      invariant base == Total(eligibleWallets[..i], BaseTwabIn(weights))
      invariant effective == Total(eligibleWallets[..i], WeightIn(weights))
    {
      var w := eligibleWallets[i];
      TotalStep(eligibleWallets, i, SnapshotIn(weights));
      TotalStep(eligibleWallets, i, BaseTwabIn(weights));
      TotalStep(eligibleWallets, i, WeightIn(weights));
      if w in weights {
        snapshot := snapshot + weights[w].snapshotBalance;
        base := base + weights[w].baseTwab;
        effective := effective + weights[w].effectiveWeight;
      }
    }
    assert eligibleWallets[..|eligibleWallets|] == eligibleWallets;
  }
}
