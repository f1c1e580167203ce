/** What a run publishes does not depend on the order in which its fixture lists anything. */
module Reordering {
  import opened PodModel
  import opened Sums
  import opened Sorting
  import opened Canonical
  import opened Ledger
  import opened Twab
  import opened Validate
  import opened Eligibility
  import opened Allocation
  import opened Digests
  import opened Merkle
  import opened Pipeline

  /** One cycle, the same transfer records, and every other list in some other order. */
  ghost predicate SameLists(raw: Fixture, other: Fixture) {
    && raw.cycle == other.cycle && SameElements(raw.transfers, other.transfers)
    && multiset(raw.excludedAddresses) == multiset(other.excludedAddresses)
    && multiset(raw.eligibility) == multiset(other.eligibility)
    && multiset(raw.epochStartBalances) == multiset(other.epochStartBalances)
    && multiset(raw.locks) == multiset(other.locks)
    && multiset(raw.assets) == multiset(other.assets)
  }

  // ---- Validity -------------------------------------------------------------------------

  lemma SameValidity(raw: Fixture, other: Fixture)
    requires SameLists(raw, other)
    ensures ValidFixture(raw) <==> ValidFixture(other)
  {
    if ValidFixture(raw) { ValidityCarriesOver(raw, other); }
    if ValidFixture(other) { ValidityCarriesOver(other, raw); }
  }

  lemma ValidityCarriesOver(raw: Fixture, other: Fixture)
    requires SameLists(raw, other) && ValidFixture(raw)
    ensures ValidFixture(other)
  {
    KeysReordered(raw.excludedAddresses, other.excludedAddresses, (a: Address) => a);
    SameHolders(raw.eligibility, other.eligibility);
    SameStarters(raw.epochStartBalances, other.epochStartBalances);
    SameTokens(raw.assets, other.assets);
    Reordered(raw.locks, other.locks);
  }

  lemma SameHolders(rs: seq<EligibilityRecord>, os: seq<EligibilityRecord>)
    requires multiset(rs) == multiset(os) && Distinct(Holders(rs))
    ensures Distinct(Holders(os))
  {
    assert forall i, j :: 0 <= i < j < |rs| ==> Holders(rs)[i] != Holders(rs)[j];
    KeysReordered(rs, os, (r: EligibilityRecord) => r.wallet);
  }

  lemma SameStarters(bs: seq<StartBalance>, os: seq<StartBalance>)
    requires multiset(bs) == multiset(os) && Distinct(Starters(bs))
    ensures Distinct(Starters(os))
  {
    assert forall i, j :: 0 <= i < j < |bs| ==> Starters(bs)[i] != Starters(bs)[j];
    KeysReordered(bs, os, (b: StartBalance) => b.wallet);
  }

  lemma SameTokens(xs: seq<Asset>, ys: seq<Asset>)
    requires multiset(xs) == multiset(ys) && Distinct(Tokens(xs))
    ensures Distinct(Tokens(ys))
  {
    assert forall i, j :: 0 <= i < j < |xs| ==> Tokens(xs)[i] != Tokens(xs)[j];
    KeysReordered(xs, ys, (x: Asset) => x.tokenAddress);
  }

  // ---- Weights --------------------------------------------------------------------------

  lemma SameStart(bs: seq<StartBalance>, os: seq<StartBalance>, w: Address)
    requires multiset(bs) == multiset(os) && Distinct(Starters(bs))
    ensures StartOf(bs, w) == StartOf(os, w)
  {
    SameStarters(bs, os);
    Reordered(bs, os);
    assert forall i, j :: 0 <= i < j < |bs| ==> Starters(bs)[i] != Starters(bs)[j];
    assert forall i, j :: 0 <= i < j < |os| ==> Starters(os)[i] != Starters(os)[j];
    Lookup(bs, w);
    Lookup(os, w);
    if b :| b in bs && b.wallet == w { assert b in os; }
  }

  lemma SameLocked(locks: seq<Lock>, others: seq<Lock>, w: Address, tier: Tier, t: int)
    requires multiset(locks) == multiset(others)
    ensures LockedAt(locks, w, tier, t) == LockedAt(others, w, tier, t)
  {
    LockedIsSumOfRunning(locks, w, tier, t);
    LockedIsSumOfRunning(others, w, tier, t);
    TotalSameMultiset(locks, others, TierPrincipal(w, tier, t));
  }

  /** Start balances and locks that mean the same for every wallet. */
  ghost predicate Alike(starts: seq<StartBalance>, others: seq<StartBalance>, locks: seq<Lock>, moved: seq<Lock>) {
    && (forall w :: StartOf(starts, w) == StartOf(others, w))
    && (forall w, tier, t :: LockedAt(locks, w, tier, t) == LockedAt(moved, w, tier, t))
    && SameElements(starts, others) && SameElements(locks, moved)
  }

  lemma ListsAlike(raw: Fixture, other: Fixture)
    requires SameLists(raw, other) && ValidFixture(raw)
    ensures Alike(raw.epochStartBalances, other.epochStartBalances, raw.locks, other.locks)
  {
    Reordered(raw.epochStartBalances, other.epochStartBalances);
    Reordered(raw.locks, other.locks);
    forall w
      ensures StartOf(raw.epochStartBalances, w) == StartOf(other.epochStartBalances, w)
    {
      SameStart(raw.epochStartBalances, other.epochStartBalances, w);
    }
    forall w, tier, t
      ensures LockedAt(raw.locks, w, tier, t) == LockedAt(other.locks, w, tier, t)
    {
      SameLocked(raw.locks, other.locks, w, tier, t);
    }
  }

  lemma AlikeTotals(starts: seq<StartBalance>, others: seq<StartBalance>, ts: seq<Transfer>, locks: seq<Lock>,
        moved: seq<Lock>, w: Address, t: int)
    requires Alike(starts, others, locks, moved)
    ensures BalanceAt(starts, ts, w, t) == BalanceAt(others, ts, w, t)
    ensures LockedTotalAt(locks, w, t) == LockedTotalAt(moved, w, t)
  {
    assert LockedTotalAt(locks, w, t)
        == LockedAt(locks, w, LOCK_7D, t) + LockedAt(locks, w, LOCK_14D, t)
           + LockedAt(locks, w, LOCK_21D, t) + LockedAt(locks, w, LOCK_30D, t);
    assert LockedTotalAt(moved, w, t)
        == LockedAt(moved, w, LOCK_7D, t) + LockedAt(moved, w, LOCK_14D, t)
           + LockedAt(moved, w, LOCK_21D, t) + LockedAt(moved, w, LOCK_30D, t);
  }

  lemma SameNaiveWeight(e0: int, e1: int, starts: seq<StartBalance>, others: seq<StartBalance>, ts: seq<Transfer>,
        locks: seq<Lock>, moved: seq<Lock>, w: Address)
    requires Alike(starts, others, locks, moved)
    ensures NaiveWeight(e0, e1, starts, ts, locks, w) == NaiveWeight(e0, e1, others, ts, moved, w)
  {
    forall t
      ensures BalanceAt(starts, ts, w, t) == BalanceAt(others, ts, w, t)
      ensures LockedTotalAt(locks, w, t) == LockedTotalAt(moved, w, t)
    {
      AlikeTotals(starts, others, ts, locks, moved, w, t);
    }
    SumAgree(BalanceCurve(starts, ts, w), BalanceCurve(others, ts, w), e0, e1);
    SumAgree(FreeCurve(starts, ts, locks, w), FreeCurve(others, ts, moved, w), e0, e1);
    forall tier
      ensures LockedTwab(e0, e1, locks, w, tier) == LockedTwab(e0, e1, moved, w, tier)
    {
      SumAgree(LockedCurve(locks, w, tier), LockedCurve(moved, w, tier), e0, e1);
    }
  }

  lemma SameAcceptance(e0: int, e1: int, starts: seq<StartBalance>, others: seq<StartBalance>, ts: seq<Transfer>,
        locks: seq<Lock>, moved: seq<Lock>)
    requires Alike(starts, others, locks, moved)
    ensures Accepted(e0, e1, starts, ts, locks) <==> Accepted(e0, e1, others, ts, moved)
  {
    assert NoOverdraft(starts, ts) <==> NoOverdraft(others, ts) by {
      assert forall i :: 0 <= i < |ts| ==> (CanPay(starts, ts, i) <==> CanPay(others, ts, i));
    }
    forall w
      ensures Covered(starts, ts, locks, w, e0, e1) <==> Covered(others, ts, moved, w, e0, e1)
      ensures Relevant(starts, ts, locks, w) <==> Relevant(others, ts, moved, w)
    {
      forall t
        ensures BalanceAt(starts, ts, w, t) == BalanceAt(others, ts, w, t)
        ensures LockedTotalAt(locks, w, t) == LockedTotalAt(moved, w, t)
      {
        AlikeTotals(starts, others, ts, locks, moved, w, t);
      }
      SameRelevance(starts, others, ts, locks, moved, w);
    }
  }

  lemma SameRelevance(starts: seq<StartBalance>, others: seq<StartBalance>, ts: seq<Transfer>, locks: seq<Lock>,
        moved: seq<Lock>, w: Address)
    requires SameElements(starts, others) && SameElements(locks, moved)
    ensures Relevant(starts, ts, locks, w) <==> Relevant(others, ts, moved, w)
  {
  }

  lemma SameSound(raw: Fixture, other: Fixture)
    requires SameLists(raw, other)
    ensures Sound(raw) <==> Sound(other)
  {
    SameValidity(raw, other);
    OrderAndDuplicatesIrrelevant(raw.transfers, other.transfers);
    if ValidFixture(raw) && Consistent(raw.transfers) {
      ListsAlike(raw, other);
      SameAcceptance(raw.cycle.epochStart, raw.cycle.epochEnd, raw.epochStartBalances, other.epochStartBalances,
                     Until(History(raw.transfers), raw.cycle.epochEnd), raw.locks, other.locks);
    }
  }

  lemma SameWeights(raw: Fixture, other: Fixture)
    requires SameLists(raw, other) && Sound(raw)
    ensures WeightsOf(raw) == WeightsOf(other)
  {
    OrderAndDuplicatesIrrelevant(raw.transfers, other.transfers);
    ListsAlike(raw, other);
    var applied := Until(History(raw.transfers), raw.cycle.epochEnd);
    forall w
      ensures Relevant(raw.epochStartBalances, applied, raw.locks, w)
              <==> Relevant(other.epochStartBalances, applied, other.locks, w)
    {
      SameRelevance(raw.epochStartBalances, other.epochStartBalances, applied, raw.locks, other.locks, w);
    }
    forall w | w in WeightsOf(raw)
      ensures WeightsOf(raw)[w] == WeightsOf(other)[w]
    {
      SameNaiveWeight(raw.cycle.epochStart, raw.cycle.epochEnd, raw.epochStartBalances, other.epochStartBalances,
                      applied, raw.locks, other.locks, w);
    }
  }

  // ---- Wallets and shares ---------------------------------------------------------------

  lemma SameAdmission(raw: Fixture, other: Fixture, w: Address)
    requires SameLists(raw, other)
    ensures Admitted(raw.cycle, raw.excludedAddresses, raw.eligibility, w)
            <==> Admitted(other.cycle, other.excludedAddresses, other.eligibility, w)
  {
    Reordered(raw.excludedAddresses, other.excludedAddresses);
    Reordered(raw.eligibility, other.eligibility);
  }

  lemma WalletsListed(raw: Fixture)
    requires ValidFixture(raw)
    ensures Distinct(WalletsOf(raw)) && Ordered(WalletsOf(raw), AddressLeq)
    ensures forall w :: w in WalletsOf(raw) <==> Admitted(raw.cycle, raw.excludedAddresses, raw.eligibility, w)
  {
    KeptAreAdmitted(raw.cycle, raw.excludedAddresses, raw.eligibility);
    SortKeepsDistinct(Kept(raw.cycle, raw.excludedAddresses, raw.eligibility), AddressLeq);
  }

  lemma SameWalletList(raw: Fixture, other: Fixture)
    requires SameLists(raw, other) && ValidFixture(raw)
    ensures WalletsOf(raw) == WalletsOf(other)
  {
    SameValidity(raw, other);
    WalletsListed(raw);
    WalletsListed(other);
    forall w
      ensures w in WalletsOf(raw) <==> w in WalletsOf(other)
    {
      SameAdmission(raw, other, w);
    }
    SameWallets(WalletsOf(raw), WalletsOf(other));
  }

  lemma SameShares(cycle: Cycle, assets: seq<Asset>, moved: seq<Asset>, ws: seq<Address>,
        weights: map<Address, WalletWeight>, total: int)
    requires Distinct(ws) && Distinct(Tokens(assets)) && multiset(assets) == multiset(moved)
    ensures multiset(AllShares(cycle, assets, ws, weights, total))
            == multiset(AllShares(cycle, moved, ws, weights, total))
  {
    var es, fs := AllShares(cycle, assets, ws, weights, total), AllShares(cycle, moved, ws, weights, total);
    SameTokens(assets, moved);
    Reordered(assets, moved);
    SharesBuildable(cycle, assets, ws, weights, total);
    SharesBuildable(cycle, moved, ws, weights, total);
    forall e
      ensures e in es <==> e in fs
    {
      SharesByAsset(cycle, assets, ws, weights, total, e);
      SharesByAsset(cycle, moved, ws, weights, total, e);
    }
    assert Distinct(es) && Distinct(fs);
    SubsetMultiset(es, fs);
    SubsetMultiset(fs, es);
  }

  lemma SameEntitlements(raw: Fixture, other: Fixture)
    requires SameLists(raw, other) && Sound(raw)
    ensures multiset(EntitledBy(raw)) == multiset(EntitledBy(other))
  {
    SameWeights(raw, other);
    SameWalletList(raw, other);
    WalletsListed(raw);
    SameShares(raw.cycle, raw.assets, other.assets, WalletsOf(raw), WeightsOf(raw),
               Total(WalletsOf(raw), WeightIn(WeightsOf(raw))));
  }

  // ---- What is published ----------------------------------------------------------------

  /** Everything that does not itself list the assets is the same, and so is what is said of each asset. */
  ghost predicate SamePublication(raw: Fixture, other: Fixture, p: PipelineResult, q: PipelineResult) {
    && p.weights == q.weights && p.eligibility == q.eligibility
    && p.merkle == q.merkle && p.verification == q.verification
    && p.allocation.publishable == q.allocation.publishable
    && |p.allocation.assets| == |p.reconciliation.assets| == |raw.assets|
    && |q.allocation.assets| == |q.reconciliation.assets| == |other.assets|
    && forall i, j :: 0 <= i < |raw.assets| && 0 <= j < |other.assets| && raw.assets[i] == other.assets[j] ==>
         && p.allocation.assets[i] == q.allocation.assets[j]
         && p.reconciliation.assets[i] == q.reconciliation.assets[j]
  }

  /** Whatever the order of its lists, a fixture is accepted alike and publishes the same root with the same proofs. */
  lemma PublicationIgnoresOrder(raw: Fixture, other: Fixture, p: PipelineResult, q: PipelineResult, layout: Layout,
        less: (Digest, Digest) -> bool)
    requires SameLists(raw, other)
    ensures Sound(raw) <==> Sound(other)
    ensures Sound(raw) ==> (Encodes(raw) <==> Encodes(other))
    ensures Sound(raw) && Delivered(raw, p, layout, less) && Delivered(other, q, layout, less) ==>
              SamePublication(raw, other, p, q)
  {
    SameSound(raw, other);
    if Sound(raw) {
      SameEntitlements(raw, other);
      Reordered(EntitledBy(raw), EntitledBy(other));
      if Delivered(raw, p, layout, less) && Delivered(other, q, layout, less) {
        DeliveredIsDetermined(raw, p, layout, less);
        DeliveredIsDetermined(other, q, layout, less);
        SameWeights(raw, other);
        PublishedAlike(raw, other, p, q, layout, less);
      }
    }
  }

  lemma DeliveredIsDetermined(raw: Fixture, p: PipelineResult, layout: Layout, less: (Digest, Digest) -> bool)
    requires Sound(raw) && Delivered(raw, p, layout, less)
    ensures p.weights == WeightsOf(raw) && p.eligibility.eligibleWallets == WalletsOf(raw)
    ensures p.allocation.entitlements == EntitledBy(raw)
  {
    var applied := Until(History(raw.transfers), raw.cycle.epochEnd);
    SharesOfFixture(raw, WeightComputation(p.weights, applied), p.eligibility);
  }

  lemma PublishedAlike(raw: Fixture, other: Fixture, p: PipelineResult, q: PipelineResult, layout: Layout,
        less: (Digest, Digest) -> bool)
    requires SameLists(raw, other) && ValidFixture(raw) && p.weights == q.weights
    requires multiset(p.allocation.entitlements) == multiset(q.allocation.entitlements)
    requires Delivered(raw, p, layout, less) && Delivered(other, q, layout, less)
    ensures SamePublication(raw, other, p, q)
  {
    SameResolution(raw, other, p, q, layout, less);
    SameAllocations(raw, other, p, q, layout, less);
    SameTree(raw, other, p, q, layout, less);
  }

  lemma SameResolution(raw: Fixture, other: Fixture, p: PipelineResult, q: PipelineResult, layout: Layout,
        less: (Digest, Digest) -> bool)
    requires SameLists(raw, other) && ValidFixture(raw) && p.weights == q.weights
    requires Delivered(raw, p, layout, less) && Delivered(other, q, layout, less)
    ensures p.eligibility == q.eligibility
  {
    Reordered(raw.excludedAddresses, other.excludedAddresses);
    forall w
      ensures w in p.eligibility.eligibleWallets <==> w in q.eligibility.eligibleWallets
    {
      SameAdmission(raw, other, w);
    }
    SameWallets(p.eligibility.eligibleWallets, q.eligibility.eligibleWallets);
  }

  lemma SameAllocations(raw: Fixture, other: Fixture, p: PipelineResult, q: PipelineResult, layout: Layout,
        less: (Digest, Digest) -> bool)
    requires raw.cycle == other.cycle && p.weights == q.weights && p.eligibility == q.eligibility
    requires Delivered(raw, p, layout, less) && Delivered(other, q, layout, less)
    ensures |p.allocation.assets| == |p.reconciliation.assets| == |raw.assets|
    ensures |q.allocation.assets| == |q.reconciliation.assets| == |other.assets|
    ensures forall i, j :: 0 <= i < |raw.assets| && 0 <= j < |other.assets| && raw.assets[i] == other.assets[j] ==>
              && p.allocation.assets[i] == q.allocation.assets[j]
              && p.reconciliation.assets[i] == q.reconciliation.assets[j]
  {
  }

  lemma SameTree(raw: Fixture, other: Fixture, p: PipelineResult, q: PipelineResult, layout: Layout,
        less: (Digest, Digest) -> bool)
    requires ValidFixture(raw) && raw.cycle == other.cycle
    requires Delivered(raw, p, layout, less) && Delivered(other, q, layout, less)
    requires multiset(p.allocation.entitlements) == multiset(q.allocation.entitlements)
    ensures p.merkle == q.merkle && p.verification == q.verification
    ensures p.allocation.publishable == q.allocation.publishable
  {
    var es, fs := p.allocation.entitlements, q.allocation.entitlements;
    Reordered(es, fs);
    SharesBuildable(raw.cycle, raw.assets, p.eligibility.eligibleWallets, p.weights,
                    p.eligibility.totalEffectiveWeight);
    if es != [] {
      BuildIgnoresOrder(DomainOf(raw.cycle), es, fs, p.merkle.value, q.merkle.value, layout, less);
    }
  }
}
