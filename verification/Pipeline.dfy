/** The whole engine: fixture in, published root out. */
module Pipeline {
  import opened Results
  import opened PodModel
  import opened Sums
  import opened Sorting
  import opened Canonical
  import opened Twab
  import opened WeightBounds
  import opened Validate
  import opened Eligibility
  import opened Allocation
  import opened Digests
  import opened Merkle

  datatype AssetReconciliation = AssetReconciliation(
    assetAddress: Address, acquired: int, participantPool: int, strategicReserve: int, distributed: int,
    distributionDust: int,
    fundedRequired: int, claimable: int, claimed: int, unclaimed: int, rollover: int)

  datatype Reconciliation = Reconciliation(publishable: bool, assets: seq<AssetReconciliation>)

  datatype VerificationSummary = VerificationSummary(proofCount: nat, ozVerified: nat, viemVerified: nat)

  datatype PipelineResult = PipelineResult(
    weights: map<Address, WalletWeight>, eligibility: Resolution, allocation: AllocationResult,
    merkle: Option<MerkleResult>, reconciliation: Reconciliation, verification: VerificationSummary)

  /** Claimable, funded and unclaimed are what was distributed; nothing is claimed yet; dust rolls over. */
  ghost predicate Mirrors(r: Reconciliation, allocation: AllocationResult) {
    && r.publishable == allocation.publishable && |r.assets| == |allocation.assets|
    && forall i :: 0 <= i < |r.assets| ==> MirrorsAsset(r.assets[i], allocation.assets[i])
  }

  ghost predicate MirrorsAsset(x: AssetReconciliation, a: AssetAllocation) {
    && x.assetAddress == a.asset.tokenAddress && x.acquired == a.acquired && x.participantPool == a.participantPool
    && x.strategicReserve == a.strategicReserve && x.distributed == a.distributed
    && x.distributionDust == x.rollover == a.distributionDust
    && x.fundedRequired == x.claimable == x.unclaimed == a.distributed && x.claimed == 0
    && x.acquired == x.strategicReserve + x.claimed + x.unclaimed + x.rollover
  }

  method Reconcile(allocation: AllocationResult) returns (r: Result<Reconciliation, ErrorCode>)
    ensures r.Success? <==>
            forall a :: a in allocation.assets ==>
              a.acquired == a.strategicReserve + a.distributed + a.distributionDust
    ensures r.Failure? ==> r.error == RECON_CONSERVATION
    ensures r.Success? ==> Mirrors(r.value, allocation)
  {
    var assets: seq<AssetReconciliation> := [];
    for i := 0 to |allocation.assets|
      invariant |assets| == i
      invariant forall j :: 0 <= j < i ==>
                  && MirrorsAsset(assets[j], allocation.assets[j])
                  && allocation.assets[j].acquired
                     == allocation.assets[j].strategicReserve + allocation.assets[j].distributed
                       + allocation.assets[j].distributionDust
    {
      var a := allocation.assets[i];
      assert a in allocation.assets;
      if a.acquired != a.strategicReserve + a.distributed + a.distributionDust { return Failure(RECON_CONSERVATION); }
      assets := assets + [AssetReconciliation(
        a.asset.tokenAddress, a.acquired, a.participantPool, a.strategicReserve, a.distributed, a.distributionDust,
        a.distributed, a.distributed, 0, a.distributed, a.distributionDust)];
    }
    return Success(Reconciliation(allocation.publishable, assets));
  }

  /** Re-check every published proof with both verifiers. */
  method VerifyProofs(domain: ClaimDomain, merkle: Option<MerkleResult>, less: (Digest, Digest) -> bool)
        returns (r: Result<VerificationSummary, ErrorCode>)
    ensures r.Success? <==>
            merkle.Some? ==> forall x :: x in merkle.value.entries ==>
              && Encodable(FieldsOf(domain, x.entitlement))
              && Fold(LeafHash(domain, x.entitlement), x.proof, less) == merkle.value.root
    ensures r.Failure? ==> r.error == PROOF_VERIFICATION || r.error == VALUE_OUT_OF_RANGE
    ensures r.Failure? && r.error == VALUE_OUT_OF_RANGE <==>
            merkle.Some? && exists x :: x in merkle.value.entries && !Encodable(FieldsOf(domain, x.entitlement))
    ensures r.Success? ==> r.value.ozVerified == r.value.viemVerified == r.value.proofCount
    ensures r.Success? ==> r.value.proofCount == if merkle.Some? then |merkle.value.entries| else 0
  {
    if merkle.None? { return Success(VerificationSummary(0, 0, 0)); }
    var entries := merkle.value.entries;
    var ozVerified, viemVerified := 0, 0;
    for i := 0 to |entries|
      invariant 0 <= viemVerified <= i && ozVerified == viemVerified
      invariant forall j :: 0 <= j < i ==> Encodable(FieldsOf(domain, entries[j].entitlement))
      invariant viemVerified == i <==>
                forall j :: 0 <= j < i ==>
                  Fold(LeafHash(domain, entries[j].entitlement), entries[j].proof, less) == merkle.value.root
    {
      var x := entries[i];
      assert x in entries;
      if !Encodable(FieldsOf(domain, x.entitlement)) { return Failure(VALUE_OUT_OF_RANGE); }
      var computed := ViemProcessProof(LeafHash(domain, x.entitlement), x.proof, less);
      if OzVerify(merkle.value.root, domain, x.entitlement, x.proof, less) { ozVerified := ozVerified + 1; }
      if computed == merkle.value.root { viemVerified := viemVerified + 1; }
    }
    if ozVerified != |entries| || viemVerified != |entries| {
      ghost var j :| 0 <= j < |entries|
        && Fold(LeafHash(domain, entries[j].entitlement), entries[j].proof, less) != merkle.value.root;
      assert entries[j] in entries;
      return Failure(PROOF_VERIFICATION);
    }
    return Success(VerificationSummary(|entries|, ozVerified, viemVerified));
  }

  /** The tree library's own verifier: the same fold. */
  predicate OzVerify(root: Digest, domain: ClaimDomain, e: Entitlement, proof: seq<Digest>,
        less: (Digest, Digest) -> bool) {
    Fold(LeafHash(domain, e), proof, less) == root
  }

  /** The inputs the engine accepts: a well-formed fixture, a consistent history, and a solvent, covered epoch. */
  ghost predicate Sound(raw: Fixture) {
    && ValidFixture(raw)
    && Consistent(raw.transfers)
    && Accepted(raw.cycle.epochStart, raw.cycle.epochEnd, raw.epochStartBalances,
                Until(History(raw.transfers), raw.cycle.epochEnd), raw.locks)
  }

  // ---- What a fixture entitles ----------------------------------------------------------

  ghost function RelevantWallets(starts: seq<StartBalance>, ts: seq<Transfer>, locks: seq<Lock>): (ws: set<Address>)
    ensures forall w :: w in ws <==> Relevant(starts, ts, locks, w)
  {
    (set b | b in starts :: b.wallet) + (set l | l in locks :: l.wallet)
    + (set x | x in ts && x.from != ZERO_ADDRESS :: x.from) + (set x | x in ts && x.to != ZERO_ADDRESS :: x.to)
  }

  /** The weights by second-by-second sums. */
  ghost function WeightsOf(raw: Fixture): map<Address, WalletWeight> {
    var applied := Until(History(raw.transfers), raw.cycle.epochEnd);
    map w | w in RelevantWallets(raw.epochStartBalances, applied, raw.locks) ::
      NaiveWeight(raw.cycle.epochStart, raw.cycle.epochEnd, raw.epochStartBalances, applied, raw.locks, w)
  }

  function WalletsOf(raw: Fixture): seq<Address> {
    Sort(Kept(raw.cycle, raw.excludedAddresses, raw.eligibility), AddressLeq)
  }

  ghost function EntitledBy(raw: Fixture): seq<Entitlement> {
    var ws, weights := WalletsOf(raw), WeightsOf(raw);
    AllShares(raw.cycle, raw.assets, ws, weights, Total(ws, WeightIn(weights)))
  }

  /** Whatever is published fits the encoder: chain id, cycle id and every share, if there is one. */
  ghost predicate Encodes(raw: Fixture) {
    AllEncodable(DomainOf(raw.cycle), EntitledBy(raw))
  }

  /** Everything after the sweep, in terms of the fixture. */
  ghost predicate Delivered(raw: Fixture, p: PipelineResult, layout: Layout, less: (Digest, Digest) -> bool) {
    var ws, total := p.eligibility.eligibleWallets, p.eligibility.totalEffectiveWeight;
    && WeighedNaively(raw.cycle, raw.epochStartBalances, raw.transfers, raw.locks,
                      WeightComputation(p.weights, Until(History(raw.transfers), raw.cycle.epochEnd)))
    && Resolved(raw, p.weights, p.eligibility)
    && (forall w :: w in ws ==> WeightIn(p.weights)(w) >= 0)
    && Distributed(raw.cycle, raw.assets, ws, p.weights, total, p, layout, less)
  }

  /** The admitted wallets in order, with their totals. */
  ghost predicate Resolved(raw: Fixture, weights: map<Address, WalletWeight>, e: Resolution) {
    && Distinct(e.eligibleWallets) && Ordered(e.eligibleWallets, AddressLeq)
    && (forall w :: w in e.eligibleWallets <==> Admitted(raw.cycle, raw.excludedAddresses, raw.eligibility, w))
    && e.excluded == (set w | w in raw.excludedAddresses) && e.referenceTimestamp == raw.cycle.epochEnd
    && e.totalEffectiveWeight == Total(e.eligibleWallets, WeightIn(weights))
    && e.totalBaseTwab == Total(e.eligibleWallets, BaseTwabIn(weights))
    && e.totalEligibleSnapshotBalance == Total(e.eligibleWallets, SnapshotIn(weights))
  }

  /** Allocation, tree, proofs and reconciliation for the given wallets and weights. */
  ghost predicate Distributed(cycle: Cycle, assets: seq<Asset>, ws: seq<Address>, weights: map<Address, WalletWeight>,
        total: int, p: PipelineResult, layout: Layout, less: (Digest, Digest) -> bool) {
    && |p.allocation.assets| == |assets| && p.allocation.totalEffectiveWeight == total
    && (forall i :: 0 <= i < |assets| ==>
          p.allocation.assets[i] == AllocationOf(cycle, assets[i], ws, weights, total))
    && p.allocation.entitlements == AllShares(cycle, assets, ws, weights, total)
    && (p.merkle.Some? <==> p.allocation.entitlements != [])
    && (p.merkle.Some? ==>
          && Published(DomainOf(cycle), p.allocation.entitlements, p.merkle.value, less)
          && LaidOut(DomainOf(cycle), p.allocation.entitlements, p.merkle.value, layout, less))
    && Audited(p)
  }

  /** The defensive stages passed: everything reconciled, every proof verified twice. */
  ghost predicate Audited(p: PipelineResult) {
    && (p.allocation.publishable <==> p.merkle.Some?)
    && Mirrors(p.reconciliation, p.allocation)
    && p.verification.ozVerified == p.verification.viemVerified == p.verification.proofCount
    && p.verification.proofCount == if p.merkle.Some? then |p.merkle.value.entries| else 0
  }

  /** The code a run stops with, stage by stage. */
  ghost predicate StopsWith(raw: Fixture, code: ErrorCode) {
    if !ValidFixture(raw) then Violates(raw, code) && forall other :: Violates(raw, other) ==> Part(code) <= Part(other)
    else if !Consistent(raw.transfers) then Verdict(raw.transfers) == Failure(code)
    else if Sound(raw) then code == VALUE_OUT_OF_RANGE && !Encodes(raw)
    else code == SweepFault(raw)
  }

  /** Whichever comes first. */
  ghost function SweepFault(raw: Fixture): ErrorCode {
    if OverdrawnFirst(raw.cycle.epochStart, raw.epochStartBalances,
                      Until(History(raw.transfers), raw.cycle.epochEnd), raw.locks)
    then NEGATIVE_BALANCE
    else LOCK_EXCEEDS_BALANCE
  }

  method RunProofOfDistribution(raw: Fixture, layout: Layout, less: (Digest, Digest) -> bool)
        returns (r: Result<PipelineResult, ErrorCode>)
    requires Faithful(layout) && Separates(less)
    ensures r.Success? <==> Sound(raw) && Encodes(raw)
    ensures r.Success? ==> Delivered(raw, r.value, layout, less)
    ensures r.Failure? && r.error == VALUE_OUT_OF_RANGE <==> Sound(raw) && !Encodes(raw)
    ensures r.Failure? ==> StopsWith(raw, r.error)
  {
    var loaded := LoadCycleFixture(raw);
    if loaded.Failure? { return Failure(loaded.error); }
    r := RunLoaded(loaded.value, layout, less);
  }

  /** The run on a fixture that has passed its checks. */
  method RunLoaded(fixture: Fixture, layout: Layout, less: (Digest, Digest) -> bool)
        returns (r: Result<PipelineResult, ErrorCode>)
    requires Faithful(layout) && Separates(less) && ValidFixture(fixture)
    ensures r.Success? <==> Sound(fixture) && Encodes(fixture)
    ensures r.Success? ==> Delivered(fixture, r.value, layout, less)
    ensures r.Failure? && !Consistent(fixture.transfers) ==> Verdict(fixture.transfers) == Failure(r.error)
    ensures r.Failure? && Consistent(fixture.transfers) && !Sound(fixture) ==> r.error == SweepFault(fixture)
    ensures r.Failure? && r.error == VALUE_OUT_OF_RANGE <==> Sound(fixture) && !Encodes(fixture)
  {
    var computed := WeighFixture(fixture);
    if computed.Failure? { return Failure(computed.error); }
    var weights := computed.value.weights;
    var eligibility := ResolveEligibility(fixture.cycle, fixture.excludedAddresses, fixture.eligibility, weights);
    WeightsNonNegative(fixture, computed.value, eligibility.eligibleWallets);
    SharesOfFixture(fixture, computed.value, eligibility);
    r := Distribute(fixture, weights, eligibility, layout, less);
  }

  method WeighFixture(fixture: Fixture) returns (r: Result<WeightComputation, ErrorCode>)
    requires ValidFixture(fixture)
    ensures r.Success? <==> Sound(fixture)
    ensures r.Success? ==>
              && WeighedNaively(fixture.cycle, fixture.epochStartBalances, fixture.transfers, fixture.locks, r.value)
              && r.value.appliedTransfers == Until(History(fixture.transfers), fixture.cycle.epochEnd)
    ensures r.Failure? ==> r.error != VALUE_OUT_OF_RANGE
    ensures r.Failure? && !Consistent(fixture.transfers) ==> Verdict(fixture.transfers) == Failure(r.error)
    ensures r.Failure? && Consistent(fixture.transfers) ==> r.error == SweepFault(fixture)
  {
    r := ComputeWeights(fixture.cycle, fixture.epochStartBalances, fixture.transfers, fixture.locks);
    SweepFaults(fixture);
    FaultCodes(History(fixture.transfers));
  }

  lemma SweepFaults(raw: Fixture)
    ensures var e0, e1, starts := raw.cycle.epochStart, raw.cycle.epochEnd, raw.epochStartBalances;
            var ts := Until(History(raw.transfers), e1);
            OverlockedFirst(e0, e1, starts, ts, raw.locks) ==> SweepFault(raw) == LOCK_EXCEEDS_BALANCE
  {
    OneFaultFirst(raw.cycle.epochStart, raw.cycle.epochEnd, raw.epochStartBalances,
                  Until(History(raw.transfers), raw.cycle.epochEnd), raw.locks);
  }

  lemma SharesOfFixture(raw: Fixture, c: WeightComputation, e: Resolution)
    requires ValidFixture(raw) && WeighedNaively(raw.cycle, raw.epochStartBalances, raw.transfers, raw.locks, c)
    requires Resolved(raw, c.weights, e)
    ensures c.weights == WeightsOf(raw) && e.eligibleWallets == WalletsOf(raw)
    ensures AllShares(raw.cycle, raw.assets, e.eligibleWallets, c.weights, e.totalEffectiveWeight) == EntitledBy(raw)
  {
    WeightsDetermined(raw, c);
    WalletsDetermined(raw, e.eligibleWallets);
  }

  lemma WeightsDetermined(raw: Fixture, c: WeightComputation)
    requires WeighedNaively(raw.cycle, raw.epochStartBalances, raw.transfers, raw.locks, c)
    ensures c.weights == WeightsOf(raw)
  {
  }

  lemma WalletsDetermined(raw: Fixture, ws: seq<Address>)
    requires Distinct(Holders(raw.eligibility)) && Distinct(ws) && Ordered(ws, AddressLeq)
    requires forall w :: w in ws <==> Admitted(raw.cycle, raw.excludedAddresses, raw.eligibility, w)
    ensures ws == WalletsOf(raw)
  {
    var kept := Kept(raw.cycle, raw.excludedAddresses, raw.eligibility);
    KeptAreAdmitted(raw.cycle, raw.excludedAddresses, raw.eligibility);
    SortKeepsDistinct(kept, AddressLeq);
    SameWallets(ws, WalletsOf(raw));
  }

  lemma WeightsNonNegative(raw: Fixture, c: WeightComputation, ws: seq<Address>)
    requires WeighedNaively(raw.cycle, raw.epochStartBalances, raw.transfers, raw.locks, c)
    requires Accepted(raw.cycle.epochStart, raw.cycle.epochEnd, raw.epochStartBalances, c.appliedTransfers, raw.locks)
    ensures forall w :: w in ws ==> WeightIn(c.weights)(w) >= 0
  {
    forall w | w in ws && w in c.weights
      ensures c.weights[w].effectiveWeight >= 0
    {
      PublishedWeightsRounded(raw.cycle, raw.epochStartBalances, raw.transfers, raw.locks, c, w);
    }
  }

  /** With the true total as denominator only the encoder can object to what the sweep has accepted. */
  method Distribute(fixture: Fixture, weights: map<Address, WalletWeight>, eligibility: Resolution, layout: Layout,
        less: (Digest, Digest) -> bool)
      returns (r: Result<PipelineResult, ErrorCode>)
    requires Faithful(layout) && Separates(less)
    requires Distinct(eligibility.eligibleWallets) && Distinct(Tokens(fixture.assets))
    requires forall w :: w in eligibility.eligibleWallets ==> WeightIn(weights)(w) >= 0
    requires eligibility.totalEffectiveWeight == Total(eligibility.eligibleWallets, WeightIn(weights))
    ensures var ws, total := eligibility.eligibleWallets, eligibility.totalEffectiveWeight;
            && (r.Success? <==>
                AllEncodable(DomainOf(fixture.cycle), AllShares(fixture.cycle, fixture.assets, ws, weights, total)))
            && (r.Success? ==>
                  && r.value.weights == weights && r.value.eligibility == eligibility
                  && Distributed(fixture.cycle, fixture.assets, ws, weights, total, r.value, layout, less))
    ensures r.Failure? ==> r.error == VALUE_OUT_OF_RANGE
  {
    var ws, total := eligibility.eligibleWallets, eligibility.totalEffectiveWeight;
    var allocation := AllocateAll(fixture.cycle, fixture.assets, ws, weights, total);
    var published := Publish(DomainOf(fixture.cycle), allocation, layout, less);
    if published.Failure? { return Failure(published.error); }
    var (merkle, verification) := published.value;
    var reconciliation := Reconcile(allocation);
    r := Success(PipelineResult(weights, eligibility, allocation, merkle, reconciliation.value, verification));
    assert Audited(r.value);
  }

  method AllocateAll(cycle: Cycle, assets: seq<Asset>, ws: seq<Address>, weights: map<Address, WalletWeight>,
        total: int)
      returns (allocation: AllocationResult)
    requires Distinct(ws) && Distinct(Tokens(assets))
    requires total == Total(ws, WeightIn(weights)) && forall w :: w in ws ==> WeightIn(weights)(w) >= 0
    ensures |allocation.assets| == |assets| && allocation.totalEffectiveWeight == total
    ensures forall i :: 0 <= i < |assets| ==>
              allocation.assets[i] == AllocationOf(cycle, assets[i], ws, weights, total)
    ensures allocation.entitlements == AllShares(cycle, assets, ws, weights, total)
    ensures allocation.publishable <==> allocation.entitlements != []
    ensures DistinctKeys(allocation.entitlements) && forall e :: e in allocation.entitlements ==> e.amount > 0
  {
    SharesInOrder(cycle, assets, ws, weights, total);
    var allotment := Allocate(cycle, assets, ws, weights, total);
    allocation := allotment.value;
  }

  /** With the true total as denominator no later defensive check has anything to object to. */
  lemma SharesInOrder(cycle: Cycle, assets: seq<Asset>, ws: seq<Address>, weights: map<Address, WalletWeight>,
        total: int)
    requires Distinct(ws) && Distinct(Tokens(assets))
    requires total == Total(ws, WeightIn(weights)) && forall w :: w in ws ==> WeightIn(weights)(w) >= 0
    ensures forall a :: a in assets ==>
              var spec := AllocationOf(cycle, a, ws, weights, total); spec.distributed <= spec.participantPool
    ensures var es := AllShares(cycle, assets, ws, weights, total);
            DistinctKeys(es) && (forall e :: e in es ==> e.amount > 0) && (es != [] ==> total != 0)
  {
    forall a | a in assets
      ensures var spec := AllocationOf(cycle, a, ws, weights, total);
              spec.distributed <= spec.participantPool
    {
      DustBound(cycle, a, ws, weights);
    }
    SharesBuildable(cycle, assets, ws, weights, total);
    NoSharesWithoutWeight(cycle, assets, ws, weights, total);
  }

  /** The tree, if there is something to publish, and the check of every proof in it. */
  method Publish(domain: ClaimDomain, allocation: AllocationResult, layout: Layout, less: (Digest, Digest) -> bool)
      returns (r: Result<(Option<MerkleResult>, VerificationSummary), ErrorCode>)
    requires Faithful(layout) && Separates(less)
    requires allocation.publishable <==> allocation.entitlements != []
    requires DistinctKeys(allocation.entitlements) && forall e :: e in allocation.entitlements ==> e.amount > 0
    ensures r.Success? <==> AllEncodable(domain, allocation.entitlements)
    ensures r.Failure? ==> r.error == VALUE_OUT_OF_RANGE
    ensures r.Success? ==>
              var (m, v) := r.value;
              && (m.Some? <==> allocation.entitlements != [])
              && (m.Some? ==> Published(domain, allocation.entitlements, m.value, less))
              && (m.Some? ==> LaidOut(domain, allocation.entitlements, m.value, layout, less))
              && v.ozVerified == v.viemVerified == v.proofCount == if m.Some? then |m.value.entries| else 0
  {
    var merkle := None;
    if allocation.publishable {
      var built := BuildMerkle(domain, allocation.entitlements, layout, less);
      if built.Failure? { return Failure(built.error); }
      EntriesEncodable(domain, allocation.entitlements, built.value, less);
      merkle := Some(built.value);
    }
    var verification := VerifyProofs(domain, merkle, less);
    return Success((merkle, verification.value));
  }

  lemma EntriesEncodable(domain: ClaimDomain, es: seq<Entitlement>, m: MerkleResult, less: (Digest, Digest) -> bool)
    requires Published(domain, es, m, less)
    ensures forall x :: x in m.entries ==> x.entitlement in es && Encodable(FieldsOf(domain, x.entitlement))
  {
    forall x | x in m.entries
      ensures x.entitlement in es
    {
      var i :| 0 <= i < |m.entries| && m.entries[i] == x;
      assert EntitlementsOf(m.entries)[i] in multiset(EntitlementsOf(m.entries));
      assert x.entitlement in multiset(es);
    }
  }

  lemma {:induction false} SharesBuildable(cycle: Cycle, assets: seq<Asset>, ws: seq<Address>,
        weights: map<Address, WalletWeight>, total: int)
    requires Distinct(ws) && Distinct(Tokens(assets))
    ensures var es := AllShares(cycle, assets, ws, weights, total);
            && DistinctKeys(es)
            && (forall e :: e in es ==> e.amount > 0 && e.cycleId == cycle.cycleId && e.asset in Tokens(assets))
  {
    if assets != [] {
      var front, last := assets[..|assets| - 1], assets[|assets| - 1];
      assert Tokens(assets) == Tokens(front) + [last.tokenAddress];
      SharesBuildable(cycle, front, ws, weights, total);
      var pool := ParticipantPool(last.acquiredRawAmount);
      SharesArePositive(cycle.cycleId, last.tokenAddress, pool, ws, WeightIn(weights), total);
      SharesDistinct(cycle.cycleId, last.tokenAddress, pool, ws, WeightIn(weights), total);
      KeysOfShares(cycle, last, ws, weights, total);
      KeysConcat(AllShares(cycle, front, ws, weights, total),
        AllocationOf(cycle, last, ws, weights, total).entitlements);
    }
  }

  lemma KeysOfShares(cycle: Cycle, asset: Asset, ws: seq<Address>, weights: map<Address, WalletWeight>, total: int)
    requires Distinct(ws)
    ensures DistinctKeys(AllocationOf(cycle, asset, ws, weights, total).entitlements)
  {
    var pool := ParticipantPool(asset.acquiredRawAmount);
    var es := PositiveShares(cycle.cycleId, asset.tokenAddress, pool, ws, WeightIn(weights), total);
    SharesArePositive(cycle.cycleId, asset.tokenAddress, pool, ws, WeightIn(weights), total);
    SharesDistinct(cycle.cycleId, asset.tokenAddress, pool, ws, WeightIn(weights), total);
    forall i, j | 0 <= i < j < |es|
      ensures !SameKey(es[i], es[j])
    {
      assert es[i] in es && es[j] in es && es[i] != es[j];
    }
  }

  lemma KeysConcat(es: seq<Entitlement>, fs: seq<Entitlement>)
    requires DistinctKeys(es) && DistinctKeys(fs)
    requires forall e, f :: e in es && f in fs ==> !SameKey(e, f)
    ensures DistinctKeys(es + fs)
  {
  }

  lemma {:induction false} NoSharesWithoutWeight(cycle: Cycle, assets: seq<Asset>, ws: seq<Address>,
        weights: map<Address, WalletWeight>, total: int)
    ensures total <= 0 ==> AllShares(cycle, assets, ws, weights, total) == []
  {
    if assets != [] {
      NoSharesWithoutWeight(cycle, assets[..|assets| - 1], ws, weights, total);
      var last := assets[|assets| - 1];
      if total <= 0 {
        NoWeightNoShares(cycle.cycleId, last.tokenAddress, ParticipantPool(last.acquiredRawAmount), ws,
          WeightIn(weights), total);
      }
    }
  }

  lemma {:induction false} SharesOfOneAsset(cycle: Cycle, assets: seq<Asset>, ws: seq<Address>,
        weights: map<Address, WalletWeight>, total: int, i: nat)
    requires Distinct(Tokens(assets)) && i < |assets|
    ensures AssetOnly(AllShares(cycle, assets, ws, weights, total), assets[i].tokenAddress)
            == AllocationOf(cycle, assets[i], ws, weights, total).entitlements
  {
    var n := |assets| - 1;
    var front, last, token := assets[..n], assets[n], assets[i].tokenAddress;
    var before, mine := AllShares(cycle, front, ws, weights, total),
      AllocationOf(cycle, last, ws, weights, total).entitlements;
    assert AssetOnly(AllShares(cycle, assets, ws, weights, total), token)
        == AssetOnly(before, token) + AssetOnly(mine, token) by {
      AssetOnlyConcat(before, mine, token);
    }
    LastAssetOnly(cycle, last, ws, weights, total, token);
    if i < n {
      assert token != last.tokenAddress by {
        assert Tokens(assets)[i] != Tokens(assets)[n];
      }
      assert AssetOnly(before, token) == AllocationOf(cycle, front[i], ws, weights, total).entitlements by {
        FrontDistinct(assets);
        SharesOfOneAsset(cycle, front, ws, weights, total, i);
      }
    } else {
      assert AssetOnly(before, token) == [] by {
        EarlierAssetsNone(cycle, assets, ws, weights, total);
      }
    }
  }

  lemma EarlierAssetsNone(cycle: Cycle, assets: seq<Asset>, ws: seq<Address>, weights: map<Address, WalletWeight>,
        total: int)
    requires assets != [] && Distinct(Tokens(assets))
    ensures AssetOnly(AllShares(cycle, assets[..|assets| - 1], ws, weights, total), assets[|assets| - 1].tokenAddress)
            == []
  {
    FrontDistinct(assets);
    SharesTokens(cycle, assets[..|assets| - 1], ws, weights, total);
    AssetOnlyNone(AllShares(cycle, assets[..|assets| - 1], ws, weights, total), assets[|assets| - 1].tokenAddress);
  }

  lemma FrontDistinct(assets: seq<Asset>)
    requires assets != [] && Distinct(Tokens(assets))
    ensures Distinct(Tokens(assets[..|assets| - 1]))
            && assets[|assets| - 1].tokenAddress !in Tokens(assets[..|assets| - 1])
  {
    var front := assets[..|assets| - 1];
    assert forall j :: 0 <= j < |front| ==> Tokens(front)[j] == Tokens(assets)[j];
  }

  lemma LastAssetOnly(cycle: Cycle, asset: Asset, ws: seq<Address>, weights: map<Address, WalletWeight>, total: int,
        token: Address)
    ensures var mine := AllocationOf(cycle, asset, ws, weights, total).entitlements;
            AssetOnly(mine, token) == if token == asset.tokenAddress then mine else []
  {
    var mine := AllocationOf(cycle, asset, ws, weights, total).entitlements;
    SharesArePositive(cycle.cycleId, asset.tokenAddress, ParticipantPool(asset.acquiredRawAmount), ws,
      WeightIn(weights), total);
    if token == asset.tokenAddress { AssetOnlyAll(mine, token); } else { AssetOnlyNone(mine, token); }
  }

  lemma {:induction false} SharesTokens(cycle: Cycle, assets: seq<Asset>, ws: seq<Address>,
        weights: map<Address, WalletWeight>, total: int)
    ensures forall e :: e in AllShares(cycle, assets, ws, weights, total) ==> e.asset in Tokens(assets)
  {
    if assets != [] {
      var front, last := assets[..|assets| - 1], assets[|assets| - 1];
      assert Tokens(assets) == Tokens(front) + [last.tokenAddress];
      SharesTokens(cycle, front, ws, weights, total);
      SharesArePositive(cycle.cycleId, last.tokenAddress, ParticipantPool(last.acquiredRawAmount), ws,
        WeightIn(weights), total);
    }
  }

  lemma {:induction false} AssetOnlyConcat(es: seq<Entitlement>, fs: seq<Entitlement>, asset: Address)
    ensures AssetOnly(es + fs, asset) == AssetOnly(es, asset) + AssetOnly(fs, asset)
    decreases |fs|
  {
    if fs == [] {
      assert es + fs == es;
    } else {
      assert (es + fs)[..|es + fs| - 1] == es + fs[..|fs| - 1];
      AssetOnlyConcat(es, fs[..|fs| - 1], asset);
    }
  }

  lemma {:induction false} AssetOnlyNone(es: seq<Entitlement>, asset: Address)
    requires forall e :: e in es ==> e.asset != asset
    ensures AssetOnly(es, asset) == []
  {
    if es != [] { AssetOnlyNone(es[..|es| - 1], asset); }
  }

  lemma {:induction false} AssetOnlyAll(es: seq<Entitlement>, asset: Address)
    requires forall e :: e in es ==> e.asset == asset
    ensures AssetOnly(es, asset) == es
  {
    if es != [] {
      AssetOnlyAll(es[..|es| - 1], asset);
      assert es == es[..|es| - 1] + [es[|es| - 1]];
    }
  }

  /**
   * End to end: whatever siblings are submitted, the distinct claims provable under the published
   * root for one asset add up to at most what was distributed of it, hence at most its participant
   * pool, and to exactly what was distributed once every provable claim is in.
   */
  lemma ProvableWithinPool(raw: Fixture, p: PipelineResult, layout: Layout, less: (Digest, Digest) -> bool, i: nat,
        claims: seq<LeafFields>)
    requires ValidFixture(raw) && Delivered(raw, p, layout, less) && p.merkle.Some? && i < |raw.assets|
    requires Distinct(claims)
    requires forall f :: f in claims ==> f.asset == raw.assets[i].tokenAddress && Provable(p.merkle.value.root, f, less)
    ensures var a := p.allocation.assets[i];
            && Total(claims, ClaimedAmount) <= a.distributed <= a.participantPool
            && (Exhaustive(claims, p.merkle.value.root, a.asset.tokenAddress, less) ==>
                  Total(claims, ClaimedAmount) == a.distributed)
  {
    var ws, total := p.eligibility.eligibleWallets, p.eligibility.totalEffectiveWeight;
    SharesBuildable(raw.cycle, raw.assets, ws, p.weights, total);
    SharesOfOneAsset(raw.cycle, raw.assets, ws, p.weights, total, i);
    DustBound(raw.cycle, raw.assets[i], ws, p.weights);
    ProvableTotalBounded(DomainOf(raw.cycle), p.allocation.entitlements, p.merkle.value, less,
      raw.assets[i].tokenAddress, claims);
  }

  /** Under a published root no wallet can prove two different amounts of one asset. */
  lemma ProvableOnce(raw: Fixture, p: PipelineResult, layout: Layout, less: (Digest, Digest) -> bool, f: LeafFields,
        g: LeafFields)
    requires ValidFixture(raw) && Delivered(raw, p, layout, less) && p.merkle.Some?
    requires Provable(p.merkle.value.root, f, less) && Provable(p.merkle.value.root, g, less)
    requires f.wallet == g.wallet && f.asset == g.asset
    ensures f == g
  {
    SharesBuildable(raw.cycle, raw.assets, p.eligibility.eligibleWallets, p.weights,
      p.eligibility.totalEffectiveWeight);
    OneAmountPerKey(DomainOf(raw.cycle), p.allocation.entitlements, p.merkle.value, less, f, g);
  }

  /** Under a published root exactly the entitlements are provable, for this chain, claim manager and cycle. */
  lemma PublishedRootProves(raw: Fixture, p: PipelineResult, layout: Layout, less: (Digest, Digest) -> bool,
        f: LeafFields)
    requires Delivered(raw, p, layout, less) && p.merkle.Some?
    ensures Provable(p.merkle.value.root, f, less) <==>
            && f.chainId == raw.cycle.chainId && f.claimManager == raw.cycle.claimManagerAddress
            && f.cycleId == raw.cycle.cycleId
            && Entitlement(raw.cycle.cycleId, f.wallet, f.asset, f.amount) in p.allocation.entitlements
  {
    var ws, total := p.eligibility.eligibleWallets, p.eligibility.totalEffectiveWeight;
    ProvableFields(DomainOf(raw.cycle), p.allocation.entitlements, p.merkle.value.root, less, f);
    forall e | e in p.allocation.entitlements
      ensures e.cycleId == raw.cycle.cycleId
    {
      OwedByAsset(raw.cycle, raw.assets, ws, p.weights, total, e);
    }
  }

  /** The amount is positive and the floor of the weight's share in four fifths of what was acquired. */
  predicate Owed(acquired: int, weight: int, total: int, amount: int) {
    amount > 0 && IsFloor(amount, acquired * 4 / 5 * weight, total)
  }

  lemma OwedShare(acquired: nat, weight: int, total: int, amount: int)
    requires total >= 0
    ensures Owed(acquired, weight, total, amount) <==>
            amount > 0 && amount == Share(ParticipantPool(acquired), weight, total)
  {
    var pool := acquired * 4 / 5;
    assert ParticipantPool(acquired) == pool;
    if total > 0 && amount > 0 {
      FloorUnique(amount, pool * weight, total);
      if weight <= 0 {
        MulMonotone(weight, 0, pool);
        MulMonotone(1, amount, total);
      }
    }
  }

  lemma OwedByAsset(cycle: Cycle, assets: seq<Asset>, ws: seq<Address>, weights: map<Address, WalletWeight>,
        total: int, e: Entitlement)
    ensures e in AllShares(cycle, assets, ws, weights, total) <==>
            exists a :: && a in assets && e.cycleId == cycle.cycleId && e.asset == a.tokenAddress && e.wallet in ws
                        && e.amount > 0
                        && e.amount == Share(ParticipantPool(a.acquiredRawAmount), WeightIn(weights)(e.wallet), total)
  {
    SharesByAsset(cycle, assets, ws, weights, total, e);
    forall a
      ensures e in AllocationOf(cycle, a, ws, weights, total).entitlements <==>
              && e.cycleId == cycle.cycleId && e.asset == a.tokenAddress && e.wallet in ws && e.amount > 0
              && e.amount == Share(ParticipantPool(a.acquiredRawAmount), WeightIn(weights)(e.wallet), total)
    {
      SharesArePositive(cycle.cycleId, a.tokenAddress, ParticipantPool(a.acquiredRawAmount), ws, WeightIn(weights),
        total);
    }
  }

  /** ... and what is provable is exactly what each admitted wallet is owed of each asset. */
  lemma ProvableIffOwed(raw: Fixture, p: PipelineResult, layout: Layout, less: (Digest, Digest) -> bool,
        f: LeafFields)
    requires Delivered(raw, p, layout, less) && p.merkle.Some?
    ensures Provable(p.merkle.value.root, f, less) <==>
            && f.chainId == raw.cycle.chainId && f.claimManager == raw.cycle.claimManagerAddress
            && f.cycleId == raw.cycle.cycleId
            && Admitted(raw.cycle, raw.excludedAddresses, raw.eligibility, f.wallet) && f.wallet in p.weights
            && exists a :: a in raw.assets && a.tokenAddress == f.asset
                           && Owed(a.acquiredRawAmount, p.weights[f.wallet].effectiveWeight,
                                   p.eligibility.totalEffectiveWeight, f.amount)
  {
    var ws, total := p.eligibility.eligibleWallets, p.eligibility.totalEffectiveWeight;
    PublishedRootProves(raw, p, layout, less, f);
    OwedByAsset(raw.cycle, raw.assets, ws, p.weights, total,
                Entitlement(raw.cycle.cycleId, f.wallet, f.asset, f.amount));
    TotalNonNegative(ws, WeightIn(p.weights));
    forall a: Asset
      ensures var w := WeightIn(p.weights)(f.wallet);
              Owed(a.acquiredRawAmount, w, total, f.amount) <==>
              f.amount > 0 && f.amount == Share(ParticipantPool(a.acquiredRawAmount), w, total)
    {
      OwedShare(a.acquiredRawAmount, WeightIn(p.weights)(f.wallet), total, f.amount);
    }
  }

  /** Fixtures that list the same transfer records in any order, with any repetition, are one input. */
  lemma FixtureOrderIrrelevant(raw: Fixture, transfers: seq<Transfer>, p: PipelineResult, q: PipelineResult,
        layout: Layout, less: (Digest, Digest) -> bool)
    requires SameElements(raw.transfers, transfers)
    ensures Sound(raw) <==> Sound(raw.(transfers := transfers))
    ensures Sound(raw) ==> (Encodes(raw) <==> Encodes(raw.(transfers := transfers)))
    ensures Sound(raw) && Delivered(raw, p, layout, less) && Delivered(raw.(transfers := transfers), q, layout, less)
            ==> p == q
  {
    SameSoundness(raw, transfers);
    if Sound(raw) {
      assert History(raw.transfers) == History(transfers) by {
        OrderAndDuplicatesIrrelevant(raw.transfers, transfers);
      }
      assert EntitledBy(raw) == EntitledBy(raw.(transfers := transfers));
      if Delivered(raw, p, layout, less) && Delivered(raw.(transfers := transfers), q, layout, less) {
        SameDelivery(raw, transfers, p, q, layout, less);
      }
    }
  }

  lemma SameSoundness(raw: Fixture, transfers: seq<Transfer>)
    requires SameElements(raw.transfers, transfers)
    ensures Sound(raw) <==> Sound(raw.(transfers := transfers))
  {
    OrderAndDuplicatesIrrelevant(raw.transfers, transfers);
    assert ValidFixture(raw) <==> ValidFixture(raw.(transfers := transfers));
    assert Consistent(raw.transfers) <==> Consistent(transfers);
  }

  lemma SameDelivery(raw: Fixture, transfers: seq<Transfer>, p: PipelineResult, q: PipelineResult, layout: Layout,
        less: (Digest, Digest) -> bool)
    requires ValidFixture(raw) && SameElements(raw.transfers, transfers) && Consistent(raw.transfers)
    requires Delivered(raw, p, layout, less) && Delivered(raw.(transfers := transfers), q, layout, less)
    ensures p == q
  {
    assert p.weights == q.weights by {
      WeightsIgnoreOrder(raw.cycle, raw.epochStartBalances, raw.locks, raw.transfers, transfers,
                         WeightComputation(p.weights, Until(History(raw.transfers), raw.cycle.epochEnd)),
                         WeightComputation(q.weights, Until(History(transfers), raw.cycle.epochEnd)));
    }
    assert p.eligibility.eligibleWallets == q.eligibility.eligibleWallets by {
      SameWallets(p.eligibility.eligibleWallets, q.eligibility.eligibleWallets);
    }
    assert p.eligibility == q.eligibility;
    SameDistribution(raw, p, q, layout, less);
  }

  lemma SameDistribution(raw: Fixture, p: PipelineResult, q: PipelineResult, layout: Layout,
        less: (Digest, Digest) -> bool)
    requires ValidFixture(raw) && p.weights == q.weights && p.eligibility == q.eligibility
    requires Distinct(p.eligibility.eligibleWallets)
    requires var ws, total := p.eligibility.eligibleWallets, p.eligibility.totalEffectiveWeight;
             && Distributed(raw.cycle, raw.assets, ws, p.weights, total, p, layout, less)
             && Distributed(raw.cycle, raw.assets, ws, p.weights, total, q, layout, less)
    ensures p == q
  {
    assert p.allocation.assets == q.allocation.assets;
    assert p.allocation == q.allocation;
    assert p.reconciliation.assets == q.reconciliation.assets;
    if p.merkle.Some? {
      var es := p.allocation.entitlements;
      SharesBuildable(raw.cycle, raw.assets, p.eligibility.eligibleWallets, p.weights,
                      p.eligibility.totalEffectiveWeight);
      BuildIgnoresOrder(DomainOf(raw.cycle), es, es, p.merkle.value, q.merkle.value, layout, less);
    }
  }

  lemma SameWallets(ws: seq<Address>, vs: seq<Address>)
    requires Ordered(ws, AddressLeq) && Distinct(ws) && Ordered(vs, AddressLeq) && Distinct(vs)
    requires forall w :: w in ws <==> w in vs
    ensures ws == vs
  {
    var lt := (a: Address, b: Address) => a < b;
    assert Ordered(ws, lt) by {
      assert forall i, j :: 0 <= i < j < |ws| ==> AddressLeq(ws[i], ws[j]) && ws[i] != ws[j];
    }
    assert Ordered(vs, lt) by {
      assert forall i, j :: 0 <= i < j < |vs| ==> AddressLeq(vs[i], vs[j]) && vs[i] != vs[j];
    }
    OrderedListingUnique(ws, vs, lt);
  }
}
