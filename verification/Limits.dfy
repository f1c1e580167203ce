/** Where the 256-bit encoding of a claim ends a run that everything else lets through. */
module Limits {
  import opened Results
  import opened PodModel
  import opened Sums
  import opened Sorting
  import opened Canonical
  import opened Ledger
  import opened Twab
  import opened Validate
  import opened Eligibility
  import opened Allocation
  import opened Digests
  import opened Merkle
  import opened Pipeline
  import Snapshot
  import Claims

  /** Ids and participant pools below 2^256 are enough, for then no share can exceed the encoding. */
  lemma PoolsInRangeEncode(raw: Fixture)
    requires Sound(raw)
    requires raw.cycle.chainId <= MAX_UINT256 && raw.cycle.cycleId <= MAX_UINT256
    requires forall a :: a in raw.assets ==> ParticipantPool(a.acquiredRawAmount) <= MAX_UINT256
    ensures Encodes(raw)
  {
    var ws, weights := WalletsOf(raw), WeightsOf(raw);
    WeightsNotNegative(raw);
    forall e | e in EntitledBy(raw)
      ensures Encodable(FieldsOf(DomainOf(raw.cycle), e))
    {
      SharesByAsset(raw.cycle, raw.assets, ws, weights, Total(ws, WeightIn(weights)), e);
      var a :| a in raw.assets
        && e in AllocationOf(raw.cycle, a, ws, weights, Total(ws, WeightIn(weights))).entitlements;
      ShareWithinPool(raw.cycle, a, ws, weights, e);
    }
  }

  /** The exact condition: nothing is published, or both ids and every amount stay below 2^256. */
  lemma EncodesIff(raw: Fixture)
    requires Sound(raw)
    ensures Encodes(raw) <==>
            || EntitledBy(raw) == []
            || (&& raw.cycle.chainId <= MAX_UINT256 && raw.cycle.cycleId <= MAX_UINT256
                && forall e :: e in EntitledBy(raw) ==> e.amount <= MAX_UINT256)
  {
    var es, ws, weights := EntitledBy(raw), WalletsOf(raw), WeightsOf(raw);
    WeightsNotNegative(raw);
    forall e | e in es
      ensures e.amount > 0
    {
      SharesByAsset(raw.cycle, raw.assets, ws, weights, Total(ws, WeightIn(weights)), e);
      var a :| a in raw.assets
        && e in AllocationOf(raw.cycle, a, ws, weights, Total(ws, WeightIn(weights))).entitlements;
      ShareWithinPool(raw.cycle, a, ws, weights, e);
    }
    if es != [] && Encodes(raw) {
      assert es[0] in es && Encodable(FieldsOf(DomainOf(raw.cycle), es[0]));
      assert forall e :: e in es ==> Encodable(FieldsOf(DomainOf(raw.cycle), e));
    }
  }

  lemma WeightsNotNegative(raw: Fixture)
    requires Sound(raw)
    ensures forall w :: w in WalletsOf(raw) ==> WeightIn(WeightsOf(raw))(w) >= 0
  {
    var c := WeightComputation(WeightsOf(raw), Until(History(raw.transfers), raw.cycle.epochEnd));
    WeightsNonNegative(raw, c, WalletsOf(raw));
  }

  lemma ShareWithinPool(cycle: Cycle, a: Asset, ws: seq<Address>, weights: map<Address, WalletWeight>, e: Entitlement)
    requires forall w :: w in ws ==> WeightIn(weights)(w) >= 0
    requires e in AllocationOf(cycle, a, ws, weights, Total(ws, WeightIn(weights))).entitlements
    ensures 0 < e.amount <= ParticipantPool(a.acquiredRawAmount)
  {
    var total, pool := Total(ws, WeightIn(weights)), ParticipantPool(a.acquiredRawAmount);
    assert e.wallet in ws && 0 < e.amount == Share(pool, WeightIn(weights)(e.wallet), total) by {
      SharesArePositive(cycle.cycleId, a.tokenAddress, pool, ws, WeightIn(weights), total);
    }
    PoolWithinAcquired(a.acquiredRawAmount);
    OneAmongMany(ws, WeightIn(weights), e.wallet);
    ShareAtMostPool(pool, WeightIn(weights)(e.wallet), total);
  }

  lemma ShareAtMostPool(pool: int, weight: int, total: int)
    requires pool >= 0 && 0 <= weight <= total
    ensures Share(pool, weight, total) <= pool
    ensures weight == total > 0 ==> Share(pool, weight, total) == pool
  {
    if weight > 0 {
      FloorBounds(pool * weight, total);
      MulMonotone(weight, total, pool);
      MulCancel(Share(pool, weight, total), pool, total);
      FloorGreatest(pool * total, total, pool);
    }
  }

  lemma {:induction false} OneAmongMany(ws: seq<Address>, weight: Address -> int, w: Address)
    requires w in ws && forall v :: v in ws ==> weight(v) >= 0
    ensures weight(w) <= Total(ws, weight)
  {
    var front, last := ws[..|ws| - 1], ws[|ws| - 1];
    TotalNonNegative(front, weight);
    if w != last { OneAmongMany(front, weight, w); }
  }

  // ---- A fixture that only the encoder objects to ---------------------------------------

  /** Nothing moves and nothing is locked; one wallet is listed, holds units and is admitted; one asset was acquired. */
  ghost predicate LoneHolder(raw: Fixture, w: Address, units: nat, a: Asset) {
    && ValidCycle(raw.cycle) && raw.transfers == [] && raw.locks == [] && raw.excludedAddresses == []
    && raw.epochStartBalances == [StartBalance(w, units)] && raw.assets == [a]
    && |raw.eligibility| == 1 && raw.eligibility[0].wallet == w && Eligible(raw.cycle, [], raw.eligibility[0])
  }

  lemma LoneHolderIsSound(raw: Fixture, w: Address, units: nat, a: Asset)
    requires LoneHolder(raw, w, units, a)
    ensures Sound(raw)
  {
    var e0, e1, starts := raw.cycle.epochStart, raw.cycle.epochEnd, raw.epochStartBalances;
    assert Until(History([]), e1) == [];
    forall v
      ensures Covered(starts, [], [], v, e0, e1)
    {
    }
    assert !Overlocked(e0, e1, starts, [], []);
  }

  /** Without transfers and locks a wallet weighs its start balance. */
  lemma FlatWeight(e0: int, e1: int, starts: seq<StartBalance>, w: Address)
    requires e1 == e0 + EPOCH_SECONDS
    ensures NaiveWeight(e0, e1, starts, [], [], w).effectiveWeight == StartOf(starts, w)
  {
    SumConstant(FreeCurve(starts, [], [], w), e0, e1, StartOf(starts, w));
    forall tier
      ensures LockedTwab(e0, e1, [], w, tier) == 0
    {
      SumConstant(LockedCurve([], w, tier), e0, e1, 0);
    }
    assert Bonus(TierRecord(0, 0, 0, 0)) == 0;
  }

  lemma LoneWeight(raw: Fixture, w: Address, units: nat, a: Asset)
    requires LoneHolder(raw, w, units, a)
    ensures WeightIn(WeightsOf(raw))(w) == units
  {
    var e0, e1, starts := raw.cycle.epochStart, raw.cycle.epochEnd, raw.epochStartBalances;
    assert Until(History([]), e1) == [];
    assert starts[0] in starts;
    WeightIsNaive(raw, w);
    assert NaiveWeight(e0, e1, starts, [], [], w).effectiveWeight == units by {
      FlatWeight(e0, e1, starts, w);
      assert starts[..0] == [];
    }
  }

  lemma WeightIsNaive(raw: Fixture, w: Address)
    requires var applied := Until(History(raw.transfers), raw.cycle.epochEnd);
             Relevant(raw.epochStartBalances, applied, raw.locks, w)
    ensures w in WeightsOf(raw)
    ensures WeightsOf(raw)[w]
            == NaiveWeight(raw.cycle.epochStart, raw.cycle.epochEnd, raw.epochStartBalances,
                           Until(History(raw.transfers), raw.cycle.epochEnd), raw.locks, w)
  {
  }

  lemma LoneWallet(raw: Fixture, w: Address, units: nat, a: Asset)
    requires LoneHolder(raw, w, units, a)
    ensures WalletsOf(raw) == [w]
  {
    var kept := Kept(raw.cycle, [], raw.eligibility);
    KeptAreAdmitted(raw.cycle, [], raw.eligibility);
    SortKeepsDistinct(kept, AddressLeq);
    assert raw.eligibility[0] in raw.eligibility;
    SameWallets(WalletsOf(raw), [w]);
  }

  lemma OneShare(cycle: Cycle, a: Asset, w: Address, weights: map<Address, WalletWeight>)
    requires WeightIn(weights)(w) > 0 && ParticipantPool(a.acquiredRawAmount) > 0
    ensures AllShares(cycle, [a], [w], weights, Total([w], WeightIn(weights)))
            == [Entitlement(cycle.cycleId, w, a.tokenAddress, ParticipantPool(a.acquiredRawAmount))]
  {
    var units := WeightIn(weights)(w);
    assert [w][..0] == [] && [a][..0] == [];
    assert Total([w], WeightIn(weights)) == units;
    ShareAtMostPool(ParticipantPool(a.acquiredRawAmount), units, units);
    assert AllShares(cycle, [a][..0], [w], weights, units) == [];
    var pool := ParticipantPool(a.acquiredRawAmount);
    assert PositiveShares(cycle.cycleId, a.tokenAddress, pool, [w][..0], WeightIn(weights), units) == [];
  }

  /** A lone holder is entitled to the whole pool. */
  lemma LoneHolderTakesAll(raw: Fixture, w: Address, units: nat, a: Asset)
    requires LoneHolder(raw, w, units, a) && units > 0 && ParticipantPool(a.acquiredRawAmount) > 0
    ensures EntitledBy(raw)
            == [Entitlement(raw.cycle.cycleId, w, a.tokenAddress, ParticipantPool(a.acquiredRawAmount))]
  {
    LoneWeight(raw, w, units, a);
    LoneWallet(raw, w, units, a);
    OneShare(raw.cycle, a, w, WeightsOf(raw));
  }

  const OVERSIZED: nat :=
    2_0000000000_0000000000_0000000000_0000000000_0000000000_0000000000_0000000000_0000000

  /** One eligible wallet holding 900 units all epoch, and an acquired amount of 2 * 10^77. */
  function OversizedFixture(epochId: nat): Fixture {
    var e0 := epochId * EPOCH_SECONDS;
    Fixture(
      Cycle(1, 4663, 7, epochId, e0, e0 + EPOCH_SECONDS, 0, 0, 0, 0, 0, 0, "v1"),
      [], [EligibilityRecord(5, true, "v1", 0, None, false)], [StartBalance(5, 900)], [], [], [Asset(9, OVERSIZED)])
  }

  /** It is sound in every other respect, and its one share of 1.6 * 10^77 is beyond 2^256 - 1. */
  lemma OversizedShareIsUnencodable(epochId: nat)
    ensures Sound(OversizedFixture(epochId)) && !Encodes(OversizedFixture(epochId))
  {
    OversizedIsLone(epochId);
    OversizedPool();
    LoneShareTooLarge(OversizedFixture(epochId), 5, 900, Asset(9, OVERSIZED));
  }

  lemma OversizedIsLone(epochId: nat)
    ensures LoneHolder(OversizedFixture(epochId), 5, 900, Asset(9, OVERSIZED))
  {
  }

  lemma OversizedPool()
    ensures ParticipantPool(OVERSIZED) == OVERSIZED / 10 * 8 > MAX_UINT256
  {
  }

  lemma LoneShareTooLarge(raw: Fixture, w: Address, units: nat, a: Asset)
    requires LoneHolder(raw, w, units, a) && units > 0 && ParticipantPool(a.acquiredRawAmount) > MAX_UINT256
    ensures Sound(raw) && !Encodes(raw)
  {
    LoneHolderIsSound(raw, w, units, a);
    LoneHolderTakesAll(raw, w, units, a);
    var e := EntitledBy(raw)[0];
    assert e in EntitledBy(raw) && !Encodable(FieldsOf(DomainOf(raw.cycle), e));
  }

  // ---- A snapshot that only its publication call stops ----------------------------------

  /** Two accounts with one lock of weight one each, on a chain that computes the same leaves. */
  function PairReader(req: Snapshot.Request): Snapshot.Reader
    requires Snapshot.WellShaped(req)
  {
    Snapshot.Reader(
      req.chainId, Some(Snapshot.Header(req.expectedBlockHash, 0)), req.snapshotBlock, false, true,
      [Snapshot.LockCreated(Some(5), 0, 0), Snapshot.LockCreated(Some(6), 0, 0)], [],
      (w: Address) => 1, (w: Address, id: int, ts: nat) => 1,
      (w: Address, amount: int) =>
        LeafHash(Snapshot.DomainFor(req), Entitlement(req.cycleId, w, req.distributionAsset, amount)))
  }

  const PAIR: seq<Address> := [5, 6]

  lemma PairIsDiscovered(req: Snapshot.Request)
    requires Snapshot.WellShaped(req)
    ensures Snapshot.CandidateList(PairReader(req).created, req.snapshotBlock) == PAIR
  {
    var created := PairReader(req).created;
    assert created[0] in created && created[1] in created;
    OrderedListingUnique(Snapshot.CandidateList(created, req.snapshotBlock), PAIR, Snapshot.AddressLt);
  }

  lemma PairWeighsOne(req: Snapshot.Request, w: Address)
    requires Snapshot.WellShaped(req)
    ensures Snapshot.WeightsAtPin(PairReader(req))(w) == 1
  {
    SumConstant(Snapshot.PositionCurve(PairReader(req), w, 0), 0, 1, 1);
  }

  function HalfEach(req: Snapshot.Request, half: nat): seq<Entitlement>
    requires req.cycleId >= 0
  {
    [Entitlement(req.cycleId, 5, req.distributionAsset, half), Entitlement(req.cycleId, 6, req.distributionAsset, half)]
  }

  lemma EqualWeightsShareEqually(req: Snapshot.Request, f: Address -> int, half: nat)
    requires req.cycleId >= 0 && req.distributionAmount == 2 * half > 0 && f(5) == f(6) == 1
    ensures Snapshot.Participants(PAIR, f) == PAIR
    ensures Snapshot.RequestShares(req, PAIR, f, Total(PAIR, f)) == HalfEach(req, half)
  {
    var one: seq<Address> := [5];
    assert PAIR[..1] == one && one[..0] == [];
    assert Snapshot.Participants(one, f) == one;
    assert Total(one, f) == 1 && Total(PAIR, f) == 2;
    assert Share(2 * half, 1, 2) == half;
    assert PositiveShares(req.cycleId, req.distributionAsset, 2 * half, one[..0], f, 2) == [];
    assert PositiveShares(req.cycleId, req.distributionAsset, 2 * half, one, f, 2) == HalfEach(req, half)[..1];
  }

  /** Each of the two is entitled to half of an even amount. */
  lemma PairSharesEqually(req: Snapshot.Request, half: nat)
    requires Snapshot.WellShaped(req) && req.distributionAmount == 2 * half
    ensures Snapshot.ParticipantsOf(PairReader(req), req) == PAIR
    ensures Snapshot.SharesOf(PairReader(req), req) == HalfEach(req, half)
  {
    PairIsDiscovered(req);
    PairWeighsOne(req, 5);
    PairWeighsOne(req, 6);
    EqualWeightsShareEqually(req, Snapshot.WeightsAtPin(PairReader(req)), half);
  }

  lemma PairIsPayable(req: Snapshot.Request, half: nat)
    requires Snapshot.WellShaped(req) && req.distributionAmount == 2 * half
    ensures Snapshot.Payable(PairReader(req), req)
  {
    PairSharesEqually(req, half);
    assert Snapshot.SoundView(PairReader(req), req);
  }

  /** Nothing but its publication call can stop a run over the pair whose shares are encodable. */
  lemma PairReachesTheCall(req: Snapshot.Request, half: nat)
    requires Snapshot.WellShaped(req) && req.distributionAmount == 2 * half && half <= MAX_UINT256
    requires req.chainId <= MAX_UINT256 && req.cycleId <= MAX_UINT256
    ensures Snapshot.Payable(PairReader(req), req) && Snapshot.LeavesMatch(PairReader(req), req)
    ensures Snapshot.Deliverable(PairReader(req), req) <==> Snapshot.CallEncodes(req)
  {
    PairIsPayable(req, half);
    var shares := HalfEach(req, half);
    PairSharesEqually(req, half);
    assert AllEncodable(Snapshot.DomainFor(req), shares);
    assert Snapshot.ParityHolds(PairReader(req), Snapshot.DomainFor(req), shares);
  }

  function PairRequest(amount: int, claimDeadline: int): Snapshot.Request {
    Snapshot.Request(4663, 7, 10, 0, 1, 9, amount, 1, 0, claimDeadline)
  }

  /** Two units until the last instant of 64 bits are delivered; one second later the call no longer encodes. */
  lemma LateDeadlineIsUnencodable()
    ensures var req := PairRequest(2, 18_446_744_073_709_551_615);
            Snapshot.WellShaped(req) && Snapshot.Deliverable(PairReader(req), req)
    ensures var req := PairRequest(2, 18_446_744_073_709_551_616);
            && Snapshot.WellShaped(req)
            && Snapshot.Payable(PairReader(req), req) && Snapshot.EncoderObjects(PairReader(req), req)
            && AllEncodable(Snapshot.DomainFor(req), Snapshot.SharesOf(PairReader(req), req))
  {
    PairReachesTheCall(PairRequest(2, 18_446_744_073_709_551_615), 1);
    PairReachesTheCall(PairRequest(2, 18_446_744_073_709_551_616), 1);
  }

  /** Half of 2^256. */
  const HALF_WORD: nat := 0x8000_0000_0000_0000_0000_0000_0000_0000_0000_0000_0000_0000_0000_0000_0000_0000

  /** 2^256 - 2 units are delivered; of 2^256 units the two shares encode, but the call does not. */
  lemma LargeAmountIsUnencodable()
    ensures var req := PairRequest(2 * (HALF_WORD - 1), 1);
            Snapshot.WellShaped(req) && Snapshot.Deliverable(PairReader(req), req)
    ensures var req := PairRequest(2 * HALF_WORD, 1);
            && Snapshot.WellShaped(req)
            && Snapshot.Payable(PairReader(req), req) && Snapshot.EncoderObjects(PairReader(req), req)
            && AllEncodable(Snapshot.DomainFor(req), Snapshot.SharesOf(PairReader(req), req))
  {
    PairReachesTheCall(PairRequest(2 * (HALF_WORD - 1), 1), HALF_WORD - 1);
    PairReachesTheCall(PairRequest(2 * HALF_WORD, 1), HALF_WORD);
  }

  // ---- A claim on which the gate throws --------------------------------------------------

  /** A claim of a negative amount passes every other condition, for any cycle in its window. */
  lemma NegativeClaimThrows(cycle: Claims.OnchainCycle, ctx: Claims.ClaimContext, proof: seq<Digest>)
      returns (c: Claims.PublishedClaim)
    requires Claims.InWindow(cycle, ctx.nowSec) && !ctx.alreadyClaimed && cycle.remaining >= 0
    ensures Claims.Claimable(c, cycle, ctx) && !Encodable(Claims.ClaimFields(c, ctx.chainId))
    ensures c.amount < 0 && c.proof == proof
  {
    c := Claims.PublishedClaim(cycle.cycleId, 7, cycle.asset, 5, -1, proof, cycle.root);
  }
}
