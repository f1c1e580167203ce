/** The 80/20 split, per-wallet floors, and the dust that stays in the vault. */
module Allocation {
  import opened Results
  import opened PodModel
  import opened Sums
  import opened Sorting
  import opened Twab
  import opened Eligibility

  datatype AssetAllocation = AssetAllocation(
    asset: Asset, acquired: int, participantPool: int, strategicReserve: int,
    distributed: int, distributionDust: int, entitlements: seq<Entitlement>)

  datatype AllocationResult = AllocationResult(
    assets: seq<AssetAllocation>, entitlements: seq<Entitlement>, totalEffectiveWeight: int, publishable: bool)

  function ParticipantPool(acquired: int): int {
    MulDivFloor(acquired, PARTICIPANT_POOL_BPS, BPS_DENOMINATOR)
  }

  function AmountOf(e: Entitlement): int { e.amount }

  /** What the floor rule gives a weight; nothing is given when nobody has weight. */
  function Share(pool: int, weight: int, total: int): int {
    if total > 0 && weight > 0 then MulDivFloor(pool, weight, total) else 0
  }

  /** Positive shares, one per wallet, in wallet order. */
  function PositiveShares(cycleId: nat, asset: Address, pool: int, ws: seq<Address>, weight: Address -> int,
        total: int): seq<Entitlement> {
    if ws == [] then []
    else
      var front, w := ws[..|ws| - 1], ws[|ws| - 1];
      var amount := Share(pool, weight(w), total);
      PositiveShares(cycleId, asset, pool, front, weight, total)
      + if amount > 0 then [Entitlement(cycleId, w, asset, amount)] else []
  }

  function AllocationOf(cycle: Cycle, asset: Asset, ws: seq<Address>, weights: map<Address, WalletWeight>,
        total: int): AssetAllocation {
    var pool := ParticipantPool(asset.acquiredRawAmount);
    var shares := PositiveShares(cycle.cycleId, asset.tokenAddress, pool, ws, WeightIn(weights), total);
    var distributed := Total(shares, AmountOf);
    AssetAllocation(asset, asset.acquiredRawAmount, pool, asset.acquiredRawAmount - pool, distributed,
      pool - distributed, shares)
  }

  method AllocateAsset(cycle: Cycle, asset: Asset, eligibleWallets: seq<Address>, weights: map<Address, WalletWeight>,
        totalEffectiveWeight: int)
      returns (r: Result<AssetAllocation, ErrorCode>)
    ensures var spec := AllocationOf(cycle, asset, eligibleWallets, weights, totalEffectiveWeight);
            r == if spec.distributed <= spec.participantPool then Success(spec) else Failure(ALLOC_OVERFLOW)
  {
    var acquired := asset.acquiredRawAmount;
    var participantPool := MulDivFloor(acquired, PARTICIPANT_POOL_BPS, BPS_DENOMINATOR);
    var strategicReserve := acquired - participantPool;
    var entitlements, distributed :=
      FloorShares(cycle.cycleId, asset.tokenAddress, participantPool, eligibleWallets, weights, totalEffectiveWeight);
    var distributionDust := participantPool - distributed;
    // The two conservation checks hold whatever the inputs.
    assert participantPool + strategicReserve == acquired;
    assert distributed + distributionDust == participantPool;
    if distributed > participantPool { return Failure(ALLOC_OVERFLOW); }
    return Success(AssetAllocation(asset, acquired, participantPool, strategicReserve, distributed, distributionDust,
      entitlements));
  }

  method FloorShares(cycleId: nat, token: Address, pool: int, eligibleWallets: seq<Address>,
        weights: map<Address, WalletWeight>, total: int)
      returns (entitlements: seq<Entitlement>, distributed: int)
    ensures entitlements == PositiveShares(cycleId, token, pool, eligibleWallets, WeightIn(weights), total)
    ensures distributed == Total(entitlements, AmountOf)
  {
    entitlements, distributed := [], 0;
    if total > 0 {
      for i := 0 to |eligibleWallets|
        invariant entitlements == PositiveShares(cycleId, token, pool, eligibleWallets[..i], WeightIn(weights), total)
        invariant distributed == Total(entitlements, AmountOf)
      {
        var wallet := eligibleWallets[i];
        assert eligibleWallets[..i + 1][..i] == eligibleWallets[..i];
        var w := if wallet in weights then weights[wallet].effectiveWeight else 0;
        if w <= 0 { continue; }
        var amount := MulDivFloor(pool, w, total);
        if amount <= 0 { continue; }
        var e := Entitlement(cycleId, wallet, token, amount);
        assert (entitlements + [e])[..|entitlements|] == entitlements;
        distributed := distributed + amount;
        entitlements := entitlements + [e];
      }
      assert eligibleWallets[..|eligibleWallets|] == eligibleWallets;
    } else {
      NoWeightNoShares(cycleId, token, pool, eligibleWallets, WeightIn(weights), total);
    }
  }

  lemma {:induction false} NoWeightNoShares(cycleId: nat, asset: Address, pool: int, ws: seq<Address>,
        weight: Address -> int, total: int)
    requires total <= 0
    ensures PositiveShares(cycleId, asset, pool, ws, weight, total) == []
  {
    if ws != [] { NoWeightNoShares(cycleId, asset, pool, ws[..|ws| - 1], weight, total); }
  }

  /** All shares of all assets, asset by asset. */
  function AllShares(cycle: Cycle, assets: seq<Asset>, ws: seq<Address>, weights: map<Address, WalletWeight>,
        total: int): seq<Entitlement> {
    if assets == [] then []
    else
      AllShares(cycle, assets[..|assets| - 1], ws, weights, total)
      + AllocationOf(cycle, assets[|assets| - 1], ws, weights, total).entitlements
  }

  /** An entitlement is listed exactly when some asset pays it. */
  lemma {:induction false} SharesByAsset(cycle: Cycle, assets: seq<Asset>, ws: seq<Address>,
        weights: map<Address, WalletWeight>, total: int, e: Entitlement)
    ensures e in AllShares(cycle, assets, ws, weights, total) <==>
            exists a :: a in assets && e in AllocationOf(cycle, a, ws, weights, total).entitlements
  {
    if assets != [] {
      assert assets == assets[..|assets| - 1] + [assets[|assets| - 1]];
      SharesByAsset(cycle, assets[..|assets| - 1], ws, weights, total, e);
    }
  }

  method Allocate(cycle: Cycle, assets: seq<Asset>, eligibleWallets: seq<Address>,
        weights: map<Address, WalletWeight>, totalEffectiveWeight: int)
      returns (r: Result<AllocationResult, ErrorCode>)
    ensures r.Success? <==> forall a :: a in assets ==>
              var spec := AllocationOf(cycle, a, eligibleWallets, weights, totalEffectiveWeight);
              spec.distributed <= spec.participantPool
    ensures r.Failure? ==> r.error == ALLOC_OVERFLOW
    ensures r.Success? ==>
              && |r.value.assets| == |assets|
              && (forall i :: 0 <= i < |assets| ==>
                    r.value.assets[i] == AllocationOf(cycle, assets[i], eligibleWallets, weights, totalEffectiveWeight))
              && r.value.entitlements == AllShares(cycle, assets, eligibleWallets, weights, totalEffectiveWeight)
              && r.value.totalEffectiveWeight == totalEffectiveWeight
              && (r.value.publishable <==> totalEffectiveWeight != 0 && r.value.entitlements != [])
  {
    var allocations: seq<AssetAllocation> := [];
    var entitlements: seq<Entitlement> := [];
    for i := 0 to |assets|
      invariant |allocations| == i
      invariant forall j :: 0 <= j < i ==>
                  && allocations[j] == AllocationOf(cycle, assets[j], eligibleWallets, weights, totalEffectiveWeight)
                  && allocations[j].distributed <= allocations[j].participantPool
      invariant entitlements == AllShares(cycle, assets[..i], eligibleWallets, weights, totalEffectiveWeight)
    {
      assert assets[..i + 1][..i] == assets[..i] && assets[i] in assets;
      var a := AllocateAsset(cycle, assets[i], eligibleWallets, weights, totalEffectiveWeight);
      if a.Failure? { return Failure(a.error); }
      allocations := allocations + [a.value];
      entitlements := entitlements + a.value.entitlements;
    }
    assert assets[..|assets|] == assets;
    var publishable := totalEffectiveWeight != 0 && entitlements != [];
    return Success(AllocationResult(allocations, entitlements, totalEffectiveWeight, publishable));
  }

  // ---- What the floor rule guarantees ---------------------------------------------------

  /** Each wallet gets its exact share rounded down, and a larger weight never gets less. */
  lemma ShareIsFloor(pool: int, weight: int, total: int, larger: int)
    requires pool >= 0 && weight > 0 && total > 0 && larger >= weight
    ensures Share(pool, weight, total) * total <= pool * weight < (Share(pool, weight, total) + 1) * total
    ensures 0 <= Share(pool, weight, total) <= Share(pool, larger, total)
  {
    FloorBounds(pool * weight, total);
    MulMonotone(0, pool, weight);
    FloorGreatest(pool * weight, total, 0);
    MulMonotone(weight, larger, pool);
    FloorMonotone(pool * weight, pool * larger, total);
  }

  function Positive(ws: seq<Address>, weight: Address -> int): nat {
    if ws == [] then 0
    else Positive(ws[..|ws| - 1], weight) + if weight(ws[|ws| - 1]) > 0 then 1 else 0
  }

  /** Given units against the pool's worth of a weight: short by less than one unit per positive wallet. */
  ghost predicate Bracketed(given: int, pool: int, sum: int, total: int, count: int) {
    given * total <= pool * sum <= given * total + count * (total - 1)
  }

  lemma {:induction false} SharesBracketed(cycleId: nat, asset: Address, pool: int, ws: seq<Address>,
        weight: Address -> int, total: int)
    requires pool >= 0 && total > 0 && forall w :: w in ws ==> weight(w) >= 0
    ensures Bracketed(Total(PositiveShares(cycleId, asset, pool, ws, weight, total), AmountOf), pool, Total(ws, weight),
            total, Positive(ws, weight))
  {
    if ws != [] {
      var front, w := ws[..|ws| - 1], ws[|ws| - 1];
      assert w in ws;
      var given := Total(PositiveShares(cycleId, asset, pool, front, weight, total), AmountOf);
      assert Bracketed(given, pool, Total(front, weight), total, Positive(front, weight)) by {
        SharesBracketed(cycleId, asset, pool, front, weight, total);
      }
      assert Total(PositiveShares(cycleId, asset, pool, ws, weight, total), AmountOf)
          == given + Share(pool, weight(w), total) by {
        GivenStep(cycleId, asset, pool, ws, weight, total);
      }
      BracketStep(given, pool, Total(front, weight), weight(w), total, Positive(front, weight));
    }
  }

  lemma GivenStep(cycleId: nat, asset: Address, pool: int, ws: seq<Address>, weight: Address -> int, total: int)
    requires ws != [] && pool >= 0 && weight(ws[|ws| - 1]) >= 0
    ensures Total(PositiveShares(cycleId, asset, pool, ws, weight, total), AmountOf)
            == Total(PositiveShares(cycleId, asset, pool, ws[..|ws| - 1], weight, total), AmountOf)
              + Share(pool, weight(ws[|ws| - 1]), total)
  {
    var w := ws[|ws| - 1];
    var share := Share(pool, weight(w), total);
    if total > 0 && weight(w) > 0 { ShareIsFloor(pool, weight(w), total, weight(w)); }
    TotalConcat(PositiveShares(cycleId, asset, pool, ws[..|ws| - 1], weight, total),
                if share > 0 then [Entitlement(cycleId, w, asset, share)] else [], AmountOf);
  }

  lemma BracketStep(given: int, pool: int, sum: int, weight: int, total: int, count: int)
    requires pool >= 0 && total > 0 && weight >= 0 && Bracketed(given, pool, sum, total, count)
    ensures Bracketed(given + Share(pool, weight, total), pool, sum + weight, total,
                      count + if weight > 0 then 1 else 0)
  {
    var share := Share(pool, weight, total);
    if weight > 0 { ShareIsFloor(pool, weight, total, weight); }
    assert (given + share) * total == given * total + share * total;
    assert pool * (sum + weight) == pool * sum + pool * weight;
    assert (count + 1) * (total - 1) == count * (total - 1) + (total - 1);
    assert (share + 1) * total == share * total + total;
  }

  /** With the true total as denominator nothing is over-distributed and dust stays below one unit per paid wallet. */
  lemma {:induction false} DustBound(cycle: Cycle, asset: Asset, ws: seq<Address>, weights: map<Address, WalletWeight>)
    requires forall w :: w in ws ==> WeightIn(weights)(w) >= 0
    ensures var a := AllocationOf(cycle, asset, ws, weights, Total(ws, WeightIn(weights)));
            && 0 <= a.distributed <= a.participantPool
            && a.acquired == a.strategicReserve + a.distributed + a.distributionDust
            && 0 <= a.participantPool <= a.acquired
            && (Total(ws, WeightIn(weights)) > 0 ==> 0 <= a.distributionDust < Positive(ws, WeightIn(weights)))
            && (Total(ws, WeightIn(weights)) == 0 ==> a.distributed == 0 && a.distributionDust == a.participantPool)
  {
    var weight := WeightIn(weights);
    var total, pool := Total(ws, weight), ParticipantPool(asset.acquiredRawAmount);
    TotalNonNegative(ws, weight);
    PoolWithinAcquired(asset.acquiredRawAmount);
    if total > 0 {
      SharesBracketed(cycle.cycleId, asset.tokenAddress, pool, ws, weight, total);
      var a := AllocationOf(cycle, asset, ws, weights, total);
      SomeonePositive(ws, weight);
      DustWithin(a.distributed, pool, total, Positive(ws, weight));
    } else {
      NoWeightNoShares(cycle.cycleId, asset.tokenAddress, pool, ws, weight, total);
    }
    SharesArePositive(cycle.cycleId, asset.tokenAddress, pool, ws, weight, total);
    TotalNonNegative(PositiveShares(cycle.cycleId, asset.tokenAddress, pool, ws, weight, total), AmountOf);
  }

  lemma PoolWithinAcquired(acquired: nat)
    ensures 0 <= ParticipantPool(acquired) <= acquired
  {
  }

  lemma DustWithin(distributed: int, pool: int, total: int, count: int)
    requires total > 0 && count > 0
    requires distributed * total <= pool * total <= distributed * total + count * (total - 1)
    ensures 0 <= pool - distributed < count
  {
    MulCancel(distributed, pool, total);
    assert (pool - distributed) * total == pool * total - distributed * total;
    assert count * (total - 1) == count * total - count;
    MulCancel(pool - distributed, count, total);
  }

  lemma {:induction false} SomeonePositive(ws: seq<Address>, weight: Address -> int)
    requires forall w :: w in ws ==> weight(w) >= 0
    ensures Total(ws, weight) > 0 ==> Positive(ws, weight) > 0
  {
    if ws != [] { SomeonePositive(ws[..|ws| - 1], weight); }
  }

  /** Exactly the wallets whose share is positive are entitled, each once, to that share. */
  lemma {:induction false} SharesArePositive(cycleId: nat, asset: Address, pool: int, ws: seq<Address>,
        weight: Address -> int, total: int)
    ensures forall e :: e in PositiveShares(cycleId, asset, pool, ws, weight, total) <==>
              e.cycleId == cycleId && e.asset == asset && e.wallet in ws && e.amount > 0
                && e.amount == Share(pool, weight(e.wallet), total)
  {
    if ws != [] {
      assert ws == ws[..|ws| - 1] + [ws[|ws| - 1]];
      SharesArePositive(cycleId, asset, pool, ws[..|ws| - 1], weight, total);
    }
  }

  lemma {:induction false} SharesDistinct(cycleId: nat, asset: Address, pool: int, ws: seq<Address>,
        weight: Address -> int, total: int)
    requires Distinct(ws)
    ensures Distinct(PositiveShares(cycleId, asset, pool, ws, weight, total))
  {
    if ws != [] {
      var front := ws[..|ws| - 1];
      assert forall w :: w in front ==> w != ws[|ws| - 1];
      SharesDistinct(cycleId, asset, pool, front, weight, total);
      SharesArePositive(cycleId, asset, pool, front, weight, total);
    }
  }
}
