/** How far flooring may move a wallet's weight. */
module WeightBounds {
  import opened PodModel
  import opened Sums
  import opened Sorting
  import opened Canonical
  import opened Ledger
  import opened Twab

  /** At every second a balance is its free part plus what is locked in each tier. */
  lemma {:induction false} SecondsSplitByTier(starts: seq<StartBalance>, ts: seq<Transfer>, locks: seq<Lock>,
        w: Address, a: int, b: int)
    ensures Sum(BalanceCurve(starts, ts, w), a, b)
            == Sum(FreeCurve(starts, ts, locks, w), a, b)
               + Sum(LockedCurve(locks, w, LOCK_7D), a, b) + Sum(LockedCurve(locks, w, LOCK_14D), a, b)
               + Sum(LockedCurve(locks, w, LOCK_21D), a, b) + Sum(LockedCurve(locks, w, LOCK_30D), a, b)
    decreases b - a
  {
    if a < b { SecondsSplitByTier(starts, ts, locks, w, a, b - 1); }
  }

  /** Five floors lose at most four units against one floor of the sum. */
  lemma FiveFloors(a: int, b: int, c: int, d: int, e: int, n: int)
    requires n > 0
    ensures (a + b + c + d + e) / n - 4 <= a / n + b / n + c / n + d / n + e / n <= (a + b + c + d + e) / n
  {
    var total, parts := a + b + c + d + e, a / n + b / n + c / n + d / n + e / n;
    FloorBounds(a, n);
    FloorBounds(b, n);
    FloorBounds(c, n);
    FloorBounds(d, n);
    FloorBounds(e, n);
    assert parts * n == a / n * n + b / n * n + c / n * n + d / n * n + e / n * n;
    FloorGreatest(total, n, parts);
    FloorBounds(total, n);
    assert (parts + 5) * n == parts * n + 5 * n;
    FloorGreatest(total, n, parts + 5);
  }

  lemma BonusBounds(locked: TierRecord)
    requires locked.d7 >= 0 && locked.d14 >= 0 && locked.d21 >= 0 && locked.d30 >= 0
    ensures locked.Sum() <= Bonus(locked)
    ensures Bonus(locked) * BPS_DENOMINATOR <= locked.Sum() * MultiplierBps(LOCK_30D)
  {
    TierBonus(locked.d7, LOCK_7D);
    TierBonus(locked.d14, LOCK_14D);
    TierBonus(locked.d21, LOCK_21D);
    TierBonus(locked.d30, LOCK_30D);
  }

  lemma TierBonus(twab: int, tier: Tier)
    requires twab >= 0
    ensures twab <= MulDivFloor(twab, MultiplierBps(tier), BPS_DENOMINATOR)
    ensures MulDivFloor(twab, MultiplierBps(tier), BPS_DENOMINATOR) * BPS_DENOMINATOR <= twab * MultiplierBps(LOCK_30D)
  {
    MulMonotone(BPS_DENOMINATOR, MultiplierBps(tier), twab);
    MulMonotone(MultiplierBps(tier), MultiplierBps(LOCK_30D), twab);
    FloorGreatest(twab * MultiplierBps(tier), BPS_DENOMINATOR, twab);
    FloorBounds(twab * MultiplierBps(tier), BPS_DENOMINATOR);
  }

  /** The rounding contract of the weight formula, for every accepted wallet and every history. */
  lemma RoundingBounds(e0: int, e1: int, starts: seq<StartBalance>, ts: seq<Transfer>, locks: seq<Lock>, w: Address)
    requires Covered(starts, ts, locks, w, e0, e1)
    ensures var k := NaiveWeight(e0, e1, starts, ts, locks, w);
            && k.baseTwab - 4 <= k.unlockedTwab + k.lockedTwabByTier.Sum() <= k.baseTwab
            && k.baseTwab - 4 <= k.effectiveWeight
            && 0 <= k.effectiveWeight <= MulDivFloor(k.baseTwab, MultiplierBps(LOCK_30D), BPS_DENOMINATOR)
            && k.unlockedTwab <= k.effectiveWeight
  {
    var k := NaiveWeight(e0, e1, starts, ts, locks, w);
    TierSumsWithinBase(e0, e1, starts, ts, locks, w);
    SumNonNegative(FreeCurve(starts, ts, locks, w), e0, e1);
    forall tier
      ensures LockedTwab(e0, e1, locks, w, tier) >= 0
    {
      SumNonNegative(LockedCurve(locks, w, tier), e0, e1);
    }
    BonusBounds(k.lockedTwabByTier);
    EffectiveWithin(k.unlockedTwab, k.lockedTwabByTier.Sum(), Bonus(k.lockedTwabByTier), k.baseTwab);
  }

  lemma TierSumsWithinBase(e0: int, e1: int, starts: seq<StartBalance>, ts: seq<Transfer>, locks: seq<Lock>, w: Address)
    ensures var k := NaiveWeight(e0, e1, starts, ts, locks, w);
            k.baseTwab - 4 <= k.unlockedTwab + k.lockedTwabByTier.Sum() <= k.baseTwab
  {
    SecondsSplitByTier(starts, ts, locks, w, e0, e1);
    FiveFloors(Sum(FreeCurve(starts, ts, locks, w), e0, e1),
               Sum(LockedCurve(locks, w, LOCK_7D), e0, e1), Sum(LockedCurve(locks, w, LOCK_14D), e0, e1),
               Sum(LockedCurve(locks, w, LOCK_21D), e0, e1), Sum(LockedCurve(locks, w, LOCK_30D), e0, e1),
                 EPOCH_SECONDS);
  }

  lemma EffectiveWithin(unlocked: int, locked: int, bonus: int, base: int)
    requires unlocked >= 0 && unlocked + locked <= base
    requires bonus * BPS_DENOMINATOR <= locked * MultiplierBps(LOCK_30D)
    ensures unlocked + bonus <= MulDivFloor(base, MultiplierBps(LOCK_30D), BPS_DENOMINATOR)
  {
    FloorGreatest(base * MultiplierBps(LOCK_30D), BPS_DENOMINATOR, unlocked + bonus);
  }

  /** The same bounds for every weight an accepted epoch publishes. */
  lemma PublishedWeightsRounded(cycle: Cycle, starts: seq<StartBalance>, transfers: seq<Transfer>, locks: seq<Lock>,
        c: WeightComputation, w: Address)
    requires WeighedNaively(cycle, starts, transfers, locks, c) && w in c.weights
    requires Accepted(cycle.epochStart, cycle.epochEnd, starts, c.appliedTransfers, locks)
    ensures var k := c.weights[w];
            && k.baseTwab - 4 <= k.unlockedTwab + k.lockedTwabByTier.Sum() <= k.baseTwab
            && k.baseTwab - 4 <= k.effectiveWeight <= k.baseTwab * 7 / 4
            && k.effectiveWeight >= 0
  {
    RoundingBounds(cycle.epochStart, cycle.epochEnd, starts, c.appliedTransfers, locks, w);
    LowestTerms(c.weights[w].baseTwab, 17_500, 7, 4, 2_500);
  }

  /** The terms of a published weight: averages over the 900 seconds, and 1.1, 1.25, 1.5 and 1.75 for what is locked. */
  lemma PublishedWeightTerms(cycle: Cycle, starts: seq<StartBalance>, transfers: seq<Transfer>, locks: seq<Lock>,
        c: WeightComputation, w: Address)
    requires WeighedNaively(cycle, starts, transfers, locks, c) && w in c.weights
    ensures var ts, e0, e1, k := c.appliedTransfers, cycle.epochStart, cycle.epochEnd, c.weights[w];
            var locked := k.lockedTwabByTier;
            && k.wallet == w && k.snapshotBalance == BalanceAt(starts, ts, w, e1 - 1)
            && IsFloor(k.baseTwab, Sum(BalanceCurve(starts, ts, w), e0, e1), 900)
            && IsFloor(k.unlockedTwab, Sum(FreeCurve(starts, ts, locks, w), e0, e1), 900)
            && IsFloor(locked.d7, Sum(LockedCurve(locks, w, LOCK_7D), e0, e1), 900)
            && IsFloor(locked.d14, Sum(LockedCurve(locks, w, LOCK_14D), e0, e1), 900)
            && IsFloor(locked.d21, Sum(LockedCurve(locks, w, LOCK_21D), e0, e1), 900)
            && IsFloor(locked.d30, Sum(LockedCurve(locks, w, LOCK_30D), e0, e1), 900)
            && k.effectiveWeight
               == k.unlockedTwab + locked.d7 * 11 / 10 + locked.d14 * 5 / 4 + locked.d21 * 3 / 2 + locked.d30 * 7 / 4
  {
    var k := NaiveWeight(cycle.epochStart, cycle.epochEnd, starts, c.appliedTransfers, locks, w);
    assert c.weights[w] == k;
    BonusTerms(k.lockedTwabByTier);
  }

  lemma BonusTerms(locked: TierRecord)
    ensures Bonus(locked) == locked.d7 * 11 / 10 + locked.d14 * 5 / 4 + locked.d21 * 3 / 2 + locked.d30 * 7 / 4
  {
    LowestTerms(locked.d7, 11_000, 11, 10, 1_000);
    LowestTerms(locked.d14, 12_500, 5, 4, 2_500);
    LowestTerms(locked.d21, 15_000, 3, 2, 5_000);
    LowestTerms(locked.d30, 17_500, 7, 4, 2_500);
  }

  lemma LowestTerms(x: int, bps: int, num: int, den: int, k: int)
    requires den > 0 && k > 0 && bps == num * k && den * k == BPS_DENOMINATOR
    ensures MulDivFloor(x, bps, BPS_DENOMINATOR) == x * num / den
  {
    var q := x * num / den;
    FloorBounds(x * num, den);
    assert x * bps == x * num * k;
    assert q * BPS_DENOMINATOR == q * den * k && (q + 1) * BPS_DENOMINATOR == (q + 1) * den * k;
    MulMonotone(q * den, x * num, k);
    MulMonotone(x * num + 1, (q + 1) * den, k);
    FloorUnique(q, x * bps, BPS_DENOMINATOR);
  }

  /** Records in another order, or repeated, give the very same weights. */
  lemma WeightsIgnoreOrder(cycle: Cycle, starts: seq<StartBalance>, locks: seq<Lock>, ts: seq<Transfer>,
        us: seq<Transfer>, c: WeightComputation, d: WeightComputation)
    requires SameElements(ts, us) && Consistent(ts)
    requires WeighedNaively(cycle, starts, ts, locks, c) && WeighedNaively(cycle, starts, us, locks, d)
    ensures c == d
  {
    assert History(ts) == History(us) by {
      OrderAndDuplicatesIrrelevant(ts, us);
    }
    NaiveWeightsUnique(cycle, starts, locks, ts, us, c, d);
  }

  lemma NaiveWeightsUnique(cycle: Cycle, starts: seq<StartBalance>, locks: seq<Lock>, ts: seq<Transfer>,
        us: seq<Transfer>, c: WeightComputation, d: WeightComputation)
    requires History(ts) == History(us)
    requires WeighedNaively(cycle, starts, ts, locks, c) && WeighedNaively(cycle, starts, us, locks, d)
    ensures c == d
  {
    assert forall w :: w in c.weights <==> w in d.weights;
    assert forall w :: w in c.weights ==> c.weights[w] == d.weights[w];
    assert c.weights == d.weights;
  }
}
