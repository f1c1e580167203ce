/** Half-open 900-second epochs, and how the sweeps of consecutive epochs join. */
module Epoch {
  import opened PodModel
  import opened Sums
  import opened Sorting
  import opened Canonical
  import opened Ledger
  import opened Twab

  datatype EpochBounds = EpochBounds(epochId: nat, epochStart: nat, epochEnd: nat)

  function EpochIdOf(t: nat): nat { t / EPOCH_SECONDS }

  function EpochStartOf(epochId: nat): nat { epochId * EPOCH_SECONDS }

  function EpochEndOf(epochId: nat): nat { EpochStartOf(epochId) + EPOCH_SECONDS }

  function EpochBoundsOf(t: nat): EpochBounds {
    var id := EpochIdOf(t);
    EpochBounds(id, EpochStartOf(id), EpochEndOf(id))
  }

  /** Every second lies in exactly one epoch, and epochs tile the clock. */
  lemma EpochsTile(t: nat, id: nat)
    ensures EpochBoundsOf(t).epochStart <= t < EpochBoundsOf(t).epochEnd
    ensures EpochStartOf(id) <= t < EpochEndOf(id) <==> id == EpochIdOf(t)
    ensures EpochEndOf(id) == EpochStartOf(id + 1)
  {
    FloorBounds(t, EPOCH_SECONDS);
    FloorGreatest(t, EPOCH_SECONDS, id);
    FloorGreatest(t, EPOCH_SECONDS, id + 1);
  }

  /**
   * The balance the sweep integrates is a fact about the set of records: any listing of them, each
   * once and in any order, gives the same balance at every second of the epoch.
   */
  lemma BalanceIsOfTheRecords(starts: seq<StartBalance>, transfers: seq<Transfer>, listing: seq<Transfer>, e1: int,
        w: Address, t: int)
    requires Consistent(transfers) && Distinct(listing) && SameElements(listing, transfers) && t < e1
    ensures BalanceAt(starts, Until(History(transfers), e1), w, t) == BalanceAt(starts, listing, w, t)
  {
    HistoryIsCanonical(transfers);
    CutIsInvisible(History(transfers), e1, w, t);
    SameRecordsSameTotal(History(transfers), listing, (x: Transfer) => if x.timestamp <= t then Delta(x, w) else 0);
  }

  lemma CutIsInvisible(h: seq<Transfer>, e1: int, w: Address, t: int)
    requires Monotone(h) && t < e1
    ensures NetAt(Until(h, e1), w, t) == NetAt(h, w, t)
  {
    UntilIsPrefix(h, e1);
    var c := |Until(h, e1)|;
    var f := (x: Transfer) => if x.timestamp <= t then Delta(x, w) else 0;
    assert h == h[..c] + h[c..];
    TotalConcat(h[..c], h[c..], f);
    TotalConstant(h[c..], f, 0);
  }

  lemma SameRecordsSameTotal(h: seq<Transfer>, listing: seq<Transfer>, f: Transfer -> int)
    requires Ordered(h, Before) && Distinct(listing) && SameElements(h, listing)
    ensures Total(h, f) == Total(listing, f)
  {
    assert Distinct(h);
    DistinctOnce(h);
    DistinctOnce(listing);
    forall x
      ensures multiset(h)[x] == multiset(listing)[x]
    {
      assert x in multiset(h) <==> x in h;
      assert x in multiset(listing) <==> x in listing;
    }
    assert multiset(h) == multiset(listing);
    TotalSameMultiset(h, listing, f);
  }

  /** One record list cut at e1: the fixture of either epoch may carry the logs stamped exactly e1. */
  ghost predicate CutAt(ts: seq<Transfer>, first: seq<Transfer>, second: seq<Transfer>, e1: int) {
    && (forall x :: x in first <==> x in ts && x.timestamp <= e1)
    && (forall x :: x in second <==> x in ts && e1 <= x.timestamp)
  }

  /** The second epoch starts from the balances the first one ended with. */
  ghost predicate SeededFrom(starts2: seq<StartBalance>, starts: seq<StartBalance>, applied: seq<Transfer>, e1: int) {
    forall w :: StartOf(starts2, w) == BalanceAt(starts, applied, w, e1 - 1)
  }

  lemma CutHistories(ts: seq<Transfer>, first: seq<Transfer>, second: seq<Transfer>, e1: int)
    requires Consistent(ts) && CutAt(ts, first, second, e1)
    ensures Consistent(first) && Consistent(second)
    ensures var applied := Until(History(first), e1);
            Until(History(ts), e1) == applied && History(ts) == applied + History(second)
  {
    var h := History(ts);
    HistoryIsCanonical(ts);
    SubsetConsistent(ts, first);
    SubsetConsistent(ts, second);
    HistoryIsCanonical(first);
    HistoryIsCanonical(second);
    EarlyPart(h, History(first), e1);
    LatePart(h, History(second), e1);
  }

  lemma SubsetConsistent(ts: seq<Transfer>, us: seq<Transfer>)
    requires Consistent(ts) && forall x :: x in us ==> x in ts
    ensures Consistent(us)
  {
  }

  lemma EarlyPart(h: seq<Transfer>, f: seq<Transfer>, e1: int)
    requires Ordered(h, Before) && Monotone(h) && Ordered(f, Before) && Monotone(f)
    requires forall x :: x in f <==> x in h && x.timestamp <= e1
    ensures Until(h, e1) == Until(f, e1)
  {
    UntilIsPrefix(h, e1);
    UntilIsPrefix(f, e1);
    UntilElements(h, e1);
    UntilElements(f, e1);
    OrderedListingUnique(Until(h, e1), Until(f, e1), Before);
  }

  lemma LatePart(h: seq<Transfer>, g: seq<Transfer>, e1: int)
    requires Ordered(h, Before) && Monotone(h) && Ordered(g, Before)
    requires forall x :: x in g <==> x in h && e1 <= x.timestamp
    ensures h == Until(h, e1) + g
  {
    UntilIsPrefix(h, e1);
    var c := |Until(h, e1)|;
    SuffixElements(h, c, e1);
    OrderedListingUnique(h[c..], g, Before);
    assert h == h[..c] + h[c..];
  }

  lemma SuffixElements(h: seq<Transfer>, c: nat, e1: int)
    requires c <= |h|
    requires forall i :: 0 <= i < c ==> h[i].timestamp < e1
    requires forall i :: c <= i < |h| ==> e1 <= h[i].timestamp
    ensures forall x :: x in h[c..] <==> x in h && e1 <= x.timestamp
  {
    forall x | x in h && e1 <= x.timestamp
      ensures x in h[c..]
    {
      var i :| 0 <= i < |h| && h[i] == x;
      assert h[c..][i - c] == x;
    }
  }

  lemma UntilElements(h: seq<Transfer>, e1: int)
    requires Monotone(h)
    ensures forall x :: x in Until(h, e1) <==> x in h && x.timestamp < e1
  {
    UntilIsPrefix(h, e1);
    var c := |Until(h, e1)|;
    assert h == h[..c] + h[c..];
  }

  /** A transfer stamped exactly e1 is applied once over both epochs, by the second. */
  lemma BoundaryTransferCountsOnce(ts: seq<Transfer>, first: seq<Transfer>, second: seq<Transfer>, e1: int, e2: int,
        x: Transfer)
    requires Consistent(ts) && CutAt(ts, first, second, e1) && e1 < e2
    requires x in ts && x.timestamp == e1
    ensures x !in Until(History(first), e1) && multiset(Until(History(second), e2))[x] == 1
  {
    SubsetConsistent(ts, first);
    SubsetConsistent(ts, second);
    HistoryIsCanonical(first);
    HistoryIsCanonical(second);
    UntilElements(History(first), e1);
    UntilElements(History(second), e2);
    UntilIsPrefix(History(second), e2);
    DistinctOnce(Until(History(second), e2));
  }

  // ---- Seeding from published weights ---------------------------------------------------

  /** Start rows naming wallets of the weights, each once, with its snapshot balance; only zeros may be left out. */
  ghost predicate ListsSnapshots(starts2: seq<StartBalance>, weights: map<Address, WalletWeight>) {
    && (forall i, j :: 0 <= i < j < |starts2| ==> starts2[i].wallet != starts2[j].wallet)
    && (forall b :: b in starts2 ==> b.wallet in weights && b.rawBalance == weights[b.wallet].snapshotBalance)
    && (forall w :: w in weights && weights[w].snapshotBalance != 0 ==> exists b :: b in starts2 && b.wallet == w)
  }

  /** A wallet nobody has mentioned holds nothing at any second. */
  lemma IrrelevantHoldsNothing(starts: seq<StartBalance>, ts: seq<Transfer>, locks: seq<Lock>, w: Address, t: int)
    requires !Relevant(starts, ts, locks, w)
    ensures BalanceAt(starts, ts, w, t) == 0
  {
    NoRowNoBalance(starts, w);
    TotalConstant(ts, (x: Transfer) => if x.timestamp <= t then Delta(x, w) else 0, 0);
  }

  lemma {:induction false} NoRowNoBalance(starts: seq<StartBalance>, w: Address)
    requires forall b :: b in starts ==> b.wallet != w
    ensures StartOf(starts, w) == 0
  {
    if starts != [] { NoRowNoBalance(starts[..|starts| - 1], w); }
  }

  /** What a weighing says about the end of its epoch, for every wallet. */
  lemma PublishedSnapshot(cycle: Cycle, starts: seq<StartBalance>, transfers: seq<Transfer>, locks: seq<Lock>,
        c: WeightComputation, w: Address)
    requires WeighedNaively(cycle, starts, transfers, locks, c)
    ensures BalanceAt(starts, c.appliedTransfers, w, cycle.epochEnd - 1)
            == if w in c.weights then c.weights[w].snapshotBalance else 0
  {
    if w in c.weights {
      Weighed(cycle, starts, transfers, locks, c, w);
    } else {
      NotWeighed(cycle, starts, transfers, locks, c, w);
      IrrelevantHoldsNothing(starts, c.appliedTransfers, locks, w, cycle.epochEnd - 1);
    }
  }

  lemma NaiveSnapshot(e0: int, e1: int, starts: seq<StartBalance>, ts: seq<Transfer>, locks: seq<Lock>, w: Address)
    ensures NaiveWeight(e0, e1, starts, ts, locks, w).snapshotBalance == BalanceAt(starts, ts, w, e1 - 1)
  {
  }

  lemma Weighed(cycle: Cycle, starts: seq<StartBalance>, transfers: seq<Transfer>, locks: seq<Lock>,
        c: WeightComputation, w: Address)
    requires WeighedNaively(cycle, starts, transfers, locks, c) && w in c.weights
    ensures c.weights[w].snapshotBalance == BalanceAt(starts, c.appliedTransfers, w, cycle.epochEnd - 1)
  {
    NaiveSnapshot(cycle.epochStart, cycle.epochEnd, starts, c.appliedTransfers, locks, w);
  }

  lemma NotWeighed(cycle: Cycle, starts: seq<StartBalance>, transfers: seq<Transfer>, locks: seq<Lock>,
        c: WeightComputation, w: Address)
    requires WeighedNaively(cycle, starts, transfers, locks, c) && w !in c.weights
    ensures !Relevant(starts, c.appliedTransfers, locks, w)
  {
  }

  lemma ListedBalance(starts2: seq<StartBalance>, weights: map<Address, WalletWeight>, w: Address)
    requires ListsSnapshots(starts2, weights)
    ensures StartOf(starts2, w) == if w in weights then weights[w].snapshotBalance else 0
  {
    Lookup(starts2, w);
  }

  /** The published snapshot balances are a seed: every wallet, listed or not, continues where it ended. */
  lemma SnapshotSeeds(cycle: Cycle, starts: seq<StartBalance>, transfers: seq<Transfer>, locks: seq<Lock>,
        c: WeightComputation, starts2: seq<StartBalance>)
    requires WeighedNaively(cycle, starts, transfers, locks, c) && ListsSnapshots(starts2, c.weights)
    ensures SeededFrom(starts2, starts, c.appliedTransfers, cycle.epochEnd)
  {
    forall w
      ensures StartOf(starts2, w) == BalanceAt(starts, c.appliedTransfers, w, cycle.epochEnd - 1)
    {
      SeededWallet(cycle, starts, transfers, locks, c, starts2, w);
    }
  }

  lemma SeededWallet(cycle: Cycle, starts: seq<StartBalance>, transfers: seq<Transfer>, locks: seq<Lock>,
        c: WeightComputation, starts2: seq<StartBalance>, w: Address)
    requires WeighedNaively(cycle, starts, transfers, locks, c) && ListsSnapshots(starts2, c.weights)
    ensures StartOf(starts2, w) == BalanceAt(starts, c.appliedTransfers, w, cycle.epochEnd - 1)
  {
    PublishedSnapshot(cycle, starts, transfers, locks, c, w);
    ListedBalance(starts2, c.weights, w);
  }

  /** The first epoch was accepted and weighed; the second fixture carries its snapshot balances. */
  ghost predicate Continues(cycle: Cycle, starts: seq<StartBalance>, first: seq<Transfer>, locks: seq<Lock>,
        c: WeightComputation, starts2: seq<StartBalance>) {
    WeighedNaively(cycle, starts, first, locks, c) && ListsSnapshots(starts2, c.weights)
  }

  /**
   * Two epochs, the second started from what the first one published: at every second of either the
   * balance is that of the unbroken history.
   */
  lemma BalancesJoin(cycle: Cycle, starts: seq<StartBalance>, locks: seq<Lock>, c: WeightComputation,
        starts2: seq<StartBalance>, ts: seq<Transfer>, first: seq<Transfer>, second: seq<Transfer>, e2: int,
        w: Address, t: int)
    requires Continues(cycle, starts, first, locks, c, starts2)
    requires Consistent(ts) && CutAt(ts, first, second, cycle.epochEnd) && cycle.epochEnd <= e2
    ensures t < cycle.epochEnd ==>
              BalanceAt(starts, c.appliedTransfers, w, t) == BalanceAt(starts, Until(History(ts), e2), w, t)
    ensures cycle.epochEnd <= t < e2 ==>
              BalanceAt(starts2, Until(History(second), e2), w, t) == BalanceAt(starts, Until(History(ts), e2), w, t)
  {
    SnapshotSeeds(cycle, starts, first, locks, c, starts2);
    SeededBalancesJoin(starts, starts2, ts, first, second, cycle.epochEnd, e2, w, t);
  }

  lemma LastBalanceJoins(cycle: Cycle, starts: seq<StartBalance>, locks: seq<Lock>, c: WeightComputation,
        starts2: seq<StartBalance>, ts: seq<Transfer>, first: seq<Transfer>, second: seq<Transfer>, e2: int,
        w: Address)
    requires Continues(cycle, starts, first, locks, c, starts2)
    requires Consistent(ts) && CutAt(ts, first, second, cycle.epochEnd) && cycle.epochEnd < e2
    ensures BalanceAt(starts2, Until(History(second), e2), w, e2 - 1)
            == BalanceAt(starts, Until(History(ts), e2), w, e2 - 1)
  {
    BalancesJoin(cycle, starts, locks, c, starts2, ts, first, second, e2, w, e2 - 1);
  }

  /** ... so the second epoch publishes the snapshot balances of the unbroken history. */
  lemma SnapshotsJoin(cycle: Cycle, starts: seq<StartBalance>, locks: seq<Lock>, c: WeightComputation, next: Cycle,
        starts2: seq<StartBalance>, locks2: seq<Lock>, d: WeightComputation, ts: seq<Transfer>, first: seq<Transfer>,
        second: seq<Transfer>, w: Address)
    requires Continues(cycle, starts, first, locks, c, starts2) && WeighedNaively(next, starts2, second, locks2, d)
    requires cycle.epochEnd == next.epochStart < next.epochEnd
    requires Consistent(ts) && CutAt(ts, first, second, cycle.epochEnd)
    ensures var balance := BalanceAt(starts, Until(History(ts), next.epochEnd), w, next.epochEnd - 1);
            if w in d.weights then d.weights[w].snapshotBalance == balance else balance == 0
  {
    LastBalanceJoins(cycle, starts, locks, c, starts2, ts, first, second, next.epochEnd, w);
    PublishedSnapshot(next, starts2, second, locks2, d, w);
  }

  /** ... and both sweeps find every sender solvent exactly when one sweep across both epochs does. */
  lemma OverdraftsJoin(cycle: Cycle, starts: seq<StartBalance>, locks: seq<Lock>, c: WeightComputation,
        starts2: seq<StartBalance>, ts: seq<Transfer>, first: seq<Transfer>, second: seq<Transfer>, e2: int)
    requires Continues(cycle, starts, first, locks, c, starts2)
    requires Consistent(ts) && CutAt(ts, first, second, cycle.epochEnd) && cycle.epochEnd <= e2
    ensures NoOverdraft(starts, Until(History(ts), e2)) <==>
            NoOverdraft(starts, c.appliedTransfers) && NoOverdraft(starts2, Until(History(second), e2))
  {
    SnapshotSeeds(cycle, starts, first, locks, c, starts2);
    SeededOverdraftsJoin(starts, starts2, ts, first, second, cycle.epochEnd, e2);
  }

  /** ... and the balance-seconds of both add up to those of one sweep across them. */
  lemma BalanceSecondsJoin(cycle: Cycle, starts: seq<StartBalance>, locks: seq<Lock>, c: WeightComputation,
        starts2: seq<StartBalance>, ts: seq<Transfer>, first: seq<Transfer>, second: seq<Transfer>, e2: int,
        w: Address)
    requires Continues(cycle, starts, first, locks, c, starts2) && cycle.epochStart <= cycle.epochEnd <= e2
    requires Consistent(ts) && CutAt(ts, first, second, cycle.epochEnd)
    ensures Sum(BalanceCurve(starts, c.appliedTransfers, w), cycle.epochStart, cycle.epochEnd)
            + Sum(BalanceCurve(starts2, Until(History(second), e2), w), cycle.epochEnd, e2)
            == Sum(BalanceCurve(starts, Until(History(ts), e2), w), cycle.epochStart, e2)
  {
    SnapshotSeeds(cycle, starts, first, locks, c, starts2);
    SeededSecondsJoin(starts, starts2, ts, first, second, cycle.epochStart, cycle.epochEnd, e2, w);
  }

  // ---- The over-lock check over both epochs ----------------------------------------------

  /** Two lock lists that amount to the same at every second from lo until hi. */
  ghost predicate SameActive(locks: seq<Lock>, others: seq<Lock>, lo: int, hi: int) {
    forall w, tier, t :: lo <= t < hi ==> LockedAt(locks, w, tier, t) == LockedAt(others, w, tier, t)
  }

  /** Only a relevant wallet can be over-locked, so relevance can be left out of the question. */
  lemma OverlockedAnywhere(e0: int, e1: int, starts: seq<StartBalance>, ts: seq<Transfer>, locks: seq<Lock>)
    ensures Overlocked(e0, e1, starts, ts, locks) <==> exists w :: !Covered(starts, ts, locks, w, e0, e1)
  {
    if w :| !Covered(starts, ts, locks, w, e0, e1) {
      if !Relevant(starts, ts, locks, w) {
        LocksOfSubset(locks, w);
        assert LocksOf(locks, w) == [] by {
          if LocksOf(locks, w) != [] { assert LocksOf(locks, w)[0] in LocksOf(locks, w); }
        }
        forall t
          ensures LockedTotalAt(locks, w, t) <= BalanceAt(starts, ts, w, t)
        {
          IrrelevantHoldsNothing(starts, ts, locks, w, t);
        }
        assert false;
      }
    }
  }

  /** Lock lists that amount to the same throughout an epoch give the same verdict and the same weights. */
  lemma SameActiveSameWeights(e0: int, e1: int, starts: seq<StartBalance>, ts: seq<Transfer>, locks: seq<Lock>,
        others: seq<Lock>)
    requires SameActive(locks, others, e0, e1)
    ensures Accepted(e0, e1, starts, ts, locks) <==> Accepted(e0, e1, starts, ts, others)
    ensures forall w :: NaiveWeight(e0, e1, starts, ts, locks, w) == NaiveWeight(e0, e1, starts, ts, others, w)
  {
    OverlockedAnywhere(e0, e1, starts, ts, locks);
    OverlockedAnywhere(e0, e1, starts, ts, others);
    forall w
      ensures Covered(starts, ts, locks, w, e0, e1) <==> Covered(starts, ts, others, w, e0, e1)
      ensures NaiveWeight(e0, e1, starts, ts, locks, w) == NaiveWeight(e0, e1, starts, ts, others, w)
    {
      SameLockedTotal(locks, others, e0, e1, w);
      SumAgree(FreeCurve(starts, ts, locks, w), FreeCurve(starts, ts, others, w), e0, e1);
      forall tier
        ensures LockedTwab(e0, e1, locks, w, tier) == LockedTwab(e0, e1, others, w, tier)
      {
        SumAgree(LockedCurve(locks, w, tier), LockedCurve(others, w, tier), e0, e1);
      }
    }
  }

  /**
   * A lock that starts after the epoch, or was unlocked or withdrawn by its start, changes no weight and no verdict,
   * wherever it is listed; at most it makes its wallet appear among the weights.
   */
  lemma SpentLockIsInert(e0: int, e1: int, starts: seq<StartBalance>, ts: seq<Transfer>, locks: seq<Lock>,
        more: seq<Lock>, l: Lock)
    requires multiset(more) == multiset(locks) + multiset{l}
    requires || e1 <= l.startTimestamp || l.unlockTimestamp <= e0
             || (l.withdrawalTimestamp.Some? && l.withdrawalTimestamp.value <= e0)
    ensures Accepted(e0, e1, starts, ts, locks) <==> Accepted(e0, e1, starts, ts, more)
    ensures forall w :: NaiveWeight(e0, e1, starts, ts, locks, w) == NaiveWeight(e0, e1, starts, ts, more, w)
    ensures forall w :: Relevant(starts, ts, more, w) <==> Relevant(starts, ts, locks, w) || w == l.wallet
  {
    forall w, tier, t | e0 <= t < e1
      ensures LockedAt(locks, w, tier, t) == LockedAt(more, w, tier, t)
    {
      LockedIsSumOfRunning(locks, w, tier, t);
      LockedIsSumOfRunning(more, w, tier, t);
      TotalSameMultiset(more, locks + [l], TierPrincipal(w, tier, t));
      assert (locks + [l])[..|locks|] == locks;
    }
    SameActiveSameWeights(e0, e1, starts, ts, locks, more);
    assert forall k :: k in more <==> k in multiset(more);
    assert forall k :: k in locks <==> k in multiset(locks);
  }

  /** A wallet is covered at every second of both epochs exactly when the unbroken sweep finds it covered. */
  lemma CoverJoins(cycle: Cycle, starts: seq<StartBalance>, locks1: seq<Lock>, c: WeightComputation,
        starts2: seq<StartBalance>, locks2: seq<Lock>, ts: seq<Transfer>, first: seq<Transfer>, second: seq<Transfer>,
        locks: seq<Lock>, e2: int, w: Address)
    requires Continues(cycle, starts, first, locks1, c, starts2) && cycle.epochStart <= cycle.epochEnd <= e2
    requires Consistent(ts) && CutAt(ts, first, second, cycle.epochEnd)
    requires SameActive(locks1, locks, cycle.epochStart, cycle.epochEnd)
    requires SameActive(locks2, locks, cycle.epochEnd, e2)
    ensures Covered(starts, Until(History(ts), e2), locks, w, cycle.epochStart, e2) <==>
            && Covered(starts, c.appliedTransfers, locks1, w, cycle.epochStart, cycle.epochEnd)
            && Covered(starts2, Until(History(second), e2), locks2, w, cycle.epochEnd, e2)
  {
    var e0, e1, whole, later := cycle.epochStart, cycle.epochEnd, Until(History(ts), e2), Until(History(second), e2);
    forall t
      ensures e0 <= t < e1 ==> BalanceAt(starts, c.appliedTransfers, w, t) == BalanceAt(starts, whole, w, t)
      ensures e1 <= t < e2 ==> BalanceAt(starts2, later, w, t) == BalanceAt(starts, whole, w, t)
    {
      BalancesJoin(cycle, starts, locks1, c, starts2, ts, first, second, e2, w, t);
    }
    SameLockedTotal(locks1, locks, e0, e1, w);
    SameLockedTotal(locks2, locks, e1, e2, w);
    CoverSplits(starts, whole, locks, starts, c.appliedTransfers, locks1, starts2, later, locks2, w, e0, e1, e2);
  }

  lemma SameLockedTotal(locks: seq<Lock>, others: seq<Lock>, lo: int, hi: int, w: Address)
    requires SameActive(locks, others, lo, hi)
    ensures forall t :: lo <= t < hi ==> LockedTotalAt(locks, w, t) == LockedTotalAt(others, w, t)
  {
    forall t | lo <= t < hi
      ensures LockedTotalAt(locks, w, t) == LockedTotalAt(others, w, t)
    {
      assert forall tier :: LockedAt(locks, w, tier, t) == LockedAt(others, w, tier, t);
      assert LockedTotalAt(locks, w, t)
          == LockedAt(locks, w, LOCK_7D, t) + LockedAt(locks, w, LOCK_14D, t)
             + LockedAt(locks, w, LOCK_21D, t) + LockedAt(locks, w, LOCK_30D, t);
      assert LockedTotalAt(others, w, t)
          == LockedAt(others, w, LOCK_7D, t) + LockedAt(others, w, LOCK_14D, t)
             + LockedAt(others, w, LOCK_21D, t) + LockedAt(others, w, LOCK_30D, t);
    }
  }

  lemma CoverSplits(starts: seq<StartBalance>, whole: seq<Transfer>, locks: seq<Lock>, starts1: seq<StartBalance>,
        ts1: seq<Transfer>, locks1: seq<Lock>, starts2: seq<StartBalance>, ts2: seq<Transfer>, locks2: seq<Lock>,
        w: Address, e0: int, e1: int, e2: int)
    requires e0 <= e1 <= e2
    requires forall t :: e0 <= t < e1 ==> BalanceAt(starts1, ts1, w, t) == BalanceAt(starts, whole, w, t)
    requires forall t :: e1 <= t < e2 ==> BalanceAt(starts2, ts2, w, t) == BalanceAt(starts, whole, w, t)
    requires forall t :: e0 <= t < e1 ==> LockedTotalAt(locks1, w, t) == LockedTotalAt(locks, w, t)
    requires forall t :: e1 <= t < e2 ==> LockedTotalAt(locks2, w, t) == LockedTotalAt(locks, w, t)
    ensures Covered(starts, whole, locks, w, e0, e2) <==>
            Covered(starts1, ts1, locks1, w, e0, e1) && Covered(starts2, ts2, locks2, w, e1, e2)
  {
  }

  /**
   * The whole verdict joins: the sweeps of two epochs, the second started from the snapshots of the first, both
   * accept exactly when one sweep across both does, whichever locks each fixture carries besides those active in it.
   */
  lemma VerdictsJoin(cycle: Cycle, starts: seq<StartBalance>, locks1: seq<Lock>, c: WeightComputation,
        starts2: seq<StartBalance>, locks2: seq<Lock>, ts: seq<Transfer>, first: seq<Transfer>, second: seq<Transfer>,
        locks: seq<Lock>, e2: int)
    requires Continues(cycle, starts, first, locks1, c, starts2) && cycle.epochStart <= cycle.epochEnd <= e2
    requires Consistent(ts) && CutAt(ts, first, second, cycle.epochEnd)
    requires SameActive(locks1, locks, cycle.epochStart, cycle.epochEnd)
    requires SameActive(locks2, locks, cycle.epochEnd, e2)
    ensures Accepted(cycle.epochStart, e2, starts, Until(History(ts), e2), locks) <==>
            && Accepted(cycle.epochStart, cycle.epochEnd, starts, c.appliedTransfers, locks1)
            && Accepted(cycle.epochEnd, e2, starts2, Until(History(second), e2), locks2)
  {
    OverdraftsJoin(cycle, starts, locks1, c, starts2, ts, first, second, e2);
    OverlockedAnywhere(cycle.epochStart, e2, starts, Until(History(ts), e2), locks);
    OverlockedAnywhere(cycle.epochStart, cycle.epochEnd, starts, c.appliedTransfers, locks1);
    OverlockedAnywhere(cycle.epochEnd, e2, starts2, Until(History(second), e2), locks2);
    forall w
      ensures Covered(starts, Until(History(ts), e2), locks, w, cycle.epochStart, e2) <==>
              && Covered(starts, c.appliedTransfers, locks1, w, cycle.epochStart, cycle.epochEnd)
              && Covered(starts2, Until(History(second), e2), locks2, w, cycle.epochEnd, e2)
    {
      CoverJoins(cycle, starts, locks1, c, starts2, locks2, ts, first, second, locks, e2, w);
    }
  }

  // ---- ... and from any seed that continues the balances --------------------------------

  lemma SeededBalancesJoin(starts: seq<StartBalance>, starts2: seq<StartBalance>, ts: seq<Transfer>,
        first: seq<Transfer>, second: seq<Transfer>, e1: int, e2: int, w: Address, t: int)
    requires Consistent(ts) && CutAt(ts, first, second, e1) && e1 <= e2
    requires SeededFrom(starts2, starts, Until(History(first), e1), e1)
    ensures t < e1 ==>
            BalanceAt(starts, Until(History(first), e1), w, t) == BalanceAt(starts, Until(History(ts), e2), w, t)
    ensures e1 <= t < e2 ==>
              BalanceAt(starts2, Until(History(second), e2), w, t) == BalanceAt(starts, Until(History(ts), e2), w, t)
  {
    var h, applied, later := History(ts), Until(History(first), e1), Until(History(second), e2);
    JoinedHistory(ts, first, second, e1, e2);
    UntilElements(History(first), e1);
    UntilElements(History(second), e2);
    var f := (x: Transfer) => if x.timestamp <= t then Delta(x, w) else 0;
    TotalConcat(applied, later, f);
    if t < e1 {
      forall x | x in later
        ensures f(x) == 0
      {
        assert x in second;
      }
      TotalConstant(later, f, 0);
    } else {
      TotalAgree(applied, f, (x: Transfer) => if x.timestamp <= e1 - 1 then Delta(x, w) else 0);
    }
  }

  lemma JoinedHistory(ts: seq<Transfer>, first: seq<Transfer>, second: seq<Transfer>, e1: int, e2: int)
    requires Consistent(ts) && CutAt(ts, first, second, e1) && e1 <= e2
    ensures Consistent(first) && Consistent(second)
    ensures CanonicalOf(History(first), first) && CanonicalOf(History(second), second)
    ensures Until(History(ts), e2) == Until(History(first), e1) + Until(History(second), e2)
  {
    CutHistories(ts, first, second, e1);
    HistoryIsCanonical(ts);
    HistoryIsCanonical(first);
    HistoryIsCanonical(second);
    UntilElements(History(first), e1);
    UntilConcat(Until(History(first), e1), History(second), e2);
  }

  lemma {:induction false} UntilConcat(a: seq<Transfer>, b: seq<Transfer>, e: int)
    requires forall x :: x in a ==> x.timestamp < e
    ensures Until(a + b, e) == a + Until(b, e)
    decreases |a| + |b|
  {
    if b != [] {
      assert (a + b)[..|a + b| - 1] == a + b[..|b| - 1];
      UntilConcat(a, b[..|b| - 1], e);
    } else if a != [] {
      assert a + b == a && a == a[..|a| - 1] + [a[|a| - 1]];
      UntilConcat(a[..|a| - 1], [], e);
      assert a[..|a| - 1] + [] == a[..|a| - 1];
    }
  }

  lemma SeededSecondsJoin(starts: seq<StartBalance>, starts2: seq<StartBalance>, ts: seq<Transfer>,
        first: seq<Transfer>, second: seq<Transfer>, e0: int, e1: int, e2: int, w: Address)
    requires Consistent(ts) && CutAt(ts, first, second, e1) && e0 <= e1 <= e2
    requires SeededFrom(starts2, starts, Until(History(first), e1), e1)
    ensures Sum(BalanceCurve(starts, Until(History(first), e1), w), e0, e1)
            + Sum(BalanceCurve(starts2, Until(History(second), e2), w), e1, e2)
            == Sum(BalanceCurve(starts, Until(History(ts), e2), w), e0, e2)
  {
    var whole := BalanceCurve(starts, Until(History(ts), e2), w);
    forall t
      ensures t < e1 ==> BalanceCurve(starts, Until(History(first), e1), w)(t) == whole(t)
      ensures e1 <= t < e2 ==> BalanceCurve(starts2, Until(History(second), e2), w)(t) == whole(t)
    {
      SeededBalancesJoin(starts, starts2, ts, first, second, e1, e2, w, t);
    }
    SumAgree(BalanceCurve(starts, Until(History(first), e1), w), whole, e0, e1);
    SumAgree(BalanceCurve(starts2, Until(History(second), e2), w), whole, e1, e2);
    SumSplit(whole, e0, e1, e2);
  }

  lemma SeededOverdraftsJoin(starts: seq<StartBalance>, starts2: seq<StartBalance>, ts: seq<Transfer>,
        first: seq<Transfer>, second: seq<Transfer>, e1: int, e2: int)
    requires Consistent(ts) && CutAt(ts, first, second, e1) && e1 <= e2
    requires SeededFrom(starts2, starts, Until(History(first), e1), e1)
    ensures NoOverdraft(starts, Until(History(ts), e2)) <==>
            NoOverdraft(starts, Until(History(first), e1)) && NoOverdraft(starts2, Until(History(second), e2))
  {
    var applied, later := Until(History(first), e1), Until(History(second), e2);
    JoinedHistory(ts, first, second, e1, e2);
    UntilElements(History(first), e1);
    forall i, w | 0 <= i <= |later|
      ensures StartOf(starts, w) + Net((applied + later)[..|applied| + i], w)
              == StartOf(starts2, w) + Net(later[..i], w)
    {
      SeededPrefix(starts, starts2, applied, later, e1, i, w);
    }
    OverdraftsConcat(starts, starts2, applied, later);
  }

  lemma SeededPrefix(starts: seq<StartBalance>, starts2: seq<StartBalance>, applied: seq<Transfer>,
        later: seq<Transfer>, e1: int, i: nat, w: Address)
    requires i <= |later| && SeededFrom(starts2, starts, applied, e1)
    requires forall x :: x in applied ==> x.timestamp < e1
    ensures StartOf(starts, w) + Net((applied + later)[..|applied| + i], w) == StartOf(starts2, w) + Net(later[..i], w)
  {
    assert (applied + later)[..|applied| + i] == applied + later[..i];
    TotalConcat(applied, later[..i], (x: Transfer) => Delta(x, w));
    NetAtIsPrefix(applied, |applied|, w, e1 - 1);
    assert applied[..|applied|] == applied;
  }

  /** Paying from the start and paying after the first list are the same questions in two parts. */
  lemma OverdraftsConcat(starts: seq<StartBalance>, starts2: seq<StartBalance>, a: seq<Transfer>, b: seq<Transfer>)
    requires forall i, w :: 0 <= i <= |b| ==>
               StartOf(starts, w) + Net((a + b)[..|a| + i], w) == StartOf(starts2, w) + Net(b[..i], w)
    ensures NoOverdraft(starts, a + b) <==> NoOverdraft(starts, a) && NoOverdraft(starts2, b)
  {
    forall i | 0 <= i < |a|
      ensures CanPay(starts, a + b, i) <==> CanPay(starts, a, i)
    {
      assert (a + b)[i] == a[i] && (a + b)[..i] == a[..i];
    }
    forall i | 0 <= i < |b|
      ensures CanPay(starts, a + b, |a| + i) <==> CanPay(starts2, b, i)
    {
      assert (a + b)[|a| + i] == b[i];
    }
    assert forall k :: |a| <= k < |a + b| ==> (CanPay(starts, a + b, k) <==> CanPay(starts2, b, k - |a|)) by {
      forall k | |a| <= k < |a + b|
        ensures CanPay(starts, a + b, k) <==> CanPay(starts2, b, k - |a|)
      {
        assert k == |a| + (k - |a|);
      }
    }
  }
}
