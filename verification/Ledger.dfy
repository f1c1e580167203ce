/**
 * What a history means, second by second: the balance of a wallet and its active locks at
 * every instant, independently of how the sweep walks through the epoch.
 */
module Ledger {
  import opened PodModel
  import opened Sums

  // ---- Balances -------------------------------------------------------------------------

  /** Epoch-start balance; a later row for the same wallet overwrites an earlier one. */
  function StartOf(starts: seq<StartBalance>, w: Address): nat {
    if starts == [] then 0
    else
      var last := starts[|starts| - 1];
      if last.wallet == w then last.rawBalance else StartOf(starts[..|starts| - 1], w)
  }

  /** A wallet's start balance is that of its only row. */
  lemma {:induction false} Lookup(starts: seq<StartBalance>, w: Address)
    requires forall i, j :: 0 <= i < j < |starts| ==> starts[i].wallet != starts[j].wallet
    ensures forall b :: b in starts && b.wallet == w ==> StartOf(starts, w) == b.rawBalance
    ensures (forall b :: b in starts ==> b.wallet != w) ==> StartOf(starts, w) == 0
  {
    if starts != [] {
      var front, last := starts[..|starts| - 1], starts[|starts| - 1];
      assert starts == front + [last];
      Lookup(front, w);
    }
  }

  /** Effect of one transfer on one wallet; the zero address is never debited or credited. */
  function Delta(x: Transfer, w: Address): int {
    if w == ZERO_ADDRESS then 0
    else (if x.to == w then x.rawAmount else 0) - (if x.from == w then x.rawAmount else 0)
  }

  function Net(ts: seq<Transfer>, w: Address): int {
    Total(ts, (x: Transfer) => Delta(x, w))
  }

  /** Effect of the transfers that have happened by second t, whatever their place in the list. */
  function NetAt(ts: seq<Transfer>, w: Address, t: int): int {
    Total(ts, (x: Transfer) => if x.timestamp <= t then Delta(x, w) else 0)
  }

  function BalanceAt(starts: seq<StartBalance>, ts: seq<Transfer>, w: Address, t: int): int {
    StartOf(starts, w) + NetAt(ts, w, t)
  }

  /** The i-th sender can pay when its turn comes. */
  ghost predicate CanPay(starts: seq<StartBalance>, ts: seq<Transfer>, i: nat)
    requires i < |ts|
  {
    ts[i].from != ZERO_ADDRESS ==> ts[i].rawAmount <= StartOf(starts, ts[i].from) + Net(ts[..i], ts[i].from)
  }

  ghost predicate NoOverdraft(starts: seq<StartBalance>, ts: seq<Transfer>) {
    forall i :: 0 <= i < |ts| ==> CanPay(starts, ts, i)
  }

  // ---- Locks ----------------------------------------------------------------------------

  function BonusEnd(l: Lock): nat {
    if l.withdrawalTimestamp.Some? && l.withdrawalTimestamp.value < l.unlockTimestamp
    then l.withdrawalTimestamp.value
    else l.unlockTimestamp
  }

  predicate Active(l: Lock, t: int) {
    l.startTimestamp <= t < BonusEnd(l)
  }

  function LocksOf(locks: seq<Lock>, w: Address): seq<Lock> {
    if locks == [] then []
    else
      var last := locks[|locks| - 1];
      LocksOf(locks[..|locks| - 1], w) + if last.wallet == w then [last] else []
  }

  function ActiveInTier(locks: seq<Lock>, tier: Tier, t: int): nat {
    if locks == [] then 0
    else
      var last := locks[|locks| - 1];
      ActiveInTier(locks[..|locks| - 1], tier, t)
      + if last.tier == tier && Active(last, t) then last.rawPrincipal else 0
  }

  function LockedAt(locks: seq<Lock>, w: Address, tier: Tier, t: int): nat {
    ActiveInTier(LocksOf(locks, w), tier, t)
  }

  function ActiveTotal(locks: seq<Lock>, t: int): nat {
    ActiveInTier(locks, LOCK_7D, t) + ActiveInTier(locks, LOCK_14D, t)
    + ActiveInTier(locks, LOCK_21D, t) + ActiveInTier(locks, LOCK_30D, t)
  }

  function LockedTotalAt(locks: seq<Lock>, w: Address, t: int): nat {
    ActiveTotal(LocksOf(locks, w), t)
  }

  // ---- Locks in their own fields --------------------------------------------------------

  /** Started, not yet unlocked, and not withdrawn by then. */
  predicate Running(l: Lock, t: int) {
    l.startTimestamp <= t < l.unlockTimestamp && (l.withdrawalTimestamp.Some? ==> t < l.withdrawalTimestamp.value)
  }

  function TierPrincipal(w: Address, tier: Tier, t: int): Lock -> int {
    (l: Lock) => if l.wallet == w && l.tier == tier && Running(l, t) then l.rawPrincipal else 0
  }

  function Principal(w: Address, t: int): Lock -> int {
    (l: Lock) => if l.wallet == w && Running(l, t) then l.rawPrincipal else 0
  }

  /** At every second a wallet's locked principal in a tier is the sum over its running locks of that tier. */
  lemma {:induction false} LockedIsSumOfRunning(locks: seq<Lock>, w: Address, tier: Tier, t: int)
    ensures LockedAt(locks, w, tier, t) == Total(locks, TierPrincipal(w, tier, t))
  {
    if locks != [] {
      var front, last := locks[..|locks| - 1], locks[|locks| - 1];
      LockedIsSumOfRunning(front, w, tier, t);
      var mine := LocksOf(front, w);
      if last.wallet == w { assert (mine + [last])[..|mine|] == mine; } else { assert mine + [] == mine; }
    }
  }

  /** ... and over all tiers, the sum over all its running locks. */
  lemma {:induction false} LockedTotalIsSumOfRunning(locks: seq<Lock>, w: Address, t: int)
    ensures LockedTotalAt(locks, w, t) == Total(locks, Principal(w, t))
  {
    if locks != [] {
      var front, last := locks[..|locks| - 1], locks[|locks| - 1];
      LockedTotalIsSumOfRunning(front, w, t);
      var mine := LocksOf(front, w);
      if last.wallet == w { assert (mine + [last])[..|mine|] == mine; } else { assert mine + [] == mine; }
    }
  }

  // ---- Curves over the seconds of an epoch ----------------------------------------------

  function BalanceCurve(starts: seq<StartBalance>, ts: seq<Transfer>, w: Address): int -> int {
    t => BalanceAt(starts, ts, w, t)
  }

  function LockedCurve(locks: seq<Lock>, w: Address, tier: Tier): int -> int {
    t => LockedAt(locks, w, tier, t)
  }

  function FreeCurve(starts: seq<StartBalance>, ts: seq<Transfer>, locks: seq<Lock>, w: Address): int -> int {
    t => BalanceAt(starts, ts, w, t) - LockedTotalAt(locks, w, t)
  }

  // ---- Between breakpoints nothing changes ----------------------------------------------

  predicate Inside(lo: int, x: int, hi: int) {
    lo < x < hi
  }

  /** No transfer and no lock boundary falls strictly between the two instants. */
  ghost predicate Quiet(ts: seq<Transfer>, locks: seq<Lock>, lo: int, hi: int) {
    && (forall x :: x in ts ==> !Inside(lo, x.timestamp, hi))
    && (forall l :: l in locks ==> !Inside(lo, l.startTimestamp, hi) && !Inside(lo, BonusEnd(l), hi))
  }

  lemma NetStep(ts: seq<Transfer>, i: nat, w: Address)
    requires i < |ts|
    ensures Net(ts[..i + 1], w) == Net(ts[..i], w) + Delta(ts[i], w)
  {
    TotalStep(ts, i, (x: Transfer) => Delta(x, w));
  }

  /** When exactly the first c transfers have happened, the balance is theirs. */
  lemma NetAtIsPrefix(ts: seq<Transfer>, c: nat, w: Address, t: int)
    requires c <= |ts|
    requires forall i :: 0 <= i < c ==> ts[i].timestamp <= t
    requires forall i :: c <= i < |ts| ==> t < ts[i].timestamp
    ensures NetAt(ts, w, t) == Net(ts[..c], w)
  {
    var f := (x: Transfer) => if x.timestamp <= t then Delta(x, w) else 0;
    assert ts == ts[..c] + ts[c..];
    TotalConcat(ts[..c], ts[c..], f);
    TotalAgree(ts[..c], f, (x: Transfer) => Delta(x, w));
    TotalConstant(ts[c..], f, 0);
  }

  lemma {:induction false} LocksOfSubset(locks: seq<Lock>, w: Address)
    ensures forall l :: l in LocksOf(locks, w) ==> l in locks && l.wallet == w
  {
    if locks != [] { LocksOfSubset(locks[..|locks| - 1], w); }
  }

  lemma {:induction false} ActiveConstant(locks: seq<Lock>, tier: Tier, lo: int, t: int, hi: int)
    requires lo <= t < hi
    requires forall l :: l in locks ==> !Inside(lo, l.startTimestamp, hi) && !Inside(lo, BonusEnd(l), hi)
    ensures ActiveInTier(locks, tier, t) == ActiveInTier(locks, tier, lo)
  {
    if locks != [] {
      var last := locks[|locks| - 1];
      assert last in locks;
      ActiveConstant(locks[..|locks| - 1], tier, lo, t, hi);
    }
  }

  lemma QuietBalance(starts: seq<StartBalance>, ts: seq<Transfer>, locks: seq<Lock>, w: Address, lo: int, t: int,
        hi: int)
    requires lo <= t < hi && Quiet(ts, locks, lo, hi)
    ensures BalanceAt(starts, ts, w, t) == BalanceAt(starts, ts, w, lo)
  {
    TotalAgree(ts,
      (x: Transfer) => if x.timestamp <= t then Delta(x, w) else 0,
      (x: Transfer) => if x.timestamp <= lo then Delta(x, w) else 0);
  }

  lemma QuietLocks(ts: seq<Transfer>, locks: seq<Lock>, w: Address, lo: int, t: int, hi: int)
    requires lo <= t < hi && Quiet(ts, locks, lo, hi)
    ensures forall tier :: LockedAt(locks, w, tier, t) == LockedAt(locks, w, tier, lo)
    ensures LockedTotalAt(locks, w, t) == LockedTotalAt(locks, w, lo)
  {
    LocksOfSubset(locks, w);
    forall tier
      ensures LockedAt(locks, w, tier, t) == LockedAt(locks, w, tier, lo)
    {
      ActiveConstant(LocksOf(locks, w), tier, lo, t, hi);
    }
    assert forall tier :: ActiveInTier(LocksOf(locks, w), tier, t) == LockedAt(locks, w, tier, lo);
  }

  /** One quiet interval contributes value-at-its-start times its length to every integral. */
  lemma QuietInterval(starts: seq<StartBalance>, ts: seq<Transfer>, locks: seq<Lock>, w: Address, e0: int, lo: int,
        hi: int)
    requires e0 <= lo <= hi && Quiet(ts, locks, lo, hi)
    ensures Sum(BalanceCurve(starts, ts, w), e0, hi)
            == Sum(BalanceCurve(starts, ts, w), e0, lo) + BalanceAt(starts, ts, w, lo) * (hi - lo)
  {
    forall t | lo <= t < hi
      ensures BalanceCurve(starts, ts, w)(t) == BalanceAt(starts, ts, w, lo)
    {
      QuietBalance(starts, ts, locks, w, lo, t, hi);
    }
    StretchSum(BalanceCurve(starts, ts, w), e0, lo, hi, BalanceAt(starts, ts, w, lo));
  }

  lemma QuietFreeInterval(starts: seq<StartBalance>, ts: seq<Transfer>, locks: seq<Lock>, w: Address, e0: int,
        lo: int, hi: int)
    requires e0 <= lo <= hi && Quiet(ts, locks, lo, hi)
    ensures Sum(FreeCurve(starts, ts, locks, w), e0, hi)
            == Sum(FreeCurve(starts, ts, locks, w), e0, lo)
               + (BalanceAt(starts, ts, w, lo) - LockedTotalAt(locks, w, lo)) * (hi - lo)
  {
    var free := BalanceAt(starts, ts, w, lo) - LockedTotalAt(locks, w, lo);
    forall t | lo <= t < hi
      ensures FreeCurve(starts, ts, locks, w)(t) == free
    {
      QuietBalance(starts, ts, locks, w, lo, t, hi);
      QuietLocks(ts, locks, w, lo, t, hi);
    }
    StretchSum(FreeCurve(starts, ts, locks, w), e0, lo, hi, free);
  }

  lemma QuietLockedInterval(ts: seq<Transfer>, locks: seq<Lock>, w: Address, tier: Tier, e0: int, lo: int, hi: int)
    requires e0 <= lo <= hi && Quiet(ts, locks, lo, hi)
    ensures Sum(LockedCurve(locks, w, tier), e0, hi)
            == Sum(LockedCurve(locks, w, tier), e0, lo) + LockedAt(locks, w, tier, lo) * (hi - lo)
  {
    forall t | lo <= t < hi
      ensures LockedCurve(locks, w, tier)(t) == LockedAt(locks, w, tier, lo)
    {
      QuietLocks(ts, locks, w, lo, t, hi);
    }
    StretchSum(LockedCurve(locks, w, tier), e0, lo, hi, LockedAt(locks, w, tier, lo));
  }

  lemma StretchSum(f: int -> int, a: int, lo: int, hi: int, c: int)
    requires a <= lo <= hi
    requires forall t :: lo <= t < hi ==> f(t) == c
    ensures Sum(f, a, hi) == Sum(f, a, lo) + c * (hi - lo)
  {
    SumSplit(f, a, lo, hi);
    SumConstant(f, lo, hi, c);
  }
}
