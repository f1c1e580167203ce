/**
 * The time-weighted balance sweep over one epoch [epochStart, epochEnd): transfers are applied
 * in place, locks are evaluated at breakpoints only, and integrals are floored at the end.
 */
module Twab {
  import opened Results
  import opened PodModel
  import opened Sums
  import opened Sorting
  import opened Canonical
  import opened Ledger

  datatype TierRecord = TierRecord(d7: int, d14: int, d21: int, d30: int) {
    function Get(tier: Tier): int {
      match tier
      case LOCK_7D => d7
      case LOCK_14D => d14
      case LOCK_21D => d21
      case LOCK_30D => d30
    }

    function Plus(tier: Tier, v: int): (r: TierRecord)
      ensures forall k :: r.Get(k) == Get(k) + if k == tier then v else 0
    {
      match tier
      case LOCK_7D => this.(d7 := d7 + v)
      case LOCK_14D => this.(d14 := d14 + v)
      case LOCK_21D => this.(d21 := d21 + v)
      case LOCK_30D => this.(d30 := d30 + v)
    }

    function Sum(): int {
      d7 + d14 + d21 + d30
    }
  }

  const ZERO_TIER_RECORD := TierRecord(0, 0, 0, 0)

  datatype WalletWeight = WalletWeight(
    wallet: Address, snapshotBalance: int, baseTwab: int, unlockedTwab: int,
    lockedTwabByTier: TierRecord, effectiveWeight: int)

  datatype WeightComputation = WeightComputation(
    weights: map<Address, WalletWeight>, appliedTransfers: seq<Transfer>)

  /** floor(a * b / denom). */
  function MulDivFloor(a: int, b: int, denom: int): int
    requires denom > 0
  {
    a * b / denom
  }

  function GetOr<V>(m: map<Address, V>, w: Address, default: V): V {
    if w in m then m[w] else default
  }

  // ---- The naive meaning of a weight: sums over every second ----------------------------

  function LockedTwab(e0: int, e1: int, locks: seq<Lock>, w: Address, tier: Tier): int {
    Sum(LockedCurve(locks, w, tier), e0, e1) / EPOCH_SECONDS
  }

  function Bonus(locked: TierRecord): int {
    MulDivFloor(locked.d7, MultiplierBps(LOCK_7D), BPS_DENOMINATOR)
    + MulDivFloor(locked.d14, MultiplierBps(LOCK_14D), BPS_DENOMINATOR)
    + MulDivFloor(locked.d21, MultiplierBps(LOCK_21D), BPS_DENOMINATOR)
    + MulDivFloor(locked.d30, MultiplierBps(LOCK_30D), BPS_DENOMINATOR)
  }

  function NaiveWeight(e0: int, e1: int, starts: seq<StartBalance>, ts: seq<Transfer>, locks: seq<Lock>,
        w: Address): WalletWeight {
    var unlocked := Sum(FreeCurve(starts, ts, locks, w), e0, e1) / EPOCH_SECONDS;
    var locked := TierRecord(
      LockedTwab(e0, e1, locks, w, LOCK_7D), LockedTwab(e0, e1, locks, w, LOCK_14D),
      LockedTwab(e0, e1, locks, w, LOCK_21D), LockedTwab(e0, e1, locks, w, LOCK_30D));
    WalletWeight(w, BalanceAt(starts, ts, w, e1 - 1),
                 Sum(BalanceCurve(starts, ts, w), e0, e1) / EPOCH_SECONDS,
                 unlocked, locked, unlocked + Bonus(locked))
  }

  /** No wallet ever has more actively locked than it holds, at any second of the epoch. */
  ghost predicate Covered(starts: seq<StartBalance>, ts: seq<Transfer>, locks: seq<Lock>, w: Address, e0: int,
        e1: int) {
    forall t :: e0 <= t < e1 ==> LockedTotalAt(locks, w, t) <= BalanceAt(starts, ts, w, t)
  }

  ghost predicate Relevant(starts: seq<StartBalance>, ts: seq<Transfer>, locks: seq<Lock>, w: Address) {
    || (exists b :: b in starts && b.wallet == w)
    || (w != ZERO_ADDRESS && exists x :: x in ts && (x.from == w || x.to == w))
    || (exists l :: l in locks && l.wallet == w)
  }

  ghost predicate Overlocked(e0: int, e1: int, starts: seq<StartBalance>, ts: seq<Transfer>, locks: seq<Lock>) {
    exists w :: Relevant(starts, ts, locks, w) && !Covered(starts, ts, locks, w, e0, e1)
  }

  /** The verdict of the sweep, stated for every second of the epoch. */
  ghost predicate Accepted(e0: int, e1: int, starts: seq<StartBalance>, ts: seq<Transfer>, locks: seq<Lock>) {
    NoOverdraft(starts, ts) && !Overlocked(e0, e1, starts, ts, locks)
  }

  ghost predicate OverlockedAt(starts: seq<StartBalance>, ts: seq<Transfer>, locks: seq<Lock>, t: int) {
    exists w :: Relevant(starts, ts, locks, w) && BalanceAt(starts, ts, w, t) < LockedTotalAt(locks, w, t)
  }

  ghost predicate PaidBy(starts: seq<StartBalance>, ts: seq<Transfer>, t: int) {
    forall i :: 0 <= i < |ts| && ts[i].timestamp <= t ==> CanPay(starts, ts, i)
  }

  /** Some sender cannot pay, and until then no wallet was over-locked. */
  ghost predicate OverdrawnFirst(e0: int, starts: seq<StartBalance>, ts: seq<Transfer>, locks: seq<Lock>) {
    exists i :: 0 <= i < |ts| && !CanPay(starts, ts, i) && !Overlocked(e0, ts[i].timestamp, starts, ts, locks)
  }

  /** Some wallet is over-locked at a second by which every sender so far could pay. */
  ghost predicate OverlockedFirst(e0: int, e1: int, starts: seq<StartBalance>, ts: seq<Transfer>, locks: seq<Lock>) {
    exists t :: e0 <= t < e1 && OverlockedAt(starts, ts, locks, t) && PaidBy(starts, ts, t)
  }

  /** Only one of the two can come first. */
  lemma OneFaultFirst(e0: int, e1: int, starts: seq<StartBalance>, ts: seq<Transfer>, locks: seq<Lock>)
    ensures !(OverdrawnFirst(e0, starts, ts, locks) && OverlockedFirst(e0, e1, starts, ts, locks))
    ensures OverdrawnFirst(e0, starts, ts, locks) ==> !NoOverdraft(starts, ts)
    ensures OverlockedFirst(e0, e1, starts, ts, locks) ==> Overlocked(e0, e1, starts, ts, locks)
  {
    if OverlockedFirst(e0, e1, starts, ts, locks) {
      var t :| e0 <= t < e1 && OverlockedAt(starts, ts, locks, t) && PaidBy(starts, ts, t);
      var w :| Relevant(starts, ts, locks, w) && BalanceAt(starts, ts, w, t) < LockedTotalAt(locks, w, t);
      forall e | t < e
        ensures Overlocked(e0, e, starts, ts, locks)
      {
        assert !Covered(starts, ts, locks, w, e0, e);
      }
    }
  }

  /** The transfers before the given end, in order. */
  function Until(ts: seq<Transfer>, e1: int): seq<Transfer> {
    if ts == [] then []
    else
      var last := ts[|ts| - 1];
      Until(ts[..|ts| - 1], e1) + if last.timestamp < e1 then [last] else []
  }

  lemma {:induction false} UntilIsPrefix(ts: seq<Transfer>, e1: int)
    requires Monotone(ts)
    ensures var c := |Until(ts, e1)|;
            && c <= |ts| && Until(ts, e1) == ts[..c]
            && (forall i :: 0 <= i < c ==> ts[i].timestamp < e1)
            && (forall i :: c <= i < |ts| ==> e1 <= ts[i].timestamp)
  {
    if ts != [] {
      var n := |ts| - 1;
      if ts[n].timestamp < e1 {
        UntilAll(ts, e1);
      } else {
        UntilIsPrefix(ts[..n], e1);
        var c := |Until(ts[..n], e1)|;
        assert ts[..n][..c] == ts[..c];
      }
    }
  }

  lemma {:induction false} UntilAll(ts: seq<Transfer>, e1: int)
    requires forall i :: 0 <= i < |ts| ==> ts[i].timestamp < e1
    ensures Until(ts, e1) == ts
  {
    if ts != [] {
      UntilAll(ts[..|ts| - 1], e1);
      assert ts == ts[..|ts| - 1] + [ts[|ts| - 1]];
    }
  }

  // ---- Preparation ----------------------------------------------------------------------

  method SeedBalances(starts: seq<StartBalance>, inEpoch: seq<Transfer>, locks: seq<Lock>)
      returns (balances: map<Address, int>, relevant: seq<Address>)
    ensures forall w :: GetOr(balances, w, 0) == StartOf(starts, w)
    ensures Distinct(relevant)
    ensures forall w :: w in relevant <==> Relevant(starts, inEpoch, locks, w)
  {
    balances, relevant := map[], [];
    for i := 0 to |starts|
      invariant Distinct(relevant)
      invariant forall w :: GetOr(balances, w, 0) == StartOf(starts[..i], w)
      invariant forall w :: w in relevant <==> Relevant(starts[..i], [], [], w)
    {
      assert starts[..i + 1] == starts[..i] + [starts[i]];
      balances := balances[starts[i].wallet := starts[i].rawBalance];
      relevant := AddOnce(relevant, starts[i].wallet);
    }
    assert starts[..|starts|] == starts;
    for i := 0 to |inEpoch|
      invariant Distinct(relevant)
      invariant forall w :: w in relevant <==> Relevant(starts, inEpoch[..i], [], w)
    {
      var x := inEpoch[i];
      assert inEpoch[..i + 1] == inEpoch[..i] + [x];
      if x.from != ZERO_ADDRESS { relevant := AddOnce(relevant, x.from); }
      if x.to != ZERO_ADDRESS { relevant := AddOnce(relevant, x.to); }
    }
    assert inEpoch[..|inEpoch|] == inEpoch;
    for i := 0 to |locks|
      invariant Distinct(relevant)
      invariant forall w :: w in relevant <==> Relevant(starts, inEpoch, locks[..i], w)
    {
      assert locks[..i + 1] == locks[..i] + [locks[i]];
      relevant := AddOnce(relevant, locks[i].wallet);
    }
    assert locks[..|locks|] == locks;
  }

  method GroupLocks(locks: seq<Lock>) returns (byWallet: map<Address, seq<Lock>>)
    ensures forall w :: GetOr(byWallet, w, []) == LocksOf(locks, w)
  {
    byWallet := map[];
    for i := 0 to |locks|
      invariant forall w :: GetOr(byWallet, w, []) == LocksOf(locks[..i], w)
    {
      var l := locks[i];
      assert locks[..i + 1][..i] == locks[..i];
      byWallet := byWallet[l.wallet := GetOr(byWallet, l.wallet, []) + [l]];
    }
    assert locks[..|locks|] == locks;
  }

  predicate Lt(a: int, b: int) { a < b }

  predicate Leq(a: int, b: int) { a <= b }

  /** Breakpoints of the epoch, ascending, closed by its end. */
  ghost predicate Breakpoints(times: seq<int>, e0: int, e1: int, ts: seq<Transfer>, locks: seq<Lock>) {
    && |times| >= 2 && times[0] == e0 && times[|times| - 1] == e1
    && Ordered(times, Lt)
    && (forall x :: x in ts ==> x.timestamp in times[..|times| - 1])
    && (forall k :: 0 <= k < |times| - 1 ==> Quiet(ts, locks, times[k], times[k + 1]))
  }

  method CollectBreakpoints(e0: int, e1: int, inEpoch: seq<Transfer>, locks: seq<Lock>) returns (sortedTimes: seq<int>)
    requires e0 < e1
    requires forall x :: x in inEpoch ==> e0 <= x.timestamp < e1
    ensures Breakpoints(sortedTimes, e0, e1, inEpoch, locks)
  {
    var times: seq<int> := [e0];
    for i := 0 to |inEpoch|
      invariant Distinct(times) && e0 in times && forall t :: t in times ==> e0 <= t < e1
      invariant forall x :: x in inEpoch[..i] ==> x.timestamp in times
    {
      times := AddOnce(times, inEpoch[i].timestamp);
    }
    for i := 0 to |locks|
      invariant Distinct(times) && e0 in times && forall t :: t in times ==> e0 <= t < e1
      invariant forall x :: x in inEpoch ==> x.timestamp in times
      invariant forall l :: l in locks[..i] && e0 < l.startTimestamp < e1 ==> l.startTimestamp in times
      invariant forall l :: l in locks[..i] && e0 < BonusEnd(l) < e1 ==> BonusEnd(l) in times
    {
      var l := locks[i];
      var boundaries := [l.startTimestamp, l.unlockTimestamp, BonusEnd(l)];
      for j := 0 to 3
        invariant Distinct(times) && e0 in times && forall t :: t in times ==> e0 <= t < e1
        invariant forall x :: x in inEpoch ==> x.timestamp in times
        invariant forall m :: m in locks[..i] && e0 < m.startTimestamp < e1 ==> m.startTimestamp in times
        invariant forall m :: m in locks[..i] && e0 < BonusEnd(m) < e1 ==> BonusEnd(m) in times
        invariant j >= 1 && e0 < l.startTimestamp < e1 ==> l.startTimestamp in times
        invariant j >= 3 && e0 < BonusEnd(l) < e1 ==> BonusEnd(l) in times
      {
        if e0 < boundaries[j] < e1 { times := AddOnce(times, boundaries[j]); }
      }
      if l.withdrawalTimestamp.Some? && e0 < l.withdrawalTimestamp.value < e1 {
        times := AddOnce(times, l.withdrawalTimestamp.value);
      }
    }
    sortedTimes := Sort(times, Leq) + [e1];
    SortedBreakpoints(times, e0, e1, inEpoch, locks);
  }

  lemma SortedBreakpoints(times: seq<int>, e0: int, e1: int, ts: seq<Transfer>, locks: seq<Lock>)
    requires Distinct(times) && e0 in times && forall t :: t in times ==> e0 <= t < e1
    requires forall x :: x in ts ==> x.timestamp in times
    requires forall l :: l in locks && e0 < l.startTimestamp < e1 ==> l.startTimestamp in times
    requires forall l :: l in locks && e0 < BonusEnd(l) < e1 ==> BonusEnd(l) in times
    ensures Breakpoints(Sort(times, Leq) + [e1], e0, e1, ts, locks)
  {
    var sorted := Sort(times, Leq);
    var all := sorted + [e1];
    SortStrictly(times);
    CloseTimes(sorted, e0, e1);
    assert all[..|all| - 1] == sorted;
    forall k | 0 <= k < |all| - 1
      ensures Quiet(ts, locks, all[k], all[k + 1])
    {
      GapIsEmpty(sorted, e1, k);
      GapIsQuiet(sorted, e0, e1, ts, locks, all[k], all[k + 1]);
    }
  }

  lemma CloseTimes(sorted: seq<int>, e0: int, e1: int)
    requires Ordered(sorted, Lt) && e0 in sorted && forall t :: t in sorted ==> e0 <= t < e1
    ensures sorted[0] == e0 && Ordered(sorted + [e1], Lt)
    ensures forall k :: 0 <= k <= |sorted| ==> e0 <= (sorted + [e1])[k] <= e1
  {
    assert forall k :: 0 <= k < |sorted| ==> sorted[k] in sorted;
    var i :| 0 <= i < |sorted| && sorted[i] == e0;
    assert i == 0 || Lt(sorted[0], sorted[i]);
  }

  lemma SortStrictly(times: seq<int>)
    requires Distinct(times)
    ensures Ordered(Sort(times, Leq), Lt)
  {
    SortKeepsDistinct(times, Leq);
    var sorted := Sort(times, Leq);
    forall i, j | 0 <= i < j < |sorted|
      ensures Lt(sorted[i], sorted[j])
    {
      assert Leq(sorted[i], sorted[j]);
    }
  }

  lemma GapIsEmpty(sorted: seq<int>, e1: int, k: nat)
    requires Ordered(sorted, Lt) && k < |sorted| && forall t :: t in sorted ==> t < e1
    ensures forall t :: t in sorted ==> !Inside((sorted + [e1])[k], t, (sorted + [e1])[k + 1])
  {
    forall t | t in sorted
      ensures !Inside((sorted + [e1])[k], t, (sorted + [e1])[k + 1])
    {
      var i :| 0 <= i < |sorted| && sorted[i] == t;
      if k < i && k + 1 < |sorted| {
        assert i == k + 1 || Lt(sorted[k + 1], sorted[i]);
      }
    }
  }

  lemma GapIsQuiet(times: seq<int>, e0: int, e1: int, ts: seq<Transfer>, locks: seq<Lock>, lo: int, hi: int)
    requires e0 <= lo && hi <= e1 && forall t :: t in times ==> !Inside(lo, t, hi)
    requires forall x :: x in ts ==> x.timestamp in times
    requires forall l :: l in locks && e0 < l.startTimestamp < e1 ==> l.startTimestamp in times
    requires forall l :: l in locks && e0 < BonusEnd(l) < e1 ==> BonusEnd(l) in times
    ensures Quiet(ts, locks, lo, hi)
  {
  }

  // ---- One step -------------------------------------------------------------------------

  method ApplyTransfer(balances: map<Address, int>, tr: Transfer) returns (r: Result<map<Address, int>, ErrorCode>)
    ensures r.Success? <==> tr.from == ZERO_ADDRESS || tr.rawAmount <= GetOr(balances, tr.from, 0)
    ensures r.Success? ==> forall w :: GetOr(r.value, w, 0) == GetOr(balances, w, 0) + Delta(tr, w)
    ensures r.Failure? ==> r.error == NEGATIVE_BALANCE
  {
    var out := balances;
    if tr.from != ZERO_ADDRESS {
      var next := GetOr(out, tr.from, 0) - tr.rawAmount;
      if next < 0 { return Failure(NEGATIVE_BALANCE); }
      out := out[tr.from := next];
    }
    if tr.to != ZERO_ADDRESS {
      out := out[tr.to := GetOr(out, tr.to, 0) + tr.rawAmount];
    }
    return Success(out);
  }

  method ActiveLockedByTier(locks: seq<Lock>, t: int) returns (out: TierRecord)
    ensures forall tier :: out.Get(tier) == ActiveInTier(locks, tier, t)
  {
    out := ZERO_TIER_RECORD;
    for i := 0 to |locks|
      invariant forall tier :: out.Get(tier) == ActiveInTier(locks[..i], tier, t)
    {
      var l := locks[i];
      assert locks[..i + 1][..i] == locks[..i];
      var withdrawal := l.withdrawalTimestamp;
      var bonusEnd := if withdrawal.Some? && withdrawal.value < l.unlockTimestamp then withdrawal.value
                      else l.unlockTimestamp;
      if l.startTimestamp <= t && t < bonusEnd {
        out := out.Plus(l.tier, l.rawPrincipal);
      }
    }
    assert locks[..|locks|] == locks;
  }

  function Bump(m: map<Address, int>, w: Address, v: int): (r: map<Address, int>)
    ensures forall x :: GetOr(r, x, 0) == GetOr(m, x, 0) + if x == w then v else 0
  {
    if v != 0 then m[w := GetOr(m, w, 0) + v] else m
  }

  /** Place of a tier in SUPPORTED_LOCK_TIERS. */
  function TierIndex(tier: Tier): (i: nat)
    ensures i < |SUPPORTED_LOCK_TIERS| && SUPPORTED_LOCK_TIERS[i] == tier
  {
    match tier
    case LOCK_7D => 0
    case LOCK_14D => 1
    case LOCK_21D => 2
    case LOCK_30D => 3
  }

  method BumpLocked(locked: map<Address, TierRecord>, w: Address, active: TierRecord, dur: int)
        returns (r: map<Address, TierRecord>)
    ensures forall x :: x != w ==> GetOr(r, x, ZERO_TIER_RECORD) == GetOr(locked, x, ZERO_TIER_RECORD)
    ensures forall tier :: GetOr(r, w, ZERO_TIER_RECORD).Get(tier)
                           == GetOr(locked, w, ZERO_TIER_RECORD).Get(tier) + active.Get(tier) * dur
  {
    r := locked;
    for i := 0 to |SUPPORTED_LOCK_TIERS|
      invariant forall x :: x != w ==> GetOr(r, x, ZERO_TIER_RECORD) == GetOr(locked, x, ZERO_TIER_RECORD)
      invariant forall tier :: GetOr(r, w, ZERO_TIER_RECORD).Get(tier)
                  == GetOr(locked, w, ZERO_TIER_RECORD).Get(tier)
                     + if TierIndex(tier) < i then active.Get(tier) * dur else 0
    {
      var tier := SUPPORTED_LOCK_TIERS[i];
      assert forall k: Tier :: TierIndex(k) == i <==> k == tier;
      if active.Get(tier) != 0 {
        r := r[w := GetOr(r, w, ZERO_TIER_RECORD).Plus(tier, active.Get(tier) * dur)];
      }
    }
  }

  // ---- The sweep ------------------------------------------------------------------------

  /** Per-wallet integrals accumulated so far; an absent wallet has accumulated nothing. */
  datatype Integrals = Integrals(
    base: map<Address, int>, unlocked: map<Address, int>, locked: map<Address, TierRecord>)

  /** The integrals of w grew by one interval of constant balance and constant locks. */
  ghost predicate Grown(was: Integrals, now: Integrals, w: Address, balance: int, locks: seq<Lock>, t: int, dur: int) {
    && GetOr(now.base, w, 0) == GetOr(was.base, w, 0) + balance * dur
    && GetOr(now.unlocked, w, 0) == GetOr(was.unlocked, w, 0) + (balance - ActiveTotal(locks, t)) * dur
    && forall tier :: GetOr(now.locked, w, ZERO_TIER_RECORD).Get(tier)
                      == GetOr(was.locked, w, ZERO_TIER_RECORD).Get(tier) + ActiveInTier(locks, tier, t) * dur
  }

  ghost predicate SameFor(was: Integrals, now: Integrals, w: Address) {
    && GetOr(now.base, w, 0) == GetOr(was.base, w, 0)
    && GetOr(now.unlocked, w, 0) == GetOr(was.unlocked, w, 0)
    && GetOr(now.locked, w, ZERO_TIER_RECORD) == GetOr(was.locked, w, ZERO_TIER_RECORD)
  }

  lemma GrownAround(was: Integrals, mid: Integrals, now: Integrals, w: Address, balance: int, locks: seq<Lock>,
        t: int, dur: int)
    requires || (Grown(was, mid, w, balance, locks, t, dur) && SameFor(mid, now, w))
             || (SameFor(was, mid, w) && Grown(mid, now, w, balance, locks, t, dur))
    ensures Grown(was, now, w, balance, locks, t, dur)
  {
  }

  method AccrueWallet(sofar: Integrals, w: Address, bal: int, locks: seq<Lock>, tCur: int, dur: int)
      returns (r: Result<Integrals, ErrorCode>)
    ensures r.Success? <==> ActiveTotal(locks, tCur) <= bal
    ensures r.Success? ==> Grown(sofar, r.value, w, bal, locks, tCur, dur)
    ensures r.Success? ==> forall x :: x != w ==> SameFor(sofar, r.value, x)
    ensures r.Failure? ==> r.error == LOCK_EXCEEDS_BALANCE
  {
    var active := ActiveLockedByTier(locks, tCur);
    var free := bal - active.Sum();
    assert active.Sum() == active.Get(LOCK_7D) + active.Get(LOCK_14D) + active.Get(LOCK_21D) + active.Get(LOCK_30D);
    if free < 0 { return Failure(LOCK_EXCEEDS_BALANCE); }
    var locked := BumpLocked(sofar.locked, w, active, dur);
    return Success(Integrals(Bump(sofar.base, w, bal * dur), Bump(sofar.unlocked, w, free * dur), locked));
  }

  method Accrue(relevant: seq<Address>, balances: map<Address, int>, byWallet: map<Address, seq<Lock>>, tCur: int,
        dur: int, before: Integrals)
      returns (r: Result<Integrals, ErrorCode>)
    requires Distinct(relevant)
    ensures r.Success? <==>
            forall w :: w in relevant ==> ActiveTotal(GetOr(byWallet, w, []), tCur) <= GetOr(balances, w, 0)
    ensures r.Success? ==> forall w :: w in relevant ==>
              Grown(before, r.value, w, GetOr(balances, w, 0), GetOr(byWallet, w, []), tCur, dur)
    ensures r.Failure? ==> r.error == LOCK_EXCEEDS_BALANCE
  {
    var sofar := before;
    for i := 0 to |relevant|
      invariant forall j :: 0 <= j < i ==>
                ActiveTotal(GetOr(byWallet, relevant[j], []), tCur) <= GetOr(balances, relevant[j], 0)
      invariant forall j :: 0 <= j < i ==>
                  Grown(before, sofar, relevant[j], GetOr(balances, relevant[j], 0), GetOr(byWallet, relevant[j], []),
                    tCur, dur)
      invariant forall j :: i <= j < |relevant| ==> SameFor(before, sofar, relevant[j])
    {
      var w := relevant[i];
      var step := AccrueWallet(sofar, w, GetOr(balances, w, 0), GetOr(byWallet, w, []), tCur, dur);
      if step.Failure? { return step; }
      forall j | 0 <= j < i
        ensures Grown(before, step.value, relevant[j], GetOr(balances, relevant[j], 0),
                GetOr(byWallet, relevant[j], []), tCur, dur)
      {
        GrownAround(before, sofar, step.value, relevant[j], GetOr(balances, relevant[j], 0),
          GetOr(byWallet, relevant[j], []), tCur, dur);
      }
      forall j | i < j < |relevant|
        ensures SameFor(before, step.value, relevant[j])
      {
        assert SameFor(sofar, step.value, relevant[j]);
      }
      GrownAround(before, sofar, step.value, w, GetOr(balances, w, 0), GetOr(byWallet, w, []), tCur, dur);
      sofar := step.value;
    }
    return Success(sofar);
  }

  /** Apply, in place, every pending transfer stamped tCur. */
  method ApplyDue(ghost starts: seq<StartBalance>, inEpoch: seq<Transfer>, balances0: map<Address, int>, cursor0: nat,
        tCur: int)
      returns (r: Result<map<Address, int>, ErrorCode>, cursor: nat)
    requires Monotone(inEpoch) && cursor0 <= |inEpoch|
    requires forall i :: 0 <= i < cursor0 ==> inEpoch[i].timestamp <= tCur
    requires forall i :: cursor0 <= i < |inEpoch| ==> tCur <= inEpoch[i].timestamp
    requires forall w :: GetOr(balances0, w, 0) == StartOf(starts, w) + Net(inEpoch[..cursor0], w)
    requires NoOverdraft(starts, inEpoch[..cursor0])
    ensures cursor <= |inEpoch|
    ensures r.Success? ==> forall i :: 0 <= i < cursor ==> inEpoch[i].timestamp <= tCur
    ensures r.Success? ==> forall i :: cursor <= i < |inEpoch| ==> tCur < inEpoch[i].timestamp
    ensures r.Success? ==> forall w :: GetOr(r.value, w, 0) == StartOf(starts, w) + Net(inEpoch[..cursor], w)
    ensures r.Success? ==> NoOverdraft(starts, inEpoch[..cursor])
    ensures r.Failure? ==> r.error == NEGATIVE_BALANCE
    ensures r.Failure? ==> exists i :: 0 <= i < |inEpoch| && inEpoch[i].timestamp == tCur && !CanPay(starts, inEpoch, i)
  {
    var balances := balances0;
    cursor := cursor0;
    while cursor < |inEpoch| && inEpoch[cursor].timestamp == tCur
      invariant cursor0 <= cursor <= |inEpoch|
      invariant forall i :: 0 <= i < cursor ==> inEpoch[i].timestamp <= tCur
      invariant forall w :: GetOr(balances, w, 0) == StartOf(starts, w) + Net(inEpoch[..cursor], w)
      invariant NoOverdraft(starts, inEpoch[..cursor])
    {
      var applied := ApplyTransfer(balances, inEpoch[cursor]);
      if applied.Failure? {
        assert !CanPay(starts, inEpoch, cursor);
        return applied, cursor;
      }
      forall w
        ensures Net(inEpoch[..cursor + 1], w) == Net(inEpoch[..cursor], w) + Delta(inEpoch[cursor], w)
      {
        NetStep(inEpoch, cursor, w);
      }
      OverdraftStep(starts, inEpoch, cursor);
      balances := applied.value;
      cursor := cursor + 1;
    }
    return Success(balances), cursor;
  }

  lemma OverdraftStep(starts: seq<StartBalance>, ts: seq<Transfer>, c: nat)
    requires c < |ts| && NoOverdraft(starts, ts[..c])
    requires ts[c].from != ZERO_ADDRESS ==> ts[c].rawAmount <= StartOf(starts, ts[c].from) + Net(ts[..c], ts[c].from)
    ensures NoOverdraft(starts, ts[..c + 1])
  {
    var next := ts[..c + 1];
    forall i | 0 <= i < |next|
      ensures CanPay(starts, next, i)
    {
      assert next[..i] == ts[..i];
      if i < c {
        assert ts[..c][..i] == ts[..i] && CanPay(starts, ts[..c], i);
      }
    }
  }

  /** The integrals of w are the second-by-second sums up to time t. */
  ghost predicate Integrated(starts: seq<StartBalance>, ts: seq<Transfer>, locks: seq<Lock>, e0: int, t: int,
        sofar: Integrals, w: Address) {
    && GetOr(sofar.base, w, 0) == Sum(BalanceCurve(starts, ts, w), e0, t)
    && GetOr(sofar.unlocked, w, 0) == Sum(FreeCurve(starts, ts, locks, w), e0, t)
    && forall tier :: GetOr(sofar.locked, w, ZERO_TIER_RECORD).Get(tier) == Sum(LockedCurve(locks, w, tier), e0, t)
  }

  lemma IntegrateInterval(starts: seq<StartBalance>, ts: seq<Transfer>, locks: seq<Lock>, e0: int, lo: int, hi: int,
        was: Integrals, now: Integrals, w: Address)
    requires e0 <= lo <= hi && Quiet(ts, locks, lo, hi)
    requires Integrated(starts, ts, locks, e0, lo, was, w)
    requires Grown(was, now, w, BalanceAt(starts, ts, w, lo), LocksOf(locks, w), lo, hi - lo)
    ensures Integrated(starts, ts, locks, e0, hi, now, w)
  {
    QuietInterval(starts, ts, locks, w, e0, lo, hi);
    QuietFreeInterval(starts, ts, locks, w, e0, lo, hi);
    forall tier
      ensures GetOr(now.locked, w, ZERO_TIER_RECORD).Get(tier) == Sum(LockedCurve(locks, w, tier), e0, hi)
    {
      QuietLockedInterval(ts, locks, w, tier, e0, lo, hi);
    }
  }

  lemma CoverInterval(starts: seq<StartBalance>, ts: seq<Transfer>, locks: seq<Lock>, e0: int, lo: int, hi: int,
        w: Address)
    requires e0 <= lo <= hi && Quiet(ts, locks, lo, hi)
    requires Covered(starts, ts, locks, w, e0, lo)
    requires LockedTotalAt(locks, w, lo) <= BalanceAt(starts, ts, w, lo)
    ensures Covered(starts, ts, locks, w, e0, hi)
  {
    forall t | e0 <= t < hi
      ensures LockedTotalAt(locks, w, t) <= BalanceAt(starts, ts, w, t)
    {
      if lo <= t {
        QuietBalance(starts, ts, locks, w, lo, t, hi);
        QuietLocks(ts, locks, w, lo, t, hi);
      }
    }
  }

  method ComputeWeights(cycle: Cycle, starts: seq<StartBalance>, transfers: seq<Transfer>, locks: seq<Lock>)
      returns (r: Result<WeightComputation, ErrorCode>)
    requires cycle.epochStart < cycle.epochEnd
    requires forall x :: x in transfers ==> cycle.epochStart <= x.timestamp
    ensures r.Success? <==>
            && Consistent(transfers)
            && Accepted(cycle.epochStart, cycle.epochEnd, starts, Until(History(transfers), cycle.epochEnd), locks)
    ensures r.Success? ==> WeighedNaively(cycle, starts, transfers, locks, r.value)
    ensures !Consistent(transfers) ==> Verdict(transfers).Failure? && r == Failure(Verdict(transfers).error)
    ensures r.Failure? && r.error == NEGATIVE_BALANCE <==>
            && Consistent(transfers)
            && OverdrawnFirst(cycle.epochStart, starts, Until(History(transfers), cycle.epochEnd), locks)
    ensures r.Failure? && r.error == LOCK_EXCEEDS_BALANCE <==>
            && Consistent(transfers)
            && OverlockedFirst(cycle.epochStart, cycle.epochEnd, starts,
                               Until(History(transfers), cycle.epochEnd), locks)
    ensures r.Failure? && Consistent(transfers) ==> r.error == NEGATIVE_BALANCE || r.error == LOCK_EXCEEDS_BALANCE
  {
    var e0, e1 := cycle.epochStart, cycle.epochEnd;
    var canonical := CanonicalizeTransfers(transfers);
    if canonical.Failure? { return Failure(canonical.error); }
    var inEpoch := Until(canonical.value, e1);
    UntilIsPrefix(canonical.value, e1);
    var swept := SweepEpoch(e0, e1, starts, inEpoch, locks);
    if swept.Failure? { return Failure(swept.error); }
    return Success(WeightComputation(swept.value, inEpoch));
  }

  /** Every relevant wallet, and no other, weighs what the second-by-second sums say. */
  ghost predicate WeighedNaively(cycle: Cycle, starts: seq<StartBalance>, transfers: seq<Transfer>, locks: seq<Lock>,
        c: WeightComputation) {
    && c.appliedTransfers == Until(History(transfers), cycle.epochEnd)
    && (forall w :: w in c.weights <==> Relevant(starts, c.appliedTransfers, locks, w))
    && (forall w :: w in c.weights ==>
          c.weights[w] == NaiveWeight(cycle.epochStart, cycle.epochEnd, starts, c.appliedTransfers, locks, w))
  }

  /** State of the sweep between intervals: everything before t is accounted for. */
  ghost predicate SweptTo(starts: seq<StartBalance>, ts: seq<Transfer>, locks: seq<Lock>, e0: int, t: int,
        relevant: seq<Address>, balances: map<Address, int>, cursor: nat, sofar: Integrals) {
    && cursor <= |ts|
    && (forall i :: 0 <= i < cursor ==> ts[i].timestamp < t)
    && (forall i :: cursor <= i < |ts| ==> t <= ts[i].timestamp)
    && (forall w :: GetOr(balances, w, 0) == StartOf(starts, w) + Net(ts[..cursor], w))
    && NoOverdraft(starts, ts[..cursor])
    && (forall w :: w in relevant ==> Integrated(starts, ts, locks, e0, t, sofar, w))
    && (forall w :: w in relevant ==> Covered(starts, ts, locks, w, e0, t))
  }

  /** What is in force during [tCur, tNext): the transfers stamped up to tCur, and the locks at tCur. */
  ghost predicate InForce(starts: seq<StartBalance>, ts: seq<Transfer>, locks: seq<Lock>, tCur: int, tNext: int,
        balances: map<Address, int>, byWallet: map<Address, seq<Lock>>, cursor: nat) {
    && cursor <= |ts|
    && tCur < tNext && Quiet(ts, locks, tCur, tNext)
    && (forall i :: 0 <= i < cursor ==> ts[i].timestamp <= tCur)
    && (forall i :: cursor <= i < |ts| ==> tCur < ts[i].timestamp)
    && (forall w :: GetOr(balances, w, 0) == StartOf(starts, w) + Net(ts[..cursor], w))
    && (forall w :: GetOr(byWallet, w, []) == LocksOf(locks, w))
  }

  lemma InForceBalance(starts: seq<StartBalance>, ts: seq<Transfer>, locks: seq<Lock>, tCur: int, tNext: int,
        balances: map<Address, int>, byWallet: map<Address, seq<Lock>>, cursor: nat)
    requires InForce(starts, ts, locks, tCur, tNext, balances, byWallet, cursor)
    ensures forall w :: GetOr(balances, w, 0) == BalanceAt(starts, ts, w, tCur)
    ensures forall w :: ActiveTotal(GetOr(byWallet, w, []), tCur) == LockedTotalAt(locks, w, tCur)
  {
    forall w
      ensures GetOr(balances, w, 0) == BalanceAt(starts, ts, w, tCur)
    {
      NetAtIsPrefix(ts, cursor, w, tCur);
    }
  }

  lemma OverlockedNow(starts: seq<StartBalance>, ts: seq<Transfer>, locks: seq<Lock>, e0: int, e1: int, tCur: int,
        tNext: int, balances: map<Address, int>, byWallet: map<Address, seq<Lock>>, cursor: nat, w: Address)
    requires e0 <= tCur < e1 && InForce(starts, ts, locks, tCur, tNext, balances, byWallet, cursor)
    requires Relevant(starts, ts, locks, w) && GetOr(balances, w, 0) < ActiveTotal(GetOr(byWallet, w, []), tCur)
    requires NoOverdraft(starts, ts[..cursor])
    ensures OverlockedFirst(e0, e1, starts, ts, locks)
  {
    InForceBalance(starts, ts, locks, tCur, tNext, balances, byWallet, cursor);
    assert BalanceAt(starts, ts, w, tCur) < LockedTotalAt(locks, w, tCur);
    PaidPrefix(starts, ts, cursor, tCur);
  }

  lemma PaidPrefix(starts: seq<StartBalance>, ts: seq<Transfer>, c: nat, t: int)
    requires c <= |ts| && NoOverdraft(starts, ts[..c])
    requires forall i :: c <= i < |ts| ==> t < ts[i].timestamp
    ensures PaidBy(starts, ts, t)
  {
    forall i | 0 <= i < |ts| && ts[i].timestamp <= t
      ensures CanPay(starts, ts, i)
    {
      assert ts[..c][..i] == ts[..i] && CanPay(starts, ts[..c], i);
    }
  }

  lemma SweepStep(starts: seq<StartBalance>, ts: seq<Transfer>, locks: seq<Lock>, e0: int, tCur: int, tNext: int,
        relevant: seq<Address>, balances: map<Address, int>, byWallet: map<Address, seq<Lock>>, cursor: nat,
        was: Integrals, now: Integrals)
    requires e0 <= tCur && InForce(starts, ts, locks, tCur, tNext, balances, byWallet, cursor)
    requires NoOverdraft(starts, ts[..cursor])
    requires forall w :: w in relevant ==>
             Integrated(starts, ts, locks, e0, tCur, was, w) && Covered(starts, ts, locks, w, e0, tCur)
    requires forall w :: w in relevant ==> ActiveTotal(GetOr(byWallet, w, []), tCur) <= GetOr(balances, w, 0)
    requires forall w :: w in relevant ==>
               Grown(was, now, w, GetOr(balances, w, 0), GetOr(byWallet, w, []), tCur, tNext - tCur)
    ensures SweptTo(starts, ts, locks, e0, tNext, relevant, balances, cursor, now)
  {
    InForceBalance(starts, ts, locks, tCur, tNext, balances, byWallet, cursor);
    forall w | w in relevant
      ensures Integrated(starts, ts, locks, e0, tNext, now, w) && Covered(starts, ts, locks, w, e0, tNext)
    {
      IntegrateInterval(starts, ts, locks, e0, tCur, tNext, was, now, w);
      CoverInterval(starts, ts, locks, e0, tCur, tNext, w);
    }
    assert forall i :: cursor <= i < |ts| ==> ts[i] in ts && !Inside(tCur, ts[i].timestamp, tNext);
  }

  lemma SweepDone(starts: seq<StartBalance>, ts: seq<Transfer>, locks: seq<Lock>, e0: int, e1: int,
        relevant: seq<Address>, balances: map<Address, int>, cursor: nat, sofar: Integrals)
    requires SweptTo(starts, ts, locks, e0, e1, relevant, balances, cursor, sofar)
    requires forall x :: x in ts ==> x.timestamp < e1
    requires forall w :: w in relevant <==> Relevant(starts, ts, locks, w)
    ensures Accepted(e0, e1, starts, ts, locks)
    ensures forall w :: GetOr(balances, w, 0) == BalanceAt(starts, ts, w, e1 - 1)
  {
    if ts != [] { assert ts[|ts| - 1] in ts; }
    assert ts[..cursor] == ts;
    forall w
      ensures GetOr(balances, w, 0) == BalanceAt(starts, ts, w, e1 - 1)
    {
      NetAtIsPrefix(ts, cursor, w, e1 - 1);
    }
  }

  /** One turn of the outer loop: apply what is due, then accrue the interval. */
  method SweepInterval(ghost starts: seq<StartBalance>, inEpoch: seq<Transfer>, ghost locks: seq<Lock>, ghost e0: int,
        ghost e1: int, tCur: int, tNext: int, relevant: seq<Address>, byWallet: map<Address, seq<Lock>>,
        balances0: map<Address, int>, cursor0: nat, before: Integrals)
      returns (r: Result<Integrals, ErrorCode>, balances: map<Address, int>, cursor: nat)
    requires Monotone(inEpoch) && Distinct(relevant) && e0 <= tCur < tNext <= e1 && Quiet(inEpoch, locks, tCur, tNext)
    requires forall w :: w in relevant <==> Relevant(starts, inEpoch, locks, w)
    requires forall w :: GetOr(byWallet, w, []) == LocksOf(locks, w)
    requires SweptTo(starts, inEpoch, locks, e0, tCur, relevant, balances0, cursor0, before)
    ensures r.Success? ==> SweptTo(starts, inEpoch, locks, e0, tNext, relevant, balances, cursor, r.value)
    ensures r.Failure? && r.error == NEGATIVE_BALANCE ==> OverdrawnFirst(e0, starts, inEpoch, locks)
    ensures r.Failure? && r.error == LOCK_EXCEEDS_BALANCE ==> OverlockedFirst(e0, e1, starts, inEpoch, locks)
    ensures r.Failure? ==> r.error == NEGATIVE_BALANCE || r.error == LOCK_EXCEEDS_BALANCE
  {
    var due;
    due, cursor := ApplyDue(starts, inEpoch, balances0, cursor0, tCur);
    if due.Failure? {
      assert !Overlocked(e0, tCur, starts, inEpoch, locks);
      return Failure(due.error), balances0, cursor;
    }
    balances := due.value;
    r := AccrueInterval(starts, inEpoch, locks, e0, e1, tCur, tNext, relevant, byWallet, balances, cursor, before);
  }

  method AccrueInterval(ghost starts: seq<StartBalance>, ghost inEpoch: seq<Transfer>, ghost locks: seq<Lock>,
        ghost e0: int, ghost e1: int, tCur: int, tNext: int, relevant: seq<Address>,
        byWallet: map<Address, seq<Lock>>, balances: map<Address, int>, ghost cursor: nat, before: Integrals)
      returns (r: Result<Integrals, ErrorCode>)
    requires Distinct(relevant) && e0 <= tCur < e1
    requires forall w :: w in relevant ==> Relevant(starts, inEpoch, locks, w)
    requires InForce(starts, inEpoch, locks, tCur, tNext, balances, byWallet, cursor)
    requires NoOverdraft(starts, inEpoch[..cursor])
    requires forall w :: w in relevant ==> Integrated(starts, inEpoch, locks, e0, tCur, before, w)
    requires forall w :: w in relevant ==> Covered(starts, inEpoch, locks, w, e0, tCur)
    ensures r.Success? ==> SweptTo(starts, inEpoch, locks, e0, tNext, relevant, balances, cursor, r.value)
    ensures r.Failure? ==> r.error == LOCK_EXCEEDS_BALANCE && OverlockedFirst(e0, e1, starts, inEpoch, locks)
  {
    r := Accrue(relevant, balances, byWallet, tCur, tNext - tCur, before);
    if r.Success? {
      SweepStep(starts, inEpoch, locks, e0, tCur, tNext, relevant, balances, byWallet, cursor, before, r.value);
    } else {
      ghost var w :| w in relevant && !(ActiveTotal(GetOr(byWallet, w, []), tCur) <= GetOr(balances, w, 0));
      OverlockedNow(starts, inEpoch, locks, e0, e1, tCur, tNext, balances, byWallet, cursor, w);
    }
  }

  method SweepEpoch(e0: int, e1: int, starts: seq<StartBalance>, inEpoch: seq<Transfer>, locks: seq<Lock>)
      returns (r: Result<map<Address, WalletWeight>, ErrorCode>)
    requires e0 < e1 && Monotone(inEpoch)
    requires forall x :: x in inEpoch ==> e0 <= x.timestamp < e1
    ensures r.Success? <==> Accepted(e0, e1, starts, inEpoch, locks)
    ensures r.Success? ==> forall w :: w in r.value <==> Relevant(starts, inEpoch, locks, w)
    ensures r.Success? ==> forall w :: w in r.value ==> r.value[w] == NaiveWeight(e0, e1, starts, inEpoch, locks, w)
    ensures r.Failure? && r.error == NEGATIVE_BALANCE <==> OverdrawnFirst(e0, starts, inEpoch, locks)
    ensures r.Failure? && r.error == LOCK_EXCEEDS_BALANCE <==> OverlockedFirst(e0, e1, starts, inEpoch, locks)
    ensures r.Failure? ==> r.error == NEGATIVE_BALANCE || r.error == LOCK_EXCEEDS_BALANCE
  {
    OneFaultFirst(e0, e1, starts, inEpoch, locks);
    var balances, relevant := SeedBalances(starts, inEpoch, locks);
    var byWallet := GroupLocks(locks);
    var times := CollectBreakpoints(e0, e1, inEpoch, locks);
    var cursor: nat := 0;
    var sofar := Integrals(map[], map[], map[]);
    for k := 0 to |times| - 1
      invariant SweptTo(starts, inEpoch, locks, e0, times[k], relevant, balances, cursor, sofar)
    {
      BreakpointsBracket(times, e0, e1, inEpoch, locks, k);
      var step;
      step, balances, cursor := SweepInterval(starts, inEpoch, locks, e0, e1, times[k], times[k + 1],
                                              relevant, byWallet, balances, cursor, sofar);
      if step.Failure? { return Failure(step.error); }
      sofar := step.value;
    }
    SweepDone(starts, inEpoch, locks, e0, e1, relevant, balances, cursor, sofar);
    var weights := FloorWeights(e0, e1, starts, inEpoch, locks, relevant, balances, sofar);
    return Success(weights);
  }

  lemma BreakpointsBracket(times: seq<int>, e0: int, e1: int, ts: seq<Transfer>, locks: seq<Lock>, k: nat)
    requires Breakpoints(times, e0, e1, ts, locks) && k < |times| - 1
    ensures e0 <= times[k] < times[k + 1] <= e1
  {
    assert Lt(times[k], times[k + 1]);
    assert k == 0 || Lt(times[0], times[k]);
    assert k + 1 == |times| - 1 || Lt(times[k + 1], times[|times| - 1]);
  }

  lemma FlooredIsNaive(e0: int, e1: int, starts: seq<StartBalance>, ts: seq<Transfer>, locks: seq<Lock>, w: Address,
        sofar: Integrals, lockedTwab: TierRecord)
    requires Integrated(starts, ts, locks, e0, e1, sofar, w)
    requires forall tier :: lockedTwab.Get(tier) == GetOr(sofar.locked, w, ZERO_TIER_RECORD).Get(tier) / EPOCH_SECONDS
    ensures WalletWeight(w, BalanceAt(starts, ts, w, e1 - 1), GetOr(sofar.base, w, 0) / EPOCH_SECONDS,
                         GetOr(sofar.unlocked, w, 0) / EPOCH_SECONDS, lockedTwab,
                         GetOr(sofar.unlocked, w, 0) / EPOCH_SECONDS + Bonus(lockedTwab))
            == NaiveWeight(e0, e1, starts, ts, locks, w)
  {
    assert forall tier :: lockedTwab.Get(tier) == LockedTwab(e0, e1, locks, w, tier);
    assert lockedTwab == TierRecord(
      lockedTwab.Get(LOCK_7D), lockedTwab.Get(LOCK_14D), lockedTwab.Get(LOCK_21D), lockedTwab.Get(LOCK_30D));
  }

  method FloorWeights(ghost e0: int, ghost e1: int, ghost starts: seq<StartBalance>, ghost inEpoch: seq<Transfer>,
        ghost locks: seq<Lock>, relevant: seq<Address>, balances: map<Address, int>, sofar: Integrals)
      returns (weights: map<Address, WalletWeight>)
    requires forall w :: w in relevant ==> Integrated(starts, inEpoch, locks, e0, e1, sofar, w)
    requires forall w :: w in relevant ==> GetOr(balances, w, 0) == BalanceAt(starts, inEpoch, w, e1 - 1)
    ensures forall w :: w in weights <==> w in relevant
    ensures forall w :: w in weights ==> weights[w] == NaiveWeight(e0, e1, starts, inEpoch, locks, w)
  {
    weights := map[];
    for i := 0 to |relevant|
      invariant forall w :: w in weights <==> w in relevant[..i]
      invariant forall w :: w in weights ==> weights[w] == NaiveWeight(e0, e1, starts, inEpoch, locks, w)
    {
      var w := relevant[i];
      assert relevant[..i + 1] == relevant[..i] + [w];
      var unlockedTwab := GetOr(sofar.unlocked, w, 0) / EPOCH_SECONDS;
      var lockedTwab, effectiveWeight := FloorTiers(GetOr(sofar.locked, w, ZERO_TIER_RECORD), unlockedTwab);
      FlooredIsNaive(e0, e1, starts, inEpoch, locks, w, sofar, lockedTwab);
      weights := weights[w := WalletWeight(
        w, GetOr(balances, w, 0), GetOr(sofar.base, w, 0) / EPOCH_SECONDS,
        unlockedTwab, lockedTwab, effectiveWeight)];
    }
    assert relevant[..|relevant|] == relevant;
  }

  method FloorTiers(lockedSec: TierRecord, unlockedTwab: int) returns (lockedTwab: TierRecord, effectiveWeight: int)
    ensures forall tier :: lockedTwab.Get(tier) == lockedSec.Get(tier) / EPOCH_SECONDS
    ensures effectiveWeight == unlockedTwab + Bonus(lockedTwab)
  {
    lockedTwab, effectiveWeight := ZERO_TIER_RECORD, unlockedTwab;
    for i := 0 to |SUPPORTED_LOCK_TIERS|
      invariant forall tier :: lockedTwab.Get(tier) == if TierIndex(tier) < i then lockedSec.Get(tier) / EPOCH_SECONDS
                else 0
      invariant effectiveWeight == unlockedTwab + Bonus(lockedTwab)
    {
      var tier := SUPPORTED_LOCK_TIERS[i];
      assert forall k: Tier :: TierIndex(k) == i <==> k == tier;
      var twab := lockedSec.Get(tier) / EPOCH_SECONDS;
      lockedTwab := lockedTwab.Plus(tier, twab);
      effectiveWeight := effectiveWeight + MulDivFloor(twab, MultiplierBps(tier), BPS_DENOMINATOR);
    }
  }
}
