/** Transfers move the supply between wallets; only mints and burns change it. */
module Supply {
  import opened PodModel
  import opened Sums
  import opened Sorting
  import opened Ledger
  import opened Twab

  /** What a transfer adds to the supply: a mint adds, a burn removes, anything else neither. */
  function Issued(x: Transfer): int {
    if x.from == 0 && x.to != 0 then x.rawAmount
    else if x.from != 0 && x.to == 0 then 0 - x.rawAmount as int
    else 0
  }

  function IssuedAt(ts: seq<Transfer>, t: int): int {
    Total(ts, (x: Transfer) => if x.timestamp <= t then Issued(x) else 0)
  }

  /** Wallets listed once each, including every non-zero party of every transfer. */
  ghost predicate Ledgered(ws: seq<Address>, ts: seq<Transfer>) {
    && Distinct(ws)
    && forall x :: x in ts ==> (x.from == 0 || x.from in ws) && (x.to == 0 || x.to in ws)
  }

  function InitialSupply(starts: seq<StartBalance>, ws: seq<Address>): int {
    Total(ws, (w: Address) => StartOf(starts, w))
  }

  /** The supply at second t, stated without looking at any wallet but the initial balances. */
  function SupplyCurve(starts: seq<StartBalance>, ws: seq<Address>, ts: seq<Transfer>): int -> int {
    t => InitialSupply(starts, ws) + IssuedAt(ts, t)
  }

  lemma {:induction false} TotalIndicator(ws: seq<Address>, a: Address, v: int)
    requires Distinct(ws)
    ensures Total(ws, (w: Address) => if w == a then v else 0) == if a in ws then v else 0
  {
    if ws != [] {
      var front, last := ws[..|ws| - 1], ws[|ws| - 1];
      assert ws == front + [last];
      TotalIndicator(front, a, v);
    }
  }

  lemma DeltasCancel(ws: seq<Address>, x: Transfer)
    requires Ledgered(ws, [x])
    ensures Total(ws, (w: Address) => Delta(x, w)) == Issued(x)
  {
    assert x in [x];
    var credit: int := if x.to == ZERO_ADDRESS then 0 else x.rawAmount;
    var debit: int := if x.from == ZERO_ADDRESS then 0 else 0 - x.rawAmount as int;
    TotalOfPair(ws, (w: Address) => if w == x.to then credit else 0, (w: Address) => if w == x.from then debit else 0,
                (w: Address) => Delta(x, w));
    TotalIndicator(ws, x.to, credit);
    TotalIndicator(ws, x.from, debit);
  }

  function DeltaOf(x: Transfer): Address -> int {
    (w: Address) => Delta(x, w)
  }

  function BalanceAfter(starts: seq<StartBalance>, ts: seq<Transfer>): Address -> int {
    (w: Address) => StartOf(starts, w) + Net(ts, w)
  }

  function BalanceSlice(starts: seq<StartBalance>, ts: seq<Transfer>, t: int): Address -> int {
    (w: Address) => BalanceAt(starts, ts, w, t)
  }

  /** After any transfers at all, the balances add up to the initial supply plus mints minus burns. */
  lemma {:induction false} SupplyConserved(starts: seq<StartBalance>, ws: seq<Address>, ts: seq<Transfer>)
    requires Ledgered(ws, ts)
    ensures Total(ws, BalanceAfter(starts, ts)) == InitialSupply(starts, ws) + Total(ts, Issued)
  {
    if ts == [] {
      TotalAgree(ws, BalanceAfter(starts, ts), (w: Address) => StartOf(starts, w));
    } else {
      var front, last := ts[..|ts| - 1], ts[|ts| - 1];
      assert last in ts;
      SupplyConserved(starts, ws, front);
      DeltasCancel(ws, last);
      TotalOfPair(ws, BalanceAfter(starts, front), DeltaOf(last), BalanceAfter(starts, ts));
    }
  }

  /** The same at every second of the clock. */
  lemma {:induction false} SupplyConservedAt(starts: seq<StartBalance>, ws: seq<Address>, ts: seq<Transfer>, t: int)
    requires Ledgered(ws, ts)
    ensures Total(ws, BalanceSlice(starts, ts, t)) == SupplyCurve(starts, ws, ts)(t)
  {
    if ts == [] {
      TotalAgree(ws, BalanceSlice(starts, ts, t), (w: Address) => StartOf(starts, w));
    } else {
      var front, last := ts[..|ts| - 1], ts[|ts| - 1];
      assert last in ts;
      SupplyConservedAt(starts, ws, front, t);
      DeltasCancel(ws, last);
      if last.timestamp <= t {
        TotalOfPair(ws, BalanceSlice(starts, front, t), DeltaOf(last), BalanceSlice(starts, ts, t));
      } else {
        TotalAgree(ws, BalanceSlice(starts, front, t), BalanceSlice(starts, ts, t));
      }
    }
  }

  function BalanceSeconds(starts: seq<StartBalance>, ts: seq<Transfer>, e0: int, e1: int): Address -> int {
    (w: Address) => Sum(BalanceCurve(starts, ts, w), e0, e1)
  }

  /** Balance-seconds of all wallets together are the supply-seconds. */
  lemma {:induction false} SupplySeconds(starts: seq<StartBalance>, ws: seq<Address>, ts: seq<Transfer>, e0: int,
        e1: int)
    requires Ledgered(ws, ts)
    ensures Total(ws, BalanceSeconds(starts, ts, e0, e1)) == Sum(SupplyCurve(starts, ws, ts), e0, e1)
    decreases e1 - e0
  {
    if e1 <= e0 {
      TotalConstant(ws, BalanceSeconds(starts, ts, e0, e1), 0);
    } else {
      SupplySeconds(starts, ws, ts, e0, e1 - 1);
      SupplyConservedAt(starts, ws, ts, e1 - 1);
      TotalOfPair(ws, BalanceSeconds(starts, ts, e0, e1 - 1), BalanceSlice(starts, ts, e1 - 1),
        BalanceSeconds(starts, ts, e0, e1));
    }
  }

  function BaseTwabOf(starts: seq<StartBalance>, ts: seq<Transfer>, locks: seq<Lock>, e0: int,
        e1: int): Address -> int {
    (w: Address) => NaiveWeight(e0, e1, starts, ts, locks, w).baseTwab
  }

  /** Flooring per wallet never exceeds the floored supply, and loses less than one unit per wallet. */
  lemma SupplyTwab(starts: seq<StartBalance>, ws: seq<Address>, ts: seq<Transfer>, locks: seq<Lock>, e0: int, e1: int)
    requires Ledgered(ws, ts) && ws != []
    ensures var twab := Sum(SupplyCurve(starts, ws, ts), e0, e1) / EPOCH_SECONDS;
            twab - |ws| < Total(ws, BaseTwabOf(starts, ts, locks, e0, e1)) <= twab
  {
    var supply, parts := Sum(SupplyCurve(starts, ws, ts), e0, e1), Total(ws, BaseTwabOf(starts, ts, locks, e0, e1));
    SupplySeconds(starts, ws, ts, e0, e1);
    TotalOfFloors(ws, BalanceSeconds(starts, ts, e0, e1), BaseTwabOf(starts, ts, locks, e0, e1), EPOCH_SECONDS);
    FloorGreatest(supply, EPOCH_SECONDS, parts);
    FloorGreatest(supply, EPOCH_SECONDS, parts + |ws|);
  }

  function PublishedTwab(weights: map<Address, WalletWeight>): Address -> int {
    (w: Address) => if w in weights then weights[w].baseTwab else 0
  }

  /** The bound for the published weights of a swept epoch, listed in any order. */
  lemma PublishedTwabWithinSupply(cycle: Cycle, starts: seq<StartBalance>, transfers: seq<Transfer>, locks: seq<Lock>,
        c: WeightComputation, ws: seq<Address>)
    requires WeighedNaively(cycle, starts, transfers, locks, c)
    requires Distinct(ws) && ws != [] && forall w :: w in ws <==> w in c.weights
    ensures var twab := Sum(SupplyCurve(starts, ws, c.appliedTransfers), cycle.epochStart,
            cycle.epochEnd) / EPOCH_SECONDS;
            twab - |ws| < Total(ws, PublishedTwab(c.weights)) <= twab
  {
    var ts := c.appliedTransfers;
    forall x | x in ts
      ensures (x.from == ZERO_ADDRESS || x.from in ws) && (x.to == ZERO_ADDRESS || x.to in ws)
    {
      assert x.from == ZERO_ADDRESS || Relevant(starts, ts, locks, x.from);
      assert x.to == ZERO_ADDRESS || Relevant(starts, ts, locks, x.to);
    }
    SupplyTwab(starts, ws, ts, locks, cycle.epochStart, cycle.epochEnd);
    TotalAgree(ws, PublishedTwab(c.weights), BaseTwabOf(starts, ts, locks, cycle.epochStart, cycle.epochEnd));
  }
}
