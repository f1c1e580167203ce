/** Canonical transfer history: deduplication and (block, transaction, log) order. */
module Canonical {
  import opened Results
  import opened PodModel
  import opened Sorting

  type Identity = (nat, Hash, nat)

  function IdentityOf(t: Transfer): Identity {
    (t.chainId, t.transactionHash, t.logIndex)
  }

  /** Everything but the identity fields. */
  predicate SameTransfer(a: Transfer, b: Transfer) {
    && a.blockNumber == b.blockNumber
    && a.blockHash == b.blockHash
    && a.transactionIndex == b.transactionIndex
    && a.timestamp == b.timestamp
    && a.from == b.from
    && a.to == b.to
    && a.rawAmount == b.rawAmount
  }

  /** Strictly earlier in (block, transaction index, log index). */
  predicate Before(a: Transfer, b: Transfer) {
    if a.blockNumber != b.blockNumber then a.blockNumber < b.blockNumber
    else if a.transactionIndex != b.transactionIndex then a.transactionIndex < b.transactionIndex
    else a.logIndex < b.logIndex
  }

  predicate NotAfter(a: Transfer, b: Transfer) {
    !Before(b, a)
  }

  ghost predicate ConflictFree(ts: seq<Transfer>) {
    forall a, b :: a in ts && b in ts && IdentityOf(a) == IdentityOf(b) ==> a == b
  }

  ghost predicate Unambiguous(ts: seq<Transfer>) {
    forall a, b :: a in ts && b in ts && a != b ==> Before(a, b) || Before(b, a)
  }

  ghost predicate ClockFollowsChain(ts: seq<Transfer>) {
    forall a, b :: a in ts && b in ts && Before(a, b) ==> a.timestamp <= b.timestamp
  }

  /** Says nothing about the order or the multiplicity of the records. */
  ghost predicate Consistent(ts: seq<Transfer>) {
    ConflictFree(ts) && Unambiguous(ts) && ClockFollowsChain(ts)
  }

  ghost predicate Monotone(ts: seq<Transfer>) {
    forall i, j :: 0 <= i < j < |ts| ==> ts[i].timestamp <= ts[j].timestamp
  }

  ghost predicate CanonicalOf(out: seq<Transfer>, ts: seq<Transfer>) {
    Ordered(out, Before) && Monotone(out) && SameElements(out, ts)
  }

  /**
   * Field by field: blocks never go back, transactions never within a block, logs strictly forward within a
   * transaction, the clock never back, and no identity twice.
   */
  ghost predicate InChainOrder(h: seq<Transfer>) {
    forall i, j :: 0 <= i < j < |h| ==>
      && h[i].blockNumber <= h[j].blockNumber
      && (h[i].blockNumber == h[j].blockNumber ==> h[i].transactionIndex <= h[j].transactionIndex)
      && (h[i].blockNumber == h[j].blockNumber && h[i].transactionIndex == h[j].transactionIndex ==>
            h[i].logIndex < h[j].logIndex)
      && h[i].timestamp <= h[j].timestamp
      && !(&& h[i].chainId == h[j].chainId && h[i].transactionHash == h[j].transactionHash
           && h[i].logIndex == h[j].logIndex)
  }

  /** First occurrences, in the order seen. */
  function Deduplicated(ts: seq<Transfer>): (r: seq<Transfer>)
    ensures SameElements(r, ts) && Distinct(r)
  {
    if ts == [] then []
    else
      var front, last := ts[..|ts| - 1], ts[|ts| - 1];
      assert ts == front + [last];
      if last in front then Deduplicated(front) else Deduplicated(front) + [last]
  }

  /** The history a list of logs stands for. */
  function History(ts: seq<Transfer>): seq<Transfer> {
    Sort(Deduplicated(ts), NotAfter)
  }

  lemma HistoryIsCanonical(ts: seq<Transfer>)
    requires Consistent(ts)
    ensures CanonicalOf(History(ts), ts)
  {
    SortKeepsDistinct(Deduplicated(ts), NotAfter);
    var h := History(ts);
    forall i, j | 0 <= i < j < |h|
      ensures Before(h[i], h[j]) && h[i].timestamp <= h[j].timestamp
    {
      assert h[i] in ts && h[j] in ts && NotAfter(h[i], h[j]);
    }
  }

  predicate Tie(a: Transfer, b: Transfer) {
    !Before(a, b) && !Before(b, a)
  }

  /** The first fault between neighbours; a tie is looked for before a decreasing timestamp. */
  function OrderFault(h: seq<Transfer>): Option<ErrorCode> {
    if |h| <= 1 then None
    else
      var earlier, prev, cur := OrderFault(h[..|h| - 1]), h[|h| - 2], h[|h| - 1];
      if earlier.Some? then earlier
      else if Tie(prev, cur) then Some(AMBIGUOUS_ORDER)
      else if cur.timestamp < prev.timestamp then Some(NONMONOTONIC_TIMESTAMP)
      else None
  }

  lemma {:induction false} FaultCodes(h: seq<Transfer>)
    ensures OrderFault(h) in {None, Some(AMBIGUOUS_ORDER), Some(NONMONOTONIC_TIMESTAMP)}
  {
    if |h| > 1 { FaultCodes(h[..|h| - 1]); }
  }

  function Judged(h: seq<Transfer>): Result<seq<Transfer>, ErrorCode> {
    match OrderFault(h)
    case None => Success(h)
    case Some(code) => Failure(code)
  }

  /** The whole verdict on a list of logs: a conflict is found before anything is sorted. */
  ghost function Verdict(ts: seq<Transfer>): Result<seq<Transfer>, ErrorCode> {
    if ConflictFree(ts) then Judged(History(ts)) else Failure(CONFLICTING_LOG)
  }

  lemma {:induction false} FirstFaultStays(h: seq<Transfer>, i: nat)
    requires i <= |h| && OrderFault(h[..i]).Some?
    ensures OrderFault(h) == OrderFault(h[..i])
  {
    if i < |h| {
      assert h[..|h| - 1][..i] == h[..i];
      FirstFaultStays(h[..|h| - 1], i);
    } else {
      assert h[..i] == h;
    }
  }

  method CanonicalizeTransfers(transfers: seq<Transfer>) returns (r: Result<seq<Transfer>, ErrorCode>)
    ensures r.Success? <==> Consistent(transfers)
    ensures r.Success? ==> CanonicalOf(r.value, transfers) && r.value == History(transfers)
    ensures r.Success? ==> InChainOrder(r.value)
    ensures r == Verdict(transfers)
    ensures r.Failure? ==> r.error in {CONFLICTING_LOG, AMBIGUOUS_ORDER, NONMONOTONIC_TIMESTAMP}
    ensures r.Failure? && r.error == CONFLICTING_LOG <==> !ConflictFree(transfers)
    ensures r.Failure? && r.error == AMBIGUOUS_ORDER ==> !Unambiguous(transfers)
    ensures r.Failure? && r.error == NONMONOTONIC_TIMESTAMP ==> !ClockFollowsChain(transfers)
  {
    var byIdentity: map<Identity, Transfer> := map[];
    var values: seq<Transfer> := [];  // the map's values in insertion order
    for i := 0 to |transfers|
      invariant values == Deduplicated(transfers[..i])
      invariant forall x :: x in values ==> IdentityOf(x) in byIdentity && byIdentity[IdentityOf(x)] == x
      invariant forall id :: id in byIdentity ==> byIdentity[id] in values && IdentityOf(byIdentity[id]) == id
    {
      var t := transfers[i];
      var id := IdentityOf(t);
      assert transfers[..i + 1] == transfers[..i] + [t] && transfers[..i + 1][..i] == transfers[..i];
      if id in byIdentity {
        if !SameTransfer(byIdentity[id], t) {
          assert byIdentity[id] in transfers && t in transfers;
          return Failure(CONFLICTING_LOG);
        }
        assert byIdentity[id] == t;
      } else {
        byIdentity := byIdentity[id := t];
        values := values + [t];
      }
    }
    assert transfers[..|transfers|] == transfers;
    assert ConflictFree(transfers);
    r := CheckOrder(Sort(values, NotAfter), transfers) by {
      SortKeepsDistinct(values, NotAfter);
    }
    if r.Success? {
      HistoryIsCanonical(transfers);
      OrderedListingUnique(r.value, History(transfers), Before);
      HistoryInChainOrder(transfers);
    }
  }

  lemma HistoryInChainOrder(ts: seq<Transfer>)
    requires Consistent(ts)
    ensures InChainOrder(History(ts)) && SameElements(History(ts), ts)
  {
    HistoryIsCanonical(ts);
    var h := History(ts);
    forall i, j | 0 <= i < j < |h|
      ensures Before(h[i], h[j]) && h[i].timestamp <= h[j].timestamp && IdentityOf(h[i]) != IdentityOf(h[j])
    {
      assert h[i] in ts && h[j] in ts;
    }
  }

  /** Records are accepted exactly when they can be listed in chain order, and the history is then that listing. */
  lemma AcceptedIffListable(ts: seq<Transfer>)
    ensures Consistent(ts) <==> exists h :: SameElements(h, ts) && InChainOrder(h)
    ensures forall h :: SameElements(h, ts) && InChainOrder(h) ==> h == History(ts)
  {
    if Consistent(ts) { HistoryInChainOrder(ts); }
    forall h | SameElements(h, ts) && InChainOrder(h)
      ensures Consistent(ts) && h == History(ts)
    {
      ListingIsHistory(ts, h);
    }
  }

  lemma ListingIsHistory(ts: seq<Transfer>, h: seq<Transfer>)
    requires SameElements(h, ts) && InChainOrder(h)
    ensures Consistent(ts) && h == History(ts)
  {
    assert CanonicalOf(h, ts);
    CanonicalIsConsistent(h, ts);
    IdentitiesOnce(ts, h);
    HistoryIsCanonical(ts);
    OrderedListingUnique(h, History(ts), Before);
  }

  lemma IdentitiesOnce(ts: seq<Transfer>, h: seq<Transfer>)
    requires SameElements(h, ts) && InChainOrder(h)
    ensures ConflictFree(ts)
  {
    forall a, b | a in ts && b in ts && IdentityOf(a) == IdentityOf(b)
      ensures a == b
    {
      assert a in h && b in h;
    }
  }

  /** Reject ties and decreasing timestamps between neighbours of the sorted history. */
  method CheckOrder(deduped: seq<Transfer>, ghost transfers: seq<Transfer>)
      returns (r: Result<seq<Transfer>, ErrorCode>)
    requires Ordered(deduped, NotAfter) && Distinct(deduped) && SameElements(deduped, transfers)
    ensures r == Judged(deduped)
    ensures r.Success? <==> Unambiguous(transfers) && ClockFollowsChain(transfers)
    ensures r.Success? ==> r.value == deduped && CanonicalOf(r.value, transfers)
    ensures r.Failure? ==> r.error == AMBIGUOUS_ORDER || r.error == NONMONOTONIC_TIMESTAMP
    ensures r.Failure? && r.error == AMBIGUOUS_ORDER ==> !Unambiguous(transfers)
    ensures r.Failure? && r.error == NONMONOTONIC_TIMESTAMP ==> !ClockFollowsChain(transfers)
  {
    var i := 1;
    while i < |deduped|
      invariant 1 <= i && (i <= |deduped| || deduped == [])
      invariant i <= |deduped| ==> OrderFault(deduped[..i]).None?
    {
      var prev, cur := deduped[i - 1], deduped[i];
      FaultStep(deduped, i);
      assert prev in transfers && cur in transfers && prev != cur && NotAfter(prev, cur);
      if !Before(prev, cur) && !Before(cur, prev) {
        return Failure(AMBIGUOUS_ORDER);
      }
      if cur.timestamp < prev.timestamp {
        return Failure(NONMONOTONIC_TIMESTAMP);
      }
      i := i + 1;
    }
    assert deduped[..|deduped|] == deduped;
    SoundNeighbours(deduped);
    NeighboursSuffice(deduped, transfers);
    return Success(deduped);
  }

  lemma FaultStep(h: seq<Transfer>, i: nat)
    requires 0 < i < |h| && OrderFault(h[..i]).None?
    ensures OrderFault(h[..i + 1])
            == if Tie(h[i - 1], h[i]) then Some(AMBIGUOUS_ORDER)
               else if h[i].timestamp < h[i - 1].timestamp then Some(NONMONOTONIC_TIMESTAMP) else None
    ensures OrderFault(h[..i + 1]).Some? ==> OrderFault(h) == OrderFault(h[..i + 1])
  {
    assert h[..i + 1][..i] == h[..i];
    if OrderFault(h[..i + 1]).Some? { FirstFaultStays(h, i + 1); }
  }

  /** Neighbours without a fault are strictly ordered and clock-monotone. */
  lemma {:induction false} SoundNeighbours(h: seq<Transfer>)
    requires Ordered(h, NotAfter) && OrderFault(h).None?
    ensures forall j :: 0 < j < |h| ==> Before(h[j - 1], h[j]) && NoLater(h[j - 1], h[j])
  {
    if |h| > 1 {
      var front := h[..|h| - 1];
      SoundNeighbours(front);
      forall j | 0 < j < |h|
        ensures Before(h[j - 1], h[j]) && NoLater(h[j - 1], h[j])
      {
        if j < |front| {
          assert front[j - 1] == h[j - 1] && front[j] == h[j];
        } else {
          assert NotAfter(h[j - 1], h[j]);
        }
      }
    }
  }

  lemma NeighboursSuffice(deduped: seq<Transfer>, ts: seq<Transfer>)
    requires SameElements(deduped, ts)
    requires forall j :: 0 < j < |deduped| ==> Before(deduped[j - 1], deduped[j])
    requires forall j :: 0 < j < |deduped| ==> NoLater(deduped[j - 1], deduped[j])
    ensures CanonicalOf(deduped, ts) && Unambiguous(ts) && ClockFollowsChain(ts)
  {
    AdjacentOrdered(deduped, Before);
    AdjacentOrdered(deduped, NoLater);
    MonotoneIsOrdered(deduped);
    CanonicalIsConsistent(deduped, ts);
  }

  predicate NoLater(a: Transfer, b: Transfer) {
    a.timestamp <= b.timestamp
  }

  lemma MonotoneIsOrdered(ts: seq<Transfer>)
    requires Ordered(ts, NoLater)
    ensures Monotone(ts)
  {
    forall i, j | 0 <= i < j < |ts|
      ensures ts[i].timestamp <= ts[j].timestamp
    {
      assert NoLater(ts[i], ts[j]);
    }
  }

  lemma CanonicalIsConsistent(out: seq<Transfer>, ts: seq<Transfer>)
    requires CanonicalOf(out, ts)
    ensures Unambiguous(ts) && ClockFollowsChain(ts)
  {
    forall a, b | a in ts && b in ts && a != b
      ensures Before(a, b) || Before(b, a)
    {
      assert a in out && b in out;
    }
    forall a, b | a in ts && b in ts && Before(a, b)
      ensures a.timestamp <= b.timestamp
    {
      assert a in out && b in out;
    }
  }

  /** Order and duplication of the input are invisible: same records, same verdict, same history. */
  lemma OrderAndDuplicatesIrrelevant(ts: seq<Transfer>, us: seq<Transfer>)
    requires SameElements(ts, us)
    ensures Consistent(ts) <==> Consistent(us)
    ensures forall a, b :: CanonicalOf(a, ts) && CanonicalOf(b, us) ==> a == b
    ensures Consistent(ts) ==> History(ts) == History(us)
  {
    if Consistent(ts) {
      HistoryIsCanonical(ts);
      HistoryIsCanonical(us);
    }
    forall a, b | CanonicalOf(a, ts) && CanonicalOf(b, us)
      ensures a == b
    {
      OrderedListingUnique(a, b, Before);
    }
  }
}
