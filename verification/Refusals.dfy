/** Which code a history with faults is refused with, over all listings of its records. */
module Refusals {
  import opened Results
  import opened PodModel
  import opened Sorting
  import opened Canonical

  /** Everything strictly before x is in order. */
  ghost predicate InOrderBefore(ts: seq<Transfer>, x: Transfer) {
    forall a, b :: a in ts && b in ts && a != b && Before(a, x) && Before(b, x) ==> InOrder(a, b)
  }

  predicate InOrder(a: Transfer, b: Transfer) {
    !Tie(a, b) && (Before(a, b) ==> a.timestamp <= b.timestamp)
  }

  /** Stamped earlier than something strictly before it. */
  ghost predicate Late(ts: seq<Transfer>, x: Transfer) {
    exists y :: y in ts && Before(y, x) && x.timestamp < y.timestamp
  }

  ghost predicate TiedIn(ts: seq<Transfer>, x: Transfer) {
    exists y :: y in ts && y != x && Tie(x, y)
  }

  ghost predicate FaultOf(ts: seq<Transfer>, x: Transfer, code: ErrorCode) {
    match code
    case AMBIGUOUS_ORDER => TiedIn(ts, x) && !Late(ts, x)
    case NONMONOTONIC_TIMESTAMP => Late(ts, x)
    case _ => false
  }

  /** Some record is the first trouble, and of the kind the code names. */
  ghost predicate CanReport(ts: seq<Transfer>, code: ErrorCode) {
    exists x :: x in ts && InOrderBefore(ts, x) && FaultOf(ts, x, code)
  }

  /** Two records tied for the first trouble, one of them late and one not: whichever is listed first decides. */
  ghost predicate CodeDepends(ts: seq<Transfer>) {
    exists x, y :: x in ts && y in ts && Tie(x, y) && InOrderBefore(ts, x) && Late(ts, x) && !Late(ts, y)
  }

  /** Some listing of the records is refused with the code. */
  ghost predicate Refused(ts: seq<Transfer>, code: ErrorCode) {
    exists us :: SameElements(us, ts) && Verdict(us) == Failure(code)
  }

  /**
   * Over all listings of the records the verdict is one and the same exactly when the records conflict, so that
   * nothing is ever sorted, or no two of them tie for the first trouble with one late and one not.
   */
  lemma CodeDeterminedIff(ts: seq<Transfer>)
    ensures (forall us, vs :: SameElements(us, ts) && SameElements(vs, ts) ==> Verdict(us) == Verdict(vs)) <==>
            !(ConflictFree(ts) && CodeDepends(ts))
  {
    if ConflictFree(ts) && CodeDepends(ts) {
      DependsIffBoth(ts);
      RefusedIff(ts, AMBIGUOUS_ORDER);
      RefusedIff(ts, NONMONOTONIC_TIMESTAMP);
      var us :| SameElements(us, ts) && Verdict(us) == Failure(AMBIGUOUS_ORDER);
      var vs :| SameElements(vs, ts) && Verdict(vs) == Failure(NONMONOTONIC_TIMESTAMP);
      assert Verdict(us) != Verdict(vs);
    } else {
      forall us, vs | SameElements(us, ts) && SameElements(vs, ts)
        ensures Verdict(us) == Verdict(vs)
      {
        VerdictsAgree(ts, us, vs);
      }
    }
  }

  /** A conflict refuses every listing; otherwise a code is met in some listing exactly when the records allow it. */
  lemma RefusedIff(ts: seq<Transfer>, code: ErrorCode)
    ensures Refused(ts, code) <==> if ConflictFree(ts) then CanReport(ts, code) else code == CONFLICTING_LOG
  {
    if !ConflictFree(ts) {
      assert SameElements(ts, ts) && Verdict(ts) == Failure(CONFLICTING_LOG);
      forall us | SameElements(us, ts)
        ensures Verdict(us) == Failure(CONFLICTING_LOG)
      {
        ConflictIsShared(ts, us);
      }
    } else if Refused(ts, code) {
      var us :| SameElements(us, ts) && Verdict(us) == Failure(code);
      ConflictIsShared(ts, us);
      ReportMeans(us, ts, code);
    } else if CanReport(ts, code) {
      SomeListingReports(ts, code);
    }
  }

  lemma ConflictIsShared(ts: seq<Transfer>, us: seq<Transfer>)
    requires SameElements(us, ts)
    ensures ConflictFree(us) <==> ConflictFree(ts)
  {
  }

  lemma SomeListingReports(ts: seq<Transfer>, code: ErrorCode)
    requires ConflictFree(ts) && CanReport(ts, code)
    ensures Refused(ts, code)
  {
    var x :| x in ts && InOrderBefore(ts, x) && FaultOf(ts, x, code);
    var us := [x] + ts;
    assert SameElements(us, ts);
    ListedFirst(ts, x, code);
    FaultIsVerdict(ts, us, code);
  }

  lemma FaultIsVerdict(ts: seq<Transfer>, us: seq<Transfer>, code: ErrorCode)
    requires ConflictFree(ts) && SameElements(us, ts) && OrderFault(History(us)) == Some(code)
    ensures Verdict(us) == Failure(code) && Refused(ts, code)
  {
    ConflictIsShared(ts, us);
  }

  lemma VerdictsAgree(ts: seq<Transfer>, us: seq<Transfer>, vs: seq<Transfer>)
    requires SameElements(us, ts) && SameElements(vs, ts) && !(ConflictFree(ts) && CodeDepends(ts))
    ensures Verdict(us) == Verdict(vs)
  {
    ConflictIsShared(ts, us);
    ConflictIsShared(ts, vs);
    if ConflictFree(ts) {
      FaultsAgree(ts, us, vs);
      if OrderFault(History(us)).None? {
        NoFaultIffOrdered(ts, us);
        OrderAndDuplicatesIrrelevant(us, ts);
        OrderAndDuplicatesIrrelevant(vs, ts);
      }
    }
  }

  lemma FaultsAgree(ts: seq<Transfer>, us: seq<Transfer>, vs: seq<Transfer>)
    requires SameElements(us, ts) && SameElements(vs, ts) && !CodeDepends(ts)
    ensures OrderFault(History(us)) == OrderFault(History(vs))
  {
    DependsIffBoth(ts);
    NoFaultIffOrdered(ts, us);
    NoFaultIffOrdered(ts, vs);
    FaultCodes(History(us));
    FaultCodes(History(vs));
    if OrderFault(History(us)).Some? && OrderFault(History(vs)).Some? {
      ReportMeans(us, ts, OrderFault(History(us)).value);
      ReportMeans(vs, ts, OrderFault(History(vs)).value);
    }
  }

  lemma ListingOf(us: seq<Transfer>, ts: seq<Transfer>)
    requires SameElements(us, ts)
    ensures Ordered(History(us), NotAfter) && Distinct(History(us)) && SameElements(History(us), ts)
  {
    SortKeepsDistinct(Deduplicated(us), NotAfter);
  }

  lemma NoFaultIffOrdered(ts: seq<Transfer>, us: seq<Transfer>)
    requires SameElements(us, ts)
    ensures OrderFault(History(us)).None? <==> Unambiguous(ts) && ClockFollowsChain(ts)
  {
    ListingOf(us, ts);
    if OrderFault(History(us)).None? {
      SoundNeighbours(History(us));
      NeighboursSuffice(History(us), ts);
    } else {
      FaultCodes(History(us));
      ReportMeans(us, ts, OrderFault(History(us)).value);
    }
  }

  // ---- The two ways to be first in trouble ----------------------------------------------

  lemma TiedAlike(x: Transfer, y: Transfer, a: Transfer)
    requires Tie(x, y)
    ensures (Before(a, x) <==> Before(a, y)) && (Before(x, a) <==> Before(y, a))
  {
  }

  lemma BeforeAll(a: Transfer, b: Transfer, c: Transfer)
    requires Before(a, b) && Before(b, c)
    ensures Before(a, c)
  {
  }

  lemma DependsIffBoth(ts: seq<Transfer>)
    ensures CodeDepends(ts) <==> CanReport(ts, AMBIGUOUS_ORDER) && CanReport(ts, NONMONOTONIC_TIMESTAMP)
  {
    if CanReport(ts, AMBIGUOUS_ORDER) && CanReport(ts, NONMONOTONIC_TIMESTAMP) {
      var y :| y in ts && InOrderBefore(ts, y) && FaultOf(ts, y, AMBIGUOUS_ORDER);
      var x :| x in ts && InOrderBefore(ts, x) && FaultOf(ts, x, NONMONOTONIC_TIMESTAMP);
      FirstTroublesTie(ts, x, y);
    }
    if CodeDepends(ts) {
      var x, y :| x in ts && y in ts && Tie(x, y) && InOrderBefore(ts, x) && Late(ts, x) && !Late(ts, y);
      assert FaultOf(ts, x, NONMONOTONIC_TIMESTAMP);
      forall a
        ensures Before(a, y) <==> Before(a, x)
      {
        TiedAlike(x, y, a);
      }
      assert TiedIn(ts, y) by { assert x != y && Tie(y, x); }
      assert InOrderBefore(ts, y) && FaultOf(ts, y, AMBIGUOUS_ORDER);
    }
  }

  /** Two records with an orderly past, one late and one tied and in time, share their position. */
  lemma FirstTroublesTie(ts: seq<Transfer>, x: Transfer, y: Transfer)
    requires x in ts && InOrderBefore(ts, x) && Late(ts, x)
    requires y in ts && InOrderBefore(ts, y) && TiedIn(ts, y) && !Late(ts, y)
    ensures Tie(x, y)
  {
    if Before(x, y) {
      var u :| u in ts && Before(u, x) && x.timestamp < u.timestamp;
      BeforeAll(u, x, y);
      assert false;
    }
    if Before(y, x) {
      var z :| z in ts && z != y && Tie(y, z);
      TiedAlike(y, z, x);
      assert false;
    }
  }

  // ---- From the report to the records ---------------------------------------------------

  lemma {:induction false} FirstFault(h: seq<Transfer>) returns (i: nat)
    requires OrderFault(h).Some?
    ensures 0 < i < |h| && OrderFault(h[..i]).None? && OrderFault(h[..i + 1]) == OrderFault(h)
  {
    var front := h[..|h| - 1];
    if OrderFault(front).Some? {
      i := FirstFault(front);
      assert front[..i] == h[..i] && front[..i + 1] == h[..i + 1];
    } else {
      i := |h| - 1;
      assert h[..i + 1] == h;
    }
  }

  /** The first i records of a sorted listing are pairwise in order. */
  ghost predicate SoundUpTo(h: seq<Transfer>, i: nat)
    requires i <= |h|
  {
    && (forall j, k :: 0 <= j < k < i ==> Before(h[j], h[k]))
    && (forall j, k :: 0 <= j < k < i ==> h[j].timestamp <= h[k].timestamp)
  }

  lemma SoundPairs(h: seq<Transfer>, i: nat)
    requires Ordered(h, NotAfter) && i <= |h| && OrderFault(h[..i]).None?
    ensures SoundUpTo(h, i)
  {
    var front := h[..i];
    SoundNeighbours(front);
    AdjacentOrdered(front, Before);
    AdjacentOrdered(front, NoLater);
    forall j, k | 0 <= j < k < i
      ensures Before(h[j], h[k]) && h[j].timestamp <= h[k].timestamp
    {
      assert Before(front[j], front[k]) && NoLater(front[j], front[k]);
    }
  }

  /** What lies strictly before place k lies in front of it. */
  lemma PlaceOf(h: seq<Transfer>, ts: seq<Transfer>, k: nat, y: Transfer) returns (j: nat)
    requires Ordered(h, NotAfter) && SameElements(h, ts) && k < |h| && y in ts && Before(y, h[k])
    ensures j < k && h[j] == y
  {
    j :| 0 <= j < |h| && h[j] == y;
    assert j > k ==> NotAfter(h[k], h[j]);
  }

  lemma SoundPast(h: seq<Transfer>, ts: seq<Transfer>, k: nat)
    requires Ordered(h, NotAfter) && SameElements(h, ts) && k < |h| && SoundUpTo(h, k)
    ensures InOrderBefore(ts, h[k])
  {
    forall a, b | a in ts && b in ts && a != b && Before(a, h[k]) && Before(b, h[k])
      ensures InOrder(a, b)
    {
      var i := PlaceOf(h, ts, k, a);
      var j := PlaceOf(h, ts, k, b);
      if i < j { assert Before(h[i], h[j]); } else { assert Before(h[j], h[i]); }
    }
  }

  /** The reported code names the first trouble of the records. */
  lemma ReportMeans(us: seq<Transfer>, ts: seq<Transfer>, code: ErrorCode)
    requires SameElements(us, ts) && OrderFault(History(us)) == Some(code)
    ensures CanReport(ts, code)
  {
    var h := History(us);
    ListingOf(us, ts);
    var i := FirstFault(h);
    SoundPairs(h, i);
    FaultStep(h, i);
    if Tie(h[i - 1], h[i]) {
      TieMeans(h, ts, i);
    } else {
      LateMeans(h, ts, i);
    }
  }

  lemma TieMeans(h: seq<Transfer>, ts: seq<Transfer>, i: nat)
    requires Ordered(h, NotAfter) && Distinct(h) && SameElements(h, ts)
    requires 0 < i < |h| && SoundUpTo(h, i) && Tie(h[i - 1], h[i])
    ensures CanReport(ts, AMBIGUOUS_ORDER)
  {
    var x := h[i - 1];
    assert x in ts && h[i] in ts && x != h[i];
    SoundPast(h, ts, i - 1);
    forall y | y in ts && Before(y, x)
      ensures y.timestamp <= x.timestamp
    {
      var j := PlaceOf(h, ts, i - 1, y);
    }
    assert FaultOf(ts, x, AMBIGUOUS_ORDER);
  }

  lemma LateMeans(h: seq<Transfer>, ts: seq<Transfer>, i: nat)
    requires Ordered(h, NotAfter) && SameElements(h, ts)
    requires 0 < i < |h| && SoundUpTo(h, i) && !Tie(h[i - 1], h[i]) && h[i].timestamp < h[i - 1].timestamp
    ensures CanReport(ts, NONMONOTONIC_TIMESTAMP)
  {
    SoundPast(h, ts, i);
    assert NotAfter(h[i - 1], h[i]) && h[i - 1] in ts && h[i] in ts;
    assert FaultOf(ts, h[i], NONMONOTONIC_TIMESTAMP);
  }

  // ---- From the records to a listing that reports ---------------------------------------

  /** Insertion puts an element before everything it ties with. */
  lemma {:induction false} InsertedFirst(x: Transfer, s: seq<Transfer>) returns (k: nat)
    requires Ordered(s, NotAfter)
    ensures var r := Insert(x, s, NotAfter);
            && k < |r| && r[k] == x
            && (forall j :: 0 <= j < k ==> Before(r[j], x))
            && (forall j :: k < j < |r| ==> NotAfter(x, r[j]))
  {
    var r := Insert(x, s, NotAfter);
    if s == [] || NotAfter(x, s[0]) {
      k := 0;
      forall j | 0 < j < |r|
        ensures NotAfter(x, r[j])
      {
        assert Ordered(r, NotAfter) && NotAfter(r[0], r[j]);
      }
    } else {
      var i := InsertedFirst(x, s[1..]);
      k := i + 1;
      assert r == [s[0]] + Insert(x, s[1..], NotAfter);
    }
  }

  lemma {:induction false} HeadKept(x: Transfer, ts: seq<Transfer>)
    ensures Deduplicated([x] + ts) != [] && Deduplicated([x] + ts)[0] == x
  {
    var all := [x] + ts;
    if ts == [] {
      assert all == [x] && all[..0] == [];
    } else {
      assert all[..|all| - 1] == [x] + ts[..|ts| - 1];
      HeadKept(x, ts[..|ts| - 1]);
    }
  }

  /** Listed first, a record comes first of all it ties with. */
  lemma PlacedFirst(x: Transfer, ts: seq<Transfer>) returns (k: nat)
    ensures var h := History([x] + ts);
            && k < |h| && h[k] == x
            && (forall j :: 0 <= j < k ==> Before(h[j], x))
            && (forall j :: k < j < |h| ==> NotAfter(x, h[j]))
  {
    HeadKept(x, ts);
    var d := Deduplicated([x] + ts);
    k := InsertedFirst(x, Sort(d[1..], NotAfter));
  }

  lemma {:induction false} SoundPrefix(h: seq<Transfer>, i: nat)
    requires i <= |h| && SoundUpTo(h, i)
    ensures OrderFault(h[..i]).None?
  {
    if i > 1 {
      SoundPrefix(h, i - 1);
      assert h[..i][..i - 1] == h[..i - 1];
      assert Before(h[i - 2], h[i - 1]);
    }
  }

  /** Whoever is first in trouble and listed first is what the scan reports. */
  lemma ListedFirst(ts: seq<Transfer>, x: Transfer, code: ErrorCode)
    requires x in ts && InOrderBefore(ts, x) && FaultOf(ts, x, code)
    ensures OrderFault(History([x] + ts)) == Some(code)
  {
    var h := History([x] + ts);
    var k := PlacedFirst(x, ts);
    assert SameElements([x] + ts, ts);
    ListingOf([x] + ts, ts);
    PastIsSound(h, ts, k);
    SoundPrefix(h, k);
    if code == NONMONOTONIC_TIMESTAMP {
      LateIsReported(h, ts, k);
    } else {
      TieIsReported(h, ts, k);
    }
  }

  lemma LateIsReported(h: seq<Transfer>, ts: seq<Transfer>, k: nat)
    requires Ordered(h, NotAfter) && SameElements(h, ts)
    requires k < |h| && SoundUpTo(h, k) && OrderFault(h[..k]).None? && Late(ts, h[k])
    requires forall j :: 0 <= j < k ==> Before(h[j], h[k])
    ensures OrderFault(h) == Some(NONMONOTONIC_TIMESTAMP)
  {
    var y :| y in ts && Before(y, h[k]) && h[k].timestamp < y.timestamp;
    var j := PlaceOf(h, ts, k, y);
    LateAfter(h, j, k);
  }

  lemma LateAfter(h: seq<Transfer>, j: nat, k: nat)
    requires j < k < |h| && SoundUpTo(h, k) && OrderFault(h[..k]).None?
    requires h[k].timestamp < h[j].timestamp && Before(h[k - 1], h[k])
    ensures OrderFault(h) == Some(NONMONOTONIC_TIMESTAMP)
  {
    assert j == k - 1 || h[j].timestamp <= h[k - 1].timestamp;
    FaultStep(h, k);
  }

  lemma TieIsReported(h: seq<Transfer>, ts: seq<Transfer>, k: nat)
    requires Ordered(h, NotAfter) && Distinct(h) && SameElements(h, ts)
    requires k < |h| && OrderFault(h[..k]).None? && TiedIn(ts, h[k]) && !Late(ts, h[k])
    requires forall j :: 0 <= j < k ==> Before(h[j], h[k])
    ensures OrderFault(h) == Some(AMBIGUOUS_ORDER)
  {
    if k > 0 {
      assert h[k - 1] in ts && Before(h[k - 1], h[k]);
      FaultStep(h, k);
    }
    TieFollows(h, ts, k);
    FaultStep(h, k + 1);
  }

  lemma PastIsSound(h: seq<Transfer>, ts: seq<Transfer>, k: nat)
    requires Ordered(h, NotAfter) && Distinct(h) && SameElements(h, ts) && k < |h| && InOrderBefore(ts, h[k])
    requires forall j :: 0 <= j < k ==> Before(h[j], h[k])
    ensures SoundUpTo(h, k)
  {
    forall i, j | 0 <= i < j < k
      ensures Before(h[i], h[j]) && h[i].timestamp <= h[j].timestamp
    {
      assert h[i] in ts && h[j] in ts && h[i] != h[j] && NotAfter(h[i], h[j]);
      assert InOrder(h[i], h[j]);
    }
  }

  lemma TieFollows(h: seq<Transfer>, ts: seq<Transfer>, k: nat)
    requires Ordered(h, NotAfter) && Distinct(h) && SameElements(h, ts) && k < |h| && TiedIn(ts, h[k])
    requires forall j :: 0 <= j < k ==> Before(h[j], h[k])
    ensures k + 1 < |h| && Tie(h[k], h[k + 1])
  {
    var y :| y in ts && y != h[k] && Tie(h[k], y);
    var j :| 0 <= j < |h| && h[j] == y;
    assert j > k;
    assert NotAfter(h[k], h[k + 1]);
    if j > k + 1 {
      assert NotAfter(h[k + 1], h[j]);
      TiedAlike(h[k], y, h[k + 1]);
    }
  }

  // ---- A history with both faults -------------------------------------------------------

  /** A log stamped 7 and, at one later place, two logs stamped 10 and 5: whichever of these is listed first decides. */
  lemma CodeDependsOnListing() returns (a: Transfer, b: Transfer, c: Transfer)
    ensures (a.timestamp, b.timestamp, c.timestamp) == (7, 10, 5)
    ensures SameElements([a, b, c], [a, c, b]) && ConflictFree([a, b, c])
    ensures Verdict([a, b, c]) == Failure(AMBIGUOUS_ORDER)
    ensures Verdict([a, c, b]) == Failure(NONMONOTONIC_TIMESTAMP)
  {
    a := Transfer(4663, 1, 0, 7, 0, 0, 7, 1, 2, 0);
    b := Transfer(4663, 2, 0, 10, 0, 0, 10, 1, 2, 0);
    c := Transfer(4663, 2, 0, 5, 0, 0, 5, 1, 2, 0);
    TwoVerdicts(a, b, c);
    OneRecordSet(a, b, c);
    ConflictIsShared([a, b, c], [a, c, b]);
  }

  lemma OneRecordSet(a: Transfer, b: Transfer, c: Transfer)
    requires IdentityOf(a) != IdentityOf(b) && IdentityOf(a) != IdentityOf(c) && IdentityOf(b) != IdentityOf(c)
    ensures SameElements([a, b, c], [a, c, b]) && ConflictFree([a, b, c])
  {
  }

  lemma TwoVerdicts(a: Transfer, b: Transfer, c: Transfer)
    requires a != b && a != c && b != c
    requires Before(a, b) && Tie(b, c) && c.timestamp < a.timestamp <= b.timestamp
    ensures Judged(History([a, b, c])) == Failure(AMBIGUOUS_ORDER)
    ensures Judged(History([a, c, b])) == Failure(NONMONOTONIC_TIMESTAMP)
  {
    TiedAlike(b, c, a);
    TieThird(a, b, c);
    LateSecond(a, c, b);
  }

  lemma InPlaceOrder(a: Transfer, b: Transfer, c: Transfer)
    requires a != b && a != c && b != c && Before(a, b) && Tie(b, c)
    ensures Distinct([a, b, c]) && Ordered([a, b, c], NotAfter)
  {
    TiedAlike(b, c, a);
    assert NotAfter(a, b) && NotAfter(b, c) && NotAfter(a, c);
  }

  lemma TieThird(a: Transfer, b: Transfer, c: Transfer)
    requires a != b && a != c && b != c && Before(a, b) && Tie(b, c) && a.timestamp <= b.timestamp
    ensures OrderFault(History([a, b, c])) == Some(AMBIGUOUS_ORDER)
  {
    var h := [a, b, c];
    InPlaceOrder(a, b, c);
    OrderedIsHistory(h);
    assert h[..2] == [a, b] && h[..3] == h;
    FaultsOfTwo(a, b);
    FaultStep(h, 2);
  }

  lemma LateSecond(a: Transfer, b: Transfer, c: Transfer)
    requires a != b && a != c && b != c && Before(a, b) && Tie(b, c) && b.timestamp < a.timestamp
    ensures OrderFault(History([a, b, c])) == Some(NONMONOTONIC_TIMESTAMP)
  {
    var h := [a, b, c];
    InPlaceOrder(a, b, c);
    OrderedIsHistory(h);
    assert h[..2] == [a, b];
    FaultsOfTwo(a, b);
    FirstFaultStays(h, 2);
  }

  lemma FaultsOfTwo(a: Transfer, b: Transfer)
    requires Before(a, b)
    ensures OrderFault([a, b]) == if b.timestamp < a.timestamp then Some(NONMONOTONIC_TIMESTAMP) else None
  {
    assert [a, b][..1] == [a] && OrderFault([a]).None?;
  }

  /** A listing that is already sorted, ties included, is its own history. */
  lemma OrderedIsHistory(h: seq<Transfer>)
    requires Distinct(h) && Ordered(h, NotAfter)
    ensures History(h) == h
  {
    DistinctStays(h);
    OrderedStays(h);
  }

  lemma {:induction false} DistinctStays(h: seq<Transfer>)
    requires Distinct(h)
    ensures Deduplicated(h) == h
  {
    if h != [] {
      DistinctStays(h[..|h| - 1]);
      assert h == h[..|h| - 1] + [h[|h| - 1]];
    }
  }

  lemma {:induction false} OrderedStays(h: seq<Transfer>)
    requires Ordered(h, NotAfter)
    ensures Sort(h, NotAfter) == h
  {
    if h != [] {
      OrderedStays(h[1..]);
      assert h[1..] != [] ==> NotAfter(h[0], h[1]);
    }
  }
}
