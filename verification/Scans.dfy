/** Chunked log scans: the web client's reader and the indexer's pinned reader. */
module Scans {
  import opened Results
  import opened PodModel

  /** A log as delivered; pending logs lack positions. Names and data are the payload. */
  datatype RawLog = RawLog(transactionHash: Option<Hash>, logIndex: Option<nat>, blockNumber: Option<nat>,
        event: string, data: nat)

  /** A node's answer to a range query; absent when the call fails. */
  type LogNode = (int, int) -> Option<seq<RawLog>>

  type Window = (int, int)

  // ---- Windows --------------------------------------------------------------------------

  function Min(a: int, b: int): int { if a < b then a else b }

  /** Consecutive windows of the given size over lo..hi, the last one cut at hi. */
  function Windows(lo: int, hi: int, size: int): seq<Window>
    requires size >= 1 || hi < lo
    decreases hi - lo
  {
    if hi < lo then [] else [(lo, Min(lo + size - 1, hi))] + Windows(lo + size, hi, size)
  }

  predicate Covers(w: Window, block: int) {
    w.0 <= block <= w.1
  }

  /** Each block of the range lies in exactly one window, no window leaves the range, none is longer than asked. */
  lemma {:induction false} WindowsPartition(lo: int, hi: int, size: int, block: int)
    requires size >= 1
    ensures forall i :: 0 <= i < |Windows(lo, hi, size)| ==>
              var w := Windows(lo, hi, size)[i]; lo <= w.0 <= w.1 <= hi && w.1 - w.0 < size
    ensures lo <= block <= hi ==>
              exists i :: 0 <= i < |Windows(lo, hi, size)| && Covers(Windows(lo, hi, size)[i], block)
    ensures forall i, j :: 0 <= i < j < |Windows(lo, hi, size)| ==>
              Windows(lo, hi, size)[i].1 < Windows(lo, hi, size)[j].0
    decreases hi - lo
  {
    if lo <= hi {
      var rest := Windows(lo + size, hi, size);
      WindowsPartition(lo + size, hi, size, block);
      assert Windows(lo, hi, size)[1..] == rest;
      if lo <= block <= hi {
        if block < lo + size {
          assert Covers(Windows(lo, hi, size)[0], block);
        } else {
          var i :| 0 <= i < |rest| && Covers(rest[i], block);
          assert Covers(Windows(lo, hi, size)[i + 1], block);
        }
      }
    }
  }

  ghost predicate Answered(node: LogNode, ws: seq<Window>) {
    forall w :: w in ws ==> node(w.0, w.1).Some?
  }

  /** The answers to the windows, in order. */
  ghost function Answers(node: LogNode, ws: seq<Window>): seq<RawLog>
    requires Answered(node, ws)
  {
    if ws == [] then [] else node(ws[0].0, ws[0].1).value + Answers(node, ws[1..])
  }

  /** All logs of the blocks lo..hi of a chain. */
  function Range(chain: int -> seq<RawLog>, lo: int, hi: int): seq<RawLog>
    decreases hi - lo
  {
    if hi < lo then [] else Range(chain, lo, hi - 1) + chain(hi)
  }

  /** A node that, whenever it answers, answers with the chain's logs. */
  ghost predicate Serves(node: LogNode, chain: int -> seq<RawLog>) {
    forall a, b :: node(a, b).Some? ==> node(a, b).value == Range(chain, a, b)
  }

  lemma {:induction false} RangeSplit(chain: int -> seq<RawLog>, lo: int, mid: int, hi: int)
    requires lo <= mid + 1 && mid <= hi
    ensures Range(chain, lo, hi) == Range(chain, lo, mid) + Range(chain, mid + 1, hi)
    decreases hi - mid
  {
    if mid < hi {
      RangeSplit(chain, lo, mid, hi - 1);
    }
  }

  lemma {:induction false} RangeElements(chain: int -> seq<RawLog>, lo: int, hi: int)
    ensures forall l :: l in Range(chain, lo, hi) <==> exists b :: lo <= b <= hi && l in chain(b)
    decreases hi - lo
  {
    if lo <= hi { RangeElements(chain, lo, hi - 1); }
  }

  /** Whatever the chunk size, the windows together answer one whole-range query. */
  lemma {:induction false} WindowsAnswerRange(node: LogNode, chain: int -> seq<RawLog>, lo: int, hi: int, size: int)
    requires size >= 1 && Serves(node, chain)
    requires Answered(node, Windows(lo, hi, size))
    ensures Answers(node, Windows(lo, hi, size)) == Range(chain, lo, hi)
    decreases hi - lo
  {
    if lo <= hi {
      var ws := Windows(lo, hi, size);
      var mid := Min(lo + size - 1, hi);
      assert ws[0] in ws && ws[1..] == Windows(lo + size, hi, size);
      WindowsAnswerRange(node, chain, lo + size, hi, size);
      RangeSplit(chain, lo, mid, hi);
    }
  }

  lemma {:induction false} AnswersConcat(node: LogNode, ws: seq<Window>, vs: seq<Window>)
    requires Answered(node, ws) && Answered(node, vs)
    ensures Answers(node, ws + vs) == Answers(node, ws) + Answers(node, vs)
  {
    if ws == [] {
      assert ws + vs == vs;
    } else {
      assert (ws + vs)[1..] == ws[1..] + vs;
      AnswersConcat(node, ws[1..], vs);
    }
  }

  /** One step of a scan: the next window is next in the list, and its answer extends the answers. */
  lemma WindowStep(node: LogNode, done: seq<Window>, start: int, hi: int, size: int)
    requires size >= 1 && start <= hi && Answered(node, done)
    ensures var w := (start, Min(start + size - 1, hi));
            && done + Windows(start, hi, size) == done + [w] + Windows(start + size, hi, size)
            && w in done + Windows(start, hi, size)
            && (node(w.0, w.1).Some? ==>
                  && Answered(node, done + [w])
                  && Answers(node, done + [w]) == Answers(node, done) + node(w.0, w.1).value)
  {
    var w := (start, Min(start + size - 1, hi));
    assert Windows(start, hi, size) == [w] + Windows(start + size, hi, size);
    assert (done + Windows(start, hi, size))[|done|] == w;
    if node(w.0, w.1).Some? {
      AnswersConcat(node, done, [w]);
      assert Answers(node, [w]) == node(w.0, w.1).value + Answers(node, [w][1..]);
    }
  }

  // ---- Deduplication --------------------------------------------------------------------

  /** One log of one transaction. */
  predicate SameLog(a: RawLog, b: RawLog) {
    && a.transactionHash.Some? && b.transactionHash.Some? && a.transactionHash.value == b.transactionHash.value
    && a.logIndex.Some? && b.logIndex.Some? && a.logIndex.value == b.logIndex.value
  }

  predicate SeenIn(logs: seq<RawLog>, l: RawLog) {
    exists i :: 0 <= i < |logs| && SameLog(logs[i], l)
  }

  /** First log of each identity, in order; logs without an identity all stay. */
  function Dedupe(logs: seq<RawLog>): seq<RawLog> {
    if logs == [] then []
    else
      var front, last := logs[..|logs| - 1], logs[|logs| - 1];
      if SeenIn(front, last) then Dedupe(front) else Dedupe(front) + [last]
  }

  method DedupeLogs(logs: seq<RawLog>) returns (out: seq<RawLog>)
    ensures out == Dedupe(logs)
  {
    var seen: set<(Hash, nat)> := {};
    out := [];
    for i := 0 to |logs|
      invariant out == Dedupe(logs[..i])
      invariant forall hash, index :: (hash, index) in seen <==>
                  exists j :: 0 <= j < i && logs[j].transactionHash == Some(hash) && logs[j].logIndex == Some(index)
    {
      var l := logs[i];
      assert logs[..i + 1][..i] == logs[..i];
      if l.transactionHash.None? || l.logIndex.None? {
        out := out + [l];
        continue;
      }
      var key := (l.transactionHash.value, l.logIndex.value);
      assert key in seen <==> SeenIn(logs[..i], l);
      if key in seen { continue; }
      seen := seen + {key};
      out := out + [l];
    }
    assert logs[..|logs|] == logs;
  }

  /** Identities survive, each once; nothing is invented; logs without an identity all stay. */
  lemma {:induction false} DedupeIsExact(logs: seq<RawLog>)
    ensures forall l :: l in Dedupe(logs) ==> l in logs
    ensures forall l :: SeenIn(logs, l) <==> SeenIn(Dedupe(logs), l)
    ensures forall i, j :: 0 <= i < j < |Dedupe(logs)| ==> !SameLog(Dedupe(logs)[i], Dedupe(logs)[j])
    ensures forall l: RawLog :: l.transactionHash.None? || l.logIndex.None? ==>
              multiset(Dedupe(logs))[l] == multiset(logs)[l]
  {
    if logs != [] {
      var front, last := logs[..|logs| - 1], logs[|logs| - 1];
      assert logs == front + [last];
      DedupeIsExact(front);
      DedupeKeepsIdentities(logs);
    } else {
      DedupeKeepsIdentities(logs);
    }
  }

  lemma {:induction false} DedupeKeepsIdentities(logs: seq<RawLog>)
    ensures forall l :: SeenIn(logs, l) <==> SeenIn(Dedupe(logs), l)
  {
    if logs != [] {
      var front, last := logs[..|logs| - 1], logs[|logs| - 1];
      assert logs == front + [last];
      DedupeKeepsIdentities(front);
      SeenStep(front, last);
      SeenStep(Dedupe(front), last);
      if SeenIn(front, last) { SameKeySeen(front, last); }
    }
  }

  lemma SameKeySeen(front: seq<RawLog>, last: RawLog)
    requires SeenIn(front, last)
    ensures forall l :: SameLog(last, l) ==> SeenIn(front, l)
  {
  }

  lemma SeenStep(front: seq<RawLog>, last: RawLog)
    ensures forall l :: SeenIn(front + [last], l) <==>
            SeenIn(front, l) || SameLog(last, l)
  {
    forall l | SeenIn(front, l)
      ensures SeenIn(front + [last], l)
    {
      var i :| 0 <= i < |front| && SameLog(front[i], l);
      assert (front + [last])[i] == front[i];
    }
    assert (front + [last])[|front|] == last;
  }

  lemma {:induction false} DedupeIdempotent(logs: seq<RawLog>)
    ensures Dedupe(Dedupe(logs)) == Dedupe(logs)
  {
    if logs != [] {
      var front, last := logs[..|logs| - 1], logs[|logs| - 1];
      DedupeIdempotent(front);
      DedupeIsExact(front);
      if !SeenIn(front, last) {
        assert (Dedupe(front) + [last])[..|Dedupe(front)|] == Dedupe(front);
      }
    }
  }

  // ---- The web client's reader ----------------------------------------------------------

  /** Where turn k of the loop starts, for any chunk size whatever. */
  function StartAt(lo: int, size: int, k: nat): int {
    if k == 0 then lo else StartAt(lo, size, k - 1) + size
  }

  function WindowAt(lo: int, hi: int, size: int, k: nat): Window {
    (StartAt(lo, size, k), Min(StartAt(lo, size, k) + size - 1, hi))
  }

  /** The windows of the first n turns. */
  function Turns(lo: int, hi: int, size: int, n: nat): (ws: seq<Window>)
    ensures |ws| == n
  {
    if n == 0 then [] else Turns(lo, hi, size, n - 1) + [WindowAt(lo, hi, size, n - 1)]
  }

  ghost predicate Refused(node: LogNode, w: Window) {
    node(w.0, w.1).None?
  }

  /** The loop goes no further than turn k: its start has passed the end, or the node refuses its window. */
  ghost predicate EndsBy(node: LogNode, lo: int, hi: int, size: int, k: nat) {
    hi < StartAt(lo, size, k) || Refused(node, WindowAt(lo, hi, size, k))
  }

  ghost predicate LoopEnds(node: LogNode, lo: int, hi: int, size: int) {
    exists k: nat :: EndsBy(node, lo, hi, size, k)
  }

  /** The loop gets through k turns. */
  ghost predicate Passes(node: LogNode, lo: int, hi: int, size: int, k: nat) {
    forall j: nat :: j < k ==> !EndsBy(node, lo, hi, size, j)
  }

  /** After k answered turns the loop has run out of blocks, or the node refuses the next window. */
  ghost predicate Stops(node: LogNode, lo: int, hi: int, size: int, k: nat, asked: seq<Window>,
        failed: Option<Window>) {
    && Passes(node, lo, hi, size, k)
    && if failed.None? then hi < StartAt(lo, size, k) && asked == Turns(lo, hi, size, k)
       else StartAt(lo, size, k) <= hi && failed.value == WindowAt(lo, hi, size, k) && Refused(node, failed.value)
            && asked == Turns(lo, hi, size, k + 1)
  }

  ghost predicate ScanEnds(node: LogNode, lo: int, hi: int, size: int, asked: seq<Window>, failed: Option<Window>) {
    exists k: nat :: Stops(node, lo, hi, size, k, asked, failed)
  }

  /** The windows asked for up to and including the first one the node refuses. */
  ghost predicate StoppedIn(node: LogNode, ws: seq<Window>, asked: seq<Window>) {
    asked != [] && asked <= ws && Answered(node, asked[..|asked| - 1]) && Refused(node, asked[|asked| - 1])
  }

  /** With a positive size: all windows of the range, or those up to the first refusal. */
  ghost predicate WindowsScanned(node: LogNode, ws: seq<Window>, asked: seq<Window>, failed: Option<Window>) {
    && (failed.None? <==> Answered(node, ws))
    && if failed.None? then asked == ws else StoppedIn(node, ws, asked) && failed.value == asked[|asked| - 1]
  }

  function ErrorOf<T, E>(r: Result<T, E>): Option<E> {
    if r.Failure? then Some(r.error) else None
  }

  /** Never reads past head - confirmations; fails closed on the first window the node refuses. */
  method GetLogsChunked(node: LogNode, fromBlock: int, headBlock: int, confirmations: int, chunkSize: int)
      returns (r: Result<seq<RawLog>, Window>, asked: seq<Window>)
    requires LoopEnds(node, fromBlock, headBlock - confirmations, chunkSize)
    ensures ScanEnds(node, fromBlock, headBlock - confirmations, chunkSize, asked, ErrorOf(r))
    ensures r.Success? ==> Answered(node, asked) && r.value == Dedupe(Answers(node, asked))
    ensures chunkSize >= 1 || headBlock - confirmations < fromBlock ==>
              WindowsScanned(node, Windows(fromBlock, headBlock - confirmations, chunkSize), asked, ErrorOf(r))
    ensures chunkSize < 1 && fromBlock <= headBlock - confirmations ==> r.Failure?
  {
    var safeHead := headBlock - confirmations;
    if safeHead < fromBlock {
      assert Stops(node, fromBlock, safeHead, chunkSize, 0, [], None);
      return Success([]), [];
    }
    r, asked := FetchWindows(node, fromBlock, safeHead, chunkSize);
    InWindows(node, fromBlock, safeHead, chunkSize, asked, ErrorOf(r));
    if r.Success? {
      var deduped := DedupeLogs(r.value);
      r := Success(deduped);
    }
  }

  method FetchWindows(node: LogNode, lo: int, hi: int, size: int)
      returns (r: Result<seq<RawLog>, Window>, asked: seq<Window>)
    requires LoopEnds(node, lo, hi, size)
    ensures ScanEnds(node, lo, hi, size, asked, ErrorOf(r))
    ensures r.Success? ==> Answered(node, asked) && r.value == Answers(node, asked)
  {
    ghost var last: nat :| EndsBy(node, lo, hi, size, last);
    var all: seq<RawLog> := [];
    asked := [];
    var start := lo;
    while start <= hi
      invariant start == StartAt(lo, size, |asked|) && asked == Turns(lo, hi, size, |asked|)
      invariant Passes(node, lo, hi, size, |asked|) && |asked| <= last
      invariant Answered(node, asked) && all == Answers(node, asked)
      decreases last - |asked|
    {
      ghost var done, turn := asked, |asked|;
      var end := if start + size - 1 > hi then hi else start + size - 1;
      asked := asked + [(start, end)];
      assert asked == Turns(lo, hi, size, turn + 1);
      var logs := node(start, end);
      if logs.None? {
        assert Stops(node, lo, hi, size, turn, asked, Some((start, end)));
        return Failure((start, end)), asked;
      }
      AnswersGrow(node, done, (start, end));
      all := all + logs.value;
      start := start + size;
    }
    assert Stops(node, lo, hi, size, |asked|, asked, None);
    return Success(all), asked;
  }

  lemma AnswersGrow(node: LogNode, done: seq<Window>, w: Window)
    requires Answered(node, done) && node(w.0, w.1).Some?
    ensures Answered(node, done + [w]) && Answers(node, done + [w]) == Answers(node, done) + node(w.0, w.1).value
  {
    AnswersConcat(node, done, [w]);
    assert Answers(node, [w]) == node(w.0, w.1).value + Answers(node, [w][1..]);
  }

  /** For positive sizes the turns taken are the first windows of the range, and all were answered. */
  lemma {:induction false} TurnsAreWindows(node: LogNode, lo: int, hi: int, size: int, n: nat)
    requires size >= 1 && Passes(node, lo, hi, size, n)
    ensures Turns(lo, hi, size, n) + Windows(StartAt(lo, size, n), hi, size) == Windows(lo, hi, size)
    ensures Answered(node, Turns(lo, hi, size, n))
  {
    if n > 0 {
      TurnsAreWindows(node, lo, hi, size, n - 1);
      assert !EndsBy(node, lo, hi, size, n - 1);
      WindowStep(node, Turns(lo, hi, size, n - 1), StartAt(lo, size, n - 1), hi, size);
    }
  }

  lemma StartNeverRises(lo: int, size: int, k: nat)
    requires size < 1
    ensures StartAt(lo, size, k) <= lo
  {
  }

  /** What a scan that ends has asked for, in terms of the windows of its range. */
  lemma InWindows(node: LogNode, lo: int, hi: int, size: int, asked: seq<Window>, failed: Option<Window>)
    requires lo <= hi && ScanEnds(node, lo, hi, size, asked, failed)
    ensures size >= 1 ==> WindowsScanned(node, Windows(lo, hi, size), asked, failed)
    ensures size < 1 ==> failed.Some?
  {
    var k: nat :| Stops(node, lo, hi, size, k, asked, failed);
    if size < 1 {
      StartNeverRises(lo, size, k);
    } else if failed.None? {
      TurnsAreWindows(node, lo, hi, size, k);
    } else {
      RefusedTurn(node, lo, hi, size, k);
    }
  }

  lemma RefusedTurn(node: LogNode, lo: int, hi: int, size: int, k: nat)
    requires size >= 1 && Passes(node, lo, hi, size, k)
    requires StartAt(lo, size, k) <= hi && Refused(node, WindowAt(lo, hi, size, k))
    ensures !Answered(node, Windows(lo, hi, size))
    ensures StoppedIn(node, Windows(lo, hi, size), Turns(lo, hi, size, k + 1))
  {
    var done, w := Turns(lo, hi, size, k), WindowAt(lo, hi, size, k);
    TurnsAreWindows(node, lo, hi, size, k);
    WindowStep(node, done, StartAt(lo, size, k), hi, size);
    assert Turns(lo, hi, size, k + 1) == done + [w] && (done + [w])[..k] == done;
  }

  /** The loop ends exactly for chunk sizes of at least one, empty ranges, and nodes that refuse some window. */
  lemma LoopEndsIff(node: LogNode, lo: int, hi: int, size: int)
    ensures LoopEnds(node, lo, hi, size) <==>
            size >= 1 || hi < lo || exists k: nat :: Refused(node, WindowAt(lo, hi, size, k))
  {
    if hi < lo {
      assert EndsBy(node, lo, hi, size, 0);
    } else if size >= 1 {
      StartsRise(lo, size, hi - lo + 1);
      assert EndsBy(node, lo, hi, size, hi - lo + 1);
    } else if LoopEnds(node, lo, hi, size) {
      var k: nat :| EndsBy(node, lo, hi, size, k);
      StartNeverRises(lo, size, k);
    } else if k: nat :| Refused(node, WindowAt(lo, hi, size, k)) {
      assert EndsBy(node, lo, hi, size, k);
    }
  }

  lemma StartsRise(lo: int, size: int, k: nat)
    requires size >= 1
    ensures StartAt(lo, size, k) >= lo + k
  {
  }

  /** Two runs with different chunk sizes against one chain return the same logs: those of one whole-range query. */
  lemma ChunkSizeIrrelevant(node: LogNode, chain: int -> seq<RawLog>, lo: int, hi: int, size: int)
    requires size >= 1 && Serves(node, chain)
    requires Answered(node, Windows(lo, hi, size))
    ensures Dedupe(Answers(node, Windows(lo, hi, size))) == Dedupe(Range(chain, lo, hi))
  {
    WindowsAnswerRange(node, chain, lo, hi, size);
  }

  // ---- The indexer's pinned reader ------------------------------------------------------

  const LOG_CHUNK: int := 45_000

  datatype ScanError = LOGS_ENDPOINT_CHAIN_MISMATCH | LOGS_ENDPOINT_HASH_MISMATCH | PENDING_LOG | RPC_FAILED

  /** What the two endpoints say about themselves and about the pinned block. */
  datatype Endpoints = Endpoints(primaryChain: nat, logsChain: nat, sameClient: bool, primaryHash: Hash, logsHash: Hash)

  predicate EndpointsAgree(e: Endpoints) {
    e.primaryChain == e.logsChain && (e.sameClient || e.primaryHash == e.logsHash)
  }

  /** The logs of one event, in order. */
  function Select(logs: seq<RawLog>, event: string): seq<RawLog> {
    if logs == [] then []
    else Select(logs[..|logs| - 1], event) + if logs[|logs| - 1].event == event then [logs[|logs| - 1]] else []
  }

  lemma {:induction false} SelectElements(logs: seq<RawLog>, event: string)
    ensures forall l :: l in Select(logs, event) <==> l in logs && l.event == event
  {
    if logs != [] {
      assert logs == logs[..|logs| - 1] + [logs[|logs| - 1]];
      SelectElements(logs[..|logs| - 1], event);
    }
  }

  predicate Positioned(l: RawLog) {
    l.blockNumber.Some? && l.logIndex.Some?
  }

  ghost predicate AllPositioned(logs: seq<RawLog>, event: string) {
    forall l :: l in logs && l.event == event ==> Positioned(l)
  }

  lemma {:induction false} SelectConcat(a: seq<RawLog>, b: seq<RawLog>, event: string)
    ensures Select(a + b, event) == Select(a, event) + Select(b, event)
    decreases |b|
  {
    if b == [] {
      assert a + b == a;
    } else {
      assert (a + b)[..|a + b| - 1] == a + b[..|b| - 1];
      SelectConcat(a, b[..|b| - 1], event);
    }
  }

  class RpcReader {
    var logsEndpointVerified: bool

    constructor ()
      ensures !logsEndpointVerified
    {
      logsEndpointVerified := false;
    }

    /** Checked until it passes once; afterwards taken as settled. */
    method AssertLogsEndpointChain(e: Endpoints) returns (error: Option<ScanError>)
      modifies this
      ensures error.None? <==> old(logsEndpointVerified) || EndpointsAgree(e)
      ensures logsEndpointVerified == (old(logsEndpointVerified) || EndpointsAgree(e))
      ensures error == Some(LOGS_ENDPOINT_CHAIN_MISMATCH) ==> e.primaryChain != e.logsChain
      ensures error.Some? && error.value != LOGS_ENDPOINT_CHAIN_MISMATCH ==>
                error.value == LOGS_ENDPOINT_HASH_MISMATCH && !e.sameClient && e.primaryHash != e.logsHash
    {
      if logsEndpointVerified { return None; }
      if e.primaryChain != e.logsChain { return Some(LOGS_ENDPOINT_CHAIN_MISMATCH); }
      if !e.sameClient && e.primaryHash != e.logsHash { return Some(LOGS_ENDPOINT_HASH_MISMATCH); }
      logsEndpointVerified := true;
      return None;
    }

    /** Nothing is asked of the node before the endpoints agree. */
    method Scan(e: Endpoints, node: LogNode, lo: int, hi: int, event: string)
        returns (r: Result<seq<RawLog>, ScanError>, asked: seq<Window>)
      modifies this
      ensures logsEndpointVerified == (old(logsEndpointVerified) || EndpointsAgree(e))
      ensures !logsEndpointVerified ==> asked == []
      ensures asked <= Windows(lo, hi, 45_001)
      ensures r.Success? <==> logsEndpointVerified && Scannable(node, Windows(lo, hi, 45_001), event)
      ensures r.Success? ==> asked == Windows(lo, hi, 45_001) && r.value == Select(Answers(node, asked), event)
      ensures r.Failure? && logsEndpointVerified ==> SpoiledIn(node, asked, event)
    {
      var error := AssertLogsEndpointChain(e);
      if error.Some? { return Failure(error.value), []; }
      r, asked := ScanWindows(node, lo, hi, LOG_CHUNK + 1, event);
    }
  }

  /** The last window asked for is the first that is refused or holds a pending log of the event. */
  ghost predicate SpoiledIn(node: LogNode, asked: seq<Window>, event: string) {
    asked != [] && Scannable(node, asked[..|asked| - 1], event) && !Scannable(node, asked, event)
  }

  /** Every window is answered and no log of the event is pending. */
  ghost predicate Scannable(node: LogNode, ws: seq<Window>, event: string) {
    Answered(node, ws) && AllPositioned(Answers(node, ws), event)
  }

  method ScanWindow(node: LogNode, w: Window, event: string) returns (r: Result<seq<RawLog>, ScanError>)
    ensures r.Success? <==> node(w.0, w.1).Some? && AllPositioned(node(w.0, w.1).value, event)
    ensures r.Success? ==> r.value == Select(node(w.0, w.1).value, event)
    ensures r.Failure? ==> r.error == if node(w.0, w.1).None? then RPC_FAILED else PENDING_LOG
  {
    var logs := node(w.0, w.1);
    if logs.None? { return Failure(RPC_FAILED); }
    r := PickEvent(logs.value, event);
  }

  method ScanWindows(node: LogNode, lo: int, hi: int, size: int, event: string)
      returns (r: Result<seq<RawLog>, ScanError>, asked: seq<Window>)
    requires size >= 1
    ensures asked <= Windows(lo, hi, size)
    ensures r.Success? <==> Scannable(node, Windows(lo, hi, size), event)
    ensures r.Success? ==> asked == Windows(lo, hi, size) && r.value == Select(Answers(node, asked), event)
    ensures r.Failure? ==> SpoiledIn(node, asked, event)
    ensures r.Failure? ==> r.error == PENDING_LOG || r.error == RPC_FAILED
  {
    var out: seq<RawLog> := [];
    asked := [];
    var start := lo;
    while start <= hi
      invariant Scanned(node, lo, hi, size, event, asked, start, out)
      decreases hi - start
    {
      var end := if start + size - 1 > hi then hi else start + size - 1;
      var logs := ScanWindow(node, (start, end), event);
      ScannedStep(node, lo, hi, size, event, asked, start, out);
      if logs.Failure? { return logs, asked + [(start, end)]; }
      out := out + logs.value;
      asked := asked + [(start, end)];
      start := start + size;
    }
    assert asked == Windows(lo, hi, size);
    return Success(out), asked;
  }

  /** The windows done so far are the first of the list, all scannable, and out holds their events. */
  ghost predicate Scanned(node: LogNode, lo: int, hi: int, size: int, event: string, done: seq<Window>, start: int,
        out: seq<RawLog>)
    requires size >= 1
  {
    && done + Windows(start, hi, size) == Windows(lo, hi, size)
    && Scannable(node, done, event)
    && out == Select(Answers(node, done), event)
  }

  lemma ScannedStep(node: LogNode, lo: int, hi: int, size: int, event: string, done: seq<Window>, start: int,
        out: seq<RawLog>)
    requires size >= 1 && start <= hi && Scanned(node, lo, hi, size, event, done, start, out)
    ensures var w := (start, Min(start + size - 1, hi));
            if node(w.0, w.1).Some? && AllPositioned(node(w.0, w.1).value, event)
            then Scanned(node, lo, hi, size, event, done + [w], start + size, out + Select(node(w.0, w.1).value, event))
            else !Scannable(node, Windows(lo, hi, size), event) && SpoiledIn(node, done + [w], event)
    ensures done + [(start, Min(start + size - 1, hi))] <= Windows(lo, hi, size)
  {
    var w := (start, Min(start + size - 1, hi));
    WindowStep(node, done, start, hi, size);
    if node(w.0, w.1).Some? && AllPositioned(node(w.0, w.1).value, event) {
      SelectStep(Answers(node, done), node(w.0, w.1).value, Answers(node, done + [w]), event);
    } else {
      FailedWindowSpoils(node, Windows(lo, hi, size), w, event);
      FailedWindowSpoils(node, done + [w], w, event);
      assert (done + [w])[..|done|] == done;
    }
  }

  lemma FailedWindowSpoils(node: LogNode, ws: seq<Window>, w: Window, event: string)
    requires w in ws && !(node(w.0, w.1).Some? && AllPositioned(node(w.0, w.1).value, event))
    ensures !Scannable(node, ws, event)
  {
    if Answered(node, ws) { AnswersContain(node, ws, w); }
  }

  lemma SelectStep(a: seq<RawLog>, b: seq<RawLog>, both: seq<RawLog>, event: string)
    requires both == a + b && AllPositioned(a, event) && AllPositioned(b, event)
    ensures AllPositioned(both, event) && Select(both, event) == Select(a, event) + Select(b, event)
  {
    SelectConcat(a, b, event);
  }

  lemma {:induction false} AnswersContain(node: LogNode, ws: seq<Window>, w: Window)
    requires w in ws && Answered(node, ws)
    ensures forall l :: l in node(w.0, w.1).value ==> l in Answers(node, ws)
  {
    if ws[0] != w { AnswersContain(node, ws[1..], w); }
  }

  method PickEvent(logs: seq<RawLog>, event: string) returns (r: Result<seq<RawLog>, ScanError>)
    ensures r.Success? <==> AllPositioned(logs, event)
    ensures r.Success? ==> r.value == Select(logs, event)
    ensures r.Failure? ==> r.error == PENDING_LOG
  {
    var out: seq<RawLog> := [];
    for i := 0 to |logs|
      invariant out == Select(logs[..i], event) && AllPositioned(logs[..i], event)
    {
      var l := logs[i];
      assert logs[..i + 1][..i] == logs[..i] && l in logs;
      if l.event != event { continue; }
      if l.blockNumber.None? || l.logIndex.None? { return Failure(PENDING_LOG); }
      out := out + [l];
    }
    assert logs[..|logs|] == logs;
    return Success(out);
  }

  /** The indexer's windows, too, amount to one query over the whole pinned range. */
  lemma ScanIsWholeRange(node: LogNode, chain: int -> seq<RawLog>, lo: int, hi: int, event: string)
    requires Serves(node, chain) && Answered(node, Windows(lo, hi, LOG_CHUNK + 1))
    ensures Select(Answers(node, Windows(lo, hi, LOG_CHUNK + 1)), event) == Select(Range(chain, lo, hi), event)
  {
    WindowsAnswerRange(node, chain, lo, hi, LOG_CHUNK + 1);
  }
}
