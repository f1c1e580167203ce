/** The indexer's chain-bound snapshot: candidate discovery, pinned weights, the same floor rule. */
module Snapshot {
  import opened Results
  import opened PodModel
  import opened Sums
  import opened Sorting
  import opened Twab
  import opened Eligibility
  import opened Allocation
  import opened Digests
  import opened Merkle
  import Scans

  datatype SnapshotError =
    | BAD_CHAIN_ID | BAD_BLOCK | ZERO_DISTRIBUTION | BAD_CYCLE | BAD_START_BLOCK | BAD_CLAIM_WINDOW
    | CHAIN_ID_MISMATCH | BLOCK_NOT_FOUND | BLOCK_HASH_MISMATCH | INDEXER_BEHIND | INCOMPLETE_COVERAGE
    | VAULT_NOT_DEPLOYED
    | MALFORMED_ACCOUNT | MALFORMED_RECORD | NEGATIVE_WEIGHT | NO_PARTICIPANTS
    | DUST_ONLY_DISTRIBUTION | OVER_ALLOCATION | PROOF_SELF_VERIFY_FAILED | LEAF_PARITY_MISMATCH
    | INVALID_ADDRESS  // of the address helper: the account of a LockWithdrawn record
    | ENCODER_RANGE  // no code of the pipeline: the exception of the ABI encoder

  /** A decoded event; the account is absent when the string is not an address. */
  datatype LockCreated = LockCreated(account: Option<Address>, lockId: int, blockNumber: int)

  datatype Request = Request(
    chainId: int, claimManager: Address, snapshotBlock: int, expectedBlockHash: Hash, enumerationStartBlock: int,
    distributionAsset: Address, distributionAmount: int, cycleId: int, claimStart: int, claimDeadline: int)

  datatype Header = Header(hash: Hash, timestamp: nat)

  /** Everything the pinned reads return; any chain at all. Of a LockWithdrawn record only its account matters. */
  datatype Reader = Reader(
    chainId: int, header: Option<Header>, syncedThrough: int, codeBeforeStart: bool, codeAtPin: bool,
    created: seq<LockCreated>, withdrawn: seq<Option<Address>>,
    lockCount: Address -> nat, positionWeight: (Address, int, nat) -> int, leafFor: (Address, int) -> Digest)

  datatype Enumeration = Enumeration(candidates: seq<Address>, excludedAfterSnapshot: nat, recordsSeen: nat)

  // ---- Candidate discovery --------------------------------------------------------------

  predicate WellFormed(r: LockCreated) {
    r.account.Some? && r.blockNumber >= 0 && r.lockId >= 0
  }

  ghost predicate Discovered(records: seq<LockCreated>, pin: int, w: Address) {
    exists r :: r in records && r.blockNumber <= pin && r.account == Some(w)
  }

  predicate AddressLt(a: Address, b: Address) { a < b }

  ghost predicate CandidatesOf(ws: seq<Address>, records: seq<LockCreated>, pin: int) {
    Ordered(ws, AddressLt) && forall w :: w in ws <==> Discovered(records, pin, w)
  }

  /** Accounts of the records up to the pin, in the order first seen. */
  function Accounts(records: seq<LockCreated>, pin: int): (ws: seq<Address>)
    ensures Distinct(ws) && forall w :: w in ws <==> Discovered(records, pin, w)
  {
    if records == [] then []
    else
      var front, last := records[..|records| - 1], records[|records| - 1];
      assert records == front + [last];
      if last.blockNumber <= pin && last.account.Some?
      then AddOnce(Accounts(front, pin), last.account.value)
      else Accounts(front, pin)
  }

  function CandidateList(records: seq<LockCreated>, pin: int): (ws: seq<Address>)
    ensures CandidatesOf(ws, records, pin)
  {
    var ws := Sort(Accounts(records, pin), AddressLeq);
    SortKeepsDistinct(Accounts(records, pin), AddressLeq);
    assert Ordered(ws, AddressLt) by {
      assert forall i, j :: 0 <= i < j < |ws| ==> AddressLeq(ws[i], ws[j]) && ws[i] != ws[j];
    }
    ws
  }

  /** The code that the first malformed record deserves. */
  ghost predicate Malformed(records: seq<LockCreated>, code: SnapshotError) {
    exists i :: 0 <= i < |records| && (forall j :: 0 <= j < i ==> WellFormed(records[j])) && Deserves(records[i], code)
  }

  /** A record without an account is not looked at further. */
  predicate Deserves(x: LockCreated, code: SnapshotError) {
    || (code == MALFORMED_ACCOUNT && x.account.None?)
    || (code == MALFORMED_RECORD && x.account.Some? && (x.blockNumber < 0 || x.lockId < 0))
  }

  /** How many records lie after the pin. */
  function After(records: seq<LockCreated>, pin: int): nat {
    if records == [] then 0
    else After(records[..|records| - 1], pin) + if records[|records| - 1].blockNumber > pin then 1 else 0
  }

  method EnumerateCandidates(records: seq<LockCreated>, snapshotBlock: int)
      returns (r: Result<Enumeration, SnapshotError>)
    ensures r.Success? <==> forall x :: x in records ==> WellFormed(x)
    ensures r.Success? ==> r.value.candidates == CandidateList(records, snapshotBlock)
    ensures r.Success? ==> CandidatesOf(r.value.candidates, records, snapshotBlock)
    ensures r.Success? ==> r.value.excludedAfterSnapshot == After(records, snapshotBlock)
    ensures r.Success? ==> r.value.recordsSeen == |records|
    ensures r.Failure? ==> r.error == MALFORMED_ACCOUNT || r.error == MALFORMED_RECORD
    ensures r.Failure? ==> Malformed(records, r.error)
  {
    var unique: seq<Address> := [];
    var excludedAfterSnapshot: nat := 0;
    for i := 0 to |records|
      invariant forall j :: 0 <= j < i ==> WellFormed(records[j])
      invariant unique == Accounts(records[..i], snapshotBlock)
      invariant excludedAfterSnapshot == After(records[..i], snapshotBlock)
    {
      var x := records[i];
      assert x in records && records[..i + 1][..i] == records[..i];
      if x.account.None? { return Failure(MALFORMED_ACCOUNT); }
      if x.blockNumber < 0 || x.lockId < 0 { return Failure(MALFORMED_RECORD); }
      if x.blockNumber > snapshotBlock {
        excludedAfterSnapshot := excludedAfterSnapshot + 1;
        continue;
      }
      unique := AddOnce(unique, x.account.value);
    }
    assert records[..|records|] == records;
    return Success(Enumeration(Sort(unique, AddressLeq), excludedAfterSnapshot, |records|));
  }

  /** Order and repetition of the event records do not change the candidates. */
  lemma CandidatesUnique(records: seq<LockCreated>, others: seq<LockCreated>, pin: int)
    requires SameElements(records, others)
    ensures CandidateList(records, pin) == CandidateList(others, pin)
  {
    forall w: Address
      ensures Discovered(records, pin, w) <==> Discovered(others, pin, w)
    {
      if r :| r in records && r.blockNumber <= pin && r.account == Some(w) { assert r in others; }
      if r :| r in others && r.blockNumber <= pin && r.account == Some(w) { assert r in records; }
    }
    OrderedListingUnique(CandidateList(records, pin), CandidateList(others, pin), AddressLt);
  }

  // ---- Pinned weights -------------------------------------------------------------------

  function PositionCurve(reader: Reader, w: Address, ts: nat): int -> int {
    (id: int) => reader.positionWeight(w, id, ts)
  }

  function WeightAt(reader: Reader, ts: nat, w: Address): int {
    Sum(PositionCurve(reader, w, ts), 0, reader.lockCount(w))
  }

  function AccountWeight(reader: Reader, ts: nat): Address -> int {
    (w: Address) => WeightAt(reader, ts, w)
  }

  ghost predicate PositionsNonNegative(reader: Reader, ts: nat, w: Address) {
    forall id :: 0 <= id < reader.lockCount(w) ==> reader.positionWeight(w, id, ts) >= 0
  }

  /** Candidates that hold any weight at the pin. */
  function Participants(ws: seq<Address>, weight: Address -> int): seq<Address> {
    if ws == [] then []
    else Participants(ws[..|ws| - 1], weight) + if weight(ws[|ws| - 1]) != 0 then [ws[|ws| - 1]] else []
  }

  lemma ParticipantsStep(ws: seq<Address>, i: nat, weight: Address -> int)
    requires i < |ws|
    ensures var before, after := Participants(ws[..i], weight), Participants(ws[..i + 1], weight);
            after == if weight(ws[i]) != 0 then before + [ws[i]] else before
    ensures forall w :: w in ws[..i + 1] <==> w in ws[..i] || w == ws[i]
    ensures ws[i] in ws
  {
    assert ws[..i + 1][..i] == ws[..i];
    assert ws[..i + 1] == ws[..i] + [ws[i]];
  }

  method ReadWeight(reader: Reader, account: Address, ts: nat) returns (r: Result<int, SnapshotError>)
    ensures r.Success? <==> PositionsNonNegative(reader, ts, account)
    ensures r.Success? ==> r.value == WeightAt(reader, ts, account) && r.value >= 0
    ensures r.Failure? ==> r.error == NEGATIVE_WEIGHT
  {
    var weight := 0;
    for lockId := 0 to reader.lockCount(account)
      invariant weight == Sum(PositionCurve(reader, account, ts), 0, lockId) && weight >= 0
      invariant forall id :: 0 <= id < lockId ==> reader.positionWeight(account, id, ts) >= 0
    {
      var w := reader.positionWeight(account, lockId, ts);
      if w < 0 { return Failure(NEGATIVE_WEIGHT); }
      weight := weight + w;
    }
    return Success(weight);
  }

  /** Every position counts once: raising one by d raises the account by d; without positions it weighs nothing. */
  lemma EveryPositionCounts(reader: Reader, other: Reader, ts: nat, w: Address, id: nat, d: int)
    requires other.lockCount(w) == reader.lockCount(w)
    requires forall k :: 0 <= k < reader.lockCount(w) ==>
               other.positionWeight(w, k, ts) == reader.positionWeight(w, k, ts) + if k == id then d else 0
    ensures WeightAt(other, ts, w) == WeightAt(reader, ts, w) + if id < reader.lockCount(w) then d else 0
    ensures reader.lockCount(w) == 0 ==> WeightAt(reader, ts, w) == 0
  {
    SumRaised(PositionCurve(reader, w, ts), PositionCurve(other, w, ts), 0, reader.lockCount(w), id, d);
  }

  datatype Census = Census(participants: seq<Address>, zeroWeight: nat, totalWeight: int)

  /** Every candidate is either a participant or counted as weightless. */
  ghost predicate Counted(c: Census, candidates: seq<Address>, weight: Address -> int) {
    && c.participants == Participants(candidates, weight) && c.totalWeight == Total(c.participants, weight)
    && |c.participants| + c.zeroWeight == |candidates|
  }

  method ReadWeights(reader: Reader, candidates: seq<Address>, ts: nat, ghost weight: Address -> int)
      returns (r: Result<Census, SnapshotError>)
    requires forall w :: w in candidates ==> weight(w) == WeightAt(reader, ts, w)
    ensures r.Success? <==> forall w :: w in candidates ==> PositionsNonNegative(reader, ts, w)
    ensures r.Success? ==> Counted(r.value, candidates, weight)
    ensures r.Success? ==> forall w :: w in r.value.participants ==> weight(w) > 0
    ensures r.Failure? ==> r.error == NEGATIVE_WEIGHT
  {
    var participants: seq<Address> := [];
    var zeroWeight: nat := 0;
    var totalWeight := 0;
    for i := 0 to |candidates|
      invariant |participants| + zeroWeight == i
      invariant participants == Participants(candidates[..i], weight)
      invariant totalWeight == Total(participants, weight)
      invariant forall w :: w in participants ==> weight(w) > 0
      invariant forall w :: w in candidates[..i] ==> PositionsNonNegative(reader, ts, w)
    {
      var account := candidates[i];
      ParticipantsStep(candidates, i, weight);
      var read := ReadWeight(reader, account, ts);
      if read.Failure? { return Failure(read.error); }
      if read.value == 0 {
        zeroWeight := zeroWeight + 1;
        continue;
      }
      TotalConcat(participants, [account], weight);
      totalWeight := totalWeight + read.value;
      participants := participants + [account];
    }
    assert candidates[..|candidates|] == candidates;
    return Success(Census(participants, zeroWeight, totalWeight));
  }

  method CollectParticipants(reader: Reader, candidates: seq<Address>, ts: nat, ghost weight: Address -> int)
      returns (r: Result<Census, SnapshotError>)
    requires forall w :: w in candidates ==> weight(w) == WeightAt(reader, ts, w)
    ensures r.Success? <==>
            && (forall w :: w in candidates ==> PositionsNonNegative(reader, ts, w))
            && Participants(candidates, weight) != []
    ensures r.Success? ==> Counted(r.value, candidates, weight)
    ensures r.Success? ==> forall w :: w in r.value.participants ==> weight(w) > 0
    ensures r.Failure? ==>
              r.error == if forall w :: w in candidates ==> PositionsNonNegative(reader, ts, w) then NO_PARTICIPANTS
                         else NEGATIVE_WEIGHT
  {
    r := ReadWeights(reader, candidates, ts, weight);
    if r.Success? {
      TotalPositive(r.value.participants, weight);
      if |r.value.participants| == 0 || r.value.totalWeight == 0 { return Failure(NO_PARTICIPANTS); }
    }
  }

  // ---- Entitlements ---------------------------------------------------------------------

  /** The shares of the requested amount. */
  function RequestShares(req: Request, ps: seq<Address>, weight: Address -> int, total: int): seq<Entitlement>
    requires req.cycleId >= 0
  {
    PositiveShares(req.cycleId, req.distributionAsset, req.distributionAmount, ps, weight, total)
  }

  /** The floor loop of the snapshot, with its two guards. */
  method Entitle(req: Request, participants: seq<Address>, weight: Address -> int, totalWeight: int)
      returns (r: Result<(seq<Entitlement>, int), SnapshotError>)
    requires req.cycleId >= 0 && req.distributionAmount > 0
    requires participants != [] && totalWeight == Total(participants, weight)
    requires forall w :: w in participants ==> weight(w) > 0
    ensures var shares := RequestShares(req, participants, weight, totalWeight);
            && (r.Success? <==> shares != [])
            && (r.Success? ==>
                  && r.value == (shares, req.distributionAmount - Total(shares, AmountOf))
                  && 0 <= r.value.1 < |participants|)
    ensures r.Failure? ==> r.error == DUST_ONLY_DISTRIBUTION
    ensures r.Failure? <==> forall w :: w in participants ==> req.distributionAmount * weight(w) < totalWeight
    ensures r.Failure? ==> req.distributionAmount < |participants|
  {
    var entitled: seq<Entitlement> := [];
    var entitlementTotal := 0;
    TotalPositive(participants, weight);
    for i := 0 to |participants|
      invariant entitled == RequestShares(req, participants[..i], weight, totalWeight)
      invariant entitlementTotal == Total(entitled, AmountOf)
    {
      var p := participants[i];
      assert p in participants;
      SharesStep(req, participants, i, weight, totalWeight);
      var amount := MulDivFloor(req.distributionAmount, weight(p), totalWeight);
      if amount == 0 { continue; }
      var e := Entitlement(req.cycleId, p, req.distributionAsset, amount);
      TotalConcat(entitled, [e], AmountOf);
      entitled := entitled + [e];
      entitlementTotal := entitlementTotal + amount;
    }
    assert participants[..|participants|] == participants;
    SnapshotBounds(req, participants, weight, totalWeight);
    if |entitled| == 0 { return Failure(DUST_ONLY_DISTRIBUTION); }
    var dust := req.distributionAmount - entitlementTotal;
    if entitlementTotal > req.distributionAmount { return Failure(OVER_ALLOCATION); }
    return Success((entitled, dust));
  }

  lemma SharesStep(req: Request, ps: seq<Address>, i: nat, weight: Address -> int, total: int)
    requires i < |ps| && req.cycleId >= 0 && req.distributionAmount > 0 && weight(ps[i]) > 0 && total > 0
    ensures var amount := MulDivFloor(req.distributionAmount, weight(ps[i]), total);
            var before := RequestShares(req, ps[..i], weight, total);
            var after := RequestShares(req, ps[..i + 1], weight, total);
            var e := Entitlement(req.cycleId, ps[i], req.distributionAsset, amount);
            && amount >= 0 && after == if amount == 0 then before else before + [e]
  {
    assert ps[..i + 1][..i] == ps[..i];
    ShareIsFloor(req.distributionAmount, weight(ps[i]), total, weight(ps[i]));
  }

  lemma {:induction false} TotalPositive(ws: seq<Address>, weight: Address -> int)
    requires forall w :: w in ws ==> weight(w) > 0
    ensures Total(ws, weight) >= |ws| == Positive(ws, weight)
  {
    if ws != [] { TotalPositive(ws[..|ws| - 1], weight); }
  }

  /**
   * Nothing is ever over-allocated, dust stays below one unit per participant, and nobody is paid
   * exactly when every share is below one unit, which needs fewer units than participants.
   */
  lemma SnapshotBounds(req: Request, ps: seq<Address>, weight: Address -> int, total: int)
    requires req.cycleId >= 0 && req.distributionAmount > 0
    requires ps != [] && total == Total(ps, weight) && forall w :: w in ps ==> weight(w) > 0
    ensures var shares := RequestShares(req, ps, weight, total);
            && 0 <= req.distributionAmount - Total(shares, AmountOf) < |ps|
            && (shares == [] <==> forall w :: w in ps ==> req.distributionAmount * weight(w) < total)
            && (shares == [] ==> req.distributionAmount < |ps|)
  {
    var pool := req.distributionAmount;
    var shares := PositiveShares(req.cycleId, req.distributionAsset, pool, ps, weight, total);
    TotalPositive(ps, weight);
    SharesBracketed(req.cycleId, req.distributionAsset, pool, ps, weight, total);
    DustWithin(Total(shares, AmountOf), pool, total, |ps|);
    SharesArePositive(req.cycleId, req.distributionAsset, pool, ps, weight, total);
    if shares == [] {
      forall w | w in ps
        ensures pool * weight(w) < total
      {
        assert Entitlement(req.cycleId, w, req.distributionAsset, Share(pool, weight(w), total)) !in shares;
        UnpaidIffBelowUnit(pool, weight(w), total);
      }
    } else {
      var e := shares[0];
      assert e in shares;
      UnpaidIffBelowUnit(pool, weight(e.wallet), total);
    }
  }

  lemma UnpaidIffBelowUnit(pool: int, weight: int, total: int)
    requires pool > 0 && weight > 0 && total > 0
    ensures Share(pool, weight, total) <= 0 <==> pool * weight < total
  {
    FloorGreatest(pool * weight, total, 1);
  }

  /** Wallet by wallet the snapshot entitles what the shared engine would, for the same pool and weights. */
  lemma SnapshotMatchesEngine(cycle: Cycle, asset: Asset, candidates: seq<Address>, weight: Address -> int,
        weights: map<Address, WalletWeight>)
    requires forall w :: w in candidates ==> WeightIn(weights)(w) == weight(w) && weight(w) >= 0
    ensures var ps := Participants(candidates, weight);
            && Total(ps, weight) == Total(candidates, WeightIn(weights))
            && PositiveShares(cycle.cycleId, asset.tokenAddress, ParticipantPool(asset.acquiredRawAmount), ps, weight,
               Total(ps, weight))
               == AllocationOf(cycle, asset, candidates, weights, Total(candidates, WeightIn(weights))).entitlements
  {
    TotalAgree(candidates, WeightIn(weights), weight);
    ParticipantsTotal(candidates, weight);
    SkippingZeroWeights(cycle.cycleId, asset.tokenAddress, ParticipantPool(asset.acquiredRawAmount), candidates, weight,
                        WeightIn(weights), Total(candidates, weight));
  }

  lemma {:induction false} ParticipantsTotal(ws: seq<Address>, weight: Address -> int)
    ensures Total(Participants(ws, weight), weight) == Total(ws, weight)
  {
    if ws != [] {
      var front, w := ws[..|ws| - 1], ws[|ws| - 1];
      ParticipantsTotal(front, weight);
      TotalConcat(Participants(front, weight), if weight(w) != 0 then [w] else [], weight);
    }
  }

  lemma {:induction false} SkippingZeroWeights(cycleId: nat, asset: Address, pool: int, ws: seq<Address>,
        weight: Address -> int, other: Address -> int, total: int)
    requires forall w :: w in ws ==> other(w) == weight(w)
    ensures PositiveShares(cycleId, asset, pool, Participants(ws, weight), weight, total)
            == PositiveShares(cycleId, asset, pool, ws, other, total)
  {
    if ws != [] {
      var front, w := ws[..|ws| - 1], ws[|ws| - 1];
      assert w in ws;
      SkippingZeroWeights(cycleId, asset, pool, front, weight, other, total);
      var ps := Participants(front, weight);
      if weight(w) != 0 {
        assert (ps + [w])[..|ps|] == ps;
      } else {
        assert Participants(ws, weight) == ps;
      }
    }
  }

  // ---- The run --------------------------------------------------------------------------

  /** What the request must say before the chain is asked anything. */
  predicate WellShaped(req: Request) {
    && req.chainId > 0 && req.snapshotBlock > 0 && req.distributionAmount > 0 && req.cycleId > 0
    && 0 <= req.enumerationStartBlock <= req.snapshotBlock && req.claimStart < req.claimDeadline
  }

  predicate Misshapen(req: Request, code: SnapshotError) {
    match code
    case BAD_CHAIN_ID => req.chainId <= 0
    case BAD_BLOCK => req.snapshotBlock <= 0
    case ZERO_DISTRIBUTION => req.distributionAmount <= 0
    case BAD_CYCLE => req.cycleId <= 0
    case BAD_START_BLOCK => req.enumerationStartBlock < 0 || req.snapshotBlock < req.enumerationStartBlock
    case BAD_CLAIM_WINDOW => req.claimDeadline <= req.claimStart
    case _ => false
  }

  /** The order in which the request and then the view are checked. */
  function Turn(code: SnapshotError): nat {
    match code
    case BAD_CHAIN_ID => 0
    case BAD_BLOCK => 1
    case ZERO_DISTRIBUTION => 2
    case BAD_CYCLE => 3
    case BAD_START_BLOCK => 4
    case BAD_CLAIM_WINDOW => 5
    case CHAIN_ID_MISMATCH => 6
    case BLOCK_NOT_FOUND => 7
    case BLOCK_HASH_MISMATCH => 8
    case INDEXER_BEHIND => 9
    case INCOMPLETE_COVERAGE => 10
    case VAULT_NOT_DEPLOYED => 11
    case _ => 12
  }

  /** The request's first fault. */
  ghost predicate FirstMisshapen(req: Request, code: SnapshotError) {
    Misshapen(req, code) && forall other :: Misshapen(req, other) ==> Turn(code) <= Turn(other)
  }

  method ValidateRequestShape(req: Request) returns (error: Option<SnapshotError>)
    ensures error.None? <==> WellShaped(req)
    ensures error.Some? ==> FirstMisshapen(req, error.value)
  {
    if req.chainId <= 0 { return Some(BAD_CHAIN_ID); }
    if req.snapshotBlock <= 0 { return Some(BAD_BLOCK); }
    if req.distributionAmount <= 0 { return Some(ZERO_DISTRIBUTION); }
    if req.cycleId <= 0 { return Some(BAD_CYCLE); }
    if req.enumerationStartBlock < 0 || req.enumerationStartBlock > req.snapshotBlock { return Some(BAD_START_BLOCK); }
    if req.claimDeadline <= req.claimStart { return Some(BAD_CLAIM_WINDOW); }
    return None;
  }

  /** The chain, its pinned block and the coverage of the vault's history are those the request names. */
  predicate SoundView(reader: Reader, req: Request) {
    && reader.chainId == req.chainId && reader.header.Some? && reader.header.value.hash == req.expectedBlockHash
    && req.snapshotBlock <= reader.syncedThrough && !reader.codeBeforeStart && reader.codeAtPin
  }

  predicate Misplaced(reader: Reader, req: Request, code: SnapshotError) {
    match code
    case CHAIN_ID_MISMATCH => reader.chainId != req.chainId
    case BLOCK_NOT_FOUND => reader.header.None?
    case BLOCK_HASH_MISMATCH => reader.header.Some? && reader.header.value.hash != req.expectedBlockHash
    case INDEXER_BEHIND => reader.syncedThrough < req.snapshotBlock
    case INCOMPLETE_COVERAGE => reader.codeBeforeStart
    case VAULT_NOT_DEPLOYED => !reader.codeAtPin
    case _ => false
  }

  /** The view's first fault. */
  ghost predicate FirstMisplaced(reader: Reader, req: Request, code: SnapshotError) {
    Misplaced(reader, req, code) && forall other :: Misplaced(reader, req, other) ==> Turn(code) <= Turn(other)
  }

  /** The fail-closed guards on the chain view. */
  method GuardView(reader: Reader, req: Request) returns (error: Option<SnapshotError>)
    ensures error.None? <==> SoundView(reader, req)
    ensures error.Some? ==> FirstMisplaced(reader, req, error.value)
  {
    if reader.chainId != req.chainId { return Some(CHAIN_ID_MISMATCH); }
    if reader.header.None? { return Some(BLOCK_NOT_FOUND); }
    if reader.header.value.hash != req.expectedBlockHash { return Some(BLOCK_HASH_MISMATCH); }
    if reader.syncedThrough < req.snapshotBlock { return Some(INDEXER_BEHIND); }
    if reader.codeBeforeStart { return Some(INCOMPLETE_COVERAGE); }
    if !reader.codeAtPin { return Some(VAULT_NOT_DEPLOYED); }
    return None;
  }

  datatype SnapshotRun = SnapshotRun(
    participants: seq<Address>, zeroWeight: nat, entries: seq<Entry>, dust: int, root: Digest, matched: nat)

  function DomainFor(req: Request): ClaimDomain
    requires req.chainId > 0 && req.cycleId > 0
  {
    ClaimDomain(req.chainId, req.claimManager, req.cycleId)
  }

  function WeightsAtPin(reader: Reader): Address -> int
    requires reader.header.Some?
  {
    AccountWeight(reader, reader.header.value.timestamp)
  }

  function ParticipantsOf(reader: Reader, req: Request): seq<Address>
    requires reader.header.Some?
  {
    Participants(CandidateList(reader.created, req.snapshotBlock), WeightsAtPin(reader))
  }

  function SharesOf(reader: Reader, req: Request): seq<Entitlement>
    requires WellShaped(req) && reader.header.Some?
  {
    var ps := ParticipantsOf(reader, req);
    RequestShares(req, ps, WeightsAtPin(reader), Total(ps, WeightsAtPin(reader)))
  }

  ghost predicate ParityHolds(reader: Reader, domain: ClaimDomain, shares: seq<Entitlement>) {
    forall e :: e in shares ==> reader.leafFor(e.wallet, e.amount) == LeafHash(domain, e)
  }

  /** Every LockWithdrawn record names an address. */
  predicate WithdrawnWellFormed(reader: Reader) {
    forall a :: a in reader.withdrawn ==> a.Some?
  }

  const MAX_UINT64: int := 0xFFFF_FFFF_FFFF_FFFF

  /** The arguments of the publication call fit their types: uint256 id and amount, uint64 instants. */
  predicate CallEncodes(req: Request) {
    && req.cycleId <= MAX_UINT256 && req.distributionAmount <= MAX_UINT256
    && 0 <= req.claimStart <= MAX_UINT64 && 0 <= req.claimDeadline <= MAX_UINT64
  }

  /** Sound request and chain view, clean records, and somebody is paid: there are leaves to publish. */
  ghost predicate Payable(reader: Reader, req: Request) {
    Weighed(reader, req) && ParticipantsOf(reader, req) != [] && SharesOf(reader, req) != []
  }

  /** Sound request and chain view, clean records and positions. */
  ghost predicate Weighed(reader: Reader, req: Request) {
    && WellShaped(req) && SoundView(reader, req)
    && (forall x :: x in reader.created ==> WellFormed(x))
    && forall w :: w in CandidateList(reader.created, req.snapshotBlock) ==>
         PositionsNonNegative(reader, reader.header.value.timestamp, w)
  }

  /** Leaves in range and as on chain. */
  ghost predicate LeavesMatch(reader: Reader, req: Request)
    requires WellShaped(req) && reader.header.Some?
  {
    AllEncodable(DomainFor(req), SharesOf(reader, req)) && ParityHolds(reader, DomainFor(req), SharesOf(reader, req))
  }

  /** A leaf out of range, or a publication call out of range after everything else has passed. */
  ghost predicate EncoderObjects(reader: Reader, req: Request)
    requires WellShaped(req) && reader.header.Some?
  {
    || !AllEncodable(DomainFor(req), SharesOf(reader, req))
    || (LeavesMatch(reader, req) && WithdrawnWellFormed(reader) && !CallEncodes(req))
  }

  /** The runs that deliver: matching leaves, clean withdrawal records, and a call that can be encoded. */
  ghost predicate Deliverable(reader: Reader, req: Request) {
    Payable(reader, req) && LeavesMatch(reader, req) && WithdrawnWellFormed(reader) && CallEncodes(req)
  }

  /** What a successful run hands over. */
  ghost predicate Delivers(reader: Reader, req: Request, layout: Layout, less: (Digest, Digest) -> bool,
        run: SnapshotRun)
    requires WellShaped(req) && reader.header.Some?
  {
    && run.participants == ParticipantsOf(reader, req)
    && |run.participants| + run.zeroWeight == |CandidateList(reader.created, req.snapshotBlock)|
    && 0 <= run.dust < |run.participants|
    && Paid(req, SharesOf(reader, req), layout, less, run)
  }

  /** Shares and dust make up the amount, and every share is proved and matched. */
  ghost predicate Paid(req: Request, shares: seq<Entitlement>, layout: Layout, less: (Digest, Digest) -> bool,
        run: SnapshotRun)
    requires WellShaped(req)
  {
    && Total(shares, AmountOf) + run.dust == req.distributionAmount && run.matched == |shares|
    && Proved(DomainFor(req), shares, layout, less, run.root, run.entries)
  }

  /** Root and proofs are those of the tree over the shares, every proof folds, and nothing else is provable. */
  ghost predicate Proved(domain: ClaimDomain, shares: seq<Entitlement>, layout: Layout,
        less: (Digest, Digest) -> bool, root: Digest, entries: seq<Entry>) {
    var tree := layout(LeafHashes(domain, shares));
    && root == Root(tree, less) && EntitlementsOf(entries) == shares
    && (forall x :: x in entries ==> IsEntry(x, domain, tree, less) && Fold(x.leaf, x.proof, less) == root)
    && forall f :: Provable(root, f, less) <==> Leaf(f) in LeafHashes(domain, shares)
  }

  /** The code a run stops with: the first thing that is wrong, in the order in which the run looks at things. */
  ghost predicate StopsWith(reader: Reader, req: Request, code: SnapshotError) {
    if !WellShaped(req) then FirstMisshapen(req, code)
    else if !SoundView(reader, req) then FirstMisplaced(reader, req, code)
    else if exists x :: x in reader.created && !WellFormed(x) then Malformed(reader.created, code)
    else if !Weighed(reader, req) then code == NEGATIVE_WEIGHT
    else if ParticipantsOf(reader, req) == [] then code == NO_PARTICIPANTS
    else StopsAtLeaves(reader, req, code)
  }

  /** ... once there are participants. */
  ghost predicate StopsAtLeaves(reader: Reader, req: Request, code: SnapshotError)
    requires WellShaped(req) && reader.header.Some?
  {
    if SharesOf(reader, req) == [] then
      && code == DUST_ONLY_DISTRIBUTION
      && req.distributionAmount < |ParticipantsOf(reader, req)|
      && forall w :: w in ParticipantsOf(reader, req) ==>
           req.distributionAmount * WeightsAtPin(reader)(w) < Total(ParticipantsOf(reader, req), WeightsAtPin(reader))
    else if !AllEncodable(DomainFor(req), SharesOf(reader, req)) then code == ENCODER_RANGE
    else if !ParityHolds(reader, DomainFor(req), SharesOf(reader, req)) then code == LEAF_PARITY_MISMATCH
    else if !WithdrawnWellFormed(reader) then code == INVALID_ADDRESS
    else code == ENCODER_RANGE && !CallEncodes(req)
  }

  method RunSnapshotPipeline(reader: Reader, req: Request, layout: Layout, less: (Digest, Digest) -> bool)
      returns (r: Result<SnapshotRun, SnapshotError>)
    requires Faithful(layout) && Separates(less)
    ensures r.Success? <==> Deliverable(reader, req)
    ensures r.Success? ==> Delivers(reader, req, layout, less, r.value)
    ensures r.Failure? ==> StopsWith(reader, req, r.error)
    ensures r.Failure? && r.error == ENCODER_RANGE <==> Payable(reader, req) && EncoderObjects(reader, req)
    ensures r.Failure? && r.error == INVALID_ADDRESS <==>
            Payable(reader, req) && LeavesMatch(reader, req) && !WithdrawnWellFormed(reader)
    ensures r.Failure? ==> r.error != OVER_ALLOCATION && r.error != PROOF_SELF_VERIFY_FAILED
  {
    var shape := ValidateRequestShape(req);
    if shape.Some? { return Failure(shape.value); }
    var guarded := GuardView(reader, req);
    if guarded.Some? { return Failure(guarded.value); }
    var collected := DiscoverParticipants(reader, req);
    if collected.Failure? { return Failure(collected.error); }
    r := DistributeSnapshot(reader, req, collected.value, layout, less);
  }

  /** Candidates from the event records, weights from the pinned reads. */
  method DiscoverParticipants(reader: Reader, req: Request) returns (r: Result<Census, SnapshotError>)
    requires WellShaped(req) && SoundView(reader, req)
    ensures r.Success? <==> Weighed(reader, req) && ParticipantsOf(reader, req) != []
    ensures r.Success? ==>
              && Counted(r.value, CandidateList(reader.created, req.snapshotBlock), WeightsAtPin(reader))
              && forall w :: w in r.value.participants ==> WeightsAtPin(reader)(w) > 0
    ensures r.Failure? ==>
              if exists x :: x in reader.created && !WellFormed(x) then Malformed(reader.created, r.error)
              else r.error == if Weighed(reader, req) then NO_PARTICIPANTS else NEGATIVE_WEIGHT
  {
    var ts := reader.header.value.timestamp;
    var enumeration := EnumerateCandidates(reader.created, req.snapshotBlock);
    if enumeration.Failure? { return Failure(enumeration.error); }
    r := CollectParticipants(reader, enumeration.value.candidates, ts, WeightsAtPin(reader));
  }

  /** The part of the run after the participants are known. */
  method DistributeSnapshot(reader: Reader, req: Request, census: Census, layout: Layout,
        less: (Digest, Digest) -> bool)
      returns (r: Result<SnapshotRun, SnapshotError>)
    requires Faithful(layout) && Separates(less) && WellShaped(req) && reader.header.Some?
    requires Counted(census, CandidateList(reader.created, req.snapshotBlock), WeightsAtPin(reader))
    requires census.participants != [] && forall w :: w in census.participants ==> WeightsAtPin(reader)(w) > 0
    ensures r.Success? <==>
            && SharesOf(reader, req) != [] && LeavesMatch(reader, req)
            && WithdrawnWellFormed(reader) && CallEncodes(req)
    ensures r.Success? ==> Delivers(reader, req, layout, less, r.value)
    ensures r.Failure? ==> StopsAtLeaves(reader, req, r.error)
    ensures r.Failure? && r.error == ENCODER_RANGE <==> SharesOf(reader, req) != [] && EncoderObjects(reader, req)
    ensures r.Failure? && r.error == INVALID_ADDRESS <==>
            SharesOf(reader, req) != [] && LeavesMatch(reader, req) && !WithdrawnWellFormed(reader)
  {
    var entitled := Entitle(req, census.participants, WeightsAtPin(reader), census.totalWeight);
    if entitled.Failure? { return Failure(entitled.error); }
    var (shares, dust) := entitled.value;
    var proved := ProveAndMatch(reader, DomainFor(req), shares, layout, less);
    if proved.Failure? { return Failure(proved.error); }
    var withdrawn := NormalizeWithdrawn(reader);
    if !withdrawn { return Failure(INVALID_ADDRESS); }
    var encoded := EncodeCall(req);
    if !encoded { return Failure(ENCODER_RANGE); }
    var (root, entries, matched) := proved.value;
    return Success(SnapshotRun(census.participants, census.zeroWeight, entries, dust, root, matched));
  }

  /** What the encoder checks of the arguments, which are positive or ordered already. */
  method EncodeCall(req: Request) returns (ok: bool)
    requires WellShaped(req)
    ensures ok <==> CallEncodes(req)
  {
    if req.cycleId > MAX_UINT256 || req.distributionAmount > MAX_UINT256 { return false; }
    if req.claimStart < 0 || req.claimStart > MAX_UINT64 { return false; }
    return 0 <= req.claimDeadline <= MAX_UINT64;
  }

  /** Every withdrawal record is digested with its normalized account. */
  method NormalizeWithdrawn(reader: Reader) returns (ok: bool)
    ensures ok <==> WithdrawnWellFormed(reader)
  {
    for i := 0 to |reader.withdrawn|
      invariant forall j :: 0 <= j < i ==> reader.withdrawn[j].Some?
    {
      assert reader.withdrawn[i] in reader.withdrawn;
      if reader.withdrawn[i].None? { return false; }
    }
    return true;
  }

  /** Build the tree, re-verify every proof, and compare each leaf with the chain's own. */
  method ProveAndMatch(reader: Reader, domain: ClaimDomain, shares: seq<Entitlement>, layout: Layout,
        less: (Digest, Digest) -> bool)
      returns (r: Result<(Digest, seq<Entry>, nat), SnapshotError>)
    requires Faithful(layout) && Separates(less) && shares != []
    ensures r.Success? <==> AllEncodable(domain, shares) && ParityHolds(reader, domain, shares)
    ensures r.Success? ==> Proved(domain, shares, layout, less, r.value.0, r.value.1) && r.value.2 == |shares|
    ensures r.Failure? ==> r.error == if AllEncodable(domain, shares) then LEAF_PARITY_MISMATCH else ENCODER_RANGE
  {
    if !AllEncodable(domain, shares) { return Failure(ENCODER_RANGE); }
    var tree := layout(LeafHashes(domain, shares));
    var proved, entries := ProveShares(domain, shares, tree, layout, less);
    if !proved { return Failure(PROOF_SELF_VERIFY_FAILED); }
    var matched := MatchLeaves(reader, entries);
    ParityOfEntries(reader, domain, entries);
    if matched.Failure? { return Failure(matched.error); }
    return Success((Root(tree, less), entries, matched.value));
  }

  lemma ParityOfEntries(reader: Reader, domain: ClaimDomain, entries: seq<Entry>)
    requires forall x :: x in entries ==> x.leaf == LeafHash(domain, x.entitlement)
    ensures ParityHolds(reader, domain, EntitlementsOf(entries)) <==>
            forall x :: x in entries ==> reader.leafFor(x.entitlement.wallet, x.entitlement.amount) == x.leaf
  {
    var es := EntitlementsOf(entries);
    if ParityHolds(reader, domain, es) {
      forall x | x in entries
        ensures reader.leafFor(x.entitlement.wallet, x.entitlement.amount) == x.leaf
      {
        var i :| 0 <= i < |entries| && entries[i] == x;
        assert es[i] in es;
      }
    }
    forall e | e in es
      ensures exists x :: x in entries && x.entitlement == e
    {
      var i :| 0 <= i < |es| && es[i] == e;
      assert entries[i] in entries;
    }
  }

  /** Ask the chain for every leaf. */
  method MatchLeaves(reader: Reader, entries: seq<Entry>) returns (r: Result<nat, SnapshotError>)
    ensures r.Success? <==>
            forall x :: x in entries ==> reader.leafFor(x.entitlement.wallet, x.entitlement.amount) == x.leaf
    ensures r == if r.Success? then Success(|entries|) else Failure(LEAF_PARITY_MISMATCH)
  {
    var matched := 0;
    for i := 0 to |entries|
      invariant matched == i
      invariant forall x :: x in entries[..i] ==> reader.leafFor(x.entitlement.wallet, x.entitlement.amount) == x.leaf
    {
      var x := entries[i];
      assert x in entries;
      if reader.leafFor(x.entitlement.wallet, x.entitlement.amount) != x.leaf { return Failure(LEAF_PARITY_MISMATCH); }
      matched := matched + 1;
    }
    assert entries[..|entries|] == entries;
    return Success(matched);
  }

  /** The entries with their proofs; each proof is folded back to the root, and that never fails. */
  method ProveShares(domain: ClaimDomain, shares: seq<Entitlement>, tree: Tree, ghost layout: Layout,
        less: (Digest, Digest) -> bool)
      returns (ok: bool, entries: seq<Entry>)
    requires Faithful(layout) && Separates(less) && shares != [] && tree == layout(LeafHashes(domain, shares))
    ensures ok && Proved(domain, shares, layout, less, Root(tree, less), entries)
  {
    SameLeaves(domain, shares, shares, tree, layout, less);
    var root := Root(tree, less);
    entries := [];
    for i := 0 to |shares|
      invariant EntitlementsOf(entries) == shares[..i]
      invariant forall x :: x in entries ==> IsEntry(x, domain, tree, less) && Fold(x.leaf, x.proof, less) == root
    {
      assert shares[i] in shares;
      var proved, entry := ProveShare(domain, shares[i], tree, root, less);
      if !proved { return false, entries; }
      entries := entries + [entry];
    }
    assert shares[..|shares|] == shares;
    ok := true;
  }

  method ProveShare(domain: ClaimDomain, share: Entitlement, tree: Tree, root: Digest, less: (Digest, Digest) -> bool)
      returns (ok: bool, entry: Entry)
    requires Separates(less) && LeafHash(domain, share) in Leaves(tree) && root == Root(tree, less)
    ensures ok && entry.entitlement == share
    ensures IsEntry(entry, domain, tree, less) && Fold(entry.leaf, entry.proof, less) == root
  {
    var leaf := LeafHash(domain, share);
    entry := Entry(share, leaf, PathTo(tree, leaf, less));
    FoldComplete(tree, leaf, less);
    var computed := ViemProcessProof(leaf, entry.proof, less);
    ok := computed == root;
  }

  /** The amount is positive and the floor of the account's share in the distribution. */
  predicate Due(req: Request, weight: int, total: int, amount: int) {
    amount > 0 && IsFloor(amount, req.distributionAmount * weight, total)
  }

  /**
   * What can be proved under a delivered root, field by field: for this chain, claim manager, cycle and asset,
   * exactly what each participant is due, and nothing else.
   */
  lemma DeliveredRootProves(reader: Reader, req: Request, layout: Layout, less: (Digest, Digest) -> bool,
        run: SnapshotRun, f: LeafFields)
    requires Deliverable(reader, req) && Delivers(reader, req, layout, less, run)
    ensures Provable(run.root, f, less) <==>
            && f.chainId == req.chainId && f.claimManager == req.claimManager && f.cycleId == req.cycleId
            && f.asset == req.distributionAsset && f.wallet in run.participants
            && Due(req, WeightsAtPin(reader)(f.wallet), Total(run.participants, WeightsAtPin(reader)), f.amount)
  {
    var ps, weight := ParticipantsOf(reader, req), WeightsAtPin(reader);
    var total := Total(ps, weight);
    ProvableFields(DomainFor(req), SharesOf(reader, req), run.root, less, f);
    SharesArePositive(req.cycleId, req.distributionAsset, req.distributionAmount, ps, weight, total);
    PinnedWeightsNotNegative(reader, req);
    TotalNonNegative(ps, weight);
    if f.wallet in ps { DueShare(req, weight(f.wallet), total, f.amount); }
    assert Provable(run.root, f, less) <==>
        && f.chainId == req.chainId && f.claimManager == req.claimManager && f.cycleId == req.cycleId
        && Entitlement(req.cycleId, f.wallet, f.asset, f.amount) in SharesOf(reader, req);
  }

  lemma DueShare(req: Request, weight: int, total: int, amount: int)
    requires WellShaped(req) && weight >= 0 && total >= 0
    ensures Due(req, weight, total, amount) <==> amount > 0 && amount == Share(req.distributionAmount, weight, total)
  {
    if total > 0 && amount > 0 {
      FloorUnique(amount, req.distributionAmount * weight, total);
      if weight == 0 { MulMonotone(1, amount, total); }
    }
  }

  lemma PinnedWeightsNotNegative(reader: Reader, req: Request)
    requires Weighed(reader, req)
    ensures forall w :: w in ParticipantsOf(reader, req) ==> WeightsAtPin(reader)(w) >= 0
  {
    var ts, candidates := reader.header.value.timestamp, CandidateList(reader.created, req.snapshotBlock);
    ParticipantsAmong(candidates, WeightsAtPin(reader));
    forall w | w in candidates
      ensures WeightsAtPin(reader)(w) >= 0
    {
      SumNonNegative(PositionCurve(reader, w, ts), 0, reader.lockCount(w));
    }
  }

  lemma {:induction false} ParticipantsAmong(ws: seq<Address>, weight: Address -> int)
    ensures forall w :: w in Participants(ws, weight) <==> w in ws && weight(w) != 0
  {
    if ws != [] {
      assert ws == ws[..|ws| - 1] + [ws[|ws| - 1]];
      ParticipantsAmong(ws[..|ws| - 1], weight);
    }
  }

  // ---- Where the records come from ------------------------------------------------------

  /** The records the reader decodes from the selected logs. */
  function Records(logs: seq<Scans.RawLog>, decode: Scans.RawLog -> LockCreated): (rs: seq<LockCreated>)
    ensures |rs| == |logs| && forall i :: 0 <= i < |logs| ==> rs[i] == decode(logs[i])
  {
    seq(|logs|, i requires 0 <= i < |logs| => decode(logs[i]))
  }

  /** Some block up to the pin holds a LockCreated log of the account. */
  ghost predicate OnChain(chain: int -> seq<Scans.RawLog>, decode: Scans.RawLog -> LockCreated, req: Request,
        w: Address) {
    exists b, l :: req.enumerationStartBlock <= b <= req.snapshotBlock && l in chain(b) && l.event == "LockCreated"
                   && decode(l).account == Some(w) && decode(l).blockNumber <= req.snapshotBlock
  }

  /** Over chunked scans of a node that serves a chain, the candidates are exactly the accounts on the chain. */
  lemma CandidatesAreTheChains(reader: Reader, node: Scans.LogNode, chain: int -> seq<Scans.RawLog>,
        decode: Scans.RawLog -> LockCreated, req: Request)
    requires Scans.Serves(node, chain)
    requires var ws := Scans.Windows(req.enumerationStartBlock, req.snapshotBlock, Scans.LOG_CHUNK + 1);
             && Scans.Answered(node, ws)
             && reader.created == Records(Scans.Select(Scans.Answers(node, ws), "LockCreated"), decode)
    ensures forall w :: w in CandidateList(reader.created, req.snapshotBlock) <==> OnChain(chain, decode, req, w)
  {
    var lo, hi := req.enumerationStartBlock, req.snapshotBlock;
    Scans.ScanIsWholeRange(node, chain, lo, hi, "LockCreated");
    forall w: Address
      ensures Discovered(reader.created, hi, w) <==> OnChain(chain, decode, req, w)
    {
      DiscoveredOnChain(reader.created, chain, decode, req, w);
    }
  }

  lemma DiscoveredOnChain(created: seq<LockCreated>, chain: int -> seq<Scans.RawLog>,
        decode: Scans.RawLog -> LockCreated, req: Request, w: Address)
    requires created == Records(
               Scans.Select(Scans.Range(chain, req.enumerationStartBlock, req.snapshotBlock), "LockCreated"), decode)
    ensures Discovered(created, req.snapshotBlock, w) <==> OnChain(chain, decode, req, w)
  {
    var lo, hi := req.enumerationStartBlock, req.snapshotBlock;
    var logs := Scans.Select(Scans.Range(chain, lo, hi), "LockCreated");
    assert forall l :: l in logs <==> (l.event == "LockCreated" && exists b :: lo <= b <= hi && l in chain(b)) by {
      Scans.RangeElements(chain, lo, hi);
      Scans.SelectElements(Scans.Range(chain, lo, hi), "LockCreated");
    }
    if Discovered(created, hi, w) {
      var i :| 0 <= i < |logs| && created[i].blockNumber <= hi && created[i].account == Some(w);
      assert logs[i] in logs;
    }
    if OnChain(chain, decode, req, w) {
      var b, l :| lo <= b <= hi && l in chain(b) && l.event == "LockCreated"
                  && decode(l).account == Some(w) && decode(l).blockNumber <= hi;
      assert l in logs;
      var i :| 0 <= i < |logs| && logs[i] == l;
      assert created[i] == decode(l);
    }
  }

  /** Two readers that differ only in the order or repetition of the event records entitle the same. */
  lemma SnapshotIgnoresRecordOrder(reader: Reader, created: seq<LockCreated>, req: Request)
    requires WellShaped(req) && reader.header.Some? && SameElements(reader.created, created)
    ensures var other := reader.(created := created);
            ParticipantsOf(reader, req) == ParticipantsOf(other, req) && SharesOf(reader, req) == SharesOf(other, req)
  {
    var other := reader.(created := created);
    CandidatesUnique(reader.created, created, req.snapshotBlock);
    WeightsIgnoreRecords(reader, created);
    var f, g := WeightsAtPin(reader), WeightsAtPin(other);
    SharesByWeight(req, CandidateList(created, req.snapshotBlock), f, g);
  }

  lemma WeightsIgnoreRecords(reader: Reader, created: seq<LockCreated>)
    requires reader.header.Some?
    ensures forall w: Address :: WeightsAtPin(reader)(w) == WeightsAtPin(reader.(created := created))(w)
  {
    var other, ts := reader.(created := created), reader.header.value.timestamp;
    forall w: Address
      ensures WeightsAtPin(reader)(w) == WeightsAtPin(other)(w)
    {
      SumAgree(PositionCurve(reader, w, ts), PositionCurve(other, w, ts), 0, reader.lockCount(w));
    }
  }

  lemma SharesByWeight(req: Request, ws: seq<Address>, f: Address -> int, g: Address -> int)
    requires WellShaped(req) && forall w: Address :: f(w) == g(w)
    ensures Participants(ws, f) == Participants(ws, g)
    ensures RequestShares(req, Participants(ws, f), f, Total(Participants(ws, f), f))
            == RequestShares(req, Participants(ws, g), g, Total(Participants(ws, g), g))
  {
    ParticipantsAgree(ws, f, g);
    TotalAgree(Participants(ws, f), f, g);
    SharesAgree(req.cycleId, req.distributionAsset, req.distributionAmount, Participants(ws, f), f, g,
      Total(Participants(ws, f), f));
  }

  /** ... one delivers exactly when the other does, and then both deliver the same run, root and proofs included. */
  lemma DeliveryIgnoresRecordOrder(reader: Reader, created: seq<LockCreated>, req: Request, layout: Layout,
        less: (Digest, Digest) -> bool, run: SnapshotRun, rerun: SnapshotRun)
    requires SameElements(reader.created, created)
    ensures Deliverable(reader, req) <==> Deliverable(reader.(created := created), req)
    ensures Deliverable(reader, req) && Delivers(reader, req, layout, less, run)
            && Delivers(reader.(created := created), req, layout, less, rerun) ==>
              run == rerun
  {
    var other := reader.(created := created);
    if Deliverable(reader, req) { DeliveryCarriesOver(reader, created, req); }
    if Deliverable(other, req) {
      assert other.(created := reader.created) == reader;
      DeliveryCarriesOver(other, reader.created, req);
    }
    if Deliverable(reader, req) && Delivers(reader, req, layout, less, run)
       && Delivers(other, req, layout, less, rerun) {
      SameRun(reader, created, req, layout, less, run, rerun);
    }
  }

  lemma SameRun(reader: Reader, created: seq<LockCreated>, req: Request, layout: Layout,
        less: (Digest, Digest) -> bool, run: SnapshotRun, rerun: SnapshotRun)
    requires SameElements(reader.created, created) && WellShaped(req) && reader.header.Some?
    requires Delivers(reader, req, layout, less, run)
    requires Delivers(reader.(created := created), req, layout, less, rerun)
    ensures run == rerun
  {
    SnapshotIgnoresRecordOrder(reader, created, req);
    CandidatesUnique(reader.created, created, req.snapshotBlock);
    PaidOnce(req, SharesOf(reader, req), layout, less, run, rerun);
  }

  lemma PaidOnce(req: Request, shares: seq<Entitlement>, layout: Layout, less: (Digest, Digest) -> bool,
        run: SnapshotRun, rerun: SnapshotRun)
    requires WellShaped(req)
    requires Paid(req, shares, layout, less, run) && Paid(req, shares, layout, less, rerun)
    ensures run.(participants := rerun.participants, zeroWeight := rerun.zeroWeight) == rerun
  {
    SameEntries(run.entries, rerun.entries, DomainFor(req), layout(LeafHashes(DomainFor(req), shares)), less);
  }

  lemma DeliveryCarriesOver(reader: Reader, created: seq<LockCreated>, req: Request)
    requires Deliverable(reader, req) && SameElements(reader.created, created)
    ensures Deliverable(reader.(created := created), req)
  {
    var other := reader.(created := created);
    SnapshotIgnoresRecordOrder(reader, created, req);
    PaymentCarriesOver(reader, created, req);
    assert ParityHolds(other, DomainFor(req), SharesOf(other, req)) by {
      assert other.leafFor == reader.leafFor;
    }
  }

  lemma PaymentCarriesOver(reader: Reader, created: seq<LockCreated>, req: Request)
    requires Payable(reader, req) && SameElements(reader.created, created)
    ensures Payable(reader.(created := created), req)
  {
    var other, ts := reader.(created := created), reader.header.value.timestamp;
    SnapshotIgnoresRecordOrder(reader, created, req);
    var ws := CandidateList(reader.created, req.snapshotBlock);
    assert ws == CandidateList(created, req.snapshotBlock) by {
      CandidatesUnique(reader.created, created, req.snapshotBlock);
    }
    forall w | w in ws
      ensures PositionsNonNegative(other, ts, w)
    {
      assert PositionsNonNegative(reader, ts, w);
    }
  }

  lemma {:induction false} ParticipantsAgree(ws: seq<Address>, f: Address -> int, g: Address -> int)
    requires forall w: Address :: f(w) == g(w)
    ensures Participants(ws, f) == Participants(ws, g)
  {
    if ws != [] { ParticipantsAgree(ws[..|ws| - 1], f, g); }
  }

  lemma {:induction false} SharesAgree(cycleId: nat, asset: Address, pool: int, ws: seq<Address>, f: Address -> int,
        g: Address -> int, total: int)
    requires forall w: Address :: f(w) == g(w)
    ensures PositiveShares(cycleId, asset, pool, ws, f, total) == PositiveShares(cycleId, asset, pool, ws, g, total)
  {
    if ws != [] { SharesAgree(cycleId, asset, pool, ws[..|ws| - 1], f, g, total); }
  }
}
