/** The cross-field checks that a fixture passes before the engine sees it. */
module Validate {
  import opened Results
  import opened PodModel
  import opened Sorting

  predicate ValidCycle(c: Cycle) {
    && c.epochStart == c.epochId * EPOCH_SECONDS
    && c.epochEnd == c.epochStart + EPOCH_SECONDS
    && c.startBlock <= c.snapshotBlock <= c.endBlock <= c.finalizedBlock
    && c.claimStart <= c.claimDeadline
  }

  predicate ValidTransfer(c: Cycle, x: Transfer) {
    x.chainId == c.chainId && c.epochStart <= x.timestamp <= c.epochEnd
  }

  predicate ValidLock(l: Lock) {
    && l.unlockTimestamp == l.startTimestamp + DurationSeconds(l.tier)
    && (l.withdrawalTimestamp.Some? ==> l.startTimestamp <= l.withdrawalTimestamp.value)
  }

  /** What a valid lock and a valid epoch come to in seconds. */
  lemma Durations(l: Lock, c: Cycle)
    ensures ValidLock(l) <==>
            && l.unlockTimestamp - l.startTimestamp
               == (match l.tier
                   case LOCK_7D => 604_800
                   case LOCK_14D => 1_209_600
                   case LOCK_21D => 1_814_400
                   case LOCK_30D => 2_592_000)
            && (l.withdrawalTimestamp.Some? ==> l.startTimestamp <= l.withdrawalTimestamp.value)
    ensures ValidCycle(c) ==> c.epochStart == 900 * c.epochId && c.epochEnd == 900 * (c.epochId + 1)
  {
  }

  function Holders(rs: seq<EligibilityRecord>): (ks: seq<Address>)
    ensures |ks| == |rs| && forall i :: 0 <= i < |rs| ==> ks[i] == rs[i].wallet
  {
    seq(|rs|, i requires 0 <= i < |rs| => rs[i].wallet)
  }

  function Starters(bs: seq<StartBalance>): (ks: seq<Address>)
    ensures |ks| == |bs| && forall i :: 0 <= i < |bs| ==> ks[i] == bs[i].wallet
  {
    seq(|bs|, i requires 0 <= i < |bs| => bs[i].wallet)
  }

  function Tokens(xs: seq<Asset>): (ks: seq<Address>)
    ensures |ks| == |xs| && forall i :: 0 <= i < |xs| ==> ks[i] == xs[i].tokenAddress
  {
    seq(|xs|, i requires 0 <= i < |xs| => xs[i].tokenAddress)
  }

  ghost predicate ValidFixture(f: Fixture) {
    && ValidCycle(f.cycle)
    && Distinct(f.excludedAddresses)
    && Distinct(Holders(f.eligibility))
    && Distinct(Starters(f.epochStartBalances))
    && (forall x :: x in f.transfers ==> ValidTransfer(f.cycle, x))
    && (forall l :: l in f.locks ==> ValidLock(l))
    && Distinct(Tokens(f.assets))
  }

  /** What is wrong with a fixture that is refused with the given code. */
  ghost predicate Violates(f: Fixture, code: ErrorCode) {
    match code
    case EPOCH_BOUNDARY =>
      f.cycle.epochStart != f.cycle.epochId * EPOCH_SECONDS || f.cycle.epochEnd != f.cycle.epochStart + EPOCH_SECONDS
    case BLOCK_ORDER => !(f.cycle.startBlock <= f.cycle.snapshotBlock <= f.cycle.endBlock <= f.cycle.finalizedBlock)
    case SNAPSHOT_AFTER_FINALIZED => f.cycle.finalizedBlock < f.cycle.snapshotBlock
    case CLAIM_PERIOD => f.cycle.claimDeadline < f.cycle.claimStart
    case DUPLICATE_EXCLUSION => !Distinct(f.excludedAddresses)
    case DUPLICATE_HOLDER => !Distinct(Holders(f.eligibility)) || !Distinct(Starters(f.epochStartBalances))
    case CHAIN_MISMATCH => exists x :: x in f.transfers && x.chainId != f.cycle.chainId
    case TRANSFER_OUT_OF_EPOCH =>
      exists x :: x in f.transfers && !(f.cycle.epochStart <= x.timestamp <= f.cycle.epochEnd)
    case UNSUPPORTED_DURATION =>
      exists l :: l in f.locks && l.unlockTimestamp - l.startTimestamp != DurationSeconds(l.tier)
    case BAD_WITHDRAWAL =>
      exists l :: l in f.locks && l.withdrawalTimestamp.Some? && l.withdrawalTimestamp.value < l.startTimestamp
    case DUPLICATE_ASSET => !Distinct(Tokens(f.assets))
    case _ => false
  }

  /** The parts of a fixture in the order in which they are checked. */
  function Part(code: ErrorCode): nat {
    match code
    case EPOCH_BOUNDARY => 0
    case BLOCK_ORDER => 0
    case SNAPSHOT_AFTER_FINALIZED => 0
    case CLAIM_PERIOD => 0
    case DUPLICATE_EXCLUSION => 1
    case DUPLICATE_HOLDER => 2
    case CHAIN_MISMATCH => 3
    case TRANSFER_OUT_OF_EPOCH => 3
    case UNSUPPORTED_DURATION => 4
    case BAD_WITHDRAWAL => 4
    case _ => 5
  }

  function CycleError(c: Cycle): Option<ErrorCode> {
    if c.epochStart != c.epochId * EPOCH_SECONDS then Some(EPOCH_BOUNDARY)
    else if c.epochEnd != c.epochStart + EPOCH_SECONDS then Some(EPOCH_BOUNDARY)
    else if c.startBlock > c.endBlock then Some(BLOCK_ORDER)
    else if c.snapshotBlock < c.startBlock || c.snapshotBlock > c.endBlock then Some(BLOCK_ORDER)
    else if c.snapshotBlock > c.finalizedBlock then Some(SNAPSHOT_AFTER_FINALIZED)
    else if c.endBlock > c.finalizedBlock then Some(BLOCK_ORDER)
    else if c.claimStart > c.claimDeadline then Some(CLAIM_PERIOD)
    else None
  }

  method HasDuplicate(keys: seq<Address>) returns (found: bool)
    ensures found <==> !Distinct(keys)
  {
    var seen: set<Address> := {};
    for i := 0 to |keys|
      invariant Distinct(keys[..i])
      invariant forall k :: k in seen <==> k in keys[..i]
    {
      assert keys[..i + 1] == keys[..i] + [keys[i]];
      if keys[i] in seen {
        ghost var j :| 0 <= j < i && keys[..i][j] == keys[i];
        assert keys[j] == keys[i];
        return true;
      }
      seen := seen + {keys[i]};
    }
    assert keys[..|keys|] == keys;
    return false;
  }

  method NormalizeTransfers(c: Cycle, xs: seq<Transfer>) returns (error: Option<ErrorCode>)
    ensures error.None? <==> forall x :: x in xs ==> ValidTransfer(c, x)
    ensures error.Some? ==> error.value == CHAIN_MISMATCH || error.value == TRANSFER_OUT_OF_EPOCH
    ensures error == Some(CHAIN_MISMATCH) ==> exists x :: x in xs && x.chainId != c.chainId
    ensures error == Some(TRANSFER_OUT_OF_EPOCH) ==> exists x :: x in xs && !(c.epochStart <= x.timestamp <= c.epochEnd)
  {
    for i := 0 to |xs|
      invariant forall j :: 0 <= j < i ==> ValidTransfer(c, xs[j])
    {
      assert xs[i] in xs;
      if xs[i].chainId != c.chainId { return Some(CHAIN_MISMATCH); }
      if xs[i].timestamp < c.epochStart || xs[i].timestamp > c.epochEnd { return Some(TRANSFER_OUT_OF_EPOCH); }
    }
    return None;
  }

  method NormalizeLocks(ls: seq<Lock>) returns (error: Option<ErrorCode>)
    ensures error.None? <==> forall l :: l in ls ==> ValidLock(l)
    ensures error.Some? ==> error.value == UNSUPPORTED_DURATION || error.value == BAD_WITHDRAWAL
    ensures error == Some(UNSUPPORTED_DURATION) ==>
            exists l :: l in ls && l.unlockTimestamp - l.startTimestamp != DurationSeconds(l.tier)
    ensures error == Some(BAD_WITHDRAWAL) ==>
              exists l :: l in ls && l.withdrawalTimestamp.Some? && l.withdrawalTimestamp.value < l.startTimestamp
  {
    for i := 0 to |ls|
      invariant forall j :: 0 <= j < i ==> ValidLock(ls[j])
    {
      var l := ls[i];
      assert l in ls;
      if l.unlockTimestamp - l.startTimestamp != DurationSeconds(l.tier) { return Some(UNSUPPORTED_DURATION); }
      if l.withdrawalTimestamp.Some? && l.withdrawalTimestamp.value < l.startTimestamp { return Some(BAD_WITHDRAWAL); }
    }
    return None;
  }

  method LoadCycleFixture(raw: Fixture) returns (r: Result<Fixture, ErrorCode>)
    ensures r.Success? <==> ValidFixture(raw)
    ensures r.Success? ==> r.value == raw
    ensures r.Failure? ==> Violates(raw, r.error)
    ensures r.Failure? ==> forall other :: Violates(raw, other) ==> Part(r.error) <= Part(other)
  {
    var cycleError := CycleError(raw.cycle);
    if cycleError.Some? { return Failure(cycleError.value); }
    var duplicate := HasDuplicate(raw.excludedAddresses);
    if duplicate { return Failure(DUPLICATE_EXCLUSION); }
    duplicate := HasDuplicate(Holders(raw.eligibility));
    if duplicate { return Failure(DUPLICATE_HOLDER); }
    duplicate := HasDuplicate(Starters(raw.epochStartBalances));
    if duplicate { return Failure(DUPLICATE_HOLDER); }
    var error := NormalizeTransfers(raw.cycle, raw.transfers);
    if error.Some? { return Failure(error.value); }
    error := NormalizeLocks(raw.locks);
    if error.Some? { return Failure(error.value); }
    duplicate := HasDuplicate(Tokens(raw.assets));
    if duplicate { return Failure(DUPLICATE_ASSET); }
    return Success(raw);
  }
}
