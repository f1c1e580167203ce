/** Records and constants of the Proof-of-Distribution engine. */
module PodModel {
  import opened Results

  /** A normalized 20-byte address; its lower-case hex order is the numeric order. */
  type Address = nat

  /** A 32-byte hash as a number. */
  type Hash = nat

  const ZERO_ADDRESS: Address := 0
  const EPOCH_SECONDS: nat := 900
  const PARTICIPANT_POOL_BPS: nat := 8_000
  const BPS_DENOMINATOR: nat := 10_000
  const DAY: nat := 86_400

  datatype Tier = LOCK_7D | LOCK_14D | LOCK_21D | LOCK_30D

  const SUPPORTED_LOCK_TIERS: seq<Tier> := [LOCK_7D, LOCK_14D, LOCK_21D, LOCK_30D]

  function MultiplierBps(tier: Tier): nat {
    match tier
    case LOCK_7D => 11_000
    case LOCK_14D => 12_500
    case LOCK_21D => 15_000
    case LOCK_30D => 17_500
  }

  function DurationSeconds(tier: Tier): nat {
    match tier
    case LOCK_7D => 7 * DAY
    case LOCK_14D => 14 * DAY
    case LOCK_21D => 21 * DAY
    case LOCK_30D => 30 * DAY
  }

  datatype Transfer = Transfer(
    chainId: nat, blockNumber: nat, blockHash: Hash, transactionHash: Hash,
    transactionIndex: nat, logIndex: nat, timestamp: nat,
    from: Address, to: Address, rawAmount: nat)

  datatype StartBalance = StartBalance(wallet: Address, rawBalance: nat)

  datatype Lock = Lock(
    wallet: Address, rawPrincipal: nat, tier: Tier,
    startTimestamp: nat, unlockTimestamp: nat, withdrawalTimestamp: Option<nat>)

  datatype EligibilityRecord = EligibilityRecord(
    wallet: Address, eligible: bool, policyVersion: string,
    validFrom: nat, expiry: Option<nat>, revoked: bool)

  datatype Asset = Asset(tokenAddress: Address, acquiredRawAmount: nat)

  datatype Cycle = Cycle(
    cycleId: nat, chainId: nat, claimManagerAddress: Address,
    epochId: nat, epochStart: nat, epochEnd: nat,
    startBlock: nat, endBlock: nat, snapshotBlock: nat, finalizedBlock: nat,
    claimStart: nat, claimDeadline: nat, eligibilityPolicyVersion: string)

  datatype Fixture = Fixture(
    cycle: Cycle,
    excludedAddresses: seq<Address>,
    eligibility: seq<EligibilityRecord>,
    epochStartBalances: seq<StartBalance>,
    transfers: seq<Transfer>,
    locks: seq<Lock>,
    assets: seq<Asset>)

  /** One wallet, one asset, one cycle. */
  datatype Entitlement = Entitlement(cycleId: nat, wallet: Address, asset: Address, amount: int)

  datatype ErrorCode =
    | EPOCH_BOUNDARY | BLOCK_ORDER | SNAPSHOT_AFTER_FINALIZED | CLAIM_PERIOD
    | DUPLICATE_EXCLUSION | DUPLICATE_HOLDER | CHAIN_MISMATCH | TRANSFER_OUT_OF_EPOCH
    | UNSUPPORTED_DURATION | BAD_WITHDRAWAL | DUPLICATE_ASSET
    | CONFLICTING_LOG | AMBIGUOUS_ORDER | NONMONOTONIC_TIMESTAMP
    | NEGATIVE_BALANCE | LOCK_EXCEEDS_BALANCE
    | ALLOC_CONSERVATION | ALLOC_OVERFLOW
    | EMPTY_TREE | ZERO_LEAF | DUPLICATE_ENTITLEMENT
    | PROOF_VERIFICATION | RECON_CONSERVATION
    | VALUE_OUT_OF_RANGE  // no code of the engine: the exception of the ABI encoder
}
