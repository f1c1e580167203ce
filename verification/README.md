# Proof-of-Distribution: a verified model

This project models, in Dafny, the reward-distribution engine of the repository and the four
smaller cores that repeat or use its rules, and proves what they promise.

* **Weights.** A 900-second epoch is swept once over its breakpoints: transfers are applied in
  place, locks are evaluated at the breakpoints, `balance * dt`, `free * dt` and `locked * dt` are
  accumulated per wallet and floored at the end. The sweep is proved equal to sums over every
  second, and its verdict equal to conditions stated for every second (`Canonical`, `Ledger`,
  `Twab`, `WeightBounds`, `Supply`, `Epoch`; `Refusals` says which code a faulty record set is refused with).
* **Distribution.** Fixture checks, eligibility, the 80/20 split with per-wallet floors, the claim
  tree, proof verification and reconciliation are composed into one run; after the sweep nothing but
  the encoder can end it, and everything provable under the published root adds up to at most the
  participant pool (`Validate`, `Eligibility`, `Allocation`, `Digests`, `Merkle`, `Pipeline`, `Reordering`,
  `Limits`, `Claims`).
* **Snapshot.** The indexer's second implementation of candidate discovery and of the floor rule,
  over chunked log scans (`Snapshot`, `Scans`).
* **Transactions.** The approve, simulate, submit, confirm, reconcile lifecycle against a node and
  a wallet that may answer anything (`Lifecycle`).
* **Prices and settlement.** The two-feed price guard with its rounding bounds, and the guarded
  settlement with its replay store over whole runs (`PriceGuard`, `Settlement`).

`Results`, `PodModel`, `Sorting`, `Sums` and `Text` hold the shared vocabulary.

## How things are modelled

* In the distribution engine an address is its 20 bytes as a number: the code compares normalized
  lower-case hex strings of one length, whose order is the numeric order. In the price guard and the
  settlement, where letter case matters, addresses and identities are strings.
* Big integers are mathematical integers, as in the source. Divisions whose dividend can be
  negative are written with truncation toward zero; all others are shown to have non-negative dividends.
* A thrown error is a `Failure` carrying its code; messages are not modelled.
* Hashing encodes the claim with 256-bit integers and throws beyond them; that exception is an outcome of
  every operation that hashes a claim, named `VALUE_OUT_OF_RANGE`, `ENCODER_RANGE` or `Unencodable`.
* Within that range hashing is a free term algebra: a leaf digest determines its fields, a node digest its two
  children, the two kinds never coincide, and any other 32 bytes are a third kind. The comparison
  that sorts a pair is any function under which two different digests do not tie. The tree library
  may arrange the leaves in any shape that keeps each of them once.
* A foreign call (node, wallet, contract, reconcile callback, digest hash) is a parameter holding
  whatever it answers, including failure.
* A host-language set or map is a sequence in insertion order where iteration order is observable,
  otherwise a Dafny set or map. `distributed` stands for the source's `allocated`.

## Findings

* **Encoding range.** Nothing bounds the ids and amounts of a fixture, but every claim is encoded with
  256-bit integers. A fixture that is sound in every other respect, with one eligible wallet and an
  acquired amount of 2 * 10^77, is allotted a share beyond 2^256 - 1, so the run ends with the encoder's
  exception instead of a published root (`Limits.OversizedShareIsUnencodable`). `Pipeline.RunProofOfDistribution`
  states the exact condition, `Limits.EncodesIff` spells it out, and `Limits.PoolsInRangeEncode` gives a check
  that needs no weights. The snapshot run has the same limit, and two more: the instants of its publication
  call are 64-bit (`Limits.LateDeadlineIsUnencodable`) and its amount 256-bit (`Limits.LargeAmountIsUnencodable`);
  `Snapshot.RunSnapshotPipeline` states the exact condition. The claim gate throws exactly on a claim that
  meets its other conditions and cannot be encoded (`Claims.VerifyClaim`), negative amounts included
  (`Limits.NegativeClaimThrows`).
* **Deviation policy.** With a reference output of 3 units and a policy of 1% the price guard accepts a
  minimum of 2 units, 33.33% below (`PriceGuard.PolicyCanBeExceeded`). `PriceGuard.WithinPolicyIff` gives, for
  fixed feeds and any policy, the exact condition under which every accepted quote is within the policy; it
  holds from 10000 units of reference output on (`PriceGuard.LargeOutputsKeepPolicy`), and
  `PriceGuard.DeviationBound` is the bound that always holds.
* **Refusal codes.** Which of `AMBIGUOUS_ORDER` and `NONMONOTONIC_TIMESTAMP` is reported can depend on the
  order in which one and the same records are listed (`Refusals.CodeDependsOnListing`). It does exactly for
  conflict-free records of which two tie for the first trouble, one of them stamped before something preceding
  it and the other not (`Refusals.CodeDeterminedIff`); records that conflict are always refused as
  `CONFLICTING_LOG`. Acceptance, the canonical history and the weights never depend on the listing.
* **Replaced transactions.** A transaction that was replaced, not cancelled, is followed by the ordinary
  receipt check. Without a reconcile callback the lifecycle then reports success on the receipt of the
  replacement (`Lifecycle.ReplacedReportsDone`; the exact condition is `Lifecycle.ReplacedNeedsReconcile`).
* **Chunk size.** For a chunk size below one and a non-empty range the web client's scan ends only if the
  node refuses one of its windows (`Scans.LoopEndsIff`).

## Model

| member | source | states |
|---|---|---|
| Canonical.CanonicalizeTransfers | packages/shared/src/proof-of-distribution/twab.ts:62-89 | succeeds exactly when no two records share an identity, no two tie in (block, tx, log), and timestamps follow that order; the result is then the one strictly ordered, timestamp-monotone listing of the records, field by field: blocks never back, transactions never back within a block, logs strictly forward within a transaction; conflicting records are always refused as conflicting, all others with the first fault of the stably sorted list |
| Canonical.AcceptedIffListable | packages/shared/src/proof-of-distribution/twab.ts:52-89 | records are accepted exactly when they can be listed with block, transaction and log numbers in order, the clock never back and no (chain, transaction hash, log index) twice, and the history is that one listing |
| Canonical.CheckOrder | packages/shared/src/proof-of-distribution/twab.ts:78-88 | looking at neighbours only decides ambiguity and monotonicity for all pairs |
| Canonical.OrderAndDuplicatesIrrelevant | packages/shared/src/proof-of-distribution/twab.ts:61-89 | two lists with the same records are both refused or both give the same canonical history |
| Refusals.CodeDeterminedIff | packages/shared/src/proof-of-distribution/twab.ts:62-89 | over all listings of one record set the verdict, code included, is the same exactly when the records conflict or no two of them tie for the first trouble with one late and one not |
| Refusals.RefusedIff | packages/shared/src/proof-of-distribution/twab.ts:62-89 | conflicting records are refused as conflicting in every listing and in no other way; any others are refused with a code in some listing exactly when they hold a first trouble of that kind |
| Refusals.CodeDependsOnListing | packages/shared/src/proof-of-distribution/twab.ts:81-86 | one record set in two listings, refused as ambiguous in one and as non-monotone in the other |
| Twab.ComputeWeights | packages/shared/src/proof-of-distribution/twab.ts:110-230 | accepts exactly when the records are consistent, every sender can pay in turn, and no relevant wallet is over-locked at any second; then every relevant wallet and no other gets the weight given by second-by-second sums; an overdraft is reported exactly when it comes before every over-locked second, an over-lock exactly when every sender up to its second can pay |
| Twab.SweepEpoch | packages/shared/src/proof-of-distribution/twab.ts:177-206 | the breakpoint sweep: same verdict, same reason and same integrals as checking and summing every second |
| Twab.OneFaultFirst | packages/shared/src/proof-of-distribution/twab.ts:177-205 | an overdraft and an over-lock never both come first |
| Twab.SweepInterval | packages/shared/src/proof-of-distribution/twab.ts:178-205 | one turn of the outer loop carries the state of the sweep from one breakpoint to the next, or refuses for the fault that comes first |
| Twab.ApplyDue | packages/shared/src/proof-of-distribution/twab.ts:181-184 | the cursor consumes exactly the transfers stamped with the breakpoint; balances are start plus the consumed prefix; failure means a transfer stamped with the breakpoint whose sender cannot pay |
| Twab.ApplyTransfer | packages/shared/src/proof-of-distribution/twab.ts:163-175 | every wallet changes by its delta, the zero address never, and only an overdrawn non-zero sender is refused |
| Twab.Accrue | packages/shared/src/proof-of-distribution/twab.ts:187-205 | every relevant wallet's integrals grow by value times length; refused exactly when some wallet has more active-locked than its balance |
| Twab.ActiveLockedByTier | packages/shared/src/proof-of-distribution/twab.ts:91-102 | per tier, the principal of the locks whose bonus interval contains the instant |
| Ledger.LockedIsSumOfRunning | packages/shared/src/proof-of-distribution/twab.ts:91-102 | at every second the locked principal of a wallet in a tier is the sum over its locks of that tier that have started and are neither unlocked nor withdrawn |
| Ledger.LockedTotalIsSumOfRunning | packages/shared/src/proof-of-distribution/twab.ts:189-191 | ... and over all tiers the sum over all such locks |
| Epoch.SpentLockIsInert | packages/shared/src/proof-of-distribution/twab.ts:91-102 | a lock that starts after the epoch or was unlocked or withdrawn by its start changes no verdict and no weight, wherever it is listed; at most its wallet appears among the weights |
| Twab.CollectBreakpoints | packages/shared/src/proof-of-distribution/twab.ts:140-154 | strictly ascending from epoch start to end, contains every transfer time, and nothing changes strictly between two neighbours |
| Twab.SeedBalances | packages/shared/src/proof-of-distribution/twab.ts:122-138 | seed balances, and the relevant wallets exactly once each |
| Twab.GroupLocks | packages/shared/src/proof-of-distribution/twab.ts:132-138 | each wallet's own locks, in order |
| Twab.FloorWeights | packages/shared/src/proof-of-distribution/twab.ts:208-227 | flooring the integrals gives the weights of the second-by-second sums |
| Ledger.QuietInterval | packages/shared/src/proof-of-distribution/twab.ts:185-197 | between breakpoints the balance integral is value at the start times length |
| Ledger.QuietLocks | packages/shared/src/proof-of-distribution/twab.ts:140-152 | between breakpoints no tier's active principal changes |
| Ledger.NetAtIsPrefix | packages/shared/src/proof-of-distribution/twab.ts:177-184 | the balance at a second is the start balance plus the prefix the cursor has consumed |
| WeightBounds.RoundingBounds | packages/shared/src/proof-of-distribution/twab.ts:208-226 | unlocked plus locked twab is within four units below base twab; effective weight lies between base minus four and floor(1.75 base) |
| WeightBounds.PublishedWeightTerms | packages/shared/src/proof-of-distribution/twab.ts:208-226 | every term of a published weight: floors of the sums over 900 seconds, and 11/10, 5/4, 3/2 and 7/4 of what is locked in the four tiers, each floored |
| WeightBounds.PublishedWeightsRounded | packages/shared/src/proof-of-distribution/twab.ts:219-226 | the same bounds for every weight an accepted epoch publishes |
| WeightBounds.WeightsIgnoreOrder | packages/shared/src/proof-of-distribution/twab.ts:119-120 | reordered or repeated records give identical weights |
| Supply.SupplyConserved | packages/shared/src/proof-of-distribution/twab.ts:163-175 | after any transfers, self-transfers included, balances sum to the initial supply plus mints minus burns |
| Supply.SupplyConservedAt | packages/shared/src/proof-of-distribution/twab.ts:163-184 | the same at every second |
| Supply.PublishedTwabWithinSupply | packages/shared/src/proof-of-distribution/twab.ts:208-226 | base twabs sum to at most the floored twab of the supply, and fall short by less than the number of wallets |
| Epoch.EpochsTile | packages/shared/src/proof-of-distribution/epoch.ts:14-29 | every second lies in exactly one half-open epoch, and consecutive epochs meet |
| Epoch.BalanceIsOfTheRecords | packages/shared/src/proof-of-distribution/twab.ts:119-120 | the balance swept at a second is that of any duplicate-free listing of the records |
| Epoch.CutHistories | packages/shared/src/proof-of-distribution/twab.ts:119-120 | cutting a history at an epoch end gives the applied part of the first epoch followed by the whole second history |
| Epoch.BoundaryTransferCountsOnce | packages/shared/src/proof-of-distribution/twab.ts:119-120 | a transfer stamped exactly at the end is applied once over both epochs, by the second |
| Epoch.SnapshotSeeds | packages/shared/src/proof-of-distribution/twab.ts:208-222 | the published snapshot balances continue every wallet where its epoch ended, wallets without a weight holding exactly nothing |
| Epoch.BalancesJoin | packages/shared/src/proof-of-distribution/twab.ts:219-222 | a second epoch started from the snapshot balances the first one published has, at every second of either, the balance of the unbroken history |
| Epoch.SnapshotsJoin | packages/shared/src/proof-of-distribution/twab.ts:219-222 | the snapshot balances the second epoch publishes are the balances of the unbroken history at its end |
| Epoch.BalanceSecondsJoin | packages/shared/src/proof-of-distribution/twab.ts:187-197 | balance-seconds of two epochs, the second seeded from the published snapshots of the first, add up to those of one sweep across both |
| Epoch.OverdraftsJoin | packages/shared/src/proof-of-distribution/twab.ts:163-169 | with the second epoch seeded from the published snapshots, both find every sender solvent exactly when the unbroken sweep does |
| Epoch.VerdictsJoin | packages/shared/src/proof-of-distribution/twab.ts:163-195 | the sweeps of two epochs, the second seeded from the published snapshots, both accept exactly when one sweep across both does, overdrafts and over-locks alike, given the locks active in each |
| Validate.LoadCycleFixture | packages/shared/src/proof-of-distribution/validate.ts:204-216 | accepts exactly the fixtures that meet every cross-field rule, and refuses with a code that names a violated one in the earliest part of the fixture that violates any |
| Validate.NormalizeTransfers | packages/shared/src/proof-of-distribution/validate.ts:124-152 | chain id and inclusive epoch window of every transfer |
| Validate.NormalizeLocks | packages/shared/src/proof-of-distribution/validate.ts:154-183 | exact tier duration, and withdrawal not before start, of every lock |
| Validate.Durations | packages/shared/src/proof-of-distribution/validate.ts:160-174 | a lock is valid exactly when it lasts 604800, 1209600, 1814400 or 2592000 seconds by its tier and is not withdrawn before its start; a valid epoch starts at 900 times its id and lasts 900 seconds |
| Validate.HasDuplicate | packages/shared/src/proof-of-distribution/validate.ts:112-122 | the seen-set finds a duplicate exactly when there is one |
| Eligibility.ResolveEligibility | packages/shared/src/proof-of-distribution/eligibility.ts:25-64 | the admitted wallets, each once, ascending; the three totals are sums over exactly those wallets |
| Allocation.AllocateAsset | packages/shared/src/proof-of-distribution/allocation.ts:38-88 | the positive floor shares in wallet order with their total, pool, reserve and dust; refused exactly when the shares exceed the pool |
| Allocation.Allocate | packages/shared/src/proof-of-distribution/allocation.ts:91-121 | asset by asset, flat list of entitlements, publishable exactly with weight and at least one entitlement |
| Allocation.ShareIsFloor | packages/shared/src/proof-of-distribution/allocation.ts:55-57 | a share is within one unit below the exact share, and monotone in the weight |
| Allocation.DustBound | packages/shared/src/proof-of-distribution/allocation.ts:45-76 | with the true total as denominator nothing is over-allocated, dust is below one unit per wallet with weight, and acquired is reserve plus allocated plus dust |
| Allocation.SharesArePositive | packages/shared/src/proof-of-distribution/allocation.ts:54-61 | exactly the wallets with a positive share are entitled, to that share |
| Digests.ViemProcessProof | packages/shared/src/proof-of-distribution/viem-verify.ts:57-68 | the loop computes the sorted-pair fold |
| Digests.FoldComplete | packages/shared/src/proof-of-distribution/viem-verify.ts:62-68 | in a tree of any shape every leaf's sibling path folds to the root |
| Digests.FoldSound | packages/shared/src/proof-of-distribution/viem-verify.ts:53-68 | a leaf digest that folds to the root, by any siblings, is a leaf of the tree |
| Digests.ProvableIffLeaf | packages/shared/src/proof-of-distribution/viem-verify.ts:53-78 | some proof exists under the root exactly for the leaves put in |
| Merkle.BuildMerkle | packages/shared/src/proof-of-distribution/merkle.ts:47-89 | succeeds exactly on non-empty lists with positive amounts, distinct (cycle, wallet, asset) and integers within uint256; entries are the entitlements in claim order with the sibling paths of the tree over them, each proof folds to the root, the index lists each wallet's entries, and nothing else is provable; otherwise the first wrong entry in claim order decides the code |
| Merkle.WalletClaimsAreItsEntries | packages/shared/src/proof-of-distribution/merkle.ts:82-94 | looking up a wallet gives exactly the entries that name it, at most one per asset, by ascending asset, and none for unknown wallets |
| Merkle.CheckEntries | packages/shared/src/proof-of-distribution/merkle.ts:57-67 | finds a non-positive amount or a repeated key exactly when there is one |
| Merkle.BuildIgnoresOrder | packages/shared/src/proof-of-distribution/merkle.ts:5-89 | the entitlements of a cycle in any two orders give the same root, the same proofs and the same index |
| Merkle.OneAmountPerKey | packages/shared/src/proof-of-distribution/merkle.ts:57-67 | under one root a wallet can prove at most one amount of an asset |
| Merkle.ProvableTotalBounded | packages/shared/src/proof-of-distribution/merkle.ts:57-80 | distinct provable claims in one asset total at most its entitlements, and exactly them when all are in |
| Pipeline.VerifyProofs | packages/shared/src/proof-of-distribution/pipeline.ts:49-66 | passes exactly when every published claim is encodable and its proof folds to the root, counting each once for both verifiers |
| Pipeline.Reconcile | packages/shared/src/proof-of-distribution/reconciliation.ts:33-63 | passes exactly when every asset is conserved; every field of the record is given by the allocation: claimable, funded and unclaimed are what was allocated, nothing is claimed, dust rolls over |
| Pipeline.RunProofOfDistribution | packages/shared/src/proof-of-distribution/pipeline.ts:69-94 | succeeds exactly on sound fixtures whose ids and shares fit the encoder; every other outcome is fixed stage by stage: an earliest violated fixture rule, the verdict on the records, whichever of overdraft and over-lock comes first, or the encoder's exception; no later defensive check can fire |
| Pipeline.PublishedRootProves | packages/shared/src/proof-of-distribution/merkle.ts:29-38 | under a published root a claim is provable exactly when it carries the chain id, claim manager and cycle id of the fixture and wallet, asset and amount of an entitlement |
| Pipeline.ProvableIffOwed | packages/shared/src/proof-of-distribution/pipeline.ts:69-94 | ... that is, exactly when the wallet is admitted and the amount is the positive floor of its weight's share in four fifths of what was acquired of that asset |
| Limits.EncodesIff | packages/shared/src/proof-of-distribution/merkle.ts:29-38 | a sound fixture fits the encoder exactly when nothing is published or chain id, cycle id and every share are below 2^256 |
| Limits.PoolsInRangeEncode | packages/shared/src/proof-of-distribution/allocation.ts:45-57 | ids and participant pools below 2^256 are enough, whatever the weights |
| Limits.OversizedShareIsUnencodable | packages/shared/src/proof-of-distribution/schemas.ts:13-15 | a fixture the schema admits, sound in every other respect, whose one share exceeds the encoding |
| Pipeline.ProvableWithinPool | packages/shared/src/proof-of-distribution/pipeline.ts:83-94 | end to end: whatever proofs are submitted, distinct provable claims in an asset total at most what was allocated, hence at most the participant pool |
| Pipeline.ProvableOnce | packages/shared/src/proof-of-distribution/pipeline.ts:90-92 | under a published root no wallet can prove two amounts of one asset |
| Pipeline.FixtureOrderIrrelevant | packages/shared/src/proof-of-distribution/pipeline.ts:69-89 | fixtures listing the same transfers in any order or multiplicity are accepted alike and give the same result, root and proofs included |
| Reordering.PublicationIgnoresOrder | packages/shared/src/proof-of-distribution/pipeline.ts:69-94 | the same transfer records with locks, start balances, eligibility rows, exclusions and assets in any order: the same verdict, weights, eligible wallets, root, proofs, index and verification counts, and the same allocation and reconciliation of every asset |
| Claims.FoldProof | apps/web/lib/claim.ts:50-59 | the second implementation computes the same fold |
| Claims.VerifyClaim | apps/web/lib/claim.ts:98-130 | verified exactly when all conditions hold and the claim is encodable; a rejection names the first condition that fails; hashing throws exactly on claims that only their encoding or proof could still stop |
| Limits.NegativeClaimThrows | apps/web/lib/claim.ts:98-130 | in any open cycle with a remaining amount there is a claim of a negative amount that meets every condition but cannot be encoded |
| Claims.GateOpensForEntitlements | apps/web/lib/claim.ts:98-130 | against a published root a passing claim is an entitlement to the last unit, and every entitlement passes with its own proof |
| Claims.PassingClaimsWithinPool | apps/web/lib/claim.ts:98-130 | passing claims of distinct claimants total at most what was allocated of the asset |
| Snapshot.EnumerateCandidates | apps/indexer/src/lock-snapshot/enumeration.ts:28-54 | succeeds exactly on well-formed records; the candidates are the accounts up to the pin, each once, ascending, the rest is counted; an error is the one the first malformed record deserves |
| Snapshot.CandidatesUnique | apps/indexer/src/lock-snapshot/enumeration.ts:32-53 | order and repetition of records do not change the candidates |
| Snapshot.CandidatesAreTheChains | apps/indexer/src/lock-snapshot/rpc-reader.ts:101-143 | over chunked scans of a node that serves a chain the candidates are exactly the accounts with a LockCreated log in the pinned range |
| Snapshot.EveryPositionCounts | apps/indexer/src/lock-snapshot/pipeline.ts:139-147 | raising the weight of any one position of an account by d raises the account by d, and an account without positions weighs nothing |
| Snapshot.CollectParticipants | apps/indexer/src/lock-snapshot/pipeline.ts:136-160 | weights are the sums over all positions; participants are the candidates with weight and the others are counted; refused exactly on a negative position or nobody left |
| Snapshot.Entitle | apps/indexer/src/lock-snapshot/pipeline.ts:162-181 | the floor shares with dust below one unit per participant; over-allocation never happens; dust-only exactly when every share is below one unit, which needs fewer units than participants |
| Snapshot.SnapshotMatchesEngine | apps/indexer/src/lock-snapshot/pipeline.ts:162-171 | for the same pool and weights the entitlements equal the shared engine's, wallet by wallet |
| Snapshot.ValidateRequestShape | apps/indexer/src/lock-snapshot/pipeline.ts:54-74 | passes exactly for a well-shaped request and otherwise names its first fault |
| Snapshot.GuardView | apps/indexer/src/lock-snapshot/pipeline.ts:85-127 | passes exactly when chain, pinned block, coverage and vault are those requested, and otherwise names the first fault |
| Snapshot.RunSnapshotPipeline | apps/indexer/src/lock-snapshot/pipeline.ts:76-373 | delivers exactly for a sound request and chain view, clean records, at least one paid participant, leaves within uint256 and as on chain, well-formed withdrawal accounts, and an encodable publication call; root and proofs are then those of the tree over the shares; every other outcome is the first fault in the order of the run; the self-verification and over-allocation guards never fire |
| Snapshot.DeliveredRootProves | apps/indexer/src/lock-snapshot/pipeline.ts:162-209 | under a delivered root a claim is provable exactly when it carries the chain id, claim manager, cycle id and asset of the request, its wallet is a participant, and its amount is the positive floor of the wallet's share |
| Snapshot.SnapshotIgnoresRecordOrder | apps/indexer/src/lock-snapshot/pipeline.ts:130-171 | reordered or repeated event records give the same participants and entitlements |
| Snapshot.DeliveryIgnoresRecordOrder | apps/indexer/src/lock-snapshot/pipeline.ts:76-373 | ... and the same verdict, and where they deliver the same run, root and proofs included |
| Limits.LateDeadlineIsUnencodable | apps/indexer/src/lock-snapshot/pipeline.ts:319-332 | a run that delivers with the last instant of 64 bits as claim deadline, and one second later is stopped by its publication call alone |
| Limits.LargeAmountIsUnencodable | apps/indexer/src/lock-snapshot/pipeline.ts:319-332 | a run over 2^256 - 2 units delivers; over 2^256 units its two leaves still encode and match the chain, and its publication call alone stops it |
| Scans.GetLogsChunked | apps/web/lib/services/reads.ts:348-379 | for every chunk size, whenever the loop ends: the windows of its turns are asked for in order until the range is passed or one is refused, which is the failure; with a positive chunk size these are the windows up to head minus confirmations and the answer is their deduplicated logs; with any other size a scan of a non-empty range can only fail |
| Scans.LoopEndsIff | apps/web/lib/services/reads.ts:362-375 | the loop ends exactly for chunk sizes of at least one, empty ranges, and nodes that refuse one of its windows |
| Scans.WindowsPartition | apps/web/lib/services/reads.ts:362-363 | each block of the range is in exactly one window and no window leaves the range |
| Scans.WindowsAnswerRange | apps/web/lib/services/reads.ts:359-378 | the windows together answer one whole-range query |
| Scans.ChunkSizeIrrelevant | apps/web/lib/services/reads.ts:359-378 | the deduplicated result does not depend on the chunk size |
| Scans.DedupeLogs | apps/web/lib/services/reads.ts:324-338 | the loop keeps the first log of each identity and every log without one |
| Scans.DedupeIsExact | apps/web/lib/services/reads.ts:323-338 | every pair of transaction hash and log index survives, exactly once, nothing is invented, logs without either keep their multiplicity |
| Scans.DedupeIdempotent | apps/web/lib/services/reads.ts:323-338 | deduplicating twice changes nothing |
| Scans.RpcReader.AssertLogsEndpointChain | apps/indexer/src/lock-snapshot/rpc-reader.ts:60-84 | passes once chain ids and, for distinct clients, the pinned block hash agree; the flag is never cleared |
| Scans.RpcReader.Scan | apps/indexer/src/lock-snapshot/rpc-reader.ts:101-134 | nothing is asked of the node before the endpoints agree; succeeds exactly when every window is answered and no matching log is pending, and otherwise stops at the first window that spoils it |
| Scans.ScanWindows | apps/indexer/src/lock-snapshot/rpc-reader.ts:108-133 | the chunk loop asks for the windows in order, for every chunk size, and selects the event from all of them or stops at the first that spoils the scan |
| Scans.ScanIsWholeRange | apps/indexer/src/lock-snapshot/rpc-reader.ts:109-132 | the pinned scan equals one query over the whole range |
| Lifecycle.WaitConfirmed | apps/web/lib/wallet/tx.ts:68-87 | confirmed exactly on a successful receipt whose latest notice is not a cancellation; an error while waiting is reported as such |
| Lifecycle.EnsureAllowance | apps/web/lib/wallet/tx.ts:120-167 | continues exactly when the last-read allowance suffices; approves at most once and only after an insufficient reading |
| Lifecycle.Act | apps/web/lib/wallet/tx.ts:169-215 | ok exactly when simulated, sent, confirmed and reconciled; how many of its steps are taken, the reason it stops for and the calls it makes are fixed by the answers; the hash is reported exactly when the action was sent |
| Lifecycle.RunActionLifecycle | apps/web/lib/wallet/tx.ts:108-216 | for every behaviour of node and wallet: ok exactly when granted, a step is reported exactly when everything before it went well, each reported step makes exactly its call, a run that stops gives the reason of its last step, uncaught read errors are the only rejections; the action is sent at most once right after the identical call simulated, an approval at most once for the exact amount right after an insufficient reading, and the callback is asked exactly after a confirmed action |
| Lifecycle.ReplacedNeedsReconcile | apps/web/lib/wallet/tx.ts:68-87 | a replaced transaction with a successful receipt counts as done exactly when there is no callback or the callback confirms |
| Lifecycle.ReplacedReportsDone | apps/web/lib/wallet/tx.ts:195-215 | a run whose action was replaced, without callback, reported as done |
| PriceGuard.AcceptedQuote | packages/rialto/src/price-guard.ts:258-386 | all an accepted quote has been checked against; the expected output is the floor of sold amount times its price over the output price, with the four powers of ten and the multiplier written out in the inputs; minimum and deviation likewise |
| PriceGuard.AcceptedIff | packages/rialto/src/price-guard.ts:258-386 | a quote is accepted exactly when sequencer, feeds, token state and amounts meet their conditions and the minimum lies between the floored one and 2^256 |
| PriceGuard.RefusalNamesCause | packages/rialto/src/price-guard.ts:157-362 | a refusal names something wrong with the first of policy, sequencer, input feed, output feed and quote that has anything wrong |
| PriceGuard.DeviationBound | packages/rialto/src/price-guard.ts:354-362 | for every policy, accepted deviation is at most the policy plus floor(9999 / expected), hence within it from 10000 units on |
| PriceGuard.AcceptedDeviation | packages/rialto/src/price-guard.ts:354-362 | the same bound on the figure the guard reports |
| PriceGuard.PolicyCanBeExceeded | packages/rialto/src/price-guard.ts:354-362 | a quote the whole guard accepts at 33.33% under a policy of 1% |
| PriceGuard.WithinPolicyIff | packages/rialto/src/price-guard.ts:345-362 | for fixed feeds and any policy, every accepted quote is within it exactly when no quote can be accepted, or the policy is not negative and the remainder floored away at the reference output of the inputs is below that output, or the floored minimum is not positive |
| PriceGuard.LargeOutputsKeepPolicy | packages/rialto/src/price-guard.ts:345-362 | from 10000 units of reference output on every accepted quote is within every policy that is not negative |
| PriceGuard.RawEqualsPerTokenGuarded | packages/rialto/src/price-guard.ts:324-350 | a raw price with multiplier m behaves through the whole guard as the per-token price it stands for |
| PriceGuard.PerTokenIgnoresMultiplier | packages/rialto/src/price-guard.ts:328-331 | per-token output never depends on the multiplier |
| PriceGuard.DecimalsInvariantGuarded | packages/rialto/src/price-guard.ts:345-350 | restating either feed with ten times the answer and one more decimal changes nothing |
| PriceGuard.SellDecimalsInvariant | packages/rialto/src/price-guard.ts:345-350 | restating amount and cap of the sold token with one more decimal changes nothing |
| PriceGuard.BuyDecimalsRefine | packages/rialto/src/price-guard.ts:345-350 | with one more decimal of the bought token the reference output shows one more digit: its tenth, floored, is the old one |
| PriceGuard.Pow10Adds | packages/rialto/src/price-guard.ts:150-155 | powers of ten: one decimal is ten, and decimals add |
| Settlement.EvaluateGuardedSettlement | packages/rialto/src/guarded-settlement.ts:315-607 | failures are listed section after section, each as often as it occurs; ready exactly when no section has any; the status is the first fault of the lowest faulty section |
| Settlement.WholeReport | packages/rialto/src/guarded-settlement.ts:520-524 | a report is empty exactly for ready cases and otherwise opens with the first fault of the lowest faulty section |
| Settlement.ReadyIff | packages/rialto/src/guarded-settlement.ts:315-607 | a case is ready exactly when every condition on the fields of policy, intent, observations and store holds, the price ceiling with both its floors included |
| Settlement.CheckTaker | packages/rialto/src/guarded-settlement.ts:390-406 | a resolved, unburnt policy taker that the intent equals, with the faults in order |
| Settlement.CheckRegistry | packages/rialto/src/guarded-settlement.ts:409-450 | observation present, own registry and feature, current router, and one freshness window in place of the four staleness branches |
| Settlement.RouterFaults | packages/rialto/src/guarded-settlement.ts:421-429 | paused is reported exactly of a comparable target of a paused feature, a mismatch of any other target but the current router |
| Settlement.CheckPrice | packages/rialto/src/guarded-settlement.ts:452-491 | the early-exit chain as exclusive conditions, at most one of which is reported: approved source, pair, positive reference, freshness, ceiling |
| Settlement.CheckDeadline | packages/rialto/src/guarded-settlement.ts:494-503 | deadline present, after creation, lifetime within policy, not passed, in that order |
| Settlement.PreimageBinds | packages/rialto/src/guarded-settlement.ts:245-264 | two intents have the same digested parts exactly when they agree on version, chain, feature, nonce, deadline, both amounts, and up to letter case on registry, taker, target, selector, tokens and calldata hash |
| Settlement.DigestBindsIntent | packages/rialto/src/guarded-settlement.ts:504-507 | under a hash that separates what it is given, two ready intents with one digest agree on all of these |
| Settlement.InMemoryReplayStore.MarkConsumed | packages/rialto/src/guarded-settlement.ts:158-161 | adds exactly this digest and this nonce, up to letter case |
| Settlement.NonceKeyInjective | packages/rialto/src/guarded-settlement.ts:148-150 | for address takers two keys are equal exactly for one taker, up to letter case, and one nonce |
| Text.HexSyntax | packages/rialto/src/guarded-settlement.ts:26-35 | addresses, selectors and hashes are 0x with 40, 8 and 64 hex digits of either case |
| Settlement.ReadyRespectsPrice | packages/rialto/src/guarded-settlement.ts:472-488 | despite two floors a ready minimum meets the exact cross-multiplied bound, for every deviation setting |
| Settlement.ReadyClosesGates | packages/rialto/src/guarded-settlement.ts:285-308 | ready leaves no gate but a cap missing for some other allowed sell token, and that one exactly when such a token exists |
| Settlement.SettleAll | packages/rialto/src/guarded-settlement.ts:140-162 | a run of evaluate-then-consume on the store is the run of the specification |
| Settlement.NothingAcceptedTwice | packages/rialto/src/guarded-settlement.ts:508-512 | over any run accepted digests and (taker, nonce) pairs are pairwise distinct and none was known before |
| Settlement.AcceptedAreSettled | packages/rialto/src/guarded-settlement.ts:472-507 | every accepted case of a run meets its price bound and carries its own digest |
| Settlement.AcceptedSayDifferentThings | packages/rialto/src/guarded-settlement.ts:245-264 | any two accepted intents of a run differ in at least one digested field |

## Left out

- Solidity contracts: nothing is claimed about what they enforce; their reads are arbitrary parameters.
- Scans.GetLogsChunked: has no outcome for a scan that never ends; its precondition is exactly that the loop ends, which `Scans.LoopEndsIff` spells out.
- Settlement.Cap: a sell token named like an inherited member of a plain object ("constructor") finds that member at guarded-settlement.ts:355, which is not null, so neither cap fault is listed there; the model lists `AMOUNT_LIMIT_UNRESOLVED`. Readiness differs only if the policy allows such a pair.
- Schema parsing, address syntax and decimal-string parsing of fixtures and of the snapshot request: these inputs are already typed and normalized.
- A failing or changing chain reader inside the snapshot run: its reads are pinned, so they are functions; a rejected call simply ends the run.
- Artifact, manifest and content-hash construction, notices, classification strings and human-readable reconciliation lines: data layout only; the address check on withdrawal records among them is modelled.
- `BAD_DENOMINATOR` of the floor helper: every modelled call has a positive denominator, proved at the call; the two conservation checks of the split are likewise proved as assertions in place.
- `MISSING_REGISTRY_FIELD`: a typed observation has all its fields; the warnings and the descriptive plan of a settlement are fixed text.
- Non-integer or non-finite numbers where the source uses floating-point integers (ages, bps, chain ids); an unparsable timestamp is modelled.
- Joining the digest parts with a separator: the digest is any function of the ordered parts, which covers every hash of the joined text; that such a hash separates lists of parts, as `Settlement.DigestBindsIntent` asks, presupposes that no part contains the separator.
- On-chain digest parity, the opaque quote check, evidence replay and the production candidate policy: single conditionals or encodings without a property over runs.
- Wallet connection, eligibility display, claim plan encoding and submission gating of the web app: short conditionals around the modelled gate.
