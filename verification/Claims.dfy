/** The claim gate of the web app, with its own fold over the proof. */
module Claims {
  import opened PodModel
  import opened Sums
  import opened Sorting
  import opened Digests
  import opened Merkle
  import opened Validate
  import opened Pipeline

  datatype PublishedClaim = PublishedClaim(
    cycleId: nat, claimManager: Address, asset: Address, claimant: Address, amount: int, proof: seq<Digest>,
    root: Digest)

  datatype OnchainCycle = OnchainCycle(
    cycleId: nat, root: Digest, asset: Address, remaining: int, claimStartSec: nat, claimDeadlineSec: nat)

  datatype ClaimContext = ClaimContext(chainId: nat, nowSec: nat, alreadyClaimed: bool)

  datatype Rejection =
    | CycleMismatch | AssetMismatch | RootMismatch | ProofInvalid
    | AmountExceedsRemaining | OutsideClaimWindow | AlreadyClaimed

  /** Unencodable: hashing the leaf throws before any verdict is reached. */
  datatype Verdict = Verified(recomputedRoot: Digest) | Rejected(reason: Rejection) | Unencodable

  method FoldProof(leaf: Digest, proof: seq<Digest>, less: (Digest, Digest) -> bool) returns (node: Digest)
    ensures node == Fold(leaf, proof, less)
  {
    node := leaf;
    for i := 0 to |proof|
      invariant node == Fold(leaf, proof[..i], less)
    {
      assert proof[..i + 1][..i] == proof[..i];
      var sibling := proof[i];
      node := if less(node, sibling) then Node(node, sibling) else Node(sibling, node);
    }
    assert proof[..|proof|] == proof;
  }

  function ClaimFields(c: PublishedClaim, chainId: nat): LeafFields {
    LeafFields(chainId, c.claimManager, c.cycleId, c.claimant, c.asset, c.amount)
  }

  ghost predicate Holds(reason: Rejection, c: PublishedClaim, cycle: OnchainCycle, ctx: ClaimContext,
        less: (Digest, Digest) -> bool) {
    match reason
    case AlreadyClaimed => ctx.alreadyClaimed
    case CycleMismatch => c.cycleId != cycle.cycleId
    case AssetMismatch => c.asset != cycle.asset
    case RootMismatch => c.root != cycle.root
    case OutsideClaimWindow => !InWindow(cycle, ctx.nowSec)
    case AmountExceedsRemaining => cycle.remaining < c.amount
    case ProofInvalid =>
      && Encodable(ClaimFields(c, ctx.chainId))
      && Fold(Leaf(ClaimFields(c, ctx.chainId)), c.proof, less) != cycle.root
  }

  /** The order in which the conditions are looked at. */
  function Turn(reason: Rejection): nat {
    match reason
    case AlreadyClaimed => 0
    case CycleMismatch => 1
    case AssetMismatch => 2
    case RootMismatch => 3
    case OutsideClaimWindow => 4
    case AmountExceedsRemaining => 5
    case ProofInvalid => 6
  }

  predicate InWindow(cycle: OnchainCycle, now: nat) {
    cycle.claimStartSec <= now <= cycle.claimDeadlineSec
  }

  /** The cycle pays this asset and still holds the amount. */
  predicate Fundable(x: Entry, cycle: OnchainCycle) {
    x.entitlement.asset == cycle.asset && x.entitlement.amount <= cycle.remaining
  }

  /** Nothing stands in the way but the proof. */
  predicate Claimable(c: PublishedClaim, cycle: OnchainCycle, ctx: ClaimContext) {
    && !ctx.alreadyClaimed
    && c.cycleId == cycle.cycleId && c.asset == cycle.asset && c.root == cycle.root
    && InWindow(cycle, ctx.nowSec)
    && c.amount <= cycle.remaining
  }

  ghost predicate Passes(c: PublishedClaim, cycle: OnchainCycle, ctx: ClaimContext, less: (Digest, Digest) -> bool) {
    && Claimable(c, cycle, ctx)
    && Encodable(ClaimFields(c, ctx.chainId))
    && Fold(Leaf(ClaimFields(c, ctx.chainId)), c.proof, less) == cycle.root
  }

  method VerifyClaim(c: PublishedClaim, cycle: OnchainCycle, ctx: ClaimContext, less: (Digest, Digest) -> bool)
        returns (v: Verdict)
    ensures v.Verified? <==> Passes(c, cycle, ctx, less)
    ensures v.Verified? ==> v.recomputedRoot == cycle.root
    ensures v.Rejected? ==> Holds(v.reason, c, cycle, ctx, less)
    ensures v.Rejected? ==> forall other :: Holds(other, c, cycle, ctx, less) ==> Turn(v.reason) <= Turn(other)
    ensures v.Unencodable? <==> Claimable(c, cycle, ctx) && !Encodable(ClaimFields(c, ctx.chainId))
  {
    if ctx.alreadyClaimed { return Rejected(AlreadyClaimed); }
    if c.cycleId != cycle.cycleId { return Rejected(CycleMismatch); }
    if c.asset != cycle.asset { return Rejected(AssetMismatch); }
    if c.root != cycle.root { return Rejected(RootMismatch); }
    if ctx.nowSec < cycle.claimStartSec || ctx.nowSec > cycle.claimDeadlineSec { return Rejected(OutsideClaimWindow); }
    if c.amount > cycle.remaining { return Rejected(AmountExceedsRemaining); }
    if !Encodable(ClaimFields(c, ctx.chainId)) { return Unencodable; }
    var leaf := Leaf(ClaimFields(c, ctx.chainId));
    var recomputedRoot := FoldProof(leaf, c.proof, less);
    if recomputedRoot != cycle.root { return Rejected(ProofInvalid); }
    return Verified(recomputedRoot);
  }

  /**
   * Against a published root the gate opens for exactly the entitlements of the cycle: a claim
   * that passes names one of them to the last unit, and each of them passes with its own proof.
   */
  lemma GateOpensForEntitlements(config: ClaimDomain, es: seq<Entitlement>, m: MerkleResult, cycle: OnchainCycle,
        ctx: ClaimContext, less: (Digest, Digest) -> bool)
    requires Published(config, es, m, less) && forall e :: e in es ==> e.cycleId == config.cycleId
    requires cycle.root == m.root && cycle.cycleId == config.cycleId
    ensures forall c :: Passes(c, cycle, ctx, less) ==>
              && ctx.chainId == config.chainId && c.claimManager == config.claimManagerAddress
              && c.amount <= cycle.remaining
              && Entitlement(c.cycleId, c.claimant, cycle.asset, c.amount) in es
    ensures ctx.chainId == config.chainId && !ctx.alreadyClaimed && InWindow(cycle, ctx.nowSec) ==>
              forall x :: x in m.entries && Fundable(x, cycle) ==> Passes(ClaimOf(config, x, m.root), cycle, ctx, less)
  {
    forall c | Passes(c, cycle, ctx, less)
      ensures ctx.chainId == config.chainId && c.claimManager == config.claimManagerAddress
              && c.amount <= cycle.remaining
      ensures Entitlement(c.cycleId, c.claimant, cycle.asset, c.amount) in es
    {
      PassingClaimIsEntitled(config, es, m, cycle, ctx, less, c);
    }
    EntriesEncodable(config, es, m, less);
  }

  function ClaimOf(config: ClaimDomain, x: Entry, root: Digest): PublishedClaim {
    PublishedClaim(x.entitlement.cycleId, config.claimManagerAddress, x.entitlement.asset, x.entitlement.wallet,
      x.entitlement.amount, x.proof, root)
  }

  lemma PassingClaimIsEntitled(config: ClaimDomain, es: seq<Entitlement>, m: MerkleResult, cycle: OnchainCycle,
        ctx: ClaimContext, less: (Digest, Digest) -> bool, c: PublishedClaim)
    requires Published(config, es, m, less) && forall e :: e in es ==> e.cycleId == config.cycleId
    requires cycle.root == m.root && cycle.cycleId == config.cycleId
    requires Passes(c, cycle, ctx, less)
    ensures ctx.chainId == config.chainId && c.claimManager == config.claimManagerAddress && c.amount <= cycle.remaining
    ensures Entitlement(c.cycleId, c.claimant, cycle.asset, c.amount) in es
  {
    var f := ClaimFields(c, ctx.chainId);
    assert Provable(m.root, f, less);
    HashesOf(config, es, f);
    var e :| e in es && f == FieldsOf(config, e);
    assert e == Entitlement(c.cycleId, c.claimant, cycle.asset, c.amount);
  }

  function RequestedAmount(c: PublishedClaim): int { c.amount }

  /**
   * However many claims for one asset pass the gate of a published cycle, as long as no claimant
   * is counted twice they add up to at most what was distributed, hence at most the pool.
   */
  lemma PassingClaimsWithinPool(raw: Fixture, p: PipelineResult, layout: Layout, less: (Digest, Digest) -> bool,
        i: nat, cycle: OnchainCycle, passed: seq<PublishedClaim>, ctxs: seq<ClaimContext>)
    requires ValidFixture(raw) && Delivered(raw, p, layout, less) && p.merkle.Some? && i < |raw.assets|
             && |passed| == |ctxs|
    requires cycle.root == p.merkle.value.root && cycle.asset == raw.assets[i].tokenAddress
    requires forall k :: 0 <= k < |passed| ==> Passes(passed[k], cycle, ctxs[k], less)
    requires forall j, k :: 0 <= j < k < |passed| ==> passed[j].claimant != passed[k].claimant
    ensures Total(passed, RequestedAmount) <= p.allocation.assets[i].distributed
            <= p.allocation.assets[i].participantPool
  {
    PassingClaimsProvable(raw.assets[i].tokenAddress, less, cycle, passed, ctxs);
    ClaimsTotal(passed, ctxs);
    ProvableWithinPool(raw, p, layout, less, i, FieldsOfClaims(passed, ctxs));
  }

  lemma PassingClaimsProvable(asset: Address, less: (Digest, Digest) -> bool, cycle: OnchainCycle,
        passed: seq<PublishedClaim>, ctxs: seq<ClaimContext>)
    requires |passed| == |ctxs| && cycle.asset == asset
    requires forall k :: 0 <= k < |passed| ==> Passes(passed[k], cycle, ctxs[k], less)
    requires forall j, k :: 0 <= j < k < |passed| ==> passed[j].claimant != passed[k].claimant
    ensures Distinct(FieldsOfClaims(passed, ctxs))
    ensures forall f :: f in FieldsOfClaims(passed, ctxs) ==> f.asset == asset && Provable(cycle.root, f, less)
  {
    var claims := FieldsOfClaims(passed, ctxs);
    forall k | 0 <= k < |claims|
      ensures claims[k].asset == asset && Provable(cycle.root, claims[k], less)
    {
      assert Passes(passed[k], cycle, ctxs[k], less);
    }
    forall j, k | 0 <= j < k < |claims|
      ensures claims[j] != claims[k]
    {
      assert claims[j].wallet == passed[j].claimant && claims[k].wallet == passed[k].claimant;
    }
  }

  function FieldsOfClaims(cs: seq<PublishedClaim>, ctxs: seq<ClaimContext>): (fs: seq<LeafFields>)
    requires |cs| == |ctxs|
    ensures |fs| == |cs| && forall k :: 0 <= k < |cs| ==> fs[k] == ClaimFields(cs[k], ctxs[k].chainId)
  {
    seq(|cs|, k requires 0 <= k < |cs| => ClaimFields(cs[k], ctxs[k].chainId))
  }

  lemma {:induction false} ClaimsTotal(cs: seq<PublishedClaim>, ctxs: seq<ClaimContext>)
    requires |cs| == |ctxs|
    ensures Total(FieldsOfClaims(cs, ctxs), ClaimedAmount) == Total(cs, RequestedAmount)
  {
    if cs != [] {
      var n := |cs| - 1;
      ClaimsTotal(cs[..n], ctxs[..n]);
      assert FieldsOfClaims(cs, ctxs)[..n] == FieldsOfClaims(cs[..n], ctxs[..n]);
    }
  }
}
