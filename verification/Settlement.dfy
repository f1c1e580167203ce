/** The guarded-settlement evaluation: every check collected, replay refused over whole runs. */
module Settlement {
  import opened Results
  import opened Sums
  import opened Text

  const GUARD_VERSION := "bps-guarded-settlement/1"
  const DEAD_ADDRESS := "0x000000000000000000000000000000000000dead"
  const ZERO_ADDRESS := "0x0000000000000000000000000000000000000000"

  datatype Status =
    | POLICY_INCOMPLETE | WRONG_CHAIN | REGISTRY_MISMATCH | FEATURE_MISMATCH
    | REGISTRY_OBSERVATION_MISSING | REGISTRY_OBSERVATION_STALE | REGISTRY_PAUSED | ROUTER_MISMATCH
    | SELECTOR_UNAPPROVED | TAKER_UNRESOLVED | TAKER_MISMATCH | TOKEN_NOT_ALLOWED
    | AMOUNT_INVALID | AMOUNT_LIMIT_UNRESOLVED | AMOUNT_EXCEEDS_LIMIT | NONZERO_TX_VALUE
    | FEE_POLICY_VIOLATION | SLIPPAGE_POLICY_VIOLATION | CALLDATA_HASH_INVALID
    | PRICE_SOURCE_UNRESOLVED | PRICE_PAIR_MISMATCH | PRICE_OBSERVATION_STALE | PRICE_DEVIATION_EXCEEDED
    | MISSING_DEADLINE | INTENT_EXPIRED | INTENT_LIFETIME_EXCESSIVE
    | DIGEST_MISMATCH | REPLAY_DETECTED | NONCE_REUSED

  datatype Gate =
    | APPROVED_SELECTOR | FINAL_TAKER | PER_TOKEN_AMOUNT_CAP | DATED_REGISTRY_STRATEGY | TRUSTED_PRICE_SOURCE

  datatype TokenPair = TokenPair(sellToken: string, buyToken: string)

  datatype SettlementPolicy = SettlementPolicy(
    guardVersion: string, chainId: int, registry: string, feature: int,
    allowedPairs: seq<TokenPair>, maxSellAmountRawByToken: map<string, Option<int>>, allowedSelectors: seq<string>,
    maxPlatformFeeBps: int, integratorFeeAllowed: bool, defaultSlippageBps: int, maxSlippageBps: int,
    maxPriceDeviationBps: int, maxPriceObservationAgeSec: Option<int>, maxRegistryObservationAgeSec: Option<int>,
    maxIntentLifetimeSec: int, finalTaker: Option<string>, allowedPriceSources: seq<string>, paused: bool)

  datatype SettlementIntent = SettlementIntent(
    version: string, chainId: int, registry: string, feature: int, sellToken: string, buyToken: string,
    sellAmountRaw: int, minBuyAmountRaw: int, expectedTarget: string, selector: string, calldataHash: Option<string>,
    txValue: int, platformFeeBps: int, integratorFeePresent: bool, slippageBps: int, taker: string, nonce: int,
    intentDigest: string, createdAtSec: int, deadlineSec: int)

  /** A timestamp string that is absent, does not parse, or denotes a second. */
  datatype Observed = Untimed | Unparsable | At(sec: int)

  datatype RegistryObservation = RegistryObservation(
    registry: string, feature: int, currentRouter: string, previousRouter: string, nextRouter: string, paused: bool,
    blockNumber: Option<int>, observed: Observed)

  datatype PriceObservation = PriceObservation(
    source: string, observedTimeSec: Option<int>, sellToken: string, buyToken: string, refSellAmountRaw: int,
    refBuyAmountRaw: int)

  datatype ReconcileCode = OK | MALFORMED_ADDRESS | ZERO_CURRENT_ROUTER | FEATURE_PAUSED | TARGET_ROUTER_MISMATCH

  /** Joining the parts and hashing the text, as any function of the parts. */
  type Sha = seq<string> -> string

  datatype Case = Case(
    policy: SettlementPolicy, intent: SettlementIntent,
    registryObservation: Option<RegistryObservation>, priceObservation: Option<PriceObservation>, nowSec: int)

  // ---- Digest and replay state ----------------------------------------------------------

  function Preimage(i: SettlementIntent): seq<string> {
    ["BPS-GUARDED-SETTLEMENT", i.version, Notation(i.chainId), Lower(i.registry), Notation(i.feature), Lower(i.taker),
          Notation(i.nonce), Notation(i.deadlineSec), Lower(i.expectedTarget), Lower(i.selector), Lower(i.sellToken),
          Lower(i.buyToken),
          Notation(i.sellAmountRaw), Notation(i.minBuyAmountRaw),
          match i.calldataHash
          case Some(h) => if h == "" then "NO_CALLDATA_HASH" else Lower(h)
          case None => "NO_CALLDATA_HASH"]
  }

  function IntentDigest(i: SettlementIntent, sha: Sha): string {
    "0x" + sha(Preimage(i))
  }

  method ComputeIntentDigest(i: SettlementIntent, sha: Sha) returns (digest: string)
    ensures digest == IntentDigest(i, sha)
  {
    var calldata := "NO_CALLDATA_HASH";
    if i.calldataHash.Some? && i.calldataHash.value != "" { calldata := Lower(i.calldataHash.value); }
    var parts := [
      "BPS-GUARDED-SETTLEMENT", i.version, Notation(i.chainId), Lower(i.registry), Notation(i.feature),
      Lower(i.taker), Notation(i.nonce), Notation(i.deadlineSec), Lower(i.expectedTarget), Lower(i.selector),
      Lower(i.sellToken), Lower(i.buyToken), Notation(i.sellAmountRaw), Notation(i.minBuyAmountRaw), calldata];
    digest := "0x" + sha(parts);
  }

  predicate SameText(a: string, b: string) { Lower(a) == Lower(b) }

  /** Both hashes are missing or empty, or they are the same up to letter case. */
  predicate SameCalldata(a: Option<string>, b: Option<string>) {
    if a.None? || a.value == "" then b.None? || b.value == "" else b.Some? && SameText(a.value, b.value)
  }

  /** Two intents that agree, field by field, on all a digest is meant to bind; letter case is ignored. */
  predicate SayTheSame(a: SettlementIntent, b: SettlementIntent) {
    && a.version == b.version && a.chainId == b.chainId && a.feature == b.feature
    && a.nonce == b.nonce && a.deadlineSec == b.deadlineSec
    && a.sellAmountRaw == b.sellAmountRaw && a.minBuyAmountRaw == b.minBuyAmountRaw
    && SameText(a.registry, b.registry) && SameText(a.taker, b.taker)
    && SameText(a.expectedTarget, b.expectedTarget) && SameText(a.selector, b.selector)
    && SameText(a.sellToken, b.sellToken) && SameText(a.buyToken, b.buyToken)
    && SameCalldata(a.calldataHash, b.calldataHash)
  }

  /** The digested parts determine every one of these fields, and are determined by them. */
  lemma PreimageBinds(a: SettlementIntent, b: SettlementIntent)
    ensures Preimage(a) == Preimage(b) <==> SayTheSame(a, b)
  {
    if Preimage(a) == Preimage(b) {
      var p, q := Preimage(a), Preimage(b);
      assert p[1] == q[1] && p[2] == q[2] && p[3] == q[3] && p[4] == q[4] && p[5] == q[5] && p[6] == q[6];
      assert p[7] == q[7] && p[8] == q[8] && p[9] == q[9] && p[10] == q[10] && p[11] == q[11];
      assert p[12] == q[12] && p[13] == q[13] && p[14] == q[14];
      NotationInjective(a.chainId, b.chainId);
      NotationInjective(a.feature, b.feature);
      NotationInjective(a.nonce, b.nonce);
      NotationInjective(a.deadlineSec, b.deadlineSec);
      NotationInjective(a.sellAmountRaw, b.sellAmountRaw);
      NotationInjective(a.minBuyAmountRaw, b.minBuyAmountRaw);
      LowerIsNoPlaceholder(a.calldataHash);
      LowerIsNoPlaceholder(b.calldataHash);
    }
  }

  lemma LowerIsNoPlaceholder(h: Option<string>)
    ensures h.Some? ==> Lower(h.value) != "NO_CALLDATA_HASH"
  {
    if h.Some? && h.value != "" {
      SameLetter(h.value[0], h.value[0]);
      assert Lower(h.value)[0] != "NO_CALLDATA_HASH"[0];
    }
  }

  predicate DigestMatches(i: SettlementIntent, sha: Sha) {
    Lower(IntentDigest(i, sha)) == Lower(i.intentDigest)
  }

  function NonceKey(taker: string, nonce: int): string {
    Lower(taker) + ":" + Notation(nonce)
  }

  /** What a replay store remembers. */
  datatype Memory = Memory(digests: set<string>, nonces: set<string>) {
    predicate DigestConsumed(digest: string) { Lower(digest) in digests }

    predicate NonceUsed(taker: string, nonce: int) { NonceKey(taker, nonce) in nonces }

    function Consume(digest: string, taker: string, nonce: int): Memory {
      Memory(digests + {Lower(digest)}, nonces + {NonceKey(taker, nonce)})
    }
  }

  class InMemoryReplayStore {
    var digests: set<string>
    var nonces: set<string>

    ghost function View(): Memory
      reads this
    {
      Memory(digests, nonces)
    }

    constructor (consumedDigests: seq<string>, usedNonces: seq<string>)
      ensures digests == set d | d in consumedDigests :: Lower(d)
      ensures nonces == set n | n in usedNonces :: Lower(n)
    {
      digests := set d | d in consumedDigests :: Lower(d);
      nonces := set n | n in usedNonces :: Lower(n);
    }

    method IsDigestConsumed(digest: string) returns (b: bool)
      ensures b == View().DigestConsumed(digest)
    {
      b := Lower(digest) in digests;
    }

    method IsNonceUsed(taker: string, nonce: int) returns (b: bool)
      ensures b == View().NonceUsed(taker, nonce)
    {
      b := NonceKey(taker, nonce) in nonces;
    }

    method MarkConsumed(digest: string, taker: string, nonce: int)
      modifies this
      ensures View() == old(View()).Consume(digest, taker, nonce)
    {
      digests := digests + {Lower(digest)};
      nonces := nonces + {NonceKey(taker, nonce)};
    }
  }

  /** Two address takers have the same nonce key exactly when they are one taker, up to letter case, and one nonce. */
  lemma NonceKeyInjective(taker: string, nonce: int, other: string, nonce': int)
    requires IsAddress(taker) && IsAddress(other)
    ensures NonceKey(taker, nonce) == NonceKey(other, nonce') <==> Lower(taker) == Lower(other) && nonce == nonce'
  {
    var key, key' := NonceKey(taker, nonce), NonceKey(other, nonce');
    assert key[..42] == Lower(taker) && key[43..] == Notation(nonce);
    assert key'[..42] == Lower(other) && key'[43..] == Notation(nonce');
    if key == key' { NotationInjective(nonce, nonce'); }
  }

  // ---- Helpers of the evaluation --------------------------------------------------------

  function LowerAll(xs: seq<string>): (r: seq<string>)
    ensures |r| == |xs| && forall i :: 0 <= i < |xs| ==> r[i] == Lower(xs[i])
  {
    seq(|xs|, i requires 0 <= i < |xs| => Lower(xs[i]))
  }

  predicate PairAllowed(policy: SettlementPolicy, sellToken: string, buyToken: string) {
    exists p :: p in policy.allowedPairs && Lower(p.sellToken) == Lower(sellToken)
      && Lower(p.buyToken) == Lower(buyToken)
  }

  /** An absent entry is as unresolved as an explicit null. */
  function Cap(policy: SettlementPolicy, sellToken: string): Option<int> {
    if Lower(sellToken) in policy.maxSellAmountRawByToken then policy.maxSellAmountRawByToken[Lower(sellToken)]
      else None
  }

  function ReconcileRegistryTarget(target: string, obs: RegistryObservation): ReconcileCode {
    if !IsAddress(target) || !IsAddress(obs.registry) || !IsAddress(obs.currentRouter) || !IsAddress(obs.previousRouter)
      || !IsAddress(obs.nextRouter)
    then MALFORMED_ADDRESS
    else if Lower(obs.currentRouter) == ZERO_ADDRESS then ZERO_CURRENT_ROUTER
    else if obs.paused then FEATURE_PAUSED
    else if Lower(target) != Lower(obs.currentRouter) then TARGET_ROUTER_MISMATCH
    else OK
  }

  predicate Reconcilable(target: string, o: RegistryObservation) {
    && IsAddress(target) && IsAddress(o.registry) && IsAddress(o.currentRouter) && IsAddress(o.previousRouter)
    && IsAddress(o.nextRouter) && Lower(o.currentRouter) != "0x0000000000000000000000000000000000000000"
  }

  function RefBuyForSell(price: PriceObservation, sell: int): int
    requires price.refSellAmountRaw > 0
  {
    TruncDiv(price.refBuyAmountRaw * sell, price.refSellAmountRaw)
  }

  function PermittedMax(price: PriceObservation, sell: int, devBps: int): int
    requires price.refSellAmountRaw > 0
  {
    TruncDiv(RefBuyForSell(price, sell) * (10_000 + devBps), 10_000)
  }

  predicate Burnt(a: string) { Lower(a) == ZERO_ADDRESS || Lower(a) == DEAD_ADDRESS }

  // ---- What is looked at, in the order of the source ------------------------------------

  predicate TakerResolved(p: SettlementPolicy) {
    p.finalTaker.Some? && IsAddress(p.finalTaker.value) && !Burnt(p.finalTaker.value)
  }

  predicate ForeignRegistry(p: SettlementPolicy, o: RegistryObservation) {
    !IsAddress(o.registry) || Lower(o.registry) != Lower(p.registry)
  }

  predicate RegistryFresh(p: SettlementPolicy, o: RegistryObservation, nowSec: int) {
    && p.maxRegistryObservationAgeSec.Some? && o.observed.At?
    && nowSec - p.maxRegistryObservationAgeSec.value <= o.observed.sec <= nowSec
  }

  predicate PriceSourced(x: Case) {
    && x.policy.maxPriceObservationAgeSec.Some? && x.priceObservation.Some?
    && Lower(x.priceObservation.value.source) in LowerAll(x.policy.allowedPriceSources)
  }

  predicate PricePaired(x: Case)
    requires x.priceObservation.Some?
  {
    && Lower(x.priceObservation.value.sellToken) == Lower(x.intent.sellToken)
    && Lower(x.priceObservation.value.buyToken) == Lower(x.intent.buyToken)
  }

  predicate PricePositive(o: PriceObservation) {
    o.refSellAmountRaw > 0 && o.refBuyAmountRaw > 0
  }

  predicate PriceFresh(x: Case)
    requires PriceSourced(x)
  {
    var t := x.priceObservation.value.observedTimeSec;
    t.Some? && x.nowSec - x.policy.maxPriceObservationAgeSec.value <= t.value <= x.nowSec
  }

  /** Sourced, for this pair, positive and fresh: the observation may be compared with. */
  predicate PriceUsable(x: Case) {
    PriceSourced(x) && PricePaired(x) && PricePositive(x.priceObservation.value) && PriceFresh(x)
  }

  function Flag(trips: bool, s: Status): seq<Status> {
    if trips then [s] else []
  }

  // What each section of the evaluation lists, and in which order.

  function PolicyFaults(p: SettlementPolicy): seq<Status> {
    Flag(p.guardVersion != GUARD_VERSION, POLICY_INCOMPLETE)
    + Flag(!IsAddress(p.registry), POLICY_INCOMPLETE)
    + Flag(p.maxSlippageBps <= 0 || p.defaultSlippageBps < 0, POLICY_INCOMPLETE)
    + Flag(p.defaultSlippageBps > p.maxSlippageBps, POLICY_INCOMPLETE)
    + Flag(p.maxIntentLifetimeSec <= 0 || p.maxIntentLifetimeSec > 300, POLICY_INCOMPLETE)
    + Flag(p.paused, POLICY_INCOMPLETE)
  }

  function IdentityFaults(p: SettlementPolicy, i: SettlementIntent): seq<Status> {
    Flag(i.chainId != p.chainId, WRONG_CHAIN)
    + Flag(Lower(i.registry) != Lower(p.registry), REGISTRY_MISMATCH)
    + Flag(i.feature != p.feature, FEATURE_MISMATCH)
  }

  function AmountFaults(p: SettlementPolicy, i: SettlementIntent): seq<Status> {
    var cap := Cap(p, i.sellToken);
    Flag(i.sellAmountRaw <= 0 || i.minBuyAmountRaw <= 0, AMOUNT_INVALID)
    + Flag(cap.None?, AMOUNT_LIMIT_UNRESOLVED)
    + Flag(cap.Some? && i.sellAmountRaw > cap.value, AMOUNT_EXCEEDS_LIMIT)
  }

  function FeeFaults(p: SettlementPolicy, i: SettlementIntent): seq<Status> {
    Flag(!(0 <= i.platformFeeBps <= p.maxPlatformFeeBps), FEE_POLICY_VIOLATION)
    + Flag(i.integratorFeePresent && !p.integratorFeeAllowed, FEE_POLICY_VIOLATION)
  }

  predicate SelectorApproved(p: SettlementPolicy, i: SettlementIntent) {
    IsSelector(i.selector) && Lower(i.selector) in LowerAll(p.allowedSelectors)
  }

  function TakerFaults(p: SettlementPolicy, i: SettlementIntent): seq<Status> {
    Flag(!TakerResolved(p), TAKER_UNRESOLVED)
    + Flag(TakerResolved(p) && (!IsAddress(i.taker) || Lower(i.taker) != Lower(p.finalTaker.value)), TAKER_MISMATCH)
    + Flag(IsAddress(i.taker) && Burnt(i.taker), TAKER_UNRESOLVED)
  }

  function RegistryFaults(x: Case): seq<Status> {
    if x.registryObservation.None? then [REGISTRY_OBSERVATION_MISSING]
    else
      var o := x.registryObservation.value;
      var code := ReconcileRegistryTarget(x.intent.expectedTarget, o);
      Flag(ForeignRegistry(x.policy, o), REGISTRY_MISMATCH)
      + Flag(o.feature != x.policy.feature, FEATURE_MISMATCH)
      + Flag(code == FEATURE_PAUSED, REGISTRY_PAUSED)
      + Flag(code != OK && code != FEATURE_PAUSED, ROUTER_MISMATCH)
      + Flag(!RegistryFresh(x.policy, o, x.nowSec), REGISTRY_OBSERVATION_STALE)
  }

  function PriceFaults(x: Case): seq<Status> {
    Flag(!PriceSourced(x) || (PricePaired(x) && !PricePositive(x.priceObservation.value)), PRICE_SOURCE_UNRESOLVED)
    + Flag(PriceSourced(x) && !PricePaired(x), PRICE_PAIR_MISMATCH)
    + Flag(PriceSourced(x) && PricePaired(x) && PricePositive(x.priceObservation.value) && !PriceFresh(x),
           PRICE_OBSERVATION_STALE)
    + Flag(PriceUsable(x) && x.intent.minBuyAmountRaw
           > PermittedMax(x.priceObservation.value, x.intent.sellAmountRaw, x.policy.maxPriceDeviationBps),
           PRICE_DEVIATION_EXCEEDED)
  }

  function DeadlineFaults(p: SettlementPolicy, i: SettlementIntent, nowSec: int): seq<Status> {
    var lifetime := i.deadlineSec - i.createdAtSec;
    Flag(i.deadlineSec <= 0, MISSING_DEADLINE)
    + Flag(i.deadlineSec > 0 >= lifetime, INTENT_EXPIRED)
    + Flag(i.deadlineSec > 0 && lifetime > 0 && lifetime > p.maxIntentLifetimeSec, INTENT_LIFETIME_EXCESSIVE)
    + Flag(0 < i.deadlineSec < nowSec, INTENT_EXPIRED)
  }

  function ReplayFaults(i: SettlementIntent, memory: Memory, sha: Sha): seq<Status> {
    Flag(!DigestMatches(i, sha), DIGEST_MISMATCH)
    + Flag(memory.DigestConsumed(i.intentDigest), REPLAY_DETECTED)
    + Flag(IsAddress(i.taker) && memory.NonceUsed(i.taker, i.nonce), NONCE_REUSED)
  }

  const SECTIONS: nat := 13

  /** The sections under their own numbers. */
  function Section(k: int, x: Case, memory: Memory, sha: Sha): seq<Status> {
    var p, i := x.policy, x.intent;
    match k
    case 0 => PolicyFaults(p)
    case 1 => IdentityFaults(p, i)
    case 2 => Flag(!PairAllowed(p, i.sellToken, i.buyToken), TOKEN_NOT_ALLOWED)
    case 3 => AmountFaults(p, i)
    case 4 => Flag(i.txValue != 0, NONZERO_TX_VALUE)
    case 5 => FeeFaults(p, i)
    case 6 => Flag(!(0 <= i.slippageBps <= p.maxSlippageBps), SLIPPAGE_POLICY_VIOLATION)
    case 7 => Flag(i.calldataHash.None? || !IsHash32(i.calldataHash.value), CALLDATA_HASH_INVALID)
    case 8 => Flag(!SelectorApproved(p, i), SELECTOR_UNAPPROVED)
    case 9 => TakerFaults(p, i)
    case 10 => RegistryFaults(x)
    case 11 => PriceFaults(x)
    case 12 => DeadlineFaults(p, i, x.nowSec) + ReplayFaults(i, memory, sha)
    case _ => []
  }

  /** Nothing is wrong in any section. */
  ghost predicate Ready(x: Case, memory: Memory, sha: Sha) {
    forall k :: 0 <= k < SECTIONS ==> Section(k, x, memory, sha) == []
  }

  function Listing(x: Case, memory: Memory, sha: Sha): int -> seq<Status> {
    k => Section(k, x, memory, sha)
  }

  /** The first n lists one after the other. */
  function Joined(lists: int -> seq<Status>, n: nat): seq<Status> {
    if n == 0 then [] else Joined(lists, n - 1) + lists(n - 1)
  }

  /** The first n sections one after the other. */
  function Report(n: nat, x: Case, memory: Memory, sha: Sha): seq<Status> {
    Joined(Listing(x, memory, sha), n)
  }

  /** The lowest section in which anything is wrong. */
  ghost predicate FirstFaulty(k: int, x: Case, memory: Memory, sha: Sha) {
    Section(k, x, memory, sha) != [] && forall j :: 0 <= j < k ==> Section(j, x, memory, sha) == []
  }

  /** Joined lists hold exactly what the lists hold, and open with the first entry of the first list that has one. */
  lemma {:induction false} JoinedOpens(lists: int -> seq<Status>, n: nat)
    ensures forall s :: s in Joined(lists, n) <==> exists k :: 0 <= k < n && s in lists(k)
    ensures Joined(lists, n) == [] <==> forall k :: 0 <= k < n ==> lists(k) == []
    ensures Joined(lists, n) != [] ==>
              exists k :: 0 <= k < n && lists(k) != [] && (forall j :: 0 <= j < k ==> lists(j) == [])
                          && Joined(lists, n)[0] == lists(k)[0]
  {
    if n > 0 { JoinedOpens(lists, n - 1); }
  }

  /**
   * The report is empty exactly when the case is ready, and otherwise opens with the first fault of the
   * lowest faulty section.
   */
  lemma WholeReport(x: Case, memory: Memory, sha: Sha)
    ensures Ready(x, memory, sha) <==> Report(SECTIONS, x, memory, sha) == []
    ensures Report(SECTIONS, x, memory, sha) != [] ==>
              exists k :: FirstFaulty(k, x, memory, sha)
                          && Report(SECTIONS, x, memory, sha)[0] == Section(k, x, memory, sha)[0]
  {
    var n, lists := SECTIONS, Listing(x, memory, sha);
    JoinedOpens(lists, n);
    assert forall k :: lists(k) == Section(k, x, memory, sha);
    if Joined(lists, n) != [] {
      var k :| 0 <= k < n && lists(k) != [] && (forall j :: 0 <= j < k ==> lists(j) == [])
               && Joined(lists, n)[0] == lists(k)[0];
      assert FirstFaulty(k, x, memory, sha);
    }
  }

  // ---- The evaluation, section by section -----------------------------------------------

  function Add(failures: seq<Status>, failed: bool, s: Status): seq<Status> {
    failures + Flag(failed, s)
  }

  method CheckPolicy(p: SettlementPolicy) returns (failures: seq<Status>)
    ensures failures == PolicyFaults(p)
  {
    failures := Flag(p.guardVersion != GUARD_VERSION, POLICY_INCOMPLETE);
    failures := Add(failures, !IsAddress(p.registry), POLICY_INCOMPLETE);
    failures := Add(failures, p.maxSlippageBps <= 0 || p.defaultSlippageBps < 0, POLICY_INCOMPLETE);
    failures := Add(failures, p.defaultSlippageBps > p.maxSlippageBps, POLICY_INCOMPLETE);
    failures := Add(failures, p.maxIntentLifetimeSec <= 0 || p.maxIntentLifetimeSec > 300, POLICY_INCOMPLETE);
    failures := Add(failures, p.paused, POLICY_INCOMPLETE);
  }

  /** Sections 1 to 4: identity, pair, amounts, value. */
  method CheckIntent(p: SettlementPolicy, i: SettlementIntent)
      returns (identity: seq<Status>, pair: seq<Status>, amounts: seq<Status>, value: seq<Status>)
    ensures identity == IdentityFaults(p, i)
    ensures pair == Flag(!PairAllowed(p, i.sellToken, i.buyToken), TOKEN_NOT_ALLOWED)
    ensures amounts == AmountFaults(p, i)
    ensures value == Flag(i.txValue != 0, NONZERO_TX_VALUE)
  {
    identity := Flag(i.chainId != p.chainId, WRONG_CHAIN);
    identity := Add(identity, Lower(i.registry) != Lower(p.registry), REGISTRY_MISMATCH);
    identity := Add(identity, i.feature != p.feature, FEATURE_MISMATCH);
    pair := Flag(!PairAllowed(p, i.sellToken, i.buyToken), TOKEN_NOT_ALLOWED);
    amounts := Flag(i.sellAmountRaw <= 0 || i.minBuyAmountRaw <= 0, AMOUNT_INVALID);
    var token := Lower(i.sellToken);
    var cap := if token in p.maxSellAmountRawByToken then p.maxSellAmountRawByToken[token] else None;
    if cap.None? {
      amounts := amounts + [AMOUNT_LIMIT_UNRESOLVED];
    } else {
      amounts := Add(amounts, i.sellAmountRaw > cap.value, AMOUNT_EXCEEDS_LIMIT);
    }
    value := Flag(i.txValue != 0, NONZERO_TX_VALUE);
  }

  /** Sections 5 to 8: fees, slippage, calldata hash, selector. */
  method CheckTerms(p: SettlementPolicy, i: SettlementIntent)
      returns (fees: seq<Status>, slippage: seq<Status>, calldata: seq<Status>, selector: seq<Status>)
    ensures fees == FeeFaults(p, i)
    ensures slippage == Flag(!(0 <= i.slippageBps <= p.maxSlippageBps), SLIPPAGE_POLICY_VIOLATION)
    ensures calldata == Flag(i.calldataHash.None? || !IsHash32(i.calldataHash.value), CALLDATA_HASH_INVALID)
    ensures selector == Flag(!SelectorApproved(p, i), SELECTOR_UNAPPROVED)
  {
    fees := Flag(i.platformFeeBps > p.maxPlatformFeeBps || i.platformFeeBps < 0, FEE_POLICY_VIOLATION);
    fees := Add(fees, i.integratorFeePresent && !p.integratorFeeAllowed, FEE_POLICY_VIOLATION);
    slippage := Flag(i.slippageBps < 0 || i.slippageBps > p.maxSlippageBps, SLIPPAGE_POLICY_VIOLATION);
    calldata := Flag(i.calldataHash.None? || !IsHash32(i.calldataHash.value), CALLDATA_HASH_INVALID);
    var selectorApproved := IsSelector(i.selector) && Lower(i.selector) in LowerAll(p.allowedSelectors);
    selector := Flag(!selectorApproved, SELECTOR_UNAPPROVED);
  }

  method CheckTaker(p: SettlementPolicy, i: SettlementIntent) returns (failures: seq<Status>)
    ensures failures == TakerFaults(p, i)
  {
    var finalTaker := p.finalTaker;
    if finalTaker.None? || !IsAddress(finalTaker.value)
       || Lower(finalTaker.value) == ZERO_ADDRESS || Lower(finalTaker.value) == DEAD_ADDRESS {
      failures := [TAKER_UNRESOLVED];
    } else {
      failures := Flag(!IsAddress(i.taker) || Lower(i.taker) != Lower(finalTaker.value), TAKER_MISMATCH);
    }
    var burnt := Lower(i.taker) == DEAD_ADDRESS || Lower(i.taker) == ZERO_ADDRESS;
    failures := Add(failures, IsAddress(i.taker) && burnt, TAKER_UNRESOLVED);
  }

  method CheckRegistry(x: Case) returns (failures: seq<Status>)
    ensures failures == RegistryFaults(x)
  {
    if x.registryObservation.None? { return [REGISTRY_OBSERVATION_MISSING]; }
    var p, o := x.policy, x.registryObservation.value;
    failures := Flag(!IsAddress(o.registry) || Lower(o.registry) != Lower(p.registry), REGISTRY_MISMATCH);
    failures := Add(failures, o.feature != p.feature, FEATURE_MISMATCH);
    var code := ReconcileRegistryTarget(x.intent.expectedTarget, o);
    if code == FEATURE_PAUSED {
      failures := failures + [REGISTRY_PAUSED];
    } else {
      failures := Add(failures, code != OK, ROUTER_MISMATCH);
    }
    var stale := IsStale(p, o, x.nowSec);
    failures := Add(failures, stale, REGISTRY_OBSERVATION_STALE);
  }

  /** Paused is reported only of a comparable target; a mismatch of any target but the current router. */
  lemma RouterFaults(x: Case)
    requires x.registryObservation.Some?
    ensures var o, target := x.registryObservation.value, x.intent.expectedTarget;
            && (REGISTRY_PAUSED in RegistryFaults(x) <==> o.paused && Reconcilable(target, o))
            && (ROUTER_MISMATCH in RegistryFaults(x) <==>
                !Reconcilable(target, o) || (!o.paused && Lower(target) != Lower(o.currentRouter)))
  {
  }

  /** Undated, without an age limit, without a usable timestamp, too old or from the future. */
  method IsStale(p: SettlementPolicy, o: RegistryObservation, nowSec: int) returns (stale: bool)
    ensures stale <==> !RegistryFresh(p, o, nowSec)
  {
    var dated := o.blockNumber.Some? || !o.observed.Untimed?;
    if !dated { return true; }
    if p.maxRegistryObservationAgeSec.None? { return true; }
    if o.observed.Untimed? { return true; }
    if o.observed.Unparsable? { return true; }
    return nowSec - o.observed.sec > p.maxRegistryObservationAgeSec.value || o.observed.sec > nowSec;
  }

  method CheckPrice(x: Case) returns (failures: seq<Status>)
    ensures failures == PriceFaults(x) && |failures| <= 1
  {
    var p, i := x.policy, x.intent;
    if |p.allowedPriceSources| == 0 || p.maxPriceObservationAgeSec.None? { return [PRICE_SOURCE_UNRESOLVED]; }
    if x.priceObservation.None? { return [PRICE_SOURCE_UNRESOLVED]; }
    var o := x.priceObservation.value;
    if Lower(o.source) !in LowerAll(p.allowedPriceSources) { return [PRICE_SOURCE_UNRESOLVED]; }
    if Lower(o.sellToken) != Lower(i.sellToken) || Lower(o.buyToken) != Lower(i.buyToken) {
      return [PRICE_PAIR_MISMATCH];
    }
    if o.refSellAmountRaw <= 0 || o.refBuyAmountRaw <= 0 { return [PRICE_SOURCE_UNRESOLVED]; }
    var t := o.observedTimeSec;
    if t.None? || x.nowSec - t.value > p.maxPriceObservationAgeSec.value || t.value > x.nowSec {
      return [PRICE_OBSERVATION_STALE];
    }
    var refBuyForSell := TruncDiv(o.refBuyAmountRaw * i.sellAmountRaw, o.refSellAmountRaw);
    var permittedMax := TruncDiv(refBuyForSell * (10_000 + p.maxPriceDeviationBps), 10_000);
    failures := Flag(i.minBuyAmountRaw > permittedMax, PRICE_DEVIATION_EXCEEDED);
  }

  method CheckDeadline(p: SettlementPolicy, i: SettlementIntent, nowSec: int) returns (failures: seq<Status>)
    ensures failures == DeadlineFaults(p, i, nowSec)
  {
    if i.deadlineSec <= 0 { return [MISSING_DEADLINE]; }
    var lifetime := i.deadlineSec - i.createdAtSec;
    if lifetime <= 0 {
      failures := [INTENT_EXPIRED];
    } else {
      failures := Flag(lifetime > p.maxIntentLifetimeSec, INTENT_LIFETIME_EXCESSIVE);
    }
    failures := Add(failures, nowSec > i.deadlineSec, INTENT_EXPIRED);
  }

  method CheckReplay(i: SettlementIntent, store: InMemoryReplayStore, sha: Sha) returns (failures: seq<Status>)
    ensures failures == ReplayFaults(i, store.View(), sha)
  {
    var recomputed := ComputeIntentDigest(i, sha);
    failures := Flag(Lower(recomputed) != Lower(i.intentDigest), DIGEST_MISMATCH);
    var consumed := store.IsDigestConsumed(i.intentDigest);
    failures := Add(failures, consumed, REPLAY_DETECTED);
    var used := store.IsNonceUsed(i.taker, i.nonce);
    failures := Add(failures, IsAddress(i.taker) && used, NONCE_REUSED);
  }

  datatype ReadinessResult = ReadinessResult(
    ready: bool, status: Option<Status>, failures: seq<Status>, remainingGates: seq<Gate>)

  /**
   * All failures are listed, section after section, none hidden by another; the plan is ready exactly when
   * there are none, and the status is the first fault of the lowest faulty section.
   */
  method EvaluateGuardedSettlement(x: Case, store: InMemoryReplayStore, sha: Sha) returns (r: ReadinessResult)
    ensures r.failures == Report(SECTIONS, x, store.View(), sha)
    ensures r.ready <==> Ready(x, store.View(), sha)
    ensures r.ready <==> r.status.None?
    ensures !r.ready ==>
              exists k :: FirstFaulty(k, x, store.View(), sha) && r.status == Some(Section(k, x, store.View(), sha)[0])
    ensures r.remainingGates == RemainingGates(x.policy)
  {
    var failures := CollectFailures(x, store, sha);
    WholeReport(x, store.View(), sha);
    var gates := ComputeRemainingGates(x.policy);
    if failures == [] {
      r := ReadinessResult(true, None, failures, gates);
    } else {
      r := ReadinessResult(false, Some(failures[0]), failures, gates);
    }
  }

  method CollectFailures(x: Case, store: InMemoryReplayStore, sha: Sha) returns (failures: seq<Status>)
    ensures failures == Report(SECTIONS, x, store.View(), sha)
  {
    var p, i := x.policy, x.intent;
    failures := CheckOffer(x, store.View(), sha);
    var taker := CheckTaker(p, i);
    var registry := CheckRegistry(x);
    failures := failures + taker;
    assert failures == Report(10, x, store.View(), sha);
    failures := failures + registry;
    assert failures == Report(11, x, store.View(), sha);
    var price := CheckPrice(x);
    failures := failures + price;
    assert failures == Report(12, x, store.View(), sha);
    var deadline := CheckDeadline(p, i, x.nowSec);
    var replay := CheckReplay(i, store, sha);
    failures := failures + (deadline + replay);
  }

  /** Sections 0 to 8: the policy itself and what the intent offers. */
  method CheckOffer(x: Case, ghost memory: Memory, ghost sha: Sha) returns (failures: seq<Status>)
    ensures failures == Report(9, x, memory, sha)
  {
    failures := CheckPolicy(x.policy);
    assert failures == Report(1, x, memory, sha);
    var identity, pair, amounts, value := CheckIntent(x.policy, x.intent);
    failures := failures + identity;
    assert failures == Report(2, x, memory, sha);
    failures := failures + pair;
    assert failures == Report(3, x, memory, sha);
    failures := failures + amounts;
    assert failures == Report(4, x, memory, sha);
    failures := failures + value;
    assert failures == Report(5, x, memory, sha);
    var fees, slippage, calldata, selector := CheckTerms(x.policy, x.intent);
    failures := failures + fees;
    assert failures == Report(6, x, memory, sha);
    failures := failures + slippage;
    assert failures == Report(7, x, memory, sha);
    failures := failures + calldata;
    assert failures == Report(8, x, memory, sha);
    failures := failures + selector;
  }

  // ---- Remaining gates ------------------------------------------------------------------

  predicate SomeCapUnresolved(policy: SettlementPolicy) {
    exists p :: p in policy.allowedPairs && Cap(policy, p.sellToken).None?
  }

  function Open(unmet: bool, gate: Gate): seq<Gate> {
    if unmet then [gate] else []
  }

  function RemainingGates(policy: SettlementPolicy): seq<Gate> {
    Open(policy.allowedSelectors == [], APPROVED_SELECTOR)
    + Open(policy.finalTaker.None? || !IsAddress(policy.finalTaker.value), FINAL_TAKER)
    + Open(SomeCapUnresolved(policy), PER_TOKEN_AMOUNT_CAP)
    + Open(policy.maxRegistryObservationAgeSec.None?, DATED_REGISTRY_STRATEGY)
    + Open(policy.allowedPriceSources == [] || policy.maxPriceObservationAgeSec.None?, TRUSTED_PRICE_SOURCE)
  }

  method FindUnresolvedCap(policy: SettlementPolicy) returns (found: bool)
    ensures found <==> SomeCapUnresolved(policy)
  {
    var caps := policy.maxSellAmountRawByToken;
    for k := 0 to |policy.allowedPairs|
      invariant forall j :: 0 <= j < k ==> Cap(policy, policy.allowedPairs[j].sellToken).Some?
    {
      var token := Lower(policy.allowedPairs[k].sellToken);
      assert policy.allowedPairs[k] in policy.allowedPairs;
      if token !in caps || caps[token].None? { return true; }
    }
    return false;
  }

  method ComputeRemainingGates(policy: SettlementPolicy) returns (gates: seq<Gate>)
    ensures gates == RemainingGates(policy)
  {
    var capUnresolved := FindUnresolvedCap(policy);
    gates := Open(|policy.allowedSelectors| == 0, APPROVED_SELECTOR);
    gates := gates + Open(policy.finalTaker.None? || !IsAddress(policy.finalTaker.value), FINAL_TAKER);
    gates := gates + Open(capUnresolved, PER_TOKEN_AMOUNT_CAP);
    gates := gates + Open(policy.maxRegistryObservationAgeSec.None?, DATED_REGISTRY_STRATEGY);
    gates := gates + Open(|policy.allowedPriceSources| == 0 || policy.maxPriceObservationAgeSec.None?,
                          TRUSTED_PRICE_SOURCE);
  }

  /** A ready plan leaves no gate open, except a cap missing for some other allowed sell token. */
  lemma ReadyClosesGates(x: Case, memory: Memory, sha: Sha)
    requires Ready(x, memory, sha)
    ensures RemainingGates(x.policy) == if SomeCapUnresolved(x.policy) then [PER_TOKEN_AMOUNT_CAP] else []
    ensures SomeCapUnresolved(x.policy) ==>
              exists p :: p in x.policy.allowedPairs && Cap(x.policy, p.sellToken).None?
                && Lower(p.sellToken) != Lower(x.intent.sellToken)
  {
    ReadySelector(x, memory, sha);
    ReadyTaker(x, memory, sha);
    ReadyRegistry(x, memory, sha);
    ReadyPrice(x, memory, sha);
    ReadyAmounts(x, memory, sha);
    if SomeCapUnresolved(x.policy) {
      var p :| p in x.policy.allowedPairs && Cap(x.policy, p.sellToken).None?;
      assert Lower(p.sellToken) != Lower(x.intent.sellToken);
    }
  }

  lemma ReadySelector(x: Case, memory: Memory, sha: Sha)
    requires Ready(x, memory, sha)
    ensures x.policy.allowedSelectors != []
  {
    assert Section(8, x, memory, sha) == [];
  }

  lemma ReadyTaker(x: Case, memory: Memory, sha: Sha)
    requires Ready(x, memory, sha)
    ensures TakerResolved(x.policy) && IsAddress(x.intent.taker)
  {
    assert Section(9, x, memory, sha) == [];
  }

  lemma ReadyRegistry(x: Case, memory: Memory, sha: Sha)
    requires Ready(x, memory, sha)
    ensures x.registryObservation.Some? && RegistryFresh(x.policy, x.registryObservation.value, x.nowSec)
  {
    assert Section(10, x, memory, sha) == [];
  }

  lemma ReadyPrice(x: Case, memory: Memory, sha: Sha)
    requires Ready(x, memory, sha)
    ensures PriceUsable(x)
    ensures x.intent.minBuyAmountRaw
            <= PermittedMax(x.priceObservation.value, x.intent.sellAmountRaw, x.policy.maxPriceDeviationBps)
  {
    assert Section(11, x, memory, sha) == [];
  }

  lemma ReadyAmounts(x: Case, memory: Memory, sha: Sha)
    requires Ready(x, memory, sha)
    ensures x.intent.sellAmountRaw > 0 && x.intent.minBuyAmountRaw > 0 && Cap(x.policy, x.intent.sellToken).Some?
  {
    assert Section(3, x, memory, sha) == [];
  }

  lemma ReadyReplay(x: Case, memory: Memory, sha: Sha)
    requires Ready(x, memory, sha)
    ensures DigestMatches(x.intent, sha) && !memory.DigestConsumed(x.intent.intentDigest)
    ensures IsAddress(x.intent.taker) ==> !memory.NonceUsed(x.intent.taker, x.intent.nonce)
  {
    assert Section(12, x, memory, sha) == [];
    assert ReplayFaults(x.intent, memory, sha) == [];
  }

  // ---- What readiness comes to, in the fields of policy, intent and observations ----------

  predicate ClearPolicy(p: SettlementPolicy) {
    && p.guardVersion == "bps-guarded-settlement/1" && IsAddress(p.registry) && !p.paused
    && 0 < p.maxSlippageBps && 0 <= p.defaultSlippageBps <= p.maxSlippageBps && 0 < p.maxIntentLifetimeSec <= 300
  }

  predicate ClearOffer(p: SettlementPolicy, i: SettlementIntent) {
    && i.chainId == p.chainId && SameText(i.registry, p.registry) && i.feature == p.feature
    && (exists k :: && 0 <= k < |p.allowedPairs| && SameText(p.allowedPairs[k].sellToken, i.sellToken)
                    && SameText(p.allowedPairs[k].buyToken, i.buyToken))
    && i.sellAmountRaw > 0 && i.minBuyAmountRaw > 0
    && Lower(i.sellToken) in p.maxSellAmountRawByToken
    && p.maxSellAmountRawByToken[Lower(i.sellToken)].Some?
    && i.sellAmountRaw <= p.maxSellAmountRawByToken[Lower(i.sellToken)].value
    && i.txValue == 0
  }

  predicate ClearTerms(p: SettlementPolicy, i: SettlementIntent) {
    && 0 <= i.platformFeeBps <= p.maxPlatformFeeBps && (i.integratorFeePresent ==> p.integratorFeeAllowed)
    && 0 <= i.slippageBps <= p.maxSlippageBps
    && i.calldataHash.Some? && IsHash32(i.calldataHash.value)
    && IsSelector(i.selector)
    && (exists k :: 0 <= k < |p.allowedSelectors| && SameText(p.allowedSelectors[k], i.selector))
  }

  predicate ClearTaker(p: SettlementPolicy, i: SettlementIntent) {
    && p.finalTaker.Some? && IsAddress(p.finalTaker.value)
    && IsAddress(i.taker) && SameText(i.taker, p.finalTaker.value)
    && Lower(i.taker) != "0x0000000000000000000000000000000000000000"
    && Lower(i.taker) != "0x000000000000000000000000000000000000dead"
  }

  predicate ClearRegistry(x: Case) {
    && x.registryObservation.Some? && x.policy.maxRegistryObservationAgeSec.Some?
    && var o, age := x.registryObservation.value, x.policy.maxRegistryObservationAgeSec.value;
    && IsAddress(o.registry) && SameText(o.registry, x.policy.registry) && o.feature == x.policy.feature && !o.paused
    && IsAddress(x.intent.expectedTarget) && SameText(x.intent.expectedTarget, o.currentRouter)
    && IsAddress(o.currentRouter) && IsAddress(o.previousRouter) && IsAddress(o.nextRouter)
    && Lower(o.currentRouter) != "0x0000000000000000000000000000000000000000"
    && o.observed.At? && x.nowSec - age <= o.observed.sec <= x.nowSec
  }

  /** The minimum is at most the ceiling: the floored reference output, raised by the deviation and floored again. */
  ghost predicate ClearPrice(x: Case) {
    && x.priceObservation.Some? && x.policy.maxPriceObservationAgeSec.Some?
    && var o, i, age := x.priceObservation.value, x.intent, x.policy.maxPriceObservationAgeSec.value;
    && (exists k :: 0 <= k < |x.policy.allowedPriceSources| && SameText(x.policy.allowedPriceSources[k], o.source))
    && SameText(o.sellToken, i.sellToken) && SameText(o.buyToken, i.buyToken)
    && o.refSellAmountRaw > 0 && o.refBuyAmountRaw > 0
    && o.observedTimeSec.Some? && x.nowSec - age <= o.observedTimeSec.value <= x.nowSec
    && exists q :: IsFloor(q, o.refBuyAmountRaw * i.sellAmountRaw, o.refSellAmountRaw)
                   && i.minBuyAmountRaw * 10_000 <= q * (10_000 + x.policy.maxPriceDeviationBps)
  }

  predicate ClearReplay(x: Case, memory: Memory, sha: Sha) {
    var i := x.intent;
    && 0 < i.deadlineSec && i.createdAtSec < i.deadlineSec <= i.createdAtSec + x.policy.maxIntentLifetimeSec
    && x.nowSec <= i.deadlineSec
    && SameText("0x" + sha(Preimage(i)), i.intentDigest) && Lower(i.intentDigest) !in memory.digests
    && Lower(i.taker) + ":" + Notation(i.nonce) !in memory.nonces
  }

  /** A case is ready exactly when every one of these conditions on its fields holds. */
  lemma ReadyIff(x: Case, memory: Memory, sha: Sha)
    ensures Ready(x, memory, sha) <==>
            && ClearPolicy(x.policy) && ClearOffer(x.policy, x.intent) && ClearTerms(x.policy, x.intent)
            && ClearTaker(x.policy, x.intent) && ClearRegistry(x) && ClearPrice(x) && ClearReplay(x, memory, sha)
  {
    if Ready(x, memory, sha) {
      ReadyIsClear(x, memory, sha);
    } else {
      var k :| 0 <= k < SECTIONS && Section(k, x, memory, sha) != [];
      FaultyIsUnclear(x, memory, sha, k);
    }
  }

  lemma ReadyIsClear(x: Case, memory: Memory, sha: Sha)
    requires Ready(x, memory, sha)
    ensures ClearPolicy(x.policy) && ClearOffer(x.policy, x.intent) && ClearTerms(x.policy, x.intent)
    ensures ClearTaker(x.policy, x.intent) && ClearRegistry(x) && ClearPrice(x) && ClearReplay(x, memory, sha)
  {
    OfferSections(x, memory, sha);
    TermSections(x, memory, sha);
    TakerSection(x, memory, sha);
    RegistrySection(x, memory, sha);
    ReplaySection(x, memory, sha);
    ReadyAmounts(x, memory, sha);
    PriceSection(x, memory, sha);
  }

  lemma FaultyIsUnclear(x: Case, memory: Memory, sha: Sha, k: int)
    requires 0 <= k < SECTIONS && Section(k, x, memory, sha) != []
    ensures !(&& ClearPolicy(x.policy) && ClearOffer(x.policy, x.intent) && ClearTerms(x.policy, x.intent)
              && ClearTaker(x.policy, x.intent) && ClearRegistry(x) && ClearPrice(x) && ClearReplay(x, memory, sha))
  {
    if k <= 4 {
      OfferSections(x, memory, sha);
    } else if k <= 8 {
      TermSections(x, memory, sha);
    } else if k == 9 {
      TakerSection(x, memory, sha);
    } else if k == 10 {
      RegistrySection(x, memory, sha);
    } else if k == 11 {
      if ClearOffer(x.policy, x.intent) { PriceSection(x, memory, sha); }
    } else {
      ReplaySection(x, memory, sha);
    }
  }

  lemma OfferSections(x: Case, memory: Memory, sha: Sha)
    ensures Section(0, x, memory, sha) == [] <==> ClearPolicy(x.policy)
    ensures ClearOffer(x.policy, x.intent) <==>
            && Section(1, x, memory, sha) == [] && Section(2, x, memory, sha) == []
            && Section(3, x, memory, sha) == [] && Section(4, x, memory, sha) == []
  {
  }

  lemma TermSections(x: Case, memory: Memory, sha: Sha)
    ensures ClearTerms(x.policy, x.intent) <==>
            && Section(5, x, memory, sha) == [] && Section(6, x, memory, sha) == []
            && Section(7, x, memory, sha) == [] && Section(8, x, memory, sha) == []
  {
  }

  lemma TakerSection(x: Case, memory: Memory, sha: Sha)
    ensures Section(9, x, memory, sha) == [] <==> ClearTaker(x.policy, x.intent)
  {
  }

  lemma RegistrySection(x: Case, memory: Memory, sha: Sha)
    ensures Section(10, x, memory, sha) == [] <==> ClearRegistry(x)
  {
  }

  lemma PriceSection(x: Case, memory: Memory, sha: Sha)
    requires x.intent.sellAmountRaw > 0 && x.intent.minBuyAmountRaw > 0
    ensures Section(11, x, memory, sha) == [] <==> ClearPrice(x)
  {
    assert PriceUsable(x) && x.intent.minBuyAmountRaw
             <= PermittedMax(x.priceObservation.value, x.intent.sellAmountRaw, x.policy.maxPriceDeviationBps)
      <==> Section(11, x, memory, sha) == [];
    if PriceUsable(x) {
      var o, i := x.priceObservation.value, x.intent;
      MulMonotone(0, o.refBuyAmountRaw, i.sellAmountRaw);
      CeilingExact(o.refBuyAmountRaw * i.sellAmountRaw, o.refSellAmountRaw, 10_000 + x.policy.maxPriceDeviationBps,
                   i.minBuyAmountRaw);
    }
  }

  lemma CeilingExact(product: int, refSell: int, scale: int, minBuy: int)
    requires product >= 0 && refSell > 0 && minBuy > 0
    ensures minBuy <= TruncDiv(TruncDiv(product, refSell) * scale, 10_000) <==>
            exists q :: IsFloor(q, product, refSell) && minBuy * 10_000 <= q * scale
  {
    var quotient := product / refSell;
    FloorGreatest(product, refSell, 0);
    FloorUnique(quotient, product, refSell);
    forall q | IsFloor(q, product, refSell)
      ensures q == quotient
    {
      FloorUnique(q, product, refSell);
    }
    if quotient * scale >= 0 { FloorGreatest(quotient * scale, 10_000, minBuy); }
  }

  lemma ReplaySection(x: Case, memory: Memory, sha: Sha)
    ensures ClearTaker(x.policy, x.intent) ==> (Section(12, x, memory, sha) == [] <==> ClearReplay(x, memory, sha))
  {
  }

  /** Despite two floors, a ready minimum respects the exact cross-multiplied price bound. */
  lemma ReadyRespectsPrice(x: Case, memory: Memory, sha: Sha)
    requires Ready(x, memory, sha)
    ensures x.priceObservation.Some?
    ensures var o, i := x.priceObservation.value, x.intent;
            i.minBuyAmountRaw * o.refSellAmountRaw * 10_000
              <= o.refBuyAmountRaw * i.sellAmountRaw * (10_000 + x.policy.maxPriceDeviationBps)
  {
    ReadyPrice(x, memory, sha);
    ReadyAmounts(x, memory, sha);
    var o, i := x.priceObservation.value, x.intent;
    TwoFloors(i.minBuyAmountRaw, o.refSellAmountRaw, o.refBuyAmountRaw * i.sellAmountRaw,
              10_000 + x.policy.maxPriceDeviationBps) by {
      MulMonotone(0, o.refBuyAmountRaw, i.sellAmountRaw);
    }
  }

  lemma TwoFloors(minBuy: int, refSell: int, product: int, scale: int)
    requires minBuy > 0 && refSell > 0 && product >= 0
    requires minBuy <= TruncDiv(TruncDiv(product, refSell) * scale, 10_000)
    ensures minBuy * refSell * 10_000 <= product * scale
  {
    var quotient := product / refSell;
    FloorGreatest(product, refSell, 0);
    FloorBounds(product, refSell);
    if scale < 0 {
      MulMonotone(scale, 0, quotient);
    } else {
      MulMonotone(0, quotient, scale);
      FloorBounds(quotient * scale, 10_000);
      MulMonotone(minBuy * 10_000, quotient * scale, refSell);
      MulMonotone(quotient * refSell, product, scale);
      assert quotient * scale * refSell == quotient * refSell * scale;
      assert minBuy * 10_000 * refSell == minBuy * refSell * 10_000;
    }
  }

  // ---- Runs -----------------------------------------------------------------------------

  function Consumed(memory: Memory, i: SettlementIntent): Memory {
    memory.Consume(i.intentDigest, i.taker, i.nonce)
  }

  /** The store after evaluating the cases in turn and consuming each accepted intent. */
  ghost function MemoryAfter(cases: seq<Case>, memory: Memory, sha: Sha): Memory {
    if cases == [] then memory
    else
      var before, last := MemoryAfter(cases[..|cases| - 1], memory, sha), cases[|cases| - 1];
      if Ready(last, before, sha) then Consumed(before, last.intent) else before
  }

  ghost function AcceptedCases(cases: seq<Case>, memory: Memory, sha: Sha): seq<Case> {
    if cases == [] then []
    else
      var front, last := cases[..|cases| - 1], cases[|cases| - 1];
      AcceptedCases(front, memory, sha) + if Ready(last, MemoryAfter(front, memory, sha), sha) then [last] else []
  }

  method SettleAll(cases: seq<Case>, store: InMemoryReplayStore, sha: Sha) returns (accepted: seq<Case>)
    modifies store
    ensures accepted == AcceptedCases(cases, old(store.View()), sha)
    ensures store.View() == MemoryAfter(cases, old(store.View()), sha)
  {
    accepted := [];
    for k := 0 to |cases|
      invariant accepted == AcceptedCases(cases[..k], old(store.View()), sha)
      invariant store.View() == MemoryAfter(cases[..k], old(store.View()), sha)
    {
      assert cases[..k + 1][..k] == cases[..k];
      var r := EvaluateGuardedSettlement(cases[k], store, sha);
      if r.ready {
        var i := cases[k].intent;
        store.MarkConsumed(i.intentDigest, i.taker, i.nonce);
        accepted := accepted + [cases[k]];
      }
    }
    assert cases[..|cases|] == cases;
  }

  /**
   * Over any run, whatever was known before: no digest and no (taker, nonce) is ever accepted twice, nor one
   * already known.
   */
  lemma {:induction false} NothingAcceptedTwice(cases: seq<Case>, memory: Memory, sha: Sha)
    ensures var taken := AcceptedCases(cases, memory, sha);
            && (forall x :: x in taken ==>
                  Known(MemoryAfter(cases, memory, sha), x.intent) && Unknown(memory, x.intent))
            && (forall j, k :: 0 <= j < k < |taken| ==> DistinctIntents(taken[j].intent, taken[k].intent))
    ensures Grows(memory, MemoryAfter(cases, memory, sha))
  {
    if cases != [] {
      var front, last := cases[..|cases| - 1], cases[|cases| - 1];
      var before, taken := MemoryAfter(front, memory, sha), AcceptedCases(front, memory, sha);
      NothingAcceptedTwice(front, memory, sha);
      if Ready(last, before, sha) {
        FreshIntent(last, before, sha);
        forall x | x in taken
          ensures Known(Consumed(before, last.intent), x.intent) && DistinctIntents(x.intent, last.intent)
        {
          KnownStaysKnown(before, x.intent, last.intent);
        }
        EarlierUnknown(memory, before, last.intent);
      }
    }
  }

  predicate Grows(memory: Memory, later: Memory) {
    memory.digests <= later.digests && memory.nonces <= later.nonces
  }

  /** Neither its digest nor its (taker, nonce) is in memory; its taker is an address. */
  predicate Unknown(memory: Memory, i: SettlementIntent) {
    IsAddress(i.taker) && !memory.DigestConsumed(i.intentDigest) && !memory.NonceUsed(i.taker, i.nonce)
  }

  lemma EarlierUnknown(memory: Memory, later: Memory, i: SettlementIntent)
    requires Grows(memory, later) && Unknown(later, i)
    ensures Unknown(memory, i) && Known(Consumed(later, i), i) && Grows(memory, Consumed(later, i))
  {
  }

  lemma KnownStaysKnown(memory: Memory, i: SettlementIntent, next: SettlementIntent)
    requires Known(memory, i) && Unknown(memory, next)
    ensures Known(Consumed(memory, next), i) && DistinctIntents(i, next)
  {
  }

  predicate Known(memory: Memory, i: SettlementIntent) {
    memory.DigestConsumed(i.intentDigest) && memory.NonceUsed(i.taker, i.nonce)
  }

  /** Distinct digests and distinct (taker, nonce), both up to letter case. */
  predicate DistinctIntents(a: SettlementIntent, b: SettlementIntent) {
    Lower(a.intentDigest) != Lower(b.intentDigest) && (Lower(a.taker) != Lower(b.taker) || a.nonce != b.nonce)
  }

  lemma FreshIntent(x: Case, memory: Memory, sha: Sha)
    requires Ready(x, memory, sha)
    ensures Unknown(memory, x.intent)
    ensures DigestMatches(x.intent, sha)
  {
    ReadyTaker(x, memory, sha);
    ReadyReplay(x, memory, sha);
  }

  /** What an accepted case guarantees about its price and its digest. */
  predicate Settled(x: Case, sha: Sha) {
    && x.priceObservation.Some?
    && x.intent.minBuyAmountRaw * x.priceObservation.value.refSellAmountRaw * 10_000
       <= x.priceObservation.value.refBuyAmountRaw * x.intent.sellAmountRaw * (10_000 + x.policy.maxPriceDeviationBps)
    && DigestMatches(x.intent, sha)
  }

  lemma ReadyIsSettled(x: Case, memory: Memory, sha: Sha)
    requires Ready(x, memory, sha)
    ensures Settled(x, sha)
  {
    ReadyRespectsPrice(x, memory, sha);
    ReadyReplay(x, memory, sha);
  }

  /** Every accepted intent of a run respects its price bound and carries its own digest. */
  lemma {:induction false} AcceptedAreSettled(cases: seq<Case>, memory: Memory, sha: Sha)
    ensures forall x :: x in AcceptedCases(cases, memory, sha) ==> Settled(x, sha)
  {
    if cases != [] {
      var front, last := cases[..|cases| - 1], cases[|cases| - 1];
      AcceptedAreSettled(front, memory, sha);
      if Ready(last, MemoryAfter(front, memory, sha), sha) {
        ReadyIsSettled(last, MemoryAfter(front, memory, sha), sha);
      }
    }
  }

  /** No two accepted intents of a run say the same to the digest. */
  lemma AcceptedSayDifferentThings(cases: seq<Case>, memory: Memory, sha: Sha)
    ensures var taken := AcceptedCases(cases, memory, sha);
            forall j, k :: 0 <= j < k < |taken| ==>
              !SayTheSame(taken[j].intent, taken[k].intent) && Preimage(taken[j].intent) != Preimage(taken[k].intent)
  {
    NothingAcceptedTwice(cases, memory, sha);
    AcceptedAreSettled(cases, memory, sha);
    var taken := AcceptedCases(cases, memory, sha);
    forall j, k | 0 <= j < k < |taken|
      ensures !SayTheSame(taken[j].intent, taken[k].intent)
      ensures Preimage(taken[j].intent) != Preimage(taken[k].intent)
    {
      assert taken[j] in taken && taken[k] in taken && DistinctIntents(taken[j].intent, taken[k].intent);
      SamePreimageSameDigest(taken[j].intent, taken[k].intent, sha);
      PreimageBinds(taken[j].intent, taken[k].intent);
    }
  }

  /** Hashing tells any two lists of parts apart, even up to letter case. */
  ghost predicate Separating(sha: Sha) {
    forall p, q :: Lower(sha(p)) == Lower(sha(q)) ==> p == q
  }

  /** Under such a hash a digest binds its intent: whoever carries it, ready, says the same in every digested field. */
  lemma DigestBindsIntent(x: Case, memory: Memory, y: Case, other: Memory, sha: Sha)
    requires Separating(sha) && Ready(x, memory, sha) && Ready(y, other, sha)
    requires SameText(x.intent.intentDigest, y.intent.intentDigest)
    ensures SayTheSame(x.intent, y.intent)
  {
    ReadyReplay(x, memory, sha);
    ReadyReplay(y, other, sha);
    var p, q := Preimage(x.intent), Preimage(y.intent);
    LowerTail("0x", sha(p));
    LowerTail("0x", sha(q));
    PreimageBinds(x.intent, y.intent);
  }

  lemma LowerTail(s: string, t: string)
    ensures Lower(s + t)[|s|..] == Lower(t)
  {
  }

  lemma SamePreimageSameDigest(a: SettlementIntent, b: SettlementIntent, sha: Sha)
    requires DigestMatches(a, sha) && DigestMatches(b, sha)
    ensures Preimage(a) == Preimage(b) ==> Lower(a.intentDigest) == Lower(b.intentDigest)
  {
  }
}
