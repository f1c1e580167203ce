/** The independent acquisition-price guard over two bound USD feeds. */
module PriceGuard {
  import opened Results
  import opened Sums
  import opened Text

  datatype PriceSemantics = PER_TOKEN_CHAINLINK | RAW_UNDERLYING

  datatype UsdPriceObservation = UsdPriceObservation(
    semantics: PriceSemantics, feedIdentity: string, asset: string, answer: int, decimals: int,
    roundId: int, updatedAtSec: int, roundComplete: bool)

  datatype StockTokenState = StockTokenState(multiplierE18: int, transitionPending: bool, oraclePaused: bool)

  datatype SequencerObservation = SequencerObservation(feedIdentity: string, answer: int, startedAtSec: int,
        updatedAtSec: int)

  datatype PriceRiskPolicy = PriceRiskPolicy(
    maxStalenessSec: int, maxDeviationBps: int, maxTxInputRaw: int,
    sequencerFeedIdentity: string, sequencerGraceSec: int,
    inputFeedIdentity: string, outputFeedIdentity: string, outputSemantics: PriceSemantics,
    allowRawUnderlyingForEvidence: bool)

  datatype AcquisitionPriceInput = AcquisitionPriceInput(
    sellToken: string, sellAmountRaw: int, sellDecimals: int,
    buyToken: string, minBuyAmountRaw: int, buyDecimals: int, nowSec: int)

  datatype PriceGuardResult = PriceGuardResult(expected: int, minAllowed: int, deviationBps: int,
        multiplierApplied: bool)

  datatype PriceGuardError =
    | PRICE_POLICY_MISSING | PRICE_FEED_MISSING | SEMANTICS_MISMATCH | RAW_UNDERLYING_NOT_APPROVED
    | NON_POSITIVE_ANSWER | STALE_ANSWER | INCOMPLETE_ROUND | BAD_DECIMALS | ORACLE_PAUSED
    | MULTIPLIER_MISSING | MULTIPLIER_TRANSITION | ASSET_BINDING_MISMATCH | FEED_IDENTITY_MISMATCH
    | FEED_BINDING_MISSING | ZERO_ROUND | AMOUNT_OUT_OF_DOMAIN | SEQUENCER_POLICY_MISSING
    | SEQUENCER_DOWN | SEQUENCER_GRACE_PERIOD | SEQUENCER_BAD_ROUND | TX_CAP_EXCEEDED
    | DEVIATION_EXCEEDED | UNSAFE_NUMBER

  const BPS: int := 10_000
  const E18: int := 1_000_000_000_000_000_000

  predicate SafeDecimals(n: int) { 0 <= n <= 77 }

  function Pow10(n: nat): (p: int)
    ensures p > 0
  {
    if n == 0 then 1 else 10 * Pow10(n - 1)
  }

  function CheckFeed(feed: Option<UsdPriceObservation>, expectedAsset: string, expectedIdentity: string,
        expectedSemantics: PriceSemantics, nowSec: int, maxStalenessSec: int): Option<PriceGuardError> {
    if feed.None? then Some(PRICE_FEED_MISSING)
    else
      var f := feed.value;
      if expectedIdentity == "" then Some(FEED_BINDING_MISSING)
      else if f.feedIdentity != expectedIdentity then Some(FEED_IDENTITY_MISMATCH)
      else if f.semantics != expectedSemantics then Some(SEMANTICS_MISMATCH)
      else if Lower(f.asset) != Lower(expectedAsset) then Some(ASSET_BINDING_MISMATCH)
      else if f.answer <= 0 then Some(NON_POSITIVE_ANSWER)
      else if f.answer > MAX_UINT256 then Some(AMOUNT_OUT_OF_DOMAIN)
      else if f.roundId <= 0 then Some(ZERO_ROUND)
      else if !f.roundComplete then Some(INCOMPLETE_ROUND)
      else if f.updatedAtSec <= 0 then Some(INCOMPLETE_ROUND)
      else if nowSec < f.updatedAtSec then Some(UNSAFE_NUMBER)
      else if nowSec - f.updatedAtSec > maxStalenessSec then Some(STALE_ANSWER)
      else None
  }

  function CheckSequencer(uptime: Option<SequencerObservation>, policy: PriceRiskPolicy,
        nowSec: int): Option<PriceGuardError> {
    if policy.sequencerFeedIdentity == "" || policy.sequencerGraceSec < 0 then Some(SEQUENCER_POLICY_MISSING)
    else if uptime.None? then Some(SEQUENCER_POLICY_MISSING)
    else
      var s := uptime.value;
      if Lower(s.feedIdentity) != Lower(policy.sequencerFeedIdentity) then Some(SEQUENCER_POLICY_MISSING)
      else if s.startedAtSec <= 0 || s.updatedAtSec <= 0 || nowSec < s.startedAtSec then Some(SEQUENCER_BAD_ROUND)
      else if s.answer != 0 then Some(SEQUENCER_DOWN)
      else if nowSec - s.startedAtSec < policy.sequencerGraceSec then Some(SEQUENCER_GRACE_PERIOD)
      else None
  }

  // ---- The two-feed reference price -----------------------------------------------------

  /** Per-token price of the output as a fraction: the multiplier is applied once, and only to a raw price. */
  function PerToken(semantics: PriceSemantics, answer: int, multiplierE18: int): (int, int) {
    if semantics == PER_TOKEN_CHAINLINK then (answer, 1) else (answer * multiplierE18, E18)
  }

  function Numerator(sell: int, inAnswer: int, outFeedDecimals: nat, buyDecimals: nat, perTokenDen: int): int {
    sell * inAnswer * Pow10(outFeedDecimals) * Pow10(buyDecimals) * perTokenDen
  }

  function Denominator(sellDecimals: nat, inFeedDecimals: nat, perTokenNum: int): int {
    Pow10(sellDecimals) * Pow10(inFeedDecimals) * perTokenNum
  }

  function MinAllowed(expected: int, maxDeviationBps: int): int {
    TruncDiv(expected * (BPS - maxDeviationBps), BPS)
  }

  function Deviation(expected: int, minBuy: int): int
    requires expected > 0
  {
    if minBuy >= expected then 0 else (expected - minBuy) * BPS / expected
  }

  /** The reference output for the sold amount: the floored cross-feed ratio of the inputs. */
  function Reference(io: AcquisitionPriceInput, inF: UsdPriceObservation, outF: UsdPriceObservation,
        multiplierE18: int): int
    requires outF.answer > 0 && multiplierE18 > 0
    requires io.sellDecimals >= 0 && io.buyDecimals >= 0 && inF.decimals >= 0 && outF.decimals >= 0
  {
    var (num, den) := PerToken(outF.semantics, outF.answer, multiplierE18);
    PerTokenPositive(outF.semantics, outF.answer, multiplierE18);
    DenominatorPositive(io.sellDecimals, inF.decimals, num);
    Numerator(io.sellAmountRaw, inF.answer, outF.decimals, io.buyDecimals, den)
    / Denominator(io.sellDecimals, inF.decimals, num)
  }

  predicate AllDecimalsSafe(io: AcquisitionPriceInput, inF: UsdPriceObservation, outF: UsdPriceObservation) {
    && SafeDecimals(outF.decimals) && SafeDecimals(io.buyDecimals)
    && SafeDecimals(io.sellDecimals) && SafeDecimals(inF.decimals)
  }

  /** The arithmetic half of the guard, once every observation has been checked. */
  function Settle(io: AcquisitionPriceInput, inF: UsdPriceObservation, outF: UsdPriceObservation, multiplierE18: int,
        maxDeviationBps: int): Result<PriceGuardResult, PriceGuardError>
    requires outF.answer > 0 && multiplierE18 > 0
  {
    if !AllDecimalsSafe(io, inF, outF) then Failure(BAD_DECIMALS)
    else
      var expected := Reference(io, inF, outF, multiplierE18);
      if expected <= 0 then Failure(DEVIATION_EXCEEDED)
      else
        var minAllowed := MinAllowed(expected, maxDeviationBps);
        if io.minBuyAmountRaw < minAllowed then Failure(DEVIATION_EXCEEDED)
        else
          var deviationBps := Deviation(expected, io.minBuyAmountRaw);
          Success(PriceGuardResult(expected, minAllowed, deviationBps, outF.semantics == RAW_UNDERLYING))
  }

  function ValidateAcquisitionPrice(io: AcquisitionPriceInput, inputFeed: Option<UsdPriceObservation>,
        outputFeed: Option<UsdPriceObservation>, tokenState: Option<StockTokenState>,
        sequencer: Option<SequencerObservation>,
        policy: Option<PriceRiskPolicy>): Result<PriceGuardResult, PriceGuardError> {
    if policy.None? then Failure(PRICE_POLICY_MISSING)
    else
      var p := policy.value;
      var uptimeError := CheckSequencer(sequencer, p, io.nowSec);
      var inError := CheckFeed(inputFeed, io.sellToken, p.inputFeedIdentity, PER_TOKEN_CHAINLINK, io.nowSec,
        p.maxStalenessSec);
      var outError := CheckFeed(outputFeed, io.buyToken, p.outputFeedIdentity, p.outputSemantics, io.nowSec,
        p.maxStalenessSec);
      if uptimeError.Some? then Failure(uptimeError.value)
      else if inError.Some? then Failure(inError.value)
      else if outError.Some? then Failure(outError.value)
      else if tokenState.None? then Failure(MULTIPLIER_MISSING)
      else if tokenState.value.oraclePaused then Failure(ORACLE_PAUSED)
      else if tokenState.value.transitionPending then Failure(MULTIPLIER_TRANSITION)
      else if tokenState.value.multiplierE18 <= 0 then Failure(MULTIPLIER_MISSING)
      else if io.sellAmountRaw <= 0 || io.minBuyAmountRaw <= 0 then Failure(UNSAFE_NUMBER)
      else if io.sellAmountRaw > MAX_UINT256 || io.minBuyAmountRaw > MAX_UINT256 then Failure(AMOUNT_OUT_OF_DOMAIN)
      else if io.sellAmountRaw > p.maxTxInputRaw then Failure(TX_CAP_EXCEEDED)
      else if outputFeed.value.semantics == RAW_UNDERLYING && !p.allowRawUnderlyingForEvidence
      then Failure(RAW_UNDERLYING_NOT_APPROVED)
      else Settle(io, inputFeed.value, outputFeed.value, tokenState.value.multiplierE18, p.maxDeviationBps)
  }

  // ---- Everything the guard looks at, in the fields of its inputs ------------------------

  predicate FeedSound(feed: Option<UsdPriceObservation>, asset: string, identity: string, semantics: PriceSemantics,
        nowSec: int, maxStalenessSec: int) {
    && feed.Some? && identity != "" && feed.value.feedIdentity == identity && feed.value.semantics == semantics
    && Lower(feed.value.asset) == Lower(asset)
    && 0 < feed.value.answer <= MAX_UINT256 && feed.value.roundId > 0 && feed.value.roundComplete
    && 0 < feed.value.updatedAtSec && nowSec - maxStalenessSec <= feed.value.updatedAtSec <= nowSec
  }

  predicate SequencerSound(uptime: Option<SequencerObservation>, policy: PriceRiskPolicy, nowSec: int) {
    && uptime.Some? && policy.sequencerFeedIdentity != "" && policy.sequencerGraceSec >= 0
    && Lower(uptime.value.feedIdentity) == Lower(policy.sequencerFeedIdentity)
    && 0 < uptime.value.startedAtSec && 0 < uptime.value.updatedAtSec && uptime.value.answer == 0
    && uptime.value.startedAtSec + policy.sequencerGraceSec <= nowSec
  }

  /** What is wrong with a feed that is refused with the code. */
  predicate FeedFault(code: PriceGuardError, feed: Option<UsdPriceObservation>, asset: string, identity: string,
        semantics: PriceSemantics, nowSec: int, maxStalenessSec: int) {
    match code
    case PRICE_FEED_MISSING => feed.None?
    case FEED_BINDING_MISSING => identity == ""
    case FEED_IDENTITY_MISMATCH => feed.Some? && feed.value.feedIdentity != identity
    case SEMANTICS_MISMATCH => feed.Some? && feed.value.semantics != semantics
    case ASSET_BINDING_MISMATCH => feed.Some? && Lower(feed.value.asset) != Lower(asset)
    case NON_POSITIVE_ANSWER => feed.Some? && feed.value.answer <= 0
    case AMOUNT_OUT_OF_DOMAIN => feed.Some? && feed.value.answer > MAX_UINT256
    case ZERO_ROUND => feed.Some? && feed.value.roundId <= 0
    case INCOMPLETE_ROUND => feed.Some? && (!feed.value.roundComplete || feed.value.updatedAtSec <= 0)
    case UNSAFE_NUMBER => feed.Some? && nowSec < feed.value.updatedAtSec
    case STALE_ANSWER => feed.Some? && feed.value.updatedAtSec < nowSec - maxStalenessSec
    case _ => false
  }

  predicate SequencerFault(code: PriceGuardError, uptime: Option<SequencerObservation>, policy: PriceRiskPolicy,
        nowSec: int) {
    match code
    case SEQUENCER_POLICY_MISSING =>
      || policy.sequencerFeedIdentity == "" || policy.sequencerGraceSec < 0 || uptime.None?
      || Lower(uptime.value.feedIdentity) != Lower(policy.sequencerFeedIdentity)
    case SEQUENCER_BAD_ROUND =>
      && uptime.Some?
      && (uptime.value.startedAtSec <= 0 || uptime.value.updatedAtSec <= 0 || nowSec < uptime.value.startedAtSec)
    case SEQUENCER_DOWN => uptime.Some? && uptime.value.answer != 0
    case SEQUENCER_GRACE_PERIOD => uptime.Some? && nowSec < uptime.value.startedAtSec + policy.sequencerGraceSec
    case _ => false
  }

  /** What is wrong with the amounts, the token state or the price of an input whose observations are sound. */
  predicate QuoteFault(code: PriceGuardError, io: AcquisitionPriceInput, inF: UsdPriceObservation,
        outF: UsdPriceObservation, state: Option<StockTokenState>, p: PriceRiskPolicy) {
    match code
    case MULTIPLIER_MISSING => state.None? || state.value.multiplierE18 <= 0
    case ORACLE_PAUSED => state.Some? && state.value.oraclePaused
    case MULTIPLIER_TRANSITION => state.Some? && state.value.transitionPending
    case UNSAFE_NUMBER => io.sellAmountRaw <= 0 || io.minBuyAmountRaw <= 0
    case AMOUNT_OUT_OF_DOMAIN => io.sellAmountRaw > MAX_UINT256 || io.minBuyAmountRaw > MAX_UINT256
    case TX_CAP_EXCEEDED => io.sellAmountRaw > p.maxTxInputRaw
    case RAW_UNDERLYING_NOT_APPROVED => outF.semantics == RAW_UNDERLYING && !p.allowRawUnderlyingForEvidence
    case BAD_DECIMALS => !AllDecimalsSafe(io, inF, outF)
    case DEVIATION_EXCEEDED =>
      && AllDecimalsSafe(io, inF, outF) && state.Some? && state.value.multiplierE18 > 0 && outF.answer > 0
      && var expected := Reference(io, inF, outF, state.value.multiplierE18);
      expected <= 0 || io.minBuyAmountRaw < MinAllowed(expected, p.maxDeviationBps)
    case _ => false
  }

  /** The order in which one observation is looked at. */
  function ObservationTurn(code: PriceGuardError): nat {
    match code
    case PRICE_FEED_MISSING => 0
    case FEED_BINDING_MISSING => 1
    case FEED_IDENTITY_MISMATCH => 2
    case SEMANTICS_MISMATCH => 3
    case ASSET_BINDING_MISMATCH => 4
    case NON_POSITIVE_ANSWER => 5
    case AMOUNT_OUT_OF_DOMAIN => 6
    case ZERO_ROUND => 7
    case INCOMPLETE_ROUND => 8
    case UNSAFE_NUMBER => 9
    case STALE_ANSWER => 10
    case SEQUENCER_POLICY_MISSING => 0
    case SEQUENCER_BAD_ROUND => 1
    case SEQUENCER_DOWN => 2
    case SEQUENCER_GRACE_PERIOD => 3
    case _ => 11
  }

  /** The order in which state, amounts and price are looked at. */
  function QuoteTurn(code: PriceGuardError): nat {
    match code
    case ORACLE_PAUSED => 0
    case MULTIPLIER_TRANSITION => 1
    case MULTIPLIER_MISSING => 2
    case UNSAFE_NUMBER => 3
    case AMOUNT_OUT_OF_DOMAIN => 4
    case TX_CAP_EXCEEDED => 5
    case RAW_UNDERLYING_NOT_APPROVED => 6
    case BAD_DECIMALS => 7
    case _ => 8
  }

  ghost predicate FirstFeedFault(code: PriceGuardError, feed: Option<UsdPriceObservation>, asset: string,
        identity: string, semantics: PriceSemantics, nowSec: int, maxStalenessSec: int) {
    && FeedFault(code, feed, asset, identity, semantics, nowSec, maxStalenessSec)
    && forall other :: FeedFault(other, feed, asset, identity, semantics, nowSec, maxStalenessSec) ==>
         ObservationTurn(code) <= ObservationTurn(other)
  }

  ghost predicate FirstSequencerFault(code: PriceGuardError, uptime: Option<SequencerObservation>,
        policy: PriceRiskPolicy, nowSec: int) {
    && SequencerFault(code, uptime, policy, nowSec)
    && forall other :: SequencerFault(other, uptime, policy, nowSec) ==>
         ObservationTurn(code) <= ObservationTurn(other)
  }

  ghost predicate FirstQuoteFault(code: PriceGuardError, io: AcquisitionPriceInput, inF: UsdPriceObservation,
        outF: UsdPriceObservation, state: Option<StockTokenState>, p: PriceRiskPolicy) {
    && QuoteFault(code, io, inF, outF, state, p)
    && forall other :: QuoteFault(other, io, inF, outF, state, p) ==> QuoteTurn(code) <= QuoteTurn(other)
  }

  /** A refusal names the first thing that is wrong, observation by observation and then in the quote. */
  lemma RefusalNamesCause(io: AcquisitionPriceInput, inF: Option<UsdPriceObservation>,
        outF: Option<UsdPriceObservation>, state: Option<StockTokenState>, uptime: Option<SequencerObservation>,
        policy: Option<PriceRiskPolicy>)
    ensures var r := ValidateAcquisitionPrice(io, inF, outF, state, uptime, policy);
            r.Failure? ==>
              if policy.None? then r.error == PRICE_POLICY_MISSING
              else FirstRefusal(r.error, io, inF, outF, state, uptime, policy.value)
  {
    if policy.Some? {
      var p, now := policy.value, io.nowSec;
      SequencerVerdict(uptime, p, now);
      if SequencerSound(uptime, p, now) { RefusedAfterSequencer(io, inF, outF, state, uptime, p); }
    }
  }

  /** The first fault of the first part that has one. */
  ghost predicate FirstRefusal(code: PriceGuardError, io: AcquisitionPriceInput, inF: Option<UsdPriceObservation>,
        outF: Option<UsdPriceObservation>, state: Option<StockTokenState>, uptime: Option<SequencerObservation>,
        p: PriceRiskPolicy) {
    if !SequencerSound(uptime, p, io.nowSec) then FirstSequencerFault(code, uptime, p, io.nowSec)
    else if !InputSound(io, inF, p)
    then FirstFeedFault(code, inF, io.sellToken, p.inputFeedIdentity, PER_TOKEN_CHAINLINK, io.nowSec,
                        p.maxStalenessSec)
    else if !OutputSound(io, outF, p)
    then FirstFeedFault(code, outF, io.buyToken, p.outputFeedIdentity, p.outputSemantics, io.nowSec, p.maxStalenessSec)
    else FirstQuoteFault(code, io, inF.value, outF.value, state, p)
  }

  predicate InputSound(io: AcquisitionPriceInput, inF: Option<UsdPriceObservation>, p: PriceRiskPolicy) {
    FeedSound(inF, io.sellToken, p.inputFeedIdentity, PER_TOKEN_CHAINLINK, io.nowSec, p.maxStalenessSec)
  }

  predicate OutputSound(io: AcquisitionPriceInput, outF: Option<UsdPriceObservation>, p: PriceRiskPolicy) {
    FeedSound(outF, io.buyToken, p.outputFeedIdentity, p.outputSemantics, io.nowSec, p.maxStalenessSec)
  }

  lemma RefusedAfterSequencer(io: AcquisitionPriceInput, inF: Option<UsdPriceObservation>,
        outF: Option<UsdPriceObservation>, state: Option<StockTokenState>, uptime: Option<SequencerObservation>,
        p: PriceRiskPolicy)
    requires SequencerSound(uptime, p, io.nowSec)
    ensures var r := ValidateAcquisitionPrice(io, inF, outF, state, uptime, Some(p));
            r.Failure? ==> FirstRefusal(r.error, io, inF, outF, state, uptime, p)
  {
    SequencerVerdict(uptime, p, io.nowSec);
    FeedVerdict(inF, io.sellToken, p.inputFeedIdentity, PER_TOKEN_CHAINLINK, io.nowSec, p.maxStalenessSec);
    FeedVerdict(outF, io.buyToken, p.outputFeedIdentity, p.outputSemantics, io.nowSec, p.maxStalenessSec);
    if InputSound(io, inF, p) && OutputSound(io, outF, p) { QuoteVerdict(io, inF, outF, state, uptime, p); }
  }

  lemma QuoteVerdict(io: AcquisitionPriceInput, inF: Option<UsdPriceObservation>,
        outF: Option<UsdPriceObservation>, state: Option<StockTokenState>, uptime: Option<SequencerObservation>,
        p: PriceRiskPolicy)
    requires SequencerSound(uptime, p, io.nowSec) && InputSound(io, inF, p) && OutputSound(io, outF, p)
    ensures var r := ValidateAcquisitionPrice(io, inF, outF, state, uptime, Some(p));
            r.Failure? ==> FirstQuoteFault(r.error, io, inF.value, outF.value, state, p)
  {
  }

  lemma SequencerVerdict(uptime: Option<SequencerObservation>, p: PriceRiskPolicy, nowSec: int)
    ensures CheckSequencer(uptime, p, nowSec).None? <==> SequencerSound(uptime, p, nowSec)
    ensures var error := CheckSequencer(uptime, p, nowSec);
            error.Some? ==> FirstSequencerFault(error.value, uptime, p, nowSec)
  {
  }

  lemma FeedVerdict(feed: Option<UsdPriceObservation>, asset: string, identity: string, semantics: PriceSemantics,
        nowSec: int, maxStalenessSec: int)
    ensures CheckFeed(feed, asset, identity, semantics, nowSec, maxStalenessSec).None? <==>
            FeedSound(feed, asset, identity, semantics, nowSec, maxStalenessSec)
    ensures var error := CheckFeed(feed, asset, identity, semantics, nowSec, maxStalenessSec);
            error.Some? ==> FirstFeedFault(error.value, feed, asset, identity, semantics, nowSec, maxStalenessSec)
  {
  }

  lemma ProductPositive(a: int, b: int)
    requires a > 0 && b > 0
    ensures a * b > 0
  {
  }

  lemma PerTokenPositive(semantics: PriceSemantics, answer: int, multiplierE18: int)
    requires answer > 0 && multiplierE18 > 0
    ensures PerToken(semantics, answer, multiplierE18).0 > 0
  {
    if semantics != PER_TOKEN_CHAINLINK { ProductPositive(answer, multiplierE18); }
  }

  lemma DenominatorPositive(sellDecimals: nat, inFeedDecimals: nat, num: int)
    requires num > 0
    ensures Denominator(sellDecimals, inFeedDecimals, num) > 0
  {
    ProductPositive(Pow10(sellDecimals), Pow10(inFeedDecimals));
    ProductPositive(Pow10(sellDecimals) * Pow10(inFeedDecimals), num);
  }

  // ---- What acceptance means ------------------------------------------------------------

  /** All an accepted quote has been checked against; the reference is the exact floor of the cross-feed ratio. */
  lemma AcceptedQuote(io: AcquisitionPriceInput, inputFeed: Option<UsdPriceObservation>,
        outputFeed: Option<UsdPriceObservation>, tokenState: Option<StockTokenState>,
        sequencer: Option<SequencerObservation>, policy: Option<PriceRiskPolicy>)
    ensures var r := ValidateAcquisitionPrice(io, inputFeed, outputFeed, tokenState, sequencer, policy);
            r.Success? ==>
              && policy.Some? && inputFeed.Some? && outputFeed.Some? && tokenState.Some? && sequencer.Some?
              && var p, inF, outF, s := policy.value, inputFeed.value, outputFeed.value, sequencer.value;
              && inF.feedIdentity == p.inputFeedIdentity && outF.feedIdentity == p.outputFeedIdentity
              && inF.semantics == PER_TOKEN_CHAINLINK && outF.semantics == p.outputSemantics
              && io.nowSec - p.maxStalenessSec <= inF.updatedAtSec <= io.nowSec
              && io.nowSec - p.maxStalenessSec <= outF.updatedAtSec <= io.nowSec
              && s.answer == 0 && s.startedAtSec + p.sequencerGraceSec <= io.nowSec
              && !tokenState.value.oraclePaused && !tokenState.value.transitionPending
              && 0 < io.sellAmountRaw <= p.maxTxInputRaw && 0 < io.minBuyAmountRaw
              && (r.value.multiplierApplied <==> outF.semantics == RAW_UNDERLYING)
              && (r.value.multiplierApplied ==> p.allowRawUnderlyingForEvidence)
              && r.value.expected > 0
              && Truncated(r.value.minAllowed, r.value.expected * (10_000 - p.maxDeviationBps), 10_000)
              && r.value.minAllowed <= io.minBuyAmountRaw
              && (if r.value.expected <= io.minBuyAmountRaw then r.value.deviationBps == 0
                  else IsFloor(r.value.deviationBps, (r.value.expected - io.minBuyAmountRaw) * 10_000,
                               r.value.expected))
              && AllDecimalsSafe(io, inF, outF)
              && CrossRate(r.value.expected, io, inF, outF, tokenState.value.multiplierE18)
  {
    var r := ValidateAcquisitionPrice(io, inputFeed, outputFeed, tokenState, sequencer, policy);
    if r.Success? {
      ReferenceIsCrossRate(io, inputFeed.value, outputFeed.value, tokenState.value.multiplierE18);
      TruncatedIs(r.value.expected * (BPS - policy.value.maxDeviationBps), BPS);
      FloorUnique(r.value.deviationBps, (r.value.expected - io.minBuyAmountRaw) * BPS, r.value.expected);
    }
  }

  /** q is n divided by d, rounded toward zero. */
  predicate Truncated(q: int, n: int, d: int) {
    if n >= 0 then IsFloor(q, n, d) else IsFloor(-q, -n, d)
  }

  lemma TruncatedIs(n: int, d: int)
    requires d > 0
    ensures Truncated(TruncDiv(n, d), n, d)
  {
    FloorUnique(n / d, n, d);
    FloorUnique(-n / d, -n, d);
  }

  /**
   * The one floor of the reference price, in the fields of the inputs: sold amount times its price over the output's
   * price, all in raw units of their decimals; the multiplier enters a raw price once and a per-token price never.
   */
  predicate CrossRate(expected: int, io: AcquisitionPriceInput, inF: UsdPriceObservation, outF: UsdPriceObservation,
        multiplierE18: int)
    requires io.sellDecimals >= 0 && io.buyDecimals >= 0 && inF.decimals >= 0 && outF.decimals >= 0
  {
    if outF.semantics == PER_TOKEN_CHAINLINK then
      IsFloor(expected, io.sellAmountRaw * inF.answer * Pow10(outF.decimals) * Pow10(io.buyDecimals),
              Pow10(io.sellDecimals) * Pow10(inF.decimals) * outF.answer)
    else
      IsFloor(expected,
              io.sellAmountRaw * inF.answer * Pow10(outF.decimals) * Pow10(io.buyDecimals) * 1_000_000_000_000_000_000,
              Pow10(io.sellDecimals) * Pow10(inF.decimals) * (outF.answer * multiplierE18))
  }

  lemma ReferenceIsCrossRate(io: AcquisitionPriceInput, inF: UsdPriceObservation, outF: UsdPriceObservation,
        multiplierE18: int)
    requires outF.answer > 0 && multiplierE18 > 0
    requires io.sellDecimals >= 0 && io.buyDecimals >= 0 && inF.decimals >= 0 && outF.decimals >= 0
    ensures CrossRate(Reference(io, inF, outF, multiplierE18), io, inF, outF, multiplierE18)
  {
    var (num, den) := PerToken(outF.semantics, outF.answer, multiplierE18);
    PerTokenPositive(outF.semantics, outF.answer, multiplierE18);
    ExactFloor(Numerator(io.sellAmountRaw, inF.answer, outF.decimals, io.buyDecimals, den),
               io.sellDecimals, inF.decimals, num);
  }

  /** Powers of ten: one, and ten times as much for each further decimal. */
  lemma {:induction false} Pow10Adds(m: nat, n: nat)
    ensures Pow10(m + n) == Pow10(m) * Pow10(n) && Pow10(1) == 10
  {
    if n > 0 {
      Pow10Adds(m, n - 1);
      assert Pow10(m) * (10 * Pow10(n - 1)) == 10 * (Pow10(m) * Pow10(n - 1));
    }
  }

  lemma ExactFloor(n: int, sellDecimals: nat, inFeedDecimals: nat, num: int)
    requires num > 0
    ensures Denominator(sellDecimals, inFeedDecimals, num) > 0
    ensures var d := Denominator(sellDecimals, inFeedDecimals, num); n / d * d <= n < (n / d + 1) * d
  {
    DenominatorPositive(sellDecimals, inFeedDecimals, num);
    FloorBounds(n, Denominator(sellDecimals, inFeedDecimals, num));
  }

  /** Shortfall of a floored minimum, in bps of the expected output, exactly. */
  lemma ShortfallExact(expected: int, maxDeviationBps: int)
    requires expected > 0 && maxDeviationBps <= BPS
    ensures var g := expected * (BPS - maxDeviationBps);
            && MinAllowed(expected, maxDeviationBps) == g / BPS && 0 <= g % BPS < BPS
            && (expected - MinAllowed(expected, maxDeviationBps)) * BPS == expected * maxDeviationBps + g % BPS
  {
    var g := expected * (BPS - maxDeviationBps);
    MulMonotone(0, BPS - maxDeviationBps, expected);
    assert g == g / BPS * BPS + g % BPS;
    assert g == expected * BPS - expected * maxDeviationBps;
  }

  lemma DeviationAtMost(expected: int, minBuy: int, bound: int)
    requires expected > 0 && bound >= 0
    ensures Deviation(expected, minBuy) <= bound <==> (expected - minBuy) * BPS < (bound + 1) * expected
  {
    if minBuy >= expected {
      MulMonotone(0, bound + 1, expected);
    } else {
      FloorGreatest((expected - minBuy) * BPS, expected, bound + 1);
    }
  }

  /** An accepted quote strays from the policy by less than one base unit, for every policy whatever. */
  lemma DeviationBound(expected: int, minBuy: int, maxDeviationBps: int)
    requires expected > 0 && minBuy > 0 && MinAllowed(expected, maxDeviationBps) <= minBuy
    ensures Deviation(expected, minBuy) <= (if maxDeviationBps >= 0 then maxDeviationBps else 0) + 9999 / expected
    ensures 0 <= maxDeviationBps && expected >= BPS ==> Deviation(expected, minBuy) <= maxDeviationBps
  {
    var cap := if maxDeviationBps >= 0 then maxDeviationBps else 0;
    var bound := cap + 9999 / expected;
    FloorBounds(9999, expected);
    assert (bound + 1) * expected == cap * expected + (9999 / expected * expected + expected);
    if maxDeviationBps <= BPS {
      ShortfallExact(expected, maxDeviationBps);
      MulMonotone(maxDeviationBps, cap, expected);
      MulMonotone(expected - minBuy, expected - MinAllowed(expected, maxDeviationBps), BPS);
    } else {
      MulMonotone(BPS, cap, expected);
    }
    FloorGreatest(9999, expected, 0);
    DeviationAtMost(expected, minBuy, bound);
    if expected >= BPS { FloorGreatest(9999, expected, 1); }
  }

  /** ... as the whole guard reports it. */
  lemma AcceptedDeviation(io: AcquisitionPriceInput, inputFeed: Option<UsdPriceObservation>,
        outputFeed: Option<UsdPriceObservation>, tokenState: Option<StockTokenState>,
        sequencer: Option<SequencerObservation>, policy: PriceRiskPolicy)
    ensures var r := ValidateAcquisitionPrice(io, inputFeed, outputFeed, tokenState, sequencer, Some(policy));
            r.Success? ==>
              && r.value.expected > 0
              && r.value.deviationBps
                 <= (if policy.maxDeviationBps >= 0 then policy.maxDeviationBps else 0) + 9999 / r.value.expected
              && (0 <= policy.maxDeviationBps && r.value.expected >= BPS ==>
                    r.value.deviationBps <= policy.maxDeviationBps)
  {
    AcceptedQuote(io, inputFeed, outputFeed, tokenState, sequencer, Some(policy));
    var r := ValidateAcquisitionPrice(io, inputFeed, outputFeed, tokenState, sequencer, Some(policy));
    if r.Success? { DeviationBound(r.value.expected, io.minBuyAmountRaw, policy.maxDeviationBps); }
  }

  // ---- When every accepted quote is within the policy -----------------------------------

  /** Everything the guard demands that has nothing to do with the quoted minimum. */
  predicate Cleared(io: AcquisitionPriceInput, inF: Option<UsdPriceObservation>, outF: Option<UsdPriceObservation>,
        state: Option<StockTokenState>, uptime: Option<SequencerObservation>, p: PriceRiskPolicy) {
    && SequencerSound(uptime, p, io.nowSec) && InputSound(io, inF, p) && OutputSound(io, outF, p)
    && state.Some? && !state.value.oraclePaused && !state.value.transitionPending && state.value.multiplierE18 > 0
    && 0 < io.sellAmountRaw <= MAX_UINT256 && io.sellAmountRaw <= p.maxTxInputRaw
    && (p.outputSemantics == RAW_UNDERLYING ==> p.allowRawUnderlyingForEvidence)
    && AllDecimalsSafe(io, inF.value, outF.value)
  }

  /** A quote is accepted exactly when all else is cleared and its minimum lies between the floored one and 2^256. */
  lemma AcceptedIff(io: AcquisitionPriceInput, inF: Option<UsdPriceObservation>, outF: Option<UsdPriceObservation>,
        state: Option<StockTokenState>, uptime: Option<SequencerObservation>, p: PriceRiskPolicy)
    ensures var r := ValidateAcquisitionPrice(io, inF, outF, state, uptime, Some(p));
            && (r.Success? <==>
                && Cleared(io, inF, outF, state, uptime, p)
                && var expected := Reference(io, inF.value, outF.value, state.value.multiplierE18);
                && expected > 0 && 0 < io.minBuyAmountRaw <= MAX_UINT256
                && MinAllowed(expected, p.maxDeviationBps) <= io.minBuyAmountRaw)
            && (r.Success? ==>
                  && r.value.expected == Reference(io, inF.value, outF.value, state.value.multiplierE18)
                  && r.value.deviationBps == Deviation(r.value.expected, io.minBuyAmountRaw))
  {
  }

  /** Some quoted minimum is accepted. */
  predicate Quotable(io: AcquisitionPriceInput, inF: Option<UsdPriceObservation>, outF: Option<UsdPriceObservation>,
        state: Option<StockTokenState>, uptime: Option<SequencerObservation>, p: PriceRiskPolicy) {
    && Cleared(io, inF, outF, state, uptime, p)
    && Reference(io, inF.value, outF.value, state.value.multiplierE18) > 0
    && MinAllowed(Reference(io, inF.value, outF.value, state.value.multiplierE18), p.maxDeviationBps) <= MAX_UINT256
  }

  /** Rounding the minimum down costs less than one reference output, or there is no minimum to speak of. */
  predicate FloorIsHarmless(expected: int, maxDeviationBps: int) {
    || MinAllowed(expected, maxDeviationBps) <= 0
    || expected * (BPS - maxDeviationBps) % BPS < expected
  }

  /** For fixed feeds and policy: whatever minimum is quoted, acceptance means a deviation within the policy. */
  ghost predicate PolicyKept(io: AcquisitionPriceInput, inF: Option<UsdPriceObservation>,
        outF: Option<UsdPriceObservation>, state: Option<StockTokenState>, uptime: Option<SequencerObservation>,
        p: PriceRiskPolicy) {
    forall minBuy ::
      var r := ValidateAcquisitionPrice(io.(minBuyAmountRaw := minBuy), inF, outF, state, uptime, Some(p));
      r.Success? ==> r.value.deviationBps <= p.maxDeviationBps
  }

  /**
   * Exactly when every accepted quote is within the policy, for every policy: nothing can be accepted at
   * all, or the policy is not negative and the floor is harmless at the reference output of the inputs.
   */
  lemma WithinPolicyIff(io: AcquisitionPriceInput, inF: Option<UsdPriceObservation>,
        outF: Option<UsdPriceObservation>, state: Option<StockTokenState>, uptime: Option<SequencerObservation>,
        p: PriceRiskPolicy)
    ensures PolicyKept(io, inF, outF, state, uptime, p) <==>
            || !Quotable(io, inF, outF, state, uptime, p)
            || (&& 0 <= p.maxDeviationBps
                && FloorIsHarmless(Reference(io, inF.value, outF.value, state.value.multiplierE18), p.maxDeviationBps))
  {
    if Quotable(io, inF, outF, state, uptime, p) {
      QuotedMinimums(io, inF, outF, state, uptime, p);
      MinimumsWithinIff(Reference(io, inF.value, outF.value, state.value.multiplierE18), p.maxDeviationBps);
    } else {
      forall minBuy
        ensures ValidateAcquisitionPrice(io.(minBuyAmountRaw := minBuy), inF, outF, state, uptime, Some(p)).Failure?
      {
        AcceptedIff(io.(minBuyAmountRaw := minBuy), inF, outF, state, uptime, p);
      }
    }
  }

  /** The minimums that pass, and what they deviate. */
  ghost predicate MinimumsWithin(expected: int, maxDeviationBps: int)
    requires expected > 0
  {
    forall minBuy :: 0 < minBuy <= MAX_UINT256 && MinAllowed(expected, maxDeviationBps) <= minBuy ==>
                       Deviation(expected, minBuy) <= maxDeviationBps
  }

  lemma QuotedMinimums(io: AcquisitionPriceInput, inF: Option<UsdPriceObservation>, outF: Option<UsdPriceObservation>,
        state: Option<StockTokenState>, uptime: Option<SequencerObservation>, p: PriceRiskPolicy)
    requires Quotable(io, inF, outF, state, uptime, p)
    ensures PolicyKept(io, inF, outF, state, uptime, p) <==>
            MinimumsWithin(Reference(io, inF.value, outF.value, state.value.multiplierE18), p.maxDeviationBps)
  {
    var expected := Reference(io, inF.value, outF.value, state.value.multiplierE18);
    forall minBuy
      ensures var r := ValidateAcquisitionPrice(io.(minBuyAmountRaw := minBuy), inF, outF, state, uptime, Some(p));
              && (r.Success? <==>
                  0 < minBuy <= MAX_UINT256 && MinAllowed(expected, p.maxDeviationBps) <= minBuy)
              && (r.Success? ==> r.value.deviationBps == Deviation(expected, minBuy))
    {
      AcceptedIff(io.(minBuyAmountRaw := minBuy), inF, outF, state, uptime, p);
    }
  }

  lemma MinimumsWithinIff(expected: int, maxDeviationBps: int)
    requires expected > 0 && MinAllowed(expected, maxDeviationBps) <= MAX_UINT256
    ensures MinimumsWithin(expected, maxDeviationBps) <==>
            0 <= maxDeviationBps && FloorIsHarmless(expected, maxDeviationBps)
  {
    var least := MinAllowed(expected, maxDeviationBps);
    var worst := if least <= 0 then 1 else least;
    WorstIsWorst(expected, worst);
    if maxDeviationBps < 0 {
      DeviationNotNegative(expected, worst);
    } else if maxDeviationBps >= BPS {
      MulMonotone(BPS - maxDeviationBps, 0, expected);
      DeviationBelowAll(expected, worst);
    } else {
      ShortfallExact(expected, maxDeviationBps);
      DeviationAtMost(expected, worst, maxDeviationBps);
      assert (maxDeviationBps + 1) * expected == expected * maxDeviationBps + expected;
    }
  }

  lemma WorstIsWorst(expected: int, worst: int)
    requires expected > 0 && worst > 0
    ensures forall minBuy :: worst <= minBuy ==> Deviation(expected, minBuy) <= Deviation(expected, worst)
  {
    DeviationNotNegative(expected, worst);
    forall minBuy | worst <= minBuy
      ensures Deviation(expected, minBuy) <= Deviation(expected, worst)
    {
      DeviationAtMost(expected, worst, Deviation(expected, worst));
      DeviationAtMost(expected, minBuy, Deviation(expected, worst));
      MulMonotone(expected - minBuy, expected - worst, BPS);
    }
  }

  lemma DeviationNotNegative(expected: int, minBuy: int)
    requires expected > 0
    ensures Deviation(expected, minBuy) >= 0
  {
    if minBuy < expected { FloorGreatest((expected - minBuy) * BPS, expected, 0); }
  }

  lemma DeviationBelowAll(expected: int, minBuy: int)
    requires expected > 0 && minBuy > 0
    ensures Deviation(expected, minBuy) < BPS
  {
    DeviationAtMost(expected, minBuy, BPS - 1);
    assert (expected - minBuy) * BPS == expected * BPS - minBuy * BPS;
  }

  /** From 10000 units of reference output on, every accepted quote is within every policy that is not negative. */
  lemma LargeOutputsKeepPolicy(io: AcquisitionPriceInput, inF: Option<UsdPriceObservation>,
        outF: Option<UsdPriceObservation>, state: Option<StockTokenState>, uptime: Option<SequencerObservation>,
        p: PriceRiskPolicy)
    requires Cleared(io, inF, outF, state, uptime, p) && 0 <= p.maxDeviationBps
    requires Reference(io, inF.value, outF.value, state.value.multiplierE18) >= BPS
    ensures PolicyKept(io, inF, outF, state, uptime, p)
  {
    WithinPolicyIff(io, inF, outF, state, uptime, p);
  }

  /** A quote of 2 units against a reference of 3, under a policy of 1%: accepted, 33.33% off. */
  lemma PolicyCanBeExceeded()
    ensures ValidateAcquisitionPrice(
              AcquisitionPriceInput("weth", 3, 0, "nvda", 2, 0, 1000),
              Some(UsdPriceObservation(PER_TOKEN_CHAINLINK, "eth-usd", "weth", 1, 0, 1, 1000, true)),
              Some(UsdPriceObservation(PER_TOKEN_CHAINLINK, "nvda-usd", "nvda", 1, 0, 1, 1000, true)),
              Some(StockTokenState(E18, false, false)),
              Some(SequencerObservation("uptime", 0, 1, 1000)),
              Some(PriceRiskPolicy(60, 100, 1000, "uptime", 0, "eth-usd", "nvda-usd", PER_TOKEN_CHAINLINK, false)))
            == Success(PriceGuardResult(3, 2, 3333, false))
  {
  }

  // ---- Invariances ----------------------------------------------------------------------

  lemma FloorScale(n: int, d: int, k: int)
    requires d > 0 && k > 0
    ensures d * k > 0 && n * k / (d * k) == n / d
  {
    ProductPositive(d, k);
    FloorBounds(n, d);
    var q := n / d;
    assert q * (d * k) == q * d * k;
    assert (q + 1) * (d * k) == (q * d + d) * k;
    MulMonotone(q * d, n, k);
    MulMonotone(n + 1, q * d + d, k);
    FloorGreatest(n * k, d * k, q);
    FloorGreatest(n * k, d * k, q + 1);
  }

  /** A raw price with multiplier m behaves as the per-token price it stands for. */
  lemma RawEqualsPerToken(io: AcquisitionPriceInput, inF: UsdPriceObservation, outF: UsdPriceObservation, m: int,
        other: int, maxDeviationBps: int)
    requires inF.answer > 0 && outF.answer > 0 && m > 0 && other > 0 && io.sellAmountRaw > 0
    requires outF.semantics == RAW_UNDERLYING
    ensures outF.answer * m > 0 && m * E18 > 0
    ensures var raw := Settle(io, inF, outF, m * E18, maxDeviationBps);
            var restated := outF.(semantics := PER_TOKEN_CHAINLINK, answer := outF.answer * m);
            var perToken := Settle(io, inF, restated, other, maxDeviationBps);
            && (raw.Failure? ==> raw == perToken)
            && (raw.Success? ==> perToken == Success(raw.value.(multiplierApplied := false)))
  {
    ProductPositive(outF.answer, m);
    ProductPositive(m, E18);
    if AllDecimalsSafe(io, inF, outF) {
      var scaled := Pow10(io.sellDecimals) * Pow10(inF.decimals);
      assert outF.answer * (m * E18) == outF.answer * m * E18;
      assert scaled * (outF.answer * m * E18) == scaled * (outF.answer * m) * E18;
      DenominatorPositive(io.sellDecimals, inF.decimals, outF.answer * m);
      FloorScale(Numerator(io.sellAmountRaw, inF.answer, outF.decimals, io.buyDecimals, 1),
                 Denominator(io.sellDecimals, inF.decimals, outF.answer * m), E18);
    }
  }

  /** ... through the whole guard, as long as the restated price still fits the uint256 domain. */
  lemma RawEqualsPerTokenGuarded(io: AcquisitionPriceInput, inF: Option<UsdPriceObservation>,
        outF: UsdPriceObservation, m: int, state: StockTokenState, uptime: Option<SequencerObservation>,
        policy: PriceRiskPolicy)
    requires m > 0 && state.multiplierE18 > 0 && outF.answer * m <= MAX_UINT256
    requires outF.semantics == policy.outputSemantics == RAW_UNDERLYING && policy.allowRawUnderlyingForEvidence
    ensures var priced := state.(multiplierE18 := m * E18);
            var restated := outF.(semantics := PER_TOKEN_CHAINLINK, answer := outF.answer * m);
            var relabelled := policy.(outputSemantics := PER_TOKEN_CHAINLINK);
            var raw := ValidateAcquisitionPrice(io, inF, Some(outF), Some(priced), uptime, Some(policy));
            var perToken := ValidateAcquisitionPrice(io, inF, Some(restated), Some(state), uptime, Some(relabelled));
            && (raw.Failure? ==> raw == perToken)
            && (raw.Success? ==> perToken == Success(raw.value.(multiplierApplied := false)))
  {
    ProductPositive(m, E18);
    var restated := outF.(semantics := PER_TOKEN_CHAINLINK, answer := outF.answer * m);
    if outF.answer > 0 {
      ProductPositive(outF.answer, m);
      MulMonotone(1, m, outF.answer);
      if inF.Some? && inF.value.answer > 0 && io.sellAmountRaw > 0 {
        RawEqualsPerToken(io, inF.value, outF, m, state.multiplierE18, policy.maxDeviationBps);
      }
    } else {
      MulMonotone(outF.answer, 0, m);
    }
    var identity, now, age := policy.outputFeedIdentity, io.nowSec, policy.maxStalenessSec;
    assert CheckFeed(Some(restated), io.buyToken, identity, PER_TOKEN_CHAINLINK, now, age)
        == CheckFeed(Some(outF), io.buyToken, identity, RAW_UNDERLYING, now, age);
  }

  /** With a per-token feed the multiplier only has to be present. */
  lemma PerTokenIgnoresMultiplier(io: AcquisitionPriceInput, inF: Option<UsdPriceObservation>,
        outF: Option<UsdPriceObservation>, state: StockTokenState, multiplier: int,
        uptime: Option<SequencerObservation>, policy: PriceRiskPolicy)
    requires policy.outputSemantics == PER_TOKEN_CHAINLINK && state.multiplierE18 > 0 && multiplier > 0
    ensures ValidateAcquisitionPrice(io, inF, outF, Some(state), uptime, Some(policy))
            == ValidateAcquisitionPrice(io, inF, outF, Some(state.(multiplierE18 := multiplier)), uptime, Some(policy))
  {
  }

  /** The same observation with ten times the answer and one more decimal. */
  function Tenfold(f: UsdPriceObservation): UsdPriceObservation {
    f.(answer := f.answer * 10, decimals := f.decimals + 1)
  }

  /** Restating either feed with one more decimal changes nothing. */
  lemma DecimalsInvariant(io: AcquisitionPriceInput, inF: UsdPriceObservation, outF: UsdPriceObservation,
        multiplierE18: int, maxDeviationBps: int)
    requires outF.answer > 0 && multiplierE18 > 0
    requires 0 <= inF.decimals < 77 && 0 <= outF.decimals < 77
    ensures Settle(io, Tenfold(inF), outF, multiplierE18, maxDeviationBps)
            == Settle(io, inF, outF, multiplierE18, maxDeviationBps)
    ensures Settle(io, inF, Tenfold(outF), multiplierE18, maxDeviationBps)
            == Settle(io, inF, outF, multiplierE18, maxDeviationBps)
  {
    if AllDecimalsSafe(io, inF, outF) {
      InputDecimals(io, inF, outF, multiplierE18);
      OutputDecimals(io, inF, outF, multiplierE18);
    }
  }

  /** ... through the whole guard, while the restated answers stay in the uint256 domain. */
  lemma DecimalsInvariantGuarded(io: AcquisitionPriceInput, inF: UsdPriceObservation, outF: UsdPriceObservation,
        state: Option<StockTokenState>, uptime: Option<SequencerObservation>, policy: PriceRiskPolicy)
    requires inF.answer * 10 <= MAX_UINT256 && outF.answer * 10 <= MAX_UINT256
    requires 0 <= inF.decimals < 77 && 0 <= outF.decimals < 77
    ensures var plain := ValidateAcquisitionPrice(io, Some(inF), Some(outF), state, uptime, Some(policy));
            && ValidateAcquisitionPrice(io, Some(Tenfold(inF)), Some(outF), state, uptime, Some(policy)) == plain
            && ValidateAcquisitionPrice(io, Some(inF), Some(Tenfold(outF)), state, uptime, Some(policy)) == plain
  {
    if inF.answer > 0 && outF.answer > 0 && state.Some? && state.value.multiplierE18 > 0 {
      DecimalsInvariant(io, inF, outF, state.value.multiplierE18, policy.maxDeviationBps);
    }
  }

  /** Restating what is sold with one more decimal, the cap included, changes nothing either. */
  lemma SellDecimalsInvariant(io: AcquisitionPriceInput, inF: Option<UsdPriceObservation>,
        outF: Option<UsdPriceObservation>, state: Option<StockTokenState>, uptime: Option<SequencerObservation>,
        policy: PriceRiskPolicy)
    requires 0 <= io.sellDecimals < 77 && io.sellAmountRaw * 10 <= MAX_UINT256
    ensures var restated := io.(sellAmountRaw := io.sellAmountRaw * 10, sellDecimals := io.sellDecimals + 1);
            var capped := policy.(maxTxInputRaw := policy.maxTxInputRaw * 10);
            ValidateAcquisitionPrice(restated, inF, outF, state, uptime, Some(capped))
            == ValidateAcquisitionPrice(io, inF, outF, state, uptime, Some(policy))
  {
    if inF.Some? && outF.Some? && outF.value.answer > 0 && state.Some? && state.value.multiplierE18 > 0
       && AllDecimalsSafe(io, inF.value, outF.value) {
      SellDecimals(io, inF.value, outF.value, state.value.multiplierE18);
    }
  }

  lemma SellDecimals(io: AcquisitionPriceInput, inF: UsdPriceObservation, outF: UsdPriceObservation,
        multiplierE18: int)
    requires outF.answer > 0 && multiplierE18 > 0
    requires inF.decimals >= 0 && outF.decimals >= 0 && io.buyDecimals >= 0 && io.sellDecimals >= 0
    ensures Reference(io.(sellAmountRaw := io.sellAmountRaw * 10, sellDecimals := io.sellDecimals + 1), inF, outF,
                      multiplierE18)
            == Reference(io, inF, outF, multiplierE18)
  {
    var (num, den) := PerToken(outF.semantics, outF.answer, multiplierE18);
    PerTokenPositive(outF.semantics, outF.answer, multiplierE18);
    DenominatorPositive(io.sellDecimals, inF.decimals, num);
    DenominatorPositive(io.sellDecimals + 1, inF.decimals, num);
    TenfoldFirst(io.sellAmountRaw, inF.answer, Pow10(outF.decimals), Pow10(io.buyDecimals), den);
    TenfoldDenominator(1, Pow10(io.sellDecimals), Pow10(inF.decimals));
    TenfoldThrough(Pow10(io.sellDecimals) * Pow10(inF.decimals), num);
    FloorScale(Numerator(io.sellAmountRaw, inF.answer, outF.decimals, io.buyDecimals, den),
               Denominator(io.sellDecimals, inF.decimals, num), 10);
  }

  /** One more decimal of the bought token shows one more digit of the same reference output. */
  lemma BuyDecimalsRefine(io: AcquisitionPriceInput, inF: Option<UsdPriceObservation>,
        outF: Option<UsdPriceObservation>, state: Option<StockTokenState>, uptime: Option<SequencerObservation>,
        policy: Option<PriceRiskPolicy>)
    ensures var plain := ValidateAcquisitionPrice(io, inF, outF, state, uptime, policy);
            var finer := ValidateAcquisitionPrice(io.(buyDecimals := io.buyDecimals + 1), inF, outF, state, uptime,
                                                  policy);
            plain.Success? && finer.Success? ==> finer.value.expected / 10 == plain.value.expected
  {
    var plain := ValidateAcquisitionPrice(io, inF, outF, state, uptime, policy);
    if plain.Success? { BuyDecimals(io, inF.value, outF.value, state.value.multiplierE18); }
  }

  lemma BuyDecimals(io: AcquisitionPriceInput, inF: UsdPriceObservation, outF: UsdPriceObservation,
        multiplierE18: int)
    requires outF.answer > 0 && multiplierE18 > 0
    requires inF.decimals >= 0 && outF.decimals >= 0 && io.buyDecimals >= 0 && io.sellDecimals >= 0
    ensures Reference(io.(buyDecimals := io.buyDecimals + 1), inF, outF, multiplierE18) / 10
            == Reference(io, inF, outF, multiplierE18)
  {
    var (num, den) := PerToken(outF.semantics, outF.answer, multiplierE18);
    PerTokenPositive(outF.semantics, outF.answer, multiplierE18);
    DenominatorPositive(io.sellDecimals, inF.decimals, num);
    TenfoldDenominator(io.sellAmountRaw * inF.answer * Pow10(outF.decimals), Pow10(io.buyDecimals), den);
    FloorTwice(Numerator(io.sellAmountRaw, inF.answer, outF.decimals, io.buyDecimals, den),
               Denominator(io.sellDecimals, inF.decimals, num));
  }

  lemma FloorTwice(n: int, d: int)
    requires d > 0
    ensures n * 10 / d / 10 == n / d
  {
    var q, r := n * 10 / d, n / d;
    FloorBounds(n, d);
    FloorBounds(n * 10, d);
    FloorGreatest(n * 10, d, r * 10);
    FloorGreatest(n * 10, d, r * 10 + 10);
    assert r * 10 * d == r * d * 10 && (r * 10 + 10) * d == (r * d + d) * 10;
  }

  lemma TenfoldFirst(a: int, b: int, c: int, d: int, e: int)
    ensures a * 10 * b * c * d * e == a * b * c * d * e * 10
  {
    TenfoldThrough(a, b);
    TenfoldThrough(a * b, c);
    TenfoldThrough(a * b * c, d);
    TenfoldThrough(a * b * c * d, e);
  }

  lemma InputDecimals(io: AcquisitionPriceInput, inF: UsdPriceObservation, outF: UsdPriceObservation,
        multiplierE18: int)
    requires outF.answer > 0 && multiplierE18 > 0
    requires inF.decimals >= 0 && outF.decimals >= 0 && io.buyDecimals >= 0 && io.sellDecimals >= 0
    ensures Reference(io, Tenfold(inF), outF, multiplierE18) == Reference(io, inF, outF, multiplierE18)
  {
    var (num, den) := PerToken(outF.semantics, outF.answer, multiplierE18);
    PerTokenPositive(outF.semantics, outF.answer, multiplierE18);
    DenominatorPositive(io.sellDecimals, inF.decimals, num);
    TenfoldNumerator(io.sellAmountRaw, inF.answer, Pow10(outF.decimals), Pow10(io.buyDecimals), den);
    TenfoldDenominator(Pow10(io.sellDecimals), Pow10(inF.decimals), num);
    FloorScale(Numerator(io.sellAmountRaw, inF.answer, outF.decimals, io.buyDecimals, den),
               Denominator(io.sellDecimals, inF.decimals, num), 10);
  }

  lemma OutputDecimals(io: AcquisitionPriceInput, inF: UsdPriceObservation, outF: UsdPriceObservation,
        multiplierE18: int)
    requires outF.answer > 0 && multiplierE18 > 0
    requires inF.decimals >= 0 && outF.decimals >= 0 && io.buyDecimals >= 0 && io.sellDecimals >= 0
    ensures Reference(io, inF, Tenfold(outF), multiplierE18) == Reference(io, inF, outF, multiplierE18)
  {
    var (num, den) := PerToken(outF.semantics, outF.answer, multiplierE18);
    PerTokenPositive(outF.semantics, outF.answer, multiplierE18);
    assert PerToken(outF.semantics, outF.answer * 10, multiplierE18) == (num * 10, den);
    DenominatorPositive(io.sellDecimals, inF.decimals, num);
    TenfoldFactor(io.sellAmountRaw * inF.answer, Pow10(outF.decimals), Pow10(io.buyDecimals), den);
    assert Denominator(io.sellDecimals, inF.decimals, num * 10)
        == Denominator(io.sellDecimals, inF.decimals, num) * 10 by {
      TenfoldLast(Pow10(io.sellDecimals) * Pow10(inF.decimals), num);
    }
    FloorScale(Numerator(io.sellAmountRaw, inF.answer, outF.decimals, io.buyDecimals, den),
               Denominator(io.sellDecimals, inF.decimals, num), 10);
  }

  lemma TenfoldNumerator(a: int, b: int, c: int, d: int, e: int)
    ensures a * (b * 10) * c * d * e == a * b * c * d * e * 10
  {
    assert a * (b * 10) == a * b * 10;
    TenfoldThrough(a * b, c);
    TenfoldThrough(a * b * c, d);
    TenfoldThrough(a * b * c * d, e);
  }

  lemma TenfoldFactor(a: int, b: int, c: int, d: int)
    ensures a * (10 * b) * c * d == a * b * c * d * 10
  {
    assert a * (10 * b) == a * b * 10;
    TenfoldThrough(a * b, c);
    TenfoldThrough(a * b * c, d);
  }

  lemma TenfoldDenominator(a: int, b: int, c: int)
    ensures a * (10 * b) * c == a * b * c * 10
  {
    assert a * (10 * b) == a * b * 10;
    TenfoldThrough(a * b, c);
  }

  lemma TenfoldLast(x: int, y: int)
    ensures x * (y * 10) == x * y * 10
  {
  }

  lemma TenfoldThrough(x: int, y: int)
    ensures x * 10 * y == x * y * 10
  {
  }
}
