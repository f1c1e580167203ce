/**
 * The transaction lifecycle of the web app, run against a node and a wallet that may answer
 * anything at all at every call, or fail.
 */
module Lifecycle {
  import opened Results
  import opened PodModel
  import opened Sums

  const ROBINHOOD_CHAIN_ID: nat := 4663

  datatype Step =
    | Validate | ReadAllowance | Approve | AwaitApproval | RereadAllowance
    | Simulate | Submit | AwaitReceipt | Reconcile | Done

  datatype Approval = Approval(token: Address, spender: Address, amount: nat)

  datatype ActionRequest = ActionRequest(
    target: Address, data: seq<nat>, value: Option<nat>, approval: Option<Approval>, confirmations: nat,
    reconciles: bool)

  datatype Tx = Tx(account: Address, to: Address, data: seq<nat>, value: nat)

  /** What one foreign call did. A thrown error carries its classified reason. */
  datatype Reply<T> = Returned(value: T) | Threw(reason: string)

  datatype Replacement = Repriced | Replaced | Cancelled

  /** The replacement notices seen while waiting, and how the wait ended (receipt status). */
  datatype Wait = Wait(notices: seq<Replacement>, ended: Reply<bool>)

  /** Every answer the environment will give, call by call. */
  datatype World = World(
    chainId: Reply<nat>, allowance: Reply<nat>, approvalSent: Reply<Hash>, approvalWait: Wait,
    allowanceAgain: Reply<nat>,
    simulated: Reply<()>, actionSent: Reply<Hash>, actionWait: Wait, reconciled: Reply<bool>)

  datatype Reason =
    | WrongChain | ApprovalCancelled | ApprovalReverted | AllowanceInsufficient
    | SimulationFailed(s: string) | ActionCancelled | Reverted | ReconciliationFailed
    | ConfirmError(s: string) | Rejected(s: string)

  datatype LifecycleResult = LifecycleResult(ok: bool, step: Step, hash: Option<Hash>, reason: Option<Reason>)

  /** The promise either resolves to a result or rejects with an uncaught read error. */
  datatype Completion = Resolved(result: LifecycleResult) | Raised(reason: string)

  datatype Call =
    | CallChainId
    | CallAllowance(token: Address, owner: Address, spender: Address)
    | SendApproval(token: Address, spender: Address, amount: nat)
    | CallWait(hash: Hash, confirmations: nat)
    | CallSimulate(tx: Tx)
    | SendAction(tx: Tx)
    | CallReconcile

  datatype Outcome = Receipt(success: bool) | WasCancelled | WaitFailed(reason: string)

  // ---- Confirmation ---------------------------------------------------------------------

  /** Only the latest notice counts, and an error while waiting hides it. */
  method WaitConfirmed(w: Wait) returns (o: Outcome)
    ensures o.WaitFailed? <==> w.ended.Threw?
    ensures o.WaitFailed? ==> o.reason == w.ended.reason
    ensures o.WasCancelled? <==> w.ended.Returned? && w.notices != [] && w.notices[|w.notices| - 1] == Cancelled
    ensures o.Receipt? ==> w.ended == Returned(o.success)
    ensures o == Receipt(true) <==> Confirmed(w)
  {
    var replacementReason: Option<Replacement> := None;
    for i := 0 to |w.notices|
      invariant replacementReason == if i == 0 then None else Some(w.notices[i - 1])
    {
      replacementReason := Some(w.notices[i]);
    }
    if w.ended.Threw? { return WaitFailed(w.ended.reason); }
    if replacementReason == Some(Cancelled) { return WasCancelled; }
    return Receipt(w.ended.value);
  }

  predicate Confirmed(w: Wait) {
    w.ended == Returned(true) && (w.notices == [] || w.notices[|w.notices| - 1] != Cancelled)
  }

  // ---- What the environment must have answered ------------------------------------------

  function Spent(req: ActionRequest): nat {
    match req.value case Some(v) => v case None => 0
  }

  function ActionTx(account: Address, req: ActionRequest): Tx {
    Tx(account, req.target, req.data, Spent(req))
  }

  predicate Sufficient(world: World, a: Approval) {
    world.allowance.Returned? && a.amount <= world.allowance.value
  }

  /** An exact approval was needed, sent, confirmed, and found sufficient on reading again. */
  predicate Topped(world: World, a: Approval) {
    && world.allowance.Returned? && world.allowance.value < a.amount
    && world.approvalSent.Returned? && Confirmed(world.approvalWait)
    && world.allowanceAgain.Returned? && a.amount <= world.allowanceAgain.value
  }

  predicate Cleared(world: World, req: ActionRequest) {
    && world.chainId == Returned(ROBINHOOD_CHAIN_ID)
    && (req.approval.Some? ==> Sufficient(world, req.approval.value) || Topped(world, req.approval.value))
  }

  predicate Succeeds(world: World, req: ActionRequest) {
    Cleared(world, req) && ActionDone(world, req)
  }

  // ---- How far a run gets, why it stops, and what it asks ---------------------------------

  predicate Acting(step: Step) {
    step.Simulate? || step.Submit? || step.AwaitReceipt? || step.Reconcile? || step.Done?
  }

  predicate Asks(world: World, req: ActionRequest) {
    world.chainId == Returned(4663) && req.approval.Some?
  }

  predicate Short(world: World, a: Approval) {
    world.allowance.Returned? && world.allowance.value < a.amount
  }

  predicate Lacks(world: World, req: ActionRequest) {
    Asks(world, req) && Short(world, req.approval.value)
  }

  /** The run reaches the step: everything before it has gone well. */
  predicate Reaches(world: World, req: ActionRequest, step: Step) {
    match step
    case Validate => true
    case ReadAllowance => Asks(world, req)
    case Approve => Lacks(world, req)
    case AwaitApproval => Lacks(world, req) && world.approvalSent.Returned?
    case RereadAllowance => Lacks(world, req) && world.approvalSent.Returned? && Confirmed(world.approvalWait)
    case Simulate => Cleared(world, req)
    case Submit => Cleared(world, req) && world.simulated.Returned?
    case AwaitReceipt => Cleared(world, req) && world.simulated.Returned? && world.actionSent.Returned?
    case Reconcile => Cleared(world, req) && Mined(world)
    case Done => Succeeds(world, req)
  }

  /** What a run that stops at the step reports. */
  predicate Explains(world: World, step: Step, reason: Reason) {
    match step
    case Validate => reason == WrongChain
    case Approve => world.approvalSent.Threw? && reason == Rejected(world.approvalSent.reason)
    case AwaitApproval => Unconfirmed(world.approvalWait, reason, ApprovalCancelled, ApprovalReverted)
    case RereadAllowance => reason == AllowanceInsufficient
    case Simulate => world.simulated.Threw? && reason == SimulationFailed(world.simulated.reason)
    case Submit => world.actionSent.Threw? && reason == Rejected(world.actionSent.reason)
    case AwaitReceipt => Unconfirmed(world.actionWait, reason, ActionCancelled, Reverted)
    case Reconcile => reason == ReconciliationFailed
    case _ => false
  }

  /** The wait failed, or was for a transaction last known as cancelled, or ended with a reverted receipt. */
  predicate Unconfirmed(w: Wait, reason: Reason, cancelled: Reason, reverted: Reason) {
    if w.ended.Threw? then reason == ConfirmError(w.ended.reason)
    else if w.notices != [] && w.notices[|w.notices| - 1] == Cancelled then reason == cancelled
    else !w.ended.value && reason == reverted
  }

  /** The reads whose errors nobody catches. */
  predicate Uncaught(world: World, step: Step, reason: string) {
    match step
    case Validate => world.chainId == Threw(reason)
    case ReadAllowance => world.allowance == Threw(reason)
    case RereadAllowance => world.allowanceAgain == Threw(reason)
    case _ => false
  }

  /** What each step asks of node, wallet or callback. */
  function CallsAt(step: Step, account: Address, req: ActionRequest, world: World): seq<Call> {
    match step
    case Validate => [CallChainId]
    case ReadAllowance => ReadCall(account, req)
    case Approve =>
      if req.approval.None? then []
      else [SendApproval(req.approval.value.token, req.approval.value.spender, req.approval.value.amount)]
    case AwaitApproval => WaitCall(world.approvalSent, req)
    case RereadAllowance => ReadCall(account, req)
    case Simulate => [CallSimulate(ActionTx(account, req))]
    case Submit => [SendAction(ActionTx(account, req))]
    case AwaitReceipt => WaitCall(world.actionSent, req)
    case Reconcile => if req.reconciles then [CallReconcile] else []
    case Done => []
  }

  function ReadCall(account: Address, req: ActionRequest): seq<Call> {
    if req.approval.None? then [] else [CallAllowance(req.approval.value.token, account, req.approval.value.spender)]
  }

  function WaitCall(sent: Reply<Hash>, req: ActionRequest): seq<Call> {
    if sent.Threw? then [] else [CallWait(sent.value, req.confirmations)]
  }

  /** Step by step, what is asked during a run. */
  function CallsOf(steps: seq<Step>, account: Address, req: ActionRequest, world: World): seq<Call> {
    Flat(steps, (step: Step) => CallsAt(step, account, req, world))
  }

  lemma CallsJoin(a: seq<Step>, b: seq<Step>, account: Address, req: ActionRequest, world: World)
    ensures CallsOf(a + b, account, req, world) == CallsOf(a, account, req, world) + CallsOf(b, account, req, world)
  {
    FlatJoins(a, b, (step: Step) => CallsAt(step, account, req, world));
  }

  lemma CallsStep(a: seq<Step>, step: Step, account: Address, req: ActionRequest, world: World)
    ensures CallsOf(a + [step], account, req, world)
            == CallsOf(a, account, req, world) + CallsAt(step, account, req, world)
  {
    FlatStep(a, step, (step: Step) => CallsAt(step, account, req, world));
  }

  // ---- The run --------------------------------------------------------------------------

  const APPROVAL_STEPS: seq<Step> := [ReadAllowance, Approve, AwaitApproval, RereadAllowance]
  const ACTION_STEPS: seq<Step> := [Simulate, Submit, AwaitReceipt, Reconcile, Done]

  const DIRECT_PLAN: seq<Step> := [Validate] + ACTION_STEPS
  const SUFFICIENT_PLAN: seq<Step> := [Validate, ReadAllowance] + ACTION_STEPS
  const APPROVAL_PLAN: seq<Step> := [Validate] + APPROVAL_STEPS + ACTION_STEPS

  /** The only step sequences a run may report, whole or cut short. */
  predicate FollowsPlan(steps: seq<Step>, req: ActionRequest) {
    if req.approval.None? then steps <= DIRECT_PLAN else steps <= SUFFICIENT_PLAN || steps <= APPROVAL_PLAN
  }

  /** Calls that reach the chain, each justified by the call just before it. */
  ghost predicate Justified(calls: seq<Call>, account: Address, req: ActionRequest, world: World) {
    && (forall i :: 0 <= i < |calls| && calls[i].SendAction? ==>
          && calls[i].tx == ActionTx(account, req)
          && i > 0 && calls[i - 1] == CallSimulate(calls[i].tx) && world.simulated.Returned?)
    && (forall i :: 0 <= i < |calls| && calls[i].SendApproval? ==>
          && req.approval.Some?
          && calls[i] == SendApproval(req.approval.value.token, req.approval.value.spender, req.approval.value.amount)
          && i > 0 && calls[i - 1] == CallAllowance(req.approval.value.token, account, req.approval.value.spender)
          && world.allowance.Returned? && world.allowance.value < req.approval.value.amount)
  }

  ghost predicate AtMostOnce(calls: seq<Call>) {
    && (forall i, j :: 0 <= i < j < |calls| ==> !(calls[i].SendAction? && calls[j].SendAction?))
    && (forall i, j :: 0 <= i < j < |calls| ==> !(calls[i].SendApproval? && calls[j].SendApproval?))
  }

  function Stopped(step: Step, hash: Option<Hash>, reason: Reason): Completion {
    Resolved(LifecycleResult(false, step, hash, Some(reason)))
  }

  function ApprovalCalls(account: Address, a: Approval, confirmations: nat, world: World): seq<Call> {
    var read := CallAllowance(a.token, account, a.spender);
    [read, SendApproval(a.token, a.spender, a.amount)]
    + (if world.approvalSent.Returned? then [CallWait(world.approvalSent.value, confirmations), read] else [])
  }

  /** How many of the approval's steps are taken. */
  function ApprovalProgress(world: World, a: Approval): nat {
    if world.allowance.Threw? || a.amount <= world.allowance.value then 1
    else if world.approvalSent.Threw? then 2
    else if !Confirmed(world.approvalWait) then 3 else 4
  }

  /** Make the allowance sufficient, or stop. */
  method EnsureAllowance(world: World, account: Address, req: ActionRequest)
      returns (stop: Option<Completion>, steps: seq<Step>, calls: seq<Call>)
    requires req.approval.Some?
    ensures stop.None? <==> Sufficient(world, req.approval.value) || Topped(world, req.approval.value)
    ensures stop.Some? ==> Stops(world, steps, stop.value)
    ensures stop.None? ==> steps == if Sufficient(world, req.approval.value) then [ReadAllowance] else APPROVAL_STEPS
    ensures steps <= APPROVAL_STEPS && |steps| == ApprovalProgress(world, req.approval.value)
    ensures calls == CallsOf(steps, account, req, world)
    ensures var a := req.approval.value;
            if Short(world, a) then calls <= ApprovalCalls(account, a, req.confirmations, world) && |calls| >= 2
            else calls == [CallAllowance(a.token, account, a.spender)]
  {
    var a := req.approval.value;
    var read := CallAllowance(a.token, account, a.spender);
    steps, calls := [ReadAllowance], [read];
    CallsStep([], ReadAllowance, account, req, world);
    if world.allowance.Threw? { return Some(Raised(world.allowance.reason)), steps, calls; }
    if world.allowance.value < a.amount {
      CallsStep(steps, Approve, account, req, world);
      steps, calls := steps + [Approve], calls + [SendApproval(a.token, a.spender, a.amount)];
      if world.approvalSent.Threw? {
        return Some(Stopped(Approve, None, Rejected(world.approvalSent.reason))), steps, calls;
      }
      CallsStep(steps, AwaitApproval, account, req, world);
      steps, calls := steps + [AwaitApproval], calls + [CallWait(world.approvalSent.value, req.confirmations)];
      var outcome := WaitConfirmed(world.approvalWait);
      if outcome.WasCancelled? { return Some(Stopped(AwaitApproval, None, ApprovalCancelled)), steps, calls; }
      if outcome.WaitFailed? { return Some(Stopped(AwaitApproval, None, ConfirmError(outcome.reason))), steps, calls; }
      if !outcome.success { return Some(Stopped(AwaitApproval, None, ApprovalReverted)), steps, calls; }
      CallsStep(steps, RereadAllowance, account, req, world);
      steps, calls := steps + [RereadAllowance], calls + [read];
      if world.allowanceAgain.Threw? { return Some(Raised(world.allowanceAgain.reason)), steps, calls; }
      if world.allowanceAgain.value < a.amount {
        return Some(Stopped(RereadAllowance, None, AllowanceInsufficient)), steps, calls;
      }
    }
    return None, steps, calls;
  }

  /** A run that ends before the action: at its last step, without a hash, for a reason the step explains. */
  ghost predicate Stops(world: World, steps: seq<Step>, done: Completion) {
    && steps != []
    && match done
       case Raised(reason) => Uncaught(world, steps[|steps| - 1], reason)
       case Resolved(r) =>
         && !r.ok && r.hash.None? && r.step == steps[|steps| - 1]
         && r.reason.Some? && Explains(world, r.step, r.reason.value)
  }

  function ActionCalls(account: Address, req: ActionRequest, world: World): seq<Call> {
    [CallSimulate(ActionTx(account, req)), SendAction(ActionTx(account, req))]
    + (if world.actionSent.Returned? then [CallWait(world.actionSent.value, req.confirmations), CallReconcile] else [])
  }

  /** Simulated, sent and confirmed. */
  predicate Mined(world: World) {
    world.simulated.Returned? && world.actionSent.Returned? && Confirmed(world.actionWait)
  }

  predicate ActionDone(world: World, req: ActionRequest) {
    Mined(world) && (req.reconciles ==> world.reconciled == Returned(true))
  }

  /** How many of the action's steps are taken. */
  function Progress(world: World, req: ActionRequest): nat {
    if world.simulated.Threw? then 1
    else if world.actionSent.Threw? then 2
    else if !Confirmed(world.actionWait) then 3
    else if ActionDone(world, req) then 5 else 4
  }

  /** Simulate, submit, confirm, reconcile. */
  method Act(world: World, account: Address, req: ActionRequest)
      returns (done: LifecycleResult, steps: seq<Step>, calls: seq<Call>)
    ensures done.ok <==> ActionDone(world, req)
    ensures steps <= ACTION_STEPS && steps != [] && done.step == steps[|steps| - 1]
    ensures done.ok ==> steps == ACTION_STEPS
    ensures done.ok <==> done.reason.None?
    ensures done.hash.Some? <==> world.simulated.Returned? && world.actionSent.Returned?
    ensures done.hash.Some? ==> done.hash.value == world.actionSent.value
    ensures calls <= ActionCalls(account, req, world) && calls != []
    ensures |calls| >= 2 <==> world.simulated.Returned?
    ensures CallReconcile in calls <==> req.reconciles && Mined(world)
    ensures calls == CallsOf(steps, account, req, world)
    ensures |steps| == Progress(world, req)
    ensures !done.ok ==> Explains(world, done.step, done.reason.value)
  {
    var tx := Tx(account, req.target, req.data, match req.value case Some(v) => v case None => 0);
    steps, calls := [Simulate], [CallSimulate(tx)];
    CallsStep([], Simulate, account, req, world);
    if world.simulated.Threw? {
      return LifecycleResult(false, Simulate, None, Some(SimulationFailed(world.simulated.reason))), steps, calls;
    }
    CallsStep(steps, Submit, account, req, world);
    steps, calls := steps + [Submit], calls + [SendAction(tx)];
    if world.actionSent.Threw? {
      return LifecycleResult(false, Submit, None, Some(Rejected(world.actionSent.reason))), steps, calls;
    }
    var rest, restCalls;
    done, rest, restCalls := AwaitAction(world, account, req, world.actionSent.value);
    CallsJoin(steps, rest, account, req, world);
    steps, calls := steps + rest, calls + restCalls;
  }

  /** The part of the action after it was sent. */
  method AwaitAction(world: World, account: Address, req: ActionRequest, hash: Hash)
      returns (done: LifecycleResult, steps: seq<Step>, calls: seq<Call>)
    requires world.simulated.Returned? && world.actionSent == Returned(hash)
    ensures done.ok <==> ActionDone(world, req)
    ensures done.ok <==> done.reason.None?
    ensures !done.ok ==> Explains(world, done.step, done.reason.value)
    ensures done.hash == Some(hash)
    ensures steps <= [AwaitReceipt, Reconcile, Done] && |steps| == Progress(world, req) - 2
    ensures done.step == steps[|steps| - 1]
    ensures calls == CallsOf(steps, account, req, world)
    ensures calls <= [CallWait(hash, req.confirmations), CallReconcile]
    ensures CallReconcile in calls <==> req.reconciles && Mined(world)
  {
    steps, calls := [AwaitReceipt], [CallWait(hash, req.confirmations)];
    CallsStep([], AwaitReceipt, account, req, world);
    var outcome := WaitConfirmed(world.actionWait);
    if outcome.WasCancelled? {
      return LifecycleResult(false, AwaitReceipt, Some(hash), Some(ActionCancelled)), steps, calls;
    }
    if outcome.WaitFailed? {
      return LifecycleResult(false, AwaitReceipt, Some(hash), Some(ConfirmError(outcome.reason))), steps, calls;
    }
    if !outcome.success { return LifecycleResult(false, AwaitReceipt, Some(hash), Some(Reverted)), steps, calls; }
    CallsStep(steps, Reconcile, account, req, world);
    steps := steps + [Reconcile];
    if req.reconciles {
      calls := calls + [CallReconcile];
      var reconciled := world.reconciled.Returned? && world.reconciled.value;
      if !reconciled { return LifecycleResult(false, Reconcile, Some(hash), Some(ReconciliationFailed)), steps, calls; }
    }
    CallsStep(steps, Done, account, req, world);
    steps := steps + [Done];
    return LifecycleResult(true, Done, Some(hash), None), steps, calls;
  }

  /**
   * For every world: success is reported exactly when the world granted it, the reported steps
   * follow one of the fixed plans and end where the result says, and the chain is asked to do
   * nothing twice and nothing unjustified.
   */
  method RunActionLifecycle(world: World, account: Address, req: ActionRequest)
      returns (done: Completion, steps: seq<Step>, calls: seq<Call>)
    ensures done.Resolved? && done.result.ok <==> Succeeds(world, req)
    ensures FollowsPlan(steps, req)
    ensures done.Resolved? && done.result.ok ==>
              steps == if req.approval.None? then DIRECT_PLAN
                       else if Sufficient(world, req.approval.value) then SUFFICIENT_PLAN else APPROVAL_PLAN
    ensures done.Resolved? ==> steps != [] && done.result.step == steps[|steps| - 1]
    ensures done.Resolved? && done.result.hash.Some? ==>
              SendAction(ActionTx(account, req)) in calls && world.actionSent == Returned(done.result.hash.value)
    ensures Justified(calls, account, req, world) && AtMostOnce(calls)
    ensures SendAction(ActionTx(account, req)) in calls <==> Cleared(world, req) && world.simulated.Returned?
    ensures CallReconcile in calls <==> Cleared(world, req) && Mined(world) && req.reconciles
    ensures done.Resolved? && done.result.ok ==> done.result.hash.Some?
    ensures forall s: Step :: s in steps <==> Reaches(world, req, s)
    ensures calls == CallsOf(steps, account, req, world)
    ensures done.Resolved? ==> done.result.ok == done.result.reason.None?
    ensures done.Resolved? && !done.result.ok ==> Explains(world, done.result.step, done.result.reason.value)
    ensures done.Raised? ==> steps != [] && Uncaught(world, steps[|steps| - 1], done.reason)
    ensures done.Resolved? ==> (done.result.hash.Some? <==> AwaitReceipt in steps)
  {
    var stop;
    stop, steps, calls := Prepare(world, account, req);
    if stop.Some? { return stop.value, steps, calls; }
    var result, actionSteps, actionCalls := Act(world, account, req);
    JoinedCalls(calls, actionCalls, account, req, world);
    CallsJoin(steps, actionSteps, account, req, world);
    ActionReached(world, req, actionSteps);
    steps, calls := steps + actionSteps, calls + actionCalls;
    return Resolved(result), steps, calls;
  }

  /** Everything before the action: the chain check and, if asked for, the allowance. */
  method Prepare(world: World, account: Address, req: ActionRequest)
      returns (stop: Option<Completion>, steps: seq<Step>, calls: seq<Call>)
    ensures stop.None? <==> Cleared(world, req)
    ensures FollowsPlan(steps, req)
    ensures stop.None? ==> steps == PreparationOf(world, req)
    ensures stop.Some? ==> Stops(world, steps, stop.value)
    ensures forall s: Step :: s in steps <==> !Acting(s) && Reaches(world, req, s)
    ensures calls == CallsOf(steps, account, req, world)
    ensures Justified(calls, account, req, world) && AtMostOnce(calls) && NoAction(calls)
    ensures CallReconcile !in calls
  {
    steps, calls := [Validate], [CallChainId];
    CallsStep([], Validate, account, req, world);
    if world.chainId.Threw? { return Some(Raised(world.chainId.reason)), steps, calls; }
    if world.chainId.value != ROBINHOOD_CHAIN_ID { return Some(Stopped(Validate, None, WrongChain)), steps, calls; }
    if req.approval.None? { return None, steps, calls; }
    var approvalSteps, approvalCalls;
    stop, approvalSteps, approvalCalls := EnsureAllowance(world, account, req);
    ApprovalIsJustified(approvalCalls, account, req, world);
    ApprovalReached(world, req, approvalSteps);
    CallsJoin(steps, approvalSteps, account, req, world);
    steps, calls := steps + approvalSteps, calls + approvalCalls;
  }

  lemma ApprovalReached(world: World, req: ActionRequest, steps: seq<Step>)
    requires world.chainId == Returned(ROBINHOOD_CHAIN_ID) && req.approval.Some?
    requires steps <= APPROVAL_STEPS && |steps| == ApprovalProgress(world, req.approval.value)
    ensures forall s: Step :: s in steps <==> s != Validate && !Acting(s) && Reaches(world, req, s)
  {
    PrefixHolds(steps, APPROVAL_STEPS);
    assert APPROVAL_STEPS[0] == ReadAllowance && APPROVAL_STEPS[1] == Approve;
    assert APPROVAL_STEPS[2] == AwaitApproval && APPROVAL_STEPS[3] == RereadAllowance;
  }

  lemma ActionReached(world: World, req: ActionRequest, steps: seq<Step>)
    requires Cleared(world, req) && steps <= ACTION_STEPS && |steps| == Progress(world, req)
    ensures forall s: Step :: s in steps <==> Acting(s) && Reaches(world, req, s)
  {
    PrefixHolds(steps, ACTION_STEPS);
    assert ACTION_STEPS[0] == Simulate && ACTION_STEPS[1] == Submit && ACTION_STEPS[2] == AwaitReceipt;
    assert ACTION_STEPS[3] == Reconcile && ACTION_STEPS[4] == Done;
  }

  lemma PrefixHolds(steps: seq<Step>, plan: seq<Step>)
    requires steps <= plan && forall i, j :: 0 <= i < j < |plan| ==> plan[i] != plan[j]
    ensures forall k :: 0 <= k < |plan| ==> (plan[k] in steps <==> k < |steps|)
    ensures forall s :: s in steps ==> s in plan
  {
    forall k | 0 <= k < |plan|
      ensures plan[k] in steps <==> k < |steps|
    {
      if k < |steps| { assert steps[k] == plan[k]; }
    }
  }

  function PreparationOf(world: World, req: ActionRequest): seq<Step> {
    if req.approval.None? then [Validate]
    else if Sufficient(world, req.approval.value) then [Validate, ReadAllowance]
    else [Validate] + APPROVAL_STEPS
  }

  ghost predicate NoAction(calls: seq<Call>) {
    forall i :: 0 <= i < |calls| ==> !calls[i].SendAction?
  }

  lemma ApprovalIsJustified(calls: seq<Call>, account: Address, req: ActionRequest, world: World)
    requires req.approval.Some?
    requires var a := req.approval.value;
             if Short(world, a) then calls <= ApprovalCalls(account, a, req.confirmations, world) && |calls| >= 2
             else calls == [CallAllowance(a.token, account, a.spender)]
    ensures var all := [CallChainId] + calls; Justified(all, account, req, world) && AtMostOnce(all) && NoAction(all)
  {
  }

  lemma JoinedCalls(pre: seq<Call>, act: seq<Call>, account: Address, req: ActionRequest, world: World)
    requires Justified(pre, account, req, world) && AtMostOnce(pre) && NoAction(pre)
    requires act <= ActionCalls(account, req, world) && act != [] && (|act| >= 2 <==> world.simulated.Returned?)
    ensures var all := pre + act;
            && Justified(all, account, req, world) && AtMostOnce(all)
            && (SendAction(ActionTx(account, req)) in all <==> world.simulated.Returned?)
  {
    var all := pre + act;
    assert forall i :: 0 <= i < |act| ==> all[|pre| + i] == ActionCalls(account, req, world)[i];
    assert forall i :: |pre| <= i < |all| && all[i].SendAction? ==> i == |pre| + 1;
    assert forall i :: |pre| <= i < |all| ==> !all[i].SendApproval?;
    if world.simulated.Returned? { assert all[|pre| + 1] == SendAction(ActionTx(account, req)); }
  }

  // ---- Replaced transactions ------------------------------------------------------------

  /**
   * A transaction replaced by another one, not cancelled, whose receipt is successful: the run is ok
   * exactly when no reconcile callback is given or the callback confirms the intended state.
   */
  lemma ReplacedNeedsReconcile(world: World, req: ActionRequest)
    requires Cleared(world, req) && world.simulated.Returned? && world.actionSent.Returned?
    requires world.actionWait.ended == Returned(true)
    requires world.actionWait.notices != [] && world.actionWait.notices[|world.actionWait.notices| - 1] == Replaced
    ensures Succeeds(world, req) <==> !req.reconciles || world.reconciled == Returned(true)
  {
  }

  /** The case itself: replaced, no callback, reported as done. */
  method ReplacedReportsDone() returns (done: Completion, steps: seq<Step>, calls: seq<Call>)
    ensures done.Resolved? && done.result.ok && done.result.hash == Some(77)
    ensures steps == DIRECT_PLAN && CallReconcile !in calls
  {
    var request := ActionRequest(9, [], None, None, 2, false);
    var world := World(
      Returned(ROBINHOOD_CHAIN_ID), Returned(0), Threw(""), Wait([], Threw("")), Returned(0),
      Returned(()), Returned(77), Wait([Replaced], Returned(true)), Returned(false));
    done, steps, calls := RunActionLifecycle(world, 5, request);
  }
}
