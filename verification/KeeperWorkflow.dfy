// KeeperWorkflow (apps/x402-keeper/src/workflow.ts) as a step system. A task is one call of create,
// authorize or reconcile, stopped at an await on a dependency; every store call is one atomic step. Any
// awaited call may reject, which ends its task; so the steps also cover the SQL store, whose calls either
// do what the in-memory store does or fail.
module KeeperWorkflow {
  import opened Options
  import opened Permits
  import opened Orders

  type TaskId = nat

  datatype Terms = Terms(labelHash: Hash, namehash: Hash, recipient: Address, durationYears: nat, controller: Address,
                         releaseId: Hash, amount: nat)

  // The manifest values and the two digests in use: of a request's terms and of a payment.
  datatype Policy = Policy(keeper: Address, controller: Address, releaseId: Hash, profileHash: Hash,
                           settlementAsset: Address,
                           maxAmount: nat, digest: Terms -> Hash, sha: Payload -> Hash)

  ghost predicate Injective(p: Policy) {
    forall a, b :: p.digest(a) == p.digest(b) ==> a == b
  }

  datatype Identity = Identity(label_: string, labelHash: Hash, namehash: Hash)

  datatype Proof = Proof(
    chainId: nat,
    transactionTo: Address,
    decodedFunction: string,
    decodedLabel: string,
    decodedPermitId: Hash,
    decodedReleaseId: Hash,
    decodedNamehash: Hash,
    decodedRecipient: Address,
    decodedExecutor: Address,
    decodedAmount: nat,
    emitter: Address,
    registeredLabelHash: Hash,
    registeredOwner: Address,
    tokenId: nat,
    permitConsumedId: Hash,
    registrationEvents: nat,
    permitConsumedEvents: nat)

  datatype Receipt = Pending | Reverted | Success(proof: Proof)

  // The registration a durable order with a permit waits for, as a receipt shows it.
  function ExpectedProof(keeper: Address, q: Quote, permitId: Hash, tokenId: nat): Proof {
    Proof(CHAIN_ID, q.controller, "register", q.label_, permitId, q.releaseId, q.namehash, q.recipient, keeper,
          q.amount,
          q.controller, q.labelHash, q.recipient, tokenId, permitId, 1, 1)
  }

  predicate Proves(keeper: Address, order: Order, proof: Proof) {
    order.progress.permitId.Some?
    && proof == ExpectedProof(keeper, order.quote, order.progress.permitId.value, proof.tokenId)
  }

  datatype ProofError = ProofMismatch | TokenMismatch

  function AssertReceiptProof(keeper: Address, order: Order, proof: Proof): Result<nat, ProofError> {
    if !Proves(keeper, order, proof) then Err(ProofMismatch)
    else if proof.tokenId != order.quote.labelHash then Err(TokenMismatch)
    else Ok(proof.tokenId)
  }

  // The one permit that fits a durable order, but for its validity window.
  function ExpectedPermit(p: Policy, permitId: Hash, namehash: Hash, q: Quote, durationYears: nat, from: int,
                          until: int)
    : AgentPermit
  {
    AgentPermit(CHAIN_ID, q.controller, q.releaseId, p.profileHash, q.labelHash, namehash, q.recipient, p.keeper,
                p.keeper,
                durationYears, p.settlementAsset, q.amount, permitId, from, until)
  }

  predicate PermitFits(p: Policy, permitId: Hash, permit: AgentPermit, namehash: Hash, q: Quote, durationYears: nat) {
    && permit == ExpectedPermit(p, permitId, namehash, q, durationYears, permit.validAfter, permit.validUntil)
    && permit.validAfter <= permit.validUntil
  }

  // Each task holds the order it last read or wrote.
  datatype Task =
    | AwaitingPermit(order: Order, namehash: Hash, durationYears: nat)
    | Verifying(order: Order, payment: Payload)
    | Submitting(order: Order)
    | Receipting(order: Order)
    | Settling(order: Order)
    | Refunding(order: Order)

  // The calls that move money or names; a call may be made again for the same order.
  datatype ExternalCall =
    | Submission(id: OrderId, permit: AgentPermit, signature: Hash)
    | Settlement(id: OrderId, payment: Payload)
    | Refund(id: OrderId)

  datatype State = State(
    memory: Memory,
    tasks: map<TaskId, Task>,
    calls: set<ExternalCall>,
    receipts: set<(Hash, Receipt)>,      // receipts read, by transaction, but for pending ones
    accepted: set<(OrderId, Payload)>,   // payments that authorize did not turn away
    durations: map<OrderId, nat>,        // the duration each order was created for; the order itself has no such column
    faulted: bool)                       // a missing permit, or a null behind a non-null assertion

  const INITIAL := State(Memory(map[], map[]), map[], {}, {}, {}, map[], false)

  datatype Event =
    | Create(task: TaskId, id: OrderId, key: string, identity: Identity, recipient: Address, durationYears: nat,
             amount: nat)
    | PermitSigned(task: TaskId, permitId: Hash, permit: AgentPermit, signature: Hash)
    | Authorize(task: TaskId, id: OrderId, payment: Payload)
    | PaymentVerified(task: TaskId, valid: bool)
    | RegistrationSent(task: TaskId, txHash: Hash)
    | Reconcile(task: TaskId, id: OrderId)
    | ReceiptRead(task: TaskId, receipt: Receipt)
    | SettleAnswered(task: TaskId, success: bool, transaction: Hash)
    | RefundAnswered(task: TaskId, refunded: bool, refundTx: Option<Hash>)
    | Rejected(task: TaskId)

  function TermsOf(q: Quote, durationYears: nat): Terms {
    Terms(q.labelHash, q.namehash, q.recipient, durationYears, q.controller, q.releaseId, q.amount)
  }

  function Candidate(p: Policy, e: Event): Order
    requires e.Create?
  {
    var terms := Terms(e.identity.labelHash, e.identity.namehash, e.recipient, e.durationYears, p.controller,
                       p.releaseId, e.amount);
    Order(Quote(e.id, e.key, p.digest(terms), e.identity.label_, e.identity.labelHash, e.identity.namehash, e.recipient,
                p.controller, p.releaseId, e.amount), Quoted, BLANK)
  }

  // Order ids are fresh random values; create checks its duration and its quote before it stores anything.
  predicate Enabled(p: Policy, s: State, e: Event) {
    match e
    case Create(task, id, _, _, _, years, amount) =>
      task !in s.tasks && id !in s.memory.orders && 1 <= years <= 10 && 0 < amount <= p.maxAmount
    case Authorize(task, _, _) => task !in s.tasks
    case Reconcile(task, _) => task !in s.tasks
    case PermitSigned(task, _, _, _) => task in s.tasks && s.tasks[task].AwaitingPermit?
    case PaymentVerified(task, _) => task in s.tasks && s.tasks[task].Verifying?
    case RegistrationSent(task, _) => task in s.tasks && s.tasks[task].Submitting?
    case ReceiptRead(task, _) => task in s.tasks && s.tasks[task].Receipting?
    case SettleAnswered(task, _, _) => task in s.tasks && s.tasks[task].Settling?
    case RefundAnswered(task, _, _) => task in s.tasks && s.tasks[task].Refunding?
    case Rejected(task) => task in s.tasks
  }

  function Ended(s: State, task: TaskId): State {
    s.(tasks := s.tasks - {task})
  }

  function Awaiting(s: State, task: TaskId, next: Task): State {
    s.(tasks := s.tasks[task := next])
  }

  // The last act of a task: a transition whose result is returned, or whose conflict is thrown.
  function Move(s: State, task: TaskId, id: OrderId, from: OrderState, to: OrderState, patch: Progress): State {
    Ended(s.(memory := MemoryTransition(s.memory, id, from, to, patch).0), task)
  }

  function SubmitAuthorized(s: State, task: TaskId, order: Order): State {
    if order.progress.permitPayload.None? || order.progress.permitSignature.None? then Ended(s, task).(faulted := true)
    else
      var call := Submission(order.quote.id, order.progress.permitPayload.value, order.progress.permitSignature.value);
      Awaiting(s.(calls := s.calls + {call}), task, Submitting(order))
  }

  function AfterCreate(p: Policy, s: State, e: Event): State
    requires e.Create? && MemoryValid(s.memory)
  {
    match MemoryCreate(s.memory, Candidate(p, e))
    case (_, Err(_)) => s
    case (memory, Ok((order, idempotent))) =>
      var durations := if idempotent then s.durations else s.durations[e.id := e.durationYears];
      var stored := s.(memory := memory, durations := durations);
      if order.state != Quoted then stored
      else Awaiting(stored, e.task, AwaitingPermit(order, e.identity.namehash, e.durationYears))
  }

  function PermitPatch(permitId: Hash, permit: AgentPermit, signature: Hash): Progress {
    BLANK.(permitId := Some(permitId), permitPayload := Some(permit), permitSignature := Some(signature))
  }

  function AfterPermit(p: Policy, s: State, e: Event): State
    requires e.PermitSigned? && Enabled(p, s, e)
  {
    var t := s.tasks[e.task];
    if !PermitFits(p, e.permitId, e.permit, t.namehash, t.order.quote, t.durationYears) then Ended(s, e.task)
    else Move(s, e.task, t.order.quote.id, Quoted, PermitIssued, PermitPatch(e.permitId, e.permit, e.signature))
  }

  function AfterAuthorize(p: Policy, s: State, e: Event): State
    requires e.Authorize?
  {
    match MemoryGet(s.memory, e.id)
    case None => s
    case Some(order) =>
      if order.state in {PaymentAuthorized, RegistrationSubmitted, RegistrationConfirmed, PaymentSettled} then
        if order.progress.paymentIdentifier != Some(p.sha(e.payment)) then s
        else
          var bound := s.(accepted := s.accepted + {(e.id, e.payment)});
          if order.state == PaymentAuthorized then SubmitAuthorized(bound, e.task, order) else bound
      else if order.state != PermitIssued then s
      else Awaiting(s, e.task, Verifying(order, e.payment))
  }

  function Bound(p: Policy, payment: Payload): Progress {
    BLANK.(paymentIdentifier := Some(p.sha(payment)), paymentPayload := Some(payment))
  }

  function AfterVerified(p: Policy, s: State, e: Event): State
    requires e.PaymentVerified? && Enabled(p, s, e)
  {
    var t := s.tasks[e.task];
    if !e.valid then Ended(s, e.task)
    else
      match MemoryTransition(s.memory, t.order.quote.id, PermitIssued, PaymentAuthorized, Bound(p, t.payment))
      case (_, Err(_)) => Ended(s, e.task)
      case (memory, Ok(authorized)) =>
        SubmitAuthorized(s.(memory := memory, accepted := s.accepted + {(t.order.quote.id, t.payment)}), e.task,
                         authorized)
  }

  function SentPatch(txHash: Hash): Progress {
    BLANK.(registrationTxHash := Some(txHash))
  }

  function TokenPatch(tokenId: nat): Progress {
    BLANK.(registrationTokenId := Some(tokenId))
  }

  function FailurePatch(code: string): Progress {
    BLANK.(failureCode := Some(code))
  }

  function AfterSent(p: Policy, s: State, e: Event): State
    requires e.RegistrationSent? && Enabled(p, s, e)
  {
    Move(s, e.task, s.tasks[e.task].order.quote.id, PaymentAuthorized, RegistrationSubmitted, SentPatch(e.txHash))
  }

  function AfterReconcile(p: Policy, s: State, e: Event): State
    requires e.Reconcile?
  {
    match MemoryGet(s.memory, e.id)
    case None => s
    case Some(order) =>
      match order.state
      case PaymentAuthorized => SubmitAuthorized(s, e.task, order)
      case RegistrationSubmitted =>
        if order.progress.registrationTxHash.None? then s.(faulted := true) else Awaiting(s, e.task, Receipting(order))
      case RegistrationConfirmed =>
        if order.progress.paymentPayload.None? then s.(faulted := true)
        else
          Awaiting(s.(calls := s.calls + {Settlement(e.id, order.progress.paymentPayload.value)}), e.task,
                   Settling(order))
      case RefundPending => Awaiting(s.(calls := s.calls + {Refund(e.id)}), e.task, Refunding(order))
      case _ => s
  }

  function AfterReceipt(p: Policy, s: State, e: Event): State
    requires e.ReceiptRead? && Enabled(p, s, e)
  {
    var order := s.tasks[e.task].order;
    if order.progress.registrationTxHash.None? then s.(faulted := true)
    else if e.receipt.Pending? then Ended(s, e.task)
    else AfterReading(p, s, e.task, order, e.receipt)
  }

  function AfterReading(p: Policy, s: State, task: TaskId, order: Order, receipt: Receipt): State
    requires order.progress.registrationTxHash.Some? && !receipt.Pending?
  {
    var read := s.(receipts := s.receipts + {(order.progress.registrationTxHash.value, receipt)});
    match receipt
    case Reverted =>
      Move(read, task, order.quote.id, RegistrationSubmitted, RefundPending, FailurePatch("REGISTRATION_REVERTED"))
    case Success(proof) =>
      match AssertReceiptProof(p.keeper, order, proof)
      case Err(_) =>
        Move(read, task, order.quote.id, RegistrationSubmitted, ManualReview, FailurePatch("TOKEN_ID_NOT_PROVEN"))
      case Ok(tokenId) =>
        Move(read, task, order.quote.id, RegistrationSubmitted, RegistrationConfirmed, TokenPatch(tokenId))
  }

  function AfterSettle(p: Policy, s: State, e: Event): State
    requires e.SettleAnswered? && Enabled(p, s, e)
  {
    var id := s.tasks[e.task].order.quote.id;
    if !e.success then
      Move(s, e.task, id, RegistrationConfirmed, ManualReview, FailurePatch("SETTLEMENT_FAILED_AFTER_REGISTRATION"))
    else
      Move(s, e.task, id, RegistrationConfirmed, PaymentSettled, BLANK.(settlementTxHash := Some(e.transaction)))
  }

  function AfterRefund(p: Policy, s: State, e: Event): State
    requires e.RefundAnswered? && Enabled(p, s, e)
  {
    if !e.refunded then Ended(s, e.task)
    else Move(s, e.task, s.tasks[e.task].order.quote.id, RefundPending, Refunded, BLANK.(refundTxHash := e.refundTx))
  }

  function Next(p: Policy, s: State, e: Event): State
    requires MemoryValid(s.memory) && Enabled(p, s, e)
  {
    match e
    case Create(_, _, _, _, _, _, _) => AfterCreate(p, s, e)
    case PermitSigned(_, _, _, _) => AfterPermit(p, s, e)
    case Authorize(_, _, _) => AfterAuthorize(p, s, e)
    case PaymentVerified(_, _) => AfterVerified(p, s, e)
    case RegistrationSent(_, _) => AfterSent(p, s, e)
    case Reconcile(_, _) => AfterReconcile(p, s, e)
    case ReceiptRead(_, _) => AfterReceipt(p, s, e)
    case SettleAnswered(_, _, _) => AfterSettle(p, s, e)
    case RefundAnswered(_, _, _) => AfterRefund(p, s, e)
    case Rejected(task) => Ended(s, task)
  }

  ghost predicate Step(p: Policy, s: State, e: Event, s': State) {
    MemoryValid(s.memory) && Enabled(p, s, e) && s' == Next(p, s, e)
  }
}
