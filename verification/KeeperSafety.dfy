// What every step of the keeper keeps, and what holds over whole runs.
module KeeperSafety {
  import opened Options
  import opened Permits
  import opened Orders
  import opened KeeperWorkflow

  // ---- one order over time ----

  function Rank(state: OrderState): nat {
    match state
    case Quoted => 0
    case PermitIssued => 1
    case PaymentAuthorized => 2
    case RegistrationSubmitted => 3
    case RegistrationConfirmed => 4
    case RefundPending => 4
    case PaymentSettled => 5
    case Refunded => 5
    case ManualReview => 5
  }

  predicate Held<T(==)>(a: Option<T>, b: Option<T>) {
    a.None? || a == b
  }

  // No field is unset or overwritten.
  predicate Kept(a: Progress, b: Progress) {
    && Held(a.permitId, b.permitId)
    && Held(a.permitPayload, b.permitPayload)
    && Held(a.permitSignature, b.permitSignature)
    && Held(a.paymentIdentifier, b.paymentIdentifier)
    && Held(a.paymentPayload, b.paymentPayload)
    && Held(a.registrationTxHash, b.registrationTxHash)
    && Held(a.registrationTokenId, b.registrationTokenId)
    && Held(a.settlementTxHash, b.settlementTxHash)
    && Held(a.refundTxHash, b.refundTxHash)
    && Held(a.failureCode, b.failureCode)
  }

  predicate Later(a: Order, b: Order) {
    a == b || (a.quote == b.quote && Rank(a.state) < Rank(b.state) && Kept(a.progress, b.progress))
  }

  // ---- the fields each state needs ----

  predicate HasPermit(p: Policy, o: Order, years: nat) {
    && o.progress.permitId.Some? && o.progress.permitPayload.Some? && o.progress.permitSignature.Some?
    && PermitFits(p, o.progress.permitId.value, o.progress.permitPayload.value, o.quote.namehash, o.quote, years)
  }

  predicate HasPayment(p: Policy, o: Order) {
    && o.progress.paymentPayload.Some?
    && o.progress.paymentIdentifier == Some(p.sha(o.progress.paymentPayload.value))
  }

  ghost predicate WasRead(receipts: set<(Hash, Receipt)>, o: Order, receipt: Receipt) {
    o.progress.registrationTxHash.Some? && (o.progress.registrationTxHash.value, receipt) in receipts
  }

  // The registration was seen: one receipt read for the recorded transaction proves it for this order.
  ghost predicate IsConfirmed(p: Policy, receipts: set<(Hash, Receipt)>, o: Order) {
    && o.progress.registrationTokenId == Some(o.quote.labelHash)
    && (exists proof :: WasRead(receipts, o, Success(proof)) && Proves(p.keeper, o, proof)
                        && proof.tokenId == o.quote.labelHash)
  }

  // A successful receipt was read for the recorded transaction, and it does not prove the registration.
  ghost predicate IsDoubtful(p: Policy, receipts: set<(Hash, Receipt)>, o: Order) {
    exists proof :: WasRead(receipts, o, Success(proof)) && AssertReceiptProof(p.keeper, o, proof).Err?
  }

  // The receipt proved the registration on the way to this state.
  predicate PassedProof(o: Order) {
    o.state in {RegistrationConfirmed, PaymentSettled}
    || (o.state == ManualReview && o.progress.failureCode == Some("SETTLEMENT_FAILED_AFTER_REGISTRATION"))
  }

  function FailureCodes(state: OrderState): set<Option<string>> {
    match state
    case RefundPending => {Some("REGISTRATION_REVERTED")}
    case Refunded => {Some("REGISTRATION_REVERTED")}
    case ManualReview => {Some("TOKEN_ID_NOT_PROVEN"), Some("SETTLEMENT_FAILED_AFTER_REGISTRATION")}
    case _ => {None}
  }

  // The fields of an order whose payment is authorized.
  ghost predicate Recorded(p: Policy, receipts: set<(Hash, Receipt)>, o: Order) {
    && (o.progress.registrationTxHash.Some? <==> o.state != PaymentAuthorized)
    && (o.progress.settlementTxHash.Some? <==> o.state == PaymentSettled)
    && (o.progress.refundTxHash.Some? ==> o.state == Refunded)
    && o.progress.failureCode in FailureCodes(o.state)
    && (if PassedProof(o) then IsConfirmed(p, receipts, o) else o.progress.registrationTokenId.None?)
    && (o.state in {RefundPending, Refunded} ==> WasRead(receipts, o, Reverted))
    && (o.state == ManualReview ==> PassedProof(o) || IsDoubtful(p, receipts, o))
  }

  // Exactly the fields that a stored order of each state has.
  ghost predicate Shape(p: Policy, receipts: set<(Hash, Receipt)>, years: nat, o: Order) {
    || (o.state == Quoted && o.progress == BLANK)
    || (o.state == PermitIssued && HasPermit(p, o, years)
        && o.progress == BLANK.(permitId := o.progress.permitId, permitPayload := o.progress.permitPayload,
                                permitSignature := o.progress.permitSignature))
    || (o.state !in {Quoted, PermitIssued} && HasPermit(p, o, years) && HasPayment(p, o) && Recorded(p, receipts, o))
  }

  // ---- the invariant ----

  // The terms create checks before it stores an order.
  predicate WithinPolicy(p: Policy, q: Quote, years: nat) {
    0 < q.amount <= p.maxAmount && 1 <= years <= 10 && q.controller == p.controller && q.releaseId == p.releaseId
  }

  ghost predicate StoredWell(p: Policy, s: State, id: OrderId)
    requires id in s.memory.orders
  {
    && id in s.durations
    && WithinPolicy(p, s.memory.orders[id].quote, s.durations[id])
    && p.digest(TermsOf(s.memory.orders[id].quote, s.durations[id])) == s.memory.orders[id].quote.fingerprint
    && Shape(p, s.receipts, s.durations[id], s.memory.orders[id])
  }

  ghost predicate AllStoredWell(p: Policy, s: State) {
    forall id <- s.memory.orders :: StoredWell(p, s, id)
  }

  // What a task read is a past value of the stored order.
  ghost predicate Read(p: Policy, s: State, o: Order) {
    && o.quote.id in s.memory.orders
    && o.quote.id in s.durations
    && Later(o, s.memory.orders[o.quote.id])
    && Shape(p, s.receipts, s.durations[o.quote.id], o)
  }

  ghost predicate ReadIn(p: Policy, s: State, o: Order, state: OrderState) {
    Read(p, s, o) && o.state == state
  }

  ghost predicate TaskWell(p: Policy, s: State, t: Task) {
    || (t.AwaitingPermit? && ReadIn(p, s, t.order, Quoted)
        && t.namehash == t.order.quote.namehash && t.durationYears == s.durations[t.order.quote.id])
    || (t.Verifying? && ReadIn(p, s, t.order, PermitIssued))
    || (t.Submitting? && ReadIn(p, s, t.order, PaymentAuthorized))
    || (t.Receipting? && ReadIn(p, s, t.order, RegistrationSubmitted))
    || (t.Settling? && ReadIn(p, s, t.order, RegistrationConfirmed))
    || (t.Refunding? && ReadIn(p, s, t.order, RefundPending))
  }

  // Each external call rests on recorded fields of its order.
  ghost predicate CallBacked(s: State, c: ExternalCall) {
    && c.id in s.memory.orders
    && var progress := s.memory.orders[c.id].progress;
       || (c.Submission? && progress.permitPayload == Some(c.permit) && progress.permitSignature == Some(c.signature))
       || (c.Settlement? && progress.paymentPayload == Some(c.payment) && progress.registrationTokenId.Some?)
       || (c.Refund? && progress.failureCode == Some("REGISTRATION_REVERTED"))
  }

  // A payment that was not turned away is the one its order is bound to.
  ghost predicate IsBound(p: Policy, s: State, a: (OrderId, Payload)) {
    a.0 in s.memory.orders && s.memory.orders[a.0].progress.paymentIdentifier == Some(p.sha(a.1))
  }

  ghost predicate Kinds(s: State) {
    MemoryValid(s.memory) && s.durations.Keys == s.memory.orders.Keys
  }

  ghost predicate Inv(p: Policy, s: State) {
    && Kinds(s)
    && AllStoredWell(p, s)
    && (forall t <- s.tasks :: TaskWell(p, s, s.tasks[t]))
    && (forall c <- s.calls :: CallBacked(s, c))
    && (forall a <- s.accepted :: IsBound(p, s, a))
    && !s.faulted
  }

  // ---- steps only move orders forward ----

  ghost predicate Grows(s: State, s': State) {
    && s.receipts <= s'.receipts
    && (forall id <- s.memory.orders :: id in s'.memory.orders && Later(s.memory.orders[id], s'.memory.orders[id]))
    && (forall id <- s.durations :: id in s'.durations && s'.durations[id] == s.durations[id])
  }

  lemma ShapeStays(p: Policy, receipts: set<(Hash, Receipt)>, receipts': set<(Hash, Receipt)>, years: nat, o: Order)
    requires receipts <= receipts' && Shape(p, receipts, years, o)
    ensures Shape(p, receipts', years, o)
  {
    if IsConfirmed(p, receipts, o) { ConfirmedStays(p, receipts, receipts', o, o); }
    if IsDoubtful(p, receipts, o) {
      var proof :| WasRead(receipts, o, Success(proof)) && AssertReceiptProof(p.keeper, o, proof).Err?;
      assert WasRead(receipts', o, Success(proof));
    }
  }

  lemma ConfirmedStays(p: Policy, receipts: set<(Hash, Receipt)>, receipts': set<(Hash, Receipt)>, a: Order, b: Order)
    requires IsConfirmed(p, receipts, a) && receipts <= receipts' && a.quote == b.quote && Kept(a.progress, b.progress)
    ensures IsConfirmed(p, receipts', b)
  {
    var proof :| WasRead(receipts, a, Success(proof)) && Proves(p.keeper, a, proof)
                 && proof.tokenId == a.quote.labelHash;
    assert WasRead(receipts', b, Success(proof)) && Proves(p.keeper, b, proof);
  }

  lemma ReadStays(p: Policy, s: State, s': State, o: Order)
    requires Grows(s, s') && Read(p, s, o)
    ensures Read(p, s', o)
  {
    ShapeStays(p, s.receipts, s'.receipts, s.durations[o.quote.id], o);
  }

  lemma TaskStays(p: Policy, s: State, s': State, t: Task)
    requires Grows(s, s') && TaskWell(p, s, t)
    ensures TaskWell(p, s', t)
  {
    ReadStays(p, s, s', t.order);
  }

  lemma TasksStay(p: Policy, s: State, s': State)
    requires Grows(s, s') && (forall t <- s.tasks :: TaskWell(p, s, s.tasks[t]))
    ensures forall t <- s.tasks :: TaskWell(p, s', s.tasks[t])
  {
    forall t <- s.tasks ensures TaskWell(p, s', s.tasks[t]) { TaskStays(p, s, s', s.tasks[t]); }
  }

  lemma CallStays(s: State, s': State, c: ExternalCall)
    requires Grows(s, s') && CallBacked(s, c)
    ensures CallBacked(s', c)
  {
  }

  lemma BoundStays(p: Policy, s: State, s': State, a: (OrderId, Payload))
    requires Grows(s, s') && IsBound(p, s, a)
    ensures IsBound(p, s', a)
  {
  }

  // Tasks and calls that a step leaves alone stay well.
  lemma CarriedOver(p: Policy, s: State, s': State)
    requires Inv(p, s) && Grows(s, s')
    ensures forall t <- s.tasks :: TaskWell(p, s', s.tasks[t])
    ensures forall c <- s.calls :: CallBacked(s', c)
    ensures forall a <- s.accepted :: IsBound(p, s', a)
  {
    TasksStay(p, s, s');
    forall a <- s.accepted ensures IsBound(p, s', a) { BoundStays(p, s, s', a); }
    forall c <- s.calls ensures CallBacked(s', c) { CallStays(s, s', c); }
  }

  // The compare-and-swap only succeeds on exactly the order that was read: states never come back.
  lemma NoReturn(p: Policy, s: State, o: Order)
    requires Read(p, s, o) && s.memory.orders[o.quote.id].state == o.state
    ensures s.memory.orders[o.quote.id] == o
  {
  }

  lemma ProgressKeepsMemoryValid(m: Memory, id: OrderId, next: Order)
    requires MemoryValid(m) && id in m.orders && next.quote == m.orders[id].quote
    ensures MemoryValid(m.(orders := m.orders[id := next]))
  {
  }

  lemma StaysWell(p: Policy, s: State, s': State, id: OrderId)
    requires id in s.memory.orders && StoredWell(p, s, id) && s.receipts <= s'.receipts
    requires id in s'.memory.orders && s'.memory.orders[id] == s.memory.orders[id]
    requires id in s'.durations && s'.durations[id] == s.durations[id]
    ensures StoredWell(p, s', id)
  {
    ShapeStays(p, s.receipts, s'.receipts, s.durations[id], s.memory.orders[id]);
  }

  // One order moves forward into a shape of its new state.
  lemma OneOrderMoves(p: Policy, s: State, s': State, o: Order, next: Order)
    requires Kinds(s) && AllStoredWell(p, s)
    requires o.quote.id in s.memory.orders && s.memory.orders[o.quote.id] == o
    requires s.receipts <= s'.receipts && s'.durations == s.durations
    requires s'.memory == s.memory.(orders := s.memory.orders[o.quote.id := next])
    requires Advances(p, s'.receipts, s.durations[o.quote.id], o, next)
    ensures Kinds(s') && Grows(s, s') && AllStoredWell(p, s')
  {
    ProgressKeepsMemoryValid(s.memory, o.quote.id, next);
    OthersStayWell(p, s, s', o, next);
    GrowsByOne(s, s', o, next);
  }

  lemma GrowsByOne(s: State, s': State, o: Order, next: Order)
    requires o.quote.id in s.memory.orders && s.memory.orders[o.quote.id] == o && Later(o, next)
    requires s.receipts <= s'.receipts && s'.durations == s.durations
    requires s'.memory.orders == s.memory.orders[o.quote.id := next]
    ensures Grows(s, s') && s'.memory.orders.Keys == s.memory.orders.Keys
  {
  }

  lemma OthersStayWell(p: Policy, s: State, s': State, o: Order, next: Order)
    requires AllStoredWell(p, s) && o.quote.id in s.memory.orders && s.memory.orders[o.quote.id] == o
    requires s.receipts <= s'.receipts && s'.durations == s.durations
    requires s'.memory.orders == s.memory.orders[o.quote.id := next] && o.quote == next.quote
    requires o.quote.id in s.durations && Shape(p, s'.receipts, s.durations[o.quote.id], next)
    ensures AllStoredWell(p, s')
  {
    assert StoredWell(p, s, o.quote.id);
    forall id | id in s'.memory.orders && id != o.quote.id ensures StoredWell(p, s', id) { StaysWell(p, s, s', id); }
  }

  lemma NothingMoves(p: Policy, s: State, s': State)
    requires Kinds(s) && AllStoredWell(p, s)
    requires s'.memory == s.memory && s'.durations == s.durations && s.receipts <= s'.receipts
    ensures Kinds(s') && Grows(s, s') && AllStoredWell(p, s')
  {
    forall id <- s'.memory.orders ensures StoredWell(p, s', id) { StaysWell(p, s, s', id); }
  }

  // The tasks and calls of s' are those of s, one of each aside.
  lemma Regained(p: Policy, s: State, s': State, task: TaskId)
    requires Inv(p, s) && Grows(s, s') && Kinds(s') && AllStoredWell(p, s')
    requires s'.tasks - {task} == s.tasks - {task} && (task in s'.tasks ==> TaskWell(p, s', s'.tasks[task]))
    requires forall c <- s'.calls :: c in s.calls || CallBacked(s', c)
    requires s'.accepted == s.accepted && !s'.faulted
    ensures Inv(p, s')
  {
    CarriedOver(p, s, s');
    forall t <- s'.tasks ensures TaskWell(p, s', s'.tasks[t]) {
      if t != task { assert t in s'.tasks - {task} && s'.tasks[t] == (s'.tasks - {task})[t] == s.tasks[t]; }
    }
  }

  // A move of the workflow: the order goes forward and has the shape of its new state.
  ghost predicate Advances(p: Policy, receipts: set<(Hash, Receipt)>, years: nat, o: Order, next: Order) {
    Later(o, next) && Shape(p, receipts, years, next)
  }

  function Patched(o: Order, to: OrderState, patch: Progress): Order {
    Order(o.quote, to, Assign(o.progress, patch))
  }

  lemma PermitMove(p: Policy, receipts: set<(Hash, Receipt)>, years: nat, o: Order, permitId: Hash, permit: AgentPermit,
                   signature: Hash)
    requires o.state == Quoted && Shape(p, receipts, years, o)
    requires PermitFits(p, permitId, permit, o.quote.namehash, o.quote, years)
    ensures Advances(p, receipts, years, o, Patched(o, PermitIssued, PermitPatch(permitId, permit, signature)))
  {
  }

  lemma PaymentMove(p: Policy, receipts: set<(Hash, Receipt)>, years: nat, o: Order, payment: Payload)
    requires o.state == PermitIssued && Shape(p, receipts, years, o)
    ensures Advances(p, receipts, years, o, Patched(o, PaymentAuthorized, Bound(p, payment)))
  {
  }

  lemma SentMove(p: Policy, receipts: set<(Hash, Receipt)>, years: nat, o: Order, txHash: Hash)
    requires o.state == PaymentAuthorized && Shape(p, receipts, years, o)
    ensures Advances(p, receipts, years, o, Patched(o, RegistrationSubmitted, SentPatch(txHash)))
  {
  }

  lemma RevertedMove(p: Policy, receipts: set<(Hash, Receipt)>, years: nat, o: Order)
    requires o.state == RegistrationSubmitted && Shape(p, receipts, years, o) && WasRead(receipts, o, Reverted)
    ensures Advances(p, receipts, years, o, Patched(o, RefundPending, FailurePatch("REGISTRATION_REVERTED")))
  {
  }

  lemma ProofMove(p: Policy, receipts: set<(Hash, Receipt)>, years: nat, o: Order, proof: Proof)
    requires o.state == RegistrationSubmitted && Shape(p, receipts, years, o) && WasRead(receipts, o, Success(proof))
    ensures match AssertReceiptProof(p.keeper, o, proof)
            case Ok(tokenId) => Advances(p, receipts, years, o, Patched(o, RegistrationConfirmed, TokenPatch(tokenId)))
            case Err(_) =>
              Advances(p, receipts, years, o, Patched(o, ManualReview, FailurePatch("TOKEN_ID_NOT_PROVEN")))
  {
    var r := AssertReceiptProof(p.keeper, o, proof);
    var next := if r.Ok? then Patched(o, RegistrationConfirmed, TokenPatch(r.value))
                else Patched(o, ManualReview, FailurePatch("TOKEN_ID_NOT_PROVEN"));
    assert WasRead(receipts, next, Success(proof));
    if r.Ok? { assert Proves(p.keeper, next, proof); } else { assert AssertReceiptProof(p.keeper, next, proof).Err?; }
  }

  lemma SettledMove(p: Policy, receipts: set<(Hash, Receipt)>, years: nat, o: Order, to: OrderState, patch: Progress)
    requires o.state == RegistrationConfirmed && Shape(p, receipts, years, o)
    requires || (to == PaymentSettled && patch.settlementTxHash.Some?
                 && patch == BLANK.(settlementTxHash := patch.settlementTxHash))
             || (to == ManualReview && patch == FailurePatch("SETTLEMENT_FAILED_AFTER_REGISTRATION"))
    ensures Advances(p, receipts, years, o, Patched(o, to, patch))
  {
    ConfirmedStays(p, receipts, receipts, o, Patched(o, to, patch));
  }

  lemma RefundMove(p: Policy, receipts: set<(Hash, Receipt)>, years: nat, o: Order, refundTx: Option<Hash>)
    requires o.state == RefundPending && Shape(p, receipts, years, o)
    ensures Advances(p, receipts, years, o, Patched(o, Refunded, BLANK.(refundTxHash := refundTx)))
  {
  }

  // A final transition of a task that read o.
  lemma MoveKeeps(p: Policy, s: State, s': State, task: TaskId, o: Order, to: OrderState, patch: Progress)
    requires Inv(p, s) && Read(p, s, o) && s.receipts <= s'.receipts
    requires s' == Move(s.(receipts := s'.receipts), task, o.quote.id, o.state, to, patch)
    requires Advances(p, s'.receipts, s.durations[o.quote.id], o, Patched(o, to, patch))
    ensures Inv(p, s') && Grows(s, s')
  {
    MovedOrder(p, s, s', o, Patched(o, to, patch), patch);
    Regained(p, s, s', task);
  }

  lemma MovedOrder(p: Policy, s: State, s': State, o: Order, next: Order, patch: Progress)
    requires Inv(p, s) && Read(p, s, o)
    requires s.receipts <= s'.receipts && s'.durations == s.durations
    requires s'.memory == MemoryTransition(s.memory, o.quote.id, o.state, next.state, patch).0
    requires next == Patched(o, next.state, patch) && Advances(p, s'.receipts, s.durations[o.quote.id], o, next)
    ensures Kinds(s') && Grows(s, s') && AllStoredWell(p, s')
  {
    if next.state in AllowedTransitions(o.state) && s.memory.orders[o.quote.id].state == o.state {
      NoReturn(p, s, o);
      OneOrderMoves(p, s, s', o, next);
    } else {
      NothingMoves(p, s, s');
    }
  }

  lemma EndKeeps(p: Policy, s: State, s': State, task: TaskId)
    requires Inv(p, s) && s' == Ended(s, task)
    ensures Inv(p, s') && Grows(s, s')
  {
    NothingMoves(p, s, s');
    Regained(p, s, s', task);
  }

  // A new task on an order just read, with or without a call for it.
  lemma AwaitKeeps(p: Policy, s: State, s': State, task: TaskId, next: Task)
    requires Inv(p, s) && TaskWell(p, s, next)
    requires s' == Awaiting(s.(calls := s'.calls), task, next)
    requires forall c <- s'.calls :: c in s.calls || CallBacked(s, c)
    ensures Inv(p, s') && Grows(s, s')
  {
    NothingMoves(p, s, s');
    AwaitedTasks(p, s, s', task, next);
    AwaitedCalls(s, s');
    forall a <- s'.accepted ensures IsBound(p, s', a) { BoundStays(p, s, s', a); }
  }

  lemma AwaitedTasks(p: Policy, s: State, s': State, task: TaskId, next: Task)
    requires Grows(s, s') && (forall t <- s.tasks :: TaskWell(p, s, s.tasks[t])) && TaskWell(p, s, next)
    requires s'.tasks == s.tasks[task := next]
    ensures forall t <- s'.tasks :: TaskWell(p, s', s'.tasks[t])
  {
    forall t <- s'.tasks ensures TaskWell(p, s', s'.tasks[t]) { TaskStays(p, s, s', s'.tasks[t]); }
  }

  lemma AwaitedCalls(s: State, s': State)
    requires Grows(s, s') && (forall c <- s'.calls :: CallBacked(s, c))
    ensures forall c <- s'.calls :: CallBacked(s', c)
  {
    forall c <- s'.calls ensures CallBacked(s', c) { CallStays(s, s', c); }
  }

  lemma StoredIsRead(p: Policy, s: State, id: OrderId)
    requires Inv(p, s) && id in s.memory.orders
    ensures Read(p, s, s.memory.orders[id]) && s.memory.orders[id].quote.id == id
  {
    assert StoredWell(p, s, id);
  }

  lemma SubmitKeeps(p: Policy, s: State, s': State, task: TaskId, o: Order)
    requires Inv(p, s) && Read(p, s, o) && o.state == PaymentAuthorized && s' == SubmitAuthorized(s, task, o)
    ensures Inv(p, s') && Grows(s, s')
  {
    AwaitKeeps(p, s, s', task, Submitting(o));
  }

  // An existing key is matched by fingerprint, so the caller's terms are those of the stored order.
  lemma CreateKeeps(p: Policy, s: State, e: Event, s': State)
    requires Injective(p) && Inv(p, s) && e.Create? && Enabled(p, s, e) && s' == AfterCreate(p, s, e)
    ensures Inv(p, s') && Grows(s, s')
  {
    var o := Candidate(p, e);
    if e.key in s.memory.byIdempotency {
      var existing := s.memory.orders[s.memory.byIdempotency[e.key]];
      if existing.quote.fingerprint == o.quote.fingerprint && existing.state == Quoted {
        SameTerms(p, s, existing, o.quote, e.durationYears);
        AwaitKeeps(p, s, s', e.task, AwaitingPermit(existing, e.identity.namehash, e.durationYears));
      }
    } else {
      CreatedMemory(s, s', o, e.durationYears);
      NewOrderIsWell(p, s, s', o, e.durationYears);
      CreatedKeeps(p, s, s', e.task, AwaitingPermit(o, e.identity.namehash, e.durationYears));
    }
  }

  lemma CreatedKeeps(p: Policy, s: State, s': State, task: TaskId, t: Task)
    requires Inv(p, s) && Grows(s, s') && Kinds(s') && AllStoredWell(p, s')
    requires t.AwaitingPermit? && t.order.state == Quoted && t.namehash == t.order.quote.namehash
    requires t.order.quote.id in s'.memory.orders && s'.memory.orders[t.order.quote.id] == t.order
    requires t.order.quote.id in s'.durations && t.durationYears == s'.durations[t.order.quote.id]
    requires s'.tasks == s.tasks[task := t] && s'.calls == s.calls && s'.accepted == s.accepted && !s'.faulted
    ensures Inv(p, s')
  {
    StoredTaskIsWell(p, s', t);
    CarriedOver(p, s, s');
  }

  lemma SameTerms(p: Policy, s: State, existing: Order, q: Quote, years: nat)
    requires Injective(p) && Inv(p, s)
    requires existing.quote.id in s.memory.orders && s.memory.orders[existing.quote.id] == existing
    requires existing.quote.fingerprint == p.digest(TermsOf(q, years))
    ensures Read(p, s, existing)
    ensures existing.quote.namehash == q.namehash && s.durations[existing.quote.id] == years
  {
    StoredIsRead(p, s, existing.quote.id);
    assert TermsOf(existing.quote, s.durations[existing.quote.id]) == TermsOf(q, years);
  }

  lemma StoredTaskIsWell(p: Policy, s: State, t: Task)
    requires AllStoredWell(p, s) && t.AwaitingPermit? && t.order.state == Quoted && t.order.quote.id in s.memory.orders
    requires s.memory.orders[t.order.quote.id] == t.order
    requires t.order.quote.id in s.durations && t.namehash == t.order.quote.namehash
    requires t.durationYears == s.durations[t.order.quote.id]
    ensures TaskWell(p, s, t)
  {
    assert StoredWell(p, s, t.order.quote.id);
  }

  lemma NewOrderIsWell(p: Policy, s: State, s': State, o: Order, years: nat)
    requires AllStoredWell(p, s) && o.quote.id !in s.memory.orders && s'.receipts == s.receipts
    requires s'.memory.orders == s.memory.orders[o.quote.id := o] && s'.durations == s.durations[o.quote.id := years]
    requires o.state == Quoted && o.progress == BLANK && o.quote.fingerprint == p.digest(TermsOf(o.quote, years))
    requires WithinPolicy(p, o.quote, years)
    ensures AllStoredWell(p, s')
  {
    forall id | id in s'.memory.orders && id != o.quote.id ensures StoredWell(p, s', id) {
      assert StoredWell(p, s, id);
      StaysWell(p, s, s', id);
    }
    assert StoredWell(p, s', o.quote.id);
  }

  lemma CreatedMemory(s: State, s': State, o: Order, years: nat)
    requires Kinds(s) && o.quote.id !in s.memory.orders && o.quote.idempotencyKey !in s.memory.byIdempotency
    requires s'.memory == MemoryCreate(s.memory, o).0 && s'.durations == s.durations[o.quote.id := years]
    requires s'.receipts == s.receipts
    ensures s'.memory.orders == s.memory.orders[o.quote.id := o]
    ensures Kinds(s') && Grows(s, s')
  {
    InsertKeepsValid(s.memory, o);
    GrowsByNew(s, s', o, years);
  }

  lemma GrowsByNew(s: State, s': State, o: Order, years: nat)
    requires o.quote.id !in s.memory.orders && s.durations.Keys == s.memory.orders.Keys
    requires s'.memory.orders == s.memory.orders[o.quote.id := o] && s'.durations == s.durations[o.quote.id := years]
    requires s'.receipts == s.receipts
    ensures Grows(s, s') && s'.durations.Keys == s'.memory.orders.Keys
  {
  }

  lemma TaskReads(p: Policy, s: State, task: TaskId)
    requires Inv(p, s) && task in s.tasks
    ensures var t := s.tasks[task];
            ReadIn(p, s, t.order, match t
                                  case AwaitingPermit(_, _, _) => Quoted
                                  case Verifying(_, _) => PermitIssued
                                  case Submitting(_) => PaymentAuthorized
                                  case Receipting(_) => RegistrationSubmitted
                                  case Settling(_) => RegistrationConfirmed
                                  case Refunding(_) => RefundPending)
  {
    assert TaskWell(p, s, s.tasks[task]);
  }

  lemma PermitKeeps(p: Policy, s: State, e: Event, s': State)
    requires Inv(p, s) && e.PermitSigned? && Enabled(p, s, e) && s' == AfterPermit(p, s, e)
    ensures Inv(p, s') && Grows(s, s')
  {
    var t := s.tasks[e.task];
    TaskReads(p, s, e.task);
    if PermitFits(p, e.permitId, e.permit, t.namehash, t.order.quote, t.durationYears) {
      PermitMove(p, s.receipts, t.durationYears, t.order, e.permitId, e.permit, e.signature);
      MoveKeeps(p, s, s', e.task, t.order, PermitIssued, PermitPatch(e.permitId, e.permit, e.signature));
    } else {
      EndKeeps(p, s, s', e.task);
    }
  }

  lemma AcceptKeeps(p: Policy, s: State, s': State, a: (OrderId, Payload))
    requires Inv(p, s) && s' == s.(accepted := s.accepted + {a}) && IsBound(p, s, a)
    ensures Inv(p, s') && Grows(s, s')
  {
    NothingMoves(p, s, s');
    CarriedOver(p, s, s');
  }

  lemma AuthorizeKeeps(p: Policy, s: State, e: Event, s': State)
    requires Inv(p, s) && e.Authorize? && Enabled(p, s, e) && s' == AfterAuthorize(p, s, e)
    ensures Inv(p, s') && Grows(s, s')
  {
    if e.id in s.memory.orders {
      var o := s.memory.orders[e.id];
      StoredIsRead(p, s, e.id);
      if o.state in {PaymentAuthorized, RegistrationSubmitted, RegistrationConfirmed, PaymentSettled} {
        if o.progress.paymentIdentifier == Some(p.sha(e.payment)) {
          var bound := s.(accepted := s.accepted + {(e.id, e.payment)});
          AcceptKeeps(p, s, bound, (e.id, e.payment));
          if o.state == PaymentAuthorized {
            StoredIsRead(p, bound, e.id);
            SubmitKeeps(p, bound, s', e.task, o);
          }
        }
      } else if o.state == PermitIssued {
        AwaitKeeps(p, s, s', e.task, Verifying(o, e.payment));
      }
    }
  }

  lemma VerifiedKeeps(p: Policy, s: State, e: Event, s': State)
    requires Inv(p, s) && e.PaymentVerified? && Enabled(p, s, e) && s' == AfterVerified(p, s, e)
    ensures Inv(p, s') && Grows(s, s')
  {
    var t := s.tasks[e.task];
    TaskReads(p, s, e.task);
    var o := t.order;
    if e.valid && s.memory.orders[o.quote.id].state == o.state {
      var next := Patched(o, PaymentAuthorized, Bound(p, t.payment));
      PaymentMove(p, s.receipts, s.durations[o.quote.id], o, t.payment);
      NoReturn(p, s, o);
      PaymentStored(p, s, s', e.task, o, next, t.payment);
    } else {
      EndKeeps(p, s, s', e.task);
    }
  }

  lemma PaymentStored(p: Policy, s: State, s': State, task: TaskId, o: Order, next: Order, payment: Payload)
    requires Inv(p, s) && Read(p, s, o) && s.memory.orders[o.quote.id] == o
             && next == Patched(o, PaymentAuthorized, Bound(p, payment))
    requires Advances(p, s.receipts, s.durations[o.quote.id], o, next)
    requires s' == SubmitAuthorized(s.(memory := s.memory.(orders := s.memory.orders[o.quote.id := next]),
                                       accepted := s.accepted + {(o.quote.id, payment)}), task, next)
    ensures Inv(p, s') && Grows(s, s')
  {
    var stored := s.(memory := s.memory.(orders := s.memory.orders[o.quote.id := next]));
    OneOrderMoves(p, s, stored, o, next);
    CarriedOver(p, s, stored);
    var bound := stored.(accepted := s.accepted + {(o.quote.id, payment)});
    AcceptKeeps(p, stored, bound, (o.quote.id, payment));
    StoredIsRead(p, bound, o.quote.id);
    SubmitKeeps(p, bound, s', task, next);
  }

  lemma SentKeeps(p: Policy, s: State, e: Event, s': State)
    requires Inv(p, s) && e.RegistrationSent? && Enabled(p, s, e) && s' == AfterSent(p, s, e)
    ensures Inv(p, s') && Grows(s, s')
  {
    var o := s.tasks[e.task].order;
    TaskReads(p, s, e.task);
    SentMove(p, s.receipts, s.durations[o.quote.id], o, e.txHash);
    MoveKeeps(p, s, s', e.task, o, RegistrationSubmitted, SentPatch(e.txHash));
  }

  // What reconcile does with the order it read.
  lemma ReconcileOrder(p: Policy, s: State, s': State, e: Event, o: Order)
    requires Inv(p, s) && Read(p, s, o) && e.Reconcile? && MemoryGet(s.memory, e.id) == Some(o) && o.quote.id == e.id
    requires s' == AfterReconcile(p, s, e)
    requires o.state in {RegistrationSubmitted, RegistrationConfirmed, RefundPending}
    ensures Inv(p, s') && Grows(s, s')
  {
    if o.state == RegistrationSubmitted {
      ReceiptingKeeps(p, s, s', e.task, o);
    } else if o.state == RegistrationConfirmed {
      SettlingKeeps(p, s, s', e.task, o);
    } else {
      RefundingKeeps(p, s, s', e.task, o);
    }
  }

  lemma ReconcileKeeps(p: Policy, s: State, e: Event, s': State)
    requires Inv(p, s) && e.Reconcile? && Enabled(p, s, e) && s' == AfterReconcile(p, s, e)
    ensures Inv(p, s') && Grows(s, s')
  {
    if e.id in s.memory.orders {
      var o := s.memory.orders[e.id];
      StoredIsRead(p, s, e.id);
      if o.state == PaymentAuthorized {
        SubmitKeeps(p, s, s', e.task, o);
      } else if o.state in {RegistrationSubmitted, RegistrationConfirmed, RefundPending} {
        ReconcileOrder(p, s, s', e, o);
      }
    }
  }

  lemma ReceiptingKeeps(p: Policy, s: State, s': State, task: TaskId, o: Order)
    requires Inv(p, s) && ReadIn(p, s, o, RegistrationSubmitted) && s' == Awaiting(s, task, Receipting(o))
    ensures Inv(p, s') && Grows(s, s')
  {
    AwaitKeeps(p, s, s', task, Receipting(o));
  }

  lemma AwaitCallKeeps(p: Policy, s: State, s': State, task: TaskId, next: Task, call: ExternalCall)
    requires Inv(p, s) && TaskWell(p, s, next) && CallBacked(s, call)
    requires s' == Awaiting(s.(calls := s.calls + {call}), task, next)
    ensures Inv(p, s') && Grows(s, s')
  {
    AwaitKeeps(p, s, s', task, next);
  }

  lemma SettlingKeeps(p: Policy, s: State, s': State, task: TaskId, o: Order)
    requires Inv(p, s) && ReadIn(p, s, o, RegistrationConfirmed) && s.memory.orders[o.quote.id] == o
    requires var call := Settlement(o.quote.id, o.progress.paymentPayload.value);
             s' == Awaiting(s.(calls := s.calls + {call}), task, Settling(o))
    ensures Inv(p, s') && Grows(s, s')
  {
    AwaitCallKeeps(p, s, s', task, Settling(o), Settlement(o.quote.id, o.progress.paymentPayload.value));
  }

  lemma RefundingKeeps(p: Policy, s: State, s': State, task: TaskId, o: Order)
    requires Inv(p, s) && ReadIn(p, s, o, RefundPending) && s.memory.orders[o.quote.id] == o
    requires s' == Awaiting(s.(calls := s.calls + {Refund(o.quote.id)}), task, Refunding(o))
    ensures Inv(p, s') && Grows(s, s')
  {
    AwaitCallKeeps(p, s, s', task, Refunding(o), Refund(o.quote.id));
  }

  lemma ReceiptKeeps(p: Policy, s: State, e: Event, s': State)
    requires Inv(p, s) && e.ReceiptRead? && Enabled(p, s, e) && s' == AfterReceipt(p, s, e)
    ensures Inv(p, s') && Grows(s, s')
  {
    var o := s.tasks[e.task].order;
    TaskReads(p, s, e.task);
    assert o.progress.registrationTxHash.Some? by { HasTransaction(p, s.receipts, s.durations[o.quote.id], o); }
    if e.receipt.Pending? {
      EndKeeps(p, s, s', e.task);
    } else {
      ReadingKeeps(p, s, s', e.task, o, e.receipt);
    }
  }

  lemma HasTransaction(p: Policy, receipts: set<(Hash, Receipt)>, years: nat, o: Order)
    requires o.state == RegistrationSubmitted && Shape(p, receipts, years, o)
    ensures o.progress.registrationTxHash.Some?
  {
  }

  lemma ReadingKeeps(p: Policy, s: State, s': State, task: TaskId, o: Order, receipt: Receipt)
    requires Inv(p, s) && Read(p, s, o) && o.state == RegistrationSubmitted && !receipt.Pending?
    requires s' == AfterReading(p, s, task, o, receipt)
    ensures Inv(p, s') && Grows(s, s')
  {
    var years := s.durations[o.quote.id];
    ShapeStays(p, s.receipts, s'.receipts, years, o);
    assert WasRead(s'.receipts, o, receipt);
    match receipt
    case Reverted =>
      RevertedMove(p, s'.receipts, years, o);
      MoveKeeps(p, s, s', task, o, RefundPending, FailurePatch("REGISTRATION_REVERTED"));
    case Success(proof) =>
      ProofMove(p, s'.receipts, years, o, proof);
      match AssertReceiptProof(p.keeper, o, proof)
      case Err(_) => MoveKeeps(p, s, s', task, o, ManualReview, FailurePatch("TOKEN_ID_NOT_PROVEN"));
      case Ok(tokenId) => MoveKeeps(p, s, s', task, o, RegistrationConfirmed, TokenPatch(tokenId));
  }

  lemma SettleKeeps(p: Policy, s: State, e: Event, s': State)
    requires Inv(p, s) && e.SettleAnswered? && Enabled(p, s, e) && s' == AfterSettle(p, s, e)
    ensures Inv(p, s') && Grows(s, s')
  {
    var o := s.tasks[e.task].order;
    TaskReads(p, s, e.task);
    var patch := if e.success then BLANK.(settlementTxHash := Some(e.transaction))
                 else FailurePatch("SETTLEMENT_FAILED_AFTER_REGISTRATION");
    var to := if e.success then PaymentSettled else ManualReview;
    SettledMove(p, s.receipts, s.durations[o.quote.id], o, to, patch);
    MoveKeeps(p, s, s', e.task, o, to, patch);
  }

  lemma RefundKeeps(p: Policy, s: State, e: Event, s': State)
    requires Inv(p, s) && e.RefundAnswered? && Enabled(p, s, e) && s' == AfterRefund(p, s, e)
    ensures Inv(p, s') && Grows(s, s')
  {
    var o := s.tasks[e.task].order;
    TaskReads(p, s, e.task);
    if e.refunded {
      RefundMove(p, s.receipts, s.durations[o.quote.id], o, e.refundTx);
      MoveKeeps(p, s, s', e.task, o, Refunded, BLANK.(refundTxHash := e.refundTx));
    } else {
      EndKeeps(p, s, s', e.task);
    }
  }

  lemma StepKeepsInv(p: Policy, s: State, e: Event, s': State)
    requires Injective(p) && Inv(p, s) && Step(p, s, e, s')
    ensures Inv(p, s') && Grows(s, s')
  {
    match e
    case Create(_, _, _, _, _, _, _) => CreateKeeps(p, s, e, s');
    case PermitSigned(_, _, _, _) => PermitKeeps(p, s, e, s');
    case Authorize(_, _, _) => AuthorizeKeeps(p, s, e, s');
    case PaymentVerified(_, _) => VerifiedKeeps(p, s, e, s');
    case RegistrationSent(_, _) => SentKeeps(p, s, e, s');
    case Reconcile(_, _) => ReconcileKeeps(p, s, e, s');
    case ReceiptRead(_, _) => ReceiptKeeps(p, s, e, s');
    case SettleAnswered(_, _, _) => SettleKeeps(p, s, e, s');
    case RefundAnswered(_, _, _) => RefundKeeps(p, s, e, s');
    case Rejected(task) => EndKeeps(p, s, s', task);
  }
}
