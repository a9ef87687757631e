// The keeper across orders: with the unique indexes of the SQL store no two orders share a permit or a
// payment; on the in-memory store they can.
module KeeperUniqueness {
  import opened Options
  import opened Permits
  import opened Orders
  import opened KeeperWorkflow
  import opened KeeperSafety
  import opened KeeperTheorems

  // ---- the store call of a step ----

  function MoveCall(o: Order, to: OrderState, patch: Progress): Call {
    Transition(o.quote.id, o.state, to, patch)
  }

  function ReceiptCall(p: Policy, o: Order, receipt: Receipt): Option<Call> {
    match receipt
    case Pending => None
    case Reverted => Some(MoveCall(o, RefundPending, FailurePatch("REGISTRATION_REVERTED")))
    case Success(proof) =>
      match AssertReceiptProof(p.keeper, o, proof)
      case Err(_) => Some(MoveCall(o, ManualReview, FailurePatch("TOKEN_ID_NOT_PROVEN")))
      case Ok(tokenId) => Some(MoveCall(o, RegistrationConfirmed, TokenPatch(tokenId)))
  }

  function SettleCall(o: Order, e: Event): Call
    requires e.SettleAnswered?
  {
    if e.success then MoveCall(o, PaymentSettled, BLANK.(settlementTxHash := Some(e.transaction)))
    else MoveCall(o, ManualReview, FailurePatch("SETTLEMENT_FAILED_AFTER_REGISTRATION"))
  }

  // The create or transition that a step asks the store for, if any.
  function StoreCall(p: Policy, s: State, e: Event): Option<Call>
    requires Enabled(p, s, e)
  {
    match e
    case Create(_, _, _, _, _, _, _) => Some(Call.Create(Candidate(p, e)))
    case PermitSigned(task, permitId, permit, signature) =>
      var t := s.tasks[task];
      if !PermitFits(p, permitId, permit, t.namehash, t.order.quote, t.durationYears) then None
      else Some(MoveCall(t.order, PermitIssued, PermitPatch(permitId, permit, signature)))
    case PaymentVerified(task, valid) =>
      if !valid then None else Some(MoveCall(s.tasks[task].order, PaymentAuthorized, Bound(p, s.tasks[task].payment)))
    case RegistrationSent(task, txHash) =>
      Some(MoveCall(s.tasks[task].order, RegistrationSubmitted, SentPatch(txHash)))
    case ReceiptRead(task, receipt) => ReceiptCall(p, s.tasks[task].order, receipt)
    case SettleAnswered(task, _, _) => Some(SettleCall(s.tasks[task].order, e))
    case RefundAnswered(task, refunded, refundTx) =>
      if !refunded then None
      else Some(MoveCall(s.tasks[task].order, Refunded, BLANK.(refundTxHash := refundTx)))
    case _ => None
  }

  ghost predicate Calls(s: State, s': State, c: Option<Call>)
    requires MemoryValid(s.memory)
  {
    s'.memory == match c case None => s.memory case Some(call) => OnMemory(s.memory, call).0
  }

  lemma ReadingCalls(p: Policy, s: State, task: TaskId, o: Order, receipt: Receipt, s': State)
    requires MemoryValid(s.memory) && o.state == RegistrationSubmitted && o.progress.registrationTxHash.Some?
    requires !receipt.Pending? && s' == AfterReading(p, s, task, o, receipt)
    ensures Calls(s, s', ReceiptCall(p, o, receipt))
  {
  }

  lemma ReceiptCalls(p: Policy, s: State, e: Event)
    requires Inv(p, s) && e.ReceiptRead? && Enabled(p, s, e)
    ensures Calls(s, AfterReceipt(p, s, e), StoreCall(p, s, e))
  {
    var o := s.tasks[e.task].order;
    TaskReads(p, s, e.task);
    HasTransaction(p, s.receipts, s.durations[o.quote.id], o);
    if !e.receipt.Pending? { ReadingCalls(p, s, e.task, o, e.receipt, AfterReceipt(p, s, e)); }
  }

  function AwaitedState(t: Task): OrderState {
    match t
    case AwaitingPermit(_, _, _) => Quoted
    case Verifying(_, _) => PermitIssued
    case Submitting(_) => PaymentAuthorized
    case Receipting(_) => RegistrationSubmitted
    case Settling(_) => RegistrationConfirmed
    case Refunding(_) => RefundPending
  }

  lemma TaskState(p: Policy, s: State, task: TaskId)
    requires Inv(p, s) && task in s.tasks
    ensures s.tasks[task].order.state == AwaitedState(s.tasks[task])
  {
    TaskReads(p, s, task);
  }

  // The steps that end their task with a transition from the state it has read.
  predicate Ends(e: Event) {
    e.PermitSigned? || e.RegistrationSent? || e.SettleAnswered? || e.RefundAnswered?
  }

  lemma EndingCalls(p: Policy, s: State, e: Event, s': State)
    requires MemoryValid(s.memory) && Enabled(p, s, e) && Ends(e) && s' == Next(p, s, e)
    requires s.tasks[e.task].order.state == AwaitedState(s.tasks[e.task])
    ensures Calls(s, s', StoreCall(p, s, e))
  {
  }

  lemma VerifiedCalls(p: Policy, s: State, e: Event, s': State)
    requires MemoryValid(s.memory) && Enabled(p, s, e) && e.PaymentVerified? && s' == Next(p, s, e)
    requires s.tasks[e.task].order.state == AwaitedState(s.tasks[e.task])
    ensures Calls(s, s', StoreCall(p, s, e))
  {
  }

  lemma StartingCalls(p: Policy, s: State, e: Event, s': State)
    requires MemoryValid(s.memory) && Enabled(p, s, e) && s' == Next(p, s, e)
    requires e.Create? || e.Authorize? || e.Reconcile? || e.Rejected?
    ensures Calls(s, s', StoreCall(p, s, e))
  {
  }

  // A step writes to the store by that one call and by nothing else.
  lemma StepIsStoreCall(p: Policy, s: State, e: Event, s': State)
    requires Inv(p, s) && Step(p, s, e, s')
    ensures Calls(s, s', StoreCall(p, s, e))
  {
    if Ends(e) {
      TaskState(p, s, e.task);
      EndingCalls(p, s, e, s');
    } else if e.PaymentVerified? {
      TaskState(p, s, e.task);
      VerifiedCalls(p, s, e, s');
    } else if e.ReceiptRead? {
      ReceiptCalls(p, s, e);
    } else {
      StartingCalls(p, s, e, s');
    }
  }

  // ---- runs over a store with the unique indexes ----

  // The SQL store would let this step's call through: it does not clash with another order.
  ghost predicate SqlAllows(p: Policy, s: State, e: Event)
    requires Enabled(p, s, e)
  {
    match StoreCall(p, s, e)
    case None => true
    case Some(c) => !Diverges(s.memory, c)
  }

  ghost predicate IsSqlRun(p: Policy, states: seq<State>, events: seq<Event>) {
    && IsRun(p, states, events)
    && forall i | 0 <= i < |events| :: Enabled(p, states[i], events[i]) && SqlAllows(p, states[i], events[i])
  }

  predicate Differ<T(==)>(a: Option<T>, b: Option<T>) {
    a.None? || a != b
  }

  predicate Unshared(a: Order, b: Order) {
    && Differ(a.progress.permitId, b.progress.permitId)
    && Differ(a.progress.paymentIdentifier, b.progress.paymentIdentifier)
  }

  ghost predicate Unique(orders: map<OrderId, Order>) {
    forall a, b | a in orders && b in orders && a != b :: Unshared(orders[a], orders[b])
  }

  lemma CallKeepsUnique(m: Memory, c: Call)
    requires MemoryValid(m) && Unique(m.orders) && !Diverges(m, c)
    ensures Unique(OnMemory(m, c).0.orders)
  {
    var orders := OnMemory(m, c).0.orders;
    forall a, b | a in orders && b in orders && a != b ensures Unshared(orders[a], orders[b]) {
      if a in m.orders && b in m.orders {
        assert Unshared(m.orders[a], m.orders[b]) && Unshared(m.orders[b], m.orders[a]);
      }
    }
  }

  // On such runs no two orders share a permit id or a payment identifier.
  lemma {:induction false} OrdersShareNothing(p: Policy, states: seq<State>, events: seq<Event>, i: nat)
    requires Injective(p) && IsSqlRun(p, states, events) && i < |states|
    ensures Unique(states[i].memory.orders)
  {
    if i > 0 {
      OrdersShareNothing(p, states, events, i - 1);
      RunStays(p, states, events, i - 1);
      StepIsStoreCall(p, states[i - 1], events[i - 1], states[i]);
      var call := StoreCall(p, states[i - 1], events[i - 1]);
      assert SqlAllows(p, states[i - 1], events[i - 1]);
      if call.Some? { CallKeepsUnique(states[i - 1].memory, call.value); }
    }
  }

  // One payment is settled for one order, and one permit is submitted for one order.
  lemma PaymentsServeOneOrder(p: Policy, states: seq<State>, events: seq<Event>, i: nat, a: ExternalCall,
                              b: ExternalCall)
    requires Injective(p) && IsSqlRun(p, states, events) && i < |states|
    requires a in states[i].calls && b in states[i].calls
    ensures a.Settlement? && b.Settlement? && p.sha(a.payment) == p.sha(b.payment) ==> a.id == b.id
    ensures a.Submission? && b.Submission? && a.permit.permitId == b.permit.permitId ==> a.id == b.id
  {
    var s := states[i];
    OrdersShareNothing(p, states, events, i);
    RunStays(p, states, events, i);
    BackedBy(p, s, a);
    BackedBy(p, s, b);
    assert a.id != b.id ==> Unshared(s.memory.orders[a.id], s.memory.orders[b.id]);
  }

  lemma BackedBy(p: Policy, s: State, c: ExternalCall)
    requires Inv(p, s) && c in s.calls
    ensures c.id in s.memory.orders
    ensures var progress := s.memory.orders[c.id].progress;
            && (c.Settlement? ==> progress.paymentIdentifier == Some(p.sha(c.payment)))
            && (c.Submission? ==> progress.permitId == Some(c.permit.permitId))
  {
    assert CallBacked(s, c) && StoredWell(p, s, c.id);
  }

  // One payment is accepted for one order.
  lemma PaymentsAreBoundOnce(p: Policy, states: seq<State>, events: seq<Event>, i: nat, a: (OrderId, Payload),
                             b: (OrderId, Payload))
    requires Injective(p) && IsSqlRun(p, states, events) && i < |states|
    requires a in states[i].accepted && b in states[i].accepted && p.sha(a.1) == p.sha(b.1)
    ensures a.0 == b.0
  {
    var s := states[i];
    OrdersShareNothing(p, states, events, i);
    RunStays(p, states, events, i);
    assert IsBound(p, s, a) && IsBound(p, s, b);
    assert a.0 != b.0 ==> Unshared(s.memory.orders[a.0], s.memory.orders[b.0]);
  }

  // ---- the in-memory store ----

  ghost predicate Reachable(p: Policy, s: State) {
    exists states, events :: IsRun(p, states, events) && states[|events|] == s
  }

  lemma Extend(p: Policy, s: State, e: Event)
    requires Injective(p) && Reachable(p, s) && Enabled(p, s, e)
    ensures MemoryValid(s.memory) && Reachable(p, Next(p, s, e))
  {
    var states, events :| IsRun(p, states, events) && states[|events|] == s;
    RunStays(p, states, events, |events|);
    var states', events' := states + [Next(p, s, e)], events + [e];
    forall i | 0 <= i < |events'| ensures Step(p, states'[i], events'[i], states'[i + 1]) {
      if i < |events| { assert Step(p, states[i], events[i], states[i + 1]) && events'[i] == events[i]; }
    }
    assert IsRun(p, states', events') && states'[|events'|] == Next(p, s, e);
  }

  // One order for the cheapest name, from its creation to its settlement with this payment.
  function QuoteOf(p: Policy, id: OrderId, key: string): Quote {
    Quote(id, key, p.digest(Terms(100, 200, 300, 1, p.controller, p.releaseId, 1)), "name", 100, 200, 300, p.controller,
          p.releaseId, 1)
  }

  function PermitOf(p: Policy, id: OrderId): AgentPermit {
    ExpectedPermit(p, id, 200, QuoteOf(p, id, ""), 1, 0, 300)
  }

  function Created(p: Policy, id: OrderId, key: string): Order {
    Order(QuoteOf(p, id, key), Quoted, BLANK)
  }

  function Permitted(p: Policy, id: OrderId, key: string): Order {
    Patched(Created(p, id, key), PermitIssued, PermitPatch(id, PermitOf(p, id), 0))
  }

  function Authorized(p: Policy, id: OrderId, key: string, payment: Payload): Order {
    Patched(Permitted(p, id, key), PaymentAuthorized, Bound(p, payment))
  }

  function Sent(p: Policy, id: OrderId, key: string, payment: Payload): Order {
    Patched(Authorized(p, id, key, payment), RegistrationSubmitted, SentPatch(id))
  }

  function Confirmed(p: Policy, id: OrderId, key: string, payment: Payload): Order {
    Patched(Sent(p, id, key, payment), RegistrationConfirmed, TokenPatch(100))
  }

  // State s with the order stored under its key.
  function Holding(s: State, o: Order): State {
    s.(memory := Memory(s.memory.orders[o.quote.id := o], s.memory.byIdempotency[o.quote.idempotencyKey := o.quote.id]),
       durations := s.durations[o.quote.id := 1])
  }

  predicate Unused(s: State, id: OrderId, key: string) {
    s.tasks == map[] && id !in s.memory.orders && key !in s.memory.byIdempotency
  }

  lemma OrderIsCreated(p: Policy, s: State, id: OrderId, key: string)
    requires Injective(p) && 1 <= p.maxAmount && Reachable(p, s) && Unused(s, id, key)
    ensures var o := Created(p, id, key); Reachable(p, Holding(s, o).(tasks := map[0 := AwaitingPermit(o, 200, 1)]))
  {
    var e := Event.Create(0, id, key, Identity("name", 100, 200), 300, 1, 1);
    Extend(p, s, e);
    assert Candidate(p, e) == Created(p, id, key);
    InsertKeepsValid(s.memory, Created(p, id, key));
    assert Next(p, s, e)
           == Holding(s, Created(p, id, key)).(tasks := map[0 := AwaitingPermit(Created(p, id, key), 200, 1)]);
  }

  lemma OrderIsPermitted(p: Policy, s: State, id: OrderId, key: string)
    requires Injective(p) && 1 <= p.maxAmount && Reachable(p, s) && Unused(s, id, key)
    ensures Reachable(p, Holding(s, Permitted(p, id, key)))
  {
    OrderIsCreated(p, s, id, key);
    var o := Created(p, id, key);
    var quoted := Holding(s, o).(tasks := map[0 := AwaitingPermit(o, 200, 1)]);
    Extend(p, quoted, PermitSigned(0, id, PermitOf(p, id), 0));
    assert quoted.memory.orders[id := Permitted(p, id, key)] == s.memory.orders[id := Permitted(p, id, key)];
    assert quoted.tasks - {0} == s.tasks;
    assert Next(p, quoted, PermitSigned(0, id, PermitOf(p, id), 0)) == Holding(s, Permitted(p, id, key));
  }

  // The state in which the order's payment is authorized and its registration submitted.
  function Submitted(p: Policy, s: State, id: OrderId, key: string, payment: Payload): State {
    Holding(s, Sent(p, id, key, payment)).(
      calls := s.calls + {Submission(id, PermitOf(p, id), 0)}, accepted := s.accepted + {(id, payment)})
  }

  lemma OrderIsAuthorized(p: Policy, s: State, id: OrderId, key: string, payment: Payload)
    requires Injective(p) && 1 <= p.maxAmount && Reachable(p, s) && Unused(s, id, key)
    ensures var o := Authorized(p, id, key, payment);
            Reachable(p, Holding(s, o).(tasks := map[0 := Submitting(o)],
                                        calls := s.calls + {Submission(id, PermitOf(p, id), 0)},
                                        accepted := s.accepted + {(id, payment)}))
  {
    OrderIsPermitted(p, s, id, key);
    var was, o := Permitted(p, id, key), Authorized(p, id, key, payment);
    var permitted := Holding(s, was);
    Extend(p, permitted, Authorize(0, id, payment));
    var verifying := permitted.(tasks := map[0 := Verifying(was, payment)]);
    assert Next(p, permitted, Authorize(0, id, payment)) == verifying;
    Extend(p, verifying, PaymentVerified(0, true));
    assert permitted.memory.orders[id := o] == s.memory.orders[id := o];
    assert Next(p, verifying, PaymentVerified(0, true))
           == Holding(s, o).(tasks := map[0 := Submitting(o)], calls := s.calls + {Submission(id, PermitOf(p, id), 0)},
                             accepted := s.accepted + {(id, payment)});
  }

  lemma OrderIsSubmitted(p: Policy, s: State, id: OrderId, key: string, payment: Payload)
    requires Injective(p) && 1 <= p.maxAmount && Reachable(p, s) && Unused(s, id, key)
    ensures Reachable(p, Submitted(p, s, id, key, payment))
  {
    OrderIsAuthorized(p, s, id, key, payment);
    var o, next := Authorized(p, id, key, payment), Sent(p, id, key, payment);
    var submitting := Holding(s, o).(tasks := map[0 := Submitting(o)],
                                     calls := s.calls + {Submission(id, PermitOf(p, id), 0)},
                                     accepted := s.accepted + {(id, payment)});
    Extend(p, submitting, RegistrationSent(0, id));
    assert submitting.memory.orders[id := next] == s.memory.orders[id := next];
    assert submitting.tasks - {0} == s.tasks;
    assert Next(p, submitting, RegistrationSent(0, id)) == Submitted(p, s, id, key, payment);
  }

  lemma OrderIsConfirmed(p: Policy, s: State, id: OrderId, key: string, payment: Payload) returns (s': State)
    requires Injective(p) && 1 <= p.maxAmount && Reachable(p, s) && Unused(s, id, key)
    ensures Reachable(p, s') && s'.tasks == map[] && s.calls <= s'.calls
    ensures s'.memory == Holding(s, Confirmed(p, id, key, payment)).memory
  {
    OrderIsSubmitted(p, s, id, key, payment);
    var o, next := Sent(p, id, key, payment), Confirmed(p, id, key, payment);
    var submitted := Submitted(p, s, id, key, payment);
    Extend(p, submitted, Reconcile(0, id));
    var receipting := submitted.(tasks := map[0 := Receipting(o)]);
    assert Next(p, submitted, Reconcile(0, id)) == receipting;
    var proof := ExpectedProof(p.keeper, o.quote, id, 100);
    Extend(p, receipting, ReceiptRead(0, Success(proof)));
    s' := Next(p, receipting, ReceiptRead(0, Success(proof)));
    assert submitted.memory.orders[id := next] == s.memory.orders[id := next];
    assert receipting.tasks - {0} == map[];
  }

  lemma OrderIsSettled(p: Policy, s: State, id: OrderId, key: string, payment: Payload) returns (s': State)
    requires Injective(p) && 1 <= p.maxAmount && Reachable(p, s) && Unused(s, id, key)
    ensures Reachable(p, s') && s'.tasks == map[] && s.calls <= s'.calls && Settlement(id, payment) in s'.calls
    ensures s'.memory.orders.Keys == s.memory.orders.Keys + {id}
    ensures s'.memory.byIdempotency.Keys == s.memory.byIdempotency.Keys + {key}
  {
    var confirmed := OrderIsConfirmed(p, s, id, key, payment);
    Extend(p, confirmed, Reconcile(0, id));
    var settling := Next(p, confirmed, Reconcile(0, id));
    Extend(p, settling, Rejected(0));
    s' := Next(p, settling, Rejected(0));
    assert s'.tasks == map[];
  }

  // Nothing in the workflow itself keeps one payment to one order: on the in-memory store a run settles it twice.
  lemma OnePaymentSettledTwice(p: Policy, payment: Payload) returns (s: State)
    requires Injective(p) && 1 <= p.maxAmount
    ensures Reachable(p, s) && Settlement(1, payment) in s.calls && Settlement(2, payment) in s.calls
  {
    var none: seq<Event> := [];
    assert IsRun(p, [INITIAL], none) && [INITIAL][|none|] == INITIAL;
    s := OrderIsSettled(p, INITIAL, 1, "first", payment);
    s := OrderIsSettled(p, s, 2, "second", payment);
  }
}
